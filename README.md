# Inquieta Dulzura — a Dafny model of the bakery backend's core

This project models the server core of the Inquieta Dulzura bakery
backend (TypeScript, Express, MySQL) in Dafny and proves properties of the
model:

- **the photo gallery** (`FotoService`): upload validation, the
  principal-photo rule, ordering, reordering, deletion, statistics and the
  orphan-file sweep;
- **the session lifecycle** (`AuthService`): registration, login, refresh,
  logout and the expiry sweep;
- **the request gates** (`middleware/auth.ts`) and **the input checks and
  status mapping** of `AuthController`;
- **the in-memory digital-content store** (`ContenidoDigitalService`);
- **the resource tables**: ingredients (an upsert keyed on the name, and a
  soft delete), products and categories (merge update, hard delete), and
  recipes (a recipe plus its ingredient links, replaced wholesale).

Every database table is a `seq` of rows held in a field of the service's
class, next to the AUTO_INCREMENT counter. Each SQL statement is an update
of that field. Each state-changing method states its whole new state
through a function of the old one. The properties are proved about those
functions as lemmas, and about the class invariants (`Valid`) that every
method keeps.

Foreign code enters as parameters:

- bcrypt and jsonwebtoken are the functions of a `Cripto` value;
- the random refresh token, the uuid file name, the Cloudinary upload
  result, the directory listing and the clock (`now`, in milliseconds) are
  method parameters;
- moving, uploading and deleting files come back as effect values
  (`Almacenamiento`, `Borrado`) that the caller would carry out.

Modules, one per source file: `Common` (shared helpers: option values,
filtering, keyed-table updates, the name order, a stable insertion sort),
`Usuarios`, `Auth`, `Middleware`, `AuthControl`, `Fotos`,
`ContenidoDigital`, `Ingredientes`, `Productos`, `Categorias` and
`Recetas`.

Modelling choices that need stating:

- `IngredienteService.update` writes all five columns from its argument. A
  field left out of the argument is therefore stored as NULL. The service's
  own unit test expects the old values to be kept. The model follows the
  code (`Ingredientes.Escrito`). `Ingredientes.UpdateSinActivoOculta`
  shows one consequence: an update without `activo` hides the row from both
  reads.
- On the insert path, `IngredienteService.create` returns
  `{ id: insertedId, ...ingrediente }`. An `id` carried in the request body
  therefore replaces the inserted id in the response. The model keeps this
  behaviour (`Ingredientes.Creado`).
- JavaScript's `\s` in the email regular expression is modelled with the
  whole set of characters JavaScript counts as white space, Unicode spaces
  included (`AuthControl.EsEspacio`).
- `toLowerCase` is modelled on ASCII letters only.
- The `ORDER BY nombre` listings are modelled as character-by-character
  order on the names. The result is stated as a sorted permutation of the
  selected rows; the order of rows with equal names is not fixed.
- `affectedRows` is taken as the number of rows matched. This is the
  MySQL client default (the found-rows flag).
- The column default of `activo` in `usuarios`, `productos`, `categorias`
  and `recetas` is taken to be true (`ACTIVO_POR_DEFECTO`). The INSERTs of
  `register` and of the three `create` operations leave the column out, so a
  new row is active only under this assumption.
- SELECTs without ORDER BY are modelled as returning rows in insertion
  order. MySQL does not promise that order. Contracts that rely on it: the
  ingredient listing in table order, the first row with the same name that
  the ingredient upsert overwrites, and the recipe join in link order
  (`Recetas.UnidosCompleto`).

## Model

| member | source | states |
|---|---|---|
| Usuarios.SinPasswordSoloOlvidaElHash | server/src/services/AuthService.ts:129-130 | stripping the hash forgets nothing else: two users look the same without it iff they differ at most in `password_hash` |
| Auth.PayloadIdentifica | server/src/services/AuthService.ts:277-281 | under the table invariant the claims name exactly one user: two stored users with the same `userId` claim are the same row |
| Auth.CicloDeVidaRefresh | server/src/services/AuthService.ts:289-291 | a refresh token issued at `now` refreshes iff the clock is before `now` plus seven days, and the sweep removes it iff the clock is strictly after that instant |
| Auth.AuthService.GenerateTokens | server/src/services/AuthService.ts:276-298 | appends one refresh row owned by the user, expiring in seven days; the access token signs the user's claims |
| Auth.AuthService.Register | server/src/services/AuthService.ts:23-79 | a taken email, active or not, is refused with the duplicate message and no write; otherwise exactly one user with role `usuario`, the column default for `activo` (`Auth.ACTIVO_POR_DEFECTO`) and one refresh row owned by it are added; the ids stay unique |
| Auth.AuthService.Login | server/src/services/AuthService.ts:85-145 | succeeds iff an active user with that email has a matching password; every failure gives the same message and changes nothing; a success stamps `ultimo_login` on that user only and appends a refresh row, keeping the old ones |
| Auth.AuthService.RefreshAccessToken | server/src/services/AuthService.ts:151-194 | succeeds iff some row holds the token with expiry strictly after `now` and an active owner; on success the access token signs the claims of that row's owner; the token table is never written |
| Auth.AuthService.Logout | server/src/services/AuthService.ts:200-221 | removes every row with that token, keeps all others, always reports success |
| Auth.AuthService.CleanExpiredTokens | server/src/services/AuthService.ts:258-270 | removes exactly the rows expired strictly before `now` and returns how many there were |
| Auth.AuthService.GetUserById | server/src/services/AuthService.ts:240-253 | the user with that id, active or not, without the hash; nothing when absent |
| Auth.GetUserByIdDevuelveFila | server/src/services/AuthService.ts:240-253 | under the table invariant every stored user is returned as itself minus the hash |
| Auth.LogoutIdempotente | server/src/services/AuthService.ts:205-213 | logging out twice leaves the table as logging out once |
| Auth.LimiteDeExpiracion | server/src/services/AuthService.ts:162 | a row expiring exactly at `now` survives the sweep yet no longer refreshes |
| Middleware.Split | server/src/middleware/auth.ts:18 | `split(' ')` gives at least one field and no field contains a space |
| Middleware.SplitJoin | server/src/middleware/auth.ts:18 | joining the fields with single spaces gives back the header |
| Middleware.ExtraerTokenCaracterizacion | server/src/middleware/auth.ts:17-20 | the token is `t` iff the header is a space-free word, one space, the non-empty space-free `t`, then the end or a space; the scheme word is not checked |
| Middleware.AuthenticateToken | server/src/middleware/auth.ts:10-50 | no token is 401, a token the verifier refuses is 403, a valid one calls `next` with the verifier's claims |
| Middleware.OptionalAuth | server/src/middleware/auth.ts:56-77 | always calls `next`; sets the user iff a token is present and valid |
| Middleware.RequireAdmin | server/src/middleware/auth.ts:83-104 | 401 without a user, 403 for a non-admin, otherwise `next` with the user unchanged |
| Middleware.CadenaAdmin | server/src/middleware/auth.ts:10-104 | the two chained gates pass iff the token is present and valid and carries the admin role; after the first gate passes, the admin gate never answers 401 |
| AuthControl.EmailValido | server/src/controllers/AuthController.ts:26-33 | accepts exactly the strings matching `^[^\s@]+@[^\s@]+\.[^\s@]+$`, both directions |
| AuthControl.EmailValidoCorrecto | server/src/controllers/AuthController.ts:26 | the scan agrees with the regular expression stated as a split into local part, domain head and domain tail |
| AuthControl.ErrorRegistro | server/src/controllers/AuthController.ts:17-42 | required fields first, then the email format, then a password of at least 6 UTF-16 code units; each error iff the earlier checks pass and this one fails |
| AuthControl.LongitudUtf16 | server/src/controllers/AuthController.ts:35 | JavaScript's `length`: between the character count and twice it, equal to it when every character is in the Basic Multilingual Plane |
| AuthControl.TresEmojiBastan | server/src/controllers/AuthController.ts:35 | a password of three emoji has length 6 and passes the check |
| AuthControl.Register | server/src/controllers/AuthController.ts:12-55 | a failed check is 400 and writes nothing; otherwise the service runs and success maps to 201, failure to 400 |
| AuthControl.ErrorLogin | server/src/controllers/AuthController.ts:65-71 | 400 exactly when the email or the password is missing or empty |
| AuthControl.Login | server/src/controllers/AuthController.ts:61-84 | missing fields are 400 and write nothing; otherwise 200 iff the service logs in, else 401 |
| AuthControl.Refresh | server/src/controllers/AuthController.ts:90-113 | 400 without a token; otherwise 200 iff the refresh succeeds, else 401 |
| AuthControl.Logout | server/src/controllers/AuthController.ts:119-142 | 400 without a token and no write; otherwise 200 and the token's rows are gone |
| AuthControl.Me | server/src/controllers/AuthController.ts:148-180 | 401 without a user, 404 for an unknown id, otherwise 200 with the user without its hash |
| Fotos.ValidarArchivo | server/src/services/FotoService.ts:278-285 | accepted iff the type is one of the four image types and the size is at most 5 MiB (exactly 5 MiB passes); the type error comes first |
| Fotos.UltimaPosicion | server/src/services/FotoService.ts:224-229 | the last position of an id in the list, or none when absent |
| Fotos.MaxOrden | server/src/services/FotoService.ts:296-299 | the greatest `orden` among the product's photos, none without photos |
| Fotos.SiguienteOrden | server/src/services/FotoService.ts:296-299 | 1 for a product without photos, else its greatest `orden` plus one; always above every `orden` of the product |
| Fotos.ListadoEsPreorden | server/src/services/FotoService.ts:193-197 | "principal first, then ascending `orden`" is a total preorder |
| Fotos.SumaTamanos | server/src/services/FotoService.ts:240 | the total bounds every photo's size |
| Fotos.SumaConcatenada | server/src/services/FotoService.ts:240 | the total of two tables together is the sum of their totals |
| Fotos.SumaSinOrden | server/src/services/FotoService.ts:240 | the total ignores row order: the same rows, each as often, give the same total |
| Fotos.MaxTamano | server/src/services/FotoService.ts:242 | the largest size of some photo, 0 on an empty table |
| Fotos.MinTamano | server/src/services/FotoService.ts:243 | the smallest size of some photo, 0 on an empty table |
| Fotos.DesmarcadoEfecto | server/src/services/FotoService.ts:292-294 | clearing leaves the product without a principal photo and every other product's rows untouched |
| Fotos.DesmarcadoValido | server/src/services/FotoService.ts:292-294 | clearing flags keeps ids unique and below the counter |
| Fotos.MarcadoValido | server/src/services/FotoService.ts:215 | setting the flag keeps ids unique and below the counter |
| Fotos.ConOrdenValido | server/src/services/FotoService.ts:225-228 | setting one `orden` keeps ids unique and below the counter |
| Fotos.PrincipalTrasSubida | server/src/services/FotoService.ts:107-109 | an upload keeps at most one principal per product; with the flag the new photo is its product's only principal; without it no flag changes |
| Fotos.PrincipalTrasEstablecer | server/src/services/FotoService.ts:211-220 | on a table with valid ids, clearing then marking keeps at most one principal per product and leaves the chosen photo its product's only principal |
| Fotos.ReordenadoEfecto | server/src/services/FotoService.ts:222-234 | each listed photo of the product gets the last position of its id, counting from 0; unknown ids and other products' ids are ignored; unlisted photos keep their `orden` |
| Fotos.PrincipalTrasReordenar | server/src/services/FotoService.ts:222-234 | reordering keeps at most one principal per product |
| Fotos.PrincipalTrasEliminar | server/src/services/FotoService.ts:186 | deleting keeps at most one principal per product |
| Fotos.MaxOrdenDesmarcado | server/src/services/FotoService.ts:145-149 | clearing flags does not move the greatest `orden`, so the new photo's order is computed the same after the clear |
| Fotos.NombresHuerfanos | server/src/services/FotoService.ts:262-271 | the orphans are the listed names whose full path no row stores |
| Fotos.HuerfanosCardinal | server/src/services/FotoService.ts:262-271 | on a listing without repeats, the orphan count is the size of that set difference |
| Fotos.FotoService.ObtenerFotoPorId | server/src/services/FotoService.ts:199-203 | the photo with that id, or none when absent |
| Fotos.FotoService.DesmarcarPrincipal | server/src/services/FotoService.ts:292-294 | the table becomes the cleared table; ids stay valid |
| Fotos.FotoService.ObtenerSiguienteOrden | server/src/services/FotoService.ts:296-299 | returns the next order, above every `orden` of the product |
| Fotos.FotoService.SubirFotoLocal | server/src/services/FotoService.ts:135-172 | moves the file to the upload directory; inserts the row with local paths, the next id and the next order, after clearing the flag when requested |
| Fotos.FotoService.SubirFotoCloudinary | server/src/services/FotoService.ts:92-133 | inserts the row with the cloud URL, public id, size and dimensions, the next id and the next order, after clearing the flag when requested |
| Fotos.FotoService.SubirFoto | server/src/services/FotoService.ts:72-90 | the file check comes first, then the product check, and only then any storage or write; each failure returns its message and leaves the table unchanged |
| Fotos.FotoService.EliminarFoto | server/src/services/FotoService.ts:174-191 | an unknown id fails with no change; otherwise exactly the rows with that id are removed and the stored file is released in the cloud or on disk |
| Fotos.FotoService.ObtenerFotosProducto | server/src/services/FotoService.ts:193-197 | exactly the product's photos, each as often as stored, principal first, then ascending `orden` |
| Fotos.FotoService.ObtenerFotoPrincipal | server/src/services/FotoService.ts:205-209 | a principal photo of the product, none iff it has none |
| Fotos.FotoService.EstablecerPrincipal | server/src/services/FotoService.ts:211-220 | an unknown id fails with no change; otherwise that photo becomes its product's only principal and other products are untouched; at most one principal per product stays true |
| Fotos.FotoService.ReordenarFotos | server/src/services/FotoService.ts:222-234 | the loop leaves the table equal to the reordered table and reports success |
| Fotos.FotoService.ObtenerEstadisticas | server/src/services/FotoService.ts:236-256 | the count, the total, the largest and the smallest size of the table; all 0 on an empty table |
| Fotos.FotoService.LimpiarArchivosHuerfanos | server/src/services/FotoService.ts:258-276 | unavailable on Cloudinary; otherwise deletes exactly the orphan files, in listing order, and reports their number |
| Fotos.PrincipalUnica | server/src/services/FotoService.ts:205-209 | with at most one principal per product, the principal the query finds is the product's only one |
| ContenidoDigital.FusionTalCual | server/src/services/ContenidoDigitalService.ts:40 | the merge as written, where a present `id` overrides the entry's (see Findings) |
| ContenidoDigital.Fusion | server/src/services/ContenidoDigitalService.ts:40 | the merge keeps the entry's id and otherwise agrees with the merge as written |
| ContenidoDigital.FusionCampos | server/src/services/ContenidoDigitalService.ts:40 | every field comes from the patch when present, else from the entry |
| ContenidoDigital.ConEtiqueta | server/src/services/ContenidoDigitalService.ts:52-61 | the tag is appended only when absent; the old tags stay, as a prefix |
| ContenidoDigital.ConEtiquetaIdempotente | server/src/services/ContenidoDigitalService.ts:55-57 | adding the same tag twice is adding it once |
| ContenidoDigital.SinEtiqueta | server/src/services/ContenidoDigitalService.ts:63-70 | every copy of the tag is removed; every other tag stays as often as it was, in its order |
| ContenidoDigital.Minusculas | server/src/services/ContenidoDigitalService.ts:21 | lower-casing leaves no capital letter and keeps the length |
| ContenidoDigital.Incluye | server/src/services/ContenidoDigitalService.ts:21 | `includes` holds iff the query occurs at some position |
| ContenidoDigital.EtiquetaParecidaCaracterizacion | server/src/services/ContenidoDigitalService.ts:19-23 | the tag test holds iff some lower-cased tag contains the lower-cased query |
| ContenidoDigital.Recortar | server/src/services/ContenidoDigitalService.ts:47-48 | cutting one entry out keeps the other ids distinct |
| ContenidoDigital.ListadoYBusquedaConcuerdan | server/src/services/ContenidoDigitalService.ts:7-13 | the full listing and the lookup by id agree: a listed entry is what its id finds, and whatever an id finds is listed |
| ContenidoDigital.ContenidoDigitalService.ObtenerImagenPorId | server/src/services/ContenidoDigitalService.ts:11-13 | the first entry with that id, none iff no entry has it |
| ContenidoDigital.ContenidoDigitalService.ObtenerImagenesPorProducto | server/src/services/ContenidoDigitalService.ts:15-17 | exactly the product's entries, each as often as stored, in list order |
| ContenidoDigital.ContenidoDigitalService.ObtenerImagenesPorEtiqueta | server/src/services/ContenidoDigitalService.ts:19-23 | exactly the entries with a tag containing the query, case-insensitively, each as often as stored, in list order |
| ContenidoDigital.ContenidoDigitalService.CrearImagen | server/src/services/ContenidoDigitalService.ts:25-33 | the new entry takes the counter as id and is appended; the counter grows; ids stay distinct and below the counter |
| ContenidoDigital.ContenidoDigitalService.ActualizarImagen | server/src/services/ContenidoDigitalService.ts:35-42 | an unknown id fails with no change; otherwise only that entry changes, in place, to the merge |
| ContenidoDigital.ContenidoDigitalService.EliminarImagen | server/src/services/ContenidoDigitalService.ts:44-50 | an unknown id fails with no change; otherwise that one entry is cut out, the length drops by one, the rest keep their order |
| ContenidoDigital.ContenidoDigitalService.AgregarEtiqueta | server/src/services/ContenidoDigitalService.ts:52-61 | an unknown id fails with no change; otherwise only that entry gains the tag |
| ContenidoDigital.ContenidoDigitalService.EliminarEtiqueta | server/src/services/ContenidoDigitalService.ts:63-70 | an unknown id fails with no change; otherwise only that entry loses the tag |
| ContenidoDigital.FusionTalCualDuplicaIds | server/src/services/ContenidoDigitalService.ts:40 | a patch carrying another entry's id leaves two entries with one id |
| ContenidoDigital.FusionConservaIds | server/src/services/ContenidoDigitalService.ts:38-41 | with the corrected merge an update keeps ids distinct |
| ContenidoDigital.MinusculasSinMayusculas | server/src/services/ContenidoDigitalService.ts:21 | lower-casing a string without capitals changes nothing |
| ContenidoDigital.BusquedaChocolate | server/src/__tests__/ContenidoDigitalService.test.ts:47-49 | searching "chocolate" among a "chocolate" entry and a "vainilla" entry finds only the first |
| Ingredientes.Creado | server/src/services/IngredienteService.ts:16-43 | an existing name, active or not, has its first row overwritten, and that row's id is returned with no row added; otherwise one row is inserted under the counter; `activo` defaults to true |
| Ingredientes.IngredienteService.GetAll | server/src/services/IngredienteService.ts:5-8 | exactly the rows whose `activo` is true, each as often as stored, in table order |
| Ingredientes.IngredienteService.GetById | server/src/services/IngredienteService.ts:10-14 | the row with that id when it is active; none for an unknown or inactive id |
| Ingredientes.IngredienteService.Create | server/src/services/IngredienteService.ts:16-43 | the table, counter and result are those of the upsert; the key stays valid |
| Ingredientes.IngredienteService.Update | server/src/services/IngredienteService.ts:45-55 | all five columns are written from the argument; an unknown id changes nothing and gives none; otherwise the row is read back, none if now inactive |
| Ingredientes.IngredienteService.Delete | server/src/services/IngredienteService.ts:57-61 | the soft delete; true iff a row has that id |
| Ingredientes.EscritoSinCoincidencia | server/src/services/IngredienteService.ts:47-53 | an update of an unknown id writes nothing |
| Ingredientes.EscritoEfecto | server/src/services/IngredienteService.ts:46-50 | the matched row takes exactly the argument's five fields, NULL for absent ones; other rows are unchanged |
| Ingredientes.UpdateSinActivoOculta | server/src/services/IngredienteService.ts:46-54 | an update without `activo` hides the row from `getAll` and `getById` although it stays in the table |
| Ingredientes.DesactivadoEfecto | server/src/services/IngredienteService.ts:57-61 | the soft delete keeps every row, clears the matched row's flag and touches no other row |
| Ingredientes.DesactivadoIdempotente | server/src/services/IngredienteService.ts:59 | deleting twice is deleting once |
| Ingredientes.CreadoConservaNombresUnicos | server/src/services/IngredienteService.ts:20-42 | the upsert never creates a second row with the same name |
| Ingredientes.CreadoGuarda | server/src/services/IngredienteService.ts:26-42 | afterwards a row with the name carries the given description, unit, cost and flag; without an id in the argument the returned id is that row's |
| Ingredientes.SobrescritoConserva | server/src/services/IngredienteService.ts:29-32 | the upsert's overwrite keeps every row's id and name |
| Ingredientes.SobrescritoIdempotente | server/src/services/IngredienteService.ts:29-32 | overwriting twice with the same values is overwriting once |
| Ingredientes.CreadoIdempotente | server/src/services/IngredienteService.ts:16-43 | creating the same ingredient twice leaves the table and counter as creating it once |
| Common.PorColumnaEsPreorden | server/src/services/ProductoService.ts:8 | ordering on a text column, character by character, is a total preorder |
| Common.ListadoPor | server/src/services/ProductoService.ts:8 | an `ORDER BY` listing has the same rows, each as often, in ascending order of the column |
| Productos.CostoONull | server/src/services/ProductoService.ts:34 | a missing or zero cost becomes NULL, any other is kept |
| Productos.ProductoService.GetAll | server/src/services/ProductoService.ts:7-10 | exactly the active products, each as often as stored, sorted by name |
| Productos.ProductoService.GetAllAdmin | server/src/services/ProductoService.ts:12-15 | every product, sorted by name |
| Productos.ProductoService.GetByCategoriaId | server/src/services/ProductoService.ts:17-20 | exactly the category's active products, each as often as stored, sorted by name |
| Productos.ProductoService.GetById | server/src/services/ProductoService.ts:22-28 | the row with that id, active or not; none iff absent |
| Productos.ProductoService.Create | server/src/services/ProductoService.ts:30-38 | one row under the counter, falsy optional fields as NULL, read back |
| Productos.ProductoService.Update | server/src/services/ProductoService.ts:40-63 | a missing id gives none and no write; otherwise the merged row replaces that row only and is what a re-read returns |
| Productos.ProductoService.Delete | server/src/services/ProductoService.ts:65-68 | removes the rows with that id; true iff there was one |
| Common.ReemplazarLee | server/src/services/ProductoService.ts:46-62 | when the condition matches one row at most and the update keeps it matching, reading back by that condition returns the updated row |
| Productos.ActualizadoEfecto | server/src/services/ProductoService.ts:46-60 | only that row changes; it keeps its id, and each of its seven written columns (`categoria_id`, `nombre`, `descripcion`, `precio`, `costo`, `sku`, `activo`) takes the patch value when present and keeps the row's value otherwise |
| Productos.FusionVacia | server/src/services/ProductoService.ts:46 | an empty patch writes the row back unchanged |
| Productos.FusionIdempotente | server/src/services/ProductoService.ts:46 | applying a patch twice is applying it once |
| Productos.NuevoFalsosANull | server/src/services/ProductoService.ts:34 | a zero cost or an empty description or SKU is stored as NULL; new rows are active |
| Productos.BorradoEfecto | server/src/services/ProductoService.ts:66 | no row with that id remains, every other row does; deleting again changes nothing |
| Productos.ListadosAnidados | server/src/services/ProductoService.ts:7-15 | the public listing is contained in the admin listing |
| Categorias.CategoriaService.GetAll | server/src/services/CategoriaService.ts:7-10 | every category, active or not, sorted by name |
| Categorias.CategoriaService.GetById | server/src/services/CategoriaService.ts:12-18 | the row with that id; none iff absent |
| Categorias.CategoriaService.Create | server/src/services/CategoriaService.ts:20-28 | one row under the counter with `descripcion \|\| null`, read back |
| Categorias.CategoriaService.Update | server/src/services/CategoriaService.ts:30-44 | a missing id gives none and no write; otherwise the merged row replaces that row only and is returned |
| Categorias.CategoriaService.Delete | server/src/services/CategoriaService.ts:46-49 | removes the row; true iff there was one |
| Categorias.ActualizadaEfecto | server/src/services/CategoriaService.ts:36-41 | only that row changes; nombre, descripcion and activo come from the patch when present |
| Categorias.FusionNeutraEIdempotente | server/src/services/CategoriaService.ts:36 | an empty patch changes nothing; a patch applied twice is applied once |
| Categorias.NuevaDescripcion | server/src/services/CategoriaService.ts:24 | the description is NULL iff it is missing or empty |
| Categorias.BorradaEfecto | server/src/services/CategoriaService.ts:47 | no row with that id remains, every other row does; deleting again changes nothing |
| Recetas.NumeroONull | server/src/services/RecetaService.ts:60 | a missing or zero number becomes NULL |
| Recetas.Enlaces | server/src/services/RecetaService.ts:64-71 | one link row per supplied line, in order, with `notas \|\| null` |
| Recetas.Unidos | server/src/services/RecetaService.ts:20-47 | the join yields at most one line per link |
| Recetas.RecetaService.GetAll | server/src/services/RecetaService.ts:7-10 | exactly the active recipes, each as often as stored, sorted by name |
| Recetas.RecetaService.GetByIdTalCual | server/src/services/RecetaService.ts:12-50 | as written: none for a missing id, an error for every recipe that exists (see Findings) |
| Recetas.RecetaService.GetById | server/src/services/RecetaService.ts:12-50 | none iff the id is missing; otherwise the recipe with its links joined with the catalogue |
| Recetas.RecetaService.Create | server/src/services/RecetaService.ts:52-82 | the recipe row under the counter plus exactly one link per supplied line, and the new id selects exactly those links; the read-back as written fails after these rows are committed (see Findings) |
| Recetas.RecetaService.UpdateTalCual | server/src/services/RecetaService.ts:84-129 | as written: the existence check fails for every existing recipe, the transaction is rolled back and nothing is written (the method has no write frame); a missing id gives none |
| Recetas.RecetaService.Update | server/src/services/RecetaService.ts:84-133 | as evidently intended (see Findings): a missing id gives none and both tables unchanged; otherwise the merged row is written, links are replaced iff a list is given, and the recipe is read back |
| Recetas.RecetaService.Delete | server/src/services/RecetaService.ts:135-138 | removes the recipe row and leaves the links; true iff there was one |
| Common.FilterNone | server/src/services/RecetaService.ts:31 | a condition no row satisfies selects nothing (used for the link selection by recipe) |
| Recetas.EnlacesDeNueva | server/src/services/RecetaService.ts:62-72 | after a create, the new id selects exactly the inserted links |
| Recetas.ReemplazoDeEnlaces | server/src/services/RecetaService.ts:110-123 | after a replace, the recipe has exactly the new links (an empty list clears them) and every other recipe keeps its links in order |
| Common.FilterNested | server/src/services/RecetaService.ts:112 | deleting other rows first does not change what a narrower selection finds |
| Recetas.SinListaNoTocaEnlaces | server/src/services/RecetaService.ts:110 | without a list the links are untouched |
| Recetas.EnlacesTrasUpdateAcotados | server/src/services/RecetaService.ts:110-123 | replacing a recipe's links keeps every link pointing at an id below the counter |
| Recetas.UnidosCompleto | server/src/services/RecetaService.ts:20-47 | when every link's ingredient exists, the join gives one line per link, in order, with the link's amount, unit and notes and the catalogue's name |
| Recetas.NuevaFalsosANull | server/src/services/RecetaService.ts:58-61 | empty texts and zero time or portions are stored as NULL; new recipes are active |
| Recetas.GetByIdTalCualFalla | server/src/services/RecetaService.ts:34 | as written, reading any existing recipe fails while the intended read returns it; a missing id gives none either way |

## Left out

- Foreign libraries are not modelled: bcrypt, jsonwebtoken, `crypto.randomBytes`, the Cloudinary uploader, `fs`, `uuid` and multer. They enter as uninterpreted functions, parameters or effect values. `path.extname`, the uuid and `path.join`'s normalisation are folded into the `nombreUnico` parameter and a plain `dir + "/" + name`.
- The wall clock is an integer `now` in milliseconds. Calendar arithmetic beyond "+7 days" is out of scope.
- Error paths that come from the database or a foreign call are not modelled: connection errors, constraint violations (such as a duplicate SKU), the `catch` blocks and their 500 responses, and transaction rollback after such a failure. The model has no such failures, so the recipe transactions are all-or-nothing by construction.
- Database constraints the source does not show are not modelled: foreign keys, cascades, NOT NULL columns and column types. `Recetas.RecetaService.Delete` therefore leaves the recipe's links in place.
- The photo statistics' MB and KB conversions and the average are floating point and are left out. Only count, total, largest and smallest are modelled.
- Concurrency is not modelled: the clear-then-set race on the principal flag, and interleaved requests in general.
- HTTP plumbing outside `AuthController` is left out: routes, the other controllers, `index.ts`, configuration and scripts. The client is left out too.
- `created_at`, `updated_at` and other columns the source never reads are not modelled.
- Request bodies are assumed to be well typed. A value of another JavaScript type in a field (a number where a string is expected, for instance) is not modelled.
- Aliasing of returned objects is not modelled. `ContenidoDigitalService` hands out its stored entries, so a caller mutating a returned entry would change the store.
- `Auth.AuthService.AccessToken` and `Auth.AuthService.VerifyAccessToken` are plain applications of the uninterpreted signer and verifier and carry no contract of their own.
- Collation is not modelled: string comparison is character by character and case-sensitive. MySQL's case- and accent-insensitive collation is not modelled. This affects `ORDER BY nombre` in the listings. It also affects the lookups `WHERE email = ?` in `Auth.AuthService.Register` and `Auth.AuthService.Login`, and `WHERE nombre = ?` in `Ingredientes.Creado`, which here match only exactly equal strings.
- `toLowerCase` is modelled on ASCII letters only.
- `ContenidoDigital.ContenidoDigitalService.CrearImagen`: assumes `data` carries no `id`. A caller-supplied id spread after the counter's would replace it.

## Findings

| source | as written | input that shows it | evidently intended | confidence | as-written member | corrected member |
|---|---|---|---|---|---|---|
| server/src/services/RecetaService.ts:34 | the link rows are mapped from `ingredients`, a name that is never bound (the query result is `ingredientes`, line 20), so `getById` throws for every recipe that exists; `create` commits the recipe and its links (line 74) and then throws in its read-back (line 75), so the rows stay stored and a retry stores them again; `update` throws in its existence check (line 89), before any write | any existing recipe id, e.g. a recipe just created with id 1 | map the rows of `ingredientes` into lines joined with the ingredient data | not executed | Recetas.RecetaService.GetByIdTalCual, Recetas.GetByIdTalCualFalla, Recetas.RecetaService.Create, Recetas.RecetaService.UpdateTalCual | Recetas.RecetaService.GetById, Recetas.UnidosCompleto, Recetas.RecetaService.Update |
| server/src/services/ContenidoDigitalService.ts:40 | `{ ...img, ...data }` lets an `id` in the update body overwrite the entry's id | entries with ids 1 and 2, update of entry 1 with body `{ id: 2 }` | the entry keeps its own id | not executed | ContenidoDigital.FusionTalCual, ContenidoDigital.FusionTalCualDuplicaIds | ContenidoDigital.Fusion, ContenidoDigital.FusionConservaIds |
