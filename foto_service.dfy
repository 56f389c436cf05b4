/** The product photo gallery of `FotoService`: upload validation, the
    `fotos_productos` table with its principal flag and display order, and the
    read-side queries.  The file store (local directory or Cloudinary) is not
    modelled; each operation reports the storage effect it asks for instead. */
module Fotos {
  import opened Common

  const MAX_TAMANO_MB: nat := 5
  const BYTES_POR_MB: nat := 1024 * 1024
  const TIPOS_PERMITIDOS: seq<string> := ["image/jpeg", "image/png", "image/webp", "image/gif"]

  const MSG_SUBIDA_OK := "Foto subida correctamente"
  const MSG_PRODUCTO_NO_ENCONTRADO := "Producto no encontrado"
  const MSG_FOTO_NO_ENCONTRADA := "Foto no encontrada"
  const MSG_ELIMINADA_OK := "Foto eliminada correctamente"
  const MSG_PRINCIPAL_OK := "Foto establecida como principal"
  const MSG_ORDEN_OK := "Orden actualizado"
  const MSG_SIN_LIMPIEZA_EN_NUBE := "No disponible en Cloudinary"
  /** The size message reads exactly as the source file spells it (a UTF-8
      "á" decoded as Latin-1). */
  const MSG_TAMANO_PREFIJO := "MÃ¡ximo "
  const MSG_TIPO_PREFIJO := "Tipo no permitido: "
  const PREFIJO_RUTA_RELATIVA := "uploads/productos/"

  /** The uploaded file as multer hands it over. */
  datatype Archivo = Archivo(originalname: string, mimetype: string, size: nat, path: string)

  /** What Cloudinary answers to an upload. */
  datatype SubidaNube = SubidaNube(secure_url: string, public_id: string, bytes: nat, width: int, height: int)

  /** A row of `fotos_productos` (timestamps left out). */
  datatype Foto = Foto(
    id: int,
    producto_id: int,
    nombre_archivo: string,
    ruta_relativa: Option<string>,
    ruta_completa: Option<string>,
    url_publica: string,
    cloudinary_public_id: Option<string>,
    tamano_bytes: nat,
    mimetype: string,
    ancho_px: Option<int>,
    alto_px: Option<int>,
    es_principal: bool,
    orden: int)

  datatype Respuesta = Respuesta(success: bool, message: string)
  datatype SubidaResultado = SubidaResultado(success: bool, message: string, data: Option<Foto>)
  datatype LimpiezaResultado = LimpiezaResultado(success: bool, message: string, eliminados: nat)

  /** The storage side effect an upload asks for. */
  datatype Almacenamiento =
    | MoverArchivo(origen: string, destino: string)  // fs.rename into the upload directory
    | SubirANube(origen: string)                     // upload, then fs.unlink of the temporary file

  /** The storage side effect a deletion asks for. */
  datatype Borrado = DestruirEnNube(public_id: string) | BorrarArchivo(ruta: string) | NingunBorrado

  datatype Estadisticas = Estadisticas(
    total_fotos: nat,
    tamano_total_bytes: nat,
    foto_mas_grande_bytes: nat,
    foto_mas_pequena_bytes: nat)

  // ---------------------------------------------------------------------
  // Upload validation
  // ---------------------------------------------------------------------

  /** `validarArchivo`: the error message, or `None` when the file is accepted.
      The size test divides as JS does, in floating point; the bound is
      inclusive, so exactly 5 MiB passes. */
  function ValidarArchivo(archivo: Archivo): (r: Option<string>)
    ensures r.None? <==> archivo.mimetype in TIPOS_PERMITIDOS && archivo.size <= 5242880
    ensures archivo.mimetype !in TIPOS_PERMITIDOS ==> r == Some(MSG_TIPO_PREFIJO + archivo.mimetype)
    ensures archivo.mimetype in TIPOS_PERMITIDOS && archivo.size > 5242880 ==>
              r == Some(MSG_TAMANO_PREFIJO + "5MB")
  {
    if archivo.mimetype !in TIPOS_PERMITIDOS then Some(MSG_TIPO_PREFIJO + archivo.mimetype)
    else if (archivo.size as real) / (BYTES_POR_MB as real) > MAX_TAMANO_MB as real then
      assert DigitChar(5) == '5' && NatToString(MAX_TAMANO_MB) == "5";
      assert MSG_TAMANO_PREFIJO + "5" + "MB" == MSG_TAMANO_PREFIJO + "5MB";
      Some(MSG_TAMANO_PREFIJO + NatToString(MAX_TAMANO_MB) + "MB")
    else None
  }

  // ---------------------------------------------------------------------
  // Table-level definitions
  // ---------------------------------------------------------------------

  /** Rows that share an id are the same row, and every id is below the
      AUTO_INCREMENT counter. */
  ghost predicate IdsValidos(fs: seq<Foto>, nextId: int)
  {
    && (forall a, b :: a in fs && b in fs && a.id == b.id ==> a == b)
    && (forall f :: f in fs ==> f.id < nextId)
  }

  /** Each product has at most one principal photo. */
  ghost predicate UnPrincipalPorProducto(fs: seq<Foto>)
  {
    forall a, b :: a in fs && b in fs && a.es_principal && b.es_principal && a.producto_id == b.producto_id ==> a == b
  }

  /** `desmarcarPrincipal`: the flag cleared on every photo of the product. */
  function Desmarcado(fs: seq<Foto>, productoId: int): seq<Foto>
  {
    seq(|fs|, i requires 0 <= i < |fs| =>
      if fs[i].producto_id == productoId then fs[i].(es_principal := false) else fs[i])
  }

  /** `UPDATE ... SET es_principal = TRUE WHERE id = ?`. */
  function Marcado(fs: seq<Foto>, id: int): seq<Foto>
  {
    seq(|fs|, i requires 0 <= i < |fs| => if fs[i].id == id then fs[i].(es_principal := true) else fs[i])
  }

  /** `UPDATE ... SET orden = pos WHERE id = ? AND producto_id = ?`. */
  function ConOrden(fs: seq<Foto>, id: int, productoId: int, pos: int): seq<Foto>
  {
    seq(|fs|, i requires 0 <= i < |fs| =>
      if fs[i].id == id && fs[i].producto_id == productoId then fs[i].(orden := pos) else fs[i])
  }

  /** The table after the `reordenarFotos` loop has run over `ids`. */
  function Reordenado(fs: seq<Foto>, productoId: int, ids: seq<int>): seq<Foto>
  {
    if ids == [] then fs
    else ConOrden(Reordenado(fs, productoId, ids[..|ids| - 1]), ids[|ids| - 1], productoId, |ids| - 1)
  }

  /** The last position of `x` in `ids`, if it occurs. */
  function UltimaPosicion(ids: seq<int>, x: int): (r: Option<nat>)
    ensures r.None? <==> x !in ids
    ensures r.Some? ==> r.value < |ids| && ids[r.value] == x
    ensures r.Some? ==> forall k :: r.value < k < |ids| ==> ids[k] != x
  {
    if ids == [] then None
    else if ids[|ids| - 1] == x then Some(|ids| - 1)
    else UltimaPosicion(ids[..|ids| - 1], x)
  }

  /** The greatest `orden` among the product's photos, if it has any. */
  function MaxOrden(fs: seq<Foto>, productoId: int): (r: Option<int>)
    ensures r.None? <==> forall f :: f in fs ==> f.producto_id != productoId
    ensures r.Some? ==> exists f :: f in fs && f.producto_id == productoId && f.orden == r.value
    ensures r.Some? ==> forall f :: f in fs && f.producto_id == productoId ==> f.orden <= r.value
  {
    if fs == [] then None
    else
      assert fs == [fs[0]] + fs[1..];
      var resto := MaxOrden(fs[1..], productoId);
      if fs[0].producto_id != productoId then resto
      else if resto.None? || resto.value < fs[0].orden then Some(fs[0].orden)
      else resto
  }

  /** `obtenerSiguienteOrden`: `COALESCE(MAX(orden), 0) + 1`; it is above
      every order of the product, and it is 1 for a product without photos. */
  function SiguienteOrden(fs: seq<Foto>, productoId: int): (r: int)
    ensures forall f :: f in fs && f.producto_id == productoId ==> f.orden < r
    ensures (forall f :: f in fs ==> f.producto_id != productoId) ==> r == 1
    ensures (exists f :: f in fs && f.producto_id == productoId) ==>
              exists f :: f in fs && f.producto_id == productoId && f.orden == r - 1
  {
    var m := MaxOrden(fs, productoId);
    if m.None? then 1 else m.value + 1
  }

  /** The table after inserting `nueva`: with the principal flag requested, the
      product's flags are cleared first. */
  function TrasSubida(fs: seq<Foto>, nueva: Foto): seq<Foto>
  {
    (if nueva.es_principal then Desmarcado(fs, nueva.producto_id) else fs) + [nueva]
  }

  /** The listing order: principal photos first, then ascending `orden`. */
  predicate AntesEnListado(a: Foto, b: Foto)
  {
    (a.es_principal && !b.es_principal) || (a.es_principal == b.es_principal && a.orden <= b.orden)
  }

  lemma ListadoEsPreorden()
    ensures TotalPreorder(AntesEnListado)
  {
  }

  /** The set of stored full paths (`ruta_completa IS NOT NULL`). */
  function RutasEnBD(fs: seq<Foto>): set<string>
  {
    set f | f in fs && f.ruta_completa.Some? :: f.ruta_completa.value
  }

  /** `path.join(directorio, archivo)` for a plain file name. */
  function Unir(directorio: string, archivo: string): string
  {
    directorio + "/" + archivo
  }

  /** `COALESCE(SUM(tamano_bytes), 0)`: the sizes added up, 0 on an empty
      table. */
  function SumaTamanos(fs: seq<Foto>): (r: nat)
    ensures forall f :: f in fs ==> f.tamano_bytes <= r
  {
    if fs == [] then 0
    else
      assert fs == [fs[0]] + fs[1..];
      fs[0].tamano_bytes + SumaTamanos(fs[1..])
  }

  /** The total of two tables is the sum of their totals. */
  lemma {:induction false} SumaConcatenada(a: seq<Foto>, b: seq<Foto>)
    ensures SumaTamanos(a + b) == SumaTamanos(a) + SumaTamanos(b)
  {
    if a == [] {
      assert a + b == b;
    } else {
      assert (a + b)[1..] == a[1..] + b;
      SumaConcatenada(a[1..], b);
    }
  }

  /** Taking one row out of a table takes its size out of the total. */
  lemma SumaSinUno(b: seq<Foto>, i: nat)
    requires i < |b|
    ensures multiset(b) == multiset(b[..i] + b[i + 1..]) + multiset{b[i]}
    ensures SumaTamanos(b) == b[i].tamano_bytes + SumaTamanos(b[..i] + b[i + 1..])
  {
    var izq, x, der := b[..i], b[i], b[i + 1..];
    assert b == izq + [x] + der;
    assert multiset(b) == multiset(izq) + multiset{x} + multiset(der);
    SumaPartida(izq, x, der);
  }

  /** The total of `izq + [x] + der` splits around `x`. */
  lemma SumaPartida(izq: seq<Foto>, x: Foto, der: seq<Foto>)
    ensures SumaTamanos(izq + [x] + der) == x.tamano_bytes + SumaTamanos(izq + der)
  {
    SumaConcatenada(izq + [x], der);
    SumaConcatenada(izq, [x]);
    SumaConcatenada(izq, der);
    assert [x][1..] == [];
  }

  /** SQL `SUM` ignores row order: the same rows, each as often, give the same
      total. */
  lemma {:induction false} SumaSinOrden(a: seq<Foto>, b: seq<Foto>)
    requires multiset(a) == multiset(b)
    ensures SumaTamanos(a) == SumaTamanos(b)
    decreases |a|
  {
    if a == [] {
      assert |b| == |multiset(b)| == 0;
    } else {
      var x := a[0];
      assert x in multiset(b);
      var i :| 0 <= i < |b| && b[i] == x;
      var resto := b[..i] + b[i + 1..];
      assert a == [x] + a[1..];
      SumaSinUno(b, i);
      calc {
        multiset(a[1..]);
        multiset(a) - multiset{x};
        multiset(b) - multiset{x};
        multiset(resto);
      }
      SumaSinOrden(a[1..], resto);
    }
  }

  /** `COALESCE(MAX(tamano_bytes), 0)`. */
  function MaxTamano(fs: seq<Foto>): (r: nat)
    ensures fs == [] ==> r == 0
    ensures fs != [] ==> exists f :: f in fs && f.tamano_bytes == r
    ensures forall f :: f in fs ==> f.tamano_bytes <= r
  {
    if fs == [] then 0
    else
      assert fs == [fs[0]] + fs[1..];
      var resto := MaxTamano(fs[1..]);
      if fs[1..] == [] || resto < fs[0].tamano_bytes then fs[0].tamano_bytes else resto
  }

  /** `COALESCE(MIN(tamano_bytes), 0)`. */
  function MinTamano(fs: seq<Foto>): (r: nat)
    ensures fs == [] ==> r == 0
    ensures fs != [] ==> exists f :: f in fs && f.tamano_bytes == r
    ensures forall f :: f in fs ==> r <= f.tamano_bytes
  {
    if fs == [] then 0
    else
      assert fs == [fs[0]] + fs[1..];
      var resto := MinTamano(fs[1..]);
      if fs[1..] == [] || fs[0].tamano_bytes < resto then fs[0].tamano_bytes else resto
  }

  // ---------------------------------------------------------------------
  // Properties of the table updates
  // ---------------------------------------------------------------------

  /** After clearing, the product has no principal photo; other products' rows
      and every other column are untouched. */
  lemma DesmarcadoEfecto(fs: seq<Foto>, productoId: int)
    ensures |Desmarcado(fs, productoId)| == |fs|
    ensures forall f :: f in Desmarcado(fs, productoId) && f.producto_id == productoId ==> !f.es_principal
    ensures forall i :: 0 <= i < |fs| && fs[i].producto_id != productoId ==> Desmarcado(fs, productoId)[i] == fs[i]
    ensures forall i :: 0 <= i < |fs| ==> Desmarcado(fs, productoId)[i] == fs[i].(es_principal := Desmarcado(fs, productoId)[i].es_principal)
  {
  }

  /** Clearing flags keeps ids valid. */
  lemma DesmarcadoValido(fs: seq<Foto>, productoId: int, nextId: int)
    requires IdsValidos(fs, nextId)
    ensures IdsValidos(Desmarcado(fs, productoId), nextId)
  {
    var d := Desmarcado(fs, productoId);
    forall a, b | a in d && b in d && a.id == b.id ensures a == b {
      var i :| 0 <= i < |d| && d[i] == a;
      var j :| 0 <= j < |d| && d[j] == b;
      assert fs[i] in fs && fs[j] in fs;
    }
    forall a | a in d ensures a.id < nextId {
      var i :| 0 <= i < |d| && d[i] == a;
      assert fs[i] in fs;
    }
  }

  /** Setting a flag keeps ids valid. */
  lemma MarcadoValido(fs: seq<Foto>, id: int, nextId: int)
    requires IdsValidos(fs, nextId)
    ensures IdsValidos(Marcado(fs, id), nextId)
  {
    var m := Marcado(fs, id);
    forall a, b | a in m && b in m && a.id == b.id ensures a == b {
      var i :| 0 <= i < |m| && m[i] == a;
      var j :| 0 <= j < |m| && m[j] == b;
      assert fs[i] in fs && fs[j] in fs;
    }
    forall a | a in m ensures a.id < nextId {
      var i :| 0 <= i < |m| && m[i] == a;
      assert fs[i] in fs;
    }
  }

  /** Setting one order keeps ids valid. */
  lemma ConOrdenValido(fs: seq<Foto>, id: int, productoId: int, pos: int, nextId: int)
    requires IdsValidos(fs, nextId)
    ensures IdsValidos(ConOrden(fs, id, productoId, pos), nextId)
  {
    var c := ConOrden(fs, id, productoId, pos);
    forall a, b | a in c && b in c && a.id == b.id ensures a == b {
      var i :| 0 <= i < |c| && c[i] == a;
      var j :| 0 <= j < |c| && c[j] == b;
      assert fs[i] in fs && fs[j] in fs;
    }
    forall a | a in c ensures a.id < nextId {
      var i :| 0 <= i < |c| && c[i] == a;
      assert fs[i] in fs;
    }
  }

  /** An upload keeps at most one principal per product, and with the flag
      requested the new row is the product's only principal; without it, no
      existing row changes. */
  lemma PrincipalTrasSubida(fs: seq<Foto>, nueva: Foto)
    requires UnPrincipalPorProducto(fs)
    ensures UnPrincipalPorProducto(TrasSubida(fs, nueva))
    ensures nueva.es_principal ==>
      forall f :: f in TrasSubida(fs, nueva) && f.producto_id == nueva.producto_id && f.es_principal ==> f == nueva
    ensures !nueva.es_principal ==> TrasSubida(fs, nueva) == fs + [nueva]
  {
    var ts := TrasSubida(fs, nueva);
    if nueva.es_principal {
      var d := Desmarcado(fs, nueva.producto_id);
      forall f | f in d && f.es_principal
        ensures f in fs && f.producto_id != nueva.producto_id
      {
        var i :| 0 <= i < |d| && d[i] == f;
      }
    } else {
      assert ts == fs + [nueva];
    }
  }

  /** Marking one photo principal after clearing its product leaves it the
      product's only principal and keeps the invariant for every product. */
  lemma PrincipalTrasEstablecer(fs: seq<Foto>, id: int, productoId: int, nextId: int)
    requires UnPrincipalPorProducto(fs)
    requires IdsValidos(fs, nextId)
    requires forall f :: f in fs && f.id == id ==> f.producto_id == productoId
    ensures UnPrincipalPorProducto(Marcado(Desmarcado(fs, productoId), id))
    ensures forall f :: f in Marcado(Desmarcado(fs, productoId), id) && f.producto_id == productoId && f.es_principal ==> f.id == id
  {
    var d := Desmarcado(fs, productoId);
    var m := Marcado(d, id);
    forall a, b | a in m && b in m && a.es_principal && b.es_principal && a.producto_id == b.producto_id
      ensures a == b
    {
      var i :| 0 <= i < |m| && m[i] == a;
      var j :| 0 <= j < |m| && m[j] == b;
      assert fs[i] in fs && fs[j] in fs;
      if fs[i].id == fs[j].id {
        assert fs[i] == fs[j];
      }
    }
  }

  /** Reordering sets `orden` to the last position of a photo's id in the list,
      counting from 0, for the product's photos that are listed; unknown ids
      and photos of other products are ignored, and nothing else changes. */
  lemma {:induction false} ReordenadoEfecto(fs: seq<Foto>, productoId: int, ids: seq<int>)
    ensures |Reordenado(fs, productoId, ids)| == |fs|
    ensures forall i :: 0 <= i < |fs| ==>
      Reordenado(fs, productoId, ids)[i] ==
        if fs[i].producto_id == productoId && fs[i].id in ids
        then fs[i].(orden := UltimaPosicion(ids, fs[i].id).value)
        else fs[i]
  {
    if ids != [] {
      var previos := ids[..|ids| - 1];
      ReordenadoEfecto(fs, productoId, previos);
      forall i | 0 <= i < |fs| && fs[i].id in previos
        ensures fs[i].id in ids
      {
        var k :| 0 <= k < |previos| && previos[k] == fs[i].id;
        assert ids[k] == previos[k];
      }
    }
  }

  /** Reordering changes only the `orden` column, so the principal flags and the
      invariant on them are as before. */
  lemma PrincipalTrasReordenar(fs: seq<Foto>, productoId: int, ids: seq<int>)
    requires UnPrincipalPorProducto(fs)
    ensures UnPrincipalPorProducto(Reordenado(fs, productoId, ids))
  {
    var r := Reordenado(fs, productoId, ids);
    forall a, b | a in r && b in r && a.es_principal && b.es_principal && a.producto_id == b.producto_id
      ensures a == b
    {
      var i :| 0 <= i < |r| && r[i] == a;
      var j :| 0 <= j < |r| && r[j] == b;
      ReordenadoPorFila(fs, productoId, ids, i, j);
      assert fs[i] in fs && fs[j] in fs;
    }
  }

  /** Row by row, reordering keeps the flag and the product, and equal rows
      stay equal. */
  lemma ReordenadoPorFila(fs: seq<Foto>, productoId: int, ids: seq<int>, i: nat, j: nat)
    requires i < |Reordenado(fs, productoId, ids)| && j < |Reordenado(fs, productoId, ids)|
    ensures |Reordenado(fs, productoId, ids)| == |fs|
    ensures Reordenado(fs, productoId, ids)[i].es_principal == fs[i].es_principal
    ensures Reordenado(fs, productoId, ids)[i].producto_id == fs[i].producto_id
    ensures Reordenado(fs, productoId, ids)[j].es_principal == fs[j].es_principal
    ensures Reordenado(fs, productoId, ids)[j].producto_id == fs[j].producto_id
    ensures fs[i] == fs[j] ==> Reordenado(fs, productoId, ids)[i] == Reordenado(fs, productoId, ids)[j]
  {
    ReordenadoEfecto(fs, productoId, ids);
  }

  /** Deleting rows keeps the invariant. */
  lemma PrincipalTrasEliminar(fs: seq<Foto>, id: int)
    requires UnPrincipalPorProducto(fs)
    ensures UnPrincipalPorProducto(Filter(fs, (f: Foto) => f.id != id))
  {
  }

  /** Clearing flags does not move the greatest order. */
  lemma {:induction false} MaxOrdenDesmarcado(fs: seq<Foto>, productoId: int, otro: int)
    ensures MaxOrden(Desmarcado(fs, otro), productoId) == MaxOrden(fs, productoId)
  {
    if fs != [] {
      var d := Desmarcado(fs, otro);
      assert d[1..] == Desmarcado(fs[1..], otro);
      MaxOrdenDesmarcado(fs[1..], productoId, otro);
      assert d[0].producto_id == fs[0].producto_id && d[0].orden == fs[0].orden;
    }
  }

  /** An entry is an orphan when its full path is not among the stored ones. */
  function EsHuerfano(base: string, rutas: set<string>): string -> bool
  {
    (a: string) => Unir(base, a) !in rutas
  }

  /** The directory entries whose full path no row stores, in listing order. */
  function Huerfanos(archivos: seq<string>, base: string, rutas: set<string>): seq<string>
  {
    Filter(archivos, EsHuerfano(base, rutas))
  }

  /** The same entries as a set: listed names minus those whose path is stored. */
  function NombresHuerfanos(archivos: seq<string>, base: string, rutas: set<string>): (r: set<string>)
    ensures forall a :: a in r <==> a in archivos && Unir(base, a) !in rutas
  {
    MiembrosQue(archivos, EsHuerfano(base, rutas))
  }

  /** Counting the orphans of a listing without repeated names gives the size
      of the set difference between the listed paths and the stored ones. */
  lemma HuerfanosCardinal(archivos: seq<string>, base: string, rutas: set<string>)
    requires SinRepetidos(archivos)
    ensures |Huerfanos(archivos, base, rutas)| == |NombresHuerfanos(archivos, base, rutas)|
  {
    FilterCardinal(archivos, EsHuerfano(base, rutas));
  }

  // ---------------------------------------------------------------------
  // The service
  // ---------------------------------------------------------------------

  class FotoService {
    var fotos: seq<Foto>
    var nextId: int
    /** Chosen once at start-up from the Cloudinary configuration. */
    const usarCloudinary: bool
    /** `<cwd>/uploads/productos`. */
    const directorioBase: string
    /** `BASE_URL`, or its default. */
    const urlBase: string

    ghost predicate Valid()
      reads this
    {
      IdsValidos(fotos, nextId)
    }

    constructor (usarCloudinary: bool, directorioBase: string, urlBase: string)
      ensures Valid() && fotos == []
      ensures this.usarCloudinary == usarCloudinary
      ensures this.directorioBase == directorioBase && this.urlBase == urlBase
    {
      this.usarCloudinary := usarCloudinary;
      this.directorioBase := directorioBase;
      this.urlBase := urlBase;
      fotos := [];
      nextId := 1;
    }

    /** The row `subirFotoLocal` inserts for a file moved to `nombreUnico`
        (the uuid plus the original extension). */
    function FotoLocal(id: int, productoId: int, archivo: Archivo, esPrincipal: bool, orden: int,
                       nombreUnico: string): Foto
    {
      var rutaRelativa := PREFIJO_RUTA_RELATIVA + nombreUnico;
      Foto(id, productoId, archivo.originalname, Some(rutaRelativa), Some(Unir(directorioBase, nombreUnico)),
           urlBase + "/" + rutaRelativa, None, archivo.size, archivo.mimetype, None, None, esPrincipal, orden)
    }

    /** The row `subirFotoCloudinary` inserts: size and dimensions as Cloudinary
        reports them, no local paths. */
    function FotoNube(id: int, productoId: int, archivo: Archivo, esPrincipal: bool, orden: int,
                      nube: SubidaNube): Foto
    {
      Foto(id, productoId, archivo.originalname, None, None, nube.secure_url, Some(nube.public_id),
           nube.bytes, archivo.mimetype, Some(nube.width), Some(nube.height), esPrincipal, orden)
    }

    /** `obtenerFotoPorId`: the row with that id, if any. */
    function ObtenerFotoPorId(id: int): (r: Option<Foto>)
      reads this
      ensures r.None? <==> forall f :: f in fotos ==> f.id != id
      ensures r.Some? ==> r.value in fotos && r.value.id == id
    {
      Find(fotos, (f: Foto) => f.id == id)
    }

    /** `desmarcarPrincipal`. */
    method DesmarcarPrincipal(productoId: int)
      requires Valid()
      modifies this`fotos
      ensures Valid()
      ensures fotos == Desmarcado(old(fotos), productoId)
    {
      DesmarcadoValido(fotos, productoId, nextId);
      fotos := Desmarcado(fotos, productoId);
    }

    /** `obtenerSiguienteOrden`. */
    method ObtenerSiguienteOrden(productoId: int) returns (orden: int)
      ensures orden == SiguienteOrden(fotos, productoId)
      ensures forall f :: f in fotos && f.producto_id == productoId ==> f.orden < orden
    {
      orden := SiguienteOrden(fotos, productoId);
    }

    /** Inserts `nueva` under the next id; shared tail of both upload paths. */
    method Insertar(nueva: Foto) returns (guardada: Foto)
      requires Valid()
      modifies this`fotos, this`nextId
      ensures Valid()
      ensures guardada == nueva.(id := old(nextId))
      ensures fotos == old(fotos) + [guardada] && nextId == old(nextId) + 1
    {
      guardada := nueva.(id := nextId);
      fotos := fotos + [guardada];
      nextId := nextId + 1;
    }

    /** `subirFotoLocal`: the file is moved into the upload directory and a row
        with its local paths and public URL is inserted. */
    method SubirFotoLocal(productoId: int, archivo: Archivo, esPrincipal: bool, nombreUnico: string)
      returns (foto: Foto, efecto: Almacenamiento)
      requires Valid()
      modifies this`fotos, this`nextId
      ensures Valid()
      ensures foto == FotoLocal(old(nextId), productoId, archivo, esPrincipal,
                                SiguienteOrden(old(fotos), productoId), nombreUnico)
      ensures fotos == TrasSubida(old(fotos), foto) && nextId == old(nextId) + 1
      ensures efecto == MoverArchivo(archivo.path, Unir(directorioBase, nombreUnico))
    {
      efecto := MoverArchivo(archivo.path, Unir(directorioBase, nombreUnico));
      if esPrincipal {
        DesmarcarPrincipal(productoId);
      }
      MaxOrdenDesmarcado(old(fotos), productoId, productoId);
      var orden := ObtenerSiguienteOrden(productoId);
      foto := Insertar(FotoLocal(0, productoId, archivo, esPrincipal, orden, nombreUnico));
    }

    /** `subirFotoCloudinary`: the file is uploaded and a row carrying
        Cloudinary's URL, public id, size and dimensions is inserted. */
    method SubirFotoCloudinary(productoId: int, archivo: Archivo, esPrincipal: bool, nube: SubidaNube)
      returns (foto: Foto, efecto: Almacenamiento)
      requires Valid()
      modifies this`fotos, this`nextId
      ensures Valid()
      ensures foto == FotoNube(old(nextId), productoId, archivo, esPrincipal,
                               SiguienteOrden(old(fotos), productoId), nube)
      ensures fotos == TrasSubida(old(fotos), foto) && nextId == old(nextId) + 1
      ensures efecto == SubirANube(archivo.path)
    {
      efecto := SubirANube(archivo.path);
      if esPrincipal {
        DesmarcarPrincipal(productoId);
      }
      MaxOrdenDesmarcado(old(fotos), productoId, productoId);
      var orden := ObtenerSiguienteOrden(productoId);
      foto := Insertar(FotoNube(0, productoId, archivo, esPrincipal, orden, nube));
    }

    /** `subirFoto`: the file is checked, then the product, and only then is
        anything stored; a failure returns its message and writes nothing.
        `productos` is the set of ids in the `productos` table. */
    method SubirFoto(productoId: int, archivo: Archivo, esPrincipal: bool, productos: set<int>,
                     nombreUnico: string, nube: SubidaNube)
      returns (r: SubidaResultado, efecto: Option<Almacenamiento>)
      requires Valid()
      modifies this`fotos, this`nextId
      ensures Valid()
      ensures ValidarArchivo(archivo).Some? ==>
        && r == SubidaResultado(false, ValidarArchivo(archivo).value, None) && efecto.None?
        && fotos == old(fotos) && nextId == old(nextId)
      ensures ValidarArchivo(archivo).None? && productoId !in productos ==>
        && r == SubidaResultado(false, MSG_PRODUCTO_NO_ENCONTRADO, None) && efecto.None?
        && fotos == old(fotos) && nextId == old(nextId)
      ensures ValidarArchivo(archivo).None? && productoId in productos ==>
        var orden := SiguienteOrden(old(fotos), productoId);
        var nueva := if usarCloudinary then FotoNube(old(nextId), productoId, archivo, esPrincipal, orden, nube)
                     else FotoLocal(old(nextId), productoId, archivo, esPrincipal, orden, nombreUnico);
        && r == SubidaResultado(true, MSG_SUBIDA_OK, Some(nueva)) && efecto.Some?
        && fotos == TrasSubida(old(fotos), nueva) && nextId == old(nextId) + 1
    {
      var error := ValidarArchivo(archivo);
      if error.Some? {
        r, efecto := SubidaResultado(false, error.value, None), None;
        return;
      }
      if productoId !in productos {
        r, efecto := SubidaResultado(false, MSG_PRODUCTO_NO_ENCONTRADO, None), None;
        return;
      }
      var foto: Foto;
      var e: Almacenamiento;
      if usarCloudinary {
        foto, e := SubirFotoCloudinary(productoId, archivo, esPrincipal, nube);
      } else {
        foto, e := SubirFotoLocal(productoId, archivo, esPrincipal, nombreUnico);
      }
      r, efecto := SubidaResultado(true, MSG_SUBIDA_OK, Some(foto)), Some(e);
    }

    /** `eliminarFoto`: an unknown id fails with no change; otherwise the stored
        file is released (on Cloudinary when in use and the row has a public id,
        else the local file when the row has a path) and the row is deleted. */
    method EliminarFoto(id: int) returns (r: Respuesta, efecto: Borrado)
      requires Valid()
      modifies this`fotos
      ensures Valid()
      ensures (forall f :: f in old(fotos) ==> f.id != id) ==>
        r == Respuesta(false, MSG_FOTO_NO_ENCONTRADA) && efecto == NingunBorrado && fotos == old(fotos)
      ensures (exists f :: f in old(fotos) && f.id == id) ==>
        && r == Respuesta(true, MSG_ELIMINADA_OK)
        && fotos == Filter(old(fotos), (f: Foto) => f.id != id)
        && exists f ::
             && f in old(fotos) && f.id == id
             && efecto == (if usarCloudinary && Truthy(f.cloudinary_public_id) then DestruirEnNube(f.cloudinary_public_id.value)
                           else if Truthy(f.ruta_completa) then BorrarArchivo(f.ruta_completa.value)
                           else NingunBorrado)
    {
      var foto := ObtenerFotoPorId(id);
      if foto.None? {
        r, efecto := Respuesta(false, MSG_FOTO_NO_ENCONTRADA), NingunBorrado;
        return;
      }
      var f := foto.value;
      if usarCloudinary && Truthy(f.cloudinary_public_id) {
        efecto := DestruirEnNube(f.cloudinary_public_id.value);
      } else if Truthy(f.ruta_completa) {
        efecto := BorrarArchivo(f.ruta_completa.value);
      } else {
        efecto := NingunBorrado;
      }
      fotos := Filter(fotos, (g: Foto) => g.id != id);
      r := Respuesta(true, MSG_ELIMINADA_OK);
    }

    /** `obtenerFotosProducto`: exactly the product's photos, principal first,
        then by ascending `orden`. */
    function ObtenerFotosProducto(productoId: int): (r: seq<Foto>)
      reads this
      ensures forall f :: f in r <==> f in fotos && f.producto_id == productoId
      ensures multiset(r) == multiset(Filter(fotos, (f: Foto) => f.producto_id == productoId))
      ensures forall i, j :: 0 <= i < j < |r| ==> AntesEnListado(r[i], r[j])
    {
      ListadoEsPreorden();
      var propias := Filter(fotos, (f: Foto) => f.producto_id == productoId);
      var r := SortBy(propias, AntesEnListado);
      assert forall f :: f in r <==> f in multiset(propias);
      r
    }

    /** `obtenerFotoPrincipal`: a principal photo of the product, if it has one. */
    function ObtenerFotoPrincipal(productoId: int): (r: Option<Foto>)
      reads this
      ensures r.None? <==> forall f :: f in fotos && f.producto_id == productoId ==> !f.es_principal
      ensures r.Some? ==> r.value in fotos && r.value.producto_id == productoId && r.value.es_principal
    {
      Find(fotos, (f: Foto) => f.producto_id == productoId && f.es_principal)
    }

    /** `establecerPrincipal`: an unknown id fails with no change; otherwise the
        product's flags are cleared and this photo's is set. */
    method EstablecerPrincipal(id: int) returns (r: Respuesta)
      requires Valid()
      modifies this`fotos
      ensures Valid()
      ensures (forall f :: f in old(fotos) ==> f.id != id) ==>
        r == Respuesta(false, MSG_FOTO_NO_ENCONTRADA) && fotos == old(fotos)
      ensures (exists f :: f in old(fotos) && f.id == id) ==>
        && r == Respuesta(true, MSG_PRINCIPAL_OK)
        && exists f ::
             && f in old(fotos) && f.id == id
             && fotos == Marcado(Desmarcado(old(fotos), f.producto_id), id)
      ensures old(UnPrincipalPorProducto(fotos)) ==> UnPrincipalPorProducto(fotos)
    {
      var foto := ObtenerFotoPorId(id);
      if foto.None? {
        r := Respuesta(false, MSG_FOTO_NO_ENCONTRADA);
        return;
      }
      if UnPrincipalPorProducto(fotos) {
        PrincipalTrasEstablecer(fotos, id, foto.value.producto_id, nextId);
      }
      DesmarcarPrincipal(foto.value.producto_id);
      MarcadoValido(fotos, id, nextId);
      fotos := Marcado(fotos, id);
      r := Respuesta(true, MSG_PRINCIPAL_OK);
    }

    /** `reordenarFotos`: one keyed UPDATE per list position, in list order. */
    method ReordenarFotos(productoId: int, orden: seq<int>) returns (r: Respuesta)
      requires Valid()
      modifies this`fotos
      ensures Valid()
      ensures fotos == Reordenado(old(fotos), productoId, orden)
      ensures r == Respuesta(true, MSG_ORDEN_OK)
    {
      var i := 0;
      while i < |orden|
        invariant 0 <= i <= |orden|
        invariant fotos == Reordenado(old(fotos), productoId, orden[..i])
        invariant Valid()
      {
        ConOrdenValido(fotos, orden[i], productoId, i, nextId);
        fotos := ConOrden(fotos, orden[i], productoId, i);
        assert orden[..i + 1][..i] == orden[..i];
        i := i + 1;
      }
      assert orden[..|orden|] == orden;
      r := Respuesta(true, MSG_ORDEN_OK);
    }

    /** `obtenerEstadisticas` (integer fields): count, total size, largest and
        smallest size, all 0 on an empty table. */
    function ObtenerEstadisticas(): (e: Estadisticas)
      reads this
      ensures e.total_fotos == |fotos|
      ensures e.tamano_total_bytes == SumaTamanos(fotos)
      ensures e.foto_mas_grande_bytes == MaxTamano(fotos)
      ensures e.foto_mas_pequena_bytes == MinTamano(fotos)
      ensures fotos == [] ==> e == Estadisticas(0, 0, 0, 0)
      ensures fotos != [] ==>
        && (exists f :: f in fotos && f.tamano_bytes == e.foto_mas_grande_bytes)
        && (exists f :: f in fotos && f.tamano_bytes == e.foto_mas_pequena_bytes)
        && e.foto_mas_pequena_bytes <= e.foto_mas_grande_bytes <= e.tamano_total_bytes
      ensures forall f :: f in fotos ==>
        e.foto_mas_pequena_bytes <= f.tamano_bytes <= e.foto_mas_grande_bytes
    {
      Estadisticas(|fotos|, SumaTamanos(fotos), MaxTamano(fotos), MinTamano(fotos))
    }

    /** `limpiarArchivosHuerfanos` (counting): unavailable on Cloudinary;
        otherwise each directory entry whose full path no row stores is deleted
        and counted.  `archivos` is the directory listing; `borrados` lists the
        deleted names in listing order. */
    method LimpiarArchivosHuerfanos(archivos: seq<string>) returns (r: LimpiezaResultado, borrados: seq<string>)
      ensures usarCloudinary ==> r == LimpiezaResultado(false, MSG_SIN_LIMPIEZA_EN_NUBE, 0) && borrados == []
      ensures !usarCloudinary ==>
        && borrados == Huerfanos(archivos, directorioBase, RutasEnBD(fotos))
        && r == LimpiezaResultado(true, "Eliminados " + NatToString(|borrados|) + " archivos", |borrados|)
    {
      if usarCloudinary {
        r, borrados := LimpiezaResultado(false, MSG_SIN_LIMPIEZA_EN_NUBE, 0), [];
        return;
      }
      var base := directorioBase;
      var rutasEnBD := RutasEnBD(fotos);
      var huerfano := EsHuerfano(base, rutasEnBD);
      var eliminados: nat := 0;
      borrados := [];
      var i := 0;
      while i < |archivos|
        invariant 0 <= i <= |archivos|
        invariant borrados == Filter(archivos[..i], huerfano)
        invariant eliminados == |borrados|
      {
        var ruta := Unir(base, archivos[i]);
        FilterAppend(archivos[..i], [archivos[i]], huerfano);
        assert archivos[..i + 1] == archivos[..i] + [archivos[i]];
        assert huerfano(archivos[i]) == (ruta !in rutasEnBD);
        assert Filter([archivos[i]], huerfano) == if ruta !in rutasEnBD then [archivos[i]] else [];
        if ruta !in rutasEnBD {
          borrados := borrados + [archivos[i]];
          eliminados := eliminados + 1;
        }
        i := i + 1;
      }
      assert archivos[..i] == archivos;
      r := LimpiezaResultado(true, "Eliminados " + NatToString(eliminados) + " archivos", eliminados);
    }
  }

  /** The principal photo a product query returns is the product's only one
      while the invariant holds. */
  lemma PrincipalUnica(fs: seq<Foto>, productoId: int)
    requires UnPrincipalPorProducto(fs)
    ensures var r := Find(fs, (f: Foto) => f.producto_id == productoId && f.es_principal);
      r.Some? ==> forall f :: f in fs && f.producto_id == productoId && f.es_principal ==> f == r.value
  {
  }
}
