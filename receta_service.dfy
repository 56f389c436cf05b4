/** `RecetaService`: the `recetas` table and its link table
    `receta_ingrediente`.  A recipe is created together with one link row per
    supplied ingredient, merge-updated with its links replaced wholesale when
    a new list is given, read back joined with the ingredient catalogue, and
    hard-deleted.  The catalogue is the `ingredientes` table, passed in. */
module Recetas {
  import opened Common
  import Ingredientes

  /** The message of the `ReferenceError` raised by `getById` as written. */
  const MSG_REFERENCIA := "ingredients is not defined"

  /** The column default of `activo` for a row inserted without it. */
  const ACTIVO_POR_DEFECTO := true

  /** A row of `recetas`. */
  datatype Receta = Receta(
    id: int,
    nombre: string,
    descripcion: Option<string>,
    instrucciones: Option<string>,
    tiempo_preparacion: Option<int>,
    porciones: Option<int>,
    activo: bool)

  /** A row of `receta_ingrediente`. */
  datatype Enlace = Enlace(
    receta_id: int,
    ingrediente_id: int,
    cantidad: real,
    unidad_medida: Ingredientes.Unidad,
    notas: Option<string>)

  /** `RecetaIngredienteDTO` as a caller supplies it. */
  datatype Linea = Linea(ingrediente_id: int, cantidad: real, unidad_medida: Ingredientes.Unidad, notas: Option<string>)

  /** The ingredient summary nested in each line `getById` returns; its unit
      is the link's and its flag is always true. */
  datatype Resumen = Resumen(
    id: int,
    nombre: Option<string>,
    descripcion: Option<string>,
    unidad_medida: Ingredientes.Unidad,
    costo_unitario: Option<real>,
    activo: bool)

  /** One line of a recipe as `getById` returns it. */
  datatype LineaDetalle = LineaDetalle(
    ingrediente_id: int,
    cantidad: real,
    unidad_medida: Ingredientes.Unidad,
    notas: Option<string>,
    ingrediente: Resumen)

  /** A recipe with its ingredient lines. */
  datatype Detalle = Detalle(receta: Receta, ingredientes: seq<LineaDetalle>)

  /** `CreateRecetaDTO`. */
  datatype NuevaReceta = NuevaReceta(
    nombre: string,
    descripcion: Option<string>,
    instrucciones: Option<string>,
    tiempo_preparacion: Option<int>,
    porciones: Option<int>,
    ingredientes: Option<seq<Linea>>)

  /** `UpdateRecetaDTO`: each field present (`Some`) or absent. */
  datatype Parche = Parche(
    nombre: Option<string>,
    descripcion: Option<string>,
    instrucciones: Option<string>,
    tiempo_preparacion: Option<int>,
    porciones: Option<int>,
    activo: Option<bool>,
    ingredientes: Option<seq<Linea>>)

  function Clave(r: Receta): int
  {
    r.id
  }

  /** `x || null` on an optional number: zero is falsy. */
  function NumeroONull(n: Option<int>): (r: Option<int>)
    ensures r.Some? <==> n.Some? && n.value != 0
    ensures r.Some? ==> r == n
  {
    if n.Some? && n.value != 0 then n else None
  }

  /** The recipe row `create` inserts under id `id`. */
  function Nueva(id: int, data: NuevaReceta): Receta
  {
    Receta(id, data.nombre, OrNull(data.descripcion), OrNull(data.instrucciones),
           NumeroONull(data.tiempo_preparacion), NumeroONull(data.porciones), ACTIVO_POR_DEFECTO)
  }

  /** The link rows the bulk insert writes for recipe `recetaId`, one per line
      and in the same order, with `notas || null`. */
  function Enlaces(recetaId: int, ls: seq<Linea>): (r: seq<Enlace>)
    ensures |r| == |ls|
    ensures forall i :: 0 <= i < |ls| ==>
      r[i] == Enlace(recetaId, ls[i].ingrediente_id, ls[i].cantidad, ls[i].unidad_medida, OrNull(ls[i].notas))
  {
    seq(|ls|, i requires 0 <= i < |ls| =>
      Enlace(recetaId, ls[i].ingrediente_id, ls[i].cantidad, ls[i].unidad_medida, OrNull(ls[i].notas)))
  }

  /** `WHERE receta_id = ?`. */
  function DeReceta(id: int): Enlace -> bool
  {
    (e: Enlace) => e.receta_id == id
  }

  /** `ON ri.ingrediente_id = i.id`. */
  function ConId(id: int): Ingredientes.Fila -> bool
  {
    (f: Ingredientes.Fila) => f.id == id
  }

  /** One link joined with its catalogue row. */
  function LineaDe(e: Enlace, f: Ingredientes.Fila): LineaDetalle
  {
    LineaDetalle(e.ingrediente_id, e.cantidad, e.unidad_medida, e.notas,
                 Resumen(e.ingrediente_id, f.nombre, f.descripcion, e.unidad_medida, f.costo_unitario, true))
  }

  /** The inner join of links with the catalogue, in link order: a link whose
      ingredient is not in the catalogue yields no line. */
  function Unidos(es: seq<Enlace>, cat: seq<Ingredientes.Fila>): (r: seq<LineaDetalle>)
    ensures |r| <= |es|
  {
    if es == [] then []
    else
      var f := Find(cat, ConId(es[0].ingrediente_id));
      (if f.Some? then [LineaDe(es[0], f.value)] else []) + Unidos(es[1..], cat)
  }

  /** `{ ...receta, ...data }` on the columns `update` writes. */
  function Fusion(r: Receta, d: Parche): Receta
  {
    Receta(r.id, d.nombre.GetOr(r.nombre),
           if d.descripcion.Some? then d.descripcion else r.descripcion,
           if d.instrucciones.Some? then d.instrucciones else r.instrucciones,
           if d.tiempo_preparacion.Some? then d.tiempo_preparacion else r.tiempo_preparacion,
           if d.porciones.Some? then d.porciones else r.porciones,
           d.activo.GetOr(r.activo))
  }

  /** The column `ORDER BY nombre` sorts on. */
  function Nombre(r: Receta): string
  {
    r.nombre
  }

  /** `WHERE id = ?` on `recetas`. */
  function EsReceta(id: int): Receta -> bool
  {
    (r: Receta) => r.id == id
  }

  /** The stored row merged with a patch. */
  function ConParche(d: Parche): Receta -> Receta
  {
    (r: Receta) => Fusion(r, d)
  }

  /** `UPDATE recetas SET ... WHERE id = ?` with the merged values. */
  function Actualizadas(rs: seq<Receta>, id: int, d: Parche): seq<Receta>
  {
    Reemplazar(rs, EsReceta(id), ConParche(d))
  }

  /** The link table after `update`: with a list, the recipe's links are
      deleted and the list inserted; without one, nothing changes. */
  function EnlacesTrasUpdate(es: seq<Enlace>, id: int, ls: Option<seq<Linea>>): seq<Enlace>
  {
    if ls.None? then es
    else Filter(es, (e: Enlace) => !DeReceta(id)(e)) + Enlaces(id, ls.value)
  }

  class RecetaService {
    var recetas: seq<Receta>
    var enlaces: seq<Enlace>
    var nextId: int

    /** `id` is the primary key of `recetas`, and every link points below the
        counter (links are only written for recipes that exist). */
    ghost predicate Valid()
      reads this
    {
      && ClavesValidas(recetas, Clave, nextId)
      && forall e :: e in enlaces ==> e.receta_id < nextId
    }

    constructor ()
      ensures Valid() && recetas == [] && enlaces == [] && nextId == 1
    {
      recetas := [];
      enlaces := [];
      nextId := 1;
    }

    /** `getAll`: the active recipes, by name. */
    function GetAll(): (r: seq<Receta>)
      reads this
      ensures forall x :: x in r <==> x in recetas && x.activo
      ensures forall x :: multiset(r)[x] == if x.activo then multiset(recetas)[x] else 0
      ensures forall i, j :: 0 <= i < j < |r| ==> StrLe(r[i].nombre, r[j].nombre)
    {
      var activa := (x: Receta) => x.activo;
      FilterMultiplicidad(recetas, activa);
      ListadoPor(Filter(recetas, activa), Nombre)
    }

    /** `getById` as written: a missing id gives null, and for any recipe
        that exists the mapping of its lines reads an undefined variable and
        throws. */
    function GetByIdTalCual(id: int): (r: Resultado<Option<Detalle>>)
      reads this
      ensures r.Falla? <==> exists x :: x in recetas && x.id == id
      ensures r.Ok? ==> r.value.None?
    {
      if Find(recetas, EsReceta(id)).None? then Ok(None)
      else Falla(MSG_REFERENCIA)
    }

    /** `getById` as evidently intended: the recipe row with its links joined
        with the catalogue `cat`; null for a missing id. */
    function GetById(id: int, cat: seq<Ingredientes.Fila>): (r: Option<Detalle>)
      reads this
      ensures r.None? <==> forall x :: x in recetas ==> x.id != id
      ensures r.Some? ==> r.value.receta in recetas && r.value.receta.id == id
      ensures r.Some? ==> r.value.ingredientes == Unidos(Filter(enlaces, DeReceta(id)), cat)
    {
      var x := Find(recetas, EsReceta(id));
      if x.None? then None
      else Some(Detalle(x.value, Unidos(Filter(enlaces, DeReceta(id)), cat)))
    }

    /** `create`: the recipe row under the counter, then one link per line
        (none when the list is absent or empty), then the recipe read back. */
    method Create(data: NuevaReceta, cat: seq<Ingredientes.Fila>) returns (r: Detalle)
      requires Valid()
      modifies this
      ensures Valid()
      ensures recetas == old(recetas) + [Nueva(old(nextId), data)] && nextId == old(nextId) + 1
      ensures enlaces == old(enlaces) + Enlaces(old(nextId), data.ingredientes.GetOr([]))
      ensures Filter(enlaces, DeReceta(old(nextId))) == Enlaces(old(nextId), data.ingredientes.GetOr([]))
      ensures Some(r) == GetById(old(nextId), cat)
      ensures GetByIdTalCual(old(nextId)) == Falla(MSG_REFERENCIA)
    {
      var id := nextId;
      var fila := Nueva(id, data);
      AgregarConservaClaves(recetas, fila, Clave, nextId);
      recetas := recetas + [fila];
      var ls := data.ingredientes.GetOr([]);
      EnlacesDeNueva(enlaces, id, ls);
      enlaces := enlaces + Enlaces(id, ls);
      nextId := nextId + 1;
      assert recetas[|recetas| - 1] == fila;
      r := GetById(id, cat).value;
    }

    /** `update`: a missing id gives null and writes nothing; otherwise the
        merged row is written, the links are replaced when a list is given,
        and the recipe is read back. */
    method Update(id: int, data: Parche, cat: seq<Ingredientes.Fila>) returns (r: Option<Detalle>)
      requires Valid()
      modifies this`recetas, this`enlaces
      ensures Valid()
      ensures old(GetById(id, cat)).None? ==>
        r.None? && recetas == old(recetas) && enlaces == old(enlaces)
      ensures old(GetById(id, cat)).Some? ==>
        && recetas == Actualizadas(old(recetas), id, data)
        && enlaces == EnlacesTrasUpdate(old(enlaces), id, data.ingredientes)
        && r == GetById(id, cat)
        && r.Some? && r.value.receta == Fusion(old(GetById(id, cat)).value.receta, data)
    {
      var actual := GetById(id, cat);
      if actual.None? {
        return None;
      }
      var fila := actual.value.receta;
      ReemplazarConservaClaves(recetas, EsReceta(id), ConParche(data), Clave, nextId);
      ReemplazarLee(recetas, EsReceta(id), ConParche(data), fila);
      recetas := Actualizadas(recetas, id, data);
      EnlacesTrasUpdateAcotados(enlaces, id, data.ingredientes, nextId);
      enlaces := EnlacesTrasUpdate(enlaces, id, data.ingredientes);
      r := GetById(id, cat);
    }

    /** `update` as written: the existence check calls `getById`, which
        throws for every recipe that exists; the catch rolls the transaction
        back and rethrows, so nothing is written. A missing id gives null. */
    method UpdateTalCual(id: int, data: Parche) returns (r: Resultado<Option<Detalle>>)
      requires Valid()
      ensures r.Falla? <==> exists x :: x in recetas && x.id == id
      ensures r.Falla? ==> r.message == MSG_REFERENCIA
      ensures r.Ok? ==> r.value.None?
    {
      var leida := GetByIdTalCual(id);
      if leida.Falla? {
        return Falla(leida.message);
      }
      r := Ok(None);
    }

    /** `delete`: the recipe row is removed (its links are not touched); true
        exactly when there was one. */
    method Delete(id: int) returns (r: bool)
      requires Valid()
      modifies this`recetas
      ensures Valid()
      ensures recetas == Filter(old(recetas), (x: Receta) => x.id != id)
      ensures r <==> exists x :: x in old(recetas) && x.id == id
    {
      r := FindIndex(recetas, (x: Receta) => x.id == id).Some?;
      FiltrarConservaClaves(recetas, (x: Receta) => x.id != id, Clave, nextId);
      recetas := Filter(recetas, (x: Receta) => x.id != id);
    }
  }

  // ---------------------------------------------------------------------
  // Properties of the link table and of the join
  // ---------------------------------------------------------------------

  /** Replacing a recipe's links keeps every link pointing below the counter. */
  lemma EnlacesTrasUpdateAcotados(es: seq<Enlace>, id: int, ls: Option<seq<Linea>>, tope: int)
    requires forall e :: e in es ==> e.receta_id < tope
    requires id < tope
    ensures forall e :: e in EnlacesTrasUpdate(es, id, ls) ==> e.receta_id < tope
  {
  }

  /** The links a fresh recipe id selects, after its insert, are exactly the
      ones inserted for it: one per supplied line, in order. */
  lemma EnlacesDeNueva(es: seq<Enlace>, id: int, ls: seq<Linea>)
    requires forall e :: e in es ==> e.receta_id < id
    ensures Filter(es + Enlaces(id, ls), DeReceta(id)) == Enlaces(id, ls)
  {
    FilterAppend(es, Enlaces(id, ls), DeReceta(id));
    FilterNone(es, DeReceta(id));
    FilterAll(Enlaces(id, ls), DeReceta(id));
  }

  /** Replacing a recipe's links: that recipe then has exactly the new list
      (an empty list clears it), and every other recipe keeps exactly the
      links it had, in order. */
  lemma ReemplazoDeEnlaces(es: seq<Enlace>, id: int, ls: seq<Linea>, otra: int)
    requires otra != id
    ensures var nuevos := EnlacesTrasUpdate(es, id, Some(ls));
      && Filter(nuevos, DeReceta(id)) == Enlaces(id, ls)
      && Filter(nuevos, DeReceta(otra)) == Filter(es, DeReceta(otra))
  {
    var quedan := Filter(es, (e: Enlace) => !DeReceta(id)(e));
    FilterAppend(quedan, Enlaces(id, ls), DeReceta(id));
    FilterNone(quedan, DeReceta(id));
    FilterAll(Enlaces(id, ls), DeReceta(id));
    FilterAppend(quedan, Enlaces(id, ls), DeReceta(otra));
    FilterNone(Enlaces(id, ls), DeReceta(otra));
    FilterNested(es, (e: Enlace) => !DeReceta(id)(e), DeReceta(otra));
  }

  /** Without a list the links are untouched. */
  lemma SinListaNoTocaEnlaces(es: seq<Enlace>, id: int)
    ensures EnlacesTrasUpdate(es, id, None) == es
  {
  }

  /** When every link's ingredient is in the catalogue (with `id` its key),
      the join gives one line per link, in link order, carrying the link's
      ingredient, amount, unit and notes and the catalogue's name. */
  lemma {:induction false} UnidosCompleto(es: seq<Enlace>, cat: seq<Ingredientes.Fila>)
    requires forall e :: e in es ==> exists f :: f in cat && f.id == e.ingrediente_id
    requires forall a, b :: a in cat && b in cat && a.id == b.id ==> a == b
    ensures var r := Unidos(es, cat);
      && |r| == |es|
      && forall i :: 0 <= i < |es| ==>
           && r[i].ingrediente_id == es[i].ingrediente_id
           && r[i].cantidad == es[i].cantidad
           && r[i].unidad_medida == es[i].unidad_medida
           && r[i].notas == es[i].notas
           && (forall f :: f in cat && f.id == es[i].ingrediente_id ==> r[i].ingrediente.nombre == f.nombre)
  {
    if es != [] {
      assert es[0] in es;
      var f := Find(cat, ConId(es[0].ingrediente_id));
      assert f.Some?;
      UnidosCompleto(es[1..], cat);
      var r := Unidos(es, cat);
      var cola := Unidos(es[1..], cat);
      assert r == [LineaDe(es[0], f.value)] + cola;
      forall i | 0 < i < |es|
        ensures r[i] == cola[i - 1] && es[i] == es[1..][i - 1]
      {
      }
    }
  }

  /** A created recipe stores NULL for an empty description or instructions
      and for a zero time or portion count. */
  lemma NuevaFalsosANull(id: int, data: NuevaReceta)
    ensures data.descripcion == Some("") ==> Nueva(id, data).descripcion.None?
    ensures data.instrucciones == Some("") ==> Nueva(id, data).instrucciones.None?
    ensures data.tiempo_preparacion == Some(0) ==> Nueva(id, data).tiempo_preparacion.None?
    ensures data.porciones == Some(0) ==> Nueva(id, data).porciones.None?
    ensures Nueva(id, data).activo
  {
  }

  /** As written, reading back any recipe that exists fails, while the
      intended read returns it; a missing id gives null either way. */
  lemma GetByIdTalCualFalla(s: RecetaService, id: int, cat: seq<Ingredientes.Fila>)
    ensures (exists x :: x in s.recetas && x.id == id) ==>
      s.GetByIdTalCual(id) == Falla(MSG_REFERENCIA) && s.GetById(id, cat).Some?
    ensures (forall x :: x in s.recetas ==> x.id != id) ==>
      s.GetByIdTalCual(id) == Ok(None) && s.GetById(id, cat).None?
  {
  }
}
