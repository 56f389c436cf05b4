/** `CategoriaService`: the `categorias` table, listed whole by name, created
    with an empty description stored as NULL, merge-updated on its three
    writable columns and hard-deleted.  The table is a sequence of rows in a
    class field, with the AUTO_INCREMENT counter beside it. */
module Categorias {
  import opened Common

  /** The column default of `activo` for a row inserted without it. */
  const ACTIVO_POR_DEFECTO := true

  /** A row of `categorias` (`CategoriaDTO`). */
  datatype Categoria = Categoria(id: int, nombre: string, descripcion: Option<string>, activo: bool)

  /** `CreateCategoriaDTO`. */
  datatype NuevaCategoria = NuevaCategoria(nombre: string, descripcion: Option<string>)

  /** `UpdateCategoriaDTO`: each field present (`Some`) or absent. */
  datatype Parche = Parche(nombre: Option<string>, descripcion: Option<string>, activo: Option<bool>)

  function Clave(c: Categoria): int
  {
    c.id
  }

  /** The column `ORDER BY nombre` sorts on. */
  function Nombre(c: Categoria): string
  {
    c.nombre
  }

  /** `WHERE id = ?`. */
  function ConId(id: int): Categoria -> bool
  {
    (c: Categoria) => c.id == id
  }

  /** The stored row merged with a patch. */
  function ConParche(d: Parche): Categoria -> Categoria
  {
    (c: Categoria) => Fusion(c, d)
  }

  /** The row `create` inserts under id `id`: `descripcion || null`. */
  function Nueva(id: int, data: NuevaCategoria): Categoria
  {
    Categoria(id, data.nombre, OrNull(data.descripcion), ACTIVO_POR_DEFECTO)
  }

  /** `{ ...categoria, ...data }` on the columns `update` writes. */
  function Fusion(c: Categoria, d: Parche): Categoria
  {
    Categoria(c.id, d.nombre.GetOr(c.nombre),
              if d.descripcion.Some? then d.descripcion else c.descripcion,
              d.activo.GetOr(c.activo))
  }

  /** `UPDATE categorias SET nombre, descripcion, activo WHERE id = ?`. */
  function Actualizada(cs: seq<Categoria>, id: int, d: Parche): seq<Categoria>
  {
    Reemplazar(cs, ConId(id), ConParche(d))
  }

  /** `DELETE FROM categorias WHERE id = ?`. */
  function Borrada(cs: seq<Categoria>, id: int): seq<Categoria>
  {
    Filter(cs, (c: Categoria) => c.id != id)
  }

  class CategoriaService {
    var categorias: seq<Categoria>
    var nextId: int

    /** `id` is the primary key and the counter is above every id. */
    ghost predicate Valid()
      reads this
    {
      ClavesValidas(categorias, Clave, nextId)
    }

    constructor ()
      ensures Valid() && categorias == [] && nextId == 1
    {
      categorias := [];
      nextId := 1;
    }

    /** `getAll`: every category, inactive ones included, by name. */
    function GetAll(): (r: seq<Categoria>)
      reads this
      ensures multiset(r) == multiset(categorias)
      ensures forall c :: c in r <==> c in categorias
      ensures forall i, j :: 0 <= i < j < |r| ==> StrLe(r[i].nombre, r[j].nombre)
    {
      ListadoPor(categorias, Nombre)
    }

    /** `getById`: the row with that id; nothing when there is none. */
    function GetById(id: int): (r: Option<Categoria>)
      reads this
      ensures r.None? <==> forall c :: c in categorias ==> c.id != id
      ensures r.Some? ==> r.value in categorias && r.value.id == id
    {
      Find(categorias, ConId(id))
    }

    /** `create`: one row is inserted under the counter and read back. */
    method Create(data: NuevaCategoria) returns (r: Categoria)
      requires Valid()
      modifies this
      ensures Valid()
      ensures r == Nueva(old(nextId), data)
      ensures categorias == old(categorias) + [r] && nextId == old(nextId) + 1
      ensures GetById(r.id) == Some(r)
    {
      r := Nueva(nextId, data);
      AgregarConservaClaves(categorias, r, Clave, nextId);
      categorias := categorias + [r];
      nextId := nextId + 1;
    }

    /** `update`: a missing id gives null and writes nothing; otherwise the
        stored row merged with `data` is written over that row and returned. */
    method Update(id: int, data: Parche) returns (r: Option<Categoria>)
      requires Valid()
      modifies this`categorias
      ensures Valid()
      ensures old(GetById(id)).None? ==> r.None? && categorias == old(categorias)
      ensures old(GetById(id)).Some? ==>
        && categorias == Actualizada(old(categorias), id, data)
        && r == Some(Fusion(old(GetById(id)).value, data))
        && r == GetById(id)
    {
      var actual := GetById(id);
      if actual.None? {
        return None;
      }
      ReemplazarConservaClaves(categorias, ConId(id), ConParche(data), Clave, nextId);
      ReemplazarLee(categorias, ConId(id), ConParche(data), actual.value);
      categorias := Actualizada(categorias, id, data);
      r := Some(Fusion(actual.value, data));
    }

    /** `delete`: the row is removed; true exactly when there was one. */
    method Delete(id: int) returns (r: bool)
      requires Valid()
      modifies this`categorias
      ensures Valid()
      ensures categorias == Borrada(old(categorias), id)
      ensures r <==> exists c :: c in old(categorias) && c.id == id
    {
      r := FindIndex(categorias, (c: Categoria) => c.id == id).Some?;
      FiltrarConservaClaves(categorias, (c: Categoria) => c.id != id, Clave, nextId);
      categorias := Borrada(categorias, id);
    }
  }

  // ---------------------------------------------------------------------
  // Properties of the table operations
  // ---------------------------------------------------------------------

  /** Only the row with that id changes; it keeps its id and takes each of
      the three fields from the patch when present, from the row otherwise. */
  lemma ActualizadaEfecto(cs: seq<Categoria>, id: int, d: Parche)
    ensures var a := Actualizada(cs, id, d);
      && |a| == |cs|
      && (forall i :: 0 <= i < |cs| && cs[i].id != id ==> a[i] == cs[i])
      && (forall i :: 0 <= i < |cs| && cs[i].id == id ==>
            && a[i].id == id
            && a[i].nombre == (if d.nombre.Some? then d.nombre.value else cs[i].nombre)
            && a[i].descripcion == (if d.descripcion.Some? then d.descripcion else cs[i].descripcion)
            && a[i].activo == (if d.activo.Some? then d.activo.value else cs[i].activo))
  {
  }

  /** An empty patch writes the row back unchanged, and a patch applied twice
      is applied once. */
  lemma FusionNeutraEIdempotente(c: Categoria, d: Parche)
    ensures Fusion(c, Parche(None, None, None)) == c
    ensures Fusion(Fusion(c, d), d) == Fusion(c, d)
  {
  }

  /** A missing or empty description is stored as NULL; any other is kept. */
  lemma NuevaDescripcion(id: int, data: NuevaCategoria)
    ensures Nueva(id, data).descripcion.None? <==> data.descripcion.None? || data.descripcion == Some("")
    ensures Nueva(id, data).descripcion.Some? ==> Nueva(id, data).descripcion == data.descripcion
  {
  }

  /** The hard delete leaves no row with that id and every other row; deleting
      again changes nothing. */
  lemma BorradaEfecto(cs: seq<Categoria>, id: int)
    ensures forall c :: c in Borrada(cs, id) <==> c in cs && c.id != id
    ensures Borrada(Borrada(cs, id), id) == Borrada(cs, id)
  {
    FilterIdempotent(cs, (c: Categoria) => c.id != id);
  }
}
