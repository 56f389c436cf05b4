/** `ProductoService`: the `productos` table, listed by name, created with
    falsy optional fields stored as NULL, merge-updated and hard-deleted.  The
    table is a sequence of rows in a class field, with the AUTO_INCREMENT
    counter beside it. */
module Productos {
  import opened Common

  /** The column default of `activo` for a row inserted without it. */
  const ACTIVO_POR_DEFECTO := true

  /** A row of `productos` (`ProductoDTO`). */
  datatype Producto = Producto(
    id: int,
    categoria_id: int,
    nombre: string,
    descripcion: Option<string>,
    precio: real,
    costo: Option<real>,
    sku: Option<string>,
    activo: bool)

  /** `CreateProductoDTO`. */
  datatype NuevoProducto = NuevoProducto(
    categoria_id: int,
    nombre: string,
    descripcion: Option<string>,
    precio: real,
    costo: Option<real>,
    sku: Option<string>)

  /** `UpdateProductoDTO`: each field present (`Some`) or absent. */
  datatype Parche = Parche(
    categoria_id: Option<int>,
    nombre: Option<string>,
    descripcion: Option<string>,
    precio: Option<real>,
    costo: Option<real>,
    sku: Option<string>,
    activo: Option<bool>)

  function Clave(p: Producto): int
  {
    p.id
  }

  /** The column `ORDER BY nombre` sorts on. */
  function Nombre(p: Producto): string
  {
    p.nombre
  }

  /** `WHERE id = ?`. */
  function ConId(id: int): Producto -> bool
  {
    (p: Producto) => p.id == id
  }

  /** The stored row merged with a patch. */
  function ConParche(d: Parche): Producto -> Producto
  {
    (p: Producto) => Fusion(p, d)
  }

  /** `costo || null`: zero is falsy, so a zero cost is stored as NULL. */
  function CostoONull(c: Option<real>): (r: Option<real>)
    ensures r.Some? <==> c.Some? && c.value != 0.0
    ensures r.Some? ==> r == c
  {
    if c.Some? && c.value != 0.0 then c else None
  }

  /** The row `create` inserts under id `id`. */
  function Nuevo(id: int, data: NuevoProducto): Producto
  {
    Producto(id, data.categoria_id, data.nombre, OrNull(data.descripcion), data.precio,
             CostoONull(data.costo), OrNull(data.sku), ACTIVO_POR_DEFECTO)
  }

  /** `{ ...producto, ...data }`, restricted to the columns `update` writes. */
  function Fusion(p: Producto, d: Parche): Producto
  {
    Producto(p.id, d.categoria_id.GetOr(p.categoria_id), d.nombre.GetOr(p.nombre),
             if d.descripcion.Some? then d.descripcion else p.descripcion,
             d.precio.GetOr(p.precio),
             if d.costo.Some? then d.costo else p.costo,
             if d.sku.Some? then d.sku else p.sku,
             d.activo.GetOr(p.activo))
  }

  /** `UPDATE productos SET ... WHERE id = ?` with the merged values. */
  function Actualizado(ps: seq<Producto>, id: int, d: Parche): seq<Producto>
  {
    Reemplazar(ps, ConId(id), ConParche(d))
  }

  /** `DELETE FROM productos WHERE id = ?`. */
  function Borrado(ps: seq<Producto>, id: int): seq<Producto>
  {
    Filter(ps, (p: Producto) => p.id != id)
  }

  class ProductoService {
    var productos: seq<Producto>
    var nextId: int

    /** `id` is the primary key and the counter is above every id. */
    ghost predicate Valid()
      reads this
    {
      ClavesValidas(productos, Clave, nextId)
    }

    constructor ()
      ensures Valid() && productos == [] && nextId == 1
    {
      productos := [];
      nextId := 1;
    }

    /** `getAll`: the active products, by name. */
    function GetAll(): (r: seq<Producto>)
      reads this
      ensures forall p :: p in r <==> p in productos && p.activo
      ensures forall p :: multiset(r)[p] == if p.activo then multiset(productos)[p] else 0
      ensures forall i, j :: 0 <= i < j < |r| ==> StrLe(r[i].nombre, r[j].nombre)
    {
      var activo := (p: Producto) => p.activo;
      FilterMultiplicidad(productos, activo);
      ListadoPor(Filter(productos, activo), Nombre)
    }

    /** `getAllAdmin`: every product, active or not, by name. */
    function GetAllAdmin(): (r: seq<Producto>)
      reads this
      ensures multiset(r) == multiset(productos)
      ensures forall i, j :: 0 <= i < j < |r| ==> StrLe(r[i].nombre, r[j].nombre)
    {
      ListadoPor(productos, Nombre)
    }

    /** `getByCategoriaId`: the category's active products, by name. */
    function GetByCategoriaId(categoriaId: int): (r: seq<Producto>)
      reads this
      ensures forall p :: p in r <==> p in productos && p.categoria_id == categoriaId && p.activo
      ensures forall p :: multiset(r)[p] == if p.categoria_id == categoriaId && p.activo then multiset(productos)[p] else 0
      ensures forall i, j :: 0 <= i < j < |r| ==> StrLe(r[i].nombre, r[j].nombre)
    {
      var deCategoria := (p: Producto) => p.categoria_id == categoriaId && p.activo;
      FilterMultiplicidad(productos, deCategoria);
      ListadoPor(Filter(productos, deCategoria), Nombre)
    }

    /** `getById`: the row with that id, active or not; nothing when there is
        none. */
    function GetById(id: int): (r: Option<Producto>)
      reads this
      ensures r.None? <==> forall p :: p in productos ==> p.id != id
      ensures r.Some? ==> r.value in productos && r.value.id == id
    {
      Find(productos, ConId(id))
    }

    /** `create`: one row is inserted under the counter and read back. */
    method Create(data: NuevoProducto) returns (r: Producto)
      requires Valid()
      modifies this
      ensures Valid()
      ensures r == Nuevo(old(nextId), data)
      ensures productos == old(productos) + [r] && nextId == old(nextId) + 1
      ensures GetById(r.id) == Some(r)
    {
      r := Nuevo(nextId, data);
      AgregarConservaClaves(productos, r, Clave, nextId);
      productos := productos + [r];
      nextId := nextId + 1;
    }

    /** `update`: a missing id gives null and writes nothing; otherwise the
        stored row merged with `data` is written over that row and returned. */
    method Update(id: int, data: Parche) returns (r: Option<Producto>)
      requires Valid()
      modifies this`productos
      ensures Valid()
      ensures old(GetById(id)).None? ==> r.None? && productos == old(productos)
      ensures old(GetById(id)).Some? ==>
        && productos == Actualizado(old(productos), id, data)
        && r == Some(Fusion(old(GetById(id)).value, data))
        && r == GetById(id)
    {
      var actual := GetById(id);
      if actual.None? {
        return None;
      }
      ReemplazarConservaClaves(productos, ConId(id), ConParche(data), Clave, nextId);
      ReemplazarLee(productos, ConId(id), ConParche(data), actual.value);
      productos := Actualizado(productos, id, data);
      r := Some(Fusion(actual.value, data));
    }

    /** `delete`: the row is removed; true exactly when there was one. */
    method Delete(id: int) returns (r: bool)
      requires Valid()
      modifies this`productos
      ensures Valid()
      ensures productos == Borrado(old(productos), id)
      ensures r <==> exists p :: p in old(productos) && p.id == id
    {
      r := FindIndex(productos, (p: Producto) => p.id == id).Some?;
      FiltrarConservaClaves(productos, (p: Producto) => p.id != id, Clave, nextId);
      productos := Borrado(productos, id);
    }
  }

  // ---------------------------------------------------------------------
  // Properties of the table operations
  // ---------------------------------------------------------------------

  /** Only the row with that id changes, it keeps its id, and it takes every
      field present in the patch and keeps every absent one. */
  lemma ActualizadoEfecto(ps: seq<Producto>, id: int, d: Parche)
    ensures var a := Actualizado(ps, id, d);
      && |a| == |ps|
      && (forall i :: 0 <= i < |ps| && ps[i].id != id ==> a[i] == ps[i])
      && (forall i :: 0 <= i < |ps| && ps[i].id == id ==>
            && a[i].id == id
            && (d.categoria_id.Some? ==> a[i].categoria_id == d.categoria_id.value)
            && (d.categoria_id.None? ==> a[i].categoria_id == ps[i].categoria_id)
            && (d.nombre.Some? ==> a[i].nombre == d.nombre.value)
            && (d.nombre.None? ==> a[i].nombre == ps[i].nombre)
            && (d.precio.Some? ==> a[i].precio == d.precio.value)
            && (d.precio.None? ==> a[i].precio == ps[i].precio)
            && (d.descripcion.Some? ==> a[i].descripcion == d.descripcion)
            && (d.descripcion.None? ==> a[i].descripcion == ps[i].descripcion)
            && (d.costo.Some? ==> a[i].costo == d.costo)
            && (d.costo.None? ==> a[i].costo == ps[i].costo)
            && (d.sku.Some? ==> a[i].sku == d.sku)
            && (d.sku.None? ==> a[i].sku == ps[i].sku)
            && (d.activo.Some? ==> a[i].activo == d.activo.value)
            && (d.activo.None? ==> a[i].activo == ps[i].activo))
  {
  }

  /** An empty patch writes every row back unchanged. */
  lemma FusionVacia(p: Producto)
    ensures Fusion(p, Parche(None, None, None, None, None, None, None)) == p
  {
  }

  /** Applying the same patch twice is applying it once. */
  lemma FusionIdempotente(p: Producto, d: Parche)
    ensures Fusion(Fusion(p, d), d) == Fusion(p, d)
  {
  }

  /** A created product with a zero cost, or an empty description or SKU,
      stores NULL there. */
  lemma NuevoFalsosANull(id: int, data: NuevoProducto)
    ensures data.costo == Some(0.0) ==> Nuevo(id, data).costo.None?
    ensures data.descripcion == Some("") ==> Nuevo(id, data).descripcion.None?
    ensures data.sku == Some("") ==> Nuevo(id, data).sku.None?
    ensures Nuevo(id, data).activo
  {
  }

  /** The hard delete leaves no row with that id and every other row in its
      order; deleting again changes nothing. */
  lemma BorradoEfecto(ps: seq<Producto>, id: int)
    ensures forall p :: p in Borrado(ps, id) <==> p in ps && p.id != id
    ensures Borrado(Borrado(ps, id), id) == Borrado(ps, id)
  {
    FilterIdempotent(ps, (p: Producto) => p.id != id);
  }

  /** The public listing is a sub-list of the admin listing: every active
      product appears in both, each inactive one only in the latter. */
  lemma ListadosAnidados(ps: seq<Producto>)
    ensures multiset(ListadoPor(Filter(ps, (p: Producto) => p.activo), Nombre)) <= multiset(ListadoPor(ps, Nombre))
  {
    FilterMultiplicidad(ps, (p: Producto) => p.activo);
  }
}
