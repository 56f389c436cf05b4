/** `IngredienteService`: the `ingredientes` table, read through the active
    rows, written by an upsert keyed on `nombre`, a whole-row update and a
    soft delete.  The table is a sequence of rows in a class field, with the
    AUTO_INCREMENT counter beside it. */
module Ingredientes {
  import opened Common

  /** `UnidadMedidaIngrediente`. */
  datatype Unidad = Kg | Litros | Unidades | Gramos | Ml

  /** A row of `ingredientes`.  Every column `update` writes can hold NULL,
      because `update` writes an absent field as NULL. */
  datatype Fila = Fila(
    id: int,
    nombre: Option<string>,
    descripcion: Option<string>,
    unidad_medida: Option<Unidad>,
    costo_unitario: Option<real>,
    activo: Option<bool>)

  /** `IngredienteDTO`, as `create` receives it and as it returns it. */
  datatype Ingrediente = Ingrediente(
    id: Option<int>,
    nombre: string,
    descripcion: Option<string>,
    unidad_medida: Unidad,
    costo_unitario: Option<real>,
    activo: Option<bool>)

  /** The fields of a `Partial<IngredienteDTO>` that `update` writes. */
  datatype Parcial = Parcial(
    nombre: Option<string>,
    descripcion: Option<string>,
    unidad_medida: Option<Unidad>,
    costo_unitario: Option<real>,
    activo: Option<bool>)

  /** The new table, the new counter and the value `create` returns. */
  datatype Upsert = Upsert(filas: seq<Fila>, nextId: int, devuelto: Ingrediente)

  /** `activo = TRUE`: a NULL flag does not pass. */
  predicate Activa(f: Fila)
  {
    f.activo == Some(true)
  }

  function Clave(f: Fila): int
  {
    f.id
  }

  /** `activo ?? true`. */
  function ActivoPorDefecto(activo: Option<bool>): bool
  {
    activo.GetOr(true)
  }

  /** The row `INSERT INTO ingredientes ...` stores under id `id`. */
  function FilaNueva(id: int, ing: Ingrediente): Fila
  {
    Fila(id, Some(ing.nombre), ing.descripcion, Some(ing.unidad_medida), ing.costo_unitario,
         Some(ActivoPorDefecto(ing.activo)))
  }

  /** `UPDATE ingredientes SET descripcion, unidad_medida, costo_unitario,
      activo WHERE id = ?`: the upsert's overwrite, which keeps `nombre`. */
  function Sobrescrito(fs: seq<Fila>, id: int, ing: Ingrediente): seq<Fila>
  {
    Reemplazar(fs, (f: Fila) => f.id == id,
      (f: Fila) => f.(descripcion := ing.descripcion, unidad_medida := Some(ing.unidad_medida),
                      costo_unitario := ing.costo_unitario, activo := Some(ActivoPorDefecto(ing.activo))))
  }

  /** `UPDATE ingredientes SET nombre, descripcion, unidad_medida,
      costo_unitario, activo WHERE id = ?`: all five columns, straight from
      the argument. */
  function Escrito(fs: seq<Fila>, id: int, p: Parcial): seq<Fila>
  {
    Reemplazar(fs, (f: Fila) => f.id == id,
      (f: Fila) => f.(nombre := p.nombre, descripcion := p.descripcion, unidad_medida := p.unidad_medida,
                      costo_unitario := p.costo_unitario, activo := p.activo))
  }

  /** `UPDATE ingredientes SET activo = FALSE WHERE id = ?`. */
  function Desactivado(fs: seq<Fila>, id: int): seq<Fila>
  {
    Reemplazar(fs, (f: Fila) => f.id == id, (f: Fila) => f.(activo := Some(false)))
  }

  /** `WHERE nombre = ?`: a NULL name matches nothing. */
  function ConNombre(nombre: string): Fila -> bool
  {
    (f: Fila) => f.nombre == Some(nombre)
  }

  /** `create`: the first row carrying the name, active or not, is overwritten
      and its id returned; without one a row is inserted under the counter.
      The returned object is the argument with `id` and `activo` filled in; on
      the insert path the argument's own `id`, if it has one, wins over the
      inserted id, because it is spread after it. */
  function Creado(fs: seq<Fila>, nextId: int, ing: Ingrediente): (u: Upsert)
    ensures u.devuelto.nombre == ing.nombre && u.devuelto.descripcion == ing.descripcion
    ensures u.devuelto.unidad_medida == ing.unidad_medida && u.devuelto.costo_unitario == ing.costo_unitario
    ensures u.devuelto.activo == Some(ActivoPorDefecto(ing.activo))
    ensures (exists f :: f in fs && f.nombre == Some(ing.nombre)) ==>
      && u.nextId == nextId && |u.filas| == |fs|
      && exists k ::
           && 0 <= k < |fs| && fs[k].nombre == Some(ing.nombre)
           && (forall m :: 0 <= m < k ==> fs[m].nombre != Some(ing.nombre))
           && u.devuelto.id == Some(fs[k].id)
           && u.filas == Sobrescrito(fs, fs[k].id, ing)
    ensures (forall f :: f in fs ==> f.nombre != Some(ing.nombre)) ==>
      && u.nextId == nextId + 1
      && u.filas == fs + [FilaNueva(nextId, ing)]
      && u.devuelto.id == Some(ing.id.GetOr(nextId))
  {
    var k := FindIndex(fs, ConNombre(ing.nombre));
    if k.Some? then
      var existente := fs[k.value].id;
      Upsert(Sobrescrito(fs, existente, ing), nextId,
             ing.(id := Some(existente), activo := Some(ActivoPorDefecto(ing.activo))))
    else
      Upsert(fs + [FilaNueva(nextId, ing)], nextId + 1,
             ing.(id := Some(ing.id.GetOr(nextId)), activo := Some(ActivoPorDefecto(ing.activo))))
  }

  class IngredienteService {
    var ingredientes: seq<Fila>
    var nextId: int

    /** `id` is the primary key and the counter is above every id. */
    ghost predicate Valid()
      reads this
    {
      ClavesValidas(ingredientes, Clave, nextId)
    }

    constructor ()
      ensures Valid() && ingredientes == [] && nextId == 1
    {
      ingredientes := [];
      nextId := 1;
    }

    /** `getAll`: exactly the active rows. */
    function GetAll(): (r: seq<Fila>)
      reads this
      ensures forall f :: f in r <==> f in ingredientes && Activa(f)
      ensures forall f :: multiset(r)[f] == if Activa(f) then multiset(ingredientes)[f] else 0
      ensures Subsecuencia(r, ingredientes)
    {
      FilterSubsecuencia(ingredientes, Activa);
      FilterMultiplicidad(ingredientes, Activa);
      Filter(ingredientes, Activa)
    }

    /** `getById`: the row with that id when it is active; nothing for an
        unknown id or an inactive (or NULL-flagged) row. */
    function GetById(id: int): (r: Option<Fila>)
      reads this
      ensures r.None? <==> forall f :: f in ingredientes && f.id == id ==> !Activa(f)
      ensures r.Some? ==> r.value in ingredientes && r.value.id == id && Activa(r.value)
    {
      Find(ingredientes, (f: Fila) => f.id == id && Activa(f))
    }

    /** `create`: the upsert keyed on `nombre`. */
    method Create(ing: Ingrediente) returns (r: Ingrediente)
      requires Valid()
      modifies this
      ensures Valid()
      ensures var u := Creado(old(ingredientes), old(nextId), ing);
        ingredientes == u.filas && nextId == u.nextId && r == u.devuelto
    {
      var k := FindIndex(ingredientes, ConNombre(ing.nombre));
      var activo := ActivoPorDefecto(ing.activo);
      if k.Some? {
        var existente := ingredientes[k.value].id;
        ReemplazarConservaClaves(ingredientes, (f: Fila) => f.id == existente,
          (f: Fila) => f.(descripcion := ing.descripcion, unidad_medida := Some(ing.unidad_medida),
                          costo_unitario := ing.costo_unitario, activo := Some(activo)), Clave, nextId);
        ingredientes := Sobrescrito(ingredientes, existente, ing);
        r := ing.(id := Some(existente), activo := Some(activo));
      } else {
        var insertado := nextId;
        AgregarConservaClaves(ingredientes, FilaNueva(insertado, ing), Clave, nextId);
        ingredientes := ingredientes + [FilaNueva(insertado, ing)];
        nextId := nextId + 1;
        r := ing.(id := Some(ing.id.GetOr(insertado)), activo := Some(activo));
      }
    }

    /** `update`: all five columns of the row are written from `p` (absent
        fields become NULL); an unknown id matches no row, so the table is
        unchanged and the result is null; otherwise the row is read back,
        which gives null when it is no longer active. */
    method Update(id: int, p: Parcial) returns (r: Option<Fila>)
      requires Valid()
      modifies this`ingredientes
      ensures Valid()
      ensures ingredientes == Escrito(old(ingredientes), id, p)
      ensures (forall f :: f in old(ingredientes) ==> f.id != id) ==> ingredientes == old(ingredientes) && r.None?
      ensures (exists f :: f in old(ingredientes) && f.id == id) ==> r == GetById(id)
    {
      var afectadas := FindIndex(ingredientes, (f: Fila) => f.id == id);
      ReemplazarConservaClaves(ingredientes, (f: Fila) => f.id == id,
        (f: Fila) => f.(nombre := p.nombre, descripcion := p.descripcion, unidad_medida := p.unidad_medida,
                        costo_unitario := p.costo_unitario, activo := p.activo), Clave, nextId);
      if afectadas.None? {
        EscritoSinCoincidencia(ingredientes, id, p);
        ingredientes := Escrito(ingredientes, id, p);
        r := None;
      } else {
        ingredientes := Escrito(ingredientes, id, p);
        r := GetById(id);
      }
    }

    /** `delete`: the soft delete; reports whether a row had that id. */
    method Delete(id: int) returns (r: bool)
      requires Valid()
      modifies this`ingredientes
      ensures Valid()
      ensures ingredientes == Desactivado(old(ingredientes), id)
      ensures r <==> exists f :: f in old(ingredientes) && f.id == id
    {
      r := FindIndex(ingredientes, (f: Fila) => f.id == id).Some?;
      ReemplazarConservaClaves(ingredientes, (f: Fila) => f.id == id,
        (f: Fila) => f.(activo := Some(false)), Clave, nextId);
      ingredientes := Desactivado(ingredientes, id);
    }
  }

  // ---------------------------------------------------------------------
  // Properties of the table operations
  // ---------------------------------------------------------------------

  /** An update of an id no row has writes nothing. */
  lemma EscritoSinCoincidencia(fs: seq<Fila>, id: int, p: Parcial)
    requires forall f :: f in fs ==> f.id != id
    ensures Escrito(fs, id, p) == fs
  {
    var e := Escrito(fs, id, p);
    forall i | 0 <= i < |fs| ensures e[i] == fs[i] {
      assert fs[i] in fs;
    }
  }

  /** The update writes its argument into every column of the row it matches
      (NULL for an absent field) and leaves every other row as it was. */
  lemma EscritoEfecto(fs: seq<Fila>, id: int, p: Parcial)
    ensures var e := Escrito(fs, id, p);
      && |e| == |fs|
      && forall i :: 0 <= i < |fs| ==>
           if fs[i].id == id
           then e[i] == Fila(id, p.nombre, p.descripcion, p.unidad_medida, p.costo_unitario, p.activo)
           else e[i] == fs[i]
  {
  }

  /** An update whose argument leaves out `activo` stores NULL in it, so the
      row drops out of both reads, `getAll` and `getById`, although it is
      still in the table. */
  lemma UpdateSinActivoOculta(fs: seq<Fila>, id: int, p: Parcial)
    requires p.activo.None?
    ensures var e := Escrito(fs, id, p);
      forall f :: f in e && f.id == id ==> !Activa(f) && f !in Filter(e, Activa)
  {
    var e := Escrito(fs, id, p);
    forall f | f in e && f.id == id ensures !Activa(f) {
      var i :| 0 <= i < |e| && e[i] == f;
    }
  }

  /** The soft delete keeps every row in place and clears the flag of the
      matched row, which is thereafter invisible to `getById`. */
  lemma DesactivadoEfecto(fs: seq<Fila>, id: int)
    ensures var d := Desactivado(fs, id);
      && |d| == |fs|
      && (forall i :: 0 <= i < |fs| ==> d[i].id == fs[i].id && d[i].nombre == fs[i].nombre)
      && (forall i :: 0 <= i < |fs| && fs[i].id != id ==> d[i] == fs[i])
      && (forall f :: f in d && f.id == id ==> f.activo == Some(false))
  {
    var d := Desactivado(fs, id);
    forall f | f in d && f.id == id ensures f.activo == Some(false) {
      var i :| 0 <= i < |d| && d[i] == f;
    }
  }

  /** Deleting twice is deleting once. */
  lemma DesactivadoIdempotente(fs: seq<Fila>, id: int)
    ensures Desactivado(Desactivado(fs, id), id) == Desactivado(fs, id)
  {
  }

  /** Names stay unique under `create`: the upsert inserts only a name no
      row has. */
  ghost predicate NombresUnicos(fs: seq<Fila>)
  {
    forall i, j :: 0 <= i < j < |fs| && fs[i].nombre.Some? ==> fs[i].nombre != fs[j].nombre
  }

  lemma CreadoConservaNombresUnicos(fs: seq<Fila>, nextId: int, ing: Ingrediente)
    requires NombresUnicos(fs)
    ensures NombresUnicos(Creado(fs, nextId, ing).filas)
  {
    var u := Creado(fs, nextId, ing);
    if exists f :: f in fs && f.nombre == Some(ing.nombre) {
      forall i, j | 0 <= i < j < |u.filas| && u.filas[i].nombre.Some?
        ensures u.filas[i].nombre != u.filas[j].nombre
      {
        assert u.filas[i].nombre == fs[i].nombre && u.filas[j].nombre == fs[j].nombre;
      }
    } else {
      forall i, j | 0 <= i < j < |u.filas| && u.filas[i].nombre.Some?
        ensures u.filas[i].nombre != u.filas[j].nombre
      {
        if j == |fs| {
          assert fs[i] in fs;
        }
      }
    }
  }

  /** After `create` the table holds a row with the given name carrying the
      given description, unit, cost and flag (`activo` defaulting to true),
      and the returned id is that row's id unless the argument brought an id
      of its own to an insert. */
  lemma CreadoGuarda(fs: seq<Fila>, nextId: int, ing: Ingrediente)
    requires ClavesValidas(fs, Clave, nextId)
    ensures var u := Creado(fs, nextId, ing);
      exists f ::
        && f in u.filas && f.nombre == Some(ing.nombre)
        && f.descripcion == ing.descripcion && f.unidad_medida == Some(ing.unidad_medida)
        && f.costo_unitario == ing.costo_unitario && f.activo == Some(ActivoPorDefecto(ing.activo))
        && (ing.id.None? ==> u.devuelto.id == Some(f.id))
  {
    var u := Creado(fs, nextId, ing);
    if exists f :: f in fs && f.nombre == Some(ing.nombre) {
      var k :| && 0 <= k < |fs| && fs[k].nombre == Some(ing.nombre)
               && u.devuelto.id == Some(fs[k].id)
               && u.filas == Sobrescrito(fs, fs[k].id, ing);
      assert u.filas[k] in u.filas;
    } else {
      assert u.filas[|fs|] == FilaNueva(nextId, ing);
      assert u.filas[|fs|] in u.filas;
    }
  }

  /** The upsert's overwrite keeps every row's id and name. */
  lemma SobrescritoConserva(fs: seq<Fila>, id: int, ing: Ingrediente)
    ensures var o := Sobrescrito(fs, id, ing);
      |o| == |fs| && forall i :: 0 <= i < |fs| ==> o[i].id == fs[i].id && o[i].nombre == fs[i].nombre
  {
  }

  /** Overwriting twice with the same values is overwriting once. */
  lemma SobrescritoIdempotente(fs: seq<Fila>, id: int, ing: Ingrediente)
    ensures Sobrescrito(Sobrescrito(fs, id, ing), id, ing) == Sobrescrito(fs, id, ing)
  {
  }

  /** Creating the same ingredient twice leaves the table and the counter as
      creating it once: the second call finds the row the first one wrote and
      overwrites it with the same values. */
  lemma CreadoIdempotente(fs: seq<Fila>, nextId: int, ing: Ingrediente)
    requires ClavesValidas(fs, Clave, nextId)
    ensures var u := Creado(fs, nextId, ing);
      var v := Creado(u.filas, u.nextId, ing);
      v.filas == u.filas && v.nextId == u.nextId
  {
    var u := Creado(fs, nextId, ing);
    var p := ConNombre(ing.nombre);
    var k := FindIndex(fs, p);
    if k.Some? {
      var id := fs[k.value].id;
      assert u.filas == Sobrescrito(fs, id, ing);
      SobrescritoConserva(fs, id, ing);
      FindIndexCongruente(fs, u.filas, p);
      SobrescritoIdempotente(fs, id, ing);
    } else {
      var nueva := FilaNueva(nextId, ing);
      assert u.filas == fs + [nueva];
      assert p(u.filas[|fs|]);
      var k2 := FindIndex(u.filas, p);
      assert k2 == Some(|fs|);
      var w := Sobrescrito(u.filas, nextId, ing);
      forall i | 0 <= i < |u.filas| ensures w[i] == u.filas[i] {
        if i < |fs| {
          assert fs[i] in fs;
        }
      }
    }
  }
}
