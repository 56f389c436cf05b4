/** `ContenidoDigitalService`: an in-process store of digital-content entries
    (images and videos of products) kept as a list plus an id counter.  The
    store is a class whose list and counter the operations update in place. */
module ContenidoDigital {
  import opened Common

  const MSG_NO_ENCONTRADA := "Imagen no encontrada"

  datatype Tipo = Imagen | Video

  /** One entry; `fechaSubida` is the creation instant in milliseconds. */
  datatype Entrada = Entrada(
    id: int,
    productoId: int,
    url: string,
    titulo: string,
    descripcion: Option<string>,
    etiquetas: seq<string>,
    fechaSubida: int,
    tipo: Tipo,
    tamano: Option<int>)

  /** What `crearImagen` receives: every field but the id. */
  datatype Datos = Datos(
    productoId: int,
    url: string,
    titulo: string,
    descripcion: Option<string>,
    etiquetas: seq<string>,
    tipo: Tipo,
    tamano: Option<int>)

  /** What `actualizarImagen` receives: each field present (`Some`) or absent.
      The optional fields can be present with the value `None` (JSON `null`). */
  datatype Parche = Parche(
    id: Option<int>,
    productoId: Option<int>,
    url: Option<string>,
    titulo: Option<string>,
    descripcion: Option<Option<string>>,
    etiquetas: Option<seq<string>>,
    fechaSubida: Option<int>,
    tipo: Option<Tipo>,
    tamano: Option<Option<int>>)

  // ---------------------------------------------------------------------
  // Updates of a single entry
  // ---------------------------------------------------------------------

  /** `{ ...img, ...data }` exactly as written: every present field wins,
      `id` included. */
  function FusionTalCual(img: Entrada, p: Parche): Entrada
  {
    Entrada(
      p.id.GetOr(img.id),
      p.productoId.GetOr(img.productoId),
      p.url.GetOr(img.url),
      p.titulo.GetOr(img.titulo),
      p.descripcion.GetOr(img.descripcion),
      p.etiquetas.GetOr(img.etiquetas),
      p.fechaSubida.GetOr(img.fechaSubida),
      p.tipo.GetOr(img.tipo),
      p.tamano.GetOr(img.tamano))
  }

  /** The merge the store relies on: every present field wins except `id`,
      which stays the entry's own. */
  function Fusion(img: Entrada, p: Parche): (r: Entrada)
    ensures r.id == img.id
    ensures r == FusionTalCual(img, p.(id := None))
    ensures p.id.None? || p.id == Some(img.id) ==> r == FusionTalCual(img, p)
  {
    FusionTalCual(img, p.(id := None))
  }

  /** Every field of the merge comes from the patch when present, from the
      entry otherwise. */
  lemma FusionCampos(img: Entrada, p: Parche)
    ensures var r := Fusion(img, p);
      && r.productoId == (if p.productoId.Some? then p.productoId.value else img.productoId)
      && r.url == (if p.url.Some? then p.url.value else img.url)
      && r.titulo == (if p.titulo.Some? then p.titulo.value else img.titulo)
      && r.descripcion == (if p.descripcion.Some? then p.descripcion.value else img.descripcion)
      && r.etiquetas == (if p.etiquetas.Some? then p.etiquetas.value else img.etiquetas)
      && r.fechaSubida == (if p.fechaSubida.Some? then p.fechaSubida.value else img.fechaSubida)
      && r.tipo == (if p.tipo.Some? then p.tipo.value else img.tipo)
      && r.tamano == (if p.tamano.Some? then p.tamano.value else img.tamano)
  {
  }

  /** `agregarEtiqueta` on one entry: the tag is appended when absent. */
  function ConEtiqueta(img: Entrada, etiqueta: string): (r: Entrada)
    ensures etiqueta in r.etiquetas
    ensures forall e :: e in img.etiquetas ==> e in r.etiquetas
    ensures forall e :: e in r.etiquetas ==> e in img.etiquetas || e == etiqueta
    ensures |img.etiquetas| <= |r.etiquetas| && r.etiquetas[..|img.etiquetas|] == img.etiquetas
    ensures r == img.(etiquetas := r.etiquetas)
  {
    if etiqueta in img.etiquetas then img else img.(etiquetas := img.etiquetas + [etiqueta])
  }

  /** Adding a tag twice is adding it once. */
  lemma ConEtiquetaIdempotente(img: Entrada, etiqueta: string)
    ensures ConEtiqueta(ConEtiqueta(img, etiqueta), etiqueta) == ConEtiqueta(img, etiqueta)
  {
  }

  /** `eliminarEtiqueta` on one entry: every occurrence of the tag is dropped. */
  function SinEtiqueta(img: Entrada, etiqueta: string): (r: Entrada)
    ensures etiqueta !in r.etiquetas
    ensures forall e :: e != etiqueta ==> (e in r.etiquetas <==> e in img.etiquetas)
    ensures forall e :: multiset(r.etiquetas)[e] == if e == etiqueta then 0 else multiset(img.etiquetas)[e]
    ensures Subsecuencia(r.etiquetas, img.etiquetas)
    ensures r == img.(etiquetas := r.etiquetas)
  {
    var otra := (e: string) => e != etiqueta;
    FilterSubsecuencia(img.etiquetas, otra);
    FilterMultiplicidad(img.etiquetas, otra);
    img.(etiquetas := Filter(img.etiquetas, otra))
  }

  // ---------------------------------------------------------------------
  // Case-insensitive tag search
  // ---------------------------------------------------------------------

  /** `toLowerCase` on one character, over ASCII. */
  function Minuscula(c: char): (r: char)
    ensures 'A' <= c <= 'Z' ==> 'a' <= r <= 'z' && r as int == c as int + 32
    ensures !('A' <= c <= 'Z') ==> r == c
  {
    if 'A' <= c <= 'Z' then (c as int + 32) as char else c
  }

  function Minusculas(s: string): (r: string)
    ensures |r| == |s|
    ensures forall i :: 0 <= i < |s| ==> r[i] == Minuscula(s[i])
  {
    if s == [] then [] else [Minuscula(s[0])] + Minusculas(s[1..])
  }

  /** `sub` occurs in `s` starting at position `i`. */
  ghost predicate AparecenEn(sub: string, s: string, i: int)
  {
    0 <= i && i + |sub| <= |s| && s[i..i + |sub|] == sub
  }

  /** JS `s.includes(sub)`: the empty string is included everywhere. */
  function Incluye(s: string, sub: string): (r: bool)
    ensures r <==> exists i :: AparecenEn(sub, s, i)
  {
    if |sub| > |s| then
      assert forall i :: !AparecenEn(sub, s, i);
      false
    else if s[..|sub|] == sub then
      assert AparecenEn(sub, s, 0);
      true
    else
      var r := Incluye(s[1..], sub);
      IncluyeCola(s, sub);
      r
  }

  lemma IncluyeCola(s: string, sub: string)
    requires |sub| <= |s| && s[..|sub|] != sub
    ensures (exists i :: AparecenEn(sub, s, i)) <==> (exists i :: AparecenEn(sub, s[1..], i))
  {
    if exists i :: AparecenEn(sub, s, i) {
      var i :| AparecenEn(sub, s, i);
      assert i != 0;
      assert s[1..][i - 1..i - 1 + |sub|] == s[i..i + |sub|];
      assert AparecenEn(sub, s[1..], i - 1);
    }
    if exists i :: AparecenEn(sub, s[1..], i) {
      var i :| AparecenEn(sub, s[1..], i);
      assert s[1..][i..i + |sub|] == s[i + 1..i + 1 + |sub|];
      assert AparecenEn(sub, s, i + 1);
    }
  }

  /** `img.etiquetas.some(e => e.toLowerCase().includes(q.toLowerCase()))`. */
  predicate TieneEtiquetaParecida(img: Entrada, q: string)
  {
    exists k :: 0 <= k < |img.etiquetas| && Incluye(Minusculas(img.etiquetas[k]), Minusculas(q))
  }

  /** The search condition spelled out: some tag, lower-cased, has the
      lower-cased query at some position. */
  ghost predicate Coincide(e: Entrada, q: string)
  {
    exists k, i :: 0 <= k < |e.etiquetas| && AparecenEn(Minusculas(q), Minusculas(e.etiquetas[k]), i)
  }

  lemma EtiquetaParecidaCoincide(e: Entrada, q: string)
    ensures TieneEtiquetaParecida(e, q) <==> Coincide(e, q)
  {
    if Coincide(e, q) {
      var k, i :| 0 <= k < |e.etiquetas| && AparecenEn(Minusculas(q), Minusculas(e.etiquetas[k]), i);
      assert Incluye(Minusculas(e.etiquetas[k]), Minusculas(q));
    }
    if TieneEtiquetaParecida(e, q) {
      var k :| 0 <= k < |e.etiquetas| && Incluye(Minusculas(e.etiquetas[k]), Minusculas(q));
      var i :| AparecenEn(Minusculas(q), Minusculas(e.etiquetas[k]), i);
    }
  }

  lemma EtiquetaParecidaCaracterizacion(q: string)
    ensures forall e: Entrada :: TieneEtiquetaParecida(e, q) <==> Coincide(e, q)
  {
    forall e: Entrada ensures TieneEtiquetaParecida(e, q) <==> Coincide(e, q) {
      EtiquetaParecidaCoincide(e, q);
    }
  }

  /** Cutting one entry out of a list with distinct ids keeps them distinct,
      and no remaining entry has the removed id. */
  lemma {:induction false} Recortar(s: seq<Entrada>, i: nat)
    requires i < |s|
    requires forall a, b :: 0 <= a < b < |s| ==> s[a].id != s[b].id
    ensures var t := s[..i] + s[i + 1..];
      && |t| == |s| - 1
      && (forall a, b :: 0 <= a < b < |t| ==> t[a].id != t[b].id)
      && (forall e :: e in t ==> e in s && e.id != s[i].id)
  {
    var t := s[..i] + s[i + 1..];
    assert forall a :: 0 <= a < |t| ==> t[a] == s[if a < i then a else a + 1];
  }

  // ---------------------------------------------------------------------
  // The store
  // ---------------------------------------------------------------------

  class ContenidoDigitalService {
    var imagenes: seq<Entrada>
    var nextId: int

    /** Ids are pairwise distinct and all below the counter. */
    ghost predicate Valid()
      reads this
    {
      && (forall i, j :: 0 <= i < j < |imagenes| ==> imagenes[i].id != imagenes[j].id)
      && (forall e :: e in imagenes ==> e.id < nextId)
    }

    constructor ()
      ensures Valid() && imagenes == [] && nextId == 1
    {
      imagenes := [];
      nextId := 1;
    }

    /** `obtenerTodasLasImagenes`: the list itself, in insertion order. */
    function ObtenerTodasLasImagenes(): (r: seq<Entrada>)
      reads this
      ensures r == imagenes
    {
      imagenes
    }

    /** `obtenerImagenPorId`: the first entry with that id, if any. */
    function ObtenerImagenPorId(id: int): (r: Option<Entrada>)
      reads this
      ensures r.None? <==> forall e :: e in imagenes ==> e.id != id
      ensures r.Some? ==>
        exists k ::
          && 0 <= k < |imagenes| && imagenes[k] == r.value && r.value.id == id
          && forall m :: 0 <= m < k ==> imagenes[m].id != id
    {
      var k := FindIndex(imagenes, (e: Entrada) => e.id == id);
      if k.None? then None else Some(imagenes[k.value])
    }

    /** `obtenerImagenesPorProducto`: that product's entries, in list order. */
    function ObtenerImagenesPorProducto(productoId: int): (r: seq<Entrada>)
      reads this
      ensures forall e :: e in r <==> e in imagenes && e.productoId == productoId
      ensures forall e :: multiset(r)[e] == if e.productoId == productoId then multiset(imagenes)[e] else 0
      ensures Subsecuencia(r, imagenes)
    {
      var delProducto := (e: Entrada) => e.productoId == productoId;
      FilterSubsecuencia(imagenes, delProducto);
      FilterMultiplicidad(imagenes, delProducto);
      Filter(imagenes, delProducto)
    }

    /** `obtenerImagenesPorEtiqueta`: the entries with a tag that contains the
        query, both lower-cased, in list order. */
    function ObtenerImagenesPorEtiqueta(q: string): (r: seq<Entrada>)
      reads this
      ensures forall e :: e in r <==> e in imagenes && Coincide(e, q)
      ensures forall e :: multiset(r)[e] == if Coincide(e, q) then multiset(imagenes)[e] else 0
      ensures Subsecuencia(r, imagenes)
    {
      EtiquetaParecidaCaracterizacion(q);
      var parecida := (e: Entrada) => TieneEtiquetaParecida(e, q);
      FilterSubsecuencia(imagenes, parecida);
      FilterMultiplicidad(imagenes, parecida);
      Filter(imagenes, parecida)
    }

    /** `crearImagen`: the new entry takes the counter's value as id and `now`
        as its date, and goes at the end of the list. */
    method CrearImagen(data: Datos, now: int) returns (img: Entrada)
      requires Valid()
      modifies this
      ensures Valid()
      ensures img == Entrada(old(nextId), data.productoId, data.url, data.titulo, data.descripcion,
                             data.etiquetas, now, data.tipo, data.tamano)
      ensures imagenes == old(imagenes) + [img]
      ensures nextId == old(nextId) + 1
      ensures forall e :: e in old(imagenes) ==> e.id != img.id
    {
      img := Entrada(nextId, data.productoId, data.url, data.titulo, data.descripcion,
                     data.etiquetas, now, data.tipo, data.tamano);
      nextId := nextId + 1;
      imagenes := imagenes + [img];
    }

    /** `actualizarImagen`: an unknown id fails with no change; otherwise only
        that entry changes, in place, to the merge of it and the patch. */
    method ActualizarImagen(id: int, parche: Parche) returns (r: Resultado<Entrada>)
      requires Valid()
      modifies this`imagenes
      ensures Valid()
      ensures (forall e :: e in old(imagenes) ==> e.id != id) ==>
        r == Falla(MSG_NO_ENCONTRADA) && imagenes == old(imagenes)
      ensures (exists e :: e in old(imagenes) && e.id == id) ==>
        exists k ::
          && 0 <= k < |old(imagenes)| && old(imagenes)[k].id == id
          && imagenes == old(imagenes)[k := Fusion(old(imagenes)[k], parche)]
          && r == Ok(imagenes[k])
    {
      var k := FindIndex(imagenes, (e: Entrada) => e.id == id);
      if k.None? {
        r := Falla(MSG_NO_ENCONTRADA);
        return;
      }
      imagenes := imagenes[k.value := Fusion(imagenes[k.value], parche)];
      r := Ok(imagenes[k.value]);
    }

    /** `eliminarImagen`: an unknown id fails with no change; otherwise that one
        entry is cut out and the rest keep their order. */
    method EliminarImagen(id: int) returns (r: Resultado<()>)
      requires Valid()
      modifies this`imagenes
      ensures Valid()
      ensures (forall e :: e in old(imagenes) ==> e.id != id) ==>
        r == Falla(MSG_NO_ENCONTRADA) && imagenes == old(imagenes)
      ensures (exists e :: e in old(imagenes) && e.id == id) ==>
        && r == Ok(())
        && |imagenes| == |old(imagenes)| - 1
        && (forall e :: e in imagenes ==> e.id != id)
        && exists k ::
             && 0 <= k < |old(imagenes)| && old(imagenes)[k].id == id
             && imagenes == old(imagenes)[..k] + old(imagenes)[k + 1..]
    {
      var k := FindIndex(imagenes, (e: Entrada) => e.id == id);
      if k.None? {
        r := Falla(MSG_NO_ENCONTRADA);
        return;
      }
      var i, previas := k.value, imagenes;
      assert previas[i] in previas && previas[i].id == id;
      Recortar(previas, i);
      imagenes := previas[..i] + previas[i + 1..];
      r := Ok(());
    }

    /** `agregarEtiqueta`: the first entry with that id gains the tag when it
        lacks it; the entry is changed in place, so the list sees the change. */
    method AgregarEtiqueta(id: int, etiqueta: string) returns (r: Resultado<Entrada>)
      requires Valid()
      modifies this`imagenes
      ensures Valid()
      ensures (forall e :: e in old(imagenes) ==> e.id != id) ==>
        r == Falla(MSG_NO_ENCONTRADA) && imagenes == old(imagenes)
      ensures (exists e :: e in old(imagenes) && e.id == id) ==>
        exists k ::
          && 0 <= k < |old(imagenes)| && old(imagenes)[k].id == id
          && imagenes == old(imagenes)[k := ConEtiqueta(old(imagenes)[k], etiqueta)]
          && r == Ok(imagenes[k])
    {
      var k := FindIndex(imagenes, (e: Entrada) => e.id == id);
      if k.None? {
        r := Falla(MSG_NO_ENCONTRADA);
        return;
      }
      imagenes := imagenes[k.value := ConEtiqueta(imagenes[k.value], etiqueta)];
      r := Ok(imagenes[k.value]);
    }

    /** `eliminarEtiqueta`: the first entry with that id loses every copy of the
        tag; an unknown id fails with no change. */
    method EliminarEtiqueta(id: int, etiqueta: string) returns (r: Resultado<Entrada>)
      requires Valid()
      modifies this`imagenes
      ensures Valid()
      ensures (forall e :: e in old(imagenes) ==> e.id != id) ==>
        r == Falla(MSG_NO_ENCONTRADA) && imagenes == old(imagenes)
      ensures (exists e :: e in old(imagenes) && e.id == id) ==>
        exists k ::
          && 0 <= k < |old(imagenes)| && old(imagenes)[k].id == id
          && imagenes == old(imagenes)[k := SinEtiqueta(old(imagenes)[k], etiqueta)]
          && r == Ok(imagenes[k])
    {
      var k := FindIndex(imagenes, (e: Entrada) => e.id == id);
      if k.None? {
        r := Falla(MSG_NO_ENCONTRADA);
        return;
      }
      imagenes := imagenes[k.value := SinEtiqueta(imagenes[k.value], etiqueta)];
      r := Ok(imagenes[k.value]);
    }
  }

  /** The full listing and the lookup by id agree: every listed entry is what
      its id finds, and whatever an id finds is listed. */
  lemma ListadoYBusquedaConcuerdan(s: ContenidoDigitalService)
    requires s.Valid()
    ensures forall e :: e in s.ObtenerTodasLasImagenes() ==> s.ObtenerImagenPorId(e.id) == Some(e)
    ensures forall id :: s.ObtenerImagenPorId(id).Some? ==> s.ObtenerImagenPorId(id).value in s.ObtenerTodasLasImagenes()
  {
    forall e | e in s.ObtenerTodasLasImagenes() ensures s.ObtenerImagenPorId(e.id) == Some(e) {
      var i :| 0 <= i < |s.imagenes| && s.imagenes[i] == e;
      var k :| && 0 <= k < |s.imagenes| && s.imagenes[k] == s.ObtenerImagenPorId(e.id).value
               && s.ObtenerImagenPorId(e.id).value.id == e.id;
      assert k == i;
    }
  }

  /** Merging with a patch that carries an `id` of another entry, as the code
      is written, leaves two entries with the same id. */
  lemma FusionTalCualDuplicaIds()
    ensures
      var a := Entrada(1, 1, "a.jpg", "A", None, [], 0, Imagen, None);
      var b := Entrada(2, 1, "b.jpg", "B", None, [], 0, Imagen, None);
      var p := Parche(Some(2), None, None, None, None, None, None, None, None);
      var despues := [a, b][0 := FusionTalCual(a, p)];
      despues[0].id == despues[1].id
  {
  }

  /** With the corrected merge, updating an entry never disturbs distinct ids. */
  lemma FusionConservaIds(imagenes: seq<Entrada>, k: nat, p: Parche)
    requires k < |imagenes|
    requires forall i, j :: 0 <= i < j < |imagenes| ==> imagenes[i].id != imagenes[j].id
    ensures var despues := imagenes[k := Fusion(imagenes[k], p)];
      forall i, j :: 0 <= i < j < |despues| ==> despues[i].id != despues[j].id
  {
  }

  /** Lower-casing leaves a string without capitals as it is. */
  lemma MinusculasSinMayusculas(s: string)
    requires forall i :: 0 <= i < |s| ==> !('A' <= s[i] <= 'Z')
    ensures Minusculas(s) == s
  {
  }

  /** The two-entry search from the service's own test: searching "chocolate"
      among an entry tagged "chocolate" and one tagged "vainilla" finds only
      the first. */
  lemma BusquedaChocolate()
    ensures
      var uno := Entrada(1, 1, "img1.jpg", "Imagen 1", None, ["chocolate"], 0, Imagen, None);
      var dos := Entrada(2, 2, "img2.jpg", "Imagen 2", None, ["vainilla"], 0, Imagen, None);
      Filter([uno, dos], (e: Entrada) => TieneEtiquetaParecida(e, "chocolate")) == [uno]
  {
    var uno := Entrada(1, 1, "img1.jpg", "Imagen 1", None, ["chocolate"], 0, Imagen, None);
    var dos := Entrada(2, 2, "img2.jpg", "Imagen 2", None, ["vainilla"], 0, Imagen, None);
    MinusculasSinMayusculas("chocolate");
    MinusculasSinMayusculas("vainilla");
    assert Incluye("chocolate", "chocolate");
    assert !Incluye("vainilla", "chocolate");
    assert Incluye(Minusculas(uno.etiquetas[0]), Minusculas("chocolate"));
    assert TieneEtiquetaParecida(uno, "chocolate");
    assert !TieneEtiquetaParecida(dos, "chocolate");
  }
}
