/** Helpers shared by every service model: optional values, SQL-style row
    filtering, the string order used by `ORDER BY nombre`, and a stable
    insertion sort used for every ordered listing. */
module Common {

  /** A nullable value: `None` stands for SQL NULL, JS `null` or `undefined`. */
  datatype Option<T> = None | Some(value: T) {
    function GetOr(default: T): T {
      match this
      case Some(v) => v
      case None => default
    }
  }

  /** An operation's outcome: the value, or the error it throws. */
  datatype Resultado<T> = Ok(value: T) | Falla(message: string)

  /** JS truthiness of an optional string: `undefined`, `null` and `""` are falsy. */
  predicate Truthy(o: Option<string>) {
    o.Some? && o.value != ""
  }

  /** `x || null` on an optional string. */
  function OrNull(o: Option<string>): (r: Option<string>)
    ensures r.Some? <==> Truthy(o)
    ensures r.Some? ==> r == o
  {
    if Truthy(o) then o else None
  }

  // ---------------------------------------------------------------------
  // Filtering (SQL WHERE, JS Array.filter)
  // ---------------------------------------------------------------------

  /** The elements of `s` satisfying `p`, in the order of `s`. */
  function Filter<T(!new)>(s: seq<T>, p: T -> bool): (r: seq<T>)
    ensures |r| <= |s|
    ensures forall x :: x in r <==> x in s && p(x)
  {
    if s == [] then []
    else
      assert s == [s[0]] + s[1..];
      (if p(s[0]) then [s[0]] else []) + Filter(s[1..], p)
  }

  /** Filtering keeps every satisfying element exactly as often as it occurs,
      and no other element. */
  lemma {:induction false} FilterMultiplicidad<T(!new)>(s: seq<T>, p: T -> bool)
    ensures forall x :: multiset(Filter(s, p))[x] == if p(x) then multiset(s)[x] else 0
  {
    if s != [] {
      FilterMultiplicidad(s[1..], p);
      assert s == [s[0]] + s[1..];
    }
  }

  /** `m` embeds `r` in `s`: strictly increasing positions of `s` that hold
      the elements of `r`, in order. */
  ghost predicate Incrustacion<T>(m: seq<int>, r: seq<T>, s: seq<T>)
  {
    && |m| == |r|
    && (forall k :: 0 <= k < |m| ==> 0 <= m[k] < |s| && r[k] == s[m[k]])
    && (forall k, l :: 0 <= k < l < |m| ==> m[k] < m[l])
  }

  /** `r` is `s` with some elements left out and the rest in their order. */
  ghost predicate Subsecuencia<T>(r: seq<T>, s: seq<T>)
  {
    exists m :: Incrustacion(m, r, s)
  }

  /** Positions shifted by one embed `t` in `s` when they embedded it in the
      tail of `s`. */
  function Desplazada(m: seq<int>): (m1: seq<int>)
    ensures |m1| == |m|
    ensures forall k :: 0 <= k < |m| ==> m1[k] == m[k] + 1
  {
    seq(|m|, k requires 0 <= k < |m| => m[k] + 1)
  }

  lemma IncrustacionEnCola<T>(m: seq<int>, t: seq<T>, s: seq<T>)
    requires s != [] && Incrustacion(m, t, s[1..])
    ensures Incrustacion(Desplazada(m), t, s)
    ensures Incrustacion([0] + Desplazada(m), [s[0]] + t, s)
  {
    var m1 := Desplazada(m);
    forall k | 0 <= k < |m1| ensures 0 <= m1[k] < |s| && t[k] == s[m1[k]] {
      assert t[k] == s[1..][m[k]];
    }
    var m2 := [0] + m1;
    var r := [s[0]] + t;
    forall k | 0 <= k < |m2| ensures 0 <= m2[k] < |s| && r[k] == s[m2[k]] {
      if k > 0 {
        assert m2[k] == m1[k - 1] && r[k] == t[k - 1];
      }
    }
    forall k, l | 0 <= k < l < |m2| ensures m2[k] < m2[l] {
      if k > 0 {
        assert m2[k] == m1[k - 1] && m2[l] == m1[l - 1];
      }
    }
  }

  /** Filtering keeps the relative order of what it keeps. */
  lemma {:induction false} FilterSubsecuencia<T(!new)>(s: seq<T>, p: T -> bool)
    ensures Subsecuencia(Filter(s, p), s)
  {
    if s == [] {
      assert Incrustacion([], Filter(s, p), s);
    } else {
      var t := Filter(s[1..], p);
      FilterSubsecuencia(s[1..], p);
      var m :| Incrustacion(m, t, s[1..]);
      IncrustacionEnCola(m, t, s);
      if p(s[0]) {
        assert Filter(s, p) == [s[0]] + t;
        assert Incrustacion([0] + Desplazada(m), Filter(s, p), s);
      } else {
        assert Filter(s, p) == t;
        assert Incrustacion(Desplazada(m), Filter(s, p), s);
      }
    }
  }

  /** Filtering distributes over concatenation: it keeps the relative order. */
  lemma {:induction false} FilterAppend<T(!new)>(a: seq<T>, b: seq<T>, p: T -> bool)
    ensures Filter(a + b, p) == Filter(a, p) + Filter(b, p)
  {
    if a == [] {
      assert a + b == b;
    } else {
      assert (a + b)[1..] == a[1..] + b;
      FilterAppend(a[1..], b, p);
    }
  }

  /** Filtering twice by the same condition is filtering once. */
  lemma {:induction false} FilterIdempotent<T(!new)>(s: seq<T>, p: T -> bool)
    ensures Filter(Filter(s, p), p) == Filter(s, p)
  {
    if s != [] {
      var tail := Filter(s[1..], p);
      FilterIdempotent(s[1..], p);
      if p(s[0]) {
        var once := [s[0]] + tail;
        assert Filter(s, p) == once;
        assert once[0] == s[0] && once[1..] == tail;
        assert Filter(once, p) == [s[0]] + Filter(tail, p);
      } else {
        assert Filter(s, p) == tail;
      }
    }
  }

  /** Filtering keeps everything exactly when every element satisfies the condition. */
  lemma {:induction false} FilterAll<T(!new)>(s: seq<T>, p: T -> bool)
    requires forall x :: x in s ==> p(x)
    ensures Filter(s, p) == s
  {
    if s != [] {
      FilterAll(s[1..], p);
    }
  }

  /** A condition no element satisfies selects nothing. */
  lemma {:induction false} FilterNone<T(!new)>(s: seq<T>, p: T -> bool)
    requires forall x :: x in s ==> !p(x)
    ensures Filter(s, p) == []
  {
    if s != [] {
      FilterNone(s[1..], p);
    }
  }

  /** Filtering first by a wider condition does not change what a narrower
      one selects. */
  lemma {:induction false} FilterNested<T(!new)>(s: seq<T>, p: T -> bool, q: T -> bool)
    requires forall x :: q(x) ==> p(x)
    ensures Filter(Filter(s, p), q) == Filter(s, q)
  {
    if s != [] {
      FilterNested(s[1..], p, q);
      var cola := Filter(s[1..], p);
      if p(s[0]) {
        var t := [s[0]] + cola;
        assert Filter(s, p) == t;
        assert t[0] == s[0] && t[1..] == cola;
      } else {
        assert Filter(s, p) == cola;
        assert !q(s[0]);
      }
    }
  }

  /** Every element lands on exactly one side of a condition. */
  lemma {:induction false} FilterPartition<T(!new)>(s: seq<T>, p: T -> bool, q: T -> bool)
    requires forall x :: q(x) <==> !p(x)
    ensures |Filter(s, p)| + |Filter(s, q)| == |s|
  {
    if s != [] {
      FilterPartition(s[1..], p, q);
    }
  }

  ghost predicate SinRepetidos<T>(s: seq<T>)
  {
    forall i, j :: 0 <= i < j < |s| ==> s[i] != s[j]
  }

  lemma SinRepetidosCola<T>(s: seq<T>)
    requires s != [] && SinRepetidos(s)
    ensures SinRepetidos(s[1..]) && s[0] !in s[1..]
  {
    var resto := s[1..];
    forall i, j | 0 <= i < j < |resto| ensures resto[i] != resto[j] {
      assert resto[i] == s[i + 1] && resto[j] == s[j + 1];
    }
    forall k | 0 <= k < |resto| ensures resto[k] != s[0] {
      assert resto[k] == s[k + 1];
    }
  }

  lemma ConjuntoFiltrado<T(!new)>(s: seq<T>, p: T -> bool)
    requires s != []
    ensures MiembrosQue(s, p) == (if p(s[0]) then {s[0]} else {}) + MiembrosQue(s[1..], p)
  {
    assert s == [s[0]] + s[1..];
  }

  /** The members of `s` satisfying `p`, as a set. */
  function MiembrosQue<T(!new)>(s: seq<T>, p: T -> bool): (r: set<T>)
    ensures forall x :: x in r <==> x in s && p(x)
  {
    set x | x in s && p(x)
  }

  /** On a sequence without repeats, filtering keeps as many elements as the
      set of satisfying members has. */
  lemma {:induction false} FilterCardinal<T(!new)>(s: seq<T>, p: T -> bool)
    requires SinRepetidos(s)
    ensures |Filter(s, p)| == |MiembrosQue(s, p)|
  {
    if s != [] {
      SinRepetidosCola(s);
      FilterCardinal(s[1..], p);
      ConjuntoFiltrado(s, p);
      assert s[0] !in MiembrosQue(s[1..], p);
    }
  }

  // ---------------------------------------------------------------------
  // Keyed tables (SQL UPDATE ... WHERE, primary keys)
  // ---------------------------------------------------------------------

  /** Every element satisfying `p` replaced by its image under `f`, the others
      kept, positions unchanged: an `UPDATE ... WHERE p`. */
  function Reemplazar<T>(s: seq<T>, p: T -> bool, f: T -> T): (r: seq<T>)
    ensures |r| == |s|
    ensures forall i :: 0 <= i < |s| ==> r[i] == (if p(s[i]) then f(s[i]) else s[i])
  {
    seq(|s|, i requires 0 <= i < |s| => if p(s[i]) then f(s[i]) else s[i])
  }

  /** A primary key: rows that agree on `clave` are the same row, and every
      key is below the AUTO_INCREMENT counter `tope`. */
  ghost predicate ClavesValidas<T(!new)>(s: seq<T>, clave: T -> int, tope: int)
  {
    && (forall a, b :: a in s && b in s && clave(a) == clave(b) ==> a == b)
    && (forall a :: a in s ==> clave(a) < tope)
  }

  /** An update that never rewrites the key keeps the key valid. */
  lemma ReemplazarConservaClaves<T(!new)>(s: seq<T>, p: T -> bool, f: T -> T, clave: T -> int, tope: int)
    requires ClavesValidas(s, clave, tope)
    requires forall x :: clave(f(x)) == clave(x)
    ensures ClavesValidas(Reemplazar(s, p, f), clave, tope)
  {
    var r := Reemplazar(s, p, f);
    forall a, b | a in r && b in r && clave(a) == clave(b) ensures a == b {
      var i :| 0 <= i < |r| && r[i] == a;
      var j :| 0 <= j < |r| && r[j] == b;
      assert s[i] in s && s[j] in s;
    }
    forall a | a in r ensures clave(a) < tope {
      var i :| 0 <= i < |r| && r[i] == a;
      assert s[i] in s;
    }
  }

  /** Appending a row keyed by the counter, and advancing the counter, keeps
      the key valid. */
  lemma AgregarConservaClaves<T(!new)>(s: seq<T>, x: T, clave: T -> int, tope: int)
    requires ClavesValidas(s, clave, tope)
    requires clave(x) == tope
    ensures ClavesValidas(s + [x], clave, tope + 1)
  {
  }

  /** Deleting rows keeps the key valid. */
  lemma FiltrarConservaClaves<T(!new)>(s: seq<T>, p: T -> bool, clave: T -> int, tope: int)
    requires ClavesValidas(s, clave, tope)
    ensures ClavesValidas(Filter(s, p), clave, tope)
  {
  }

  /** When `p` matches one row at most and an update keeps it matching, the
      row an `UPDATE ... WHERE p` wrote is what a later `SELECT ... WHERE p`
      reads back. */
  lemma ReemplazarLee<T(!new)>(s: seq<T>, p: T -> bool, f: T -> T, fila: T)
    requires forall a, b :: a in s && b in s && p(a) && p(b) ==> a == b
    requires fila in s && p(fila)
    requires forall x :: p(x) ==> p(f(x))
    ensures Find(Reemplazar(s, p, f), p) == Some(f(fila))
  {
    var a := Reemplazar(s, p, f);
    var i :| 0 <= i < |s| && s[i] == fila;
    assert a[i] == f(fila) && a[i] in a;
    var g := Find(a, p);
    var j :| 0 <= j < |a| && a[j] == g.value;
    assert s[j] in s;
  }

  /** Index of the first element satisfying `p`, if any (JS `findIndex`). */
  function FindIndex<T(!new)>(s: seq<T>, p: T -> bool): (r: Option<nat>)
    ensures r.None? <==> forall x :: x in s ==> !p(x)
    ensures r.Some? ==> r.value < |s| && p(s[r.value])
    ensures r.Some? ==> forall k :: 0 <= k < r.value ==> !p(s[k])
  {
    if s == [] then None
    else if p(s[0]) then Some(0)
    else
      var t := FindIndex(s[1..], p);
      if t.None? then None else Some(t.value + 1)
  }

  /** Two sequences that agree, position by position, on whether `p` holds
      have their first match at the same place. */
  lemma {:induction false} FindIndexCongruente<T(!new)>(s: seq<T>, t: seq<T>, p: T -> bool)
    requires |s| == |t|
    requires forall i :: 0 <= i < |s| ==> p(s[i]) == p(t[i])
    ensures FindIndex(s, p) == FindIndex(t, p)
  {
    if s != [] && !p(s[0]) {
      FindIndexCongruente(s[1..], t[1..], p);
    }
  }

  /** The first element satisfying `p`, if any (JS `find`, SQL `LIMIT 1`). */
  function Find<T(!new)>(s: seq<T>, p: T -> bool): (r: Option<T>)
    ensures r.None? <==> forall x :: x in s ==> !p(x)
    ensures r.Some? ==> r.value in s && p(r.value)
  {
    var i := FindIndex(s, p);
    if i.None? then None else Some(s[i.value])
  }

  // ---------------------------------------------------------------------
  // Ordering
  // ---------------------------------------------------------------------

  /** Lexicographic order on strings, character by character, a prefix first. */
  predicate StrLe(a: string, b: string)
  {
    if a == [] then true
    else if b == [] then false
    else if a[0] != b[0] then a[0] < b[0]
    else StrLe(a[1..], b[1..])
  }

  lemma {:induction false} StrLeTotal(a: string, b: string)
    ensures StrLe(a, b) || StrLe(b, a)
  {
    if a != [] && b != [] && a[0] == b[0] {
      StrLeTotal(a[1..], b[1..]);
    }
  }

  lemma {:induction false} StrLeTrans(a: string, b: string, c: string)
    requires StrLe(a, b) && StrLe(b, c)
    ensures StrLe(a, c)
  {
    if a != [] && b != [] && c != [] && a[0] == b[0] && b[0] == c[0] {
      StrLeTrans(a[1..], b[1..], c[1..]);
    }
  }

  /** `le` is total and transitive: a total preorder, the shape of an SQL ORDER BY. */
  ghost predicate TotalPreorder<T(!new)>(le: (T, T) -> bool)
  {
    && (forall a, b :: le(a, b) || le(b, a))
    && (forall a, b, c :: le(a, b) && le(b, c) ==> le(a, c))
  }

  ghost predicate SortedBy<T>(s: seq<T>, le: (T, T) -> bool)
  {
    forall i, j :: 0 <= i < j < |s| ==> le(s[i], s[j])
  }

  /** Insert `x` in front of the first element it is not after. */
  function InsertBy<T>(x: T, s: seq<T>, le: (T, T) -> bool): seq<T>
  {
    if s == [] || le(x, s[0]) then [x] + s
    else [s[0]] + InsertBy(x, s[1..], le)
  }

  lemma {:induction false} InsertByCorrect<T(!new)>(x: T, s: seq<T>, le: (T, T) -> bool)
    requires TotalPreorder(le)
    requires SortedBy(s, le)
    ensures multiset(InsertBy(x, s, le)) == multiset(s) + multiset{x}
    ensures SortedBy(InsertBy(x, s, le), le)
  {
    if s == [] || le(x, s[0]) {
      assert s == [] || forall j :: 0 <= j < |s| ==> le(x, s[j]) by {
        if s != [] {
          forall j | 0 < j < |s| ensures le(x, s[j]) {
            assert le(s[0], s[j]);
          }
        }
      }
    } else {
      var t := s[1..];
      assert s == [s[0]] + t;
      InsertByCorrect(x, t, le);
      var r := InsertBy(x, t, le);
      assert le(s[0], x);
      forall j | 0 <= j < |r| ensures le(s[0], r[j]) {
        assert r[j] in multiset(r);
        if r[j] != x {
          assert r[j] in multiset(t);
          var k :| 0 <= k < |t| && t[k] == r[j];
          assert s[k + 1] == t[k];
        }
      }
    }
  }

  /** Stable insertion sort: the result is a permutation of `s` ordered by `le`. */
  function SortBy<T(!new)>(s: seq<T>, le: (T, T) -> bool): (r: seq<T>)
    requires TotalPreorder(le)
    ensures multiset(r) == multiset(s)
    ensures |r| == |s|
    ensures SortedBy(r, le)
  {
    if s == [] then []
    else
      var rest := SortBy(s[1..], le);
      InsertByCorrect(s[0], rest, le);
      assert s == [s[0]] + s[1..];
      InsertBy(s[0], rest, le)
  }

  /** The same elements in an order satisfying `le`. */
  lemma SortByMembers<T(!new)>(s: seq<T>, le: (T, T) -> bool, x: T)
    requires TotalPreorder(le)
    ensures x in SortBy(s, le) <==> x in s
  {
    var r := SortBy(s, le);
    assert x in r <==> x in multiset(r);
    assert x in s <==> x in multiset(s);
  }

  /** `ORDER BY` on a text column `col`: character order on that column. */
  function PorColumna<T>(col: T -> string): (T, T) -> bool
  {
    (a: T, b: T) => StrLe(col(a), col(b))
  }

  lemma PorColumnaEsPreorden<T(!new)>(col: T -> string)
    ensures TotalPreorder(PorColumna(col))
  {
    var le := PorColumna(col);
    forall a: T, b: T ensures le(a, b) || le(b, a) {
      StrLeTotal(col(a), col(b));
    }
    forall a: T, b: T, c: T | le(a, b) && le(b, c) ensures le(a, c) {
      StrLeTrans(col(a), col(b), col(c));
    }
  }

  /** A selection listed `ORDER BY col ASC`: the same rows, each as often, in
      ascending order of the column (rows with equal values in either order). */
  function ListadoPor<T(!new)>(s: seq<T>, col: T -> string): (r: seq<T>)
    ensures multiset(r) == multiset(s)
    ensures forall x :: x in r <==> x in s
    ensures forall i, j :: 0 <= i < j < |r| ==> StrLe(col(r[i]), col(r[j]))
  {
    PorColumnaEsPreorden(col);
    var r := SortBy(s, PorColumna(col));
    assert forall x :: x in r <==> x in multiset(r);
    assert forall i, j :: 0 <= i < j < |r| ==> PorColumna(col)(r[i], r[j]);
    r
  }

  // ---------------------------------------------------------------------
  // Decimal rendering (template literals such as `Eliminados ${n} archivos`)
  // ---------------------------------------------------------------------

  function DigitChar(d: nat): char
    requires d < 10
  {
    "0123456789"[d]
  }

  /** Decimal digits of `n`, no leading zero. */
  function NatToString(n: nat): (r: string)
    ensures |r| >= 1
    ensures forall i :: 0 <= i < |r| ==> '0' <= r[i] <= '9'
    ensures |r| > 1 ==> r[0] != '0'
  {
    if n < 10 then [DigitChar(n)]
    else NatToString(n / 10) + [DigitChar(n % 10)]
  }
}
