/**
 * The client-side table joins the hooks build out of flat rows: a JavaScript
 * `Map` (insertion-ordered, `set` on a present key keeps its place), the
 * first-wins de-duplication through such a map, the `findIndex` de-duplication,
 * the last-write-wins lookup object (`obj[k] = v` in a `forEach`) and the
 * group-by that pushes into `obj[k] || []`.
 */
module TableOps {
  import opened Wrappers
  import opened Seqs

  /** The keys that occur in `rows`. */
  function Ids<T, K>(rows: seq<T>, id: T -> K): (ks: set<K>)
    ensures forall i :: 0 <= i < |rows| ==> id(rows[i]) in ks
  {
    set i | 0 <= i < |rows| :: id(rows[i])
  }

  lemma IdsAppend<T, K>(rows: seq<T>, x: T, id: T -> K)
    ensures Ids(rows + [x], id) == Ids(rows, id) + {id(x)}
  {
    var l := rows + [x];
    forall k | k in Ids(l, id) ensures k in Ids(rows, id) + {id(x)} {
      var i :| 0 <= i < |l| && id(l[i]) == k;
      if i < |rows| { assert l[i] == rows[i]; }
    }
    forall k | k in Ids(rows, id) ensures k in Ids(l, id) {
      var i :| 0 <= i < |rows| && id(rows[i]) == k;
      assert l[i] == rows[i];
    }
    assert l[|rows|] == x;
  }

  /** There are no more distinct keys than rows. */
  lemma {:induction false} IdsSize<T, K>(rows: seq<T>, id: T -> K)
    ensures |Ids(rows, id)| <= |rows|
  {
    if rows != [] {
      var init := rows[..|rows| - 1];
      IdsSize(init, id);
      assert rows == init + [rows[|rows| - 1]];
      IdsAppend(init, rows[|rows| - 1], id);
    } else {
      assert Ids(rows, id) == {};
    }
  }

  /**
   * `new Set(rows.filter(p).map(f)).size` grows by one exactly when a row that
   * passes brings a value not seen among the earlier rows that pass.
   */
  lemma DistinctCountSnoc<T, K>(rows: seq<T>, x: T, p: T -> bool, f: T -> K)
    ensures |Ids(Filter(rows + [x], p), f)| ==
      |Ids(Filter(rows, p), f)| + (if p(x) && f(x) !in Ids(Filter(rows, p), f) then 1 else 0)
  {
    FilterSnoc(rows, x, p);
    if p(x) {
      var kept := Filter(rows, p);
      assert Filter(rows + [x], p) == kept + [x];
      IdsAppend(kept, x, f);
      CardAdd(Ids(kept, f), f(x));
    } else {
      assert Filter(rows + [x], p) == Filter(rows, p);
    }
  }

  /** Adding an element to a set grows it by one exactly when it is new. */
  lemma CardAdd<K>(a: set<K>, v: K)
    ensures |a + {v}| == if v in a then |a| else |a| + 1
  {
    if v in a {
      assert a + {v} == a;
    }
  }


  /** A row that passes has its value among the distinct values. */
  lemma DistinctCountHas<T, K>(rows: seq<T>, x: T, p: T -> bool, f: T -> K)
    requires x in rows && p(x)
    ensures f(x) in Ids(Filter(rows, p), f)
  {
    var kept := Filter(rows, p);
    var j :| 0 <= j < |rows| && rows[j] == x;
    var i :| 0 <= i < |kept| && kept[i] == x;
  }

  /** `rows[i]` is the first row carrying its key. */
  predicate IsFirstAt<T, K(==)>(rows: seq<T>, id: T -> K, i: int)
    requires 0 <= i < |rows|
  {
    forall j :: 0 <= j < i ==> id(rows[j]) != id(rows[i])
  }

  // ---------------------------------------------------------------------
  // A JavaScript Map
  // ---------------------------------------------------------------------

  /** A JavaScript `Map`: its keys in insertion order, and the current entries. */
  datatype JsMap<K, V> = JsMap(keys: seq<K>, entries: map<K, V>)
  {
    ghost predicate Valid() {
      (forall a, b :: 0 <= a < b < |keys| ==> keys[a] != keys[b])
      && entries.Keys == (set x | x in keys)
    }

    /** `map.has(k)`. */
    predicate Has(k: K) {
      k in entries
    }

    /** `map.set(k, v)`: a new key goes last, a present key keeps its position. */
    function Set(k: K, v: V): (m: JsMap<K, V>)
      requires Valid()
      ensures m.Valid()
      ensures m.entries == entries[k := v]
      ensures k in entries ==> m.keys == keys
      ensures k !in entries ==> m.keys == keys + [k]
    {
      if k in entries then JsMap(keys, entries[k := v]) else JsMap(keys + [k], entries[k := v])
    }

    /** `Array.from(map.values())`. */
    function Values(): (vs: seq<V>)
      requires Valid()
      ensures |vs| == |keys|
      ensures forall i :: 0 <= i < |keys| ==> vs[i] == entries[keys[i]]
    {
      seq(|keys|, i requires 0 <= i < |keys| => entries[keys[i]])
    }
  }

  function EmptyMap<K, V>(): (m: JsMap<K, V>)
    ensures m.Valid() && m.Values() == []
  {
    JsMap([], map[])
  }

  // ---------------------------------------------------------------------
  // First-wins de-duplication
  // ---------------------------------------------------------------------

  /**
   * The rows that are the first with their key, in row order: what
   * `forEach(r => { if (!m.has(r.id)) m.set(r.id, r) })` followed by
   * `Array.from(m.values())` yields.
   */
  function FirstOccurrences<T, K(==)>(rows: seq<T>, id: T -> K): (r: seq<T>)
    ensures |r| <= |rows|
  {
    if rows == [] then []
    else
      var init := rows[..|rows| - 1];
      if id(rows[|rows| - 1]) in Ids(init, id) then FirstOccurrences(init, id)
      else FirstOccurrences(init, id) + [rows[|rows| - 1]]
  }

  /** The keys kept are exactly the keys of the input. */
  lemma {:induction false} FirstOccurrencesIds<T, K>(rows: seq<T>, id: T -> K)
    ensures Ids(FirstOccurrences(rows, id), id) == Ids(rows, id)
  {
    if rows != [] {
      var init := rows[..|rows| - 1];
      var last := rows[|rows| - 1];
      FirstOccurrencesIds(init, id);
      assert rows == init + [last];
      IdsAppend(init, last, id);
      if id(last) !in Ids(init, id) {
        IdsAppend(FirstOccurrences(init, id), last, id);
      }
    }
  }

  /** There are as many de-duplicated rows as distinct keys. */
  lemma FirstOccurrencesCount<T, K>(rows: seq<T>, id: T -> K)
    ensures |FirstOccurrences(rows, id)| == |Ids(rows, id)|
  {
    FirstOccurrencesIds(rows, id);
    FirstOccurrencesDistinct(rows, id);
    DistinctIdsCount(FirstOccurrences(rows, id), id);
  }

  /** Rows with pairwise distinct keys have as many keys as rows. */
  lemma {:induction false} DistinctIdsCount<T, K>(rows: seq<T>, id: T -> K)
    requires DistinctIds(rows, id)
    ensures |Ids(rows, id)| == |rows|
  {
    if rows == [] {
      assert Ids(rows, id) == {};
    } else {
      var init := rows[..|rows| - 1];
      var last := rows[|rows| - 1];
      DistinctIdsCount(init, id);
      assert rows == init + [last];
      IdsAppend(init, last, id);
      var a := Ids(init, id);
      assert id(last) !in a by {
        forall j | 0 <= j < |init| ensures id(init[j]) != id(last) {
          assert rows[j] == init[j];
        }
      }
      assert |a + {id(last)}| == |a| + 1;
    }
  }

  /** The de-duplicated rows have pairwise distinct keys. */
  lemma {:induction false} FirstOccurrencesDistinct<T, K>(rows: seq<T>, id: T -> K)
    ensures DistinctIds(FirstOccurrences(rows, id), id)
  {
    if rows != [] {
      var init := rows[..|rows| - 1];
      var last := rows[|rows| - 1];
      FirstOccurrencesDistinct(init, id);
      FirstOccurrencesIds(init, id);
      if id(last) !in Ids(init, id) {
        var p := FirstOccurrences(init, id);
        var r := p + [last];
        forall a, b | 0 <= a < b < |r| ensures id(r[a]) != id(r[b]) {
          if b == |p| {
            assert id(p[a]) in Ids(p, id);
          } else {
            assert r[a] == p[a] && r[b] == p[b];
          }
        }
      }
    }
  }

  /** The de-duplicated rows are input rows, in input order. */
  lemma {:induction false} FirstOccurrencesSubsequence<T, K>(rows: seq<T>, id: T -> K)
    ensures IsSubsequence(FirstOccurrences(rows, id), rows)
  {
    if rows != [] {
      var init := rows[..|rows| - 1];
      var p := FirstOccurrences(init, id);
      FirstOccurrencesSubsequence(init, id);
      if id(rows[|rows| - 1]) !in Ids(init, id) {
        var r := p + [rows[|rows| - 1]];
        assert r[..|r| - 1] == p;
      } else if p != [] {
        assert IsSubsequence(p, init);
      }
    }
  }

  /** The `k`-th kept row is an input row carrying its key for the first time. */
  ghost predicate KeptAtFirst<T, K>(rows: seq<T>, id: T -> K, k: nat)
    requires k < |FirstOccurrences(rows, id)|
  {
    exists i :: 0 <= i < |rows| && rows[i] == FirstOccurrences(rows, id)[k] && IsFirstAt(rows, id, i)
  }

  /** Every kept row is the first input row with its key (first occurrence wins). */
  lemma FirstOccurrencesAreFirst<T, K>(rows: seq<T>, id: T -> K)
    ensures forall k :: 0 <= k < |FirstOccurrences(rows, id)| ==> KeptAtFirst(rows, id, k)
  {
    forall k | 0 <= k < |FirstOccurrences(rows, id)| ensures KeptAtFirst(rows, id, k) {
      var i := FirstOccurrenceAt(rows, id, k);
    }
  }

  /** The input index of the `k`-th kept row, where its key first appears. */
  lemma {:induction false} FirstOccurrenceAt<T, K>(rows: seq<T>, id: T -> K, k: nat) returns (i: nat)
    requires k < |FirstOccurrences(rows, id)|
    ensures i < |rows| && rows[i] == FirstOccurrences(rows, id)[k] && IsFirstAt(rows, id, i)
  {
    var n := |rows|;
    var init := rows[..n - 1];
    var p := FirstOccurrences(init, id);
    var r := FirstOccurrences(rows, id);
    if k < |p| {
      assert r[k] == p[k];
      i := FirstOccurrenceAt(init, id, k);
      assert rows[i] == init[i];
      forall j | 0 <= j < i ensures id(rows[j]) != id(rows[i]) {
        assert rows[j] == init[j];
      }
    } else {
      assert r == p + [rows[n - 1]];
      i := n - 1;
      forall j | 0 <= j < n - 1 ensures id(rows[j]) != id(rows[n - 1]) {
        assert rows[j] == init[j];
        assert id(init[j]) in Ids(init, id);
      }
    }
  }

  /** Values of a map that saw a new key last: the old values, then the new one. */
  lemma ValuesSetNew<K, V>(m: JsMap<K, V>, k: K, v: V)
    requires m.Valid() && !m.Has(k)
    ensures m.Set(k, v).Values() == m.Values() + [v]
  {
    var m' := m.Set(k, v);
    assert m'.keys == m.keys + [k];
    forall i | 0 <= i < |m.keys| ensures m'.Values()[i] == m.Values()[i] {
      assert m'.keys[i] == m.keys[i];
      assert m.keys[i] != k;
    }
  }

  /**
   * `rows.forEach(r => { if (!m.has(id(r))) m.set(id(r), r) })` on a fresh Map,
   * then `Array.from(m.values())`.
   */
  method UniqueById<T, K(==)>(rows: seq<T>, id: T -> K) returns (unique: seq<T>)
    ensures unique == FirstOccurrences(rows, id)
  {
    var m: JsMap<K, T> := EmptyMap();
    var i := 0;
    while i < |rows|
      invariant 0 <= i <= |rows|
      invariant m.Valid()
      invariant m.Values() == FirstOccurrences(rows[..i], id)
      invariant forall k :: m.Has(k) <==> k in Ids(rows[..i], id)
    {
      var r := rows[i];
      assert rows[..i + 1][..i] == rows[..i];
      assert rows[..i + 1] == rows[..i] + [r];
      IdsAppend(rows[..i], r, id);
      if !m.Has(id(r)) {
        ValuesSetNew(m, id(r), r);
        m := m.Set(id(r), r);
      }
      i := i + 1;
    }
    assert rows[..i] == rows;
    unique := m.Values();
  }

  /**
   * `rows.forEach(r => m.set(key(r), val(r)))` on a fresh Map: every key once,
   * in first-occurrence order, each holding the value of its last row.
   */
  function SetEach<T, K(==), V>(rows: seq<T>, key: T -> K, val: T -> V): (m: JsMap<K, V>)
    ensures m.Valid()
    ensures m.entries == LastWins(rows, key, val)
    ensures m.keys == Map(FirstOccurrences(rows, key), key)
  {
    if rows == [] then EmptyMap()
    else
      var init := rows[..|rows| - 1];
      var last := rows[|rows| - 1];
      assert Map(FirstOccurrences(init, key) + [last], key) == Map(FirstOccurrences(init, key), key) + [key(last)];
      SetEach(init, key, val).Set(key(last), val(last))
  }

  /** Setting one more row is `Set` on the map of the rows before it. */
  lemma SetEachSnoc<T, K, V>(rows: seq<T>, i: nat, key: T -> K, val: T -> V)
    requires i < |rows|
    ensures SetEach(rows[..i + 1], key, val) == SetEach(rows[..i], key, val).Set(key(rows[i]), val(rows[i]))
  {
    assert rows[..i + 1][..i] == rows[..i];
  }

  /** The `forEach` that sets every row into a fresh Map. */
  method FillMap<T, K(==), V>(rows: seq<T>, key: T -> K, val: T -> V) returns (m: JsMap<K, V>)
    ensures m == SetEach(rows, key, val)
  {
    m := EmptyMap();
    var i := 0;
    while i < |rows|
      invariant 0 <= i <= |rows|
      invariant m == SetEach(rows[..i], key, val)
    {
      SetEachSnoc(rows, i, key, val);
      m := m.Set(key(rows[i]), val(rows[i]));
      i := i + 1;
    }
    assert rows[..i] == rows;
  }

  /** The `i`-th value of `SetEach` is the value of some row with the `i`-th key. */
  lemma SetEachValueAt<T, K, V>(rows: seq<T>, key: T -> K, val: T -> V, i: nat)
    requires i < |SetEach(rows, key, val).keys|
    ensures var m := SetEach(rows, key, val);
      exists r :: r in rows && key(r) == m.keys[i] && m.Values()[i] == val(r)
  {
    var m := SetEach(rows, key, val);
    assert m.keys[i] in m.entries;
    LastWinsFrom(rows, key, val, m.keys[i]);
    var j :| 0 <= j < |rows| && key(rows[j]) == m.keys[i] && m.entries[m.keys[i]] == val(rows[j]);
    assert rows[j] in rows;
  }

  /** A row whose value is the `i`-th value of `SetEach`. */
  lemma ValueRow<T, K, V>(rows: seq<T>, key: T -> K, val: T -> V, i: nat) returns (r: T)
    requires i < |SetEach(rows, key, val).Values()|
    ensures r in rows && SetEach(rows, key, val).Values()[i] == val(r)
  {
    SetEachValueAt(rows, key, val, i);
    r :| r in rows && key(r) == SetEach(rows, key, val).keys[i] && SetEach(rows, key, val).Values()[i] == val(r);
  }

  /** Over the rows a filter keeps, that row is one of the input's that the filter accepts. */
  lemma FilteredValueRow<T, K, V>(rows: seq<T>, p: T -> bool, key: T -> K, val: T -> V, i: nat) returns (r: T)
    requires i < |SetEach(Filter(rows, p), key, val).Values()|
    ensures r in rows && p(r) && SetEach(Filter(rows, p), key, val).Values()[i] == val(r)
  {
    var kept := Filter(rows, p);
    r := ValueRow(kept, key, val, i);
    var k :| 0 <= k < |kept| && kept[k] == r;
  }

  /** Every row's key is a key of `SetEach`. */
  lemma SetEachCovers<T, K, V>(rows: seq<T>, key: T -> K, val: T -> V)
    ensures forall r :: r in rows ==> key(r) in SetEach(rows, key, val).keys
  {
    var m := SetEach(rows, key, val);
    forall r | r in rows ensures key(r) in m.keys {
      var j :| 0 <= j < |rows| && rows[j] == r;
      assert key(rows[j]) in m.entries;
    }
  }

  /** The identity, as the key of a `Set` of plain values. */
  function Same<K>(k: K): K { k }

  /**
   * `Array.from(new Set(rows.filter(p).map(f)))`: distinct values, exactly the
   * projections of the selected rows.
   */
  lemma DistinctProjection<T, K>(rows: seq<T>, p: T -> bool, f: T -> K)
    ensures DistinctIds(FirstOccurrences(Map(Filter(rows, p), f), Same), Same)
    ensures forall v :: v in FirstOccurrences(Map(Filter(rows, p), f), Same) ==> exists r :: r in rows && p(r) && f(r) == v
    ensures forall r :: r in rows && p(r) ==> f(r) in FirstOccurrences(Map(Filter(rows, p), f), Same)
  {
    var vs := Map(Filter(rows, p), f);
    FirstOccurrencesDistinct(vs, Same);
    FirstOccurrencesIds(vs, Same);
    forall v | v in FirstOccurrences(vs, Same) ensures exists r :: r in rows && p(r) && f(r) == v {
      ProjectionFrom(rows, p, f, v);
    }
    forall r | r in rows && p(r) ensures f(r) in FirstOccurrences(vs, Same) {
      ProjectionTo(rows, p, f, r);
    }
  }

  /** The test every row passes. */
  function Always<T>(x: T): bool { true }

  /** `Array.from(new Set(rows.map(f)))`: distinct values, exactly the projections of the rows. */
  lemma DistinctValues<T, K>(rows: seq<T>, f: T -> K)
    ensures DistinctIds(FirstOccurrences(Map(rows, f), Same), Same)
    ensures forall v :: v in FirstOccurrences(Map(rows, f), Same) <==> exists r :: r in rows && f(r) == v
  {
    FilterAll(rows, Always);
    DistinctProjection(rows, Always, f);
  }

  lemma ProjectionFrom<T, K>(rows: seq<T>, p: T -> bool, f: T -> K, v: K)
    requires v in FirstOccurrences(Map(Filter(rows, p), f), Same)
    ensures exists r :: r in rows && p(r) && f(r) == v
  {
    var vs := Map(Filter(rows, p), f);
    var u := FirstOccurrences(vs, Same);
    FirstOccurrencesIds(vs, Same);
    var k :| 0 <= k < |u| && u[k] == v;
    assert Same(u[k]) in Ids(u, Same);
    var i :| 0 <= i < |vs| && Same(vs[i]) == v;
    assert Filter(rows, p)[i] in rows;
  }

  lemma ProjectionTo<T, K>(rows: seq<T>, p: T -> bool, f: T -> K, r: T)
    requires r in rows && p(r)
    ensures f(r) in FirstOccurrences(Map(Filter(rows, p), f), Same)
  {
    var vs := Map(Filter(rows, p), f);
    var u := FirstOccurrences(vs, Same);
    FirstOccurrencesIds(vs, Same);
    var j :| 0 <= j < |rows| && rows[j] == r;
    var kept := Filter(rows, p);
    var i :| 0 <= i < |kept| && kept[i] == r;
    assert Same(vs[i]) in Ids(vs, Same);
    var k :| 0 <= k < |u| && Same(u[k]) == f(r);
  }

  /** `find` returns the first element that passes. */
  lemma FindFirst<T>(s: seq<T>, p: T -> bool, i: nat)
    requires i < |s| && p(s[i])
    requires forall j :: 0 <= j < i ==> !p(s[j])
    ensures Find(s, p) == Some(s[i])
  {
  }

  /** A `for (const r of rows.filter(p))` loop that acts on `f(r)` for each selected row, in order. */
  method SelectEach<T, U>(rows: seq<T>, p: T -> bool, f: T -> U) returns (done: seq<U>)
    ensures done == Map(Filter(rows, p), f)
  {
    done := [];
    var i := 0;
    while i < |rows|
      invariant 0 <= i <= |rows|
      invariant done == Map(Filter(rows[..i], p), f)
    {
      assert rows[..i + 1] == rows[..i] + [rows[i]];
      FilterSnoc(rows[..i], rows[i], p);
      if p(rows[i]) {
        MapSnoc(Filter(rows[..i], p), rows[i], f);
        done := done + [f(rows[i])];
      }
      i := i + 1;
    }
    assert rows[..i] == rows;
  }

  /** `s.find(p)`: the first element satisfying `p`, or `None` (`undefined`). */
  function Find<T>(s: seq<T>, p: T -> bool): (r: Option<T>)
    ensures r.None? <==> forall i :: 0 <= i < |s| ==> !p(s[i])
    ensures r.Some? ==> exists i :: 0 <= i < |s| && s[i] == r.value && p(s[i]) && forall j :: 0 <= j < i ==> !p(s[j])
  {
    var i := FindIndex(s, p);
    if i < 0 then None else Some(s[i])
  }

  // ---------------------------------------------------------------------
  // The `findIndex` de-duplication
  // ---------------------------------------------------------------------

  /** `y => id(y) === id(x)`. */
  function SameKey<T, K(==)>(id: T -> K, x: T): T -> bool { y => id(y) == id(x) }

  /** `s.findIndex(p)`: the first index satisfying `p`, or -1. */
  function FindIndex<T>(s: seq<T>, p: T -> bool): (r: int)
    ensures -1 <= r < |s|
    ensures r == -1 <==> forall i :: 0 <= i < |s| ==> !p(s[i])
    ensures r >= 0 ==> p(s[r]) && forall j :: 0 <= j < r ==> !p(s[j])
  {
    if s == [] then -1
    else if p(s[0]) then 0
    else
      var j := FindIndex(s[1..], p);
      assert forall i :: 1 <= i < |s| ==> s[1..][i - 1] == s[i];
      if j < 0 then -1 else j + 1
  }

  /**
   * `all.slice(0, n).filter((x, i, self) => self.findIndex(y => id(y) === id(x)) === i)`:
   * the rows among the first `n` whose key is first found at their own index.
   */
  function KeepFoundAtOwnIndex<T, K(==)>(all: seq<T>, id: T -> K, n: nat): seq<T>
    requires n <= |all|
  {
    if n == 0 then []
    else
      var x := all[n - 1];
      KeepFoundAtOwnIndex(all, id, n - 1)
      + (if FindIndex(all, SameKey(id, x)) == n - 1 then [x] else [])
  }

  /** The `findIndex` filter over a whole array. */
  function FindIndexDedup<T, K(==)>(rows: seq<T>, id: T -> K): seq<T> {
    KeepFoundAtOwnIndex(rows, id, |rows|)
  }

  /** The `findIndex` filter keeps the same rows as the Map-based first-wins de-duplication. */
  lemma {:induction false} KeepFoundAtOwnIndexIsFirstOccurrences<T, K>(all: seq<T>, id: T -> K, n: nat)
    requires n <= |all|
    ensures KeepFoundAtOwnIndex(all, id, n) == FirstOccurrences(all[..n], id)
  {
    if n > 0 {
      KeepFoundAtOwnIndexIsFirstOccurrences(all, id, n - 1);
      assert all[..n][..n - 1] == all[..n - 1];
      FoundAtOwnIndexIsNew(all, id, n - 1);
    }
  }

  /** Row `k` is found at its own index exactly when its key is new among the rows before it. */
  lemma FoundAtOwnIndexIsNew<T, K>(all: seq<T>, id: T -> K, k: nat)
    requires k < |all|
    ensures (FindIndex(all, SameKey(id, all[k])) == k) == (id(all[k]) !in Ids(all[..k], id))
  {
    var same := SameKey(id, all[k]);
    if id(all[k]) in Ids(all[..k], id) {
      var j :| 0 <= j < k && id(all[..k][j]) == id(all[k]);
      assert all[j] == all[..k][j];
      FindIndexAtMost(all, same, j);
    } else {
      forall j | 0 <= j < k ensures !same(all[j]) {
        assert all[j] == all[..k][j];
      }
      FindIndexIs(all, same, k);
    }
  }


  /** An index that satisfies `p` bounds `FindIndex` from above. */
  lemma FindIndexAtMost<T>(s: seq<T>, p: T -> bool, j: nat)
    requires j < |s| && p(s[j])
    ensures 0 <= FindIndex(s, p) <= j
  {
  }

  /** The first index that satisfies `p` is `FindIndex`. */
  lemma FindIndexIs<T>(s: seq<T>, p: T -> bool, j: nat)
    requires j < |s| && p(s[j]) && forall i :: 0 <= i < j ==> !p(s[i])
    ensures FindIndex(s, p) == j
  {
  }


  lemma FindIndexDedupIsFirstOccurrences<T, K>(rows: seq<T>, id: T -> K)
    ensures FindIndexDedup(rows, id) == FirstOccurrences(rows, id)
  {
    KeepFoundAtOwnIndexIsFirstOccurrences(rows, id, |rows|);
    assert rows[..|rows|] == rows;
  }

  // ---------------------------------------------------------------------
  // Last-write-wins lookup objects
  // ---------------------------------------------------------------------

  /** `rows.forEach(r => { obj[key(r)] = val(r) })` on an empty object. */
  function LastWins<T, K, V>(rows: seq<T>, key: T -> K, val: T -> V): (m: map<K, V>)
    ensures m.Keys == Ids(rows, key)
  {
    if rows == [] then map[]
    else
      var init := rows[..|rows| - 1];
      IdsAppend(init, rows[|rows| - 1], key);
      assert rows == init + [rows[|rows| - 1]];
      LastWins(init, key, val)[key(rows[|rows| - 1]) := val(rows[|rows| - 1])]
  }

  /** A key maps to the value of the LAST row carrying it. */
  lemma {:induction false} LastWinsValue<T, K, V>(rows: seq<T>, key: T -> K, val: T -> V, i: nat)
    requires i < |rows|
    requires forall j :: i < j < |rows| ==> key(rows[j]) != key(rows[i])
    ensures key(rows[i]) in LastWins(rows, key, val)
    ensures LastWins(rows, key, val)[key(rows[i])] == val(rows[i])
  {
    if i < |rows| - 1 {
      var init := rows[..|rows| - 1];
      assert init[i] == rows[i];
      LastWinsValue(init, key, val, i);
    }
  }

  /** Every value in the lookup is the value of some row carrying its key. */
  lemma {:induction false} LastWinsFrom<T, K, V>(rows: seq<T>, key: T -> K, val: T -> V, k: K)
    requires k in LastWins(rows, key, val)
    ensures exists i :: 0 <= i < |rows| && key(rows[i]) == k && LastWins(rows, key, val)[k] == val(rows[i])
  {
    var init := rows[..|rows| - 1];
    if key(rows[|rows| - 1]) != k {
      LastWinsFrom(init, key, val, k);
      var i :| 0 <= i < |init| && key(init[i]) == k && LastWins(init, key, val)[k] == val(init[i]);
      assert rows[i] == init[i];
    }
  }

  /** The loop that fills a lookup object, as the hooks write it. */
  method BuildLookup<T, K, V>(rows: seq<T>, key: T -> K, val: T -> V) returns (m: map<K, V>)
    ensures m == LastWins(rows, key, val)
  {
    m := map[];
    var i := 0;
    while i < |rows|
      invariant 0 <= i <= |rows|
      invariant m == LastWins(rows[..i], key, val)
    {
      assert rows[..i + 1][..i] == rows[..i];
      m := m[key(rows[i]) := val(rows[i])];
      i := i + 1;
    }
    assert rows[..i] == rows;
  }

  /** `obj[k]` on a lookup object, with `undefined` as `None`-like absence handled by the caller. */
  function LookupOr<K, V>(m: map<K, V>, k: K, default: V): (v: V)
    ensures k in m ==> v == m[k]
    ensures k !in m ==> v == default
  {
    if k in m then m[k] else default
  }

  /** `obj[k]` is a non-empty text (truthy) in a lookup object of names. */
  predicate HasText<K>(m: map<K, string>, k: K) {
    k in m && m[k] != ""
  }

  /** The keys with a non-empty text, as a test. */
  function HasTextIn<K>(m: map<K, string>): K -> bool {
    k => HasText(m, k)
  }

  // ---------------------------------------------------------------------
  // Group-by: `if (!obj[k]) obj[k] = []; obj[k].push(v)`
  // ---------------------------------------------------------------------

  /** `obj[k] || []` for a group-by object. */
  function GroupOf<K, V>(g: map<K, seq<V>>, k: K): (vs: seq<V>)
    ensures k !in g ==> vs == []
  {
    if k in g then g[k] else []
  }

  function GroupBy<T, K, V>(rows: seq<T>, key: T -> K, val: T -> V): (g: map<K, seq<V>>)
    ensures g.Keys == Ids(rows, key)
  {
    if rows == [] then map[]
    else
      var init := rows[..|rows| - 1];
      var last := rows[|rows| - 1];
      IdsAppend(init, last, key);
      assert rows == init + [last];
      var g := GroupBy(init, key, val);
      g[key(last) := GroupOf(g, key(last)) + [val(last)]]
  }

  /** The test `r => key(r) === k`. */
  function KeyIs<T, K(==)>(key: T -> K, k: K): T -> bool {
    r => key(r) == k
  }

  /** The group of `k` lists the values of the rows with key `k`, in row order, duplicates kept. */
  lemma {:induction false} GroupByContents<T, K, V>(rows: seq<T>, key: T -> K, val: T -> V, k: K)
    ensures GroupOf(GroupBy(rows, key, val), k) == Map(Filter(rows, KeyIs(key, k)), val)
  {
    if rows != [] {
      var init := rows[..|rows| - 1];
      var last := rows[|rows| - 1];
      GroupByContents(init, key, val, k);
      var p := Filter(init, KeyIs(key, k));
      if key(last) == k {
        assert Filter(rows, KeyIs(key, k)) == p + [last];
        assert Map(p + [last], val) == Map(p, val) + [val(last)];
      }
    }
  }

  /** Every group is non-empty. */
  lemma {:induction false} GroupByNonEmpty<T, K, V>(rows: seq<T>, key: T -> K, val: T -> V)
    ensures forall k :: k in GroupBy(rows, key, val) ==> GroupBy(rows, key, val)[k] != []
  {
    if rows != [] {
      GroupByNonEmpty(rows[..|rows| - 1], key, val);
    }
  }

  /** The number of values over all groups. */
  ghost function TotalEntries<K, V>(g: map<K, seq<V>>): nat
    decreases |g.Keys|
  {
    if g == map[] then 0
    else
      var k :| k in g;
      |g[k]| + TotalEntries(g - {k})
  }

  /** The total does not depend on which key is taken first. */
  lemma {:induction false} TotalEntriesAt<K, V>(g: map<K, seq<V>>, k: K)
    requires k in g
    ensures TotalEntries(g) == |g[k]| + TotalEntries(g - {k})
    decreases |g.Keys|
  {
    var k' :| k' in g && TotalEntries(g) == |g[k']| + TotalEntries(g - {k'});
    if k' != k {
      var g1 := g - {k'};
      var g2 := g - {k};
      assert k in g1 && k' in g2;
      assert |g1.Keys| < |g.Keys| by { assert g1.Keys == g.Keys - {k'}; }
      assert |g2.Keys| < |g.Keys| by { assert g2.Keys == g.Keys - {k}; }
      TotalEntriesAt(g1, k);
      TotalEntriesAt(g2, k');
      assert g1 - {k} == g2 - {k'};
    }
  }

  lemma TotalEntriesUpdate<K, V>(g: map<K, seq<V>>, k: K, vs: seq<V>)
    ensures TotalEntries(g[k := vs]) == TotalEntries(g) - |GroupOf(g, k)| + |vs|
    ensures TotalEntries(g) >= |GroupOf(g, k)|
  {
    var g' := g[k := vs];
    TotalEntriesAt(g', k);
    assert g' - {k} == g - {k};
    if k in g {
      TotalEntriesAt(g, k);
    } else {
      assert g - {k} == g;
    }
  }

  /** Over all groups there are exactly as many entries as rows. */
  lemma {:induction false} GroupByTotal<T, K, V>(rows: seq<T>, key: T -> K, val: T -> V)
    ensures TotalEntries(GroupBy(rows, key, val)) == |rows|
  {
    if rows != [] {
      var init := rows[..|rows| - 1];
      var last := rows[|rows| - 1];
      GroupByTotal(init, key, val);
      var g := GroupBy(init, key, val);
      TotalEntriesUpdate(g, key(last), GroupOf(g, key(last)) + [val(last)]);
    } else {
      assert GroupBy(rows, key, val) == map[];
    }
  }

  /** The `forEach` that fills a group-by object, as the hooks write it. */
  method GroupRows<T, K, V>(rows: seq<T>, key: T -> K, val: T -> V) returns (g: map<K, seq<V>>)
    ensures g == GroupBy(rows, key, val)
  {
    g := map[];
    var i := 0;
    while i < |rows|
      invariant 0 <= i <= |rows|
      invariant g == GroupBy(rows[..i], key, val)
    {
      GroupBySnoc(rows, i, key, val);
      var k := key(rows[i]);
      ghost var before := g;
      if k !in g {
        g := g[k := []];
      }
      g := g[k := g[k] + [val(rows[i])]];
      assert g == before[k := GroupOf(before, k) + [val(rows[i])]];
      i := i + 1;
    }
    assert rows[..i] == rows;
  }

  /** Grouping one more row appends its value to its key's group. */
  lemma GroupBySnoc<T, K, V>(rows: seq<T>, i: nat, key: T -> K, val: T -> V)
    requires i < |rows|
    ensures GroupBy(rows[..i + 1], key, val)
      == GroupBy(rows[..i], key, val)[key(rows[i]) := GroupOf(GroupBy(rows[..i], key, val), key(rows[i])) + [val(rows[i])]]
  {
    assert rows[..i + 1][..i] == rows[..i];
  }
}
