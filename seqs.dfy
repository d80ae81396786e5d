/**
 * The array operations the hooks chain together: `filter`, `map`, `slice(0, k)`,
 * a `reduce` that sums, and `sort` with a comparator.
 */
module Seqs {

  /** `a` is `b` with some elements left out, the rest in their original order. */
  predicate IsSubsequence<T(==)>(a: seq<T>, b: seq<T>)
    decreases |b|
  {
    a == [] || (b != [] &&
      ((a[|a| - 1] == b[|b| - 1] && IsSubsequence(a[..|a| - 1], b[..|b| - 1]))
       || IsSubsequence(a, b[..|b| - 1])))
  }

  lemma {:induction false} SubsequenceOfItself<T>(s: seq<T>)
    ensures IsSubsequence(s, s)
  {
    if s != [] {
      SubsequenceOfItself(s[..|s| - 1]);
    }
  }

  lemma {:induction false} SubsequenceTransitive<T>(a: seq<T>, b: seq<T>, c: seq<T>)
    requires IsSubsequence(a, b) && IsSubsequence(b, c)
    ensures IsSubsequence(a, c)
    decreases |c|
  {
    if a != [] {
      var b', c' := b[..|b| - 1], c[..|c| - 1];
      if b[|b| - 1] == c[|c| - 1] && IsSubsequence(b', c') {
        if a[|a| - 1] == b[|b| - 1] && IsSubsequence(a[..|a| - 1], b') {
          SubsequenceTransitive(a[..|a| - 1], b', c');
        } else {
          SubsequenceTransitive(a, b', c');
        }
      } else {
        SubsequenceTransitive(a, b, c');
      }
    }
  }

  lemma {:induction false} SubsequenceLength<T>(a: seq<T>, b: seq<T>)
    requires IsSubsequence(a, b)
    ensures |a| <= |b|
    decreases |b|
  {
    if a != [] {
      if a[|a| - 1] == b[|b| - 1] && IsSubsequence(a[..|a| - 1], b[..|b| - 1]) {
        SubsequenceLength(a[..|a| - 1], b[..|b| - 1]);
      } else {
        SubsequenceLength(a, b[..|b| - 1]);
      }
    }
  }

  /** Every element of a subsequence is an element of the whole. */
  lemma {:induction false} SubsequenceMembers<T>(a: seq<T>, b: seq<T>, x: T)
    requires IsSubsequence(a, b) && x in a
    ensures x in b
    decreases |b|
  {
    if a[|a| - 1] == b[|b| - 1] && IsSubsequence(a[..|a| - 1], b[..|b| - 1]) {
      if x != a[|a| - 1] {
        assert a == a[..|a| - 1] + [a[|a| - 1]];
        SubsequenceMembers(a[..|a| - 1], b[..|b| - 1], x);
      }
    } else {
      SubsequenceMembers(a, b[..|b| - 1], x);
    }
  }

  /** `s.filter(p)`. */
  function Filter<T>(s: seq<T>, p: T -> bool): (r: seq<T>)
    ensures |r| <= |s|
    ensures forall i :: 0 <= i < |r| ==> r[i] in s && p(r[i])
    ensures forall i :: 0 <= i < |s| && p(s[i]) ==> s[i] in r
  {
    if s == [] then []
    else Filter(s[..|s| - 1], p) + (if p(s[|s| - 1]) then [s[|s| - 1]] else [])
  }

  /** A filter keeps the retained elements in their original order. */
  lemma {:induction false} FilterIsSubsequence<T>(s: seq<T>, p: T -> bool)
    ensures IsSubsequence(Filter(s, p), s)
  {
    if s != [] {
      var init := s[..|s| - 1];
      FilterIsSubsequence(init, p);
      var f := Filter(s, p);
      if p(s[|s| - 1]) {
        assert f[..|f| - 1] == Filter(init, p);
      } else {
        assert f == Filter(init, p);
        if f != [] {
          assert IsSubsequence(f, init);
        }
      }
    }
  }

  /** An element is kept exactly when it is an element the predicate accepts. */
  lemma FilterMembers<T>(s: seq<T>, p: T -> bool)
    ensures forall x :: x in Filter(s, p) <==> x in s && p(x)
  {
    var r := Filter(s, p);
    forall x | x in r ensures x in s && p(x) {
      var i :| 0 <= i < |r| && r[i] == x;
    }
    forall x | x in s && p(x) ensures x in r {
      var i :| 0 <= i < |s| && s[i] == x;
    }
  }

  /** Filtering with a predicate every element satisfies changes nothing. */
  lemma {:induction false} FilterAll<T>(s: seq<T>, p: T -> bool)
    requires forall i :: 0 <= i < |s| ==> p(s[i])
    ensures Filter(s, p) == s
  {
    if s != [] {
      FilterAll(s[..|s| - 1], p);
      assert s[..|s| - 1] + [s[|s| - 1]] == s;
    }
  }

  /** Filtering distributes over concatenation. */
  lemma {:induction false} FilterAppend<T>(a: seq<T>, b: seq<T>, p: T -> bool)
    ensures Filter(a + b, p) == Filter(a, p) + Filter(b, p)
    decreases |b|
  {
    if b != [] {
      var b' := b[..|b| - 1];
      assert (a + b)[..|a + b| - 1] == a + b';
      FilterAppend(a, b', p);
    } else {
      assert a + b == a;
    }
  }

  /** Filtering a sequence with one more element at the end. */
  lemma FilterSnoc<T>(s: seq<T>, x: T, p: T -> bool)
    ensures Filter(s + [x], p) == Filter(s, p) + (if p(x) then [x] else [])
  {
    assert (s + [x])[..|s|] == s;
  }

  /** Mapping a sequence with one more element at the end. */
  lemma MapSnoc<T, U>(s: seq<T>, x: T, f: T -> U)
    ensures Map(s + [x], f) == Map(s, f) + [f(x)]
  {
    assert (s + [x])[..|s|] == s;
  }

  /** The number of elements of `s` that satisfy `p`. */
  function Count<T>(s: seq<T>, p: T -> bool): (n: nat)
    ensures n == |Filter(s, p)|
  {
    if s == [] then 0
    else Count(s[..|s| - 1], p) + (if p(s[|s| - 1]) then 1 else 0)
  }

  /** `s.map(f)`. */
  function Map<T, U>(s: seq<T>, f: T -> U): (r: seq<U>)
    ensures |r| == |s|
    ensures forall i :: 0 <= i < |s| ==> r[i] == f(s[i])
  {
    if s == [] then [] else Map(s[..|s| - 1], f) + [f(s[|s| - 1])]
  }

  /** `s.map((x, index) => f(x, index))`. */
  function MapIndexed<T, U>(s: seq<T>, f: (T, nat) -> U): (r: seq<U>)
    ensures |r| == |s|
    ensures forall i :: 0 <= i < |s| ==> r[i] == f(s[i], i)
  {
    if s == [] then [] else MapIndexed(s[..|s| - 1], f) + [f(s[|s| - 1], |s| - 1)]
  }

  /** An element of `Map(Filter(s, p), f)` is the image of an element of `s` that `p` accepts. */
  lemma MapFilterSource<T, U>(s: seq<T>, p: T -> bool, f: T -> U, y: U) returns (x: T)
    requires y in Map(Filter(s, p), f)
    ensures x in s && p(x) && y == f(x)
  {
    var kept := Filter(s, p);
    var i :| 0 <= i < |kept| && Map(kept, f)[i] == y;
    x := kept[i];
  }

  /** The image of every element of `s` that `p` accepts is in `Map(Filter(s, p), f)`. */
  lemma MapFilterHas<T, U>(s: seq<T>, p: T -> bool, f: T -> U, x: T)
    requires x in s && p(x)
    ensures f(x) in Map(Filter(s, p), f)
  {
    var kept := Filter(s, p);
    var j :| 0 <= j < |s| && s[j] == x;
    var i :| 0 <= i < |kept| && kept[i] == x;
    assert Map(kept, f)[i] == f(x);
  }

  /** `s.slice(0, end)`: a negative `end` counts from the back, and it is clamped to `[0, |s|]`. */
  function SliceTo<T>(s: seq<T>, end: int): (r: seq<T>)
    ensures end >= 0 ==> r == s[..if end <= |s| then end else |s|]
    ensures end < 0 ==> r == s[..if |s| + end >= 0 then |s| + end else 0]
  {
    var stop := if end < 0 then |s| + end else end;
    s[..if stop < 0 then 0 else if stop > |s| then |s| else stop]
  }

  /** `s.reduce((sum, x) => sum + f(x), 0)`. */
  function Sum<T>(s: seq<T>, f: T -> int): int {
    if s == [] then 0 else Sum(s[..|s| - 1], f) + f(s[|s| - 1])
  }

  lemma {:induction false} SumAppend<T>(a: seq<T>, b: seq<T>, f: T -> int)
    ensures Sum(a + b, f) == Sum(a, f) + Sum(b, f)
    decreases |b|
  {
    if b != [] {
      assert (a + b)[..|a + b| - 1] == a + b[..|b| - 1];
      SumAppend(a, b[..|b| - 1], f);
    } else {
      assert a + b == a;
    }
  }

  /** `n > 0 ? s.reduce((sum, x) => sum + f(x), 0) / n : 0` with `n = s.length`, as an exact real. */
  function Mean<T>(s: seq<T>, f: T -> int): (m: real)
    ensures s == [] ==> m == 0.0
  {
    if |s| > 0 then Sum(s, f) as real / |s| as real else 0.0
  }

  /** When every term lies in `[lo, hi]`, so does the mean of a non-empty sequence. */
  lemma MeanBounds<T>(s: seq<T>, f: T -> int, lo: int, hi: int)
    requires s != []
    requires forall i :: 0 <= i < |s| ==> lo <= f(s[i]) <= hi
    ensures lo as real <= Mean(s, f) <= hi as real
  {
    SumBounds(s, f, lo, hi);
    CastProduct(lo, |s|);
    CastProduct(hi, |s|);
    QuotientBounds(Sum(s, f) as real, |s| as real, lo as real, hi as real);
  }

  lemma CastProduct(a: int, b: int)
    ensures (a * b) as real == a as real * b as real
  {
  }

  lemma QuotientBounds(t: real, n: real, a: real, b: real)
    requires n > 0.0 && a * n <= t <= b * n
    ensures a <= t / n <= b
  {
    var q := t / n;
    assert q * n == t;
    assert (q - a) * n >= 0.0;
    assert (b - q) * n >= 0.0;
  }

  /** Bounds on every term bound the sum. */
  lemma {:induction false} SumBounds<T>(s: seq<T>, f: T -> int, lo: int, hi: int)
    requires forall i :: 0 <= i < |s| ==> lo <= f(s[i]) <= hi
    ensures lo * |s| <= Sum(s, f) <= hi * |s|
  {
    if s != [] {
      SumBounds(s[..|s| - 1], f, lo, hi);
    }
  }

  /** `s.reduce((sum, x) => sum + f(x), 0)` over real-valued terms. */
  function RealSum<T>(s: seq<T>, f: T -> real): real {
    if s == [] then 0.0 else RealSum(s[..|s| - 1], f) + f(s[|s| - 1])
  }

  /** Bounds on every real term bound the real sum. */
  lemma {:induction false} RealSumBounds<T>(s: seq<T>, f: T -> real, lo: real, hi: real)
    requires forall i :: 0 <= i < |s| ==> lo <= f(s[i]) <= hi
    ensures lo * |s| as real <= RealSum(s, f) <= hi * |s| as real
  {
    if s != [] {
      var n := (|s| - 1) as real;
      RealSumBounds(s[..|s| - 1], f, lo, hi);
      assert lo * n + lo == lo * (n + 1.0);
      assert hi * n + hi == hi * (n + 1.0);
    }
  }

  /** Two tests no element passes together select at most `|s|` elements between them, exactly `|s|` when every element passes one. */
  lemma {:induction false} CountSplit<T>(s: seq<T>, p: T -> bool, q: T -> bool)
    requires forall i :: 0 <= i < |s| ==> !(p(s[i]) && q(s[i]))
    ensures Count(s, p) + Count(s, q) <= |s|
    ensures (forall i :: 0 <= i < |s| ==> p(s[i]) || q(s[i])) ==> Count(s, p) + Count(s, q) == |s|
  {
    if s != [] {
      CountSplit(s[..|s| - 1], p, q);
    }
  }

  // ---------------------------------------------------------------------
  // sort with a comparator
  // ---------------------------------------------------------------------

  /** Insert `x` before the first element it does not compare above. */
  function InsertBy<T>(x: T, s: seq<T>, cmp: (T, T) -> int): (r: seq<T>)
    ensures |r| == |s| + 1
    ensures multiset(r) == multiset(s) + multiset{x}
  {
    if s == [] then [x]
    else if cmp(x, s[0]) <= 0 then [x] + s
    else assert s == [s[0]] + s[1..]; [s[0]] + InsertBy(x, s[1..], cmp)
  }

  /**
   * `s.sort(cmp)`, as a stable insertion sort with the same comparator: for a
   * comparator that is a consistent order this is the order every stable sort
   * produces; for any comparator it is a rearrangement of `s`.
   */
  function SortBy<T>(s: seq<T>, cmp: (T, T) -> int): (r: seq<T>)
    ensures |r| == |s|
    ensures multiset(r) == multiset(s)
  {
    if s == [] then []
    else assert s == [s[0]] + s[1..]; InsertBy(s[0], SortBy(s[1..], cmp), cmp)
  }

  /** No two elements of `s` share a key. */
  predicate DistinctIds<T, K(==)>(s: seq<T>, id: T -> K) {
    forall a, b :: 0 <= a < b < |s| ==> id(s[a]) != id(s[b])
  }

  /** A filter keeps keys pairwise distinct. */
  lemma {:induction false} FilterDistinct<T, K>(s: seq<T>, p: T -> bool, key: T -> K)
    requires DistinctIds(s, key)
    ensures DistinctIds(Filter(s, p), key)
  {
    if s != [] {
      var init := s[..|s| - 1];
      var last := s[|s| - 1];
      FilterDistinct(init, p, key);
      var f := Filter(init, p);
      if p(last) {
        var r := f + [last];
        forall a, b | 0 <= a < b < |r| ensures key(r[a]) != key(r[b]) {
          if b == |f| {
            var j :| 0 <= j < |init| && init[j] == f[a];
            assert s[j] == init[j];
          } else {
            assert r[a] == f[a] && r[b] == f[b];
          }
        }
      }
    }
  }

  /** With distinct keys, no element occurs twice. */
  lemma {:induction false} DistinctIdsSingleCopies<T, K>(s: seq<T>, key: T -> K, x: T)
    requires DistinctIds(s, key)
    ensures multiset(s)[x] <= 1
  {
    if s != [] {
      var init := s[..|s| - 1];
      DistinctIdsSingleCopies(init, key, x);
      assert s == init + [s[|s| - 1]];
    }
  }

  /** An element found at two indices occurs at least twice. */
  lemma TwoCopies<T>(s: seq<T>, i: nat, j: nat)
    requires i < j < |s| && s[i] == s[j]
    ensures multiset(s)[s[i]] >= 2
  {
    assert s == s[..j] + [s[j]] + s[j + 1..];
    assert s[i] in s[..j];
  }

  /** Rearranging a sequence keeps its keys pairwise distinct. */
  lemma DistinctIdsPermutation<T, K>(a: seq<T>, b: seq<T>, key: T -> K)
    requires multiset(a) == multiset(b)
    requires DistinctIds(a, key)
    ensures DistinctIds(b, key)
  {
    forall i, j | 0 <= i < j < |b| ensures key(b[i]) != key(b[j]) {
      if b[i] == b[j] {
        TwoCopies(b, i, j);
        DistinctIdsSingleCopies(a, key, b[i]);
      } else {
        assert b[i] in multiset(a) && b[j] in multiset(a);
        var p :| 0 <= p < |a| && a[p] == b[i];
        var q :| 0 <= q < |a| && a[q] == b[j];
        assert p != q;
      }
    }
  }

  /** `s` is in ascending order of `key`. */
  predicate SortedByKey<T>(s: seq<T>, key: T -> int) {
    forall i, j :: 0 <= i < j < |s| ==> key(s[i]) <= key(s[j])
  }

  /** `cmp(a, b)` is `key(a) - key(b)`: the comparator `(a, b) => a.k - b.k`. */
  ghost predicate ComparesKeys<T(!new)>(cmp: (T, T) -> int, key: T -> int) {
    forall a, b :: cmp(a, b) == key(a) - key(b)
  }

  lemma {:induction false} InsertByKeepsSorted<T(!new)>(x: T, s: seq<T>, cmp: (T, T) -> int, key: T -> int)
    requires ComparesKeys(cmp, key)
    requires SortedByKey(s, key)
    ensures SortedByKey(InsertBy(x, s, cmp), key)
  {
    if s != [] && cmp(x, s[0]) > 0 {
      var tail := InsertBy(x, s[1..], cmp);
      InsertByKeepsSorted(x, s[1..], cmp, key);
      InsertByBounded(x, s[1..], cmp, key, key(s[0]));
      ConsSorted(s[0], tail, key);
    }
  }

  /** Inserting into a sequence whose keys are all at least `lo` an element whose key is too keeps that bound. */
  lemma InsertByBounded<T>(x: T, t: seq<T>, cmp: (T, T) -> int, key: T -> int, lo: int)
    requires lo <= key(x) && forall i :: 0 <= i < |t| ==> lo <= key(t[i])
    ensures forall k :: 0 <= k < |InsertBy(x, t, cmp)| ==> lo <= key(InsertBy(x, t, cmp)[k])
  {
    var r := InsertBy(x, t, cmp);
    forall k | 0 <= k < |r| ensures lo <= key(r[k]) {
      assert r[k] in multiset(r);
      if r[k] != x {
        assert r[k] in multiset(t);
        var m :| 0 <= m < |t| && t[m] == r[k];
      }
    }
  }

  /** A sorted sequence whose keys are all at least the head's stays sorted behind it. */
  lemma ConsSorted<T>(h: T, t: seq<T>, key: T -> int)
    requires SortedByKey(t, key) && forall k :: 0 <= k < |t| ==> key(h) <= key(t[k])
    ensures SortedByKey([h] + t, key)
  {
    var r := [h] + t;
    forall i, j | 0 <= i < j < |r| ensures key(r[i]) <= key(r[j]) {
      assert r[j] == t[j - 1];
      if i > 0 {
        assert r[i] == t[i - 1];
      }
    }
  }


  /** With a key-difference comparator, the sort orders by the key (and keeps every element). */
  lemma {:induction false} SortByKeyIsSorted<T(!new)>(s: seq<T>, cmp: (T, T) -> int, key: T -> int)
    requires ComparesKeys(cmp, key)
    ensures SortedByKey(SortBy(s, cmp), key)
  {
    if s != [] {
      SortByKeyIsSorted(s[1..], cmp, key);
      InsertByKeepsSorted(s[0], SortBy(s[1..], cmp), cmp, key);
    }
  }
}
