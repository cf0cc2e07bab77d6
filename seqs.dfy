/** The array pipelines the store and the pages are built from:
    `filter`, `reduce` to a sum, and `sort` with a comparator (stable, as
    ECMAScript 2019 requires). Folds recurse on the LAST element, the order
    in which `forEach` visits a list. */
module Seqs {

  /** `s.filter(p)` */
  function Filter<T>(s: seq<T>, p: T -> bool): (r: seq<T>)
    ensures |r| <= |s|
    ensures forall i :: 0 <= i < |r| ==> r[i] in s && p(r[i])
    ensures forall i :: 0 <= i < |s| && p(s[i]) ==> s[i] in r
  {
    if s == [] then []
    else Filter(s[..|s| - 1], p) + (if p(s[|s| - 1]) then [s[|s| - 1]] else [])
  }

  /** A value is kept exactly when it occurs and passes the test. */
  lemma FilterHas<T>(s: seq<T>, p: T -> bool, x: T)
    ensures x in Filter(s, p) <==> x in s && p(x)
  {
    if x in Filter(s, p) {
      var i :| 0 <= i < |Filter(s, p)| && Filter(s, p)[i] == x;
    }
    if x in s && p(x) {
      var i :| 0 <= i < |s| && s[i] == x;
    }
  }

  /** Filtering distributes over concatenation: the result keeps the input
      order. */
  lemma {:induction false} FilterConcat<T>(a: seq<T>, b: seq<T>, p: T -> bool)
    ensures Filter(a + b, p) == Filter(a, p) + Filter(b, p)
    decreases |b|
  {
    if b == [] {
      assert a + b == a;
    } else {
      var n := |b| - 1;
      assert (a + b)[..|a + b| - 1] == a + b[..n];
      FilterConcat(a, b[..n], p);
    }
  }

  /** Filtering a second time with the same test removes nothing more. */
  lemma {:induction false} FilterIdempotent<T>(s: seq<T>, p: T -> bool)
    ensures Filter(Filter(s, p), p) == Filter(s, p)
    decreases |s|
  {
    if s != [] {
      var n := |s| - 1;
      FilterIdempotent(s[..n], p);
      FilterConcat(Filter(s[..n], p), if p(s[n]) then [s[n]] else [], p);
      assert Filter([s[n]], p) == Filter([], p) + (if p(s[n]) then [s[n]] else []);
      assert [s[n]][..0] == [];
    }
  }

  /** A filter that rejects nothing gives the list back. */
  lemma {:induction false} FilterAll<T>(s: seq<T>, p: T -> bool)
    requires forall i :: 0 <= i < |s| ==> p(s[i])
    ensures Filter(s, p) == s
    decreases |s|
  {
    if s != [] {
      var n := |s| - 1;
      FilterAll(s[..n], p);
      assert s[..n] + [s[n]] == s;
    }
  }

  /** `s.reduce((t, x) => t + w(x), 0)` */
  function Sum<T>(s: seq<T>, w: T -> int): int {
    if s == [] then 0 else Sum(s[..|s| - 1], w) + w(s[|s| - 1])
  }

  lemma {:induction false} SumConcat<T>(a: seq<T>, b: seq<T>, w: T -> int)
    ensures Sum(a + b, w) == Sum(a, w) + Sum(b, w)
    decreases |b|
  {
    if b == [] {
      assert a + b == a;
    } else {
      var n := |b| - 1;
      assert (a + b)[..|a + b| - 1] == a + b[..n];
      SumConcat(a, b[..n], w);
    }
  }

  /** Sum of `w` over the elements whose key is `k`. */
  function SumWhere<T, K(==)>(s: seq<T>, key: T -> K, k: K, w: T -> int): int {
    if s == [] then 0
    else SumWhere(s[..|s| - 1], key, k, w) + (if key(s[|s| - 1]) == k then w(s[|s| - 1]) else 0)
  }

  /** `SumWhere` is the sum over the matching elements. */
  lemma {:induction false} SumWhereIsFilteredSum<T, K>(s: seq<T>, key: T -> K, k: K, w: T -> int, p: T -> bool)
    requires forall x :: p(x) <==> key(x) == k
    ensures SumWhere(s, key, k, w) == Sum(Filter(s, p), w)
    decreases |s|
  {
    if s != [] {
      var n := |s| - 1;
      SumWhereIsFilteredSum(s[..n], key, k, w, p);
      SumConcat(Filter(s[..n], p), if p(s[n]) then [s[n]] else [], w);
      assert Sum([s[n]], w) == Sum([s[n]][..0], w) + w(s[n]);
    }
  }

  /** The per-key sums, added up over a list of keys. */
  function SumOverKeys<T, K(==)>(ks: seq<K>, s: seq<T>, key: T -> K, w: T -> int): int {
    if ks == [] then 0
    else SumOverKeys(ks[..|ks| - 1], s, key, w) + SumWhere(s, key, ks[|ks| - 1], w)
  }

  predicate Distinct<K(==)>(ks: seq<K>) {
    forall i, j :: 0 <= i < j < |ks| ==> ks[i] != ks[j]
  }

  lemma {:induction false} SumOverKeysStep<T, K>(ks: seq<K>, s: seq<T>, x: T, key: T -> K, w: T -> int)
    requires Distinct(ks)
    ensures SumOverKeys(ks, s + [x], key, w)
         == SumOverKeys(ks, s, key, w) + (if key(x) in ks then w(x) else 0)
    decreases |ks|
  {
    if ks != [] {
      var n := |ks| - 1;
      SumOverKeysStep(ks[..n], s, x, key, w);
      assert (s + [x])[..|s + [x]| - 1] == s;
      assert key(x) in ks <==> key(x) in ks[..n] || key(x) == ks[n];
      if key(x) == ks[n] {
        assert key(x) !in ks[..n];
      }
    }
  }

  /** Partition: when the keys are distinct and cover every element, the
      per-key sums add up to the grand total. */
  lemma {:induction false} PartitionSum<T, K>(ks: seq<K>, s: seq<T>, key: T -> K, w: T -> int)
    requires Distinct(ks)
    requires forall x :: x in s ==> key(x) in ks
    ensures SumOverKeys(ks, s, key, w) == Sum(s, w)
    decreases |s|
  {
    if s == [] {
      ZeroOverKeys(ks, s, key, w);
    } else {
      var n := |s| - 1;
      PartitionSum(ks, s[..n], key, w);
      SumOverKeysStep(ks, s[..n], s[n], key, w);
      assert s[..n] + [s[n]] == s;
    }
  }

  lemma {:induction false} ZeroOverKeys<T, K>(ks: seq<K>, s: seq<T>, key: T -> K, w: T -> int)
    requires s == []
    ensures SumOverKeys(ks, s, key, w) == 0
    decreases |ks|
  {
    if ks != [] {
      ZeroOverKeys(ks[..|ks| - 1], s, key, w);
    }
  }

  ghost predicate Total<T(!new)>(le: (T, T) -> bool) {
    forall a, b :: le(a, b) || le(b, a)
  }

  ghost predicate Transitive<T(!new)>(le: (T, T) -> bool) {
    forall a, b, c :: le(a, b) && le(b, c) ==> le(a, c)
  }

  predicate SortedBy<T>(s: seq<T>, le: (T, T) -> bool) {
    forall i, j :: 0 <= i < j < |s| ==> le(s[i], s[j])
  }

  /** Places `x` in front of the first element it may precede; everything it
      passes is strictly before it. */
  function Insert<T>(x: T, s: seq<T>, le: (T, T) -> bool): (r: seq<T>)
    ensures multiset(r) == multiset(s) + multiset{x}
    ensures |r| == |s| + 1
  {
    if s == [] || le(x, s[0]) then [x] + s
    else
      assert s == [s[0]] + s[1..];
      [s[0]] + Insert(x, s[1..], le)
  }

  /** `[...s].sort(cmp)`, as a stable insertion sort: a permutation of `s`. */
  function Sort<T>(s: seq<T>, le: (T, T) -> bool): (r: seq<T>)
    ensures multiset(r) == multiset(s)
    ensures |r| == |s|
  {
    if s == [] then []
    else
      assert s == [s[0]] + s[1..];
      Insert(s[0], Sort(s[1..], le), le)
  }

  lemma {:induction false} InsertSorted<T(!new)>(x: T, s: seq<T>, le: (T, T) -> bool)
    requires Total(le) && Transitive(le)
    requires SortedBy(s, le)
    ensures SortedBy(Insert(x, s, le), le)
    decreases |s|
  {
    if s != [] && !le(x, s[0]) {
      InsertSorted(x, s[1..], le);
      var r := Insert(x, s[1..], le);
      assert le(s[0], x);
      forall k | 0 <= k < |r| ensures le(s[0], r[k]) {
        assert r[k] in multiset(r);
        assert r[k] in multiset(s[1..]) + multiset{x};
        if r[k] != x {
          assert r[k] in multiset(s[1..]);
          var j :| 0 <= j < |s[1..]| && s[1..][j] == r[k];
          assert s[j + 1] == r[k];
        }
      }
      assert forall k :: 1 <= k < |[s[0]] + r| ==> ([s[0]] + r)[k] == r[k - 1];
    }
  }

  /** The sort's result is ordered by `le` when `le` is a total preorder. */
  lemma {:induction false} SortSorted<T(!new)>(s: seq<T>, le: (T, T) -> bool)
    requires Total(le) && Transitive(le)
    ensures SortedBy(Sort(s, le), le)
    decreases |s|
  {
    if s != [] {
      SortSorted(s[1..], le);
      InsertSorted(s[0], Sort(s[1..], le), le);
    }
  }

  lemma {:induction false} SumInsert<T>(x: T, s: seq<T>, le: (T, T) -> bool, w: T -> int)
    ensures Sum(Insert(x, s, le), w) == w(x) + Sum(s, w)
    decreases |s|
  {
    if s == [] || le(x, s[0]) {
      SumConcat([x], s, w);
      assert Sum([x], w) == Sum([x][..0], w) + w(x);
    } else {
      SumInsert(x, s[1..], le, w);
      SumConcat([s[0]], Insert(x, s[1..], le), w);
      SumConcat([s[0]], s[1..], w);
      assert [s[0]] + s[1..] == s;
    }
  }

  /** Sorting never changes a sum: a `reduce` after an in-place `sort` gives
      the total of the unsorted list. */
  lemma {:induction false} SumSort<T>(s: seq<T>, le: (T, T) -> bool, w: T -> int)
    ensures Sum(Sort(s, le), w) == Sum(s, w)
    decreases |s|
  {
    if s != [] {
      SumSort(s[1..], le, w);
      SumInsert(s[0], Sort(s[1..], le), le, w);
      SumConcat([s[0]], s[1..], w);
      assert [s[0]] + s[1..] == s;
      assert Sum([s[0]], w) == Sum([s[0]][..0], w) + w(s[0]);
    }
  }

  /** The distinct elements of `s` in the order they first appear: the
      order of `Array.from(new Set(s))`, and the key order of a `Map` or an
      object filled while walking `s`. */
  function FirstAppearance<T(==)>(s: seq<T>): (r: seq<T>)
    ensures Distinct(r)
    ensures forall i :: 0 <= i < |r| ==> r[i] in s
    ensures forall i :: 0 <= i < |s| ==> s[i] in r
  {
    if s == [] then []
    else
      var n := |s| - 1;
      var prev := FirstAppearance(s[..n]);
      assert forall i :: 0 <= i < n ==> s[..n][i] == s[i];
      if s[n] in prev then prev else prev + [s[n]]
  }

  /** Counting weight: `Sum(s, Unit)` is the length of `s`. */
  function Unit<T>(x: T): int {
    1
  }

  lemma {:induction false} SumUnit<T>(s: seq<T>)
    ensures Sum(s, Unit) == |s|
    decreases |s|
  {
    if s != [] {
      SumUnit(s[..|s| - 1]);
    }
  }

  /** Counting the elements equal to `k` gives their multiplicity. */
  lemma {:induction false} SumWhereUnitIsCount<T>(s: seq<T>, k: T)
    ensures SumWhere(s, Identity, k, Unit) == multiset(s)[k]
    decreases |s|
  {
    if s != [] {
      var n := |s| - 1;
      SumWhereUnitIsCount(s[..n], k);
      assert s == s[..n] + [s[n]];
    }
  }

  function Identity<T>(x: T): T {
    x
  }

  /** A list without repeats holds each value at most once. */
  lemma {:induction false} OneCopy<T>(s: seq<T>, x: T)
    requires Distinct(s)
    ensures multiset(s)[x] <= 1
    decreases |s|
  {
    if s != [] {
      var n := |s| - 1;
      assert s == s[..n] + [s[n]];
      OneCopy(s[..n], x);
      if x == s[n] {
        assert x !in s[..n];
      }
    }
  }

  lemma TwoCopies<T>(s: seq<T>, i: nat, j: nat)
    requires i < j < |s| && s[i] == s[j]
    ensures multiset(s)[s[i]] >= 2
  {
    assert s == s[..i] + [s[i]] + s[i + 1..j] + [s[j]] + s[j + 1..];
  }

  /** A permutation of a list without repeats has none either. */
  lemma DistinctPermutation<T>(s: seq<T>, t: seq<T>)
    requires Distinct(s) && multiset(s) == multiset(t)
    ensures Distinct(t)
  {
    forall i, j | 0 <= i < j < |t| ensures t[i] != t[j] {
      if t[i] == t[j] {
        TwoCopies(t, i, j);
        OneCopy(s, t[i]);
        assert false;
      }
    }
  }

  /** Filtering keeps a list free of repeats. */
  lemma {:induction false} FilterDistinct<T>(s: seq<T>, p: T -> bool)
    requires Distinct(s)
    ensures Distinct(Filter(s, p))
    decreases |s|
  {
    if s != [] {
      var n := |s| - 1;
      assert Distinct(s[..n]);
      FilterDistinct(s[..n], p);
      var f := Filter(s[..n], p);
      if p(s[n]) {
        assert s[n] !in f by {
          forall i | 0 <= i < |f| ensures f[i] != s[n] {
            assert f[i] in s[..n];
          }
        }
      }
    }
  }

  lemma FilterKeepsDistinct<T>(s: seq<T>, p: T -> bool)
    ensures Distinct(s) ==> Distinct(Filter(s, p))
  {
    if Distinct(s) {
      FilterDistinct(s, p);
    }
  }

  /** Filtering keeps every matching value as often as it occurs and drops
      every other one: the filtered list is exactly the matching elements. */
  lemma {:induction false} FilterCount<T>(s: seq<T>, p: T -> bool, x: T)
    ensures multiset(Filter(s, p))[x] == if p(x) then multiset(s)[x] else 0
    decreases |s|
  {
    if s != [] {
      var n := |s| - 1;
      var rest := if p(s[n]) then [s[n]] else [];
      FilterCount(s[..n], p, x);
      assert s == s[..n] + [s[n]];
      assert multiset(s) == multiset(s[..n]) + multiset{s[n]};
      assert multiset(Filter(s, p)) == multiset(Filter(s[..n], p)) + multiset(rest);
    }
  }

  /** A value is among the first appearances exactly when it occurs. */
  lemma FirstAppearanceHas<T>(s: seq<T>, x: T)
    ensures x in FirstAppearance(s) <==> x in s
  {
    if x in FirstAppearance(s) {
      var i :| 0 <= i < |FirstAppearance(s)| && FirstAppearance(s)[i] == x;
    }
    if x in s {
      var i :| 0 <= i < |s| && s[i] == x;
    }
  }

  lemma FirstAppearanceSnoc<T>(s: seq<T>, x: T)
    ensures FirstAppearance(s + [x])
         == FirstAppearance(s) + (if x in FirstAppearance(s) then [] else [x])
  {
    assert (s + [x])[..|s|] == s;
  }

  /** `s.indexOf(x)` for a value that occurs: the position of its first
      occurrence. */
  function IndexOf<T(==)>(s: seq<T>, x: T): (i: nat)
    requires x in s
    ensures i < |s| && s[i] == x && x !in s[..i]
  {
    if s[0] == x then 0
    else
      assert s[1..] + [] == s[1..];
      var k := IndexOf(s[1..], x);
      assert s[..k + 1] == [s[0]] + s[1..][..k];
      k + 1
  }

  /** Every element of `r` occurs in `s`, and earlier elements of `r` occur
      first earlier in `s`: `r` lists its values in `s`'s order. */
  predicate FollowsOrderOf<T(==)>(r: seq<T>, s: seq<T>) {
    && (forall i :: 0 <= i < |r| ==> r[i] in s)
    && (forall i, j :: 0 <= i < j < |r| ==> r[i] in s && r[j] in s && IndexOf(s, r[i]) < IndexOf(s, r[j]))
  }

  /** Appending to `s` leaves the first position of an occurring value. */
  lemma IndexOfSnoc<T>(s: seq<T>, x: T, y: T)
    requires y in s
    ensures IndexOf(s + [x], y) == IndexOf(s, y)
  {
    var k := IndexOf(s, y);
    var m := IndexOf(s + [x], y);
    assert (s + [x])[k] == y;
  }

  lemma FollowsOrderSnoc<T>(r: seq<T>, s: seq<T>, x: T)
    requires FollowsOrderOf(r, s)
    ensures FollowsOrderOf(r, s + [x])
    ensures x !in s ==> FollowsOrderOf(r + [x], s + [x])
  {
    forall i | 0 <= i < |r| ensures IndexOf(s + [x], r[i]) == IndexOf(s, r[i]) {
      IndexOfSnoc(s, x, r[i]);
    }
    if x !in s {
      var t := s + [x];
      assert IndexOf(t, x) == |s| by {
        assert t[|s|] == x;
      }
      forall i | 0 <= i < |r| ensures IndexOf(t, r[i]) < |s| {
        assert IndexOf(s, r[i]) < |s|;
      }
      assert forall i :: 0 <= i < |r| ==> (r + [x])[i] == r[i];
    }
  }

  /** Filtering a list without repeats keeps its order. */
  lemma {:induction false} FilterFollowsOrder<T>(s: seq<T>, p: T -> bool)
    ensures Distinct(s) ==> FollowsOrderOf(Filter(s, p), s)
    decreases |s|
  {
    if s != [] && Distinct(s) {
      var n := |s| - 1;
      assert Distinct(s[..n]);
      FilterFollowsOrder(s[..n], p);
      assert s[..n] + [s[n]] == s;
      assert s[n] !in s[..n];
      FollowsOrderSnoc(Filter(s[..n], p), s[..n], s[n]);
    }
  }

  /** The first appearances come in the order the values first occur. */
  lemma {:induction false} FirstAppearanceFollowsOrder<T>(s: seq<T>)
    ensures FollowsOrderOf(FirstAppearance(s), s)
    decreases |s|
  {
    if s != [] {
      var n := |s| - 1;
      FirstAppearanceFollowsOrder(s[..n]);
      assert s[..n] + [s[n]] == s;
      FirstAppearanceHas(s[..n], s[n]);
      FollowsOrderSnoc(FirstAppearance(s[..n]), s[..n], s[n]);
    }
  }

  /** Following an order that follows another follows the other. */
  lemma FollowsOrderTrans<T>(r: seq<T>, m: seq<T>, s: seq<T>)
    requires FollowsOrderOf(r, m) && FollowsOrderOf(m, s)
    ensures FollowsOrderOf(r, s)
  {
    forall i | 0 <= i < |r| ensures r[i] in s {
      assert m[IndexOf(m, r[i])] == r[i];
    }
    forall i, j | 0 <= i < j < |r| ensures IndexOf(s, r[i]) < IndexOf(s, r[j]) {
      var a, b := IndexOf(m, r[i]), IndexOf(m, r[j]);
      assert m[a] == r[i] && m[b] == r[j];
    }
  }

  /** A matching element sits in the filtered list after the matches before
      it. */
  lemma FilterPosition<T>(s: seq<T>, p: T -> bool, j: nat)
    requires j < |s| && p(s[j])
    ensures |Filter(s[..j], p)| < |Filter(s, p)| && Filter(s, p)[|Filter(s[..j], p)|] == s[j]
  {
    var a := s[..j] + [s[j]];
    assert a[..j] == s[..j];
    assert Filter(a, p) == Filter(s[..j], p) + [s[j]];
    assert s == a + s[j + 1..];
    FilterConcat(a, s[j + 1..], p);
  }

  /** A match at `i` lies between the matches before `i` and those before
      any later `j`. */
  lemma FilterPrefixGrows<T>(s: seq<T>, p: T -> bool, i: nat, j: nat)
    requires i < j <= |s| && p(s[i])
    ensures |Filter(s[..i], p)| < |Filter(s[..j], p)|
  {
    assert s[..j] == s[..i] + s[i..j];
    FilterConcat(s[..i], s[i..j], p);
    FilterPosition(s[i..j], p, 0);
  }

  /** Filtering a sorted list leaves it sorted. */
  lemma {:induction false} FilterSorted<T>(s: seq<T>, p: T -> bool, le: (T, T) -> bool)
    requires SortedBy(s, le)
    ensures SortedBy(Filter(s, p), le)
    decreases |s|
  {
    if s != [] {
      var n := |s| - 1;
      assert SortedBy(s[..n], le);
      FilterSorted(s[..n], p, le);
      var f := Filter(s[..n], p);
      forall i | 0 <= i < |f| ensures le(f[i], s[n]) {
        var k :| 0 <= k < n && s[..n][k] == f[i];
      }
    }
  }

  /** `m[k] ?? 0` */
  function Lookup<K>(m: map<K, int>, k: K): int {
    if k in m then m[k] else 0
  }

  /** The values of `m` at the keys `ks`, a missing key counting as 0. */
  function SumOfEntries<K>(ks: seq<K>, m: map<K, int>): int {
    if ks == [] then 0 else SumOfEntries(ks[..|ks| - 1], m) + Lookup(m, ks[|ks| - 1])
  }

  /** A map whose every entry is a per-key sum adds up, over any keys, as
      the per-key sums do. */
  lemma {:induction false} SumOfEntriesOverKeys<T, K>(ks: seq<K>, m: map<K, int>, s: seq<T>, key: T -> K, w: T -> int)
    requires forall i :: 0 <= i < |ks| ==> Lookup(m, ks[i]) == SumWhere(s, key, ks[i], w)
    ensures SumOfEntries(ks, m) == SumOverKeys(ks, s, key, w)
    decreases |ks|
  {
    if ks != [] {
      SumOfEntriesOverKeys(ks[..|ks| - 1], m, s, key, w);
    }
  }

  lemma {:induction false} FilterNone<T>(s: seq<T>, p: T -> bool)
    requires forall i :: 0 <= i < |s| ==> !p(s[i])
    ensures Filter(s, p) == []
    decreases |s|
  {
    if s != [] {
      FilterNone(s[..|s| - 1], p);
    }
  }
}
