/** Shared vocabulary: optional values, time constants, the numeric rounding of
    `Number.prototype.toFixed`, JavaScript string order, folds over sequences,
    first-occurrence de-duplication and the stable sort of `Array.prototype.sort`. */
module Common {

  datatype Option<T> = None | Some(value: T)

  /** A computation that either produces a value or throws. */
  datatype Result<T> = Ok(value: T) | Err(error: string)

  /** Milliseconds in one UTC day and in one hour. */
  const DayMs: int := 86400000
  const HourMs: int := 3600000

  /** The UTC day of midnight of day `n` is `n`. */
  lemma MidnightDay(n: int)
    ensures n * DayMs / DayMs == n
  {
  }

  /* ---------------- rounding ---------------- */

  /** The integer nearest to `y`, halves rounded away from zero: the digit
      string `toFixed` chooses before the decimal point is placed. */
  function RoundHalfAway(y: real): (n: int)
    ensures -0.5 <= n as real - y <= 0.5
    ensures y >= 0.0 ==> n >= 0
  {
    if y >= 0.0 then (y + 0.5).Floor else -((-y + 0.5).Floor)
  }

  /** `+x.toFixed(1)` on an exact real. */
  function Round1(x: real): (r: real)
    ensures x - 0.05 <= r <= x + 0.05
  {
    RoundHalfAway(x * 10.0) as real / 10.0
  }

  /** `+x.toFixed(2)` on an exact real. */
  function Round2(x: real): (r: real)
    ensures x - 0.005 <= r <= x + 0.005
    ensures x == 0.0 ==> r == 0.0
  {
    RoundHalfAway(x * 100.0) as real / 100.0
  }

  /** `Math.ceil`. */
  function Ceil(x: real): (n: int)
    ensures x <= n as real < x + 1.0
  {
    if x.Floor as real == x then x.Floor else x.Floor + 1
  }

  lemma CeilUnique(x: real, n: int)
    requires x <= n as real < x + 1.0
    ensures Ceil(x) == n
  {
  }

  function MaxReal(a: real, b: real): real { if a >= b then a else b }

  function MinReal(a: real, b: real): real { if a <= b then a else b }

  /* ---------------- string order ---------------- */

  /** JavaScript's `a < b` on strings: code-unit lexicographic order, a proper
      prefix coming first. */
  predicate LexLess(a: string, b: string)
    decreases |a|
  {
    if |a| == 0 then |b| > 0
    else if |b| == 0 then false
    else if a[0] == b[0] then LexLess(a[1..], b[1..])
    else a[0] < b[0]
  }

  lemma {:induction false} LexLessIrreflexive(a: string)
    ensures !LexLess(a, a)
    decreases |a|
  {
    if |a| > 0 { LexLessIrreflexive(a[1..]); }
  }

  lemma {:induction false} LexLessTransitive(a: string, b: string, c: string)
    requires LexLess(a, b) && LexLess(b, c)
    ensures LexLess(a, c)
    decreases |a|
  {
    if |a| > 0 && |b| > 0 && |c| > 0 && a[0] == b[0] && b[0] == c[0] {
      LexLessTransitive(a[1..], b[1..], c[1..]);
    }
  }

  lemma {:induction false} LexLessTotal(a: string, b: string)
    requires a != b
    ensures LexLess(a, b) || LexLess(b, a)
    decreases |a|
  {
    if |a| > 0 && |b| > 0 && a[0] == b[0] {
      assert a == [a[0]] + a[1..] && b == [b[0]] + b[1..];
      LexLessTotal(a[1..], b[1..]);
    }
  }

  /** Two strings that share a prefix compare as their remainders do. */
  lemma {:induction false} LexLessCommonPrefix(p: string, a: string, b: string)
    ensures LexLess(p + a, p + b) == LexLess(a, b)
    decreases |p|
  {
    if |p| == 0 {
      assert p + a == a && p + b == b;
    } else {
      assert (p + a)[0] == p[0] == (p + b)[0];
      assert (p + a)[1..] == p[1..] + a;
      assert (p + b)[1..] == p[1..] + b;
      assert LexLess(p + a, p + b) == LexLess((p + a)[1..], (p + b)[1..]);
      LexLessCommonPrefix(p[1..], a, b);
    }
  }

  /** Two strings of equal length compare as their prefixes do when the
      prefixes differ, whatever follows them. */
  lemma {:induction false} LexLessSameLengthPrefix(a: string, b: string, x: string, y: string)
    requires |a| == |b| && a != b
    ensures LexLess(a + x, b + y) == LexLess(a, b)
    decreases |a|
  {
    assert |a| > 0;
    if a[0] == b[0] {
      assert (a + x)[1..] == a[1..] + x;
      assert (b + y)[1..] == b[1..] + y;
      assert a[1..] != b[1..] by {
        assert a == [a[0]] + a[1..] && b == [b[0]] + b[1..];
      }
      LexLessSameLengthPrefix(a[1..], b[1..], x, y);
    }
  }

  /* ---------------- folds over sequences ---------------- */

  /** Sum of `f` over `s`, accumulated left to right as `reduce` does. */
  function Sum<T>(s: seq<T>, f: T -> real): real
    decreases |s|
  {
    if s == [] then 0.0 else Sum(s[..|s| - 1], f) + f(s[|s| - 1])
  }

  lemma {:induction false} SumAppend<T>(a: seq<T>, b: seq<T>, f: T -> real)
    ensures Sum(a + b, f) == Sum(a, f) + Sum(b, f)
    decreases |b|
  {
    if b == [] {
      assert a + b == a;
    } else {
      assert (a + b)[..|a + b| - 1] == a + b[..|b| - 1];
      SumAppend(a, b[..|b| - 1], f);
    }
  }

  lemma {:induction false} SumCons<T>(x: T, s: seq<T>, f: T -> real)
    ensures Sum([x] + s, f) == f(x) + Sum(s, f)
  {
    SumAppend([x], s, f);
    assert [x][..0] == [];
  }

  /** A sum of terms that are all non-negative is non-negative. */
  lemma {:induction false} SumNonNegative<T>(s: seq<T>, f: T -> real)
    requires forall i :: 0 <= i < |s| ==> f(s[i]) >= 0.0
    ensures Sum(s, f) >= 0.0
    decreases |s|
  {
    if s != [] {
      SumNonNegative(s[..|s| - 1], f);
    }
  }

  /** Sums over the same sequence agree when the summed terms agree. */
  lemma {:induction false} SumCongruent<T>(s: seq<T>, f: T -> real, g: T -> real)
    requires forall i :: 0 <= i < |s| ==> f(s[i]) == g(s[i])
    ensures Sum(s, f) == Sum(s, g)
    decreases |s|
  {
    if s != [] {
      SumCongruent(s[..|s| - 1], f, g);
    }
  }

  /** Two sums over the same sequence add up termwise. */
  lemma {:induction false} SumPlus<T>(s: seq<T>, f: T -> real, g: T -> real, h: T -> real)
    requires forall x :: h(x) == f(x) + g(x)
    ensures Sum(s, f) + Sum(s, g) == Sum(s, h)
    decreases |s|
  {
    if s != [] {
      SumPlus(s[..|s| - 1], f, g, h);
    }
  }

  /** `Array.prototype.map`. */
  function Map<T, U>(s: seq<T>, f: T -> U): (r: seq<U>)
    ensures |r| == |s|
    ensures forall i :: 0 <= i < |s| ==> r[i] == f(s[i])
    decreases |s|
  {
    if s == [] then [] else Map(s[..|s| - 1], f) + [f(s[|s| - 1])]
  }

  /** `Array.prototype.filter`. */
  function Filter<T>(s: seq<T>, p: T -> bool): (r: seq<T>)
    ensures |r| <= |s|
    decreases |s|
  {
    if s == [] then []
    else Filter(s[..|s| - 1], p) + (if p(s[|s| - 1]) then [s[|s| - 1]] else [])
  }

  /** The filtered sequence holds exactly the elements of `s` that pass. */
  lemma {:induction false} FilterMembers<T>(s: seq<T>, p: T -> bool)
    ensures forall i :: 0 <= i < |Filter(s, p)| ==> Filter(s, p)[i] in s && p(Filter(s, p)[i])
    ensures forall i :: 0 <= i < |s| && p(s[i]) ==> s[i] in Filter(s, p)
    decreases |s|
  {
    if s != [] {
      FilterMembers(s[..|s| - 1], p);
      var r := Filter(s, p);
      var fi := Filter(s[..|s| - 1], p);
      forall i | 0 <= i < |r| ensures r[i] in s && p(r[i]) {
        if i < |fi| {
          assert r[i] == fi[i];
        }
      }
      forall i | 0 <= i < |s| && p(s[i]) ensures s[i] in r {
        if i < |s| - 1 {
          assert s[i] == s[..|s| - 1][i];
        }
      }
    }
  }

  /** Nothing passes, so nothing is kept. */
  lemma {:induction false} FilterNone<T>(s: seq<T>, p: T -> bool)
    requires forall i :: 0 <= i < |s| ==> !p(s[i])
    ensures Filter(s, p) == []
    decreases |s|
  {
    if s != [] {
      FilterNone(s[..|s| - 1], p);
    }
  }

  lemma {:induction false} FilterAppend<T>(a: seq<T>, b: seq<T>, p: T -> bool)
    ensures Filter(a + b, p) == Filter(a, p) + Filter(b, p)
    decreases |b|
  {
    if b == [] {
      assert a + b == a;
    } else {
      assert (a + b)[..|a + b| - 1] == a + b[..|b| - 1];
      FilterAppend(a, b[..|b| - 1], p);
    }
  }

  lemma FilterHead<T>(s: seq<T>, p: T -> bool)
    requires |s| > 0
    ensures Filter(s, p) == (if p(s[0]) then [s[0]] else []) + Filter(s[1..], p)
  {
    assert s == [s[0]] + s[1..];
    FilterAppend([s[0]], s[1..], p);
    assert Filter([s[0]], p) == Filter([s[0]][..0], p) + (if p(s[0]) then [s[0]] else []);
    assert [s[0]][..0] == [];
  }

  lemma {:induction false} FilterIdempotent<T>(s: seq<T>, p: T -> bool)
    ensures Filter(Filter(s, p), p) == Filter(s, p)
    decreases |s|
  {
    if s != [] {
      var init, last := s[..|s| - 1], s[|s| - 1];
      FilterIdempotent(init, p);
      FilterAppend(Filter(init, p), if p(last) then [last] else [], p);
      assert [last][..0] == [];
    }
  }

  /** Filtering keeps every element that passes and drops every other: the
      kept elements together with the dropped ones number as many as `s`. */
  lemma {:induction false} FilterSplitCount<T>(s: seq<T>, p: T -> bool, q: T -> bool)
    requires forall x :: q(x) == !p(x)
    ensures |Filter(s, p)| + |Filter(s, q)| == |s|
    decreases |s|
  {
    if s != [] {
      FilterSplitCount(s[..|s| - 1], p, q);
    }
  }

  /** Filtering a sorted sequence keeps it sorted. */
  lemma {:induction false} FilterOrder<T>(s: seq<T>, p: T -> bool, lt: (T, T) -> bool)
    requires Sorted(s, lt)
    ensures Sorted(Filter(s, p), lt)
    decreases |s|
  {
    if s != [] {
      var init := s[..|s| - 1];
      assert Sorted(init, lt);
      FilterOrder(init, p, lt);
      var fi := Filter(init, p);
      FilterMembers(init, p);
      if p(s[|s| - 1]) {
        forall i | 0 <= i < |fi| ensures !lt(s[|s| - 1], fi[i]) {
          assert fi[i] in init;
          var k :| 0 <= k < |init| && init[k] == fi[i];
          assert s[k] == fi[i];
        }
      }
    }
  }

  /** The elements of `s`, each kept at its first occurrence: the iteration
      order of `new Set(s)`. */
  function Distinct<T(==)>(s: seq<T>): (r: seq<T>)
    ensures forall i :: 0 <= i < |r| ==> r[i] in s
    ensures forall i :: 0 <= i < |s| ==> s[i] in r
    ensures NoDuplicates(r)
    decreases |s|
  {
    if s == [] then []
    else
      var d := Distinct(s[..|s| - 1]);
      if s[|s| - 1] in d then d else d + [s[|s| - 1]]
  }

  predicate NoDuplicates<T(==)>(s: seq<T>) {
    forall i, j :: 0 <= i < j < |s| ==> s[i] != s[j]
  }

  /** Without duplicates, every element occurs once. */
  lemma {:induction false} NoDuplicatesCount<T>(s: seq<T>, x: T)
    requires NoDuplicates(s)
    ensures multiset(s)[x] <= 1
    decreases |s|
  {
    if s != [] {
      var init := s[..|s| - 1];
      assert s == init + [s[|s| - 1]];
      NoDuplicatesCount(init, x);
      if x == s[|s| - 1] {
        assert x !in init;
      }
    }
  }

  /** An element at two positions occurs at least twice. */
  lemma RepeatedCount<T>(s: seq<T>, i: int, j: int)
    requires 0 <= i < j < |s| && s[i] == s[j]
    ensures multiset(s)[s[i]] >= 2
  {
    assert s == s[..j] + s[j..];
    assert s[i] in s[..j];
    assert s[j] == s[j..][0];
  }

  /** A permutation of a sequence without duplicates has none either. */
  lemma PermutationNoDuplicates<T>(s: seq<T>, t: seq<T>)
    requires NoDuplicates(s) && multiset(s) == multiset(t)
    ensures NoDuplicates(t)
  {
    forall i, j | 0 <= i < j < |t| ensures t[i] != t[j] {
      if t[i] == t[j] {
        RepeatedCount(t, i, j);
        NoDuplicatesCount(s, t[i]);
      }
    }
  }

  /* ---------------- stable sort ---------------- */

  /** `lt` is a strict order on the elements drawn from `s`. */
  ghost predicate StrictOn<T>(s: seq<T>, lt: (T, T) -> bool) {
    && (forall x | x in s :: !lt(x, x))
    && (forall x, y, z | x in s && y in s && z in s :: lt(x, y) && lt(y, z) ==> lt(x, z))
  }

  /** No later element is strictly before an earlier one. */
  ghost predicate Sorted<T>(s: seq<T>, lt: (T, T) -> bool) {
    forall i, j :: 0 <= i < j < |s| ==> !lt(s[j], s[i])
  }

  /** Insert `x` before the first element it is strictly before. */
  function InsertSorted<T>(x: T, s: seq<T>, lt: (T, T) -> bool): (r: seq<T>)
    ensures multiset(r) == multiset(s) + multiset{x}
    ensures |r| == |s| + 1
    decreases |s|
  {
    if s == [] then [x]
    else if lt(x, s[0]) then [x] + s
    else
      assert s == [s[0]] + s[1..];
      [s[0]] + InsertSorted(x, s[1..], lt)
  }

  /** Insertion sort. Each element is inserted after every element already
      placed that it is not strictly before, so equal elements keep their
      original order, as `Array.prototype.sort` guarantees. */
  function SortBy<T>(s: seq<T>, lt: (T, T) -> bool): (r: seq<T>)
    ensures multiset(r) == multiset(s)
    ensures |r| == |s|
    decreases |s|
  {
    if s == [] then []
    else
      assert s == s[..|s| - 1] + [s[|s| - 1]];
      InsertSorted(s[|s| - 1], SortBy(s[..|s| - 1], lt), lt)
  }

  lemma {:induction false} InsertSortedKeepsOrder<T>(x: T, s: seq<T>, lt: (T, T) -> bool, all: seq<T>)
    requires Sorted(s, lt)
    requires StrictOn(all, lt)
    requires x in all && forall y | y in s :: y in all
    ensures Sorted(InsertSorted(x, s, lt), lt)
    decreases |s|
  {
    if s != [] && !lt(x, s[0]) {
      var t := s[1..];
      assert Sorted(t, lt);
      InsertSortedKeepsOrder(x, t, lt, all);
      var r := InsertSorted(x, t, lt);
      assert multiset(r) == multiset(t) + multiset{x};
      forall i | 0 <= i < |r| ensures !lt(r[i], s[0]) {
        assert r[i] in multiset(r);
        if r[i] != x {
          assert r[i] in multiset(t);
          assert r[i] in t;
        }
      }
    } else if s != [] {
      forall j | 0 <= j < |s| ensures !lt(s[j], x) {
        assert s[j] in all && s[0] in all;
      }
    }
  }

  lemma {:induction false} SortByOrders<T>(s: seq<T>, lt: (T, T) -> bool)
    requires StrictOn(s, lt)
    ensures Sorted(SortBy(s, lt), lt)
    decreases |s|
  {
    if s != [] {
      var init := s[..|s| - 1];
      assert StrictOn(init, lt) by {
        forall x | x in init ensures x in s { }
      }
      SortByOrders(init, lt);
      var sorted := SortBy(init, lt);
      forall y | y in sorted ensures y in s {
        assert y in multiset(sorted);
        assert y in init;
      }
      InsertSortedKeepsOrder(s[|s| - 1], sorted, lt, s);
    }
  }

  lemma {:induction false} InsertSortedSum<T>(x: T, s: seq<T>, lt: (T, T) -> bool, f: T -> real)
    ensures Sum(InsertSorted(x, s, lt), f) == Sum(s, f) + f(x)
    decreases |s|
  {
    if s == [] {
      assert Sum([x], f) == Sum([x][..0], f) + f(x);
      assert [x][..0] == [];
    } else if lt(x, s[0]) {
      SumCons(x, s, f);
    } else {
      InsertSortedSum(x, s[1..], lt, f);
      SumCons(s[0], InsertSorted(x, s[1..], lt), f);
      SumCons(s[0], s[1..], f);
      assert s == [s[0]] + s[1..];
    }
  }

  /** Sorting does not change a sum. */
  lemma {:induction false} SortBySum<T>(s: seq<T>, lt: (T, T) -> bool, f: T -> real)
    ensures Sum(SortBy(s, lt), f) == Sum(s, f)
    decreases |s|
  {
    if s != [] {
      SortBySum(s[..|s| - 1], lt, f);
      InsertSortedSum(s[|s| - 1], SortBy(s[..|s| - 1], lt), lt, f);
    }
  }

  /** Elements with the same key as one another keep their relative order
      when `x` is inserted: `x` lands after all of them. */
  lemma {:induction false} InsertSortedStable<T>(x: T, s: seq<T>, key: T -> int, lt: (T, T) -> bool,
                                                 p: T -> bool, k: int)
    requires forall a, b :: lt(a, b) == (key(a) < key(b))
    requires forall y :: p(y) == (key(y) == k)
    requires forall i, j :: 0 <= i < j < |s| ==> key(s[i]) <= key(s[j])
    ensures Filter(InsertSorted(x, s, lt), p) == Filter(s, p) + (if p(x) then [x] else [])
    decreases |s|
  {
    if s == [] {
      assert [x] == [] + [x];
    } else if lt(x, s[0]) {
      if p(x) {
        forall i | 0 <= i < |s| ensures !p(s[i]) {
          if i > 0 {
            assert key(s[0]) <= key(s[i]);
          }
        }
      }
      FilterFrontStable(x, s, p);
    } else {
      var tail := s[1..];
      var rest := InsertSorted(x, tail, lt);
      assert InsertSorted(x, s, lt) == [s[0]] + rest;
      assert forall i, j :: 0 <= i < j < |tail| ==> key(tail[i]) <= key(tail[j]) by {
        forall i, j | 0 <= i < j < |tail| ensures key(tail[i]) <= key(tail[j]) {
          assert tail[i] == s[i + 1] && tail[j] == s[j + 1];
        }
      }
      InsertSortedStable(x, tail, key, lt, p, k);
      FilterConsShift(s[0], rest, tail, if p(x) then [x] else [], p);
      assert s == [s[0]] + tail;
    }
  }

  /** Putting `x` in front changes nothing when no element of `s` shares
      its group. */
  lemma FilterFrontStable<T>(x: T, s: seq<T>, p: T -> bool)
    requires p(x) ==> forall i :: 0 <= i < |s| ==> !p(s[i])
    ensures Filter([x] + s, p) == Filter(s, p) + (if p(x) then [x] else [])
  {
    FilterAppend([x], s, p);
    assert [x][..0] == [];
    if p(x) {
      FilterNone(s, p);
      assert [x] + [] == [] + [x];
    } else {
      assert [] + Filter(s, p) == Filter(s, p) + [];
    }
  }

  /** Prepending the same element on both sides keeps a filtered equation
      of the form `Filter(u) == Filter(v) + extra`. */
  lemma FilterConsShift<T>(a: T, u: seq<T>, v: seq<T>, extra: seq<T>, p: T -> bool)
    requires Filter(u, p) == Filter(v, p) + extra
    ensures Filter([a] + u, p) == Filter([a] + v, p) + extra
  {
    FilterAppend([a], u, p);
    FilterAppend([a], v, p);
    ConcatAssoc(Filter([a], p), Filter(v, p), extra);
  }

  lemma ConcatAssoc<T>(a: seq<T>, b: seq<T>, c: seq<T>)
    ensures a + (b + c) == (a + b) + c
  {
  }

  /** Sorting by an integer key is stable: for every key value, the
      elements with that key appear in the sorted sequence in the order they
      had in the input. */
  lemma {:induction false} SortByStable<T>(s: seq<T>, key: T -> int, lt: (T, T) -> bool,
                                           p: T -> bool, k: int)
    requires forall a, b :: lt(a, b) == (key(a) < key(b))
    requires forall y :: p(y) == (key(y) == k)
    ensures Filter(SortBy(s, lt), p) == Filter(s, p)
    decreases |s|
  {
    if s != [] {
      var init := s[..|s| - 1];
      SortByStable(init, key, lt, p, k);
      assert StrictOn(init, lt);
      SortByOrders(init, lt);
      var sorted := SortBy(init, lt);
      assert forall i, j :: 0 <= i < j < |sorted| ==> key(sorted[i]) <= key(sorted[j]) by {
        forall i, j | 0 <= i < j < |sorted| ensures key(sorted[i]) <= key(sorted[j]) {
          assert sorted[i] in multiset(init) && sorted[j] in multiset(init);
          assert !lt(sorted[j], sorted[i]);
        }
      }
      InsertSortedStable(s[|s| - 1], sorted, key, lt, p, k);
    }
  }

  /* ---------------- per-key sums ---------------- */

  /** Sum of `w` over the elements of `s` whose `key` is `k`: what a Map
      keyed by `key` accumulates for `k`. */
  function SumWhere<T, K(==)>(s: seq<T>, key: T -> K, k: K, w: T -> real): real
    decreases |s|
  {
    if s == [] then 0.0
    else SumWhere(s[..|s| - 1], key, k, w) + (if key(s[|s| - 1]) == k then w(s[|s| - 1]) else 0.0)
  }

  /** Number of elements of `s` whose `key` is `k`. */
  function CountWhere<T, K(==)>(s: seq<T>, key: T -> K, k: K): nat
    decreases |s|
  {
    if s == [] then 0
    else CountWhere(s[..|s| - 1], key, k) + (if key(s[|s| - 1]) == k then 1 else 0)
  }

  /** The per-key sums of the keys `ks`, added up. */
  function SumOverKeys<T, K(==)>(ks: seq<K>, s: seq<T>, key: T -> K, w: T -> real): real
    decreases |ks|
  {
    if ks == [] then 0.0 else SumOverKeys(ks[..|ks| - 1], s, key, w) + SumWhere(s, key, ks[|ks| - 1], w)
  }

  lemma SumWhereSnoc<T, K>(s: seq<T>, x: T, key: T -> K, k: K, w: T -> real)
    ensures SumWhere(s + [x], key, k, w) == SumWhere(s, key, k, w) + (if key(x) == k then w(x) else 0.0)
    ensures CountWhere(s + [x], key, k) == CountWhere(s, key, k) + (if key(x) == k then 1 else 0)
  {
    assert (s + [x])[..|s + [x]| - 1] == s;
  }

  lemma {:induction false} SumOverKeysEmpty<T, K>(ks: seq<K>, key: T -> K, w: T -> real)
    ensures SumOverKeys(ks, [], key, w) == 0.0
    decreases |ks|
  {
    if ks != [] {
      SumOverKeysEmpty(ks[..|ks| - 1], key, w);
    }
  }

  /** One more element adds its weight to exactly one of distinct keys. */
  lemma {:induction false} SumOverKeysSnoc<T, K>(ks: seq<K>, s: seq<T>, x: T, key: T -> K, w: T -> real)
    requires NoDuplicates(ks)
    ensures SumOverKeys(ks, s + [x], key, w) == SumOverKeys(ks, s, key, w) + (if key(x) in ks then w(x) else 0.0)
    decreases |ks|
  {
    if ks != [] {
      var init, last := ks[..|ks| - 1], ks[|ks| - 1];
      assert NoDuplicates(init);
      assert last !in init;
      assert ks == init + [last];
      SumOverKeysSnoc(init, s, x, key, w);
      SumWhereSnoc(s, x, key, last, w);
    }
  }

  /** Distinct keys that cover every element split the total of `w`:
      adding up the per-key sums gives the sum over all elements. */
  lemma {:induction false} SumOverKeysPartition<T, K>(ks: seq<K>, s: seq<T>, key: T -> K, w: T -> real)
    requires NoDuplicates(ks)
    requires forall i :: 0 <= i < |s| ==> key(s[i]) in ks
    ensures SumOverKeys(ks, s, key, w) == Sum(s, w)
    decreases |s|
  {
    if s == [] {
      SumOverKeysEmpty(ks, key, w);
    } else {
      var init, last := s[..|s| - 1], s[|s| - 1];
      assert s == init + [last];
      SumOverKeysPartition(ks, init, key, w);
      SumOverKeysSnoc(ks, init, last, key, w);
    }
  }

  /** A count is the sum of a weight that is 1 everywhere. */
  lemma {:induction false} CountIsSum<T, K>(s: seq<T>, key: T -> K, k: K, one: T -> real)
    requires forall x :: one(x) == 1.0
    ensures CountWhere(s, key, k) as real == SumWhere(s, key, k, one)
    decreases |s|
  {
    if s != [] {
      CountIsSum(s[..|s| - 1], key, k, one);
    }
  }

  /** Summing a weight that is 1 everywhere counts the elements. */
  lemma {:induction false} SumOfOnes<T>(s: seq<T>, one: T -> real)
    requires forall x :: one(x) == 1.0
    ensures Sum(s, one) == |s| as real
    decreases |s|
  {
    if s != [] {
      SumOfOnes(s[..|s| - 1], one);
    }
  }

  /** No element has key `k`: nothing is summed and nothing counted. */
  lemma {:induction false} SumWhereNone<T, K>(s: seq<T>, key: T -> K, k: K, w: T -> real)
    requires forall i :: 0 <= i < |s| ==> key(s[i]) != k
    ensures SumWhere(s, key, k, w) == 0.0 && CountWhere(s, key, k) == 0
    decreases |s|
  {
    if s != [] {
      SumWhereNone(s[..|s| - 1], key, k, w);
    }
  }

  /** Non-negative terms, one of them positive, have a positive sum. */
  lemma {:induction false} SumPositive<T>(s: seq<T>, f: T -> real, j: int)
    requires forall i :: 0 <= i < |s| ==> f(s[i]) >= 0.0
    requires 0 <= j < |s| && f(s[j]) > 0.0
    ensures Sum(s, f) > 0.0
    decreases |s|
  {
    var init := s[..|s| - 1];
    if j < |s| - 1 {
      assert init[j] == s[j];
      SumPositive(init, f, j);
    } else {
      SumNonNegative(init, f);
    }
  }

  /** Terms that are all zero sum to zero. */
  lemma {:induction false} SumZero<T>(s: seq<T>, f: T -> real)
    requires forall i :: 0 <= i < |s| ==> f(s[i]) == 0.0
    ensures Sum(s, f) == 0.0
    decreases |s|
  {
    if s != [] {
      SumZero(s[..|s| - 1], f);
    }
  }
}
