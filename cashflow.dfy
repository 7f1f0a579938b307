/** `buildCashflowMetrics` of `kpi_bar_drawer.js`: every allocation's cost
    and baseline cost spread evenly over its days, collected into day,
    week or month buckets, and listed in key order. Calendar fields are
    read on the UTC calendar. */
module Cashflow {
  import opened Common
  import opened Decimal
  import opened Calendar
  import opened Plan
  import opened ResDrawer

  /** The `periodType` argument: 'day', 'week', anything else is a month. */
  datatype Period = ByDay | ByWeek | ByMonth

  /* ---------------- days of an allocation ---------------- */

  /** `a.end ? new Date(a.end) : start`: a box ends where it starts. */
  function SpreadEnd(a: Allocation): int
  {
    if a.end.Some? then a.end.value else a.start
  }

  /** `Math.ceil((end - start) / 86400000) + 1`. */
  function SpreadDays(a: Allocation): int
  {
    Ceil((SpreadEnd(a) - a.start) as real / DayMs as real) + 1
  }

  /** A box spreads over one day; an allocation gets at least one day
      exactly when its end is less than a whole day before its start, and
      otherwise the loop never runs. */
  lemma SpreadDaysFacts(a: Allocation)
    ensures IsBox(a) ==> SpreadDays(a) == 1
    ensures SpreadDays(a) >= 1 <==> SpreadEnd(a) - a.start > -DayMs
    ensures SpreadEnd(a) >= a.start ==> SpreadDays(a) >= 1
  {
    var x := (SpreadEnd(a) - a.start) as real / DayMs as real;
    if IsBox(a) {
      CeilUnique(x, 0);
    }
    if SpreadEnd(a) - a.start > -DayMs {
      assert x > -1.0;
    } else {
      assert x <= -1.0;
    }
  }

  /** `amount / days`: one day's part of an amount spread over `days`. */
  function DailyPart(amount: real, days: int): real
    requires days >= 1
  {
    amount / days as real
  }

  lemma DailyPartTimes(amount: real, days: int)
    requires days >= 1
    ensures days as real * DailyPart(amount, days) == amount
  {
  }

  /* ---------------- period keys ---------------- */

  /** The `'month'` key `${getFullYear()}-${MM}`. */
  function MonthKey(t: int): string
  {
    var d := Civil(t / DayMs);
    IntString(d.year) + "-" + PadStart(IntString(d.month), 2, '0')
  }

  /** The `'week'` key as the source builds it: the calendar year of the
      day with the ISO week number of the day. */
  function WeekKeyAsWritten(t: int): string
  {
    var n := t / DayMs;
    IntString(Civil(n).year) + "-W" + IntString(WeekNumber(n))
  }

  /** The `'week'` key as evidently intended: the year the ISO week
      belongs to with the ISO week number. The period types use the key as
      written; this one is the corrected key of the week-key finding. */
  function WeekKey(t: int): string
  {
    var n := t / DayMs;
    IntString(IsoWeekYear(n)) + "-W" + IntString(IsoWeek(n))
  }

  /** The key function of a period type, as `buildCashflowMetrics`
      builds it. */
  function KeyOf(period: Period): int -> string
  {
    match period
    case ByDay => DayKey
    case ByWeek => WeekKeyAsWritten
    case ByMonth => MonthKey
  }

  /** In `a + sep + b` with digits only in `a` and a non-digit first in
      `sep`, the first non-digit sits at `|a|`. */
  lemma FirstNonDigit(a: string, b: string, sep: string)
    requires AllDigits(a) && |sep| >= 1 && !IsDigit(sep[0])
    ensures forall i :: 0 <= i < |a| ==> IsDigit((a + sep + b)[i])
    ensures !IsDigit((a + sep + b)[|a|])
  {
    assert (a + sep + b)[|a|] == sep[0];
  }

  /** Two strings cut at a separator that is not a digit, with digits
      only before it, are equal exactly when both their parts are. */
  lemma DigitsSplit(a: string, b: string, c: string, d: string, sep: string)
    requires AllDigits(a) && AllDigits(c) && |sep| >= 1 && !IsDigit(sep[0])
    requires a + sep + b == c + sep + d
    ensures a == c && b == d
  {
    var x := a + sep + b;
    FirstNonDigit(a, b, sep);
    FirstNonDigit(c, d, sep);
    assert |a| == |c|;
    assert a == x[..|a|];
    assert c == x[..|c|];
    assert b == x[|a| + |sep|..];
    assert d == x[|c| + |sep|..];
  }

  /** A Monday is week 1's Monday plus whole weeks. */
  lemma MondayFromWeek(n: int)
    ensures MondayOf(n) == Week1Monday(IsoWeekYear(n)) + 7 * (IsoWeek(n) - 1)
  {
    var y := IsoWeekYear(n);
    MondayIsMonday(n);
    MondayIsMonday(DaysBeforeYear(y) + 3);
    var m, w1 := MondayOf(n), Week1Monday(y);
    assert Weekday(w1) == 1;
    SameWeekday(m, w1);
    var q := (m - w1) / 7;
    assert m - w1 == 7 * q + (m - w1) % 7;
    assert IsoWeek(n) == q + 1;
  }

  /** Days with the same Monday have the same week-year and week. */
  lemma SameMondaySameWeek(n1: int, n2: int)
    requires MondayOf(n1) == MondayOf(n2)
    ensures IsoWeekYear(n1) == IsoWeekYear(n2) && IsoWeek(n1) == IsoWeek(n2)
  {
  }

  /** The corrected key of midnight of day `n`. */
  lemma WeekKeyOfDay(n: int)
    ensures WeekKey(n * DayMs) == IntString(IsoWeekYear(n)) + "-W" + IntString(IsoWeek(n))
  {
    MidnightDay(n);
  }

  /** Equal corrected keys have equal week-years and equal weeks. */
  lemma WeekKeyParts(n1: int, n2: int)
    requires IsoWeekYear(n1) >= 0 && IsoWeekYear(n2) >= 0
    requires WeekKey(n1 * DayMs) == WeekKey(n2 * DayMs)
    ensures IsoWeekYear(n1) == IsoWeekYear(n2) && IsoWeek(n1) == IsoWeek(n2)
  {
    WeekKeyOfDay(n1);
    WeekKeyOfDay(n2);
    WeekNumberIsIsoWeek(n1);
    WeekNumberIsIsoWeek(n2);
    var y1, y2 := IntString(IsoWeekYear(n1)), IntString(IsoWeekYear(n2));
    var w1, w2 := IntString(IsoWeek(n1)), IntString(IsoWeek(n2));
    assert y1 + "-W" + w1 == y2 + "-W" + w2;
    DigitsSplit(y1, w1, y2, w2, "-W");
    IntStringInjective(IsoWeekYear(n1), IsoWeekYear(n2));
    IntStringInjective(IsoWeek(n1), IsoWeek(n2));
  }

  /** The corrected week key names the ISO week: two days share it exactly
      when they fall in the same Monday-to-Sunday week. */
  lemma WeekKeySameWeek(n1: int, n2: int)
    requires IsoWeekYear(n1) >= 0 && IsoWeekYear(n2) >= 0
    ensures WeekKey(n1 * DayMs) == WeekKey(n2 * DayMs) <==> MondayOf(n1) == MondayOf(n2)
  {
    if WeekKey(n1 * DayMs) == WeekKey(n2 * DayMs) {
      WeekKeyParts(n1, n2);
      MondayFromWeek(n1);
      MondayFromWeek(n2);
    }
    if MondayOf(n1) == MondayOf(n2) {
      SameMondaySameWeek(n1, n2);
      WeekKeyOfDay(n1);
      WeekKeyOfDay(n2);
    }
  }

  /** The month key names the calendar month. */
  lemma MonthKeySameMonth(t1: int, t2: int)
    requires Civil(t1 / DayMs).year >= 0 && Civil(t2 / DayMs).year >= 0
    ensures MonthKey(t1) == MonthKey(t2) <==>
              Civil(t1 / DayMs).year == Civil(t2 / DayMs).year && Civil(t1 / DayMs).month == Civil(t2 / DayMs).month
  {
    var d1, d2 := Civil(t1 / DayMs), Civil(t2 / DayMs);
    assert Pow10(2) == 100;
    PadDigits(d1.month, 2);
    PadDigits(d2.month, 2);
    if MonthKey(t1) == MonthKey(t2) {
      var m1, m2 := Fixed(d1.month, 2), Fixed(d2.month, 2);
      assert IntString(d1.year) + "-" + m1 == IntString(d2.year) + "-" + m2;
      DigitsSplit(IntString(d1.year), m1, IntString(d2.year), m2, "-");
      IntStringInjective(d1.year, d2.year);
      FixedInjective(d1.month, d2.month, 2);
    }
  }

  lemma CivilYear(n: int, y: int)
    requires DaysBeforeYear(y) <= n < DaysBeforeYear(y + 1)
    ensures Civil(n).year == y
  {
    YearOfUnique(n, y);
  }

  /** A Monday whose Thursday is among the first seven days of `y` starts
      week 1 of `y`. */
  lemma MondayOfWeek1(n: int, y: int)
    requires MondayOf(n) == n
    requires DaysBeforeYear(y) <= n + 3 < DaysBeforeYear(y) + 7
    ensures IsoWeekYear(n) == y && WeekNumber(n) == 1
  {
    DaysBeforeYearStep(y);
    YearOfUnique(n + 3, y);
    WeekNumberValue(n);
  }

  lemma Year2024Bounds(n: int)
    requires n == 19723
    ensures DaysBeforeYear(2024) == n && DaysBeforeYear(2025) == n + 366
  {
    DaysBeforeYearStep(2024);
  }

  /** Days 19723 (2024-01-01) and 20087 (2024-12-30) are Mondays of 2024. */
  lemma Mondays2024(n1: int, n2: int)
    requires n1 == 19723 && n2 == 20087
    ensures MondayOf(n1) == n1 && MondayOf(n2) == n2
  {
    assert Weekday(n1) == 1 by { assert n1 + 4 == 7 * 2818 + 1; }
    assert Weekday(n2) == 1 by { assert n2 + 4 == 7 * 2870 + 1; }
  }

  lemma Civil2024(n1: int, n2: int)
    requires n1 == 19723 && n2 == 20087
    ensures Civil(n1).year == 2024 && Civil(n2).year == 2024
  {
    Year2024Bounds(n1);
    CivilYear(n1, 2024);
    CivilYear(n2, 2024);
  }

  /** Day 19723 starts ISO week 1 of 2024. */
  lemma Week1Of2024(n1: int)
    requires n1 == 19723
    ensures IsoWeekYear(n1) == 2024 && WeekNumber(n1) == 1
  {
    Year2024Bounds(n1);
    Mondays2024(n1, 20087);
    MondayOfWeek1(n1, 2024);
  }

  /** Day 20087 starts ISO week 1 of 2025. */
  lemma Week1Of2025(n2: int)
    requires n2 == 20087
    ensures IsoWeekYear(n2) == 2025 && WeekNumber(n2) == 1
  {
    Year2024Bounds(19723);
    Mondays2024(19723, n2);
    MondayOfWeek1(n2, 2025);
  }

  /** A day of year `y` whose ISO week is week 1 of `y + 1` gets the same
      key from the source as a day in week 1 of `y` itself, though their
      weeks differ; the corrected key tells them apart. Days 19723
      (2024-01-01) and 20087 (2024-12-30) are such a pair: both keyed
      "2024-W1". */
  lemma WeekKeyCollides(n1: int, n2: int)
    requires Civil(n1).year == Civil(n2).year == IsoWeekYear(n1) >= 0
    requires IsoWeekYear(n2) == IsoWeekYear(n1) + 1
    requires WeekNumber(n1) == 1 && WeekNumber(n2) == 1
    ensures WeekKeyAsWritten(n1 * DayMs) == WeekKeyAsWritten(n2 * DayMs)
    ensures MondayOf(n1) != MondayOf(n2)
    ensures WeekKey(n1 * DayMs) != WeekKey(n2 * DayMs)
  {
    MidnightDay(n1);
    MidnightDay(n2);
    WeekKeySameWeek(n1, n2);
  }

  /** 2024-01-01 and 2024-12-30 both get the source's key "2024-W1",
      though the second lies in week 1 of 2025. */
  lemma WeekKeyCollision2024(n1: int, n2: int)
    requires n1 == 19723 && n2 == 20087
    ensures WeekKeyAsWritten(n1 * DayMs) == WeekKeyAsWritten(n2 * DayMs)
    ensures MondayOf(n1) != MondayOf(n2)
    ensures WeekKey(n1 * DayMs) != WeekKey(n2 * DayMs)
  {
    Civil2024(n1, n2);
    Week1Of2024(n1);
    Week1Of2025(n2);
    WeekKeyCollides(n1, n2);
  }

  /* ---------------- day slices ---------------- */

  /** What one pass of the day loop adds to the bucket of `key`. */
  datatype Slice = Slice(key: string, baseline: real, current: real)

  function SliceKey(s: Slice): string { s.key }
  function SliceBaseline(s: Slice): real { s.baseline }
  function SliceCurrent(s: Slice): real { s.current }

  /** The key of day `d` of allocation `a`: the key of the instant
      `start + d * 86400000`. */
  function KeyAt(a: Allocation, kf: int -> string, d: int): string
  {
    kf(a.start + d * DayMs)
  }

  /** Day `d` of allocation `a`: its key, and a `days`-th of the baseline
      cost and of the cost. */
  function DaySlice(a: Allocation, kf: int -> string, d: int): Slice
    requires SpreadDays(a) >= 1
  {
    var days := SpreadDays(a);
    Slice(KeyAt(a, kf, d), DailyPart(BaselineCost(a), days), DailyPart(a.cost, days))
  }

  /** The first `n` days of `a`. */
  function DaySlices(a: Allocation, kf: int -> string, n: nat): (r: seq<Slice>)
    requires n <= SpreadDays(a)
    ensures |r| == n
    ensures forall d :: 0 <= d < n ==> r[d] == DaySlice(a, kf, d)
  {
    if n == 0 then [] else DaySlices(a, kf, n - 1) + [DaySlice(a, kf, n - 1)]
  }

  /** All days of `a`; none when `days` is below 1. */
  function AllocSlices(a: Allocation, kf: int -> string): seq<Slice>
  {
    if SpreadDays(a) >= 1 then DaySlices(a, kf, SpreadDays(a)) else []
  }

  /** The days of every allocation, in plan order. */
  function Slices(allocs: seq<Allocation>, kf: int -> string): seq<Slice>
  {
    if allocs == [] then []
    else Slices(allocs[..|allocs| - 1], kf) + AllocSlices(allocs[|allocs| - 1], kf)
  }

  /* ---------------- what the slices add up to ---------------- */

  /** `n` copies of `x`, added up. */
  function Times(n: nat, x: real): real
  {
    if n == 0 then 0.0 else Times(n - 1, x) + x
  }

  lemma {:induction false} TimesIsProduct(n: nat, x: real)
    ensures Times(n, x) == n as real * x
  {
    if n > 0 {
      TimesIsProduct(n - 1, x);
    }
  }

  /** The `days` equal parts of an amount add back up to the amount. */
  lemma DailyPartsAddUp(amount: real, days: int)
    requires days >= 1
    ensures Times(days, DailyPart(amount, days)) == amount
  {
    TimesIsProduct(days, DailyPart(amount, days));
  }

  /** What an allocation adds to the totals: all of its cost, unless it has
      no days at all. */
  function SpreadCost(a: Allocation): real { if SpreadDays(a) >= 1 then a.cost else 0.0 }

  function SpreadBaseline(a: Allocation): real { if SpreadDays(a) >= 1 then BaselineCost(a) else 0.0 }

  lemma {:induction false} DaySlicesCurrent(a: Allocation, kf: int -> string, n: nat)
    requires 1 <= n <= SpreadDays(a)
    ensures Sum(DaySlices(a, kf, n), SliceCurrent) == Times(n, DailyPart(a.cost, SpreadDays(a)))
    decreases n
  {
    if n > 1 {
      DaySlicesCurrent(a, kf, n - 1);
    }
  }

  lemma {:induction false} DaySlicesBaseline(a: Allocation, kf: int -> string, n: nat)
    requires 1 <= n <= SpreadDays(a)
    ensures Sum(DaySlices(a, kf, n), SliceBaseline) == Times(n, DailyPart(BaselineCost(a), SpreadDays(a)))
    decreases n
  {
    if n > 1 {
      DaySlicesBaseline(a, kf, n - 1);
    }
  }

  /** The day parts of an allocation add back up to its amounts. */
  lemma AllocSlicesSum(a: Allocation, kf: int -> string)
    ensures Sum(AllocSlices(a, kf), SliceCurrent) == SpreadCost(a)
    ensures Sum(AllocSlices(a, kf), SliceBaseline) == SpreadBaseline(a)
  {
    var days := SpreadDays(a);
    if days >= 1 {
      DaySlicesCurrent(a, kf, days);
      DaySlicesBaseline(a, kf, days);
      DailyPartsAddUp(a.cost, days);
      DailyPartsAddUp(BaselineCost(a), days);
    }
  }

  lemma {:induction false} SlicesSum(allocs: seq<Allocation>, kf: int -> string)
    ensures Sum(Slices(allocs, kf), SliceCurrent) == Sum(allocs, SpreadCost)
    ensures Sum(Slices(allocs, kf), SliceBaseline) == Sum(allocs, SpreadBaseline)
    decreases |allocs|
  {
    if allocs != [] {
      var init, last := allocs[..|allocs| - 1], allocs[|allocs| - 1];
      SlicesSum(init, kf);
      AllocSlicesSum(last, kf);
      SumAppend(Slices(init, kf), AllocSlices(last, kf), SliceCurrent);
      SumAppend(Slices(init, kf), AllocSlices(last, kf), SliceBaseline);
    }
  }

  /* ---------------- which keys occur ---------------- */

  function SliceKeys(slices: seq<Slice>): (ks: seq<string>)
    ensures |ks| == |slices|
    ensures forall i :: 0 <= i < |slices| ==> ks[i] == slices[i].key
  {
    if slices == [] then [] else SliceKeys(slices[..|slices| - 1]) + [slices[|slices| - 1].key]
  }

  lemma SliceKeysAppend(s0: seq<Slice>, s1: seq<Slice>)
    ensures SliceKeys(s0 + s1) == SliceKeys(s0) + SliceKeys(s1)
  {
    var l, r := SliceKeys(s0 + s1), SliceKeys(s0) + SliceKeys(s1);
    assert |l| == |r|;
    forall i | 0 <= i < |l| ensures l[i] == r[i] {
      if i < |s0| {
        assert (s0 + s1)[i] == s0[i];
      } else {
        assert (s0 + s1)[i] == s1[i - |s0|];
      }
    }
  }

  /** Some day of allocation `a` has key `x`. */
  ghost predicate AllocKeyed(a: Allocation, kf: int -> string, x: string)
  {
    exists d :: 0 <= d < SpreadDays(a) && KeyAt(a, kf, d) == x
  }

  /** Some day of some allocation has key `x`. */
  ghost predicate DayKeyed(allocs: seq<Allocation>, kf: int -> string, x: string)
  {
    exists i :: 0 <= i < |allocs| && AllocKeyed(allocs[i], kf, x)
  }

  lemma AllocKeysSome(a: Allocation, kf: int -> string, x: string)
    requires x in SliceKeys(AllocSlices(a, kf))
    ensures AllocKeyed(a, kf, x)
  {
    var s := AllocSlices(a, kf);
    var j :| 0 <= j < |s| && SliceKeys(s)[j] == x;
    assert s[j] == DaySlice(a, kf, j);
    assert 0 <= j < SpreadDays(a) && KeyAt(a, kf, j) == x;
  }

  lemma AllocKeysDay(a: Allocation, kf: int -> string, x: string)
    requires AllocKeyed(a, kf, x)
    ensures x in SliceKeys(AllocSlices(a, kf))
  {
    var d :| 0 <= d < SpreadDays(a) && KeyAt(a, kf, d) == x;
    var s := AllocSlices(a, kf);
    assert s == DaySlices(a, kf, SpreadDays(a));
    assert s[d] == DaySlice(a, kf, d);
    assert SliceKeys(s)[d] == x;
  }

  /** A slice carries key `x` exactly when some day of some allocation has
      that key. */
  lemma {:induction false} SlicesKeys(allocs: seq<Allocation>, kf: int -> string, x: string)
    ensures x in SliceKeys(Slices(allocs, kf)) <==> DayKeyed(allocs, kf, x)
    decreases |allocs|
  {
    if allocs != [] {
      var init, last := allocs[..|allocs| - 1], allocs[|allocs| - 1];
      SlicesKeys(init, kf, x);
      SliceKeysAppend(Slices(init, kf), AllocSlices(last, kf));
      assert SliceKeys(Slices(allocs, kf)) == SliceKeys(Slices(init, kf)) + SliceKeys(AllocSlices(last, kf));
      if x in SliceKeys(AllocSlices(last, kf)) {
        AllocKeysSome(last, kf, x);
      }
      if AllocKeyed(last, kf, x) {
        AllocKeysDay(last, kf, x);
      }
      DayKeyedSnoc(allocs, kf, x);
    }
  }

  lemma DayKeyedSnoc(allocs: seq<Allocation>, kf: int -> string, x: string)
    requires allocs != []
    ensures DayKeyed(allocs, kf, x) <==>
              DayKeyed(allocs[..|allocs| - 1], kf, x) || AllocKeyed(allocs[|allocs| - 1], kf, x)
  {
    var init := allocs[..|allocs| - 1];
    if DayKeyed(allocs, kf, x) {
      var i :| 0 <= i < |allocs| && AllocKeyed(allocs[i], kf, x);
      if i < |init| {
        assert init[i] == allocs[i];
      }
    }
    if DayKeyed(init, kf, x) {
      var i :| 0 <= i < |init| && AllocKeyed(init[i], kf, x);
      assert allocs[i] == init[i];
    }
  }

  /* ---------------- buckets ---------------- */

  datatype Amount = Amount(baseline: real, current: real)

  /** The `bucketed` object: its keys in insertion order, and their values. */
  datatype Buckets = Buckets(keys: seq<string>, vals: map<string, Amount>)

  /** One pass of the day loop: open the bucket if it is missing, then add
      both parts to it. */
  function Deposit(b: Buckets, s: Slice): Buckets
  {
    if s.key in b.vals then
      var v := b.vals[s.key];
      Buckets(b.keys, b.vals[s.key := Amount(v.baseline + s.baseline, v.current + s.current)])
    else
      Buckets(b.keys + [s.key], b.vals[s.key := Amount(0.0 + s.baseline, 0.0 + s.current)])
  }

  /** The buckets after every slice of `slices`, in order. */
  function Bucket(slices: seq<Slice>): Buckets
  {
    if slices == [] then Buckets([], map[])
    else Deposit(Bucket(slices[..|slices| - 1]), slices[|slices| - 1])
  }

  lemma BucketSnoc(slices: seq<Slice>, s: Slice)
    ensures Bucket(slices + [s]) == Deposit(Bucket(slices), s)
  {
    assert (slices + [s])[..|slices|] == slices;
  }

  /** The buckets of `slices`: one per distinct key, in the order the keys
      first occur, each holding the totals of the slices with its key. */
  ghost predicate BucketsOf(b: Buckets, slices: seq<Slice>)
  {
    && b.keys == Distinct(SliceKeys(slices))
    && (forall k :: k in b.vals <==> k in b.keys)
    && (forall k :: k in b.vals ==>
          b.vals[k] == Amount(SumWhere(slices, SliceKey, k, SliceBaseline), SumWhere(slices, SliceKey, k, SliceCurrent)))
  }

  /** The bucket of the new slice's key after one more slice. */
  lemma BucketValueHit(init: seq<Slice>, x: Slice)
    requires BucketsOf(Bucket(init), init)
    ensures Bucket(init + [x]).vals[x.key] ==
              Amount(SumWhere(init + [x], SliceKey, x.key, SliceBaseline), SumWhere(init + [x], SliceKey, x.key, SliceCurrent))
  {
    BucketSnoc(init, x);
    SumWhereSnoc(init, x, SliceKey, x.key, SliceBaseline);
    SumWhereSnoc(init, x, SliceKey, x.key, SliceCurrent);
    if x.key !in Bucket(init).vals {
      forall i | 0 <= i < |init| ensures init[i].key != x.key {
        assert SliceKeys(init)[i] == init[i].key;
      }
      SumWhereNone(init, SliceKey, x.key, SliceBaseline);
      SumWhereNone(init, SliceKey, x.key, SliceCurrent);
    }
  }

  /** Every other bucket is as it was. */
  lemma BucketValueMiss(init: seq<Slice>, x: Slice, k: string)
    requires BucketsOf(Bucket(init), init)
    requires k in Bucket(init + [x]).vals && k != x.key
    ensures Bucket(init + [x]).vals[k] ==
              Amount(SumWhere(init + [x], SliceKey, k, SliceBaseline), SumWhere(init + [x], SliceKey, k, SliceCurrent))
  {
    BucketSnoc(init, x);
    SumWhereSnoc(init, x, SliceKey, k, SliceBaseline);
    SumWhereSnoc(init, x, SliceKey, k, SliceCurrent);
    assert k in Bucket(init).vals;
  }

  lemma {:induction false} BucketIsBuckets(slices: seq<Slice>)
    ensures BucketsOf(Bucket(slices), slices)
    decreases |slices|
  {
    if slices != [] {
      var init, x := slices[..|slices| - 1], slices[|slices| - 1];
      BucketIsBuckets(init);
      assert slices == init + [x];
      assert SliceKeys(slices)[..|slices| - 1] == SliceKeys(init);
      var b := Bucket(slices);
      assert x.key in Bucket(init).vals <==> x.key in SliceKeys(init);
      forall k | k in b.vals
        ensures b.vals[k] == Amount(SumWhere(slices, SliceKey, k, SliceBaseline), SumWhere(slices, SliceKey, k, SliceCurrent))
      {
        if k == x.key {
          BucketValueHit(init, x);
        } else {
          BucketValueMiss(init, x, k);
        }
      }
    }
  }

  /* ---------------- output rows ---------------- */

  datatype CashRow = CashRow(period: string, baseline: real, current: real)

  function RowBaseline(r: CashRow): real { r.baseline }
  function RowCurrent(r: CashRow): real { r.current }

  /** `Object.entries(bucketed).map(([period, v]) => ...)`. */
  function Entries(keys: seq<string>, vals: map<string, Amount>): (rows: seq<CashRow>)
    requires forall k :: k in keys ==> k in vals
    ensures |rows| == |keys|
    ensures forall i :: 0 <= i < |keys| ==> rows[i] == CashRow(keys[i], vals[keys[i]].baseline, vals[keys[i]].current)
  {
    if keys == [] then []
    else Entries(keys[..|keys| - 1], vals) + [CashRow(keys[|keys| - 1], vals[keys[|keys| - 1]].baseline, vals[keys[|keys| - 1]].current)]
  }

  /** `a.localeCompare(b)` on the periods. */
  predicate PeriodBefore(a: CashRow, b: CashRow) { LexLess(a.period, b.period) }

  /** The unsorted entries of the buckets for key function `kf`. */
  function CashEntries(p: Plan, kf: int -> string): seq<CashRow>
  {
    var b := Bucket(Slices(p.allocations, kf));
    BucketIsBuckets(Slices(p.allocations, kf));
    Entries(b.keys, b.vals)
  }

  /** The rows `buildCashflowMetrics` returns for key function `kf`. */
  function CashflowOf(p: Plan, kf: int -> string): seq<CashRow>
  {
    SortBy(CashEntries(p, kf), PeriodBefore)
  }

  /** `buildCashflowMetrics(plan, periodType)`. */
  function Cashflow(p: Plan, period: Period): seq<CashRow>
  {
    CashflowOf(p, KeyOf(period))
  }

  lemma PeriodOrderStrict(rows: seq<CashRow>)
    ensures StrictOn(rows, PeriodBefore)
  {
    forall x | x in rows ensures !PeriodBefore(x, x) {
      LexLessIrreflexive(x.period);
    }
    forall x, y, z | x in rows && y in rows && z in rows && PeriodBefore(x, y) && PeriodBefore(y, z)
      ensures PeriodBefore(x, z)
    {
      LexLessTransitive(x.period, y.period, z.period);
    }
  }

  /** In the entries every period comes once, as the key of a bucket. */
  lemma EntriesFacts(p: Plan, kf: int -> string)
    ensures var e, b := CashEntries(p, kf), Bucket(Slices(p.allocations, kf));
            && BucketsOf(b, Slices(p.allocations, kf))
            && |e| == |b.keys|
            && (forall i :: 0 <= i < |e| ==>
                  (e[i].period == b.keys[i] && e[i].baseline == b.vals[b.keys[i]].baseline && e[i].current == b.vals[b.keys[i]].current))
            && (forall i, j :: 0 <= i < j < |e| ==> e[i].period != e[j].period)
  {
    BucketIsBuckets(Slices(p.allocations, kf));
  }

  /** No two rows share a period. */
  ghost predicate DistinctPeriods(rows: seq<CashRow>)
  {
    forall i, j :: 0 <= i < j < |rows| ==> rows[i].period != rows[j].period
  }

  lemma DistinctPeriodsPermutation(s: seq<CashRow>, t: seq<CashRow>)
    requires DistinctPeriods(s) && multiset(s) == multiset(t)
    ensures DistinctPeriods(t)
  {
    assert NoDuplicates(s) by {
      forall i, j | 0 <= i < j < |s| ensures s[i] != s[j] {
        assert s[i].period != s[j].period;
      }
    }
    PermutationNoDuplicates(s, t);
    forall i, j | 0 <= i < j < |t| ensures t[i].period != t[j].period {
      assert t[i] in multiset(s) && t[j] in multiset(s);
      var ki :| 0 <= ki < |s| && s[ki] == t[i];
      var kj :| 0 <= kj < |s| && s[kj] == t[j];
      assert ki != kj;
      if ki < kj {
        assert s[ki].period != s[kj].period;
      } else {
        assert s[kj].period != s[ki].period;
      }
    }
  }

  lemma SortedDistinctIncreasing(rows: seq<CashRow>)
    requires Sorted(rows, PeriodBefore) && DistinctPeriods(rows)
    ensures forall i, j :: 0 <= i < j < |rows| ==> LexLess(rows[i].period, rows[j].period)
  {
    forall i, j | 0 <= i < j < |rows| ensures LexLess(rows[i].period, rows[j].period) {
      assert !PeriodBefore(rows[j], rows[i]);
      LexLessTotal(rows[i].period, rows[j].period);
    }
  }

  /** The rows are in strictly increasing key order, so no period appears
      twice. */
  lemma CashflowOrder(p: Plan, kf: int -> string)
    ensures var rows := CashflowOf(p, kf);
            forall i, j :: 0 <= i < j < |rows| ==> LexLess(rows[i].period, rows[j].period)
  {
    var entries := CashEntries(p, kf);
    EntriesFacts(p, kf);
    assert DistinctPeriods(entries);
    PeriodOrderStrict(entries);
    SortByOrders(entries, PeriodBefore);
    DistinctPeriodsPermutation(entries, CashflowOf(p, kf));
    SortedDistinctIncreasing(CashflowOf(p, kf));
  }

  /** The rows carry period `x`. */
  ghost predicate HasPeriod(rows: seq<CashRow>, x: string)
  {
    exists i :: 0 <= i < |rows| && rows[i].period == x
  }

  /** A period has a row exactly when some day of some allocation has that
      key. */
  lemma CashflowPeriods(p: Plan, kf: int -> string, x: string)
    ensures HasPeriod(CashflowOf(p, kf), x) <==> DayKeyed(p.allocations, kf, x)
  {
    var slices := Slices(p.allocations, kf);
    var b := Bucket(slices);
    var entries := CashEntries(p, kf);
    var rows := CashflowOf(p, kf);
    EntriesFacts(p, kf);
    SlicesKeys(p.allocations, kf, x);
    if HasPeriod(rows, x) {
      var i :| 0 <= i < |rows| && rows[i].period == x;
      assert rows[i] in multiset(entries);
      var k :| 0 <= k < |entries| && entries[k] == rows[i];
      assert b.keys[k] in Distinct(SliceKeys(slices));
    }
    if x in SliceKeys(slices) {
      var k :| 0 <= k < |b.keys| && b.keys[k] == x;
      assert entries[k] in multiset(rows);
    }
  }

  /** Each row holds the totals of the day parts with its key. */
  lemma CashflowAmounts(p: Plan, kf: int -> string)
    ensures var rows, slices := CashflowOf(p, kf), Slices(p.allocations, kf);
            forall i :: 0 <= i < |rows| ==>
              rows[i].baseline == SumWhere(slices, SliceKey, rows[i].period, SliceBaseline)
              && rows[i].current == SumWhere(slices, SliceKey, rows[i].period, SliceCurrent)
  {
    var slices := Slices(p.allocations, kf);
    var entries := CashEntries(p, kf);
    var rows := CashflowOf(p, kf);
    forall i | 0 <= i < |rows|
      ensures rows[i].baseline == SumWhere(slices, SliceKey, rows[i].period, SliceBaseline)
      ensures rows[i].current == SumWhere(slices, SliceKey, rows[i].period, SliceCurrent)
    {
      assert rows[i] in multiset(entries);
      EntryAmounts(p, kf, rows[i]);
    }
  }

  /** An entry holds the totals of the day parts with its key. */
  lemma EntryAmounts(p: Plan, kf: int -> string, r: CashRow)
    requires r in CashEntries(p, kf)
    ensures r.baseline == SumWhere(Slices(p.allocations, kf), SliceKey, r.period, SliceBaseline)
    ensures r.current == SumWhere(Slices(p.allocations, kf), SliceKey, r.period, SliceCurrent)
  {
    var entries := CashEntries(p, kf);
    EntriesFacts(p, kf);
    var k :| 0 <= k < |entries| && entries[k] == r;
  }

  lemma {:induction false} EntriesSum(keys: seq<string>, vals: map<string, Amount>, slices: seq<Slice>)
    requires forall k :: k in keys ==> k in vals
    requires forall k :: k in vals ==>
               vals[k] == Amount(SumWhere(slices, SliceKey, k, SliceBaseline), SumWhere(slices, SliceKey, k, SliceCurrent))
    ensures Sum(Entries(keys, vals), RowCurrent) == SumOverKeys(keys, slices, SliceKey, SliceCurrent)
    ensures Sum(Entries(keys, vals), RowBaseline) == SumOverKeys(keys, slices, SliceKey, SliceBaseline)
    decreases |keys|
  {
    if keys != [] {
      var init := keys[..|keys| - 1];
      EntriesSum(init, vals, slices);
      assert Entries(keys, vals)[..|keys| - 1] == Entries(init, vals);
    }
  }

  /** Spreading moves money between periods but neither creates nor loses
      any: for every key function, hence for every period type, the
      `current` column adds up to the cost of every allocation that has at
      least one day, and the `baseline` column to their baseline costs. */
  lemma CashflowConserves(p: Plan, kf: int -> string)
    ensures Sum(CashflowOf(p, kf), RowCurrent) == Sum(p.allocations, SpreadCost)
    ensures Sum(CashflowOf(p, kf), RowBaseline) == Sum(p.allocations, SpreadBaseline)
  {
    var slices := Slices(p.allocations, kf);
    BucketIsBuckets(slices);
    var b := Bucket(slices);
    var entries := CashEntries(p, kf);
    EntriesSum(b.keys, b.vals, slices);
    forall i | 0 <= i < |slices| ensures SliceKey(slices[i]) in b.keys {
      assert SliceKeys(slices)[i] == slices[i].key;
    }
    SumOverKeysPartition(b.keys, slices, SliceKey, SliceCurrent);
    SumOverKeysPartition(b.keys, slices, SliceKey, SliceBaseline);
    SortBySum(entries, PeriodBefore, RowCurrent);
    SortBySum(entries, PeriodBefore, RowBaseline);
    SlicesSum(p.allocations, kf);
  }

  /** A box's one day has the key of its start. */
  lemma BoxKeyed(a: Allocation, kf: int -> string, x: string)
    requires IsBox(a)
    ensures AllocKeyed(a, kf, x) <==> x == kf(a.start)
  {
    SpreadDaysFacts(a);
    if x == kf(a.start) {
      assert KeyAt(a, kf, 0) == x;
    }
  }

  /** The periods of a plan of two boxes are the keys of their starts. */
  lemma TwoBoxesKeyed(p: Plan, kf: int -> string, x: string)
    requires |p.allocations| == 2 && IsBox(p.allocations[0]) && IsBox(p.allocations[1])
    ensures HasPeriod(CashflowOf(p, kf), x) <==> x == kf(p.allocations[0].start) || x == kf(p.allocations[1].start)
  {
    CashflowPeriods(p, kf, x);
    BoxKeyed(p.allocations[0], kf, x);
    BoxKeyed(p.allocations[1], kf, x);
    if DayKeyed(p.allocations, kf, x) {
      var i :| 0 <= i < |p.allocations| && AllocKeyed(p.allocations[i], kf, x);
      assert i == 0 || i == 1;
    }
  }

  /** The period of row `i`, or the empty text past the end. */
  function PeriodAt(rows: seq<CashRow>, i: int): string
  {
    if 0 <= i < |rows| then rows[i].period else ""
  }

  /** Rows in strictly increasing period order whose periods are `k0` or
      `k1` are at most two, and at most one when the two are the same. */
  lemma IncreasingInTwo(rows: seq<CashRow>, k0: string, k1: string)
    requires forall i, j :: 0 <= i < j < |rows| ==> LexLess(rows[i].period, rows[j].period)
    requires forall i :: 0 <= i < |rows| ==> rows[i].period == k0 || rows[i].period == k1
    ensures |rows| <= 2
    ensures k0 == k1 ==> |rows| <= 1
  {
    LexLessIrreflexive(k0);
    LexLessIrreflexive(k1);
    assert |rows| >= 2 ==> PeriodAt(rows, 0) != PeriodAt(rows, 1);
    assert |rows| >= 3 ==> PeriodAt(rows, 0) != PeriodAt(rows, 2) && PeriodAt(rows, 1) != PeriodAt(rows, 2);
  }

  /** Two boxes whose starts share a key give one row, holding both
      baselines and both costs. */
  lemma TwoBoxesOneRow(p: Plan, kf: int -> string)
    requires |p.allocations| == 2 && IsBox(p.allocations[0]) && IsBox(p.allocations[1])
    requires kf(p.allocations[0].start) == kf(p.allocations[1].start)
    ensures var a := p.allocations;
            CashflowOf(p, kf) == [CashRow(kf(a[0].start), BaselineCost(a[0]) + BaselineCost(a[1]), a[0].cost + a[1].cost)]
  {
    var a, rows := p.allocations, CashflowOf(p, kf);
    TwoBoxesOnePeriod(p, kf);
    CashflowConserves(p, kf);
    TwoBoxesSums(a);
    OneRowSums(rows, kf(a[0].start), BaselineCost(a[0]) + BaselineCost(a[1]), a[0].cost + a[1].cost);
  }

  /** Two boxes whose starts share a key give one row, with that key. */
  lemma TwoBoxesOnePeriod(p: Plan, kf: int -> string)
    requires |p.allocations| == 2 && IsBox(p.allocations[0]) && IsBox(p.allocations[1])
    requires kf(p.allocations[0].start) == kf(p.allocations[1].start)
    ensures |CashflowOf(p, kf)| == 1 && CashflowOf(p, kf)[0].period == kf(p.allocations[0].start)
  {
    var rows := CashflowOf(p, kf);
    var k := kf(p.allocations[0].start);
    TwoBoxesKeyed(p, kf, k);
    forall i | 0 <= i < |rows| ensures rows[i].period == k {
      assert HasPeriod(rows, rows[i].period);
      TwoBoxesKeyed(p, kf, rows[i].period);
    }
    CashflowOrder(p, kf);
    IncreasingInTwo(rows, k, k);
  }

  /** Two boxes spread their whole cost and baseline. */
  lemma TwoBoxesSums(a: seq<Allocation>)
    requires |a| == 2 && IsBox(a[0]) && IsBox(a[1])
    ensures Sum(a, SpreadCost) == a[0].cost + a[1].cost
    ensures Sum(a, SpreadBaseline) == BaselineCost(a[0]) + BaselineCost(a[1])
  {
    SpreadDaysFacts(a[0]);
    SpreadDaysFacts(a[1]);
    assert a[..1][..0] == [] && a[..1][0] == a[0];
    assert Sum(a[..1], SpreadCost) == a[0].cost;
    assert Sum(a[..1], SpreadBaseline) == BaselineCost(a[0]);
  }

  /** A single row is its period with its totals. */
  lemma OneRowSums(rows: seq<CashRow>, k: string, b: real, c: real)
    requires |rows| == 1 && rows[0].period == k
    requires Sum(rows, RowBaseline) == b && Sum(rows, RowCurrent) == c
    ensures rows == [CashRow(k, b, c)]
  {
    assert rows[..0] == [];
  }

  /** Two boxes whose starts have different keys give a row each. */
  lemma TwoBoxesTwoRows(p: Plan, kf: int -> string)
    requires |p.allocations| == 2 && IsBox(p.allocations[0]) && IsBox(p.allocations[1])
    requires kf(p.allocations[0].start) != kf(p.allocations[1].start)
    ensures var rows := CashflowOf(p, kf);
            && |rows| == 2
            && HasPeriod(rows, kf(p.allocations[0].start)) && HasPeriod(rows, kf(p.allocations[1].start))
  {
    var rows := CashflowOf(p, kf);
    var k0, k1 := kf(p.allocations[0].start), kf(p.allocations[1].start);
    TwoBoxesKeyed(p, kf, k0);
    TwoBoxesKeyed(p, kf, k1);
    var i :| 0 <= i < |rows| && rows[i].period == k0;
    var j :| 0 <= j < |rows| && rows[j].period == k1;
    assert i != j;
    forall m | 0 <= m < |rows| ensures rows[m].period == k0 || rows[m].period == k1 {
      assert HasPeriod(rows, rows[m].period);
      TwoBoxesKeyed(p, kf, rows[m].period);
    }
    CashflowOrder(p, kf);
    IncreasingInTwo(rows, k0, k1);
  }

  /** The source's week key of two instants is the same when their
      calendar years and week numbers are. */
  lemma WeekKeyAsWrittenParts(t0: int, t1: int)
    requires Civil(t0 / DayMs).year == Civil(t1 / DayMs).year
    requires WeekNumber(t0 / DayMs) == WeekNumber(t1 / DayMs)
    ensures WeekKeyAsWritten(t0) == WeekKeyAsWritten(t1)
  {
  }

  /** The `'week'` period type keys by the source's week key. */
  lemma WeekPeriodKey()
    ensures KeyOf(ByWeek) == WeekKeyAsWritten
  {
  }

  /** Both week keys depend only on the day of the instant. */
  lemma WeekKeysOfDay(t: int)
    ensures WeekKeyAsWritten(t) == WeekKeyAsWritten(t / DayMs * DayMs)
    ensures WeekKey(t) == WeekKey(t / DayMs * DayMs)
  {
    MidnightDay(t / DayMs);
  }

  /** The `'week'` rows as the source builds them merge week 1 of 2024
      with week 1 of 2025: a box on 2024-01-01 and a box on 2024-12-30
      give one row, which holds both baselines and both costs. */
  lemma CashflowWeekMerges(p: Plan)
    requires |p.allocations| == 2 && IsBox(p.allocations[0]) && IsBox(p.allocations[1])
    requires p.allocations[0].start / DayMs == 19723 && p.allocations[1].start / DayMs == 20087
    ensures var a := p.allocations;
            Cashflow(p, ByWeek) == [CashRow(WeekKeyAsWritten(a[0].start), BaselineCost(a[0]) + BaselineCost(a[1]), a[0].cost + a[1].cost)]
  {
    var t0, t1 := p.allocations[0].start, p.allocations[1].start;
    assert WeekKeyAsWritten(t0) == WeekKeyAsWritten(t1) by {
      Civil2024(t0 / DayMs, t1 / DayMs);
      Week1Of2024(t0 / DayMs);
      Week1Of2025(t1 / DayMs);
      WeekKeyAsWrittenParts(t0, t1);
    }
    WeekPeriodKey();
    TwoBoxesOneRow(p, KeyOf(ByWeek));
  }

  /** With the corrected key the same two boxes get a row each. */
  lemma CashflowWeekSplits(p: Plan)
    requires |p.allocations| == 2 && IsBox(p.allocations[0]) && IsBox(p.allocations[1])
    requires p.allocations[0].start / DayMs == 19723 && p.allocations[1].start / DayMs == 20087
    ensures var rows := CashflowOf(p, WeekKey);
            && |rows| == 2
            && HasPeriod(rows, WeekKey(p.allocations[0].start)) && HasPeriod(rows, WeekKey(p.allocations[1].start))
            && WeekKey(p.allocations[0].start) != WeekKey(p.allocations[1].start)
  {
    var t0, t1 := p.allocations[0].start, p.allocations[1].start;
    assert WeekKey(t0) != WeekKey(t1) by {
      WeekKeyCollision2024(t0 / DayMs, t1 / DayMs);
      WeekKeysOfDay(t0);
      WeekKeysOfDay(t1);
    }
    TwoBoxesTwoRows(p, WeekKey);
  }

  /** When no allocation ends before it starts, the totals are the plain
      sums of `cost` and of `baseline_cost`. */
  lemma {:induction false} SpreadCostAll(allocs: seq<Allocation>)
    requires forall i :: 0 <= i < |allocs| ==> SpreadEnd(allocs[i]) >= allocs[i].start
    ensures Sum(allocs, SpreadCost) == Sum(allocs, (a: Allocation) => a.cost)
    ensures Sum(allocs, SpreadBaseline) == Sum(allocs, BaselineCost)
    decreases |allocs|
  {
    if allocs != [] {
      SpreadCostAll(allocs[..|allocs| - 1]);
      SpreadDaysFacts(allocs[|allocs| - 1]);
    }
  }

  /* ---------------- the loops ---------------- */

  /** The loop body's two steps, opening the bucket when it is missing and
      then adding to it, are one `Deposit`. */
  lemma OpenThenAdd(keys: seq<string>, vals: map<string, Amount>, keys': seq<string>, vals': map<string, Amount>,
                    key: string, bs: real, cs: real)
    requires keys' == if key in vals then keys else keys + [key]
    requires vals' == if key in vals then vals else vals[key := Amount(0.0, 0.0)]
    ensures Buckets(keys', vals'[key := Amount(vals'[key].baseline + bs, vals'[key].current + cs)])
              == Deposit(Buckets(keys, vals), Slice(key, bs, cs))
  {
  }

  /** One more day of `a` is one more `Deposit`. */
  lemma DayStep(a: Allocation, kf: int -> string, before: seq<Slice>, i: nat)
    requires i < SpreadDays(a)
    ensures Bucket(before + DaySlices(a, kf, i + 1)) == Deposit(Bucket(before + DaySlices(a, kf, i)), DaySlice(a, kf, i))
  {
    assert before + DaySlices(a, kf, i + 1) == (before + DaySlices(a, kf, i)) + [DaySlice(a, kf, i)];
    BucketSnoc(before + DaySlices(a, kf, i), DaySlice(a, kf, i));
  }

  /** The day loop of one allocation. */
  method SpreadAllocation(a: Allocation, kf: int -> string, b0: Buckets, ghost before: seq<Slice>)
    returns (b: Buckets)
    requires b0 == Bucket(before)
    ensures b == Bucket(before + AllocSlices(a, kf))
  {
    var cost := a.cost;
    var base := BaselineCost(a);
    var end := if a.end.Some? then a.end.value else a.start;
    var days := Ceil((end - a.start) as real / DayMs as real) + 1;
    assert days == SpreadDays(a);
    if days < 1 {
      assert before + AllocSlices(a, kf) == before;
      return b0;
    }
    var keys, vals := b0.keys, b0.vals;
    assert before + DaySlices(a, kf, 0) == before;
    var i := 0;
    while i < days
      invariant 0 <= i <= days
      invariant Buckets(keys, vals) == Bucket(before + DaySlices(a, kf, i))
    {
      keys, vals := DepositDay(a, kf, i, days, base, cost, keys, vals, before);
      i := i + 1;
    }
    b := Buckets(keys, vals);
  }

  /** One turn of the day loop: open the day's bucket when it is missing,
      then add a day's share of `base` and of `cost` to it. */
  method DepositDay(a: Allocation, kf: int -> string, i: nat, days: int, base: real, cost: real,
                    keys0: seq<string>, vals0: map<string, Amount>, ghost before: seq<Slice>)
    returns (keys: seq<string>, vals: map<string, Amount>)
    requires days == SpreadDays(a) && i < days
    requires base == BaselineCost(a) && cost == a.cost
    requires Buckets(keys0, vals0) == Bucket(before + DaySlices(a, kf, i))
    ensures Buckets(keys, vals) == Bucket(before + DaySlices(a, kf, i + 1))
  {
    var day := a.start + i * DayMs;
    var key := kf(day);
    var bs, cs := base / days as real, cost / days as real;
    assert DaySlice(a, kf, i) == Slice(key, bs, cs);
    DayStep(a, kf, before, i);
    keys, vals := keys0, vals0;
    if key !in vals {
      keys := keys + [key];
      vals := vals[key := Amount(0.0, 0.0)];
    }
    OpenThenAdd(keys0, vals0, keys, vals, key, bs, cs);
    vals := vals[key := Amount(vals[key].baseline + bs, vals[key].current + cs)];
  }

  /** The allocation loop. */
  method FillBuckets(allocs: seq<Allocation>, kf: int -> string) returns (b: Buckets)
    ensures b == Bucket(Slices(allocs, kf))
  {
    b := Buckets([], map[]);
    var j := 0;
    while j < |allocs|
      invariant 0 <= j <= |allocs|
      invariant b == Bucket(Slices(allocs[..j], kf))
    {
      assert allocs[..j + 1][..j] == allocs[..j];
      b := SpreadAllocation(allocs[j], kf, b, Slices(allocs[..j], kf));
      j := j + 1;
    }
    assert allocs[..|allocs|] == allocs;
  }

  /** `Object.entries(bucketed).map(...)`: the buckets in key order. */
  method ListEntries(b: Buckets) returns (entries: seq<CashRow>)
    requires forall k :: k in b.keys ==> k in b.vals
    ensures entries == Entries(b.keys, b.vals)
  {
    entries := [];
    var k := 0;
    while k < |b.keys|
      invariant 0 <= k <= |b.keys|
      invariant entries == Entries(b.keys[..k], b.vals)
    {
      var key := b.keys[k];
      assert b.keys[..k + 1][..k] == b.keys[..k];
      entries := entries + [CashRow(key, b.vals[key].baseline, b.vals[key].current)];
      k := k + 1;
    }
    assert b.keys[..|b.keys|] == b.keys;
  }

  /** `buildCashflowMetrics(plan, periodType)`: the nested loop, the
      entries, and the sort by key. */
  method BuildCashflow(p: Plan, period: Period) returns (rows: seq<CashRow>)
    ensures rows == Cashflow(p, period)
  {
    var kf := KeyOf(period);
    var b := FillBuckets(p.allocations, kf);
    BucketIsBuckets(Slices(p.allocations, kf));
    var entries := ListEntries(b);
    assert entries == CashEntries(p, kf);
    rows := SortBy(entries, PeriodBefore);
  }
}
