/** `res_drawer.js`: the per-resource figures of the resource drawer: cost
    earned and still to come, schedule slips against the baseline, and
    utilisation. The moment `today` is a parameter instant, and ISO strings
    the source compares are compared as the instants they name. */
module ResDrawer {
  import opened Common
  import opened Plan
  import opened Calendar
  import opened Analytics

  const HoursPerDay: real := 8.0

  /* ---------------- daysBetween ---------------- */

  /** The real number of days from `d1` to `d2`, counting both ends. */
  function SpanDays(d1: int, d2: int): real
  {
    (d2 - d1) as real / DayMs as real + 1.0
  }

  /** `daysBetween(d1, d2)`: `max(1, (d2 - d1) / 86400000 + 1)`. */
  function DaysBetween(d1: int, d2: int): (r: real)
    ensures r >= 1.0
    ensures d1 <= d2 ==> r == SpanDays(d1, d2)
    ensures d2 <= d1 ==> r == 1.0
  {
    MaxReal(1.0, SpanDays(d1, d2))
  }

  /** A span inside another counts no more days. */
  lemma DaysBetweenMonotone(d1: int, d2: int, e1: int, e2: int)
    requires d1 <= e1 && e2 <= d2
    ensures DaysBetween(e1, e2) <= DaysBetween(d1, d2)
  {
    assert (e2 - e1) as real <= (d2 - d1) as real;
  }

  /* ---------------- resCostMetrics ---------------- */

  /** The two halves `split` returns: earned so far, still to come. */
  datatype Parts = Parts(past: real, future: real)

  /** `pastMs / durMs`. */
  function Fraction(past: int, dur: int): real
    requires dur != 0
  {
    past as real / dur as real
  }

  /** `durMs > 0 ? Math.min(1, pastMs / durMs) : 1`. */
  function Ratio(now: int, s: int, e: int): real
  {
    if e - s > 0 then MinReal(1.0, Fraction(now - s, e - s)) else 1.0
  }

  /** `split(cost, start, end)` at the instant `now`. */
  function Split(now: int, cost: real, start: int, end: Option<int>): (r: Parts)
    ensures r.past + r.future == cost
  {
    if cost == 0.0 then Parts(0.0, 0.0)
    else if now < start then Parts(0.0, cost)
    else if end.None? || now >= end.value then Parts(cost, 0.0)
    else
      var ratio := Ratio(now, start, end.value);
      Parts(cost * ratio, cost * (1.0 - ratio))
  }

  /** The four outcomes of `split`. In the in-progress case the elapsed
      share is strictly between the two ends of the allocation, so the
      `durMs <= 0` fallback to 1 is never taken there. */
  lemma SplitCases(now: int, cost: real, start: int, end: Option<int>)
    ensures cost == 0.0 ==> Split(now, cost, start, end) == Parts(0.0, 0.0)
    ensures cost != 0.0 && now < start ==> Split(now, cost, start, end) == Parts(0.0, cost)
    ensures cost != 0.0 && start <= now && (end.None? || end.value <= now) ==>
              Split(now, cost, start, end) == Parts(cost, 0.0)
    ensures cost != 0.0 && start <= now && end.Some? && now < end.value ==>
              var ratio := Fraction(now - start, end.value - start);
              && 0.0 <= ratio < 1.0
              && Split(now, cost, start, end) == Parts(cost * ratio, cost * (1.0 - ratio))
  {
    if cost != 0.0 && start <= now && end.Some? && now < end.value {
      FractionBelowOne(now - start, end.value - start);
    }
  }

  lemma FractionBelowOne(past: int, dur: int)
    requires 0 <= past < dur
    ensures 0.0 <= Fraction(past, dur) < 1.0
  {
    var q := Fraction(past, dur);
    assert q * dur as real == past as real;
  }

  /** `a.baseline_start ?? a.start` and the like. */
  function OrElse(x: Option<int>, y: Option<int>): Option<int>
  {
    if x.Some? then x else y
  }

  /** The actual split of an allocation: its `cost` over its own dates. */
  function ActualParts(now: int, a: Allocation): Parts
  {
    Split(now, a.cost, a.start, a.end)
  }

  /** `a.baseline_cost ?? 0`. */
  function BaselineCost(a: Allocation): real
  {
    if a.baselineCost.Some? then a.baselineCost.value else 0.0
  }

  /** The baseline split: `baseline_cost` over the baseline dates, each
      falling back to the actual one. */
  function BaseParts(now: int, a: Allocation): Parts
  {
    var s := OrElse(a.baselineStart, Some(a.start));
    Split(now, BaselineCost(a), s.value, OrElse(a.baselineEnd, a.end))
  }

  function ActualPast(now: int): Allocation -> real { (a: Allocation) => ActualParts(now, a).past }
  function ActualFuture(now: int): Allocation -> real { (a: Allocation) => ActualParts(now, a).future }
  function BasePast(now: int): Allocation -> real { (a: Allocation) => BaseParts(now, a).past }
  function BaseFuture(now: int): Allocation -> real { (a: Allocation) => BaseParts(now, a).future }

  datatype CostMetrics = CostMetrics(actual: real, actualBase: real, variance: real,
                                     future: real, futureBase: real, futVar: real)

  /** The figures `resCostMetrics` returns for allocations `s`. */
  function CostOf(s: seq<Allocation>, now: int): CostMetrics
  {
    var actual, actualBase := Sum(s, ActualPast(now)), Sum(s, BasePast(now));
    var future, futureBase := Sum(s, ActualFuture(now)), Sum(s, BaseFuture(now));
    CostMetrics(actual, actualBase, actual - actualBase, future, futureBase, future - futureBase)
  }

  /** Earned and still-to-come money always add up to the resource's
      total cost, actual and baseline alike, and the variances are the
      differences of the parts. */
  lemma CostConserved(p: Plan, id: string, now: int)
    ensures var m := CostOf(AllocsOf(p, id), now);
            && m.actual + m.future == Sum(AllocsOf(p, id), (a: Allocation) => a.cost)
            && m.actualBase + m.futureBase == Sum(AllocsOf(p, id), BaselineCost)
            && m.variance == m.actual - m.actualBase
            && m.futVar == m.future - m.futureBase
  {
    var s := AllocsOf(p, id);
    SumPlus(s, ActualPast(now), ActualFuture(now), (a: Allocation) => a.cost);
    SumPlus(s, BasePast(now), BaseFuture(now), BaselineCost);
  }

  /** `resCostMetrics(plan, id, today)`, accumulating in `forEach`. */
  method ResCostMetrics(p: Plan, id: string, now: int) returns (m: CostMetrics)
    ensures m == CostOf(AllocsOf(p, id), now)
  {
    var s := AllocsOf(p, id);
    var actual, actualBase, future, futureBase := 0.0, 0.0, 0.0, 0.0;
    for i := 0 to |s|
      invariant actual == Sum(s[..i], ActualPast(now))
      invariant actualBase == Sum(s[..i], BasePast(now))
      invariant future == Sum(s[..i], ActualFuture(now))
      invariant futureBase == Sum(s[..i], BaseFuture(now))
    {
      var a := s[i];
      var pa := Split(now, a.cost, a.start, a.end);
      var bs := if a.baselineStart.Some? then a.baselineStart.value else a.start;
      var be := if a.baselineEnd.Some? then a.baselineEnd else a.end;
      var ba := Split(now, BaselineCost(a), bs, be);
      assert s[..i + 1][..i] == s[..i];
      actual := actual + pa.past;
      actualBase := actualBase + ba.past;
      future := future + pa.future;
      futureBase := futureBase + ba.future;
    }
    assert s[..|s|] == s;
    m := CostMetrics(actual, actualBase, actual - actualBase, future, futureBase, future - futureBase);
  }

  /* ---------------- resScheduleMetrics ---------------- */

  datatype Schedule = Schedule(
    startLate: nat, startEarly: nat, finishLate: nat, finishEarly: nat,
    willStartLate: nat, willStartEarly: nat, willFinishLate: nat, willFinishEarly: nat)

  const NoSlips := Schedule(0, 0, 0, 0, 0, 0, 0, 0)

  /** The start half of a turn of the `forEach` in `resScheduleMetrics`. */
  function StartTick(m: Schedule, a: Allocation, today: int): Schedule
  {
    if a.baselineStart.None? then m
    else if a.start < today then
      (if a.start > a.baselineStart.value then m.(startLate := m.startLate + 1)
       else if a.start < a.baselineStart.value then m.(startEarly := m.startEarly + 1)
       else m)
    else
      (if a.start > a.baselineStart.value then m.(willStartLate := m.willStartLate + 1)
       else if a.start < a.baselineStart.value then m.(willStartEarly := m.willStartEarly + 1)
       else m)
  }

  /** The finish half: `finished` is `a.end && a.end < today`. */
  function FinishTick(m: Schedule, a: Allocation, today: int): Schedule
  {
    if a.baselineEnd.None? || a.end.None? then m
    else if a.end.value < today then
      (if a.end.value > a.baselineEnd.value then m.(finishLate := m.finishLate + 1)
       else if a.end.value < a.baselineEnd.value then m.(finishEarly := m.finishEarly + 1)
       else m)
    else
      (if a.end.value > a.baselineEnd.value then m.(willFinishLate := m.willFinishLate + 1)
       else if a.end.value < a.baselineEnd.value then m.(willFinishEarly := m.willFinishEarly + 1)
       else m)
  }

  /** One turn of the `forEach` in `resScheduleMetrics`. */
  function Tick(m: Schedule, a: Allocation, today: int): Schedule
  {
    FinishTick(StartTick(m, a, today), a, today)
  }

  /** The counters after the allocations `s`. */
  function ScheduleOf(s: seq<Allocation>, today: int): Schedule
    decreases |s|
  {
    if s == [] then NoSlips else Tick(ScheduleOf(s[..|s| - 1], today), s[|s| - 1], today)
  }

  function StartSlips(m: Schedule): nat
  {
    m.startLate + m.startEarly + m.willStartLate + m.willStartEarly
  }

  function FinishSlips(m: Schedule): nat
  {
    m.finishLate + m.finishEarly + m.willFinishLate + m.willFinishEarly
  }

  /** The start moved off a baseline start that exists. */
  predicate StartMoved(a: Allocation)
  {
    a.baselineStart.Some? && a.start != a.baselineStart.value
  }

  /** The end moved off a baseline end, both present. */
  predicate FinishMoved(a: Allocation)
  {
    a.baselineEnd.Some? && a.end.Some? && a.end.value != a.baselineEnd.value
  }

  /** One allocation bumps at most one start counter, and one exactly when
      its start moved; likewise for the finish counters. Whether it is a
      past or a future slip follows `today`, and which of late or early
      follows the direction of the move. */
  lemma TickCounts(m: Schedule, a: Allocation, today: int)
    ensures StartSlips(Tick(m, a, today)) == StartSlips(m) + (if StartMoved(a) then 1 else 0)
    ensures FinishSlips(Tick(m, a, today)) == FinishSlips(m) + (if FinishMoved(a) then 1 else 0)
    ensures Tick(m, a, today).startLate > m.startLate <==>
              StartMoved(a) && a.start < today && a.start > a.baselineStart.value
    ensures Tick(m, a, today).finishLate > m.finishLate <==>
              FinishMoved(a) && a.end.value < today && a.end.value > a.baselineEnd.value
  {
    var m1 := StartTick(m, a, today);
    assert StartSlips(m1) == StartSlips(m) + (if StartMoved(a) then 1 else 0);
    assert FinishSlips(m1) == FinishSlips(m) && m1.finishLate == m.finishLate;
    assert StartSlips(FinishTick(m1, a, today)) == StartSlips(m1);
  }

  /** Over all of a resource's allocations, the start counters add up to
      the allocations whose start moved... */
  lemma {:induction false} StartCounts(s: seq<Allocation>, today: int)
    ensures StartSlips(ScheduleOf(s, today)) == |Filter(s, StartMoved)|
    decreases |s|
  {
    if s != [] {
      StartCounts(s[..|s| - 1], today);
      TickCounts(ScheduleOf(s[..|s| - 1], today), s[|s| - 1], today);
    }
  }

  /** ... and the finish counters to those whose end moved. */
  lemma {:induction false} FinishCounts(s: seq<Allocation>, today: int)
    ensures FinishSlips(ScheduleOf(s, today)) == |Filter(s, FinishMoved)|
    decreases |s|
  {
    if s != [] {
      FinishCounts(s[..|s| - 1], today);
      TickCounts(ScheduleOf(s[..|s| - 1], today), s[|s| - 1], today);
    }
  }

  /** `resScheduleMetrics(plan, id, today)`, counting in `forEach`. */
  method ResScheduleMetrics(p: Plan, id: string, today: int) returns (m: Schedule)
    ensures m == ScheduleOf(AllocsOf(p, id), today)
  {
    var s := AllocsOf(p, id);
    m := NoSlips;
    for i := 0 to |s|
      invariant m == ScheduleOf(s[..i], today)
    {
      var a := s[i];
      assert s[..i + 1][..i] == s[..i];
      var started := a.start < today;
      var finished := a.end.Some? && a.end.value < today;
      ghost var m0 := m;
      if a.baselineStart.Some? {
        if started {
          if a.start > a.baselineStart.value { m := m.(startLate := m.startLate + 1); }
          else if a.start < a.baselineStart.value { m := m.(startEarly := m.startEarly + 1); }
        } else {
          if a.start > a.baselineStart.value { m := m.(willStartLate := m.willStartLate + 1); }
          else if a.start < a.baselineStart.value { m := m.(willStartEarly := m.willStartEarly + 1); }
        }
      }
      assert m == StartTick(m0, a, today);
      ghost var m1 := m;
      if a.baselineEnd.Some? && a.end.Some? {
        if finished {
          if a.end.value > a.baselineEnd.value { m := m.(finishLate := m.finishLate + 1); }
          else if a.end.value < a.baselineEnd.value { m := m.(finishEarly := m.finishEarly + 1); }
        } else {
          if a.end.value > a.baselineEnd.value { m := m.(willFinishLate := m.willFinishLate + 1); }
          else if a.end.value < a.baselineEnd.value { m := m.(willFinishEarly := m.willFinishEarly + 1); }
        }
      }
      assert m == FinishTick(m1, a, today);
    }
    assert s[..|s|] == s;
  }

  /* ---------------- resUtilMetrics ---------------- */

  datatype UtilMetrics = UtilMetrics(utilAllPct: real, utilSpanPct: real, otAll: real, otSpan: real)

  predicate RowOfResource(id: string, r: UsageRow) { r.resourceId == id }

  /** `buildDailyUsage(plan).filter(r => r.resource_id === id)`. */
  function DailyOf(p: Plan, id: string): seq<UsageRow>
  {
    Filter(DailyUsage(p), (r: UsageRow) => RowOfResource(id, r))
  }

  function RowPct(r: UsageRow): real { r.pct }

  /** `Math.max(0, r.pct - 100)`: the overtime of a day, in percent. */
  function RowOvertime(r: UsageRow): real { MaxReal(0.0, r.pct - 100.0) }

  /** `Math.max(...ends)` over the ranged allocations. */
  function LatestEnd(allocs: seq<Allocation>): (m: int)
    requires exists i :: 0 <= i < |allocs| && !IsBox(allocs[i])
    ensures forall i :: 0 <= i < |allocs| && !IsBox(allocs[i]) ==> EndInstant(allocs[i]) <= m
    ensures exists i :: 0 <= i < |allocs| && !IsBox(allocs[i]) && EndInstant(allocs[i]) == m
    decreases |allocs|
  {
    var a := allocs[|allocs| - 1];
    var init := allocs[..|allocs| - 1];
    if exists i :: 0 <= i < |init| && !IsBox(init[i]) then
      var rest := LatestEnd(init);
      if !IsBox(a) && EndInstant(a) > rest then EndInstant(a) else rest
    else
      assert !IsBox(a) by {
        var i :| 0 <= i < |allocs| && !IsBox(allocs[i]);
        if i < |init| { assert init[i] == allocs[i]; }
      }
      EndInstant(a)
  }

  /** `sum / (days * 100) * 100`. */
  function PerDay(sum: real, days: real): real
    requires days >= 1.0
  {
    sum / (days * 100.0) * 100.0
  }

  /** A daily row of the resource means it has a ranged allocation. */
  lemma DailyOfRanged(p: Plan, id: string)
    requires DailyOf(p, id) != []
    ensures exists i :: 0 <= i < |p.allocations| && !IsBox(p.allocations[i]) && p.allocations[i].resourceId == id
  {
    var d := DailyOf(p, id);
    FilterMembers(DailyUsage(p), (r: UsageRow) => RowOfResource(id, r));
    assert d[0] in DailyUsage(p) && RowOfResource(id, d[0]);
    UsageRowFromRanged(p, DayKey, d[0]);
  }

  /** ... and so does its own allocation list. */
  lemma AllocsOfRanged(p: Plan, id: string)
    requires exists i :: 0 <= i < |p.allocations| && !IsBox(p.allocations[i]) && p.allocations[i].resourceId == id
    ensures exists i :: 0 <= i < |AllocsOf(p, id)| && !IsBox(AllocsOf(p, id)[i])
    ensures forall a :: a in AllocsOf(p, id) <==> a in p.allocations && a.resourceId == id
  {
    var i :| 0 <= i < |p.allocations| && !IsBox(p.allocations[i]) && p.allocations[i].resourceId == id;
    FilterMembers(p.allocations, (a: Allocation) => OfResource(id, a));
    var s := AllocsOf(p, id);
    assert p.allocations[i] in s;
    var k :| 0 <= k < |s| && s[k] == p.allocations[i];
  }

  /** The horizon `resUtilMetrics` measures against: the plan's earliest
      start to its latest end. */
  function HorizonDays(p: Plan): real
    requires exists i :: 0 <= i < |p.allocations| && !IsBox(p.allocations[i])
  {
    DaysBetween(PlanStart(p.allocations), LatestEnd(p.allocations))
  }

  /** The resource's own span: its earliest start to its latest end. */
  function ResSpanDays(p: Plan, id: string): real
    requires exists i :: 0 <= i < |p.allocations| && !IsBox(p.allocations[i]) && p.allocations[i].resourceId == id
  {
    AllocsOfRanged(p, id);
    DaysBetween(PlanStart(AllocsOf(p, id)), LatestEnd(AllocsOf(p, id)))
  }

  /** `resUtilMetrics` on the resource's daily rows `daily`. */
  function UtilFrom(daily: seq<UsageRow>, p: Plan, id: string): UtilMetrics
    requires daily != [] ==>
               exists i :: 0 <= i < |p.allocations| && !IsBox(p.allocations[i]) && p.allocations[i].resourceId == id
  {
    if daily == [] then UtilMetrics(0.0, 0.0, 0.0, 0.0)
    else
      var total, ot := Sum(daily, RowPct), Sum(daily, RowOvertime);
      UtilMetrics(PerDay(total, HorizonDays(p)), PerDay(total, ResSpanDays(p, id)),
                  ot / 100.0 * HoursPerDay, ot / 100.0 * HoursPerDay)
  }

  /** `resUtilMetrics(plan, id)`. */
  function UtilOf(p: Plan, id: string): UtilMetrics
  {
    var daily := DailyOf(p, id);
    if daily == [] then UtilFrom(daily, p, id)
    else
      DailyOfRanged(p, id);
      UtilFrom(daily, p, id)
  }

  /** The resource's span lies inside the plan's horizon. */
  lemma SpanWithinHorizon(p: Plan, id: string)
    requires exists i :: 0 <= i < |p.allocations| && !IsBox(p.allocations[i]) && p.allocations[i].resourceId == id
    ensures 1.0 <= ResSpanDays(p, id) <= HorizonDays(p)
  {
    AllocsOfRanged(p, id);
    var s := AllocsOf(p, id);
    var i :| 0 <= i < |s| && s[i].start == PlanStart(s);
    assert s[i] in p.allocations;
    var j :| 0 <= j < |s| && !IsBox(s[j]) && EndInstant(s[j]) == LatestEnd(s);
    assert s[j] in p.allocations;
    DaysBetweenMonotone(PlanStart(p.allocations), LatestEnd(p.allocations), PlanStart(s), LatestEnd(s));
  }

  /** The figures are all zero when the resource has no daily rows.
      Otherwise both utilisations are the summed daily percentages per day
      of their span; the resource's span lies within the plan's horizon, so
      with non-negative loads the span figure is at least the horizon
      figure; and both overtime figures are the same non-negative number of
      hours. */
  lemma UtilFacts(p: Plan, id: string)
    ensures DailyOf(p, id) == [] ==> UtilOf(p, id) == UtilMetrics(0.0, 0.0, 0.0, 0.0)
    ensures DailyOf(p, id) != [] ==>
              var m, total := UtilOf(p, id), Sum(DailyOf(p, id), RowPct);
              && (exists i :: 0 <= i < |p.allocations| && !IsBox(p.allocations[i]) && p.allocations[i].resourceId == id)
              && 1.0 <= ResSpanDays(p, id) <= HorizonDays(p)
              && m.utilAllPct == PerDay(total, HorizonDays(p))
              && m.utilSpanPct == PerDay(total, ResSpanDays(p, id))
              && (total >= 0.0 ==> m.utilAllPct <= m.utilSpanPct)
              && m.otAll == m.otSpan >= 0.0
  {
    var daily := DailyOf(p, id);
    if daily != [] {
      DailyOfRanged(p, id);
      UtilFromFacts(daily, p, id);
    }
  }

  lemma UtilFromFacts(daily: seq<UsageRow>, p: Plan, id: string)
    requires daily != []
    requires exists i :: 0 <= i < |p.allocations| && !IsBox(p.allocations[i]) && p.allocations[i].resourceId == id
    ensures var m, total := UtilFrom(daily, p, id), Sum(daily, RowPct);
            && 1.0 <= ResSpanDays(p, id) <= HorizonDays(p)
            && m.utilAllPct == PerDay(total, HorizonDays(p))
            && m.utilSpanPct == PerDay(total, ResSpanDays(p, id))
            && (total >= 0.0 ==> m.utilAllPct <= m.utilSpanPct)
            && m.otAll == m.otSpan >= 0.0
  {
    SpanWithinHorizon(p, id);
    var total := Sum(daily, RowPct);
    if total >= 0.0 {
      PerDayAntitone(total, ResSpanDays(p, id), HorizonDays(p));
    }
    SumNonNegative(daily, RowOvertime);
  }

  /** `PerDay` is the sum spread evenly over the days... */
  lemma PerDayTimesDays(sum: real, days: real)
    requires days >= 1.0
    ensures PerDay(sum, days) * days == sum
  {
    var q := sum / (days * 100.0);
    assert q * (days * 100.0) == sum;
  }

  /** ... so a longer span gives a smaller share of a non-negative sum. */
  lemma PerDayAntitone(sum: real, d1: real, d2: real)
    requires sum >= 0.0 && 1.0 <= d1 <= d2
    ensures PerDay(sum, d2) <= PerDay(sum, d1)
  {
    PerDayTimesDays(sum, d1);
    PerDayTimesDays(sum, d2);
    var q1, q2 := PerDay(sum, d1), PerDay(sum, d2);
    assert q2 >= 0.0;
    assert q2 * d1 <= q2 * d2 == q1 * d1;
    MulCancel(q2, q1, d1);
  }

  lemma MulCancel(a: real, b: real, c: real)
    requires c > 0.0 && a * c <= b * c
    ensures a <= b
  {
  }
}
