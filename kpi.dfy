/** The numbers behind the KPI bar of `kpi_bar_drawer.js`: average
    utilisation and idle hours over the plan horizon, the over-capacity
    resources, schedule and budget overrun, the per-resource averages of
    the drawer, and the cashflow total. The two plans the source reads
    from globals are parameters: `currentPlan`, the plan being drawn, and
    `plan`, which is `window.plan` and names the idle rows. */
module Kpi {
  import opened Common
  import opened Calendar
  import opened Plan
  import opened Analytics
  import opened ResDrawer
  import opened Cashflow

  /* ---------------- average utilisation ---------------- */

  /** `getUsedResourceIds(currentPlan).size || 1`. */
  function UsedCount(p: Plan): (n: nat)
    ensures n >= 1
    ensures UsedIds(p) != [] ==> n == |UsedIds(p)|
  {
    if |UsedIds(p)| == 0 then 1 else |UsedIds(p)|
  }

  /** `usedCount * days * 100`: the capacity of the horizon, in percent-days. */
  function Capacity(p: Plan, days: real): real
  {
    UsedCount(p) as real * days * 100.0
  }

  /** `kpiAvgUtil(dArr, days)`: the summed daily percentages as a share of
      the capacity, or 0 when the capacity is 0. */
  function AvgUtil(p: Plan, rows: seq<UsageRow>, days: real): real
  {
    Percent(Sum(rows, RowPct), Capacity(p, days))
  }

  lemma PercentTimes(booked: real, available: real)
    requires available != 0.0
    ensures Percent(booked, available) * available == 100.0 * booked
  {
  }

  lemma PercentNonNegative(booked: real, available: real)
    requires booked >= 0.0 && available > 0.0
    ensures Percent(booked, available) >= 0.0
  {
  }

  /** With a horizon of at least one day the capacity is at least 100. */
  lemma CapacityAtLeast(p: Plan, days: real)
    requires days >= 1.0
    ensures Capacity(p, days) >= 100.0
  {
    var n := UsedCount(p) as real;
    assert n * days >= 1.0 * days;
  }

  /** So the guard never fires: the average times the capacity is 100
      times the summed percentages. */
  lemma AvgUtilTimesCapacity(p: Plan, rows: seq<UsageRow>, days: real)
    requires days >= 1.0
    ensures AvgUtil(p, rows, days) * Capacity(p, days) == 100.0 * Sum(rows, RowPct)
  {
    CapacityAtLeast(p, days);
    PercentTimes(Sum(rows, RowPct), Capacity(p, days));
  }

  /** No rows give 0, and loads that are never negative give an average
      that is not negative. */
  lemma AvgUtilSign(p: Plan, rows: seq<UsageRow>, days: real)
    requires days >= 1.0
    ensures rows == [] ==> AvgUtil(p, rows, days) == 0.0
    ensures (forall i :: 0 <= i < |rows| ==> rows[i].pct >= 0.0) ==> AvgUtil(p, rows, days) >= 0.0
  {
    CapacityAtLeast(p, days);
    var c := Capacity(p, days);
    if forall i :: 0 <= i < |rows| ==> rows[i].pct >= 0.0 {
      SumNonNegative(rows, RowPct);
      PercentNonNegative(Sum(rows, RowPct), c);
    }
  }

  /* ---------------- idle rows ---------------- */

  /** One row of `kpiIdleRows`. */
  datatype IdleRow = IdleRow(resourceId: string, resourceName: string, hours: real)

  function RowResource(r: UsageRow): string { r.resourceId }

  function IdleHours(r: IdleRow): real { r.hours }

  /** What is left of `days * 100` once every daily row of `id` is taken
      off: the idle percent-days of the resource, negative when it is
      overbooked. */
  function IdlePct(rows: seq<UsageRow>, id: string, days: real): real
  {
    days * 100.0 - SumWhere(rows, RowResource, id, RowPct)
  }

  /** The mapper of `Array.from(idle, ...)`: the name looked up in `names`,
      and `+(pct / 100 * 8).toFixed(1)` hours. */
  function IdleRowFor(names: seq<Resource>, id: string, pct: real): IdleRow
  {
    IdleRow(id, NameOr(names, id), Round1(pct / 100.0 * 8.0))
  }

  /** The idle row of every id of `ids`, in order. */
  function IdleRowsFor(names: seq<Resource>, ids: seq<string>, rows: seq<UsageRow>, days: real): (out: seq<IdleRow>)
    ensures |out| == |ids|
    ensures forall i :: 0 <= i < |ids| ==> out[i] == IdleRowFor(names, ids[i], IdlePct(rows, ids[i], days))
  {
    if ids == [] then []
    else IdleRowsFor(names, ids[..|ids| - 1], rows, days) + [IdleRowFor(names, ids[|ids| - 1], IdlePct(rows, ids[|ids| - 1], days))]
  }

  /** `kpiIdleRows(dArr, days)` as the source has it: the ids come from
      `currentPlan`, the names from the global `plan`, which `app.js`
      reassigns when a plan is opened or created without updating
      `window.plan`, so the names may come from a stale plan. */
  function IdleRowsAsWritten(stale: Plan, p: Plan, rows: seq<UsageRow>, days: real): seq<IdleRow>
  {
    IdleRowsFor(stale.resources, UsedIds(p), rows, days)
  }

  /** `kpiIdleRows(dArr, days)` with the names looked up in the plan being
      measured. */
  function IdleRows(p: Plan, rows: seq<UsageRow>, days: real): seq<IdleRow>
  {
    IdleRowsFor(p.resources, UsedIds(p), rows, days)
  }

  /** Resource "r1" is named "Ann" in the plan on screen and missing from
      the stale one, so the row the source builds is labelled "r1". */
  lemma StaleNames(stale: Plan, p: Plan, a: Allocation, rows: seq<UsageRow>, days: real)
    requires stale == Plan([], [])
    requires a.resourceId == "r1" && p == Plan([Resource("r1", "Ann", "", 0.0)], [a])
    ensures |IdleRows(p, rows, days)| == |IdleRowsAsWritten(stale, p, rows, days)| == 1
    ensures IdleRows(p, rows, days)[0].resourceName == "Ann"
    ensures IdleRowsAsWritten(stale, p, rows, days)[0].resourceName == "r1"
  {
    assert ResourceIds(p.allocations) == ["r1"];
    assert Distinct(["r1"]) == ["r1"] by {
      assert ["r1"][..0] == [];
    }
  }


  /** The idle percent-days of the ids `ids`, added up. */
  function IdleTotal(ids: seq<string>, rows: seq<UsageRow>, days: real): real
  {
    if ids == [] then 0.0 else IdleTotal(ids[..|ids| - 1], rows, days) + IdlePct(rows, ids[|ids| - 1], days)
  }

  lemma {:induction false} IdleTotalIs(ids: seq<string>, rows: seq<UsageRow>, days: real)
    ensures IdleTotal(ids, rows, days) == |ids| as real * (days * 100.0) - SumOverKeys(ids, rows, RowResource, RowPct)
    decreases |ids|
  {
    if ids != [] {
      IdleTotalIs(ids[..|ids| - 1], rows, days);
      var c := days * 100.0;
      assert (|ids| - 1) as real * c + c == |ids| as real * c;
    }
  }

  /** Idle time and booked time together fill the capacity: when every
      daily row belongs to a used resource, the idle percent-days of all
      used resources plus the summed daily percentages are the used count
      times `days * 100`. */
  lemma IdleConserved(p: Plan, rows: seq<UsageRow>, days: real)
    requires forall i :: 0 <= i < |rows| ==> rows[i].resourceId in UsedIds(p)
    ensures IdleTotal(UsedIds(p), rows, days) + Sum(rows, RowPct) == |UsedIds(p)| as real * (days * 100.0)
  {
    IdleTotalIs(UsedIds(p), rows, days);
    SumOverKeysPartition(UsedIds(p), rows, RowResource, RowPct);
  }

  /** Each row's hours are the idle percent-days at 8 hours a day, to
      within the rounding to one decimal; nothing keeps them from being
      negative, which they are once a resource is overbooked by more than
      0.625 percent-days. */
  lemma IdleHoursNear(names: seq<Resource>, ids: seq<string>, rows: seq<UsageRow>, days: real)
    ensures var out := IdleRowsFor(names, ids, rows, days);
            forall i :: 0 <= i < |out| ==>
              var exact := IdlePct(rows, ids[i], days) / 100.0 * 8.0;
              && exact - 0.05 <= out[i].hours <= exact + 0.05
              && (IdlePct(rows, ids[i], days) < -0.625 ==> out[i].hours < 0.0)
  {
  }

  /** Every row of the daily table belongs to a used resource. */
  lemma DailyRowsUsed(p: Plan, fromDay: string)
    ensures forall i :: 0 <= i < |DailyUsage(p)| ==> DailyUsage(p)[i].resourceId in UsedIds(p)
    ensures forall i :: 0 <= i < |DailyUsageFrom(p, fromDay)| ==> DailyUsageFrom(p, fromDay)[i].resourceId in UsedIds(p)
  {
    forall i | 0 <= i < |DailyUsage(p)| ensures DailyUsage(p)[i].resourceId in UsedIds(p) {
      UsageRowFromRanged(p, DayKey, DailyUsage(p)[i]);
    }
    DailyUsageFromRows(p, fromDay);
  }

  /** `usedResIds.forEach(id => idle.set(id, days * 100))`. */
  method SeedIdle(ids: seq<string>, days: real) returns (keys: seq<string>, idle: map<string, real>)
    requires NoDuplicates(ids)
    ensures keys == ids
    ensures forall k :: k in idle <==> k in ids
    ensures forall k :: k in idle ==> idle[k] == days * 100.0
  {
    keys, idle := [], map[];
    var i := 0;
    while i < |ids|
      invariant 0 <= i <= |ids|
      invariant keys == ids[..i]
      invariant forall k :: k in idle <==> k in keys
      invariant forall k :: k in idle ==> idle[k] == days * 100.0
    {
      var id := ids[i];
      assert id !in ids[..i];
      if id !in idle {
        keys := keys + [id];
      }
      idle := idle[id := days * 100.0];
      assert ids[..i + 1] == ids[..i] + [id];
      i := i + 1;
    }
  }

  lemma IdleStep(rows: seq<UsageRow>, j: int, k: string, days: real)
    requires 0 <= j < |rows|
    ensures IdlePct(rows[..j + 1], k, days) ==
              IdlePct(rows[..j], k, days) - (if rows[j].resourceId == k then rows[j].pct else 0.0)
  {
    assert rows[..j + 1] == rows[..j] + [rows[j]];
    SumWhereSnoc(rows[..j], rows[j], RowResource, k, RowPct);
  }

  /** `dArr.forEach(r => idle.set(r.resource_id, idle.get(r.resource_id) - r.pct))`. */
  method SubtractRows(ids: seq<string>, idle0: map<string, real>, rows: seq<UsageRow>, days: real)
    returns (idle: map<string, real>)
    requires forall k :: k in idle0 <==> k in ids
    requires forall k :: k in idle0 ==> idle0[k] == days * 100.0
    requires forall i :: 0 <= i < |rows| ==> rows[i].resourceId in ids
    ensures forall k :: k in idle <==> k in ids
    ensures forall k :: k in idle ==> idle[k] == IdlePct(rows, k, days)
  {
    idle := idle0;
    var j := 0;
    while j < |rows|
      invariant 0 <= j <= |rows|
      invariant forall k :: k in idle <==> k in ids
      invariant forall k :: k in idle ==> idle[k] == IdlePct(rows[..j], k, days)
    {
      var r := rows[j];
      forall k | k in idle
        ensures IdlePct(rows[..j + 1], k, days) ==
                  IdlePct(rows[..j], k, days) - (if rows[j].resourceId == k then rows[j].pct else 0.0)
      {
        IdleStep(rows, j, k, days);
      }
      idle := idle[r.resourceId := idle[r.resourceId] - r.pct];
      j := j + 1;
    }
    assert rows[..|rows|] == rows;
  }

  /** `kpiIdleRows(dArr, days)`, with the names looked up in `names`. Every
      daily row belongs to a used resource (`DailyRowsUsed`), which the
      subtraction relies on. */
  method KpiIdleRows(p: Plan, names: seq<Resource>, rows: seq<UsageRow>, days: real) returns (out: seq<IdleRow>)
    requires forall i :: 0 <= i < |rows| ==> rows[i].resourceId in UsedIds(p)
    ensures out == IdleRowsFor(names, UsedIds(p), rows, days)
  {
    var ids := UsedIds(p);
    var keys, idle0 := SeedIdle(ids, days);
    var idle := SubtractRows(ids, idle0, rows, days);
    out := IdleRecords(names, keys, idle, rows, days);
  }

  /** The `Array.from(idle, ...)` of `kpiIdleRows`: one row per key, in
      key order, with the hours of its remaining percentage. */
  method IdleRecords(names: seq<Resource>, keys: seq<string>, idle: map<string, real>, rows: seq<UsageRow>,
                     days: real) returns (out: seq<IdleRow>)
    requires forall k :: k in keys ==> k in idle && idle[k] == IdlePct(rows, k, days)
    ensures out == IdleRowsFor(names, keys, rows, days)
  {
    out := [];
    var k := 0;
    while k < |keys|
      invariant 0 <= k <= |keys|
      invariant out == IdleRowsFor(names, keys[..k], rows, days)
    {
      var id := keys[k];
      assert keys[..k + 1] == keys[..k] + [id];
      out := out + [IdleRowFor(names, id, idle[id])];
      k := k + 1;
    }
    assert keys[..|keys|] == keys;
  }

  /* ---------------- over-capacity sets ---------------- */

  predicate Overloaded(r: UsageRow) { r.pct > 100.0 }

  /** `.map(r => r.resource_id)`. */
  function RowIds(rows: seq<UsageRow>): seq<string>
  {
    Map(rows, RowResource)
  }

  /** `new Set(daily.filter(r => r.pct > 100).map(r => r.resource_id))`, in
      iteration order. */
  function OverSet(rows: seq<UsageRow>): seq<string>
  {
    Distinct(RowIds(Filter(rows, Overloaded)))
  }

  /** Some daily row of `x` is above 100 %. */
  ghost predicate OverloadedOn(rows: seq<UsageRow>, x: string)
  {
    exists i :: 0 <= i < |rows| && rows[i].pct > 100.0 && rows[i].resourceId == x
  }

  /** The set holds each resource once, and exactly the resources with a
      daily row above 100 %. */
  lemma OverSetIs(rows: seq<UsageRow>, x: string)
    ensures NoDuplicates(OverSet(rows))
    ensures x in OverSet(rows) <==> OverloadedOn(rows, x)
  {
    var f := Filter(rows, Overloaded);
    FilterMembers(rows, Overloaded);
    var ids := RowIds(f);
    if x in OverSet(rows) {
      var j :| 0 <= j < |ids| && ids[j] == x;
      var i :| 0 <= i < |rows| && rows[i] == f[j];
      assert rows[i].pct > 100.0 && rows[i].resourceId == x;
    }
    if OverloadedOn(rows, x) {
      var i :| 0 <= i < |rows| && rows[i].pct > 100.0 && rows[i].resourceId == x;
      assert rows[i] in f;
      var j :| 0 <= j < |f| && f[j] == rows[i];
      assert ids[j] == x;
    }
  }

  /** Every resource over capacity in some of the rows is over capacity in
      all of them. */
  lemma OverSetWithin(sub: seq<UsageRow>, all: seq<UsageRow>, x: string)
    requires forall i :: 0 <= i < |sub| ==> sub[i] in all
    requires x in OverSet(sub)
    ensures x in OverSet(all)
  {
    OverSetIs(sub, x);
    OverSetIs(all, x);
    var i :| 0 <= i < |sub| && sub[i].pct > 100.0 && sub[i].resourceId == x;
    assert sub[i] in all;
    var j :| 0 <= j < |all| && all[j] == sub[i];
  }

  /** A resource over capacity from `fromDay` on is over capacity in the
      whole table. */
  lemma OverFutWithinAll(p: Plan, fromDay: string, x: string)
    requires x in OverSet(DailyUsageFrom(p, fromDay))
    ensures x in OverSet(DailyUsage(p))
  {
    DailyUsageFromRows(p, fromDay);
    OverSetWithin(DailyUsageFrom(p, fromDay), DailyUsage(p), x);
  }

  /* ---------------- schedule and budget overrun ---------------- */

  /** `a.baseline_end && a.end && end > baseline_end`. */
  predicate Late(a: Allocation)
  {
    a.baselineEnd.Some? && a.end.Some? && a.end.value > a.baselineEnd.value
  }

  /** What an allocation adds to `delayDays`: its lateness in days. */
  function Lateness(a: Allocation): real
  {
    if Late(a) then (a.end.value - a.baselineEnd.value) as real / DayMs as real else 0.0
  }

  /** What an allocation adds to `budgetD`: `cost - baseline_cost` once it
      has a baseline cost. */
  function Overrun(a: Allocation): real
  {
    if a.baselineCost.Some? then a.cost - a.baselineCost.value else 0.0
  }

  /** The cost of an allocation that has a baseline cost. */
  function BudgetedCost(a: Allocation): real
  {
    if a.baselineCost.Some? then a.cost else 0.0
  }

  /** The `plan.allocations.forEach` of `refreshKpis` that adds up
      `delayDays` and `budgetD`. */
  method Overruns(allocs: seq<Allocation>) returns (delayDays: real, budgetD: real)
    ensures delayDays == Sum(allocs, Lateness)
    ensures budgetD == Sum(allocs, Overrun)
  {
    delayDays, budgetD := 0.0, 0.0;
    var i := 0;
    while i < |allocs|
      invariant 0 <= i <= |allocs|
      invariant delayDays == Sum(allocs[..i], Lateness)
      invariant budgetD == Sum(allocs[..i], Overrun)
    {
      var a := allocs[i];
      assert allocs[..i + 1][..i] == allocs[..i];
      if a.baselineEnd.Some? && a.end.Some? && a.end.value > a.baselineEnd.value {
        delayDays := delayDays + (a.end.value - a.baselineEnd.value) as real / DayMs as real;
      }
      if a.baselineCost.Some? {
        budgetD := budgetD + (a.cost - a.baselineCost.value);
      }
      i := i + 1;
    }
    assert allocs[..|allocs|] == allocs;
  }

  /** Only lateness counts, never earliness: the delay is never negative,
      and it is 0 exactly when no allocation ends after its baseline end. */
  lemma DelayFacts(allocs: seq<Allocation>)
    ensures Sum(allocs, Lateness) >= 0.0
    ensures Sum(allocs, Lateness) == 0.0 <==> forall i :: 0 <= i < |allocs| ==> !Late(allocs[i])
  {
    assert forall i :: 0 <= i < |allocs| ==> Lateness(allocs[i]) >= 0.0;
    SumNonNegative(allocs, Lateness);
    if exists i :: 0 <= i < |allocs| && Late(allocs[i]) {
      var i :| 0 <= i < |allocs| && Late(allocs[i]);
      SumPositive(allocs, Lateness, i);
    } else {
      SumZero(allocs, Lateness);
    }
  }

  /** The budget overrun is the cost of the allocations with a baseline
      cost less their baseline costs; allocations without one count for
      nothing on either side. */
  lemma BudgetFacts(allocs: seq<Allocation>)
    ensures Sum(allocs, Overrun) == Sum(allocs, BudgetedCost) - Sum(allocs, BaselineCost)
  {
    SumPlus(allocs, Overrun, BaselineCost, BudgetedCost);
  }

  /* ---------------- groupAvg ---------------- */

  /** A record of `byRes`: the first row's name, the summed percentages and
      the number of rows. */
  datatype Acc = Acc(name: string, sum: real, days: nat)

  /** `byRes`: its keys in insertion order, and their records. */
  datatype Groups = Groups(keys: seq<string>, recs: map<string, Acc>)

  /** One pass of the `forEach`: fetch or create the record, add the row. */
  function Visit(g: Groups, r: UsageRow): Groups
  {
    if r.resourceId in g.recs then
      var a := g.recs[r.resourceId];
      Groups(g.keys, g.recs[r.resourceId := Acc(a.name, a.sum + r.pct, a.days + 1)])
    else
      Groups(g.keys + [r.resourceId], g.recs[r.resourceId := Acc(r.resourceName, 0.0 + r.pct, 0 + 1)])
  }

  /** `byRes` after every row, in order. */
  function Group(rows: seq<UsageRow>): Groups
  {
    if rows == [] then Groups([], map[]) else Visit(Group(rows[..|rows| - 1]), rows[|rows| - 1])
  }

  /** The name on the first row of resource `k`, if it has a row. */
  function FirstName(rows: seq<UsageRow>, k: string): Option<string>
  {
    if rows == [] then None
    else
      var f := FirstName(rows[..|rows| - 1], k);
      if f.Some? then f
      else if rows[|rows| - 1].resourceId == k then Some(rows[|rows| - 1].resourceName)
      else None
  }

  /** `FirstName` is the name of the earliest row of the resource, and
      there is one exactly when the resource has a row. */
  lemma {:induction false} FirstNameIs(rows: seq<UsageRow>, k: string)
    ensures FirstName(rows, k).Some? <==> exists i :: 0 <= i < |rows| && rows[i].resourceId == k
    ensures FirstName(rows, k).Some? ==>
              exists i :: 0 <= i < |rows| && rows[i].resourceId == k && rows[i].resourceName == FirstName(rows, k).value
                          && forall j :: 0 <= j < i ==> rows[j].resourceId != k
    decreases |rows|
  {
    if rows != [] {
      var init := rows[..|rows| - 1];
      FirstNameIs(init, k);
      assert forall j :: 0 <= j < |init| ==> rows[j] == init[j];
      if FirstName(init, k).None? && rows[|rows| - 1].resourceId == k {
        assert forall j :: 0 <= j < |rows| - 1 ==> rows[j].resourceId != k;
      }
    }
  }

  lemma {:induction false} FirstNameNone(rows: seq<UsageRow>, k: string)
    requires forall i :: 0 <= i < |rows| ==> rows[i].resourceId != k
    ensures FirstName(rows, k) == None
    decreases |rows|
  {
    if rows != [] {
      FirstNameNone(rows[..|rows| - 1], k);
    }
  }

  lemma FirstNameSnoc(rows: seq<UsageRow>, x: UsageRow, k: string)
    ensures FirstName(rows + [x], k) ==
              if FirstName(rows, k).Some? then FirstName(rows, k)
              else if x.resourceId == k then Some(x.resourceName) else None
  {
    assert (rows + [x])[..|rows|] == rows;
  }

  /** The record of resource `k` holds exactly that resource's rows. */
  ghost predicate RecordOf(a: Acc, rows: seq<UsageRow>, k: string)
  {
    && a.sum == SumWhere(rows, RowResource, k, RowPct)
    && a.days == CountWhere(rows, RowResource, k)
    && a.days >= 1
    && FirstName(rows, k) == Some(a.name)
  }

  /** One record per distinct resource, in the order of first appearance,
      each holding that resource's rows. */
  ghost predicate GroupsOf(g: Groups, rows: seq<UsageRow>)
  {
    && g.keys == Distinct(RowIds(rows))
    && (forall k :: k in g.recs <==> k in g.keys)
    && (forall k :: k in g.recs ==> RecordOf(g.recs[k], rows, k))
  }

  /** The record of the new row's resource. */
  lemma VisitHit(g: Groups, init: seq<UsageRow>, x: UsageRow)
    requires GroupsOf(g, init)
    ensures x.resourceId in Visit(g, x).recs
    ensures RecordOf(Visit(g, x).recs[x.resourceId], init + [x], x.resourceId)
  {
    var k := x.resourceId;
    SumWhereSnoc(init, x, RowResource, k, RowPct);
    FirstNameSnoc(init, x, k);
    if k !in g.recs {
      forall i | 0 <= i < |init| ensures init[i].resourceId != k {
        assert RowIds(init)[i] == init[i].resourceId;
      }
      SumWhereNone(init, RowResource, k, RowPct);
      FirstNameNone(init, k);
    }
  }

  /** Every other record is as it was. */
  lemma VisitMiss(g: Groups, init: seq<UsageRow>, x: UsageRow, k: string)
    requires GroupsOf(g, init)
    requires k in Visit(g, x).recs && k != x.resourceId
    ensures RecordOf(Visit(g, x).recs[k], init + [x], k)
  {
    SumWhereSnoc(init, x, RowResource, k, RowPct);
    FirstNameSnoc(init, x, k);
  }

  /** The keys follow the order of first appearance. */
  lemma VisitKeys(g: Groups, init: seq<UsageRow>, x: UsageRow)
    requires GroupsOf(g, init)
    ensures Visit(g, x).keys == Distinct(RowIds(init + [x]))
    ensures forall k :: k in Visit(g, x).recs <==> k in Visit(g, x).keys
  {
    var rows := init + [x];
    assert rows[..|rows| - 1] == init;
    assert RowIds(rows)[..|rows| - 1] == RowIds(init);
  }

  lemma {:induction false} GroupIsGroups(rows: seq<UsageRow>)
    ensures GroupsOf(Group(rows), rows)
    decreases |rows|
  {
    if rows != [] {
      var init, x := rows[..|rows| - 1], rows[|rows| - 1];
      GroupIsGroups(init);
      var g := Group(init);
      assert rows == init + [x];
      VisitKeys(g, init, x);
      VisitHit(g, init, x);
      forall k | k in Visit(g, x).recs && k != x.resourceId ensures RecordOf(Visit(g, x).recs[k], rows, k) {
        VisitMiss(g, init, x, k);
      }
    }
  }

  /** Every key has a record, and it has counted a row. */
  predicate Counted(keys: seq<string>, recs: map<string, Acc>)
  {
    forall i :: 0 <= i < |keys| ==> keys[i] in recs && recs[keys[i]].days >= 1
  }

  lemma {:induction false} GroupCounted(rows: seq<UsageRow>)
    ensures Counted(Group(rows).keys, Group(rows).recs)
    decreases |rows|
  {
    if rows != [] {
      GroupCounted(rows[..|rows| - 1]);
    }
  }

  /** One row of `groupAvg`: the record with `pct: r.sum / r.days`. */
  datatype AvgRow = AvgRow(resourceId: string, resourceName: string, sum: real, days: nat, pct: real)

  function AvgSum(r: AvgRow): real { r.sum }
  function AvgDays(r: AvgRow): real { r.days as real }

  /** `resource_id` of each average. */
  function AvgIds(rows: seq<AvgRow>): seq<string>
  {
    Map(rows, (r: AvgRow) => r.resourceId)
  }

  /** `r.sum / r.days`. */
  function Mean(sum: real, days: nat): (m: real)
    requires days >= 1
    ensures m * days as real == sum
  {
    sum / days as real
  }

  /** `Array.from(byRes.values()).map(r => ({ ...r, pct: r.sum / r.days }))`. */
  function AvgRows(keys: seq<string>, recs: map<string, Acc>): (out: seq<AvgRow>)
    requires Counted(keys, recs)
    ensures |out| == |keys|
    ensures forall i :: 0 <= i < |keys| ==>
              out[i] == AvgRow(keys[i], recs[keys[i]].name, recs[keys[i]].sum, recs[keys[i]].days,
                               Mean(recs[keys[i]].sum, recs[keys[i]].days))
  {
    if keys == [] then []
    else
      var k := keys[|keys| - 1];
      AvgRows(keys[..|keys| - 1], recs) + [AvgRow(k, recs[k].name, recs[k].sum, recs[k].days, Mean(recs[k].sum, recs[k].days))]
  }

  /** `groupAvg(dailyArr)`. */
  function GroupAvg(rows: seq<UsageRow>): seq<AvgRow>
  {
    GroupCounted(rows);
    AvgRows(Group(rows).keys, Group(rows).recs)
  }

  /** Each resource of the rows gets exactly one output row, in the order
      of first appearance, and no other resource does. */
  lemma GroupAvgIds(rows: seq<UsageRow>)
    ensures AvgIds(GroupAvg(rows)) == Distinct(RowIds(rows))
    ensures NoDuplicates(AvgIds(GroupAvg(rows)))
    ensures forall x :: x in AvgIds(GroupAvg(rows)) <==> x in RowIds(rows)
  {
    GroupIsGroups(rows);
    var out := GroupAvg(rows);
    assert AvgIds(out) == Group(rows).keys;
  }

  /** The output row of a resource carries its summed percentages, its
      number of rows (at least 1), the name on its first row, and their
      mean (whose product with the count is the sum). */
  lemma GroupAvgRecord(rows: seq<UsageRow>, i: int)
    requires 0 <= i < |GroupAvg(rows)|
    ensures GroupAvg(rows)[i].sum == SumWhere(rows, RowResource, GroupAvg(rows)[i].resourceId, RowPct)
    ensures GroupAvg(rows)[i].days == CountWhere(rows, RowResource, GroupAvg(rows)[i].resourceId) >= 1
    ensures FirstName(rows, GroupAvg(rows)[i].resourceId) == Some(GroupAvg(rows)[i].resourceName)
    ensures GroupAvg(rows)[i].pct == Mean(GroupAvg(rows)[i].sum, GroupAvg(rows)[i].days)
  {
    GroupIsGroups(rows);
    GroupCounted(rows);
    var g := Group(rows);
    var out := AvgRows(g.keys, g.recs);
    assert GroupAvg(rows) == out;
    var k := g.keys[i];
    assert k in g.keys;
    var a := g.recs[k];
    assert RecordOf(a, rows, k);
    assert out[i] == AvgRow(k, a.name, a.sum, a.days, Mean(a.sum, a.days));
  }

  lemma {:induction false} AvgRowsSums(keys: seq<string>, recs: map<string, Acc>, rows: seq<UsageRow>)
    requires Counted(keys, recs)
    requires forall i :: 0 <= i < |keys| ==> RecordOf(recs[keys[i]], rows, keys[i])
    ensures Sum(AvgRows(keys, recs), AvgSum) == SumOverKeys(keys, rows, RowResource, RowPct)
    decreases |keys|
  {
    if keys != [] {
      var n := |keys|;
      var init := keys[..n - 1];
      AvgRowsSums(init, recs, rows);
      var out := AvgRows(keys, recs);
      assert out[..n - 1] == AvgRows(init, recs);
      assert RecordOf(recs[keys[n - 1]], rows, keys[n - 1]);
      assert AvgSum(out[n - 1]) == SumWhere(rows, RowResource, keys[n - 1], RowPct);
    }
  }

  lemma {:induction false} AvgRowsDays(keys: seq<string>, recs: map<string, Acc>, rows: seq<UsageRow>,
                                        one: UsageRow -> real)
    requires Counted(keys, recs)
    requires forall i :: 0 <= i < |keys| ==> RecordOf(recs[keys[i]], rows, keys[i])
    requires forall x :: one(x) == 1.0
    ensures Sum(AvgRows(keys, recs), AvgDays) == SumOverKeys(keys, rows, RowResource, one)
    decreases |keys|
  {
    if keys != [] {
      var n := |keys|;
      var init := keys[..n - 1];
      AvgRowsDays(init, recs, rows, one);
      var out := AvgRows(keys, recs);
      assert out[..n - 1] == AvgRows(init, recs);
      assert RecordOf(recs[keys[n - 1]], rows, keys[n - 1]);
      CountIsSum(rows, RowResource, keys[n - 1], one);
      assert AvgDays(out[n - 1]) == SumWhere(rows, RowResource, keys[n - 1], one);
    }
  }

  /** The records split the rows: their sums add up to the summed
      percentages of all rows, and their day counts to the number of rows. */
  lemma GroupAvgConserves(rows: seq<UsageRow>)
    ensures Sum(GroupAvg(rows), AvgSum) == Sum(rows, RowPct)
    ensures Sum(GroupAvg(rows), AvgDays) == |rows| as real
  {
    GroupIsGroups(rows);
    GroupCounted(rows);
    var g := Group(rows);
    var one := (r: UsageRow) => 1.0;
    forall i | 0 <= i < |g.keys| ensures RecordOf(g.recs[g.keys[i]], rows, g.keys[i]) {
      assert g.keys[i] in g.keys;
    }
    AvgRowsSums(g.keys, g.recs, rows);
    AvgRowsDays(g.keys, g.recs, rows, one);
    forall i | 0 <= i < |rows| ensures RowResource(rows[i]) in g.keys {
      assert RowIds(rows)[i] == rows[i].resourceId;
    }
    SumOverKeysPartition(g.keys, rows, RowResource, RowPct);
    SumOverKeysPartition(g.keys, rows, RowResource, one);
    SumOfOnes(rows, one);
  }

  /** The `forEach` of `groupAvg` over the rows. */
  method FillGroups(rows: seq<UsageRow>) returns (g: Groups)
    ensures g == Group(rows)
  {
    var keys: seq<string> := [];
    var recs: map<string, Acc> := map[];
    var i := 0;
    while i < |rows|
      invariant 0 <= i <= |rows|
      invariant Groups(keys, recs) == Group(rows[..i])
    {
      var r := rows[i];
      assert rows[..i + 1][..i] == rows[..i];
      var rec := if r.resourceId in recs then recs[r.resourceId] else Acc(r.resourceName, 0.0, 0);
      rec := Acc(rec.name, rec.sum + r.pct, rec.days + 1);
      if r.resourceId !in recs {
        keys := keys + [r.resourceId];
      }
      recs := recs[r.resourceId := rec];
      i := i + 1;
    }
    assert rows[..|rows|] == rows;
    g := Groups(keys, recs);
  }

  /** The `.map` of `groupAvg`: one output row per record, in key order. */
  method ListAverages(g: Groups) returns (out: seq<AvgRow>)
    requires Counted(g.keys, g.recs)
    ensures out == AvgRows(g.keys, g.recs)
  {
    out := [];
    var k := 0;
    while k < |g.keys|
      invariant 0 <= k <= |g.keys|
      invariant out == AvgRows(g.keys[..k], g.recs)
    {
      var id := g.keys[k];
      var r := g.recs[id];
      assert g.keys[..k + 1][..k] == g.keys[..k];
      out := out + [AvgRow(id, r.name, r.sum, r.days, r.sum / r.days as real)];
      k := k + 1;
    }
    assert g.keys[..|g.keys|] == g.keys;
  }

  /** `groupAvg(dailyArr)`: group the rows, then average every group. */
  method BuildGroupAvg(rows: seq<UsageRow>) returns (out: seq<AvgRow>)
    ensures out == GroupAvg(rows)
  {
    var g := FillGroups(rows);
    GroupCounted(rows);
    out := ListAverages(g);
  }

  /* ---------------- horizon ---------------- */

  /** `horizonDays`: from the earliest start to the latest end, where the
      latest end is floored at the start. */
  function Horizon(p: Plan): real
    requires |p.allocations| > 0
  {
    var s := PlanStart(p.allocations);
    DaysBetween(s, PlanEnd(p.allocations, s))
  }

  /** `horizonDaysF`: from today's midnight `today` to the same latest end. */
  function HorizonFrom(p: Plan, today: int): real
    requires |p.allocations| > 0
  {
    DaysBetween(today, PlanEnd(p.allocations, PlanStart(p.allocations)))
  }

  /** Both horizons are at least a day; the floor at the start means the
      plan horizon is never clipped by `max(1, ...)`, and once the plan has
      started the remaining horizon is no longer than the whole one. */
  lemma HorizonFacts(p: Plan, today: int)
    requires |p.allocations| > 0
    ensures Horizon(p) >= 1.0 && HorizonFrom(p, today) >= 1.0
    ensures var s := PlanStart(p.allocations);
            Horizon(p) == SpanDays(s, PlanEnd(p.allocations, s))
    ensures PlanStart(p.allocations) <= today ==> HorizonFrom(p, today) <= Horizon(p)
  {
    var s := PlanStart(p.allocations);
    var e := PlanEnd(p.allocations, s);
    if s <= today {
      if today <= e {
        DaysBetweenMonotone(s, e, today, e);
      }
    }
  }

  /** With a ranged allocation the KPI horizon is the horizon the resource
      drawer measures against. */
  lemma HorizonIsDrawerHorizon(p: Plan)
    requires exists i :: 0 <= i < |p.allocations| && !IsBox(p.allocations[i])
    ensures |p.allocations| > 0 && Horizon(p) == HorizonDays(p)
  {
    var s := PlanStart(p.allocations);
    var e := PlanEnd(p.allocations, s);
    var l := LatestEnd(p.allocations);
    if l >= s {
      assert e == l;
    } else {
      assert e == s;
    }
  }

  /* ---------------- refreshKpis ---------------- */

  /** What `refreshKpis` computes and caches, before it is written out. */
  datatype Kpis = Kpis(
    dailyAll: seq<UsageRow>, dailyFut: seq<UsageRow>,
    utilAll: real, utilFut: real,
    idleRowsAll: seq<IdleRow>, idleRowsFut: seq<IdleRow>,
    idleAllTot: real, idleFutTot: real,
    overAll: seq<string>, overFut: seq<string>,
    delayDays: real, budgetD: real,
    totalCurrent: real)

  /** `refreshKpis(plan)` on the plan `p` for today's midnight `today`,
      with `windowPlan` the global `plan` the idle rows take their names
      from; `fromDay` is the day string `buildDailyUsageFrom` compares
      with. */
  function KpisOf(p: Plan, windowPlan: Plan, today: int, fromDay: string): Kpis
    requires |p.allocations| > 0
  {
    var all, fut := DailyUsage(p), DailyUsageFrom(p, fromDay);
    var h, hf := Horizon(p), HorizonFrom(p, today);
    var idleAll, idleFut := IdleRowsAsWritten(windowPlan, p, all, h), IdleRowsAsWritten(windowPlan, p, fut, hf);
    Kpis(all, fut, AvgUtil(p, all, h), AvgUtil(p, fut, hf), idleAll, idleFut,
         Sum(idleAll, IdleHours), Sum(idleFut, IdleHours), OverSet(all), OverSet(fut),
         Sum(p.allocations, Lateness), Sum(p.allocations, Overrun),
         Sum(Cashflow.Cashflow(p, ByMonth), RowCurrent))
  }

  /** `refreshKpis(plan)`: the daily tables, the KPIs on them, the overrun
      loop and the month cashflow. */
  method RefreshKpis(p: Plan, windowPlan: Plan, today: int, fromDay: string) returns (k: Kpis)
    requires |p.allocations| > 0
    ensures k == KpisOf(p, windowPlan, today, fromDay)
  {
    var h, hf := Horizon(p), HorizonFrom(p, today);
    var all := BuildDailyUsage(p);
    var fut := DailyUsageFrom(p, fromDay);
    DailyRowsUsed(p, fromDay);
    var idleAll := KpiIdleRows(p, windowPlan.resources, all, h);
    var idleFut := KpiIdleRows(p, windowPlan.resources, fut, hf);
    var delay, budget := Overruns(p.allocations);
    var cf := BuildCashflow(p, ByMonth);
    k := Kpis(all, fut, AvgUtil(p, all, h), AvgUtil(p, fut, hf), idleAll, idleFut,
              Sum(idleAll, IdleHours), Sum(idleFut, IdleHours), OverSet(all), OverSet(fut),
              delay, budget, Sum(cf, RowCurrent));
  }

  /** The idle percentages of the used resources and the booked ones fill
      the capacity of the horizon between them. */
  lemma KpisIdleAll(p: Plan, h: real)
    ensures IdleTotal(UsedIds(p), DailyUsage(p), h) + Sum(DailyUsage(p), RowPct) == |UsedIds(p)| as real * (h * 100.0)
  {
    DailyRowsUsed(p, "");
    IdleConserved(p, DailyUsage(p), h);
  }

  /** The same from `fromDay` on. */
  lemma KpisIdleFut(p: Plan, fromDay: string, h: real)
    ensures IdleTotal(UsedIds(p), DailyUsageFrom(p, fromDay), h) + Sum(DailyUsageFrom(p, fromDay), RowPct)
            == |UsedIds(p)| as real * (h * 100.0)
  {
    DailyRowsUsed(p, fromDay);
    IdleConserved(p, DailyUsageFrom(p, fromDay), h);
  }

  /** The future over-capacity resources are among all of them, the delay
      is never negative, and the cashflow total is the cost of every
      allocation that has a day to spread it over. */
  lemma KpisFacts(p: Plan, windowPlan: Plan, today: int, fromDay: string)
    requires |p.allocations| > 0
    ensures var k := KpisOf(p, windowPlan, today, fromDay);
            && (forall x :: x in k.overFut ==> x in k.overAll)
            && k.delayDays >= 0.0
            && k.totalCurrent == Sum(p.allocations, SpreadCost)
  {
    forall x | x in OverSet(DailyUsageFrom(p, fromDay)) ensures x in OverSet(DailyUsage(p)) {
      OverFutWithinAll(p, fromDay, x);
    }
    DelayFacts(p.allocations);
    CashflowConserves(p, KeyOf(ByMonth));
  }

  /** `out` has one idle row per used resource of `p`, in the order the
      allocations first mention them, labelled by that resource's name in
      `p`. */
  ghost predicate NamedFrom(out: seq<IdleRow>, p: Plan)
  {
    && |out| == |UsedIds(p)|
    && forall i :: 0 <= i < |out| ==>
         out[i].resourceId == UsedIds(p)[i] && out[i].resourceName == NameOr(p.resources, UsedIds(p)[i])
  }

  lemma IdleRowsNamedFrom(p: Plan, rows: seq<UsageRow>, days: real)
    ensures NamedFrom(IdleRowsAsWritten(p, p, rows, days), p)
  {
  }

  /** The corrected KPIs, with the global plan the plan being drawn: both
      tables of idle rows are named from the drawn plan. */
  lemma IdleRowsNamed(p: Plan, today: int, fromDay: string)
    requires |p.allocations| > 0
    ensures NamedFrom(KpisOf(p, p, today, fromDay).idleRowsAll, p)
    ensures NamedFrom(KpisOf(p, p, today, fromDay).idleRowsFut, p)
  {
    IdleRowsNamedFrom(p, DailyUsage(p), Horizon(p));
    IdleRowsNamedFrom(p, DailyUsageFrom(p, fromDay), HorizonFrom(p, today));
  }

  /** `refreshKpis` after a plan is opened while `window.plan` still holds
      an empty plan: the idle row of Ann's resource is labelled "r1", while
      the corrected KPIs label it "Ann". */
  lemma KpisStaleNames(stale: Plan, p: Plan, a: Allocation, today: int, fromDay: string)
    requires stale == Plan([], [])
    requires a.resourceId == "r1" && p == Plan([Resource("r1", "Ann", "", 0.0)], [a])
    ensures |KpisOf(p, stale, today, fromDay).idleRowsAll| == |KpisOf(p, p, today, fromDay).idleRowsAll| == 1
    ensures KpisOf(p, stale, today, fromDay).idleRowsAll[0].resourceName == "r1"
    ensures KpisOf(p, p, today, fromDay).idleRowsAll[0].resourceName == "Ann"
  {
    StaleNames(stale, p, a, DailyUsage(p), Horizon(p));
  }
}
