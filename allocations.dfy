/** `allocations.js`: durations, the clash check, the cost of one allocation,
    and the overbooking sweep that marks where a resource is booked above
    100 %. */
module Allocations {
  import opened Common
  import opened Plan

  /* ---------------- durations and cost ---------------- */

  /** `durationHours`: 0 for a box; otherwise the span in hours with the end
      millisecond counted as booked, so a ranged allocation whose end is
      not before its start lasts a positive time. */
  function DurationHours(a: Allocation): (h: real)
    ensures IsBox(a) ==> h == 0.0
    ensures !IsBox(a) && a.start <= a.end.value ==> h > 0.0
  {
    if IsBox(a) then 0.0 else (a.end.value - a.start + 1) as real / 3600000.0
  }

  /** `durationDays`: the hours in days, to one decimal. */
  function DurationDays(a: Allocation): (d: real)
    ensures -0.05 <= d - DurationHours(a) / 24.0 <= 0.05
    ensures IsBox(a) ==> d == 0.0
  {
    Round1(DurationHours(a) / 24.0)
  }

  /** The hourly rate `calcCost` uses: that of the first resource with the
      allocation's resource id, or 0 when there is none. */
  function Rate(rs: seq<Resource>, id: string): (rate: real)
    ensures (forall i :: 0 <= i < |rs| ==> rs[i].id != id) ==> rate == 0.0
    ensures (exists i :: 0 <= i < |rs| && rs[i].id == id) ==>
              exists i :: 0 <= i < |rs| && rs[i].id == id && rs[i].costPerHour == rate
                          && forall j :: 0 <= j < i ==> rs[j].id != id
  {
    FindResourceFinds(rs, id);
    var r := FindResource(rs, id);
    if r.Some? then r.value.costPerHour else 0.0
  }

  /** `calcCost`: planned hours times the rate, to two decimals. The planned
      hours come from `plannedHours`, which is not part of this model and is
      taken as a parameter. */
  function CalcCost(a: Allocation, rs: seq<Resource>, hours: Allocation -> real): (c: real)
    ensures -0.005 <= c - hours(a) * Rate(rs, a.resourceId) <= 0.005
    ensures (forall i :: 0 <= i < |rs| ==> rs[i].id != a.resourceId) ==> c == 0.0
  {
    Round2(hours(a) * Rate(rs, a.resourceId))
  }

  /* ---------------- clash check ---------------- */

  /** `!(e <= a.start || s >= a.end)`: the half-open spans [s, e) and
      [a.start, a.end) share a millisecond. */
  predicate Overlaps(s: int, e: int, a: Allocation)
  {
    !(e <= a.start || s >= EndInstant(a))
  }

  predicate Conflicts(resId: string, s: int, e: int, ignoreId: string, a: Allocation)
  {
    a.resourceId == resId && a.id != ignoreId && Overlaps(s, e, a)
  }

  /** `hasClash(plan, resId, start, end, ignoreId)`; a null `end` reads as
      the epoch, as `new Date(null)` does. */
  function HasClash(allocs: seq<Allocation>, resId: string, s: int, end: Option<int>, ignoreId: string): (r: bool)
    ensures r <==> exists i :: 0 <= i < |allocs|
                     && Conflicts(resId, s, if end.Some? then end.value else 0, ignoreId, allocs[i])
    decreases |allocs|
  {
    var e := if end.Some? then end.value else 0;
    if allocs == [] then false
    else
      var init := allocs[..|allocs| - 1];
      var rest := HasClash(init, resId, s, end, ignoreId);
      assert forall i :: 0 <= i < |init| ==> init[i] == allocs[i];
      rest || Conflicts(resId, s, e, ignoreId, allocs[|allocs| - 1])
  }

  /** Dropping allocations that cannot conflict (another resource, the
      ignored id) never changes the answer. */
  lemma {:induction false} ClashIgnoresNonCandidates(allocs: seq<Allocation>, resId: string, s: int, end: Option<int>,
                                                     ignoreId: string, keep: Allocation -> bool)
    requires forall a: Allocation :: a.resourceId == resId && a.id != ignoreId ==> keep(a)
    ensures HasClash(Filter(allocs, keep), resId, s, end, ignoreId) == HasClash(allocs, resId, s, end, ignoreId)
    decreases |allocs|
  {
    if allocs != [] {
      var init, last := allocs[..|allocs| - 1], allocs[|allocs| - 1];
      ClashIgnoresNonCandidates(init, resId, s, end, ignoreId, keep);
      var fi := Filter(init, keep);
      assert allocs == init + [last];
      HasClashSnoc(init, last, resId, s, end, ignoreId);
      if keep(last) {
        assert Filter(allocs, keep) == fi + [last];
        HasClashSnoc(fi, last, resId, s, end, ignoreId);
      } else {
        assert Filter(allocs, keep) == fi;
      }
    }
  }

  lemma HasClashSnoc(init: seq<Allocation>, last: Allocation, resId: string, s: int, end: Option<int>,
                     ignoreId: string)
    ensures HasClash(init + [last], resId, s, end, ignoreId)
         == (HasClash(init, resId, s, end, ignoreId)
             || Conflicts(resId, s, if end.Some? then end.value else 0, ignoreId, last))
  {
    assert (init + [last])[..|init|] == init;
  }

  /** The allocation being edited never clashes with itself. */
  lemma ClashIgnoresEditedRecord(allocs: seq<Allocation>, resId: string, s: int, end: Option<int>, ignoreId: string)
    ensures HasClash(allocs, resId, s, end, ignoreId)
         == HasClash(Filter(allocs, (a: Allocation) => a.id != ignoreId), resId, s, end, ignoreId)
  {
    ClashIgnoresNonCandidates(allocs, resId, s, end, ignoreId, (a: Allocation) => a.id != ignoreId);
  }

  /** Spans that only touch do not clash: an allocation ending exactly when
      the new span starts, or starting exactly when it ends, is no conflict. */
  lemma TouchingSpansDoNotClash(allocs: seq<Allocation>, resId: string, s: int, e: int, ignoreId: string)
    requires forall i :: 0 <= i < |allocs| && allocs[i].resourceId == resId
               ==> EndInstant(allocs[i]) <= s || e <= allocs[i].start
    ensures !HasClash(allocs, resId, s, Some(e), ignoreId)
  {
  }

  /* ---------------- overbooking sweep ---------------- */

  /** A change of load at instant `t`. */
  datatype Event = Event(t: int, d: real)

  /** A span during which the load stays above 100 %. */
  datatype Band = Band(start: int, end: int, group: string)

  function Delta(e: Event): real { e.d }

  /** The load changes of one resource: for each of its allocations, in plan
      order, `+pct` at the start and `-pct` at the end. */
  function EventsOf(allocs: seq<Allocation>, id: string): seq<Event>
    decreases |allocs|
  {
    if allocs == [] then []
    else
      var a := allocs[|allocs| - 1];
      EventsOf(allocs[..|allocs| - 1], id)
        + (if a.resourceId == id then [Event(a.start, a.pct), Event(EndInstant(a), -a.pct)] else [])
  }

  /** The comparator `(a, b) => a.t - b.t || b.d - b.d`. */
  function Compare(x: Event, y: Event): real
  {
    if x.t - y.t != 0 then (x.t - y.t) as real else y.d - y.d
  }

  /** The comparator's second term is `b.d - b.d`, always 0: events compare
      by time alone, so equal-time events are ties. */
  lemma CompareIsTimeOrder(x: Event, y: Event)
    ensures Compare(x, y) < 0.0 <==> x.t < y.t
    ensures Compare(x, y) == 0.0 <==> x.t == y.t
  {
  }

  predicate EventBefore(x: Event, y: Event) { Compare(x, y) < 0.0 }

  function EventTime(e: Event): int { e.t }

  /** The running state of the sweep: the load, the start of the band in
      progress, and the bands closed so far. */
  datatype Sweep = Sweep(load: real, bandStart: Option<int>, bands: seq<Band>)

  /** One turn of the `for...of` loop. */
  function Step(st: Sweep, e: Event, group: string): Sweep
  {
    var prev := st.load;
    var load := prev + e.d;
    var bandStart := if prev <= 100.0 && load > 100.0 then Some(e.t) else st.bandStart;
    if prev > 100.0 && load <= 100.0 && bandStart.Some? then
      Sweep(load, None, st.bands + [Band(bandStart.value, e.t, group)])
    else
      Sweep(load, bandStart, st.bands)
  }

  /** The sweep over `events`, starting idle. */
  function Run(events: seq<Event>, group: string): Sweep
    decreases |events|
  {
    if events == [] then Sweep(0.0, None, [])
    else Step(Run(events[..|events| - 1], group), events[|events| - 1], group)
  }

  /** One more event is one more step of the sweep. */
  lemma RunSnoc(events: seq<Event>, k: int, g: string)
    requires 0 <= k < |events|
    ensures Run(events[..k + 1], g) == Step(Run(events[..k], g), events[k], g)
  {
    assert events[..k + 1][..k] == events[..k];
  }

  /** The bands of one resource: its events sorted by time, then swept. */
  function ResourceBands(p: Plan, r: Resource): seq<Band>
  {
    Run(SortBy(EventsOf(p.allocations, r.id), EventBefore), r.id).bands
  }

  /** `buildOverbookBands`: the bands of the first `n` resources, in
      resource order. */
  function BandsUpTo(p: Plan, n: nat): seq<Band>
    requires n <= |p.resources|
  {
    if n == 0 then [] else BandsUpTo(p, n - 1) + ResourceBands(p, p.resources[n - 1])
  }

  function OverbookBands(p: Plan): seq<Band>
  {
    BandsUpTo(p, |p.resources|)
  }

  /* ---- what the sweep promises ---- */

  /** The load is the running sum of the changes seen so far. */
  lemma {:induction false} RunLoad(events: seq<Event>, g: string)
    ensures Run(events, g).load == Sum(events, Delta)
    decreases |events|
  {
    if events != [] {
      RunLoad(events[..|events| - 1], g);
    }
  }

  /** A band is open exactly while the load is above 100 %. */
  lemma {:induction false} RunOpenIffOverloaded(events: seq<Event>, g: string)
    ensures Run(events, g).bandStart.Some? <==> Run(events, g).load > 100.0
    decreases |events|
  {
    if events != [] {
      RunOpenIffOverloaded(events[..|events| - 1], g);
    }
  }

  /** Event `i` opens a band exactly when it lifts the load from at most
      100 % to above 100 %, and closes one exactly when it brings the load
      from above 100 % back to at most 100 %; the band it closes runs from
      the opening instant to this event's. Any other event leaves the bands
      as they were. */
  lemma BandsFollowCrossings(events: seq<Event>, g: string, i: int)
    requires 0 <= i < |events|
    ensures var before, after := Run(events[..i], g), Run(events[..i + 1], g);
            (before.bandStart.None? && after.bandStart.Some?) <==> (before.load <= 100.0 && after.load > 100.0)
    ensures var before, after := Run(events[..i], g), Run(events[..i + 1], g);
            |after.bands| == |before.bands| + 1 <==> (before.load > 100.0 && after.load <= 100.0)
    ensures var before, after := Run(events[..i], g), Run(events[..i + 1], g);
            before.load > 100.0 && after.load <= 100.0 ==>
              before.bandStart.Some? && after.bands == before.bands + [Band(before.bandStart.value, events[i].t, g)]
    ensures var before, after := Run(events[..i], g), Run(events[..i + 1], g);
            !(before.load > 100.0 && after.load <= 100.0) ==> after.bands == before.bands
  {
    assert events[..i + 1][..i] == events[..i];
    RunOpenIffOverloaded(events[..i], g);
  }

  predicate TimeSorted(events: seq<Event>)
  {
    forall i, j :: 0 <= i < j < |events| ==> events[i].t <= events[j].t
  }

  /** The bands of a sweep are well formed and in order, and none reaches
      past time `tmax`; a band in progress starts no earlier than the last
      closed band ends. */
  ghost predicate Orderly(st: Sweep, g: string, tmax: int)
  {
    && (forall k :: 0 <= k < |st.bands| ==> st.bands[k].start <= st.bands[k].end <= tmax && st.bands[k].group == g)
    && (forall k, l :: 0 <= k < l < |st.bands| ==> st.bands[k].end <= st.bands[l].start)
    && (st.bandStart.Some? ==>
          st.bandStart.value <= tmax && forall k :: 0 <= k < |st.bands| ==> st.bands[k].end <= st.bandStart.value)
  }

  lemma StepOrderly(st: Sweep, e: Event, g: string, tmax: int)
    requires Orderly(st, g, tmax) && tmax <= e.t
    ensures Orderly(Step(st, e, g), g, e.t)
  {
  }

  /** Over time-sorted events every band has `start <= end`, the bands come
      in chronological order without overlapping, and each is tagged with
      the swept resource. */
  lemma {:induction false} RunBandsChronological(events: seq<Event>, g: string)
    requires TimeSorted(events) && events != []
    ensures Orderly(Run(events, g), g, events[|events| - 1].t)
    decreases |events|
  {
    var init := events[..|events| - 1];
    var last := events[|events| - 1];
    if init == [] {
      StepOrderly(Run(init, g), last, g, last.t);
    } else {
      RunBandsChronological(init, g);
      StepOrderly(Run(init, g), last, g, init[|init| - 1].t);
    }
  }

  /** Every allocation adds `+pct` and later `-pct`: a resource's changes
      cancel out. */
  lemma {:induction false} EventsBalance(allocs: seq<Allocation>, id: string)
    ensures Sum(EventsOf(allocs, id), Delta) == 0.0
    decreases |allocs|
  {
    if allocs != [] {
      var a := allocs[|allocs| - 1];
      EventsBalance(allocs[..|allocs| - 1], id);
      var tail := if a.resourceId == id then [Event(a.start, a.pct), Event(EndInstant(a), -a.pct)] else [];
      SumAppend(EventsOf(allocs[..|allocs| - 1], id), tail, Delta);
      if a.resourceId == id {
        var up := Event(a.start, a.pct);
        assert tail[..|tail| - 1] == [up];
        assert [up][..0] == [];
        assert Sum([up], Delta) == a.pct;
      }
    }
  }

  lemma EventOrderIsStrict(events: seq<Event>)
    ensures StrictOn(events, EventBefore)
  {
  }

  lemma SortedEventsAreTimeSorted(events: seq<Event>)
    ensures TimeSorted(SortBy(events, EventBefore))
  {
    EventOrderIsStrict(events);
    SortByOrders(events, EventBefore);
  }

  /** The sweep of a resource ends with its load back at 0, so no band is
      ever left open and dropped at the end of the loop. */
  lemma NoBandLeftOpen(p: Plan, r: Resource)
    ensures var st := Run(SortBy(EventsOf(p.allocations, r.id), EventBefore), r.id);
            st.load == 0.0 && st.bandStart.None?
  {
    var events := EventsOf(p.allocations, r.id);
    var sorted := SortBy(events, EventBefore);
    RunLoad(sorted, r.id);
    SortBySum(events, EventBefore, Delta);
    EventsBalance(p.allocations, r.id);
    RunOpenIffOverloaded(sorted, r.id);
  }

  /** Events at the same instant keep the order in which they were pushed:
      the sort is stable and its comparator ties every such pair. */
  lemma EqualTimesKeepPushOrder(events: seq<Event>, k: int)
    ensures Filter(SortBy(events, EventBefore), (e: Event) => e.t == k) == Filter(events, (e: Event) => e.t == k)
  {
    SortByStable(events, EventTime, EventBefore, (e: Event) => e.t == k, k);
  }

  /** The bands of one resource have `start <= end`, follow one another
      without overlapping, and carry that resource's id. */
  lemma ResourceBandsChronological(p: Plan, r: Resource)
    ensures var b := ResourceBands(p, r);
            (forall k :: 0 <= k < |b| ==> b[k].start <= b[k].end && b[k].group == r.id)
            && (forall k, l :: 0 <= k < l < |b| ==> b[k].end <= b[l].start)
  {
    var sorted := SortBy(EventsOf(p.allocations, r.id), EventBefore);
    SortedEventsAreTimeSorted(EventsOf(p.allocations, r.id));
    if sorted != [] {
      RunBandsChronological(sorted, r.id);
    }
  }

  /** Every band has `start <= end` and is tagged with the id of one of
      `rs`. */
  ghost predicate WellFormedBands(bs: seq<Band>, rs: seq<Resource>)
  {
    forall k :: 0 <= k < |bs| ==> bs[k].start <= bs[k].end && exists r :: r in rs && r.id == bs[k].group
  }

  /** Every band has `start <= end` and is tagged `g`. */
  ghost predicate BandsFor(b: seq<Band>, g: string)
  {
    forall k :: 0 <= k < |b| ==> b[k].start <= b[k].end && b[k].group == g
  }

  lemma ResourceBandsFor(p: Plan, r: Resource)
    ensures BandsFor(ResourceBands(p, r), r.id)
  {
    ResourceBandsChronological(p, r);
  }

  lemma WellFormedAppend(a: seq<Band>, b: seq<Band>, rs: seq<Resource>, r: Resource)
    requires WellFormedBands(a, rs) && r in rs
    requires BandsFor(b, r.id)
    ensures WellFormedBands(a + b, rs)
  {
    forall k | 0 <= k < |a + b|
      ensures (a + b)[k].start <= (a + b)[k].end && exists r' :: r' in rs && r'.id == (a + b)[k].group
    {
      if k >= |a| {
        assert (a + b)[k] == b[k - |a|];
      } else {
        assert (a + b)[k] == a[k];
      }
    }
  }

  lemma WellFormedWider(bs: seq<Band>, rs: seq<Resource>, wider: seq<Resource>)
    requires WellFormedBands(bs, rs) && forall r :: r in rs ==> r in wider
    ensures WellFormedBands(bs, wider)
  {
    forall k | 0 <= k < |bs| ensures bs[k].start <= bs[k].end && exists r :: r in wider && r.id == bs[k].group {
      assert exists r :: r in rs && r.id == bs[k].group;
      var r :| r in rs && r.id == bs[k].group;
      assert r in wider;
    }
  }

  lemma PrefixWider(rs: seq<Resource>, n: nat)
    requires 0 < n <= |rs|
    ensures forall r :: r in rs[..n - 1] ==> r in rs[..n]
    ensures rs[n - 1] in rs[..n]
  {
    assert rs[..n] == rs[..n - 1] + [rs[n - 1]];
  }

  lemma BandsUpToStep(p: Plan, n: nat)
    requires 0 < n <= |p.resources|
    ensures BandsUpTo(p, n) == BandsUpTo(p, n - 1) + ResourceBands(p, p.resources[n - 1])
  {
  }

  /** Only resources of the plan are swept: every band's group is the id of
      one of them, and every band has `start <= end`. */
  lemma {:induction false} BandsAreWellFormed(p: Plan, n: nat)
    requires n <= |p.resources|
    ensures WellFormedBands(BandsUpTo(p, n), p.resources[..n])
    decreases n
  {
    if n > 0 {
      BandsAreWellFormed(p, n - 1);
      var r := p.resources[n - 1];
      var a, b := BandsUpTo(p, n - 1), ResourceBands(p, r);
      BandsUpToStep(p, n);
      ResourceBandsFor(p, r);
      PrefixWider(p.resources, n);
      WellFormedWider(a, p.resources[..n - 1], p.resources[..n]);
      WellFormedAppend(a, b, p.resources[..n], r);
    }
  }

  lemma OverbookBandsWellFormed(p: Plan)
    ensures WellFormedBands(OverbookBands(p), p.resources)
  {
    BandsAreWellFormed(p, |p.resources|);
    assert p.resources[..|p.resources|] == p.resources;
  }

  /** The first loop of `buildOverbookBands` for one resource: push
      `+pct` at the start and `-pct` at the end of each of its allocations. */
  method CollectEvents(allocs: seq<Allocation>, id: string) returns (events: seq<Event>)
    ensures events == EventsOf(allocs, id)
    ensures Sum(events, Delta) == 0.0
  {
    events := [];
    var j := 0;
    while j < |allocs|
      invariant 0 <= j <= |allocs|
      invariant events == EventsOf(allocs[..j], id)
    {
      var a := allocs[j];
      assert allocs[..j + 1][..j] == allocs[..j];
      if a.resourceId == id {
        events := events + [Event(a.start, a.pct), Event(EndInstant(a), -a.pct)];
      }
      j := j + 1;
    }
    assert allocs[..j] == allocs;
    EventsBalance(allocs, id);
  }

  /** The sweep loop of `buildOverbookBands`: walk the sorted events,
      pushing each closed band onto `bands`. */
  method SweepEvents(bands: seq<Band>, events: seq<Event>, g: string) returns (out: seq<Band>)
    ensures out == bands + Run(events, g).bands
  {
    out := bands;
    var load := 0.0;
    var bandStart: Option<int> := None;
    var k := 0;
    while k < |events|
      invariant 0 <= k <= |events|
      invariant load == Run(events[..k], g).load
      invariant bandStart == Run(events[..k], g).bandStart
      invariant out == bands + Run(events[..k], g).bands
    {
      var e := events[k];
      RunSnoc(events, k, g);
      ghost var st := Run(events[..k], g);
      var prev := load;
      load := load + e.d;
      if prev <= 100.0 && load > 100.0 {
        bandStart := Some(e.t);
      }
      if prev > 100.0 && load <= 100.0 && bandStart.Some? {
        ConcatAssoc(bands, st.bands, [Band(bandStart.value, e.t, g)]);
        out := out + [Band(bandStart.value, e.t, g)];
        bandStart := None;
      }
      k := k + 1;
    }
    assert events[..k] == events;
  }

  /** `buildOverbookBands(plan)`: for each resource in order, its events
      sorted by time and swept. */
  method BuildOverbookBands(p: Plan) returns (bands: seq<Band>)
    ensures bands == OverbookBands(p)
    ensures WellFormedBands(bands, p.resources)
  {
    bands := [];
    var i := 0;
    while i < |p.resources|
      invariant 0 <= i <= |p.resources|
      invariant bands == BandsUpTo(p, i)
    {
      bands := SweepResource(p, i, bands);
      i := i + 1;
    }
    OverbookBandsWellFormed(p);
  }

  /** One turn of the `forEach` over resources: collect, sort and sweep the
      events of resource `i`. */
  method SweepResource(p: Plan, i: nat, bands: seq<Band>) returns (out: seq<Band>)
    requires i < |p.resources| && bands == BandsUpTo(p, i)
    ensures out == BandsUpTo(p, i + 1)
  {
    var r := p.resources[i];
    var events := CollectEvents(p.allocations, r.id);
    events := SortBy(events, EventBefore);
    out := SweepEvents(bands, events, r.id);
    BandsUpToStep(p, i + 1);
  }
}
