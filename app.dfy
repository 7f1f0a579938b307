/** The plan-editing rules of the planner page: the date fields of the
    allocation form, the form's submit, the baseline reset, and the
    deletes and quick-add the timeline and tables trigger. The page's
    module state (the plan, the selected and the edited allocation) is a
    `Planner` object whose handlers rewrite it. */
module App {
  import opened Common
  import opened Decimal
  import opened Calendar
  import opened Plan
  import opened Allocations
  import opened Kpi

  /* ---------------- date fields ---------------- */

  /** `toLocal(iso)`: the `YYYY-MM-DD` head of an ISO text, '' for a
      missing or empty one. */
  function ToLocal(iso: Option<string>): string
  {
    if iso.None? || iso.value == "" then ""
    else if |iso.value| <= 10 then iso.value
    else iso.value[..10]
  }

  const MidnightSuffix: string := "T00:00:00.000Z"

  /** `fromLocal(dateStr)`: null for an empty field, otherwise the ISO text
      of that day's UTC midnight. */
  function FromLocal(dateStr: string): Option<string>
  {
    if dateStr == "" then None else Some(dateStr + MidnightSuffix)
  }

  /** The text the date input holds: '' when blank, `YYYY-MM-DD` of the
      picked UTC day otherwise. */
  function DateText(day: Option<int>): string
  {
    if day.None? then "" else IsoDate(day.value)
  }

  /** The days whose year prints with four digits. */
  predicate Printable(n: int) { 0 <= Civil(n).year <= 9999 }

  /** A blank field or a `YYYY-MM-DD` text survives `fromLocal` then
      `toLocal` unchanged. */
  lemma LocalRoundTrip(d: string)
    requires d == "" || |d| == 10
    ensures ToLocal(FromLocal(d)) == d
  {
    if d != "" {
      assert (d + MidnightSuffix)[..10] == d;
    }
  }

  lemma FixedZeroStep(w: nat)
    ensures Fixed(0, w + 1) == Fixed(0, w) + "0"
  {
    assert DigitChar(0) == '0';
  }

  lemma FixedZeros()
    ensures Fixed(0, 2) == "00" && Fixed(0, 3) == "000"
  {
    FixedZeroStep(0);
    FixedZeroStep(1);
    FixedZeroStep(2);
  }

  /** The time of day of midnight, field by field. */
  lemma IsoTimeZero()
    ensures IsoTime(0) == "00" + (":" + ("00" + (":" + ("00" + ("." + ("000" + "Z"))))))
  {
    FixedZeros();
    var z := 0;
    assert z / HourMs == 0 && z / 60000 % 60 == 0 && z / 1000 % 60 == 0 && z % 1000 == 0;
  }

  lemma MidnightText()
    ensures "T" + ("00" + (":" + ("00" + (":" + ("00" + ("." + ("000" + "Z"))))))) == MidnightSuffix
  {
  }

  lemma MidnightTime()
    ensures "T" + IsoTime(0) == MidnightSuffix
  {
    IsoTimeZero();
    MidnightText();
  }

  /** The ISO text of a day's midnight is the day's text and the
      midnight suffix. */
  lemma MidnightInstant(n: int)
    ensures IsoInstant(n * DayMs) == IsoDate(n) + MidnightSuffix
  {
    DayMultiple(n);
    MidnightTime();
    InstantAtMidnight(n * DayMs);
  }

  lemma InstantAtMidnight(t: int)
    requires t % DayMs == 0
    ensures IsoInstant(t) == IsoDate(t / DayMs) + ("T" + IsoTime(0))
  {
  }

  lemma DayMultiple(n: int)
    ensures (n * DayMs) / DayMs == n && (n * DayMs) % DayMs == 0
  {
  }

  /** `fromLocal` of a picked day is `toISOString` of its midnight, and
      `toLocal` of that ISO text gives the day's text back. */
  lemma FromLocalIsMidnight(n: int)
    ensures FromLocal(IsoDate(n)) == Some(IsoInstant(n * DayMs))
    ensures Printable(n) ==> ToLocal(Some(IsoInstant(n * DayMs))) == IsoDate(n)
  {
    MidnightInstant(n);
    if Printable(n) {
      IsoDateOrder(n, n);
      assert (IsoDate(n) + MidnightSuffix)[..10] == IsoDate(n);
    }
  }

  /* ---------------- finding records ---------------- */

  /** `allocations.find(a => a.id === id)`, as the index of the first match. */
  function FindAt(allocs: seq<Allocation>, id: string): (k: Option<nat>)
    ensures k.Some? ==> k.value < |allocs| && allocs[k.value].id == id
                        && forall j :: 0 <= j < k.value ==> allocs[j].id != id
    ensures k.None? ==> forall j :: 0 <= j < |allocs| ==> allocs[j].id != id
    decreases |allocs|
  {
    if allocs == [] then None
    else if allocs[0].id == id then Some(0)
    else
      var r := FindAt(allocs[1..], id);
      if r.Some? then Some(r.value + 1) else None
  }

  /** All allocations book a resource of the plan. */
  predicate Referenced(p: Plan)
  {
    forall i :: 0 <= i < |p.allocations| ==> p.allocations[i].resourceId in IdsOf(p.resources)
  }

  /* ---------------- the allocation form ---------------- */

  /** What the allocation form holds on submit: the picked resource, the
      two date pickers, the typed percentage and the trimmed task text. */
  datatype Form = Form(resourceId: string, startDay: Option<int>, endDay: Option<int>, pct: real, task: string)

  /** `+$('#alloc-pct').value || 100`. */
  function PctOf(x: real): real { if x == 0.0 then 100.0 else x }

  const StartRequired: string := "Start date is required."
  const EndAfterStart: string := "End must be after start."

  /** How a submit ends: an alert and no change, an uncaught error and no
      change, or the plan saved. */
  datatype Submission = Alert(message: string) | Threw | Saved(plan: Plan)

  /** The record `calcCost` first sees: the form's fields and the defaulted
      baselines; the id ("") and the cost (0) stand for fields it does not
      have yet. */
  function Draft(f: Form, start: int, end: Option<int>, notes: Option<string>): Allocation
  {
    Allocation("", f.resourceId, f.task, notes, start, end, PctOf(f.pct), 0.0, Some(start), end, None)
  }

  /** The submit handler of the allocation form. `editing` is the record
      being edited (None in create mode), `hours` is `plannedHours`, and
      `freshId` the id `randomUUID` supplies. The two dates are compared as
      ISO texts; the second validation (line 342) repeats the first and
      never fires. Editing assigns the fresh baselines onto the stored
      record, so an edit resets the baseline. */
  function Submitted(p: Plan, editing: Option<string>, f: Form, hours: Allocation -> real, freshId: string): Submission
  {
    var startText, endText := FromLocal(DateText(f.startDay)), FromLocal(DateText(f.endDay));
    if startText.None? then Alert(StartRequired)
    else if endText.Some? && !LexLess(startText.value, endText.value) then Alert(EndAfterStart)
    else
      var start := f.startDay.value * DayMs;
      var end := if f.endDay.Some? then Some(f.endDay.value * DayMs) else None;
      if editing.Some? then
        var k := FindAt(p.allocations, editing.value);
        if k.None? then Threw
        else
          var a := p.allocations[k.value];
          var notes := if a.notes.Some? then Some(f.task) else None;
          var c := CalcCost(Draft(f, start, end, notes), p.resources, hours);
          Saved(p.(allocations := p.allocations[k.value := Edited(a, f, start, end, notes, c)]))
      else
        var c := CalcCost(Draft(f, start, end, None), p.resources, hours);
        var rec := Allocation(freshId, f.resourceId, f.task, None, start, end, PctOf(f.pct), c, Some(start), end, Some(c));
        Saved(p.(allocations := p.allocations + [rec.(cost := CalcCost(rec, p.resources, hours))]))
  }

  /** `Object.assign(stored, obj)`: the form's fields, the baselines and
      the cost written over the stored record. */
  function Edited(a: Allocation, f: Form, start: int, end: Option<int>, notes: Option<string>, c: real): Allocation
  {
    a.(resourceId := f.resourceId, start := start, end := end, pct := PctOf(f.pct), task := f.task, notes := notes,
       baselineStart := Some(start), baselineEnd := end, cost := c, baselineCost := Some(c))
  }

  /** The dates as ISO texts order as the days do. */
  lemma TextOrder(n: int, m: int)
    requires Printable(n) && Printable(m)
    ensures LexLess(IsoInstant(n * DayMs), IsoInstant(m * DayMs)) <==> n < m
  {
    assert (n * DayMs) / DayMs == n && (m * DayMs) / DayMs == m;
    IsoInstantOrder(n * DayMs, m * DayMs);
  }

  /** The submit is refused with the start alert exactly when no start is
      picked, and with the order alert exactly when an end is picked that
      does not come after the start. */
  /** Where the submit stops, read off its two date texts. */
  lemma SubmittedCases(p: Plan, editing: Option<string>, f: Form, hours: Allocation -> real, freshId: string)
    ensures var st, et := FromLocal(DateText(f.startDay)), FromLocal(DateText(f.endDay));
            var r := Submitted(p, editing, f, hours, freshId);
            && (st.None? ==> r == Alert(StartRequired))
            && (st.Some? && et.Some? && !LexLess(st.value, et.value) ==> r == Alert(EndAfterStart))
            && (st.Some? && !(et.Some? && !LexLess(st.value, et.value)) ==> !r.Alert?)
  {
  }

  lemma SubmitAlertsStart(p: Plan, editing: Option<string>, f: Form, hours: Allocation -> real, freshId: string)
    ensures Submitted(p, editing, f, hours, freshId) == Alert(StartRequired) <==> f.startDay.None?
  {
    SubmittedCases(p, editing, f, hours, freshId);
    if f.startDay.Some? {
      FromLocalIsMidnight(f.startDay.value);
    }
  }

  lemma SubmitAlertsOrder(p: Plan, editing: Option<string>, f: Form, hours: Allocation -> real, freshId: string)
    requires f.startDay.Some? ==> Printable(f.startDay.value)
    requires f.endDay.Some? ==> Printable(f.endDay.value)
    ensures Submitted(p, editing, f, hours, freshId) == Alert(EndAfterStart) <==>
              f.startDay.Some? && f.endDay.Some? && f.endDay.value <= f.startDay.value
  {
    SubmittedCases(p, editing, f, hours, freshId);
    if f.startDay.Some? {
      FromLocalIsMidnight(f.startDay.value);
      if f.endDay.Some? {
        FromLocalIsMidnight(f.endDay.value);
        TextOrder(f.startDay.value, f.endDay.value);
      }
    }
  }

  /** The submit breaks off with an error exactly when the edited record is
      no longer in the plan. */
  lemma SubmitThrows(p: Plan, editing: Option<string>, f: Form, hours: Allocation -> real, freshId: string)
    requires Submitted(p, editing, f, hours, freshId) == Threw
    ensures editing.Some? && forall j :: 0 <= j < |p.allocations| ==> p.allocations[j].id != editing.value
  {
  }

  /** A created allocation is appended with the fresh id, the form's fields,
      and baselines equal to its own start, end and first cost; nothing
      else in the plan changes. */
  lemma SubmitCreates(p: Plan, f: Form, hours: Allocation -> real, freshId: string)
    requires Submitted(p, None, f, hours, freshId).Saved?
    ensures var q := Submitted(p, None, f, hours, freshId).plan;
            var a := q.allocations[|p.allocations|];
            && q.resources == p.resources
            && |q.allocations| == |p.allocations| + 1
            && q.allocations[..|p.allocations|] == p.allocations
            && a.id == freshId && a.resourceId == f.resourceId && a.task == f.task && a.notes == None
            && f.startDay.Some? && a.start == f.startDay.value * DayMs
            && a.end == (if f.endDay.Some? then Some(f.endDay.value * DayMs) else None)
            && a.pct == PctOf(f.pct) && a.baselineStart == Some(a.start) && a.baselineEnd == a.end
            && a.baselineCost == Some(CalcCost(Draft(f, a.start, a.end, None), p.resources, hours))
            && !Late(a)
  {
    var q := Submitted(p, None, f, hours, freshId).plan;
    assert q.allocations[..|p.allocations|] == p.allocations;
  }

  /** An edit rewrites exactly the first record with the edited id: it
      keeps its id, takes the form's fields, and its baselines are reset to
      the new start, end and cost, so it shows neither delay nor overrun
      whatever its baseline was before. */
  lemma SubmitEditResetsBaseline(p: Plan, id: string, f: Form, hours: Allocation -> real, freshId: string)
    requires Submitted(p, Some(id), f, hours, freshId).Saved?
    ensures FindAt(p.allocations, id).Some?
    ensures var q, k := Submitted(p, Some(id), f, hours, freshId).plan, FindAt(p.allocations, id).value;
            var a := q.allocations[k];
            && q.resources == p.resources
            && |q.allocations| == |p.allocations|
            && (forall j :: 0 <= j < |p.allocations| && j != k ==> q.allocations[j] == p.allocations[j])
            && a.id == id && a.resourceId == f.resourceId && a.task == f.task && a.pct == PctOf(f.pct)
            && (p.allocations[k].notes.Some? <==> a.notes.Some?)
            && a.baselineStart == Some(a.start) && a.baselineEnd == a.end && a.baselineCost == Some(a.cost)
            && Lateness(a) == 0.0 && Overrun(a) == 0.0
  {
  }

  /** Saving a record for a resource of the plan keeps every allocation
      pointing at a resource of the plan. */
  lemma SubmitKeepsReferences(p: Plan, editing: Option<string>, f: Form, hours: Allocation -> real, freshId: string)
    requires Referenced(p) && f.resourceId in IdsOf(p.resources)
    requires Submitted(p, editing, f, hours, freshId).Saved?
    ensures Referenced(Submitted(p, editing, f, hours, freshId).plan)
  {
  }

  /* ---------------- reset baseline, deletes, quick add ---------------- */

  /** The reset-baseline button on one record: the baseline becomes the
      record's own start, end (none for a box) and cost. */
  function BaselineReset(a: Allocation): (r: Allocation)
  {
    a.(baselineStart := Some(a.start), baselineEnd := if IsBox(a) then None else a.end, baselineCost := Some(a.cost))
  }

  /** A reset record is on its baseline, so it shows neither delay nor
      overrun, and only its three baseline fields change. */
  lemma BaselineResetFacts(a: Allocation)
    ensures var r := BaselineReset(a);
            && r.baselineStart == Some(r.start) && r.baselineEnd == r.end && r.baselineCost == Some(r.cost)
            && r.(baselineStart := a.baselineStart, baselineEnd := a.baselineEnd, baselineCost := a.baselineCost) == a
            && Lateness(r) == 0.0 && Overrun(r) == 0.0
  {
  }

  /** `removeRes(id)` once confirmed: the resource and every allocation
      booking it go. */
  function RemoveResource(p: Plan, id: string): Plan
  {
    Plan(Filter(p.resources, (r: Resource) => r.id != id), Filter(p.allocations, (a: Allocation) => a.resourceId != id))
  }

  /** Nothing of the removed resource is left, every other resource and
      allocation stays, and allocations still book existing resources. */
  lemma RemoveResourceCascades(p: Plan, id: string)
    ensures var q := RemoveResource(p, id);
            && (forall i :: 0 <= i < |q.resources| ==> q.resources[i].id != id && q.resources[i] in p.resources)
            && (forall i :: 0 <= i < |q.allocations| ==> q.allocations[i].resourceId != id && q.allocations[i] in p.allocations)
            && (forall i :: 0 <= i < |p.resources| && p.resources[i].id != id ==> p.resources[i] in q.resources)
            && (forall i :: 0 <= i < |p.allocations| && p.allocations[i].resourceId != id ==> p.allocations[i] in q.allocations)
            && (Referenced(p) ==> Referenced(q))
  {
    var keepR := (r: Resource) => r.id != id;
    var keepA := (a: Allocation) => a.resourceId != id;
    FilterMembers(p.resources, keepR);
    FilterMembers(p.allocations, keepA);
    var q := RemoveResource(p, id);
    if Referenced(p) {
      forall i | 0 <= i < |q.allocations| ensures q.allocations[i].resourceId in IdsOf(q.resources) {
        var a := q.allocations[i];
        var j :| 0 <= j < |p.allocations| && p.allocations[j] == a;
        var k :| 0 <= k < |p.resources| && IdsOf(p.resources)[k] == a.resourceId;
        assert p.resources[k] in q.resources;
        var m :| 0 <= m < |q.resources| && q.resources[m] == p.resources[k];
        assert IdsOf(q.resources)[m] == a.resourceId;
      }
    }
  }

  /** The delete button once confirmed: every allocation with that id goes. */
  function DeleteAllocation(p: Plan, id: string): Plan
  {
    p.(allocations := Filter(p.allocations, (a: Allocation) => a.id != id))
  }

  /** Exactly the records with the id go; the rest stay, in order, and
      still book existing resources. */
  lemma DeleteAllocationFacts(p: Plan, id: string)
    ensures var q := DeleteAllocation(p, id);
            && q.resources == p.resources
            && (forall i :: 0 <= i < |q.allocations| ==> q.allocations[i].id != id && q.allocations[i] in p.allocations)
            && (forall i :: 0 <= i < |p.allocations| && p.allocations[i].id != id ==> p.allocations[i] in q.allocations)
            && (Referenced(p) ==> Referenced(q))
  {
    var keep := (a: Allocation) => a.id != id;
    FilterMembers(p.allocations, keep);
  }

  /** What a timeline click reports: `what` it hit, the row's group and
      the clicked instant. */
  datatype Click = Click(what: string, group: Option<string>, time: int)

  /** `quickAddBox(props)`: the box it creates, if it acts at all. */
  function QuickBox(props: Click, freshId: string): Option<Allocation>
  {
    if props.what != "background" || props.group.None? || props.group.value == "" then None
    else
      Some(Allocation(freshId, props.group.value, "(new)", Some(""), props.time, None, 100.0, 0.0,
                      Some(props.time), None, None))
  }

  /** Only a click on the background of a resource row adds a record: a box
      at the clicked instant, booked at 100 % for no cost, whose baseline
      start is its start; it shows neither delay nor overrun. */
  lemma QuickBoxFacts(props: Click, freshId: string)
    ensures QuickBox(props, freshId).Some? <==> props.what == "background" && props.group.Some? && props.group.value != ""
    ensures QuickBox(props, freshId).Some? ==>
              var a := QuickBox(props, freshId).value;
              && IsBox(a) && a.id == freshId && a.resourceId == props.group.value && a.start == props.time
              && a.pct == 100.0 && a.cost == 0.0 && a.baselineStart == Some(a.start) && a.baselineEnd.None?
              && a.task == "(new)" && DurationHours(a) == 0.0 && Lateness(a) == 0.0 && Overrun(a) == 0.0
  {
  }

  /* ---------------- the page state ---------------- */

  /** The page's module state: `plan`, `selectedAllocId` and
      `editingAllocId`. */
  class Planner {
    var plan: Plan
    var selected: Option<string>
    var editing: Option<string>

    constructor (p: Plan)
      ensures plan == p && selected == None && editing == None
    {
      plan := p;
      selected := None;
      editing := None;
    }

    /** `handleSelect`: `evt.items[0] || null`. */
    method Select(items: seq<string>)
      modifies this
      ensures selected == (if |items| > 0 && items[0] != "" then Some(items[0]) else None)
      ensures plan == old(plan) && editing == old(editing)
    {
      if |items| > 0 && items[0] != "" {
        selected := Some(items[0]);
      } else {
        selected := None;
      }
    }

    /** `openAllocModal(a)`: the form now edits `a`. */
    method OpenAllocModal(id: string)
      modifies this
      ensures editing == Some(id)
      ensures plan == old(plan) && selected == old(selected)
    {
      editing := Some(id);
    }

    /** `#btn-add-allocation`: create mode, once the plan has a resource. */
    method StartNewAllocation() returns (alert: Option<string>)
      modifies this
      ensures old(plan).resources == [] ==> alert == Some("Add resource first") && editing == old(editing)
      ensures old(plan).resources != [] ==> alert == None && editing == None
      ensures plan == old(plan) && selected == old(selected)
    {
      if plan.resources == [] {
        return Some("Add resource first");
      }
      editing := None;
      alert := None;
    }

    /** `#btn-del-alloc`, `confirmed` being the answer to the dialog. */
    method DeleteSelected(confirmed: bool)
      modifies this
      ensures old(selected).Some? && confirmed ==>
                plan == DeleteAllocation(old(plan), old(selected).value) && selected == None
      ensures !(old(selected).Some? && confirmed) ==> plan == old(plan) && selected == old(selected)
      ensures editing == old(editing)
    {
      if selected.None? || !confirmed {
        return;
      }
      var id := selected.value;
      plan := plan.(allocations := Filter(plan.allocations, (a: Allocation) => a.id != id));
      selected := None;
    }

    /** `removeRes(id)`, `confirmed` being the answer to the dialog. */
    method RemoveRes(id: string, confirmed: bool)
      modifies this
      ensures plan == if confirmed then RemoveResource(old(plan), id) else old(plan)
      ensures selected == old(selected) && editing == old(editing)
    {
      if confirmed {
        plan := plan.(resources := Filter(plan.resources, (r: Resource) => r.id != id));
        plan := plan.(allocations := Filter(plan.allocations, (a: Allocation) => a.resourceId != id));
      }
    }

    /** `#btn-reset-baseline`: `threw` where the edited record is gone. */
    method ResetBaseline() returns (threw: bool)
      modifies this
      ensures old(editing).None? ==> !threw && plan == old(plan)
      ensures old(editing).Some? ==> (threw <==> FindAt(old(plan).allocations, old(editing).value).None?)
      ensures old(editing).Some? && !threw ==>
                var k := FindAt(old(plan).allocations, old(editing).value).value;
                plan == old(plan).(allocations := old(plan).allocations[k := BaselineReset(old(plan).allocations[k])])
      ensures threw ==> plan == old(plan)
      ensures selected == old(selected) && editing == old(editing)
    {
      if editing.None? {
        return false;
      }
      var k := FindAt(plan.allocations, editing.value);
      if k.None? {
        return true;
      }
      var a := plan.allocations[k.value];
      a := a.(baselineStart := Some(a.start));
      a := a.(baselineEnd := if IsBox(a) then None else a.end);
      a := a.(baselineCost := Some(a.cost));
      plan := plan.(allocations := plan.allocations[k.value := a]);
      threw := false;
    }

    /** The allocation form's submit. */
    method Submit(f: Form, hours: Allocation -> real, freshId: string) returns (outcome: Submission)
      modifies this
      ensures outcome == Submitted(old(plan), old(editing), f, hours, freshId)
      ensures plan == (if outcome.Saved? then outcome.plan else old(plan))
      ensures selected == old(selected) && editing == old(editing)
    {
      var startText := FromLocal(DateText(f.startDay));
      var endText := FromLocal(DateText(f.endDay));
      if startText.None? {
        return Alert(StartRequired);
      }
      if endText.Some? && !LexLess(startText.value, endText.value) {
        return Alert(EndAfterStart);
      }
      var start := f.startDay.value * DayMs;
      var end := if f.endDay.Some? then Some(f.endDay.value * DayMs) else None;
      if editing.Some? {
        var k := FindAt(plan.allocations, editing.value);
        if k.None? {
          return Threw;
        }
        var notes := if plan.allocations[k.value].notes.Some? then Some(f.task) else None;
        var c := CalcCost(Draft(f, start, end, notes), plan.resources, hours);
        plan := plan.(allocations := plan.allocations[k.value := Edited(plan.allocations[k.value], f, start, end, notes, c)]);
      } else {
        var c := CalcCost(Draft(f, start, end, None), plan.resources, hours);
        var rec := Allocation(freshId, f.resourceId, f.task, None, start, end, PctOf(f.pct), c, Some(start), end, Some(c));
        rec := rec.(cost := CalcCost(rec, plan.resources, hours));
        plan := plan.(allocations := plan.allocations + [rec]);
      }
      outcome := Saved(plan);
    }

    /** `quickAddBox(props)`: the box is pushed and opened in the form. */
    method QuickAddBox(props: Click, freshId: string)
      modifies this
      ensures QuickBox(props, freshId).None? ==> plan == old(plan) && editing == old(editing)
      ensures QuickBox(props, freshId).Some? ==>
                plan == old(plan).(allocations := old(plan).allocations + [QuickBox(props, freshId).value])
                && editing == Some(freshId)
      ensures selected == old(selected)
    {
      if props.what != "background" {
        return;
      }
      if props.group.None? || props.group.value == "" {
        return;
      }
      var a := Allocation(freshId, props.group.value, "(new)", Some(""), props.time, None, 100.0, 0.0,
                          Some(props.time), None, None);
      plan := plan.(allocations := plan.allocations + [a]);
      editing := Some(a.id);
    }
  }
}
