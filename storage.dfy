/** Loading a saved plan: the JSON document is migrated to the current
    record layout, then stripped of allocations too broken to show. Both
    steps work on the parsed JSON value in place, field by field, exactly as
    `JSON.parse` delivered it: nothing is known about its shape yet. */
module Storage {
  import opened Common
  import opened Decimal

  /** A value as `JSON.parse` returns it, plus `undefined`, which is what a
      property read of a missing key yields. An object is its key/value map. */
  datatype JVal =
    | JUndef
    | JNull
    | JBool(b: bool)
    | JNum(n: real)
    | JStr(s: string)
    | JArr(items: seq<JVal>)
    | JObj(fields: map<string, JVal>)

  /** `v == null` and the test of `??` / `??=`. */
  predicate Nullish(v: JVal) { v.JUndef? || v.JNull? }

  /** JavaScript truthiness. */
  predicate Truthy(v: JVal)
  {
    match v
    case JUndef => false
    case JNull => false
    case JBool(b) => b
    case JNum(n) => n != 0.0
    case JStr(s) => s != ""
    case _ => true
  }

  /** `o[k]`: a missing key reads as `undefined`. */
  function Get(o: map<string, JVal>, k: string): JVal
  {
    if k in o then o[k] else JUndef
  }

  /* ---------------- migratePlan, entry by entry ---------------- */

  /** `r => { if (r.cost_per_hour == null) r.cost_per_hour = 0; }`, or None
      where it throws. The module is strict code, so the assignment throws
      on a primitive entry as the read does on `null`; a property written
      onto an array entry is invisible to JSON and leaves it as it was. */
  function MigrateResource(r: JVal): Option<JVal>
  {
    match r
    case JObj(o) =>
      Some(if Nullish(Get(o, "cost_per_hour")) then JObj(o["cost_per_hour" := JNum(0.0)]) else r)
    case JArr(_) => Some(r)
    case _ => None
  }

  /** The first allocation loop, `a.baseline_start ??= a.start` and
      `if (a.cost == null) a.cost = 0`, or None where it throws. */
  function PrepareAllocation(a: JVal): Option<JVal>
  {
    match a
    case JObj(o) =>
      var o1 := if Nullish(Get(o, "baseline_start")) then o["baseline_start" := Get(o, "start")] else o;
      Some(JObj(if Nullish(Get(o1, "cost")) then o1["cost" := JNum(0.0)] else o1))
    case JArr(_) => Some(a)
    case _ => None
  }

  /** The second allocation loop,
      `if (a.cost && a.baseline_cost == null) a.baseline_cost = a.cost`. */
  function DefaultBaselineCost(a: JVal): JVal
  {
    match a
    case JObj(o) =>
      if Truthy(Get(o, "cost")) && Nullish(Get(o, "baseline_cost")) then JObj(o["baseline_cost" := Get(o, "cost")]) else a
    case _ => a
  }

  /** Both allocation loops on one entry. */
  function MigrateAllocation(a: JVal): Option<JVal>
  {
    var p := PrepareAllocation(a);
    if p.Some? then Some(DefaultBaselineCost(p.value)) else None
  }

  /** `items.forEach(f)` where `f` may throw: every entry migrated, or None
      as soon as one entry throws. */
  function MigrateEach(items: seq<JVal>, f: JVal -> Option<JVal>): (r: Option<seq<JVal>>)
    ensures r.Some? <==> forall i :: 0 <= i < |items| ==> f(items[i]).Some?
    ensures r.Some? ==> |r.value| == |items| && forall i :: 0 <= i < |items| ==> r.value[i] == f(items[i]).value
    decreases |items|
  {
    if items == [] then Some([])
    else
      var init := MigrateEach(items[..|items| - 1], f);
      var last := f(items[|items| - 1]);
      if init.Some? && last.Some? then Some(init.value + [last.value]) else None
  }

  /** `items.forEach(g)` where `g` cannot throw. */
  function MapEach(items: seq<JVal>, g: JVal -> JVal): (r: seq<JVal>)
    ensures |r| == |items|
    ensures forall i :: 0 <= i < |items| ==> r[i] == g(items[i])
    decreases |items|
  {
    if items == [] then [] else MapEach(items[..|items| - 1], g) + [g(items[|items| - 1])]
  }

  /* ---------------- migratePlan on the document ---------------- */

  /** `migratePlan(plan)` on a plan object: the migrated document, or None
      where it throws. `plan.resources?.forEach` skips a missing list;
      `plan.allocations.forEach` (line 29, without `?.`) and
      `plan.meta.version = ...` throw on a missing one. */
  function Migrated(doc: map<string, JVal>): Option<map<string, JVal>>
  {
    var res, allocs, meta := Get(doc, "resources"), Get(doc, "allocations"), Get(doc, "meta");
    if !(Nullish(res) || res.JArr?) || !allocs.JArr? || !(meta.JObj? || meta.JArr?) then None
    else
      var rs := if res.JArr? then MigrateEach(res.items, MigrateResource) else Some([]);
      var prepared := MigrateEach(allocs.items, PrepareAllocation);
      if rs.None? || prepared.None? then None
      else
        var d1 := if res.JArr? then doc["resources" := JArr(rs.value)] else doc;
        var d2 := d1["allocations" := JArr(MapEach(prepared.value, DefaultBaselineCost))];
        Some(if meta.JObj? then d2["meta" := JObj(meta.fields["version" := JStr("1.2")])] else d2)
  }

  /** An entry the migration cannot touch: `null`, `undefined` or a
      primitive. */
  predicate Untouchable(v: JVal) { !v.JObj? && !v.JArr? }

  /** The documents `migratePlan` throws on, stated field by field. */
  predicate MigrateThrows(doc: map<string, JVal>)
  {
    var res, allocs, meta := Get(doc, "resources"), Get(doc, "allocations"), Get(doc, "meta");
    || (!Nullish(res) && !res.JArr?)
    || (res.JArr? && exists i :: 0 <= i < |res.items| && Untouchable(res.items[i]))
    || !allocs.JArr?
    || (allocs.JArr? && exists i :: 0 <= i < |allocs.items| && Untouchable(allocs.items[i]))
    || !(meta.JObj? || meta.JArr?)
  }

  lemma MigrateEachUntouchable(items: seq<JVal>, f: JVal -> Option<JVal>)
    requires forall v :: f(v).None? <==> Untouchable(v)
    ensures MigrateEach(items, f).None? <==> exists i :: 0 <= i < |items| && Untouchable(items[i])
  {
    if MigrateEach(items, f).None? {
      var i :| 0 <= i < |items| && f(items[i]).None?;
    }
  }

  /** The migration throws exactly on a resource list that is neither
      missing nor a list, on a missing or non-list allocation list, on a
      missing or primitive `meta`, and on a `null` or primitive entry in
      either list. */
  lemma MigratedFails(doc: map<string, JVal>)
    ensures Migrated(doc).None? <==> MigrateThrows(doc)
  {
    var res, allocs := Get(doc, "resources"), Get(doc, "allocations");
    if res.JArr? {
      MigrateEachUntouchable(res.items, MigrateResource);
    }
    if allocs.JArr? {
      MigrateEachUntouchable(allocs.items, PrepareAllocation);
    }
  }

  /** A migrated resource has a `cost_per_hour`; one it already had is kept,
      and nothing else about the resource changes. */
  lemma MigrateResourceFacts(r: JVal)
    requires r.JObj?
    ensures MigrateResource(r).Some? && MigrateResource(r).value.JObj?
    ensures var o, o' := r.fields, MigrateResource(r).value.fields;
            && !Nullish(Get(o', "cost_per_hour"))
            && (!Nullish(Get(o, "cost_per_hour")) ==> o' == o)
            && (Nullish(Get(o, "cost_per_hour")) ==> Get(o', "cost_per_hour") == JNum(0.0))
            && forall k :: k != "cost_per_hour" ==> (k in o' <==> k in o) && (k in o ==> o'[k] == o[k])
  {
  }

  /** `baseline_start` defaults to `start` and `cost` to 0, each only when
      null or missing; `baseline_cost` defaults to the cost only when that
      is truthy and `baseline_cost` is null or missing; every other field,
      `start`, `end` and `baseline_end` among them, stays as it was. */
  lemma MigrateAllocationFacts(a: JVal)
    requires a.JObj?
    ensures MigrateAllocation(a).Some? && MigrateAllocation(a).value.JObj?
    ensures var o, o' := a.fields, MigrateAllocation(a).value.fields;
            var cost := if Nullish(Get(o, "cost")) then JNum(0.0) else Get(o, "cost");
            && Get(o', "baseline_start") == (if Nullish(Get(o, "baseline_start")) then Get(o, "start") else Get(o, "baseline_start"))
            && Get(o', "cost") == cost
            && !Nullish(Get(o', "cost"))
            && Get(o', "baseline_cost") == (if Truthy(cost) && Nullish(Get(o, "baseline_cost")) then cost else Get(o, "baseline_cost"))
            && forall k :: k != "baseline_start" && k != "cost" && k != "baseline_cost" ==>
                 (k in o' <==> k in o) && (k in o ==> o'[k] == o[k])
  {
  }

  /** What a successful migration leaves: the resource entries and the
      allocation entries migrated one by one, `meta.version` set to "1.2",
      and every other top-level field untouched. */
  lemma MigratedDoc(doc: map<string, JVal>)
    requires Migrated(doc).Some?
    ensures var d, res, allocs := Migrated(doc).value, Get(doc, "resources"), Get(doc, "allocations");
            && (res.JArr? ==> Get(d, "resources") == JArr(MigrateEach(res.items, MigrateResource).value))
            && (!res.JArr? ==> Get(d, "resources") == res)
            && allocs.JArr?
            && Get(d, "allocations").JArr?
            && |Get(d, "allocations").items| == |allocs.items|
            && (forall i :: 0 <= i < |allocs.items| ==>
                  Get(d, "allocations").items[i] == MigrateAllocation(allocs.items[i]).value)
            && (Get(doc, "meta").JObj? ==> Get(d, "meta") == JObj(Get(doc, "meta").fields["version" := JStr("1.2")]))
            && (Get(doc, "meta").JArr? ==> Get(d, "meta") == Get(doc, "meta"))
            && forall k :: k != "resources" && k != "allocations" && k != "meta" ==>
                 (k in d <==> k in doc) && (k in doc ==> d[k] == doc[k])
  {
    var allocs := Get(doc, "allocations");
    var prepared := MigrateEach(allocs.items, PrepareAllocation);
    var out := MapEach(prepared.value, DefaultBaselineCost);
    assert Get(Migrated(doc).value, "allocations") == JArr(out);
    forall i | 0 <= i < |allocs.items| ensures out[i] == MigrateAllocation(allocs.items[i]).value {
      assert prepared.value[i] == PrepareAllocation(allocs.items[i]).value;
    }
  }

  /** An entry the migration has seen comes through a second pass as it was. */
  lemma MigrateResourceTwice(r: JVal)
    requires MigrateResource(r).Some?
    ensures MigrateResource(MigrateResource(r).value) == MigrateResource(r)
  {
  }

  lemma MigrateAllocationTwice(a: JVal)
    requires MigrateAllocation(a).Some?
    ensures MigrateAllocation(MigrateAllocation(a).value) == MigrateAllocation(a)
  {
    if a.JObj? {
      var b := MigrateAllocation(a).value;
      MigrateAllocationFacts(a);
      assert Get(b.fields, "start") == Get(a.fields, "start");
      if Nullish(Get(b.fields, "baseline_start")) {
        assert b.fields["baseline_start" := Get(b.fields, "start")] == b.fields;
      }
      assert PrepareAllocation(b) == Some(b);
    }
  }

  lemma {:induction false} MigrateEachTwice(items: seq<JVal>, f: JVal -> Option<JVal>)
    requires MigrateEach(items, f).Some?
    requires forall v :: f(v).Some? ==> f(f(v).value) == f(v)
    ensures MigrateEach(MigrateEach(items, f).value, f) == MigrateEach(items, f)
  {
    var once := MigrateEach(items, f).value;
    forall i | 0 <= i < |once| ensures f(once[i]).Some? && f(once[i]).value == once[i] {
      assert once[i] == f(items[i]).value;
    }
    var twice := MigrateEach(once, f).value;
    assert twice == once;
  }

  lemma MapEachMigrated(items: seq<JVal>)
    requires forall i :: 0 <= i < |items| ==> MigrateAllocation(items[i]).Some?
    ensures MigrateEach(items, PrepareAllocation).Some?
    ensures MapEach(MigrateEach(items, PrepareAllocation).value, DefaultBaselineCost)
            == MigrateEach(items, MigrateAllocation).value
  {
  }

  /** A document the migration has nothing left to do on. */
  predicate Settled(doc: map<string, JVal>)
  {
    var res, allocs, meta := Get(doc, "resources"), Get(doc, "allocations"), Get(doc, "meta");
    && (Nullish(res) || res.JArr?)
    && (res.JArr? ==> forall i :: 0 <= i < |res.items| ==> MigrateResource(res.items[i]) == Some(res.items[i]))
    && allocs.JArr?
    && (forall i :: 0 <= i < |allocs.items| ==> MigrateAllocation(allocs.items[i]) == Some(allocs.items[i]))
    && (meta.JArr? || (meta.JObj? && Get(meta.fields, "version") == JStr("1.2")))
  }

  lemma MigrateEachFixed(items: seq<JVal>, f: JVal -> Option<JVal>)
    requires forall i :: 0 <= i < |items| ==> f(items[i]) == Some(items[i])
    ensures MigrateEach(items, f) == Some(items)
  {
    assert MigrateEach(items, f).value == items;
  }

  lemma MigratedSettled(doc: map<string, JVal>)
    requires Settled(doc)
    ensures Migrated(doc) == Some(doc)
  {
    var res, allocs, meta := Get(doc, "resources"), Get(doc, "allocations"), Get(doc, "meta");
    var rs := if res.JArr? then MigrateEach(res.items, MigrateResource) else Some([]);
    if res.JArr? {
      MigrateEachFixed(res.items, MigrateResource);
    }
    assert rs.Some?;
    var prepared := MigrateEach(allocs.items, PrepareAllocation);
    MapEachMigrated(allocs.items);
    MigrateEachFixed(allocs.items, MigrateAllocation);
    assert MapEach(prepared.value, DefaultBaselineCost) == allocs.items;
    var d1 := if res.JArr? then doc["resources" := JArr(rs.value)] else doc;
    if res.JArr? {
      assert d1 == doc["resources" := res];
      PutBack(doc, "resources");
    }
    var d2 := d1["allocations" := JArr(MapEach(prepared.value, DefaultBaselineCost))];
    assert d2 == doc["allocations" := allocs];
    PutBack(doc, "allocations");
    if meta.JObj? {
      PutBack(meta.fields, "version");
      assert d2["meta" := JObj(meta.fields["version" := JStr("1.2")])] == doc["meta" := meta];
      PutBack(doc, "meta");
    }
  }

  /** Writing back the value a key already has changes nothing. */
  lemma PutBack<V>(o: map<string, V>, k: string)
    requires k in o
    ensures o[k := o[k]] == o
  {
  }

  /** What the migration leaves is settled. */
  lemma MigratedIsSettled(doc: map<string, JVal>)
    requires Migrated(doc).Some?
    ensures Settled(Migrated(doc).value)
  {
    var d := Migrated(doc).value;
    MigratedDoc(doc);
    var res := Get(doc, "resources");
    if res.JArr? {
      var once := MigrateEach(res.items, MigrateResource).value;
      forall i | 0 <= i < |once| ensures MigrateResource(once[i]) == Some(once[i]) {
        MigrateResourceTwice(res.items[i]);
      }
    }
    var allocs := Get(doc, "allocations").items;
    forall i | 0 <= i < |allocs| ensures MigrateAllocation(Get(d, "allocations").items[i]) == Some(Get(d, "allocations").items[i]) {
      MigrateAllocationTwice(allocs[i]);
    }
  }

  /** Migrating a migrated plan changes nothing. */
  lemma MigrateIdempotent(doc: map<string, JVal>)
    requires Migrated(doc).Some?
    ensures Migrated(Migrated(doc).value) == Migrated(doc)
  {
    MigratedIsSettled(doc);
    MigratedSettled(Migrated(doc).value);
  }

  /* ---------------- sanitizePlan ---------------- */

  /** The filter of `sanitizePlan`: a truthy entry whose `start` is a string
      of at least 10 characters. */
  predicate Keep(a: JVal)
  {
    a.JObj? && Get(a.fields, "start").JStr? && |Get(a.fields, "start").s| >= 10
  }

  /** `plan.allocations?.length || 0`. */
  function Before(v: JVal): nat
  {
    match v
    case JArr(items) => |items|
    case JStr(s) => |s|
    case _ => 0
  }

  /** `(plan.allocations || []).filter(...)`, or None where a truthy
      non-list has no `filter` to call. */
  function Kept(v: JVal): Option<seq<JVal>>
  {
    if v.JArr? then Some(Filter(v.items, Keep))
    else if Truthy(v) then None
    else Some([])
  }

  function Sanitized(doc: map<string, JVal>): Option<map<string, JVal>>
  {
    var k := Kept(Get(doc, "allocations"));
    if k.Some? then Some(doc["allocations" := JArr(k.value)]) else None
  }

  /** `before - plan.allocations.length`. */
  function Removed(doc: map<string, JVal>): int
    requires Kept(Get(doc, "allocations")).Some?
  {
    Before(Get(doc, "allocations")) - |Kept(Get(doc, "allocations")).value|
  }

  /** The alert for `n` removed allocations. */
  function AlertText(n: int): string
  {
    IntString(n) + " corrupted allocations were removed while loading."
  }

  /** Sanitising keeps exactly the entries that pass the filter, in their
      order; the removed count is never negative and is zero exactly when
      the list kept every entry; only the allocation list changes. */
  lemma SanitizeFacts(doc: map<string, JVal>)
    requires Get(doc, "allocations").JArr?
    ensures var items := Get(doc, "allocations").items;
            && Sanitized(doc) == Some(doc["allocations" := JArr(Filter(items, Keep))])
            && (forall i :: 0 <= i < |items| && Keep(items[i]) ==> items[i] in Filter(items, Keep))
            && (forall i :: 0 <= i < |Filter(items, Keep)| ==> Keep(Filter(items, Keep)[i]) && Filter(items, Keep)[i] in items)
            && Removed(doc) >= 0
            && (Removed(doc) == 0 <==> forall i :: 0 <= i < |items| ==> Keep(items[i]))
  {
    var items := Get(doc, "allocations").items;
    FilterMembers(items, Keep);
    var drop := (a: JVal) => !Keep(a);
    FilterSplitCount(items, Keep, drop);
    if exists i :: 0 <= i < |items| && !Keep(items[i]) {
      var i :| 0 <= i < |items| && !Keep(items[i]);
      FilterMembers(items, drop);
      assert items[i] in Filter(items, drop);
    } else {
      FilterNone(items, drop);
    }
  }

  /** Sanitising a sanitised plan keeps it as it is, and removes nothing. */
  lemma SanitizeIdempotent(doc: map<string, JVal>)
    requires Sanitized(doc).Some?
    ensures Sanitized(Sanitized(doc).value) == Sanitized(doc)
    ensures Removed(Sanitized(doc).value) == 0
  {
    var items := Kept(Get(doc, "allocations")).value;
    if Get(doc, "allocations").JArr? {
      FilterIdempotent(Get(doc, "allocations").items, Keep);
    }
    assert Filter(items, Keep) == items by {
      if !Get(doc, "allocations").JArr? {
        assert items == [];
      }
    }
    assert Sanitized(doc).value["allocations" := JArr(items)] == Sanitized(doc).value;
  }

  /* ---------------- the two load paths ---------------- */

  /** `migratePlan(p); sanitizePlan(p)`. */
  function Clean(doc: map<string, JVal>): Option<map<string, JVal>>
  {
    var m := Migrated(doc);
    if m.Some? then Sanitized(m.value) else None
  }

  /** `loadJSON(key)`: `stored` is what `localStorage.getItem(key)` holds
      and `parsed` is what `JSON.parse` makes of it (None where it throws).
      Empty or missing text, a parse error, and any throw during migration
      or sanitising all give `null`; a non-object document throws in the
      migration. */
  function LoadPlan(stored: Option<string>, parsed: Option<JVal>): Option<JVal>
  {
    if stored.None? || stored.value == "" || parsed.None? || !parsed.value.JObj? then None
    else
      var c := Clean(parsed.value.fields);
      if c.Some? then Some(JObj(c.value)) else None
  }

  /** How `openFile` ends: no file chosen, the cleaned plan saved and handed
      to `onLoad`, or an alert with the error. */
  datatype Opened = NoFile | Loaded(plan: JVal) | Alerted

  /** `openFile`: `file` is the chosen file's text, `parsed` what
      `JSON.parse` makes of it. */
  function OpenResult(file: Option<string>, parsed: Option<JVal>): Opened
  {
    if file.None? then NoFile
    else if parsed.None? || !parsed.value.JObj? then Alerted
    else
      var c := Clean(parsed.value.fields);
      if c.Some? then Loaded(JObj(c.value)) else Alerted
  }

  /** Both paths migrate before they sanitise: from the same non-empty text
      they deliver the same plan, and fail on the same documents. */
  lemma LoadPathsAgree(text: string, parsed: Option<JVal>)
    requires text != ""
    ensures LoadPlan(Some(text), parsed).Some? <==> OpenResult(Some(text), parsed).Loaded?
    ensures LoadPlan(Some(text), parsed).Some? ==> OpenResult(Some(text), parsed).plan == LoadPlan(Some(text), parsed).value
  {
  }

  /** The migration leaves `start` alone, so it never changes whether an
      entry passes the sanitising filter. */
  lemma KeepUnchanged(a: JVal)
    requires MigrateAllocation(a).Some?
    ensures Keep(MigrateAllocation(a).value) == Keep(a)
  {
    if a.JObj? {
      MigrateAllocationFacts(a);
      assert Get(MigrateAllocation(a).value.fields, "start") == Get(a.fields, "start");
    }
  }

  lemma {:induction false} FilterMigrated(items: seq<JVal>)
    requires forall i :: 0 <= i < |items| ==> MigrateAllocation(items[i]).Some?
    ensures forall i :: 0 <= i < |Filter(items, Keep)| ==> MigrateAllocation(Filter(items, Keep)[i]).Some?
    ensures Filter(MigrateEach(items, MigrateAllocation).value, Keep)
            == MigrateEach(Filter(items, Keep), MigrateAllocation).value
    decreases |items|
  {
    FilterMembers(items, Keep);
    if items != [] {
      var init, last := items[..|items| - 1], items[|items| - 1];
      FilterMigrated(init);
      KeepUnchanged(last);
      var m := MigrateEach(items, MigrateAllocation).value;
      assert m[..|items| - 1] == MigrateEach(init, MigrateAllocation).value;
      var fi := Filter(init, Keep);
      if Keep(last) {
        assert Filter(items, Keep) == fi + [last];
        assert (fi + [last])[..|fi|] == fi;
      }
    }
  }

  /** The allocations of a loaded plan are the parsed entries that pass the
      filter, in their order, each migrated: sanitising after migrating
      keeps what sanitising first would have kept. */
  lemma LoadedAllocations(doc: map<string, JVal>)
    requires Clean(doc).Some?
    ensures Get(doc, "allocations").JArr?
    ensures var allocs := Get(doc, "allocations").items;
            && (forall i :: 0 <= i < |Filter(allocs, Keep)| ==> MigrateAllocation(Filter(allocs, Keep)[i]).Some?)
            && Get(Clean(doc).value, "allocations") == JArr(MigrateEach(Filter(allocs, Keep), MigrateAllocation).value)
  {
    MigratedDoc(doc);
    var allocs := Get(doc, "allocations").items;
    var mid := Get(Migrated(doc).value, "allocations").items;
    MapEachMigrated(allocs);
    assert mid == MigrateEach(allocs, MigrateAllocation).value;
    FilterMigrated(allocs);
  }

  /** Every allocation of a loaded plan is an object with a start string of
      at least 10 characters, a `baseline_start` and a `cost`. */
  lemma LoadedComplete(doc: map<string, JVal>)
    requires Clean(doc).Some?
    ensures Get(Clean(doc).value, "allocations").JArr?
    ensures var out := Get(Clean(doc).value, "allocations").items;
            forall i :: 0 <= i < |out| ==>
              && Keep(out[i])
              && !Nullish(Get(out[i].fields, "baseline_start"))
              && !Nullish(Get(out[i].fields, "cost"))
  {
    LoadedAllocations(doc);
    var kept := Filter(Get(doc, "allocations").items, Keep);
    FilterMembers(Get(doc, "allocations").items, Keep);
    var out := MigrateEach(kept, MigrateAllocation).value;
    forall i | 0 <= i < |out|
      ensures Keep(out[i]) && !Nullish(Get(out[i].fields, "baseline_start")) && !Nullish(Get(out[i].fields, "cost"))
    {
      EntryComplete(kept[i]);
    }
  }

  lemma EntryComplete(a: JVal)
    requires Keep(a)
    ensures MigrateAllocation(a).Some?
    ensures var b := MigrateAllocation(a).value;
            Keep(b) && !Nullish(Get(b.fields, "baseline_start")) && !Nullish(Get(b.fields, "cost"))
  {
    MigrateAllocationFacts(a);
    KeepUnchanged(a);
  }

  /** Sanitising a settled document keeps it settled. */
  lemma SanitizeKeepsSettled(m: map<string, JVal>)
    requires Settled(m)
    ensures Sanitized(m).Some? && Settled(Sanitized(m).value)
  {
    var items := Get(m, "allocations").items;
    FilterMembers(items, Keep);
    var kept := Filter(items, Keep);
    forall i | 0 <= i < |kept| ensures MigrateAllocation(kept[i]) == Some(kept[i]) {
      var j :| 0 <= j < |items| && items[j] == kept[i];
    }
  }

  /** Reloading a loaded plan gives it back unchanged. */
  lemma CleanIdempotent(doc: map<string, JVal>)
    requires Clean(doc).Some?
    ensures Clean(Clean(doc).value) == Clean(doc)
  {
    var m := Migrated(doc).value;
    MigratedIsSettled(doc);
    SanitizeKeepsSettled(m);
    MigratedSettled(Sanitized(m).value);
    SanitizeIdempotent(m);
  }

  /** A `null` allocation entry makes the whole load fail: the migration,
      which runs first, reads a property of it, so the `a && ...` guard of
      the sanitising filter never sees it. */
  lemma NullEntryFailsLoad(text: string, doc: map<string, JVal>)
    requires text != ""
    requires Get(doc, "allocations") == JArr([JNull])
    ensures !Keep(JNull)
    ensures LoadPlan(Some(text), Some(JObj(doc))) == None
  {
    MigratedFails(doc);
    assert Untouchable(Get(doc, "allocations").items[0]);
  }

  /* ---------------- the plan object, mutated in place ---------------- */

  /** `items.forEach(f)` for an `f` that may throw: `ok` is false as soon as
      one entry throws. */
  method MigrateList(items: seq<JVal>, f: JVal -> Option<JVal>) returns (out: seq<JVal>, ok: bool)
    ensures ok <==> MigrateEach(items, f).Some?
    ensures ok ==> out == MigrateEach(items, f).value
  {
    out := [];
    var i := 0;
    while i < |items|
      invariant 0 <= i <= |items|
      invariant MigrateEach(items[..i], f) == Some(out)
    {
      var x := f(items[i]);
      if x.None? {
        return out, false;
      }
      assert items[..i + 1][..i] == items[..i];
      out := out + [x.value];
      i := i + 1;
    }
    assert items[..|items|] == items;
    ok := true;
  }

  /** The second allocation `forEach`, which cannot throw. */
  method DefaultBaselineCosts(items: seq<JVal>) returns (out: seq<JVal>)
    ensures out == MapEach(items, DefaultBaselineCost)
  {
    out := [];
    var i := 0;
    while i < |items|
      invariant 0 <= i <= |items|
      invariant out == MapEach(items[..i], DefaultBaselineCost)
    {
      assert items[..i + 1][..i] == items[..i];
      out := out + [DefaultBaselineCost(items[i])];
      i := i + 1;
    }
    assert items[..|items|] == items;
  }

  /** The parsed plan object whose fields the load path rewrites. */
  class PlanObject {
    var fields: map<string, JVal>

    constructor (doc: map<string, JVal>)
      ensures fields == doc
    {
      fields := doc;
    }

    /** `migratePlan(this)`. When it throws (`ok` false) the object is left
        half-migrated; both callers then discard it. */
    method Migrate() returns (ok: bool)
      modifies this
      ensures ok <==> Migrated(old(fields)).Some?
      ensures ok ==> fields == Migrated(old(fields)).value
    {
      var doc := fields;
      var res := Get(fields, "resources");
      if res.JArr? {
        var items, good := MigrateList(res.items, MigrateResource);
        if !good {
          return false;
        }
        fields := fields["resources" := JArr(items)];
      } else if !Nullish(res) {
        return false;
      }
      var allocs := Get(fields, "allocations");
      assert allocs == Get(doc, "allocations");
      if !allocs.JArr? {
        return false;
      }
      var prepared, good := MigrateList(allocs.items, PrepareAllocation);
      if !good {
        return false;
      }
      var costed := DefaultBaselineCosts(prepared);
      fields := fields["allocations" := JArr(costed)];
      var meta := Get(fields, "meta");
      assert meta == Get(doc, "meta");
      if meta.JObj? {
        fields := fields["meta" := JObj(meta.fields["version" := JStr("1.2")])];
      } else if !meta.JArr? {
        return false;
      }
      ok := true;
    }

    /** `sanitizePlan(this)`: `removed` is the count of dropped
        allocations and `alert` the message shown when it is positive. */
    method Sanitize() returns (ok: bool, removed: int, alert: Option<string>)
      modifies this
      ensures ok <==> Sanitized(old(fields)).Some?
      ensures ok ==> fields == Sanitized(old(fields)).value
      ensures ok ==> removed == Removed(old(fields))
      ensures ok ==> alert == if removed > 0 then Some(AlertText(removed)) else None
    {
      var allocs := Get(fields, "allocations");
      var before := Before(allocs);
      var kept: seq<JVal>;
      if allocs.JArr? {
        kept := Filter(allocs.items, Keep);
      } else if Truthy(allocs) {
        return false, 0, None;
      } else {
        kept := [];
      }
      fields := fields["allocations" := JArr(kept)];
      ok := true;
      removed := before - |kept|;
      alert := if removed > 0 then Some(AlertText(removed)) else None;
    }
  }

  /** `loadJSON(key)`. */
  method LoadJSON(stored: Option<string>, parsed: Option<JVal>) returns (plan: Option<JVal>)
    ensures plan == LoadPlan(stored, parsed)
  {
    if stored.None? || stored.value == "" || parsed.None? || !parsed.value.JObj? {
      return None;
    }
    var p := new PlanObject(parsed.value.fields);
    var ok := p.Migrate();
    if !ok {
      return None;
    }
    var clean, _, _ := p.Sanitize();
    if !clean {
      return None;
    }
    plan := Some(JObj(p.fields));
  }

  /** `openFile(inputEl, onLoad)`; the plan it loads is the one it saves
      under `planner.v1` and hands to `onLoad`. */
  method OpenFile(file: Option<string>, parsed: Option<JVal>) returns (outcome: Opened)
    ensures outcome == OpenResult(file, parsed)
  {
    if file.None? {
      return NoFile;
    }
    if parsed.None? || !parsed.value.JObj? {
      return Alerted;
    }
    var p := new PlanObject(parsed.value.fields);
    var ok := p.Migrate();
    if !ok {
      return Alerted;
    }
    var clean, _, _ := p.Sanitize();
    if !clean {
      return Alerted;
    }
    outcome := Loaded(JObj(p.fields));
  }
}
