/** The planner document once loaded: resources, allocations, and the
    lookups every view of it shares. */
module Plan {
  import opened Common

  /** A person or team that can be booked; `cls` is the free-text class. */
  datatype Resource = Resource(id: string, name: string, cls: string, costPerHour: real)

  /** One booking of a resource. Instants are milliseconds since the epoch.
      A box (a start-only milestone) has no `end`. `notes` is absent on
      records that never had the field. */
  datatype Allocation = Allocation(
    id: string,
    resourceId: string,
    task: string,
    notes: Option<string>,
    start: int,
    end: Option<int>,
    pct: real,
    cost: real,
    baselineStart: Option<int>,
    baselineEnd: Option<int>,
    baselineCost: Option<real>)

  datatype Plan = Plan(resources: seq<Resource>, allocations: seq<Allocation>)

  /** `isBox`: an allocation without an end. */
  predicate IsBox(a: Allocation) { a.end.None? }

  /** `new Date(a.end)`: a box's null end reads as the epoch. */
  function EndInstant(a: Allocation): int
  {
    if a.end.Some? then a.end.value else 0
  }

  /** `resources.find(r => r.id === id)`. */
  function FindResource(rs: seq<Resource>, id: string): Option<Resource>
  {
    if rs == [] then None
    else if rs[0].id == id then Some(rs[0])
    else FindResource(rs[1..], id)
  }

  /** `find` yields the first resource with that id, and nothing exactly
      when there is none. */
  lemma {:induction false} FindResourceFinds(rs: seq<Resource>, id: string)
    ensures FindResource(rs, id).None? <==> forall i :: 0 <= i < |rs| ==> rs[i].id != id
    ensures FindResource(rs, id).Some? ==>
              exists i :: 0 <= i < |rs| && rs[i] == FindResource(rs, id).value && rs[i].id == id
                          && forall j :: 0 <= j < i ==> rs[j].id != id
    decreases |rs|
  {
    if rs != [] && rs[0].id != id {
      FindResourceFinds(rs[1..], id);
      var r := FindResource(rs[1..], id);
      if r.Some? {
        var i :| 0 <= i < |rs[1..]| && rs[1..][i] == r.value && r.value.id == id
                 && forall j :: 0 <= j < i ==> rs[1..][j].id != id;
        assert rs[i + 1] == r.value;
        forall j | 0 <= j < i + 1 ensures rs[j].id != id {
          if j > 0 { assert rs[j] == rs[1..][j - 1]; }
        }
      } else {
        forall i | 0 <= i < |rs| ensures rs[i].id != id {
          if i > 0 { assert rs[i] == rs[1..][i - 1]; }
        }
      }
    }
  }

  /** `find(...)?.name || id`: the name, or the id when the resource is
      missing or its name is empty. */
  function NameOr(rs: seq<Resource>, id: string): string
  {
    var r := FindResource(rs, id);
    if r.Some? && r.value.name != "" then r.value.name else id
  }

  /** The name shown for `id` is that of the first resource with the id,
      or the id when that name is empty. */
  lemma NameOrFirst(rs: seq<Resource>, id: string, j: int)
    requires 0 <= j < |rs| && rs[j].id == id
    requires forall m :: 0 <= m < j ==> rs[m].id != id
    ensures NameOr(rs, id) == if rs[j].name != "" then rs[j].name else id
  {
    FindResourceFinds(rs, id);
    var i :| 0 <= i < |rs| && rs[i] == FindResource(rs, id).value && rs[i].id == id
             && forall m :: 0 <= m < i ==> rs[m].id != id;
    assert !(i < j) && !(j < i);
  }

  /** `find(...)?.name ?? id`: the name, or the id only when the resource is
      missing. */
  function NameOrMissing(rs: seq<Resource>, id: string): string
  {
    var r := FindResource(rs, id);
    if r.Some? then r.value.name else id
  }

  /** `id` of each resource, in order. */
  function IdsOf(rs: seq<Resource>): seq<string>
  {
    Map(rs, (r: Resource) => r.id)
  }

  /** `resource_id` of each allocation, in order. */
  function ResourceIds(allocs: seq<Allocation>): seq<string>
  {
    Map(allocs, (a: Allocation) => a.resourceId)
  }

  /** `new Set(plan.allocations.map(a => a.resource_id))`, in iteration order. */
  function UsedIds(p: Plan): (ids: seq<string>)
    ensures NoDuplicates(ids)
    ensures forall x :: x in ids <==> exists i :: 0 <= i < |p.allocations| && p.allocations[i].resourceId == x
  {
    var all := ResourceIds(p.allocations);
    var d := Distinct(all);
    assert forall x :: x in d ==> x in all by {
      forall x | x in d ensures x in all {
        var k :| 0 <= k < |d| && d[k] == x;
      }
    }
    d
  }

  predicate OfResource(id: string, a: Allocation) { a.resourceId == id }

  /** `plan.allocations.filter(a => a.resource_id === id)`. */
  function AllocsOf(p: Plan, id: string): seq<Allocation>
  {
    Filter(p.allocations, a => OfResource(id, a))
  }
}
