/** What the timeline widget is given: HTML-escaped item contents, one row
    per booked resource, one bar and one baseline shadow per allocation,
    the over-booking bands, and the rule that snaps dragged instants to a
    day. */
module Timeline {
  import opened Common
  import opened Plan
  import opened Allocations

  /* ---------------- escaping ---------------- */

  /** The five characters `esc` replaces. */
  predicate Special(c: char) { c == '&' || c == '<' || c == '>' || c == '"' || c == '\'' }

  /** The characters that would open or close markup or an attribute. */
  predicate Raw(c: char) { c == '<' || c == '>' || c == '"' || c == '\'' }

  /** The entity each special character becomes. */
  function EscChar(c: char): (r: string)
    ensures |r| >= 1
    ensures r[0] == '&' <==> Special(c)
    ensures forall i :: 0 <= i < |r| ==> !Raw(r[i])
    ensures !Special(c) ==> r == [c]
  {
    if c == '&' then "&amp;"
    else if c == '<' then "&lt;"
    else if c == '>' then "&gt;"
    else if c == '"' then "&quot;"
    else if c == '\'' then "&#39;"
    else [c]
  }

  /** `esc(s)`: every special character replaced by its entity. */
  function Esc(s: string): (r: string)
    ensures |r| >= |s|
    ensures forall i :: 0 <= i < |r| ==> !Raw(r[i])
    ensures (forall i :: 0 <= i < |s| ==> !Special(s[i])) ==> r == s
    decreases |s|
  {
    if s == [] then [] else EscChar(s[0]) + Esc(s[1..])
  }

  /** `s` opens with the text `e`. */
  predicate StartsWith(s: string, e: string) { |s| >= |e| && s[..|e|] == e }

  /** Reads the entities `esc` writes back as the characters they stand for. */
  function Unesc(s: string): string
    decreases |s|
  {
    if s == [] then []
    else if StartsWith(s, "&amp;") then "&" + Unesc(s[5..])
    else if StartsWith(s, "&lt;") then "<" + Unesc(s[4..])
    else if StartsWith(s, "&gt;") then ">" + Unesc(s[4..])
    else if StartsWith(s, "&quot;") then "\"" + Unesc(s[6..])
    else if StartsWith(s, "&#39;") then "'" + Unesc(s[5..])
    else [s[0]] + Unesc(s[1..])
  }

  lemma Starts(e: string, rest: string)
    ensures StartsWith(e + rest, e) && (e + rest)[|e|..] == rest
  {
    assert (e + rest)[..|e|] == e;
  }

  /** Two entities that differ in their second character do not open the
      same text. */
  lemma NotStarts(e: string, f: string, rest: string)
    requires |e| >= 2 && |f| >= 2 && e[1] != f[1]
    ensures !StartsWith(f + rest, e)
  {
    assert (f + rest)[1] == f[1];
  }

  lemma UnescAmp(rest: string)
    ensures Unesc("&amp;" + rest) == "&" + Unesc(rest)
  {
    Starts("&amp;", rest);
  }

  lemma UnescLt(rest: string)
    ensures Unesc("&lt;" + rest) == "<" + Unesc(rest)
  {
    NotStarts("&amp;", "&lt;", rest);
    Starts("&lt;", rest);
  }

  lemma UnescGt(rest: string)
    ensures Unesc("&gt;" + rest) == ">" + Unesc(rest)
  {
    NotStarts("&amp;", "&gt;", rest);
    NotStarts("&lt;", "&gt;", rest);
    Starts("&gt;", rest);
  }

  lemma UnescQuot(rest: string)
    ensures Unesc("&quot;" + rest) == "\"" + Unesc(rest)
  {
    NotStarts("&amp;", "&quot;", rest);
    NotStarts("&lt;", "&quot;", rest);
    NotStarts("&gt;", "&quot;", rest);
    Starts("&quot;", rest);
  }

  lemma UnescApos(rest: string)
    ensures Unesc("&#39;" + rest) == "'" + Unesc(rest)
  {
    NotStarts("&amp;", "&#39;", rest);
    NotStarts("&lt;", "&#39;", rest);
    NotStarts("&gt;", "&#39;", rest);
    NotStarts("&quot;", "&#39;", rest);
    Starts("&#39;", rest);
  }

  /** A text that does not open with `&` opens with no entity. */
  lemma NoEntity(t: string, e: string)
    requires |t| >= 1 && t[0] != '&' && |e| >= 1 && e[0] == '&'
    ensures !StartsWith(t, e)
  {
    if |t| >= |e| {
      assert t[..|e|][0] == t[0];
    }
  }

  lemma UnescPlain(c: char, rest: string)
    requires c != '&'
    ensures Unesc([c] + rest) == [c] + Unesc(rest)
  {
    var t := [c] + rest;
    assert t[0] == c && t[1..] == rest;
    NoEntity(t, "&amp;");
    NoEntity(t, "&lt;");
    NoEntity(t, "&gt;");
    NoEntity(t, "&quot;");
    NoEntity(t, "&#39;");
  }

  lemma UnescStep(c: char, rest: string)
    ensures Unesc(EscChar(c) + rest) == [c] + Unesc(rest)
  {
    if c == '&' {
      UnescAmp(rest);
    } else if c == '<' {
      UnescLt(rest);
    } else if c == '>' {
      UnescGt(rest);
    } else if c == '"' {
      UnescQuot(rest);
    } else if c == '\'' {
      UnescApos(rest);
    } else {
      UnescPlain(c, rest);
    }
  }

  /** Escaping loses nothing: the escaped text reads back as the original. */
  lemma {:induction false} EscRoundTrip(s: string)
    ensures Unesc(Esc(s)) == s
    decreases |s|
  {
    if s != [] {
      UnescStep(s[0], Esc(s[1..]));
      EscRoundTrip(s[1..]);
    }
  }

  /** Escaping works character by character, so it spreads over a
      concatenation. */
  lemma {:induction false} EscAppend(a: string, b: string)
    ensures Esc(a + b) == Esc(a) + Esc(b)
    decreases |a|
  {
    if a != [] {
      assert (a + b)[0] == a[0] && (a + b)[1..] == a[1..] + b;
      assert Esc(a + b) == EscChar(a[0]) + Esc(a[1..] + b);
      EscAppend(a[1..], b);
      assert Esc(a) == EscChar(a[0]) + Esc(a[1..]);
    } else {
      assert a + b == b;
    }
  }

  /* ---------------- contents and names ---------------- */

  const Open: string := "<small>"
  const Close: string := "</small>"

  /** `buildContent(a)`: the escaped task in a `<small>` element (the
      percentage and duration pills it computes are not used). */
  function BuildContent(a: Allocation): string
  {
    Open + Esc(a.task) + Close
  }

  /** The content is the `<small>` element around a text that holds no
      markup character and reads back as the task. */
  lemma ContentShowsTask(a: Allocation)
    ensures var c := BuildContent(a);
            && |c| == |Open| + |Esc(a.task)| + |Close|
            && c[..|Open|] == Open && c[|c| - |Close|..] == Close
            && Unesc(c[|Open|..|c| - |Close|]) == a.task
            && forall i :: |Open| <= i < |c| - |Close| ==> !Raw(c[i])
  {
    var c := BuildContent(a);
    assert c[|Open|..|c| - |Close|] == Esc(a.task);
    EscRoundTrip(a.task);
  }

  const Ellipsis: char := '…'

  /** The row label: a name over 60 characters is cut to its first 50 and
      an ellipsis. */
  function TruncateName(name: string): (r: string)
    ensures |r| <= 60
    ensures r == name <==> |name| <= 60
    ensures |name| > 60 ==> |r| == 51 && r[..50] == name[..50] && r[50] == Ellipsis
  {
    if |name| > 60 then name[..50] + [Ellipsis] else name
  }

  /* ---------------- groups ---------------- */

  /** One timeline row: the resource id, the (truncated) name and the
      class line under it. */
  datatype Group = Group(id: string, name: string, cls: string)

  function GroupOf(r: Resource): Group
  {
    Group(r.id, TruncateName(r.name), r.cls)
  }

  /** The rows for the resources `rs`, keeping those whose id is in `used`. */
  function GroupsOf(rs: seq<Resource>, used: seq<string>): (gs: seq<Group>)
    ensures |gs| <= |rs|
    decreases |rs|
  {
    if rs == [] then []
    else
      var r := rs[|rs| - 1];
      GroupsOf(rs[..|rs| - 1], used) + (if r.id in used then [GroupOf(r)] else [])
  }

  /** The rows of `refreshTimeline`: the plan's resources that have at
      least one allocation. */
  function Groups(p: Plan): seq<Group>
  {
    GroupsOf(p.resources, UsedIds(p))
  }

  /** Exactly the booked resources get a row. */
  lemma {:induction false} GroupsOfMembers(rs: seq<Resource>, used: seq<string>)
    ensures forall g :: g in GroupsOf(rs, used) <==> exists r :: r in rs && r.id in used && g == GroupOf(r)
    decreases |rs|
  {
    if rs != [] {
      var init := rs[..|rs| - 1];
      GroupsOfMembers(init, used);
      assert rs == init + [rs[|rs| - 1]];
      forall g | g in GroupsOf(rs, used) ensures exists r :: r in rs && r.id in used && g == GroupOf(r) {
        if g in GroupsOf(init, used) {
          var r :| r in init && r.id in used && g == GroupOf(r);
          assert r in rs;
        }
      }
    }
  }

  /** Rows follow the resource order: the rows of a split list are the
      rows of its front followed by those of its back. */
  lemma {:induction false} GroupsOfAppend(a: seq<Resource>, b: seq<Resource>, used: seq<string>)
    ensures GroupsOf(a + b, used) == GroupsOf(a, used) + GroupsOf(b, used)
    decreases |b|
  {
    if b == [] {
      assert a + b == a;
    } else {
      assert (a + b)[..|a + b| - 1] == a + b[..|b| - 1];
      GroupsOfAppend(a, b[..|b| - 1], used);
    }
  }

  /** The rows are the plan's resources with an allocation, in the plan's
      order, each labelled with its truncated name. */
  lemma GroupsFacts(p: Plan, k: nat)
    requires k <= |p.resources|
    ensures forall g :: g in Groups(p) <==>
              exists r :: r in p.resources && g == GroupOf(r) &&
                exists i :: 0 <= i < |p.allocations| && p.allocations[i].resourceId == r.id
    ensures Groups(p) == GroupsOf(p.resources[..k], UsedIds(p)) + GroupsOf(p.resources[k..], UsedIds(p))
    ensures forall i :: 0 <= i < |Groups(p)| ==> |Groups(p)[i].name| <= 60
  {
    GroupsOfMembers(p.resources, UsedIds(p));
    assert p.resources == p.resources[..k] + p.resources[k..];
    GroupsOfAppend(p.resources[..k], p.resources[k..], UsedIds(p));
    forall i | 0 <= i < |Groups(p)| ensures |Groups(p)[i].name| <= 60 {
      assert Groups(p)[i] in Groups(p);
    }
  }

  /* ---------------- items ---------------- */

  /** What goes into the item set: an allocation's bar, its baseline
      shadow (a point for a box, a thin range otherwise) and the
      over-booking bands. */
  datatype Item =
    | Bar(id: string, group: string, start: int, end: Option<int>, content: string, title: string, pct: real)
    | ShadowPoint(id: string, group: string, from: Option<int>)
    | ShadowRange(id: string, group: string, from: Option<int>, to: Option<int>)
    | Overbook(band: Band)

  const ShadowSuffix: string := "_bl"

  function BarOf(a: Allocation): Item
  {
    Bar(a.id, a.resourceId, a.start, a.end, BuildContent(a), a.task, a.pct)
  }

  function ShadowOf(a: Allocation): Item
  {
    if IsBox(a) then ShadowPoint(a.id + ShadowSuffix, a.resourceId, a.baselineStart)
    else ShadowRange(a.id + ShadowSuffix, a.resourceId, a.baselineStart, a.baselineEnd)
  }

  function Bars(allocs: seq<Allocation>): seq<Item>
  {
    seq(|allocs|, i requires 0 <= i < |allocs| => BarOf(allocs[i]))
  }

  function Shadows(allocs: seq<Allocation>): seq<Item>
  {
    seq(|allocs|, i requires 0 <= i < |allocs| => ShadowOf(allocs[i]))
  }

  function BandItems(bands: seq<Band>): seq<Item>
  {
    seq(|bands|, i requires 0 <= i < |bands| => Overbook(bands[i]))
  }

  /** The items of `refreshTimeline`: all bars, then all shadows, then the
      over-booking bands. */
  function Items(p: Plan): seq<Item>
  {
    Bars(p.allocations) + Shadows(p.allocations) + BandItems(OverbookBands(p))
  }

  /** Allocation `i` has its bar at `i` and its shadow at `n + i`: same
      row, the bar on the record's own dates, the shadow on its baseline,
      and the shadow is a point exactly when the record is a box. */
  lemma ItemsFacts(p: Plan, i: nat)
    requires i < |p.allocations|
    ensures var n, a, its := |p.allocations|, p.allocations[i], Items(p);
            && |its| == 2 * n + |OverbookBands(p)|
            && its[i].Bar? && its[i].id == a.id && its[i].group == a.resourceId
            && its[i].start == a.start && its[i].end == a.end && its[i].title == a.task
            && its[i].content == BuildContent(a)
            && (its[n + i].ShadowPoint? <==> IsBox(a))
            && !its[n + i].Bar? && !its[n + i].Overbook?
            && its[n + i].id == a.id + ShadowSuffix && its[n + i].group == a.resourceId
            && its[n + i].from == a.baselineStart
            && (its[n + i].ShadowRange? ==> its[n + i].to == a.baselineEnd)
  {
    var a := p.allocations[i];
    var bars, shadows, bands := Bars(p.allocations), Shadows(p.allocations), BandItems(OverbookBands(p));
    ConcatAt(bars, shadows, bands, i);
    assert bars[i] == BarOf(a) && shadows[i] == ShadowOf(a);
  }

  /** Indexing three sequences laid end to end, the first two as long as
      each other. */
  lemma ConcatAt<T>(x: seq<T>, y: seq<T>, z: seq<T>, i: nat)
    requires i < |x| == |y|
    ensures |x + y + z| == 2 * |x| + |z|
    ensures (x + y + z)[i] == x[i] && (x + y + z)[|x| + i] == y[i]
  {
  }

  /** The tail of the item list is the over-booking bands, in order. */
  lemma ItemsBands(p: Plan, j: nat)
    requires j < |OverbookBands(p)|
    ensures Items(p)[2 * |p.allocations| + j] == Overbook(OverbookBands(p)[j])
  {
  }

  /** Allocations with distinct ids get shadows with distinct ids. */
  lemma ShadowIdsDistinct(a: Allocation, b: Allocation)
    requires a.id != b.id
    ensures ShadowOf(a).id != ShadowOf(b).id
  {
    var x, y := a.id + ShadowSuffix, b.id + ShadowSuffix;
    assert x[..|a.id|] == a.id && y[..|b.id|] == b.id;
    assert ShadowOf(a).id == x && ShadowOf(b).id == y;
  }

  /* ---------------- snapping ---------------- */

  /** The `snap` option: a dragged instant goes to its day's midnight, or
      to the next midnight from noon on. */
  function Snap(t: int): int
  {
    t / DayMs * DayMs + (if t % DayMs / HourMs >= 12 then DayMs else 0)
  }

  /** Snapping lands on the nearest midnight: a midnight less than half a
      day before the instant or at most half a day after it. */
  lemma SnapFacts(t: int)
    ensures Snap(t) % DayMs == 0
    ensures t - DayMs / 2 < Snap(t) <= t + DayMs / 2
  {
    var d, m := t / DayMs, t % DayMs;
    assert t == d * DayMs + m;
    assert (d * DayMs) % DayMs == 0 && ((d + 1) * DayMs) % DayMs == 0;
  }

  /** The nearest midnight is the only midnight in that window. */
  lemma SnapUnique(t: int, m: int)
    requires m % DayMs == 0 && t - DayMs / 2 < m <= t + DayMs / 2
    ensures Snap(t) == m
  {
    SnapFacts(t);
    var s := Snap(t);
    assert (m - s) % DayMs == 0;
    assert -DayMs < m - s < DayMs;
  }

  /** A snapped instant stays where it is, and later instants never snap
      earlier. */
  lemma SnapStable(t: int, u: int)
    ensures Snap(Snap(t)) == Snap(t)
    ensures t <= u ==> Snap(t) <= Snap(u)
  {
    SnapFacts(t);
    SnapFacts(u);
    SnapUnique(Snap(t), Snap(t));
  }

  /* ---------------- the widget's data sets ---------------- */

  /** The `groups` and `items` data sets `refreshTimeline` refills. */
  class TimelineSets {
    var groups: seq<Group>
    var items: seq<Item>

    constructor ()
      ensures groups == [] && items == []
    {
      groups := [];
      items := [];
    }

    /** `refreshTimeline(plan, sets)`: both sets cleared and refilled from
        the plan. */
    method Refresh(p: Plan)
      modifies this
      ensures groups == Groups(p)
      ensures items == Items(p)
    {
      var used := UsedIds(p);
      groups := GroupsOf(p.resources, used);
      var bands := BuildOverbookBands(p);
      items := Bars(p.allocations) + Shadows(p.allocations) + BandItems(bands);
    }
  }
}
