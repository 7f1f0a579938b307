/** `analytics.js`: the daily load table every KPI is built on, utilisation
    per resource, idle gaps and the milestone count. */
module Analytics {
  import opened Common
  import opened Decimal
  import opened Calendar
  import opened Plan

  /* ---------------- the daily load table ---------------- */

  /** A cell of the daily table, the pair the source joins into the map key
      `resId#YYYY-MM-DD`. */
  datatype Key = Key(res: string, day: string)

  /** One `dayMap.set`: `pct` added to the cell `key`. */
  datatype Hit = Hit(key: Key, pct: real)

  /** The turns the day loop makes from `s`, stepping one UTC day while
      `d <= e`. */
  function DayCount(s: int, e: int): nat
  {
    if e < s then 0 else (e - s) / DayMs + 1
  }

  /** The loop's `d` on turn `j`: `setUTCDate(getUTCDate() + 1)` moves a
      UTC instant by exactly one day. */
  function DayInstant(a: Allocation, j: int): int
  {
    a.start + j * DayMs
  }

  /** Turn `j` of the day loop is taken exactly when `j` is below the
      count: the loop condition `d <= end` holds for the first `DayCount`
      turns and fails on the next. */
  lemma DayCountTurns(s: int, e: int, j: int)
    requires j >= 0
    ensures s + j * DayMs <= e <==> j < DayCount(s, e)
  {
    if e >= s {
      var q, r := (e - s) / DayMs, (e - s) % DayMs;
      assert e - s == q * DayMs + r && 0 <= r < DayMs;
      if j <= q {
        assert j * DayMs <= q * DayMs;
      } else {
        assert j * DayMs >= (q + 1) * DayMs;
      }
    }
  }

  /** The contributions of an allocation's first `n` days. The day string
      `toISOString().slice(0, 10)` is `dk`, which the source fixes to
      `Calendar.DayKey`; the table's properties hold for any `dk`. */
  function AllocHits(a: Allocation, n: nat, dk: int -> string): (h: seq<Hit>)
    ensures |h| == n
  {
    if n == 0 then []
    else AllocHits(a, n - 1, dk) + [Hit(Key(a.resourceId, dk(DayInstant(a, n - 1))), a.pct)]
  }

  /** The contributions of a ranged allocation's whole day loop. */
  function LoopHits(a: Allocation, dk: int -> string): seq<Hit>
    requires !IsBox(a)
  {
    AllocHits(a, DayCount(a.start, a.end.value), dk)
  }

  /** What one allocation's turn of `forEach` contributes: nothing for a
      box, its day loop otherwise. */
  function Contribution(a: Allocation, dk: int -> string): seq<Hit>
  {
    if IsBox(a) then [] else LoopHits(a, dk)
  }

  /** All contributions in the order the loops make them. */
  function Hits(allocs: seq<Allocation>, dk: int -> string): seq<Hit>
    decreases |allocs|
  {
    if allocs == [] then []
    else Hits(allocs[..|allocs| - 1], dk) + Contribution(allocs[|allocs| - 1], dk)
  }

  lemma HitsAppend(s: seq<Allocation>, a: Allocation, dk: int -> string)
    ensures Hits(s + [a], dk) == Hits(s, dk) + Contribution(a, dk)
  {
    assert (s + [a])[..|s|] == s;
  }

  /** The sum a cell receives: the reference the table is measured by. */
  function KeyTotal(hits: seq<Hit>, k: Key): real
    decreases |hits|
  {
    if hits == [] then 0.0
    else KeyTotal(hits[..|hits| - 1], k) + (if hits[|hits| - 1].key == k then hits[|hits| - 1].pct else 0.0)
  }

  /** The JavaScript `Map`: its keys in insertion order and its entries. */
  datatype Table = Table(keys: seq<Key>, vals: map<Key, real>)

  /** `dayMap.set(key, (dayMap.get(key) || 0) + pct)`: a new key goes to
      the end of the iteration order. */
  function Bump(t: Table, h: Hit): Table
  {
    if h.key in t.vals then Table(t.keys, t.vals[h.key := t.vals[h.key] + h.pct])
    else Table(t.keys + [h.key], t.vals[h.key := 0.0 + h.pct])
  }

  function Tally(hits: seq<Hit>): Table
    decreases |hits|
  {
    if hits == [] then Table([], map[]) else Bump(Tally(hits[..|hits| - 1]), hits[|hits| - 1])
  }

  /** `t` is the map made from `hits`: one key per distinct cell, in first
      contribution order, holding that cell's total. */
  ghost predicate TableOf(t: Table, hits: seq<Hit>)
  {
    && NoDuplicates(t.keys)
    && (forall k :: k in t.vals <==> k in t.keys)
    && (forall k :: k in t.keys <==> exists i :: 0 <= i < |hits| && hits[i].key == k)
    && (forall k :: k in t.vals ==> t.vals[k] == KeyTotal(hits, k))
  }

  lemma TallySnoc(hits: seq<Hit>, h: Hit)
    ensures Tally(hits + [h]) == Bump(Tally(hits), h)
  {
    assert (hits + [h])[..|hits|] == hits;
  }

  lemma BumpKeepsTable(t: Table, hits: seq<Hit>, h: Hit)
    requires TableOf(t, hits)
    ensures TableOf(Bump(t, h), hits + [h])
  {
    var all := hits + [h];
    assert all[..|hits|] == hits;
    if h.key !in t.vals {
      KeyTotalAbsent(hits, h.key);
    }
    forall k | k in Bump(t, h).vals ensures Bump(t, h).vals[k] == KeyTotal(all, k) {
      assert KeyTotal(all, k) == KeyTotal(hits, k) + (if h.key == k then h.pct else 0.0);
    }
    forall k | k in Bump(t, h).keys ensures exists i :: 0 <= i < |all| && all[i].key == k {
      if k != h.key {
        var i :| 0 <= i < |hits| && hits[i].key == k;
        assert all[i] == hits[i];
      } else {
        assert all[|hits|] == h;
      }
    }
    forall k | exists i :: 0 <= i < |all| && all[i].key == k ensures k in Bump(t, h).keys {
      var i :| 0 <= i < |all| && all[i].key == k;
      if i < |hits| {
        assert hits[i] == all[i];
      }
    }
  }

  /** The table accumulates exactly: each distinct cell is keyed once, in
      the order its first contribution came, and holds the sum of every
      contribution to it, so overlapping allocations stack. */
  lemma {:induction false} TallyIsTable(hits: seq<Hit>)
    ensures TableOf(Tally(hits), hits)
    decreases |hits|
  {
    if hits != [] {
      var init := hits[..|hits| - 1];
      TallyIsTable(init);
      BumpKeepsTable(Tally(init), init, hits[|hits| - 1]);
      assert init + [hits[|hits| - 1]] == hits;
    }
  }

  /* ---- the day loop of one allocation ---- */

  /** An allocation's contributions are one per day, on consecutive UTC
      days from `start`, each of `allocation_pct`. */
  lemma {:induction false} AllocHitsAt(a: Allocation, n: nat, dk: int -> string)
    ensures forall j :: 0 <= j < n ==>
              AllocHits(a, n, dk)[j] == Hit(Key(a.resourceId, dk(DayInstant(a, j))), a.pct)
    decreases n
  {
    if n > 0 {
      AllocHitsAt(a, n - 1, dk);
    }
  }

  /** `dk` gives the first `n` days of the allocation different strings. */
  ghost predicate DistinctDays(a: Allocation, n: nat, dk: int -> string)
  {
    forall i, j :: 0 <= i < j < n ==> dk(DayInstant(a, i)) != dk(DayInstant(a, j))
  }

  /** The day keys of different days differ, as long as `toISOString`
      prints the year with four digits. */
  lemma DayKeysDiffer(t1: int, t2: int)
    requires t1 / DayMs < t2 / DayMs
    requires FourDigitYear(t1) && FourDigitYear(t2)
    ensures DayKey(t1) != DayKey(t2)
  {
    DayKeyIsIsoDate(t1);
    DayKeyIsIsoDate(t2);
    IsoDateOrder(t1 / DayMs, t2 / DayMs);
    LexLessIrreflexive(IsoDate(t1 / DayMs));
  }

  /** The days an allocation's loop walks get different `DayKey`s. */
  lemma LoopDaysDistinct(a: Allocation, n: nat)
    requires forall i :: 0 <= i < n ==> FourDigitYear(DayInstant(a, i))
    ensures DistinctDays(a, n, DayKey)
  {
    forall i, j | 0 <= i < j < n ensures DayKey(DayInstant(a, i)) != DayKey(DayInstant(a, j)) {
      var ti, tj := DayInstant(a, i), DayInstant(a, j);
      assert tj == ti + (j - i) * DayMs;
      assert tj / DayMs == ti / DayMs + (j - i);
      DayKeysDiffer(ti, tj);
    }
  }

  lemma {:induction false} KeyTotalAbsent(hits: seq<Hit>, k: Key)
    requires forall i :: 0 <= i < |hits| ==> hits[i].key != k
    ensures KeyTotal(hits, k) == 0.0
    decreases |hits|
  {
    if hits != [] {
      KeyTotalAbsent(hits[..|hits| - 1], k);
    }
  }

  lemma {:induction false} KeyTotalAppend(h1: seq<Hit>, h2: seq<Hit>, k: Key)
    ensures KeyTotal(h1 + h2, k) == KeyTotal(h1, k) + KeyTotal(h2, k)
    decreases |h2|
  {
    if h2 == [] {
      assert h1 + h2 == h1;
    } else {
      assert (h1 + h2)[..|h1 + h2| - 1] == h1 + h2[..|h2| - 1];
      KeyTotalAppend(h1, h2[..|h2| - 1], k);
    }
  }

  /** Each of the first `n` days of an allocation receives its
      `allocation_pct` once when no other of those days shares its key. */
  lemma {:induction false} EachDayOnce(a: Allocation, n: nat, j: int, dk: int -> string)
    requires 0 <= j < n && DistinctDays(a, n, dk)
    ensures KeyTotal(AllocHits(a, n, dk), Key(a.resourceId, dk(DayInstant(a, j)))) == a.pct
    decreases n
  {
    var k := Key(a.resourceId, dk(DayInstant(a, j)));
    var prev := AllocHits(a, n - 1, dk);
    assert AllocHits(a, n, dk)[..n - 1] == prev;
    if j == n - 1 {
      AllocHitsAt(a, n - 1, dk);
      forall i | 0 <= i < |prev| ensures prev[i].key != k {
        assert dk(DayInstant(a, i)) != dk(DayInstant(a, j));
      }
      KeyTotalAbsent(prev, k);
    } else {
      EachDayOnce(a, n - 1, j, dk);
      assert dk(DayInstant(a, j)) != dk(DayInstant(a, n - 1));
    }
  }

  /** What one allocation adds to a cell. */
  function Share(a: Allocation, k: Key, dk: int -> string): real
  {
    if IsBox(a) then 0.0 else KeyTotal(LoopHits(a, dk), k)
  }

  function ShareOf(k: Key, dk: int -> string): Allocation -> real
  {
    a => Share(a, k, dk)
  }

  /** Overlapping allocations stack: a cell's total is the sum of what each
      allocation adds to it. */
  lemma {:induction false} CellStacks(allocs: seq<Allocation>, k: Key, dk: int -> string)
    ensures KeyTotal(Hits(allocs, dk), k) == Sum(allocs, ShareOf(k, dk))
    decreases |allocs|
  {
    if allocs != [] {
      var init, a := allocs[..|allocs| - 1], allocs[|allocs| - 1];
      CellStacks(init, k, dk);
      KeyTotalAppend(Hits(init, dk), Contribution(a, dk), k);
    }
  }

  /** A ranged allocation adds its `allocation_pct` to exactly the cells of
      its resource on the `(end - start) / day + 1` days its loop walks, and
      nothing anywhere else; a box adds nothing at all. */
  lemma ShareOfAllocation(a: Allocation, k: Key, dk: int -> string)
    requires !IsBox(a) ==> DistinctDays(a, DayCount(a.start, a.end.value), dk)
    ensures IsBox(a) ==> Share(a, k, dk) == 0.0
    ensures !IsBox(a) && a.start <= a.end.value ==> DayCount(a.start, a.end.value) == (a.end.value - a.start) / DayMs + 1
    ensures !IsBox(a) ==>
              Share(a, k, dk) == if k.res == a.resourceId
                                    && exists j :: 0 <= j < DayCount(a.start, a.end.value) && k.day == dk(DayInstant(a, j))
                                 then a.pct else 0.0
  {
    if !IsBox(a) {
      var n := DayCount(a.start, a.end.value);
      AllocHitsAt(a, n, dk);
      if k.res == a.resourceId && exists j :: 0 <= j < n && k.day == dk(DayInstant(a, j)) {
        var j :| 0 <= j < n && k.day == dk(DayInstant(a, j));
        EachDayOnce(a, n, j, dk);
      } else {
        KeyTotalAbsent(AllocHits(a, n, dk), k);
      }
    }
  }

  /** An allocation with an end; the day loop walks only these. */
  predicate IsRanged(a: Allocation) { !IsBox(a) }

  /** Boxes are skipped: dropping them leaves the contributions unchanged. */
  lemma {:induction false} BoxesContributeNothing(allocs: seq<Allocation>, dk: int -> string)
    ensures Hits(Filter(allocs, IsRanged), dk) == Hits(allocs, dk)
    decreases |allocs|
  {
    if allocs != [] {
      var init, a := allocs[..|allocs| - 1], allocs[|allocs| - 1];
      BoxesContributeNothing(init, dk);
      var f := Filter(init, IsRanged);
      assert allocs == init + [a];
      HitsAppend(init, a, dk);
      assert Filter(allocs, IsRanged) == Filter(init, IsRanged) + (if IsRanged(a) then [a] else []);
      if IsRanged(a) {
        HitsAppend(f, a, dk);
      } else {
        assert Contribution(a, dk) == [];
        assert Hits(init, dk) + [] == Hits(init, dk);
        assert f + [] == f;
      }
    }
  }

  /* ---- the rows ---- */

  datatype UsageRow = UsageRow(resourceId: string, resourceName: string, day: string, pct: real)

  /** The mapper of `Array.from(dayMap, ...)` on one entry. */
  function RowOf(k: Key, v: real, rs: seq<Resource>): UsageRow
  {
    UsageRow(k.res, NameOr(rs, k.res), k.day, Round1(v))
  }

  function RowsOf(keys: seq<Key>, vals: map<Key, real>, rs: seq<Resource>): (rows: seq<UsageRow>)
    requires forall k :: k in keys ==> k in vals
    ensures |rows| == |keys|
    ensures forall i :: 0 <= i < |keys| ==> rows[i] == RowOf(keys[i], vals[keys[i]], rs)
    decreases |keys|
  {
    if keys == [] then []
    else RowsOf(keys[..|keys| - 1], vals, rs) + [RowOf(keys[|keys| - 1], vals[keys[|keys| - 1]], rs)]
  }

  /** The comparator `a.day.localeCompare(b.day) || a.resource_name.localeCompare(b.resource_name)`. */
  predicate RowLess(a: UsageRow, b: UsageRow)
  {
    LexLess(a.day, b.day) || (a.day == b.day && LexLess(a.resourceName, b.resourceName))
  }

  function RowKey(r: UsageRow): Key { Key(r.resourceId, r.day) }

  /** `buildDailyUsage(plan)`, with the day string rendered by `dk`. */
  function DailyRows(p: Plan, dk: int -> string): seq<UsageRow>
  {
    var hits := Hits(p.allocations, dk);
    TallyIsTable(hits);
    var t := Tally(hits);
    SortBy(RowsOf(t.keys, t.vals, p.resources), RowLess)
  }

  /** `buildDailyUsage(plan)`. */
  function DailyUsage(p: Plan): seq<UsageRow>
  {
    DailyRows(p, DayKey)
  }

  lemma RowLessStrict(rows: seq<UsageRow>)
    ensures StrictOn(rows, RowLess)
  {
    forall x | x in rows ensures !RowLess(x, x) {
      LexLessIrreflexive(x.day);
      LexLessIrreflexive(x.resourceName);
    }
    forall x, y, z | x in rows && y in rows && z in rows && RowLess(x, y) && RowLess(y, z)
      ensures RowLess(x, z)
    {
      if LexLess(x.day, y.day) && LexLess(y.day, z.day) {
        LexLessTransitive(x.day, y.day, z.day);
      } else if x.day == y.day && y.day == z.day {
        LexLessTransitive(x.resourceName, y.resourceName, z.resourceName);
      }
    }
  }

  /** A row that reports a contributed cell: the resource's name (or id),
      and that cell's total to one decimal. */
  ghost predicate CellRow(r: UsageRow, hits: seq<Hit>, rs: seq<Resource>)
  {
    && r.resourceName == NameOr(rs, r.resourceId)
    && r.pct == Round1(KeyTotal(hits, RowKey(r)))
    && exists j :: 0 <= j < |hits| && hits[j].key == RowKey(r)
  }

  /** Every row reports a contributed cell. */
  ghost predicate CellRows(rows: seq<UsageRow>, hits: seq<Hit>, rs: seq<Resource>)
  {
    forall i :: 0 <= i < |rows| ==> CellRow(rows[i], hits, rs)
  }

  /** Every contributed cell has a row. */
  ghost predicate CoversHits(rows: seq<UsageRow>, hits: seq<Hit>)
  {
    forall j :: 0 <= j < |hits| ==> HasRow(rows, hits[j].key)
  }

  /** Some row reports cell `key`. */
  ghost predicate HasRow(rows: seq<UsageRow>, key: Key)
  {
    exists m :: 0 <= m < |rows| && RowKey(rows[m]) == key
  }

  /** No cell has two rows. */
  ghost predicate DistinctCells(rows: seq<UsageRow>)
  {
    forall i, l :: 0 <= i < l < |rows| ==> RowKey(rows[i]) != RowKey(rows[l])
  }

  /** Before sorting, each row reports the table's value for its key. */
  lemma TableRowCells(t: Table, hits: seq<Hit>, rs: seq<Resource>)
    requires TableOf(t, hits)
    ensures CellRows(RowsOf(t.keys, t.vals, rs), hits, rs)
  {
    var rows := RowsOf(t.keys, t.vals, rs);
    forall i | 0 <= i < |rows| ensures CellRow(rows[i], hits, rs) {
      assert RowKey(rows[i]) == t.keys[i] && t.keys[i] in t.keys;
    }
  }

  /** Before sorting, the rows are one per key of the table, in its
      order. */
  lemma TableRows(t: Table, hits: seq<Hit>, rs: seq<Resource>)
    requires TableOf(t, hits)
    ensures var rows := RowsOf(t.keys, t.vals, rs);
            CellRows(rows, hits, rs) && CoversHits(rows, hits) && DistinctCells(rows)
  {
    TableRowCells(t, hits, rs);
    var rows := RowsOf(t.keys, t.vals, rs);
    forall j | 0 <= j < |hits| ensures HasRow(rows, hits[j].key) {
      assert hits[j].key in t.keys;
      var m :| 0 <= m < |t.keys| && t.keys[m] == hits[j].key;
      assert RowKey(rows[m]) == t.keys[m];
    }
    forall i, l | 0 <= i < l < |rows| ensures RowKey(rows[i]) != RowKey(rows[l]) {
      assert RowKey(rows[i]) == t.keys[i] && RowKey(rows[l]) == t.keys[l];
    }
  }

  lemma PermutedCells(rows: seq<UsageRow>, out: seq<UsageRow>, hits: seq<Hit>, rs: seq<Resource>)
    requires multiset(rows) == multiset(out)
    requires CellRows(rows, hits, rs)
    ensures CellRows(out, hits, rs)
  {
    forall i | 0 <= i < |out| ensures CellRow(out[i], hits, rs) {
      assert out[i] in multiset(rows);
      var m :| 0 <= m < |rows| && rows[m] == out[i];
    }
  }

  /** A cell with a row keeps a row after reordering. */
  lemma PermutedCover(rows: seq<UsageRow>, out: seq<UsageRow>, key: Key)
    requires multiset(rows) == multiset(out)
    requires HasRow(rows, key)
    ensures HasRow(out, key)
  {
    var m :| 0 <= m < |rows| && RowKey(rows[m]) == key;
    assert rows[m] in multiset(out);
    var i :| 0 <= i < |out| && out[i] == rows[m];
    assert RowKey(out[i]) == key;
  }

  lemma PermutedCovers(rows: seq<UsageRow>, out: seq<UsageRow>, hits: seq<Hit>)
    requires multiset(rows) == multiset(out)
    requires CoversHits(rows, hits)
    ensures CoversHits(out, hits)
  {
    forall j | 0 <= j < |hits| ensures HasRow(out, hits[j].key) {
      PermutedCover(rows, out, hits[j].key);
    }
  }

  lemma PermutedDistinct(rows: seq<UsageRow>, out: seq<UsageRow>)
    requires multiset(rows) == multiset(out)
    requires DistinctCells(rows)
    ensures DistinctCells(out)
  {
    assert NoDuplicates(rows) by {
      forall i, l | 0 <= i < l < |rows| ensures rows[i] != rows[l] {
        assert RowKey(rows[i]) != RowKey(rows[l]);
      }
    }
    PermutationNoDuplicates(rows, out);
    forall i, l | 0 <= i < l < |out| ensures RowKey(out[i]) != RowKey(out[l]) {
      assert out[i] in multiset(rows) && out[l] in multiset(rows);
      var m1 :| 0 <= m1 < |rows| && rows[m1] == out[i];
      var m2 :| 0 <= m2 < |rows| && rows[m2] == out[l];
      assert m1 != m2;
      if m1 < m2 {
        assert RowKey(rows[m1]) != RowKey(rows[m2]);
      } else {
        assert RowKey(rows[m2]) != RowKey(rows[m1]);
      }
    }
  }

  /** Reordering rows keeps them one per cell. */
  lemma PermutedRows(rows: seq<UsageRow>, out: seq<UsageRow>, hits: seq<Hit>, rs: seq<Resource>)
    requires multiset(rows) == multiset(out)
    requires CellRows(rows, hits, rs) && CoversHits(rows, hits) && DistinctCells(rows)
    ensures CellRows(out, hits, rs) && CoversHits(out, hits) && DistinctCells(out)
  {
    PermutedCells(rows, out, hits, rs);
    PermutedCovers(rows, out, hits);
    PermutedDistinct(rows, out);
  }

  /** Sorting the table's rows keeps them one per cell. */
  lemma SortedTableRows(t: Table, hits: seq<Hit>, rs: seq<Resource>)
    requires TableOf(t, hits)
    ensures var out := SortBy(RowsOf(t.keys, t.vals, rs), RowLess);
            Sorted(out, RowLess) && CellRows(out, hits, rs) && CoversHits(out, hits) && DistinctCells(out)
  {
    var rows := RowsOf(t.keys, t.vals, rs);
    RowLessStrict(rows);
    SortByOrders(rows, RowLess);
    TableRows(t, hits, rs);
    PermutedRows(rows, SortBy(rows, RowLess), hits, rs);
  }

  /** The output of `buildDailyUsage` is sorted by day and then name; every
      row reports a cell some ranged allocation contributed to, with its
      total rounded to one decimal and the resource's name or, failing that,
      its id; and every contributed cell has exactly one row. */
  lemma DailyUsageRows(p: Plan, dk: int -> string)
    ensures var out, hits := DailyRows(p, dk), Hits(p.allocations, dk);
            && Sorted(out, RowLess)
            && CellRows(out, hits, p.resources)
            && CoversHits(out, hits)
            && DistinctCells(out)
  {
    var hits := Hits(p.allocations, dk);
    TallyIsTable(hits);
    SortedTableRows(Tally(hits), hits, p.resources);
  }

  /** Every contribution is to the resource of a ranged allocation. */
  lemma {:induction false} HitsFromRanged(allocs: seq<Allocation>, dk: int -> string)
    ensures forall j :: 0 <= j < |Hits(allocs, dk)| ==>
              exists i :: 0 <= i < |allocs| && !IsBox(allocs[i]) && allocs[i].resourceId == Hits(allocs, dk)[j].key.res
    decreases |allocs|
  {
    if allocs != [] {
      var init, a := allocs[..|allocs| - 1], allocs[|allocs| - 1];
      HitsFromRanged(init, dk);
      var h: seq<Hit>, c: seq<Hit> := Hits(init, dk), Contribution(a, dk);
      assert Hits(allocs, dk) == h + c;
      forall j | 0 <= j < |Hits(allocs, dk)|
        ensures exists i :: 0 <= i < |allocs| && !IsBox(allocs[i]) && allocs[i].resourceId == Hits(allocs, dk)[j].key.res
      {
        if j < |h| {
          assert (h + c)[j] == h[j];
          var i :| 0 <= i < |init| && !IsBox(init[i]) && init[i].resourceId == h[j].key.res;
          assert allocs[i] == init[i];
        } else {
          assert !IsBox(a) && c == LoopHits(a, dk);
          AllocHitsAt(a, DayCount(a.start, a.end.value), dk);
          assert (h + c)[j] == c[j - |h|];
          assert allocs[|allocs| - 1] == a;
        }
      }
    } else {
      assert Hits(allocs, dk) == [];
    }
  }

  /** A row reporting a cell is for a resource some ranged allocation
      books. */
  lemma {:induction false} CellRowFromRanged(out: seq<UsageRow>, allocs: seq<Allocation>, dk: int -> string, rs: seq<Resource>, r: UsageRow)
    requires CellRows(out, Hits(allocs, dk), rs)
    requires r in out
    ensures exists i :: 0 <= i < |allocs| && !IsBox(allocs[i]) && allocs[i].resourceId == r.resourceId
  {
    var hits := Hits(allocs, dk);
    var m :| 0 <= m < |out| && out[m] == r;
    assert CellRow(r, hits, rs);
    var j :| 0 <= j < |hits| && hits[j].key == RowKey(r);
    HitsFromRanged(allocs, dk);
    assert hits[j].key.res == r.resourceId;
  }

  /** A row of `buildDailyUsage` is for a resource some ranged allocation
      books. */
  lemma UsageRowFromRanged(p: Plan, dk: int -> string, r: UsageRow)
    requires r in DailyRows(p, dk)
    ensures exists i :: 0 <= i < |p.allocations| && !IsBox(p.allocations[i]) && p.allocations[i].resourceId == r.resourceId
  {
    DailyUsageRows(p, dk);
    CellRowFromRanged(DailyRows(p, dk), p.allocations, dk, p.resources, r);
  }

  /** One more allocation is its loop's contributions after the others'. */
  lemma HitsSnoc(allocs: seq<Allocation>, i: int, dk: int -> string)
    requires 0 <= i < |allocs|
    ensures Hits(allocs[..i + 1], dk) == Hits(allocs[..i], dk) + Contribution(allocs[i], dk)
  {
    assert allocs[..i + 1] == allocs[..i] + [allocs[i]];
    HitsAppend(allocs[..i], allocs[i], dk);
  }

  /** The contributions so far, extended by one more day of `a`. */
  lemma DayStep(before: seq<Hit>, a: Allocation, j: nat, dk: int -> string, acc: seq<Hit>)
    requires acc == before + AllocHits(a, j, dk)
    ensures acc + [Hit(Key(a.resourceId, dk(DayInstant(a, j))), a.pct)] == before + AllocHits(a, j + 1, dk)
  {
    ConcatAssoc(before, AllocHits(a, j, dk), [Hit(Key(a.resourceId, dk(DayInstant(a, j))), a.pct)]);
  }

  /** The `forEach` callback of `buildDailyUsage` for a ranged allocation:
      walk its days, adding `allocation_pct` to each day's cell of
      `dayMap` (here `keys` and `vals`). The day string is `dk(d)`, which
      `buildDailyUsage` fixes to `DayKey`. */
  method AddAllocationDays(a: Allocation, keys0: seq<Key>, vals0: map<Key, real>, ghost before: seq<Hit>,
                           dk: int -> string)
    returns (keys: seq<Key>, vals: map<Key, real>)
    requires !IsBox(a)
    requires Table(keys0, vals0) == Tally(before)
    ensures Table(keys, vals) == Tally(before + LoopHits(a, dk))
  {
    keys, vals := keys0, vals0;
    var end := a.end.value;
    ghost var j := 0;
    ghost var acc := before;
    assert before + AllocHits(a, 0, dk) == before;
    var d := a.start;
    while d <= end
      invariant j >= 0 && d == DayInstant(a, j)
      invariant j <= DayCount(a.start, end)
      invariant acc == before + AllocHits(a, j, dk)
      invariant Table(keys, vals) == Tally(acc)
      decreases end - d
    {
      DayCountTurns(a.start, end, j);
      var key := Key(a.resourceId, dk(d));
      var next := Bump(Table(keys, vals), Hit(key, a.pct));
      keys, vals := next.keys, next.vals;
      DayStep(before, a, j, dk, acc);
      TallySnoc(acc, Hit(key, a.pct));
      acc := acc + [Hit(key, a.pct)];
      d := d + DayMs;
      j := j + 1;
    }
    DayCountTurns(a.start, end, j);
  }

  /** One call of the `forEach` callback over the allocations: a ranged
      allocation adds its days, a box adds nothing. */
  method AddAllocation(allocs: seq<Allocation>, i: nat, keys0: seq<Key>, vals0: map<Key, real>,
                       dk: int -> string) returns (keys: seq<Key>, vals: map<Key, real>)
    requires i < |allocs|
    requires Table(keys0, vals0) == Tally(Hits(allocs[..i], dk))
    ensures Table(keys, vals) == Tally(Hits(allocs[..i + 1], dk))
  {
    var a := allocs[i];
    HitsSnoc(allocs, i, dk);
    if !IsBox(a) {
      keys, vals := AddAllocationDays(a, keys0, vals0, Hits(allocs[..i], dk), dk);
      assert Contribution(a, dk) == LoopHits(a, dk);
    } else {
      keys, vals := keys0, vals0;
      assert Contribution(a, dk) == [];
      assert Hits(allocs[..i], dk) + [] == Hits(allocs[..i], dk);
    }
  }

  /** The `forEach` over the allocations that fills `dayMap`; the day
      string is `dk(d)`. */
  method FillDayMap(allocs: seq<Allocation>, dk: int -> string) returns (keys: seq<Key>, vals: map<Key, real>)
    ensures Table(keys, vals) == Tally(Hits(allocs, dk))
  {
    keys, vals := [], map[];
    var i := 0;
    while i < |allocs|
      invariant 0 <= i <= |allocs|
      invariant Table(keys, vals) == Tally(Hits(allocs[..i], dk))
    {
      keys, vals := AddAllocation(allocs, i, keys, vals, dk);
      i := i + 1;
    }
    assert allocs[..i] == allocs;
  }

  /** `buildDailyUsage(plan)`: fill `dayMap` with UTC day keys, map its
      entries to rows and sort them. */
  method BuildDailyUsage(p: Plan) returns (rows: seq<UsageRow>)
    ensures rows == DailyUsage(p)
  {
    var keys, vals := FillDayMap(p.allocations, DayKey);
    TallyIsTable(Hits(p.allocations, DayKey));
    rows := RowsOf(keys, vals, p.resources);
    rows := SortBy(rows, RowLess);
  }

  /* ---------------- buildDailyUsageFrom ---------------- */

  /** `buildDailyUsageFrom(plan, fromIso)`. `isoToInputDate` is not part of
      this model: the day string it yields is the parameter `fromDay`. */
  function DailyUsageFrom(p: Plan, fromDay: string): seq<UsageRow>
  {
    Filter(DailyUsage(p), (r: UsageRow) => !LexLess(r.day, fromDay))
  }

  /** Exactly the rows of `buildDailyUsage` whose day is not before
      `fromDay`, still sorted. */
  lemma DailyUsageFromRows(p: Plan, fromDay: string)
    ensures var out := DailyUsageFrom(p, fromDay);
            && (forall i :: 0 <= i < |out| ==> out[i] in DailyUsage(p) && !LexLess(out[i].day, fromDay))
            && (forall r :: r in DailyUsage(p) && !LexLess(r.day, fromDay) ==> r in out)
            && Sorted(out, RowLess)
  {
    var all := DailyUsage(p);
    var keep := (r: UsageRow) => !LexLess(r.day, fromDay);
    FilterMembers(all, keep);
    DailyUsageRows(p, DayKey);
    FilterOrder(all, keep, RowLess);
  }

  /* ---------------- buildUtilisation ---------------- */

  /** `Math.min(...starts)`: the earliest start of any allocation, box or
      not. */
  function PlanStart(allocs: seq<Allocation>): (m: int)
    requires |allocs| > 0
    ensures forall i :: 0 <= i < |allocs| ==> m <= allocs[i].start
    ensures exists i :: 0 <= i < |allocs| && allocs[i].start == m
    decreases |allocs|
  {
    if |allocs| == 1 then allocs[0].start
    else
      var rest := PlanStart(allocs[..|allocs| - 1]);
      var last := allocs[|allocs| - 1].start;
      if last < rest then last else rest
  }

  /** `Math.max(...ends, planStart)`: the latest end of a ranged allocation,
      or `floor` when that is later. */
  function PlanEnd(allocs: seq<Allocation>, floor: int): (m: int)
    ensures floor <= m
    ensures forall i :: 0 <= i < |allocs| && !IsBox(allocs[i]) ==> EndInstant(allocs[i]) <= m
    ensures m == floor || exists i :: 0 <= i < |allocs| && !IsBox(allocs[i]) && EndInstant(allocs[i]) == m
    decreases |allocs|
  {
    if allocs == [] then floor
    else
      var rest := PlanEnd(allocs[..|allocs| - 1], floor);
      var a := allocs[|allocs| - 1];
      if !IsBox(a) && EndInstant(a) > rest then EndInstant(a) else rest
  }

  /** `getFullYear() * 12 + getMonth()` of an instant, on the UTC calendar. */
  function MonthIndex(t: int): int
  {
    var d := Civil(t / DayMs);
    d.year * 12 + d.month - 1
  }

  /** A later instant is never in an earlier month. */
  lemma MonthIndexMonotone(t1: int, t2: int)
    requires t1 <= t2
    ensures MonthIndex(t1) <= MonthIndex(t2)
  {
    var n1, n2 := t1 / DayMs, t2 / DayMs;
    assert n1 <= n2;
    DaysFromCivilOrder(Civil(n2), Civil(n1));
  }

  /** `months`: calendar months touched by the plan's span, at least 1. */
  function Months(allocs: seq<Allocation>): int
    requires |allocs| > 0
  {
    var s := PlanStart(allocs);
    var m := MonthIndex(PlanEnd(allocs, s)) - MonthIndex(s) + 1;
    if m < 1 then 1 else m
  }

  /** The plan's end is never before its start, so the floor of 1 never
      applies: `months` counts the calendar months from the one holding
      the earliest start to the one holding the latest end, both included. */
  lemma MonthsSpan(allocs: seq<Allocation>)
    requires |allocs| > 0
    ensures var s := PlanStart(allocs);
            Months(allocs) == MonthIndex(PlanEnd(allocs, s)) - MonthIndex(s) + 1 >= 1
    ensures Capacity(allocs) >= 160.0
  {
    var s := PlanStart(allocs);
    MonthIndexMonotone(s, PlanEnd(allocs, s));
  }

  /** What `m.booked += plannedHours(a)` adds for allocation `a` to the
      record of resource `id`. */
  function BookedShare(id: string, hours: Allocation -> real): Allocation -> real
  {
    (a: Allocation) => if !IsBox(a) && a.resourceId == id then hours(a) else 0.0
  }

  /** The booked hours of resource `id`. */
  function Booked(allocs: seq<Allocation>, id: string, hours: Allocation -> real): real
  {
    Sum(allocs, BookedShare(id, hours))
  }

  /** `100 * booked / available`; `available` is never 0 here. */
  function Percent(booked: real, available: real): real
  {
    if available == 0.0 then 0.0 else 100.0 * booked / available
  }

  datatype UtilRow = UtilRow(resourceId: string, resourceName: string, pct: real, booked: real, available: real)

  function UtilRowOf(p: Plan, id: string, hours: Allocation -> real, available: real): UtilRow
  {
    var b := Booked(p.allocations, id, hours);
    UtilRow(id, NameOrMissing(p.resources, id),
            Round1(Percent(b, available)), b, available)
  }

  /** The `Array.from(map, ...)` mapper over the map's keys. */
  function UtilRows(ids: seq<string>, p: Plan, hours: Allocation -> real, available: real): (rows: seq<UtilRow>)
    ensures |rows| == |ids|
    ensures forall i :: 0 <= i < |ids| ==> rows[i] == UtilRowOf(p, ids[i], hours, available)
    decreases |ids|
  {
    if ids == [] then []
    else UtilRows(ids[..|ids| - 1], p, hours, available) + [UtilRowOf(p, ids[|ids| - 1], hours, available)]
  }

  /** A ranged allocation whose resource is not in the map: `m` is
      `undefined` and `m.booked` throws. */
  predicate UnknownResource(p: Plan, a: Allocation)
  {
    !IsBox(a) && a.resourceId !in IdsOf(p.resources)
  }

  /** `buildUtilisation(plan)`: a thrown `TypeError` is `Err`. */
  function Utilisation(p: Plan, hours: Allocation -> real): Result<seq<UtilRow>>
    requires |p.allocations| > 0
  {
    if !AllKnown(p) then Err("TypeError: m is undefined")
    else Ok(UtilRows(Distinct(IdsOf(p.resources)), p, hours, Capacity(p.allocations)))
  }

  predicate AllKnown(p: Plan)
  {
    forall i :: 0 <= i < |p.allocations| ==> !UnknownResource(p, p.allocations[i])
  }

  /** `available`: 160 hours per month of the plan. */
  function Capacity(allocs: seq<Allocation>): real
    requires |allocs| > 0
  {
    160.0 * Months(allocs) as real
  }

  /** `buildUtilisation` fails exactly when some ranged allocation names a
      resource the plan does not have. */
  lemma UtilisationFails(p: Plan, hours: Allocation -> real)
    requires |p.allocations| > 0
    ensures Utilisation(p, hours).Err? <==>
              exists i :: 0 <= i < |p.allocations| && !IsBox(p.allocations[i])
                          && forall j :: 0 <= j < |p.resources| ==> p.resources[j].id != p.allocations[i].resourceId
  {
    forall i | 0 <= i < |p.allocations|
      ensures UnknownResource(p, p.allocations[i]) <==>
                !IsBox(p.allocations[i]) && forall j :: 0 <= j < |p.resources| ==> p.resources[j].id != p.allocations[i].resourceId
    {
      InIdsOf(p.resources, p.allocations[i].resourceId);
    }
  }

  /** Otherwise it yields one record per distinct resource id, in the order
      of `plan.resources`; each has `available = 160 * months`, at
      least 160, `booked` is the sum of the planned hours of that resource's
      ranged allocations, and `pct` is `100 * booked / available` to one
      decimal. */
  lemma UtilisationIds(p: Plan, hours: Allocation -> real)
    requires |p.allocations| > 0
    requires Utilisation(p, hours).Ok?
    ensures var rows := Utilisation(p, hours).value;
            && ResourceIdsOf(rows) == Distinct(IdsOf(p.resources))
            && forall id :: id in ResourceIdsOf(rows) <==> exists j :: 0 <= j < |p.resources| && p.resources[j].id == id
  {
    MonthsSpan(p.allocations);
    var d := Distinct(IdsOf(p.resources));
    var rows := UtilRows(d, p, hours, Capacity(p.allocations));
    assert Utilisation(p, hours).value == rows;
    DistinctIds(p.resources);
    UtilRowsFacts(d, p, hours, Capacity(p.allocations));
  }

  lemma UtilisationRows(p: Plan, hours: Allocation -> real)
    requires |p.allocations| > 0
    requires Utilisation(p, hours).Ok?
    ensures var rows := Utilisation(p, hours).value;
            forall i :: 0 <= i < |rows| ==>
              && rows[i].available == Capacity(p.allocations)
              && rows[i].booked == Booked(p.allocations, rows[i].resourceId, hours)
              && -0.05 <= rows[i].pct - Percent(rows[i].booked, rows[i].available) <= 0.05
  {
    MonthsSpan(p.allocations);
    var d := Distinct(IdsOf(p.resources));
    var rows := UtilRows(d, p, hours, Capacity(p.allocations));
    assert Utilisation(p, hours).value == rows;
    UtilRowsFacts(d, p, hours, Capacity(p.allocations));
  }

  /** The distinct ids are exactly the ids some resource has. */
  lemma DistinctIds(rs: seq<Resource>)
    ensures forall id :: id in Distinct(IdsOf(rs)) <==> exists j :: 0 <= j < |rs| && rs[j].id == id
  {
    forall id ensures id in Distinct(IdsOf(rs)) <==> exists j :: 0 <= j < |rs| && rs[j].id == id {
      InIdsOf(rs, id);
    }
  }

  lemma InIdsOf(rs: seq<Resource>, id: string)
    ensures id in IdsOf(rs) <==> exists j :: 0 <= j < |rs| && rs[j].id == id
  {
    var ids := IdsOf(rs);
    if id in ids {
      var j :| 0 <= j < |ids| && ids[j] == id;
    }
  }

  lemma UtilRowsFacts(ids: seq<string>, p: Plan, hours: Allocation -> real, available: real)
    requires available >= 160.0
    ensures var rows := UtilRows(ids, p, hours, available);
            && ResourceIdsOf(rows) == ids
            && forall i :: 0 <= i < |rows| ==>
                 && rows[i].available == available
                 && rows[i].booked == Booked(p.allocations, rows[i].resourceId, hours)
                 && -0.05 <= rows[i].pct - Percent(rows[i].booked, rows[i].available) <= 0.05
  {
    var rows := UtilRows(ids, p, hours, available);
    assert ResourceIdsOf(rows) == ids;
    forall i | 0 <= i < |rows|
      ensures && rows[i].available == available
              && rows[i].booked == Booked(p.allocations, rows[i].resourceId, hours)
              && -0.05 <= rows[i].pct - Percent(rows[i].booked, rows[i].available) <= 0.05
    {
      UtilRowOfFacts(p, ids[i], hours, available);
    }
  }

  lemma UtilRowOfFacts(p: Plan, id: string, hours: Allocation -> real, available: real)
    requires available >= 160.0
    ensures var r := UtilRowOf(p, id, hours, available);
            && r.resourceId == id
            && r.available == available
            && r.booked == Booked(p.allocations, id, hours)
            && -0.05 <= r.pct - Percent(r.booked, r.available) <= 0.05
  {
    var q := Percent(Booked(p.allocations, id, hours), available);
    assert UtilRowOf(p, id, hours, available).pct == Round1(q);
  }

  /** `resource_id` of each record. */
  function ResourceIdsOf(rows: seq<UtilRow>): seq<string>
  {
    Map(rows, (r: UtilRow) => r.resourceId)
  }

  function TotalBooked(rows: seq<UtilRow>): real
    decreases |rows|
  {
    if rows == [] then 0.0 else TotalBooked(rows[..|rows| - 1]) + rows[|rows| - 1].booked
  }

  /** Sum of resource `id`'s shares over a list of ids without repeats. */
  lemma {:induction false} SharesOverIds(ids: seq<string>, a: Allocation, hours: Allocation -> real)
    requires NoDuplicates(ids)
    ensures SumShares(ids, a, hours) == if !IsBox(a) && a.resourceId in ids then hours(a) else 0.0
    decreases |ids|
  {
    if ids != [] {
      var init := ids[..|ids| - 1];
      SharesOverIds(init, a, hours);
      assert a.resourceId in ids <==> a.resourceId in init || a.resourceId == ids[|ids| - 1];
      if a.resourceId == ids[|ids| - 1] {
        assert a.resourceId !in init;
      }
    }
  }

  function SumShares(ids: seq<string>, a: Allocation, hours: Allocation -> real): real
    decreases |ids|
  {
    if ids == [] then 0.0 else SumShares(ids[..|ids| - 1], a, hours) + BookedShare(ids[|ids| - 1], hours)(a)
  }

  /** Booked hours over several resources, for a prefix of allocations one
      longer. */
  lemma {:induction false} BookedOverIdsSnoc(ids: seq<string>, allocs: seq<Allocation>, a: Allocation,
                                              hours: Allocation -> real)
    ensures BookedOverIds(ids, allocs + [a], hours) == BookedOverIds(ids, allocs, hours) + SumShares(ids, a, hours)
    decreases |ids|
  {
    if ids != [] {
      BookedOverIdsSnoc(ids[..|ids| - 1], allocs, a, hours);
      var last := ids[|ids| - 1];
      assert (allocs + [a])[..|allocs|] == allocs;
      assert Booked(allocs + [a], last, hours) == Booked(allocs, last, hours) + BookedShare(last, hours)(a);
    }
  }

  function BookedOverIds(ids: seq<string>, allocs: seq<Allocation>, hours: Allocation -> real): real
    decreases |ids|
  {
    if ids == [] then 0.0 else BookedOverIds(ids[..|ids| - 1], allocs, hours) + Booked(allocs, ids[|ids| - 1], hours)
  }

  /** The planned hours of the ranged allocations. */
  function RangedHours(allocs: seq<Allocation>, hours: Allocation -> real): real
  {
    Sum(allocs, (a: Allocation) => if !IsBox(a) then hours(a) else 0.0)
  }

  /** Summing `booked` over distinct resources that cover every ranged
      allocation's resource counts each ranged allocation's hours once. */
  lemma {:induction false} BookedConserved(ids: seq<string>, allocs: seq<Allocation>, hours: Allocation -> real)
    requires NoDuplicates(ids)
    requires forall i :: 0 <= i < |allocs| && !IsBox(allocs[i]) ==> allocs[i].resourceId in ids
    ensures BookedOverIds(ids, allocs, hours) == RangedHours(allocs, hours)
    decreases |allocs|
  {
    if allocs == [] {
      BookedOverIdsEmpty(ids, hours);
    } else {
      var init, a := allocs[..|allocs| - 1], allocs[|allocs| - 1];
      BookedConserved(ids, init, hours);
      assert allocs == init + [a];
      BookedOverIdsSnoc(ids, init, a, hours);
      SharesOverIds(ids, a, hours);
    }
  }

  lemma {:induction false} BookedOverIdsEmpty(ids: seq<string>, hours: Allocation -> real)
    ensures BookedOverIds(ids, [], hours) == 0.0
    decreases |ids|
  {
    if ids != [] {
      BookedOverIdsEmpty(ids[..|ids| - 1], hours);
    }
  }

  lemma {:induction false} TotalBookedRows(ids: seq<string>, p: Plan, hours: Allocation -> real, available: real)
    ensures TotalBooked(UtilRows(ids, p, hours, available)) == BookedOverIds(ids, p.allocations, hours)
    decreases |ids|
  {
    if ids != [] {
      var init := ids[..|ids| - 1];
      TotalBookedRows(init, p, hours, available);
      var rows := UtilRows(ids, p, hours, available);
      assert rows[..|rows| - 1] == UtilRows(init, p, hours, available);
    }
  }

  /** When `buildUtilisation` succeeds, the records' `booked` values add up
      to the planned hours of all ranged allocations: every one is booked
      to exactly one record. */
  lemma UtilisationConserves(p: Plan, hours: Allocation -> real)
    requires |p.allocations| > 0
    requires Utilisation(p, hours).Ok?
    ensures TotalBooked(Utilisation(p, hours).value) == RangedHours(p.allocations, hours)
  {
    var ids := Distinct(IdsOf(p.resources));
    var available := Capacity(p.allocations);
    assert Utilisation(p, hours).value == UtilRows(ids, p, hours, available);
    TotalBookedRows(ids, p, hours, available);
    KnownAreSeeded(p);
    BookedConserved(ids, p.allocations, hours);
  }

  /** Without an unknown resource, every ranged allocation's resource is
      one of the distinct ids. */
  lemma KnownAreSeeded(p: Plan)
    requires AllKnown(p)
    ensures forall i :: 0 <= i < |p.allocations| && !IsBox(p.allocations[i]) ==>
              p.allocations[i].resourceId in Distinct(IdsOf(p.resources))
  {
    forall i | 0 <= i < |p.allocations| && !IsBox(p.allocations[i])
      ensures p.allocations[i].resourceId in Distinct(IdsOf(p.resources))
    {
      assert !UnknownResource(p, p.allocations[i]);
    }
  }

  /** The map holds exactly the keys `ids`, each with nothing booked. */
  ghost predicate Seeded(ids: seq<string>, booked: map<string, real>)
  {
    && (forall k :: k in booked <==> k in ids)
    && forall k :: k in booked ==> booked[k] == 0.0
  }

  /** `map.set(id, {booked: 0})` keeps the map seeded, adding `id` to the
      keys when it is new. */
  lemma SeededSet(ids: seq<string>, booked: map<string, real>, id: string)
    requires Seeded(ids, booked)
    ensures Seeded(if id in booked then ids else ids + [id], booked[id := 0.0])
  {
  }

  /** The `plan.resources.forEach` that seeds the map: one key per distinct
      resource id, in first-seen order, each with nothing booked. */
  method SeedUtilMap(rs: seq<Resource>) returns (ids: seq<string>, booked: map<string, real>)
    ensures ids == Distinct(IdsOf(rs))
    ensures Seeded(ids, booked)
  {
    ids, booked := [], map[];
    for i := 0 to |rs|
      invariant ids == Distinct(IdsOf(rs[..i]))
      invariant Seeded(ids, booked)
    {
      DistinctIdsSnoc(rs, i);
      SeededSet(ids, booked, rs[i].id);
      if rs[i].id !in booked {
        ids := ids + [rs[i].id];
      }
      booked := booked[rs[i].id := 0.0];
    }
    assert rs[..|rs|] == rs;
  }

  /** One more resource adds its id to the distinct ids when it is new. */
  lemma DistinctIdsSnoc(rs: seq<Resource>, i: nat)
    requires i < |rs|
    ensures var d := Distinct(IdsOf(rs[..i]));
            Distinct(IdsOf(rs[..i + 1])) == if rs[i].id in d then d else d + [rs[i].id]
  {
    assert rs[..i + 1][..i] == rs[..i];
    var ids := IdsOf(rs[..i + 1]);
    assert ids[..|ids| - 1] == IdsOf(rs[..i]);
  }

  /** The `plan.allocations.forEach` that adds each ranged allocation's
      planned hours to its resource's record; `None` where `m.booked`
      throws. */
  method BookHours(allocs: seq<Allocation>, hours: Allocation -> real, known: set<string>)
    returns (booked: Option<map<string, real>>)
    ensures booked.None? <==> exists i :: 0 <= i < |allocs| && !IsBox(allocs[i]) && allocs[i].resourceId !in known
    ensures booked.Some? ==> booked.value.Keys == known
    ensures booked.Some? ==> forall k :: k in known ==> booked.value[k] == Booked(allocs, k, hours)
  {
    var m: map<string, real> := map k | k in known :: 0.0;
    for j := 0 to |allocs|
      invariant m.Keys == known
      invariant forall k :: k in known ==> m[k] == Booked(allocs[..j], k, hours)
      invariant forall i :: 0 <= i < j && !IsBox(allocs[i]) ==> allocs[i].resourceId in known
    {
      var a := allocs[j];
      assert allocs[..j + 1][..j] == allocs[..j];
      if !IsBox(a) {
        if a.resourceId !in m {
          return None;
        }
        m := m[a.resourceId := m[a.resourceId] + hours(a)];
      }
    }
    assert allocs[..|allocs|] == allocs;
    booked := Some(m);
  }

  /** The `Array.from(map, ...)` over the filled map. */
  method UtilRecords(ids: seq<string>, booked: map<string, real>, p: Plan, hours: Allocation -> real,
                     available: real) returns (rows: seq<UtilRow>)
    requires forall k :: k in ids ==> k in booked && booked[k] == Booked(p.allocations, k, hours)
    ensures rows == UtilRows(ids, p, hours, available)
  {
    rows := [];
    for i := 0 to |ids|
      invariant rows == UtilRows(ids[..i], p, hours, available)
    {
      var id := ids[i];
      var b := booked[id];
      rows := rows + [UtilRow(id, NameOrMissing(p.resources, id), Round1(Percent(b, available)), b, available)];
      assert ids[..i + 1][..i] == ids[..i];
    }
    assert ids[..|ids|] == ids;
  }

  /** `buildUtilisation(plan)`, map updates and all. */
  method BuildUtilisation(p: Plan, hours: Allocation -> real) returns (r: Result<seq<UtilRow>>)
    requires |p.allocations| > 0
    ensures r == Utilisation(p, hours)
  {
    var available := Capacity(p.allocations);
    var ids, seeded := SeedUtilMap(p.resources);
    var booked := BookHours(p.allocations, hours, seeded.Keys);
    if booked.None? {
      var i :| 0 <= i < |p.allocations| && !IsBox(p.allocations[i]) && p.allocations[i].resourceId !in seeded.Keys;
      assert UnknownResource(p, p.allocations[i]);
      return Err("TypeError: m is undefined");
    }
    assert AllKnown(p) by {
      forall i | 0 <= i < |p.allocations| ensures !UnknownResource(p, p.allocations[i]) {
        var k := p.allocations[i].resourceId;
        if !IsBox(p.allocations[i]) {
          assert k in seeded.Keys;
          assert k in ids;
        }
      }
    }
    var rows := UtilRecords(ids, booked.value, p, hours, available);
    r := Ok(rows);
  }

  /* ---------------- buildIdleGaps ---------------- */

  datatype IdleGap = IdleGap(resourceId: string, resourceName: string, hours: real)

  /** The comparator `a.start.localeCompare(b.start)`, on instants. */
  predicate StartsBefore(a: Allocation, b: Allocation) { a.start < b.start }

  /** The row a same-resource pair `cur`, `next` yields: the time from the
      end of `cur` to the start of `next`, in hours to one decimal. */
  function GapOf(cur: Allocation, next: Allocation, rs: seq<Resource>): IdleGap
  {
    IdleGap(cur.resourceId, NameOrMissing(rs, cur.resourceId),
            Round1((next.start - EndInstant(cur)) as real / HourMs as real))
  }

  predicate SameResource(s: seq<Allocation>, i: int)
    requires 0 <= i < |s| - 1
  {
    s[i].resourceId == s[i + 1].resourceId
  }

  /** The `reduce` over the sorted list: one row per neighbouring pair on
      the same resource. */
  function Gaps(s: seq<Allocation>, rs: seq<Resource>): (gaps: seq<IdleGap>)
    ensures |gaps| <= if |s| == 0 then 0 else |s| - 1
    decreases |s|
  {
    if |s| < 2 then []
    else Gaps(s[..|s| - 1], rs) + (if SameResource(s, |s| - 2) then [GapOf(s[|s| - 2], s[|s| - 1], rs)] else [])
  }

  /** Every row comes from a neighbouring pair on the same resource, and
      every such pair yields its row, in order. */
  lemma {:induction false} GapsFromPairs(s: seq<Allocation>, rs: seq<Resource>)
    ensures forall g :: g in Gaps(s, rs) ==>
              exists i :: 0 <= i < |s| - 1 && SameResource(s, i) && g == GapOf(s[i], s[i + 1], rs)
    ensures forall i :: 0 <= i < |s| - 1 && SameResource(s, i) ==> GapOf(s[i], s[i + 1], rs) in Gaps(s, rs)
    decreases |s|
  {
    if |s| >= 2 {
      var init := s[..|s| - 1];
      GapsFromPairs(init, rs);
      forall i | 0 <= i < |init| - 1 ensures SameResource(init, i) == SameResource(s, i) && init[i + 1] == s[i + 1] {
      }
    }
  }

  /** `buildIdleGaps(plan)`. */
  function IdleGaps(p: Plan): seq<IdleGap>
  {
    Gaps(SortBy(Filter(p.allocations, IsRanged), StartsBefore), p.resources)
  }

  /** At most one row fewer than the ranged allocations; each row is a pair
      that is adjacent once the ranged allocations are sorted by start (no
      ranged allocation starts strictly between them) and on the same
      resource. */
  lemma IdleGapsRows(p: Plan)
    ensures var ranged := Filter(p.allocations, IsRanged);
            |IdleGaps(p)| <= if |ranged| == 0 then 0 else |ranged| - 1
    ensures var sorted := SortBy(Filter(p.allocations, IsRanged), StartsBefore);
            && multiset(sorted) == multiset(Filter(p.allocations, IsRanged))
            && Sorted(sorted, StartsBefore)
            && (forall g :: g in IdleGaps(p) ==>
                  exists i :: 0 <= i < |sorted| - 1 && SameResource(sorted, i)
                              && sorted[i].start <= sorted[i + 1].start && g == GapOf(sorted[i], sorted[i + 1], p.resources))
            && (forall i :: 0 <= i < |sorted| - 1 && SameResource(sorted, i) ==>
                  GapOf(sorted[i], sorted[i + 1], p.resources) in IdleGaps(p))
  {
    var sorted := SortBy(Filter(p.allocations, IsRanged), StartsBefore);
    SortByOrders(Filter(p.allocations, IsRanged), StartsBefore);
    GapsFromPairs(sorted, p.resources);
  }

  /* ---------------- countMilestones ---------------- */

  /** `countMilestones(plan)`. */
  function CountMilestones(p: Plan): nat
  {
    |Filter(p.allocations, IsBox)|
  }

  /** The milestones are exactly the boxes, and they and the ranged
      allocations together are all the allocations. */
  lemma MilestonesAreBoxes(p: Plan)
    ensures forall a :: a in Filter(p.allocations, IsBox) <==> a in p.allocations && IsBox(a)
    ensures CountMilestones(p) + |Filter(p.allocations, IsRanged)| == |p.allocations|
  {
    FilterMembers(p.allocations, IsBox);
    FilterSplitCount(p.allocations, IsBox, IsRanged);
  }
}
