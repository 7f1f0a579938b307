# Resource planner core, modelled in Dafny

The resource planner is a browser app. A plan holds resources (people and machines, each with an
hourly cost) and allocations. An allocation books one resource from a start instant to an optional
end instant at some percentage of a working day. An allocation without an end is a "box": a
milestone that the analytics ignore.

This project models the planner's computing core:

- **Plan editing** (`App`). The allocation form covers date text, validation, creating and editing
  records, the baseline reset, deletes and the timeline's quick-add. The page's state is a `Planner`
  object with the plan, the selected allocation and the edited allocation.
- **Allocation helpers** (`Allocations`):
  - durations;
  - the clash test;
  - cost from hours and the resource's rate;
  - the overbooking sweep that opens a band when a resource's summed load rises above 100 % and
    closes it when the load falls back.
- **Analytics** (`Analytics`):
  - the daily usage table, one row per resource and calendar day with stacked percentages;
  - its "from today" filter;
  - monthly utilisation against 160 h per month;
  - idle gaps between consecutive allocations;
  - the milestone count.
- **The KPI bar** (`Kpi`):
  - the plan horizon;
  - average utilisation and idle hours;
  - overloaded resources;
  - schedule delay and budget overrun;
  - the per-resource averages of the drawer.
- **The cash-flow table** (`Cashflow`). Each allocation's cost is spread evenly over its days and
  bucketed by day, week or month. The week key is modelled as the source writes it (see
  "## Findings").
- **The resource drawer** (`ResDrawer`). It computes cost split into spent and remaining work,
  start and finish slips, and span utilisation.
- **Persistence** (`Storage`). It loads a stored or opened plan through migration to version 1.2
  and the removal of corrupted allocations.
- **Timeline** (`Timeline`). It builds groups and items for the timeline, with HTML escaping, name
  truncation, baseline shadows and day snapping.
- **UUID fallback** (`Uuid`). `initCrypto` installs a version-4 UUID generator when the browser
  has none.

Supporting modules:

- `Common`: rounding as `toFixed` does it, code-unit string order, sums, filters, distinct lists,
  and a stable sort.
- `Decimal`: zero-padded decimal text.
- `Calendar`: the proleptic Gregorian UTC calendar, ISO-8601 text and ISO week numbers.
- `Plan`: the records and lookups by id.

Conventions:

- Time is an integer count of milliseconds since the epoch. The calendar day of an instant is
  `t / 86400000`, and all calendar arithmetic is in UTC.
- ISO date and instant texts and period keys are compared as lexicographic order on characters.
  For these texts, which all share one format, `localeCompare` and `<` agree with that order.
  Resource names are compared the same way, which is not locale collation (see "## Left out").
- `Number#toFixed(k)` is rounding half away from zero on exact reals.
- `Array#sort` is a stable sort, given the source's comparator.
- A `Map` keeps its insertion order as a key sequence beside a Dafny `map`.
- The calendar-aware `plannedHours` of the app is a function parameter. Its definition is not part
  of this model.

## Model

| member | source | states |
|---|---|---|
| Plan.FindResourceFinds | js/allocations.js:64 | `find` by id returns the first resource with that id, and nothing exactly when no resource has it |
| Plan.NameOrFirst | js/kpi_bar_drawer.js:41 | the label of an id is the name of the first resource with that id, or the id itself when that name is empty |
| Plan.UsedIds | js/kpi_bar_drawer.js:17-19 | the set of resource ids that occur in allocations: no repeats, and an id is in it iff some allocation books it |
| Allocations.DurationHours | js/allocations.js:6-9 | a box lasts 0 hours; a bar whose end is not before its start lasts a positive number of hours |
| Allocations.DurationDays | js/allocations.js:11-14 | the duration in days to one decimal: within 0.05 of hours/24, and 0 for a box |
| Allocations.Rate | js/allocations.js:64 | the hourly rate of the first resource with the allocation's id, or 0 when there is none |
| Allocations.CalcCost | js/allocations.js:62-69 | the cost is hours times rate rounded to cents (within 0.005), and 0 when the resource is missing |
| Allocations.HasClash | js/allocations.js:16-21 | there is a clash iff some other allocation of the same resource overlaps the half-open span |
| Allocations.ClashIgnoresEditedRecord | js/allocations.js:19 | the record being edited never takes part in the clash test |
| Allocations.TouchingSpansDoNotClash | js/allocations.js:20 | spans that only touch end to start do not clash |
| Allocations.CompareIsTimeOrder | js/allocations.js:45 | the event comparator orders by time only, because its tie-break `b.d-b.d` is always 0 |
| Allocations.EqualTimesKeepPushOrder | js/allocations.js:45 | events at the same instant keep their push order after the sort |
| Allocations.RunLoad | js/allocations.js:47-50 | the running load after a prefix of events is the sum of their deltas |
| Allocations.RunOpenIffOverloaded | js/allocations.js:51-56 | a band is open exactly while the load is above 100 % |
| Allocations.BandsFollowCrossings | js/allocations.js:51-56 | a band opens on an upward crossing of 100 % and is pushed, from its opening time to the current event, on a downward crossing; nothing else changes the band list |
| Allocations.NoBandLeftOpen | js/allocations.js:36-57 | after one resource's sorted events the load is back to 0 and no band is open |
| Allocations.ResourceBandsChronological | js/allocations.js:47-57 | a resource's bands belong to it, are well formed and come in time order without overlap |
| Allocations.BandsAreWellFormed | js/allocations.js:36-58 | every band of the first n resources is well formed and grouped under one of them |
| Allocations.CollectEvents | js/allocations.js:37-43 | the loop pushes a +pct and a -pct event for each allocation of the resource; the deltas cancel out |
| Allocations.SweepEvents | js/allocations.js:47-57 | the loop appends exactly the bands the sweep specification produces |
| Allocations.SweepResource | js/allocations.js:36-58 | one turn of the resource loop appends exactly that resource's bands to those of the resources before it |
| Allocations.BuildOverbookBands | js/allocations.js:33-60 | the bands equal the specification, and every band is well formed and belongs to a resource of the plan |
| Calendar.CivilOfDays | js/analytics.js:26-27 | converting a valid date to a day number and back gives the date |
| Calendar.DaysFromCivilOrder | js/analytics.js:26 | earlier dates have smaller day numbers, and the converse |
| Calendar.DayKeyIsIsoDate | js/analytics.js:27 | `toISOString().slice(0,10)` of an instant is the ISO date of its day |
| Calendar.IsoDateOrder | js/analytics.js:85 | comparing ISO date texts is comparing days (years 0 to 9999) |
| Calendar.IsoInstantOrder | js/app.js:330 | comparing ISO instant texts is comparing instants, and equal texts mean equal instants |
| Calendar.WeekNumberIsIsoWeek | js/kpi_bar_drawer.js:253-259 | `getWeekNumber` computes the ISO-8601 week of the day, between 1 and 53 |
| Common.Round1 | js/analytics.js:37 | `+x.toFixed(1)` lies within 0.05 of x |
| Common.Round2 | js/allocations.js:68 | `+x.toFixed(2)` lies within 0.005 of x, and 0 stays 0 |
| Common.SortByOrders | js/analytics.js:38-39 | the sort returns an ordered sequence for a strict order |
| Common.SortByStable | js/allocations.js:45 | elements with equal keys keep their relative order |
| Common.Distinct | js/kpi_bar_drawer.js:18 | a `Set` of the values holds each of them once and nothing else |
| Decimal.FixedOrder | js/analytics.js:27 | zero-padded numbers of one width compare as text exactly as they compare as numbers |
| Analytics.DayCountTurns | js/analytics.js:26 | the day loop takes step j iff start + j days is not after the end |
| Analytics.AllocHitsAt | js/analytics.js:26-29 | step j of an allocation's loop adds its percentage under its resource and the j-th day |
| Analytics.TallyIsTable | js/analytics.js:18-29 | the day map holds every key that was hit, once, with the sum of its hits |
| Analytics.EachDayOnce | js/analytics.js:26-29 | an allocation adds its percentage exactly once to each day it covers |
| Analytics.CellStacks | js/analytics.js:15-31 | a cell's value is the sum over allocations of each one's share, so overlapping bookings stack |
| Analytics.ShareOfAllocation | js/analytics.js:22-29 | a box contributes nothing; a bar contributes its percentage to its resource on each covered day and nothing elsewhere |
| Analytics.BoxesContributeNothing | js/analytics.js:22 | skipping boxes leaves the hits unchanged |
| Analytics.DailyUsageRows | js/analytics.js:17-40 | the rows are sorted by day then name, every row is a rounded cell with its resource's name, every hit cell has a row, and no cell appears twice |
| Analytics.UsageRowFromRanged | js/analytics.js:21-31 | every row comes from a non-box allocation of that resource |
| Analytics.AddAllocation | js/analytics.js:21-30 | one call of the callback extends the tally by that allocation's hits, none for a box |
| Analytics.FillDayMap | js/analytics.js:21-31 | the nested loops build exactly the tally of all hits |
| Analytics.BuildDailyUsage | js/analytics.js:17-40 | the method returns the daily usage specification |
| Analytics.DailyUsageFromRows | js/analytics.js:82-86 | the rows from a day are exactly the daily rows whose day is not before it, still sorted |
| Analytics.PlanStart | js/analytics.js:47-50 | the earliest start of the plan, and one allocation starts then |
| Analytics.PlanEnd | js/analytics.js:48-51 | the latest end among bars, floored at the plan start |
| Analytics.MonthsSpan | js/analytics.js:53-56 | the month count is the calendar-month distance plus 1, at least 1; capacity is at least 160 h |
| Analytics.UtilisationFails | js/analytics.js:64-68 | utilisation throws iff some bar books a resource that is not in the plan |
| Analytics.UtilisationIds | js/analytics.js:58-79 | the records are one per distinct resource id, in resource order, and their ids are exactly the ids of the plan's resources |
| Analytics.UtilisationRows | js/analytics.js:58-79 | each record has the plan capacity, the hours booked for its resource, and the percentage within 0.05 |
| Analytics.UtilisationConserves | js/analytics.js:64-79 | the booked hours over all rows are the planned hours of all bars |
| Analytics.SeedUtilMap | js/analytics.js:58-62 | the map has one zero entry per resource id, keyed in first-seen order |
| Analytics.BookHours | js/analytics.js:64-68 | the loop fails iff a bar's resource is unknown; otherwise each entry is that resource's booked hours |
| Analytics.BuildUtilisation | js/analytics.js:45-80 | the method returns the utilisation specification, error case included |
| Analytics.GapsFromPairs | js/analytics.js:93-102 | a gap is recorded for each adjacent pair on the same resource, and only for such pairs |
| Analytics.IdleGapsRows | js/analytics.js:89-103 | gaps come from the bars sorted by start (a permutation) and pair each same-resource neighbour; at most n-1 gaps |
| Analytics.MilestonesAreBoxes | js/analytics.js:106-107 | milestones are exactly the boxes; milestones plus bars make up the plan |
| ResDrawer.DaysBetween | js/res_drawer.js:25 | at least one day; for ordered days the inclusive day count, and 1 otherwise |
| ResDrawer.DaysBetweenMonotone | js/res_drawer.js:25 | a wider span never has fewer days |
| ResDrawer.Split | js/res_drawer.js:31-46 | the spent and remaining parts add up to the cost |
| ResDrawer.SplitCases | js/res_drawer.js:32-45 | zero cost splits to zeros, future work is all remaining, finished work or a box is all spent, and work in progress splits linearly by elapsed time |
| ResDrawer.CostConserved | js/res_drawer.js:48-63 | spent plus remaining is the resource's total cost, likewise for the baseline, and the variances are the differences |
| ResDrawer.ResCostMetrics | js/res_drawer.js:27-64 | the method returns the cost metrics specification |
| ResDrawer.TickCounts | js/res_drawer.js:71-94 | each allocation adds one start slip iff its start moved and one finish slip iff its end moved, and a late start counts only when started |
| ResDrawer.StartCounts | js/res_drawer.js:76-84 | the start slips add up to the number of allocations whose start moved |
| ResDrawer.FinishCounts | js/res_drawer.js:86-94 | the finish slips add up to the number of allocations whose end moved |
| ResDrawer.ResScheduleMetrics | js/res_drawer.js:66-97 | the method returns the schedule metrics specification |
| ResDrawer.LatestEnd | js/res_drawer.js:113-114 | the latest end among the bars, reached by one of them |
| ResDrawer.SpanWithinHorizon | js/res_drawer.js:105-114 | one resource's span lies between 1 day and the plan horizon |
| ResDrawer.UtilFacts | js/res_drawer.js:99-119 | no rows give zeros; otherwise both percentages are the row total per day of horizon or span, span utilisation is at least horizon utilisation, and overtime is the same for both and not negative |
| ResDrawer.PerDayAntitone | js/res_drawer.js:108 | a longer horizon never gives a higher percentage |
| Kpi.AvgUtilTimesCapacity | js/kpi_bar_drawer.js:28-32 | average utilisation times capacity is 100 times the summed row percentages |
| Kpi.AvgUtilSign | js/kpi_bar_drawer.js:28-32 | no rows give 0, and non-negative rows give a non-negative average |
| Kpi.StaleNames | js/kpi_bar_drawer.js:41 | the idle rows as written look names up in the page's global plan: with a stale global plan, a resource named Ann is shown by its id, while the corrected rows show Ann |
| Kpi.KpisStaleNames | js/kpi_bar_drawer.js:41 | the KPIs as written, with an empty global plan, label Ann's idle row `r1`; with the drawn plan as the global plan they label it Ann |
| Kpi.IdleRowsNamed | js/kpi_bar_drawer.js:39-43 | when the global plan is the drawn plan, both idle tables of the KPIs have one row per used resource, in order, named from the drawn plan |
| Kpi.IdleConserved | js/kpi_bar_drawer.js:35-38 | idle percentages plus booked percentages make up full capacity for every used resource |
| Kpi.IdleHoursNear | js/kpi_bar_drawer.js:42 | idle hours are within 0.05 of pct/100*8, and shown negative when overbooked by more than 0.625 % |
| Kpi.SeedIdle | js/kpi_bar_drawer.js:37 | each used resource starts fully idle |
| Kpi.SubtractRows | js/kpi_bar_drawer.js:38 | after the loop each entry is full capacity less that resource's daily percentages |
| Kpi.IdleRecords | js/kpi_bar_drawer.js:39-43 | one idle row per key, in key order, built from that key's remaining percentage |
| Kpi.KpiIdleRows | js/kpi_bar_drawer.js:33-44 | the method returns the idle-row specification |
| Kpi.OverSetIs | js/kpi_bar_drawer.js:73-74 | the overloaded set has no repeats and holds exactly the resources with a day above 100 % |
| Kpi.OverSetWithin | js/kpi_bar_drawer.js:73-74 | the over-capacity set of a subset of the rows is contained in that of all rows |
| Kpi.OverFutWithinAll | js/kpi_bar_drawer.js:73-74 | a resource overloaded from today on is overloaded in the whole plan |
| Kpi.Overruns | js/kpi_bar_drawer.js:77-82 | the loop sums each allocation's lateness in days and its cost over baseline |
| Kpi.DelayFacts | js/kpi_bar_drawer.js:79-80 | delay is not negative, and it is 0 iff no allocation ends after its baseline end |
| Kpi.BudgetFacts | js/kpi_bar_drawer.js:81 | the overrun is the budgeted cost less the baseline cost |
| Kpi.FirstNameIs | js/kpi_bar_drawer.js:170 | a resource's record keeps the name of its first row |
| Kpi.GroupAvgIds | js/kpi_bar_drawer.js:167-176 | one average per distinct resource, in first-seen order |
| Kpi.GroupAvgRecord | js/kpi_bar_drawer.js:169-175 | each average's sum, day count, name and mean come from that resource's rows |
| Kpi.GroupAvgConserves | js/kpi_bar_drawer.js:167-176 | the sums and day counts over all averages add up to the rows' total and count |
| Kpi.BuildGroupAvg | js/kpi_bar_drawer.js:167-176 | the method returns the grouping specification |
| Kpi.HorizonFacts | js/kpi_bar_drawer.js:51-58 | both horizons are at least 1 day; the plan horizon is the inclusive span from first start to last end; the horizon from today is not longer when the plan has started |
| Kpi.HorizonIsDrawerHorizon | js/kpi_bar_drawer.js:51-55 | with at least one bar, the KPI horizon equals the drawer's horizon |
| Kpi.RefreshKpis | js/kpi_bar_drawer.js:46-99 | the method returns the KPI specification, whose idle rows take their names from the global `plan` given beside the plan being drawn |
| Kpi.KpisFacts | js/kpi_bar_drawer.js:65-98 | future overload implies overall overload, delay is not negative, and the cash-flow total is the spread cost of the plan |
| Cashflow.SpreadDaysFacts | js/kpi_bar_drawer.js:270-271 | a box spreads over one day, and an allocation ending no earlier than it starts covers at least one |
| Cashflow.DailyPartTimes | js/kpi_bar_drawer.js:286-287 | the daily parts of an amount times the day count give the amount |
| Cashflow.MonthKeySameMonth | js/kpi_bar_drawer.js:283 | two instants share a month key iff they share year and month |
| Cashflow.WeekKeyCollision2024 | js/kpi_bar_drawer.js:280 | the week key as written gives 2024-01-01 and 2024-12-30 the same key; they lie in different weeks, and the ISO-year key tells them apart |
| Cashflow.WeekKeyCollides | js/kpi_bar_drawer.js:280 | in general, two week-1 days of one calendar year in consecutive ISO years collide under the key as written |
| Cashflow.WeekKeySameWeek | js/kpi_bar_drawer.js:280 | the corrected week key of two days is equal iff they share their Monday |
| Cashflow.CashflowWeekMerges | js/kpi_bar_drawer.js:264-293 | with the `'week'` period as written, a box on 2024-01-01 and a box on 2024-12-30 give a single row that holds both baselines and both costs |
| Cashflow.CashflowWeekSplits | js/kpi_bar_drawer.js:280 | with the corrected week key the same two boxes give two rows, one per ISO week, with different keys |
| Cashflow.AllocSlicesSum | js/kpi_bar_drawer.js:272-288 | one allocation's daily slices add up to its spread cost and baseline |
| Cashflow.SlicesKeys | js/kpi_bar_drawer.js:272-285 | a key is produced iff some day of some allocation maps to it |
| Cashflow.CashflowOrder | js/kpi_bar_drawer.js:290-291 | the periods are strictly increasing as text |
| Cashflow.CashflowPeriods | js/kpi_bar_drawer.js:285-292 | a period is listed iff some allocation day maps to it |
| Cashflow.CashflowAmounts | js/kpi_bar_drawer.js:285-292 | each row's amounts are the sums of the slices with its period |
| Cashflow.CashflowConserves | js/kpi_bar_drawer.js:264-293 | the rows add up to the spread costs and baselines of all allocations |
| Cashflow.SpreadCostAll | js/kpi_bar_drawer.js:267-271 | when every allocation covers a day, the spread costs are the costs and baselines |
| Cashflow.DepositDay | js/kpi_bar_drawer.js:273-287 | one turn of the day loop deposits exactly that day's slice in the buckets |
| Cashflow.SpreadAllocation | js/kpi_bar_drawer.js:272-288 | the day loop deposits exactly one allocation's slices in its buckets |
| Cashflow.FillBuckets | js/kpi_bar_drawer.js:266-289 | the loop fills the buckets of all slices |
| Cashflow.BuildCashflow | js/kpi_bar_drawer.js:264-293 | the method returns the cash-flow specification for the period, whose week key is the calendar year with the ISO week number as in the source |
| Storage.MigratedFails | js/storage.js:18-33 | migration throws iff the document's shape makes one of its steps throw |
| Storage.MigrateResourceFacts | js/storage.js:20 | a missing hourly cost becomes 0, and nothing else of the resource changes |
| Storage.MigrateAllocationFacts | js/storage.js:25-31 | the baseline start defaults to the start, the cost to 0, and the baseline cost to a truthy cost; other fields are unchanged |
| Storage.MigratedDoc | js/storage.js:18-33 | the migrated document migrates each resource and allocation, sets version 1.2, and keeps every other field |
| Storage.MigrateIdempotent | js/storage.js:18-33 | migrating twice is migrating once |
| Storage.SanitizeFacts | js/storage.js:35-44 | only allocations with a start text of at least 10 characters are kept, in order; the removal count is not negative and is 0 iff nothing was dropped |
| Storage.SanitizeIdempotent | js/storage.js:35-44 | sanitizing twice is sanitizing once, and the second pass removes nothing |
| Storage.LoadPathsAgree | js/storage.js:7-16 | loading from storage and opening a file accept the same text and give the same plan |
| Storage.LoadedComplete | js/storage.js:12-13 | every loaded allocation has a valid start, a baseline start and a cost |
| Storage.CleanIdempotent | js/storage.js:12-13 | loading a loaded plan again changes nothing |
| Storage.NullEntryFailsLoad | js/storage.js:29-30 | a null allocation entry makes loading fail, because migration reads it before sanitizing drops it |
| Storage.MigrateList | js/storage.js:25-28 | the loop fails iff some entry cannot be migrated, and otherwise returns the migrated entries |
| Storage.PlanObject.Migrate | js/storage.js:18-33 | the object becomes the migrated document, or the call throws |
| Storage.PlanObject.Sanitize | js/storage.js:35-44 | the object becomes the sanitized document, with the removal count and the alert text when any were removed |
| Storage.LoadJSON | js/storage.js:7-16 | the method returns the load specification |
| Storage.OpenFile | js/storage.js:60-73 | the method returns the open-file outcome specification |
| App.LocalRoundTrip | js/app.js:217-223 | `toLocal(fromLocal(d))` gives back an empty or a 10-character date text |
| App.FromLocalIsMidnight | js/app.js:221-223 | `fromLocal` of a day's ISO date is that day's ISO midnight, and `toLocal` of it gives the date back |
| App.FindAt | js/app.js:305 | the index of the first allocation with the id, or none when there is none |
| App.TextOrder | js/app.js:330 | comparing midnight instants as text is comparing their days |
| App.SubmitAlertsStart | js/app.js:329 | submit alerts "Start date is required." exactly when no start is picked |
| App.SubmitAlertsOrder | js/app.js:330 | submit alerts "End must be after start." exactly when an end is picked that is not after the start |
| App.SubmitThrows | js/app.js:345-346 | submit throws only when the edited id is not in the plan |
| App.SubmitCreates | js/app.js:337-352 | a new allocation is appended with the fresh id, the form's fields, its baseline set to its own dates, and its cost at both baseline and current |
| App.SubmitEditResetsBaseline | js/app.js:332-346 | an edit replaces only the edited record, keeps its id, keeps notes only where the record had them, and resets its baseline to the new dates and cost |
| App.SubmitKeepsReferences | js/app.js:345-351 | submitting with a known resource keeps every allocation pointing at a resource |
| App.BaselineResetFacts | js/app.js:303-308 | the reset copies start, end and cost into the baseline, changes nothing else, and zeroes lateness and overrun |
| App.RemoveResourceCascades | js/app.js:204-211 | removing a resource drops it and all of its allocations and keeps everything else |
| App.DeleteAllocationFacts | js/app.js:55 | deleting drops the allocations with that id and keeps the rest |
| App.QuickBoxFacts | js/app.js:71-89 | a click on blank space of a resource row creates a 100 % box at the click time with a matching baseline point; any other click creates nothing |
| App.Planner.Select | js/app.js:46-47 | the selection is the first selected item, or none |
| App.Planner.OpenAllocModal | js/app.js:356-357 | opening the modal marks the allocation as edited |
| App.Planner.StartNewAllocation | js/app.js:297-301 | with no resources it alerts "Add resource first"; otherwise it switches to create mode |
| App.Planner.DeleteSelected | js/app.js:52-59 | after confirmation the selected allocation is deleted and the selection cleared; otherwise nothing changes |
| App.Planner.RemoveRes | js/app.js:204-211 | after confirmation the resource is removed with its allocations |
| App.Planner.ResetBaseline | js/app.js:303-313 | with an edited allocation present its baseline is reset; a missing one throws and changes nothing |
| App.Planner.Submit | js/app.js:316-354 | the outcome is the submit specification, and the plan changes only when it is saved |
| App.Planner.QuickAddBox | js/app.js:71-103 | a created box is appended to the plan and opened for editing |
| Timeline.EscChar | js/timeline.js:10-11 | the five special characters become entities and every other character stays; no raw special character remains |
| Timeline.Esc | js/timeline.js:10-11 | the escaped text has no raw special character, and text without one is unchanged |
| Timeline.EscRoundTrip | js/timeline.js:10-11 | unescaping the escaped text gives the text back |
| Timeline.EscAppend | js/timeline.js:10-11 | escaping works character by character across a concatenation |
| Timeline.ContentShowsTask | js/timeline.js:14-19 | the content is the task, escaped, inside `<small>` tags, and reads back as the task |
| Timeline.TruncateName | js/timeline.js:81 | names up to 60 characters stay; longer ones become their first 50 characters and an ellipsis |
| Timeline.GroupsFacts | js/timeline.js:75-92 | a group exists iff its resource is booked; groups follow resource order; shown names are at most 60 characters |
| Timeline.ItemsFacts | js/timeline.js:95-122 | item i is the bar of allocation i, item n+i is its shadow (a point for a box, a range otherwise) with id suffix `_bl` |
| Timeline.ItemsBands | js/timeline.js:123 | the items end with the overbooking bands, in order |
| Timeline.ShadowIdsDistinct | js/timeline.js:109-115 | distinct allocations have distinct shadow ids |
| Timeline.SnapFacts | js/timeline.js:49-57 | a snapped instant is a midnight within half a day of the input, rounding half past noon upward |
| Timeline.SnapUnique | js/timeline.js:49-57 | the snap is the only midnight in that half-open window |
| Timeline.SnapStable | js/timeline.js:49-57 | snapping is idempotent and monotone |
| Timeline.TimelineSets.Refresh | js/timeline.js:70-125 | the data sets are replaced by the plan's groups and items |
| Uuid.VersionByte | js/utils.js:21 | the byte's high nibble becomes 4 and its low nibble is kept |
| Uuid.VariantByte | js/utils.js:22 | the byte's top two bits become `10` and its low six bits are kept |
| Uuid.Stamped | js/utils.js:21-22 | only bytes 6 and 8 change |
| Uuid.HexOf | js/utils.js:23 | two characters per byte |
| Uuid.HexOfDigits | js/utils.js:23 | the rendering holds lowercase hex digits only |
| Uuid.FillBuffer | js/utils.js:13-15 | a fresh 16-byte buffer holding the drawn bytes |
| Uuid.HexText | js/utils.js:23 | the loop renders the buffer exactly as the hex specification does |
| Uuid.UuidRoundTrip | js/utils.js:13-24 | the identifier without hyphens reads back as the drawn bytes with the version and variant set |
| Uuid.UuidShape | js/utils.js:24 | 36 characters in 8-4-4-4-12 groups, with `4` at position 14 and one of `8 9 a b` at position 19 |
| Uuid.Generate | js/utils.js:12-25 | the generator returns the UUID of the bytes it read |
| Uuid.InitCrypto | js/utils.js:9-26 | a missing `crypto` object is created; the fallback is installed only when there is no `randomUUID`, and an existing one is left alone |

## Left out

- Floating point: numbers are exact reals, so IEEE rounding and the case where `toFixed` prints a
  binary approximation are not modelled.
- Common.Round1: the contract states a bound of 0.05 rather than the exact digit, because that is
  what callers rely on.
- Common.Round2: the contract states a bound of 0.005 rather than the exact digit, for the same
  reason.
- Time zones: all dates are UTC. The source mixes local-time calls (`getFullYear`, `setHours`,
  `getHours`) with UTC ones; in a non-UTC browser they differ, and that is not modelled.
- DOM, Bootstrap, vis-timeline and console output: element updates, modals, `showAlert` display,
  `console.log`, `timeline.fit`, `redraw` and the draw of quick-added items are plumbing. Alerts
  are returned as text.
- `String#trim` of the task text: the form's task is taken as already trimmed.
- App.FromLocal: invalid date text (a `RangeError` in `toISOString`) is not modelled; non-empty
  text is assumed to be a valid `YYYY-MM-DD`.
- JSON parsing, `localStorage` and `FileReader`: the parsed value and the stored or opened text
  are parameters; `saveJSON` and `downloadPlan` write out and are not modelled.
- Randomness: the random bytes and the fresh 8-character allocation ids
  (`crypto.randomUUID().slice(0, 8)`) are parameters. The `Math.random` path of the UUID fallback
  (utils.js:18) is not modelled, because it only chooses the bytes.
- The resource form, resource picker and resource table handlers (app.js outside the lines cited
  above, allocations.js:23-26) only move form fields. They are not part of this model.
- Timeline.TruncateName: lengths count Dafny characters, not UTF-16 code units.
- Storage.SanitizeFacts: the `length >= 10` test counts Dafny characters, not UTF-16 code units.
  The two differ only for start texts with characters outside the Basic Multilingual Plane.
- The group template's whitespace and class line are not modelled. The group shows the resource
  name unescaped, as the source does.
- Items' `className` and `type` strings are folded into the item constructors.
- `plannedHours` and `isoToInputDate` (utils.js functions outside the lines cited above) are
  parameters: a function from allocation to hours, and the day text to filter from.
- Analytics.BuildUtilisation and Kpi.RefreshKpis require a non-empty plan. On an empty plan the
  source computes `Math.min()` of nothing and gets NaN or an invalid date.
- Reading a missing key of a `Map` yields `undefined` and then NaN in the source. The model shows
  that this cannot happen on the paths it covers: utilisation instead fails with an error, and the
  idle loop's rows are all of used resources.
- `saveAndRender` after each edit is outside the model.
- Analytics.DailyUsageRows: rows of one day are ordered by resource name in code-unit order, not
  by `localeCompare` collation. The two differ for names that differ in case or accents: "Bob"
  comes before "alice" here, and after it in the browser.
- Analytics.BuildDailyUsage: it returns the daily usage rows above, so its name tie-break is the
  same code-unit order and not `localeCompare`.
- Analytics.DailyUsageRows: the day table is keyed by the pair of resource id and day. The source
  keys it by the text `id#day` and splits it back at the `#` (analytics.js:28, 35), so an id that
  contains `#` comes back wrong there. The model assumes nothing about ids and gives the right id.
- App.Planner.Submit: the edit path is taken when an edited id is present, even the empty text.
  The source tests the id for truthiness (app.js:332, 345), so an allocation whose id is `""`
  goes down the create path there.
- App.Planner.ResetBaseline: likewise resets the baseline of an edited allocation whose id is `""`,
  where the source returns early (app.js:304).
- Cashflow.CashflowOrder orders week keys as text. It does not claim that this is chronological,
  since "2024-W10" sorts before "2024-W2".

## Findings

| source | as written | input that shows it | evidently intended | confidence | as-written member | corrected member |
|---|---|---|---|---|---|---|
| js/kpi_bar_drawer.js:41 | idle rows look up resource names in the page's global `plan`, not in the plan being drawn | the global plan has no resources and the drawn plan has resource `r1` named Ann: the row shows `r1` | names come from the plan passed to `refreshKpis` | high, not executed | Kpi.KpisStaleNames | Kpi.IdleRowsNamed |
| js/kpi_bar_drawer.js:280 | the week key pairs the calendar year (`getFullYear`) with the ISO week number | 2024-01-01 and 2024-12-30 are both in ISO week 1, of 2024 and of 2025, and both get `2024-W1`: boxes on those days end up in one `'week'` row | the ISO week-numbering year, so each week gets its own key | high, not executed | Cashflow.CashflowWeekMerges | Cashflow.WeekKeySameWeek |
