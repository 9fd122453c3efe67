# Screen-time visualisation core, in Dafny

This project models the computational core of `main.js`, a browser page that
turns a phone's screen-time export into a spiral of days and a draggable
timeline. Three parts are modelled and proved.

- **The daily-usage pipeline** (`transformData`). The input is a wide table
  with one row per app and device and one column per date. The pipeline:
  - sums every date column into a per-header aggregate (`dailyDataMap`);
  - lists the apps with positive usage;
  - cleans each header to the text before its first `.` and parses it as a date;
  - drops the days that do not parse;
  - sorts each day's apps by usage, largest first;
  - sorts the days by date;
  - numbers the days and gives each one a week number, counted from the first day.

  Modules `Aggregation` (steps up to `Array.from(dailyDataMap.values())`)
  and `Pipeline` (the rest) hold it. The imperative code is kept as methods
  with loops. `ReadCell`, `ReadCells`, `ReadRow` and `BuildDailyData` are
  proved to keep every aggregate of the map equal to a specification function:
  `PartialDay` part-way through a row, `DayFor` after whole rows.
  `AggregateUsage`, `ParseAll`, `AssignIndices` and `TransformData` are proved
  equal to `Aggregate`, `ParseDays`, `Indexed` and `Transform`. The lemmas state
  what those functions guarantee.
- **The duration formatter** (`formatTime`, module `Durations`). It renders
  seconds as "2 hours 5 minutes", "1 minute" or "0 second". A strict reader,
  `ReadDuration`, parses such a text back, and the round trip is proved.
- **The timeline pan state** (module `Timeline`). It holds:
  - the content height;
  - the drag bounds;
  - the offset `currentTimelineY`, a field of class `TimelineView`, which is
    clamped on every layout and every drag step;
  - the up and down arrow predicates.

Supporting modules:
- `Text` covers the JavaScript string operations used: decimal rendering,
  `split` with one separator character, and `join`.
- `StableSort` covers `Array.prototype.sort` with a numeric-difference comparator. The
  ECMAScript standard requires this sort to be stable. The model defines its
  outcome as a stable insertion sort. It proves the result sorted, a
  permutation of the input and stable, and proves it is the only ordering with
  those properties.
- `Dates` covers header cleaning, day-of-week and week-number arithmetic.
- `Sequences` covers first-occurrence order (`Distinct`), repetition and
  duplicate-freedom.
- `Wrappers` holds the `Option` type.

Dates are integer day numbers, counted from 1 January 1970, which was a
Thursday. The date parser `d3.timeParse("%B %d, %Y")` is a parameter
`parse: string -> Option<int>` of the pipeline. A table cell is an optional
non-negative count of seconds, and a missing or empty cell reads as 0
(`appRow[dateStr] || 0`).

Two behaviours of the code are modelled as written:
- **Headers are not merged.** `dailyDataMap` is keyed by the raw header
  (main.js:73), and cleaning happens only afterwards (main.js:99). The comment
  at main.js:98 speaks of merging "Oct 26" with "Oct 26.1", but the code does
  not do this: the two headers become two records with the same date
  (`Pipeline.SuffixedColumnsGiveSeparateRecords`). A header repeated verbatim
  in the header line is read once per occurrence on every row. Its total and
  its app list are then multiplied by the number of occurrences
  (`Aggregation.DayFor`, `Pipeline.DayContents`).
- **Short content is not centred.** When the content fits the viewport, the
  bounds collapse to `[0, 0]` and the offset is pinned to 0
  (`Timeline.FittingContentIsPinned`).

## Model

| member | source | states |
|---|---|---|
| Aggregation.DateColumns | main.js:65-67 | the date columns are exactly the headers other than "App name", "Device" and "Total Usage (seconds)", each occurring as often as in the header line |
| Aggregation.Usage | main.js:72 | a missing or empty cell reads as 0 seconds, and any other cell as its count |
| Aggregation.ReadCell | main.js:72-87 | one cell step moves the whole map from "j columns of the current row read" to "j+1 columns read": keys in first-occurrence order, every aggregate equal to its partial sum and partial app list |
| Aggregation.ReadCells | main.js:72-87 | the inner loop over the date columns takes every aggregate from none of the row's columns read to all of them, and the keys to the distinct date columns |
| Aggregation.FreshDayReady | main.js:74-80 | a header missing from the map is met only on the first row; adding it with the empty aggregate appends it to the keys in first-occurrence order and gives it the aggregate of no cells read |
| Aggregation.ReadRow | main.js:69-89 | reading a row moves every aggregate from the rows before it to the rows up to it, with the keys being the distinct date columns |
| Aggregation.BuildDailyData | main.js:68-89 | after all rows, the map has a key per distinct date column (none without rows), in first-occurrence order, each with `DayFor`: the column total times its occurrences and the app entries of the positive rows |
| Aggregation.AggregateUsage | main.js:63-92 | the array of map values equals `Aggregate(table)` |
| Aggregation.PartialDayStep | main.js:72-87 | reading column j changes only the aggregate of that header: usage added to the total, the app appended exactly when its usage is positive |
| Aggregation.FreshOnlyOnFirstRow | main.js:74-80 | a header can be missing from the map only on the first row, before its first occurrence |
| Aggregation.ColumnAppsLength | main.js:82-87 | a day's app list has one entry (per occurrence of the header) for each row with positive usage, none for the rest |
| Aggregation.ColumnAppsPositive | main.js:82-87 | every listed app has positive usage |
| Aggregation.ColumnAppsSum | main.js:81-87 | the listed usages add up to the column total: rows with zero usage add nothing to either |
| Pipeline.ParseDay | main.js:97-115 | a day survives iff its cleaned header parses; then it keeps header and total, records the cleaned header `Clean(dateString)` and its parsed date, the Monday-based day of week of that date (in 0..6), and an app list that is a permutation of the original sorted by usage |
| Pipeline.ParseAll | main.js:97-118 | the `map`/`filter` loop yields `ParseDays`, the parsable days in map order |
| Pipeline.AssignIndices | main.js:133-138 | the indexing loop yields `Indexed(sorted)` |
| Pipeline.TransformData | main.js:63-143 | `transformData` returns `Transform(table, parse)`, including `[]` when no day survives |
| Pipeline.IndexedOrder | main.js:129-138 | on date-sorted days, indexing keeps the order, sets `dayIndex` to the position, the first week number to 0, and week numbers that are non-negative and non-decreasing |
| Pipeline.TransformOrder | main.js:106-138 | the output is sorted by date, `dayIndex` is 0..n-1 in order, each week number is `WeekNumber(first date, date)`, so week numbers start at 0 and never decrease or go negative, and each `dayOfWeek` is `DayOfWeek(date)` |
| Pipeline.ParsedDayWeekday | main.js:99-106 | every parsed day's `dayOfWeek` is the Monday-based weekday of its date and its cleaned header is `Clean(dateString)` |
| Pipeline.ParsableKeys | main.js:99-104 | the keys kept are exactly the map keys whose cleaned header parses |
| Pipeline.ParseDaysOfKeysCount | main.js:97-118 | there are as many parsed days as parsable keys |
| Pipeline.ParseDaysOfKeysMembers | main.js:97-118 | a day is among the parsed days iff it is named after a key and is that key's parsed aggregate |
| Pipeline.ParseDaysOfKeysDistinct | main.js:73-118 | distinct keys give days with distinct headers |
| Pipeline.TransformCount | main.js:94-132 | the output length is the number of map keys whose cleaned header parses, and the output is `[]` iff there is none |
| Pipeline.TransformDays | main.js:73-121 | the days are exactly the parsed aggregates of the parsable keys: every day is one of them, and every parsable key has its day |
| Pipeline.TransformDistinctHeaders | main.js:73-121 | no two records share a raw header |
| Pipeline.SuffixedColumnsGiveSeparateRecords | main.js:73-104 | headers `key` and `key.suffix` give two different records with equal dates; they are not merged |
| Pipeline.DayContents | main.js:71-113 | a day's total is its occurrences times the column sum and equals the sum of its apps; its apps are one per positive row (per occurrence), all positive, sorted by usage largest first, a permutation of the collected entries, with ties in row order |
| Pipeline.DistinctHeadersReadOnce | main.js:65-73 | with no repeated header in the header line, every day reads its column exactly once |
| Pipeline.SameDateKeepsHeaderOrder | main.js:121 | days with equal dates keep the order of their headers' first occurrence |
| Pipeline.SumUsageSorted | main.js:113 | sorting an app list keeps its total |
| StableSort.SortBy | main.js:113 | the sort result has the input's length and elements and is ascending by key |
| StableSort.InsertKeepsSorted | main.js:113 | inserting into a sorted sequence keeps it sorted |
| StableSort.InsertIsStable | main.js:113 | inserting into a sorted sequence puts the new element after every element with its key |
| StableSort.SortByIsStable | main.js:113 | elements with equal keys keep their relative order |
| StableSort.SortByIsTheStableSort | main.js:121 | any sorted ordering of the input that keeps equal keys in order is this sort's result |
| Dates.Clean | main.js:99 | the cleaned header is a prefix without '.', followed in the header by '.' unless it is the whole header |
| Dates.CleanDropsSuffix | main.js:99 | a dot-free key cleans to itself, and so does the key with any ".suffix" |
| Dates.CleanIsIdempotent | main.js:99 | cleaning twice is cleaning once |
| Dates.Weekday | main.js:106 | `getDay` of a day number lies in 0..6 |
| Dates.DayOfWeek | main.js:106 | the day of week lies in 0..6, with Monday = 0 and Sunday = 6 |
| Dates.DayOfWeekAdvances | main.js:106 | the next day has the next day of week, wrapping Sunday to Monday, with period 7 |
| Dates.WeekNumber | main.js:135-136 | the week number is the floor of the day difference over 7 and is non-negative iff the date is not before the start |
| Dates.WeekNumberMonotone | main.js:133-137 | later dates are never in earlier weeks, and the start date is in week 0 |
| Durations.FormatTime | main.js:47-56 | below a minute the text is the seconds count and unit alone; from an hour on it starts with the hour count and unit; otherwise it starts with the minute count and unit |
| Durations.SecondsDecompose | main.js:48-50 | hours, minutes and seconds are the mixed-radix digits of the input; the minute count is below 60; both are 0 iff the input is under a minute |
| Durations.FormatTimeWords | main.js:47-56 | the text splits at its spaces into an hour count and unit iff h > 0, a minute count and unit iff m > 0, and a seconds count and unit only when both are 0, each unit plural iff its count is above 1 |
| Durations.FormatTimeZero | main.js:53-55 | `formatTime(0)` is "0 second" |
| Durations.ReadWordsOf | main.js:47-56 | the words for h hours, m minutes and s seconds read back as 3600·h + 60·m, plus s only when h and m are both 0 |
| Durations.DisplayedSecondsOfCounts | main.js:48-55 | the displayed amount is 3600·h + 60·m, plus the seconds only when h and m are both 0; it is at most the input and less than a minute below it |
| Durations.FormatTimeReadsBack | main.js:47-56 | the text reads back as the displayed amount: the input below a minute, the input rounded down to whole minutes from a minute on |
| Text.NatToString | main.js:51-53 | a count is rendered as non-empty decimal digits, with a leading '0' only for zero |
| Text.DigitsValueOfNatToString | main.js:51-53 | the decimal text denotes the number again |
| Text.Split | main.js:99 | `split` gives at least one piece, the first being the prefix before the first separator |
| Text.Join | main.js:55 | joining no parts gives the empty text, and otherwise the text starts with the first part |
| Text.SplitJoin | main.js:55 | joining separator-free words with the separator and splitting again gives the words back |
| Timeline.ContentHeight | main.js:271 | the content is at least the two paddings tall |
| Timeline.MinDragY | main.js:278-279 | the lower bound is at most 0, equals 0 iff the content fits, and otherwise lets the content's bottom reach the viewport's bottom |
| Timeline.Clamp | main.js:283 | the clamped value lies in the bounds, keeps a value already in range, and goes to the nearer bound otherwise |
| Timeline.UpArrowShown | main.js:374 | within the bounds, the up arrow is shown exactly when a drag step downward can still move the offset |
| Timeline.DownArrowShown | main.js:378 | within the bounds, the down arrow is shown exactly when a drag step upward can still move the offset |
| Timeline.TimelineView.constructor | main.js:256 | the offset starts at 0 |
| Timeline.TimelineView.Layout | main.js:278-283 | a re-layout recomputes the lower bound and clamps the kept offset into the new bounds |
| Timeline.TimelineView.Drag | main.js:318-321 | a drag step moves the offset by dy, clamped, and keeps it within the bounds |
| Timeline.TimelineView.Arrows | main.js:371-379 | inside the bounds, both arrows are hidden iff the content fits, and then the offset is 0 |
| Timeline.ArrowsShowRoomToPan | main.js:371-379 | inside the bounds, no arrow shows iff the content fits; the up arrow shows iff the offset is below 0 |
| Timeline.FittingContentIsPinned | main.js:278-283 | content that fits is pinned at offset 0, whatever the previous offset |
| Timeline.LayoutIsIdempotent | main.js:283 | clamping twice into the same bounds is clamping once |
| Timeline.DragThenRelayout | main.js:278-321 | after a layout and any drag steps, the offset the drags reach lies in the bounds, and a re-layout with the same sizes leaves the offset at exactly that value |
| Sequences.DistinctElements | main.js:73-80 | the map keys in insertion order contain every header, only headers, each once, and are no more than the headers |

## Left out

- DOM and SVG rendering are not modelled: `renderSpiral`, the modals, the legend, the event listeners and the arrow drawing. They are UI built on the d3 library.
- `generateDotData` is not modelled. It uses `Math.random`, square roots and trigonometry on floating point.
- The floating-point scales are not modelled: the radius, colour and time scales, including the timeline's `yScale`. The `Math.round` of legend extents is left out too.
- `d3.timeParse`, `Date.prototype.getDay` and `d3.timeDay.count` are library calls. Parsing is the parameter `parse`. Dates are local day numbers, so the day count is a difference of day numbers, and daylight-saving shifts are not modelled.
- `parseInt` on non-digit text (NaN) and negative cells are not modelled. A cell is empty or a non-negative count.
- JavaScript numbers are IEEE doubles, but counts and sums are modelled as exact `nat`. Cell values and column totals (`dayData.totalUsageSeconds += usageSeconds`) are assumed to stay below `Number.MAX_SAFE_INTEGER` (2^53 - 1). Above that, `parseInt` and the additions lose precision, and the model does not capture this.
- `formatTime` is modelled on non-negative integers only. Callers that pass rounded or fractional amounts are not modelled.
- The viewport height and the drag step `event.dy` are browser floats. They are modelled as integers.
- CSV loading (`d3.csv`), `main`'s error handling, resize debouncing with `setTimeout`, the `CustomEvent` bus and console logging are I/O and event plumbing, and are not modelled.
- `Array.prototype.sort` is modelled by the outcome the ECMAScript standard fixes: a stable sort by the comparator's numeric key. The engine's own algorithm is not modelled.
- Objects and arrays updated in place are modelled as values. This covers `dayData.totalUsageSeconds +=`, `apps.push`, the in-place `apps.sort` and the `weekNumber`/`dayIndex` assignments. The aggregates are not read after being copied, so the sharing between the map's objects and the returned records has no effect the model misses.
- The JavaScript `Map` is modelled as a Dafny `map` together with its sequence of keys in insertion order.
