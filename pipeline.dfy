/**
 * Steps 6 and after of `transformData` (main.js:94-142): each aggregate's
 * header is cleaned and parsed as a date, unparseable days are dropped, the
 * app lists are sorted by usage, the days are sorted by date, and every day is
 * given its position and week number.
 */
module Pipeline {
  import opened Wrappers
  import opened Sequences
  import opened StableSort
  import opened Dates
  import opened Aggregation

  /** A day whose header parsed: the aggregate plus `dateObj`, `cleanedDateString` and `dayOfWeek`. */
  datatype ParsedDay = ParsedDay(
    dateString: string,
    totalUsageSeconds: nat,
    apps: seq<AppUsage>,
    date: int,
    cleanedDateString: string,
    dayOfWeek: int)

  /** An element of the returned array: a parsed day with `weekNumber` and `dayIndex`. */
  datatype DayRecord = DayRecord(day: ParsedDay, weekNumber: int, dayIndex: nat)

  /** The comparator `(a, b) => b.usage - a.usage` orders by this key, ascending. */
  function UsageKey(a: AppUsage): int {
    -(a.usage as int)
  }

  /** The comparator `(a, b) => a.dateObj - b.dateObj` orders by this key, ascending. */
  function DateKey(d: ParsedDay): int {
    d.date
  }

  /** The `processedData.map` callback (main.js:97-115); `None` stands for its `null`. */
  function ParseDay(d: DayAggregate, parse: string -> Option<int>): (r: Option<ParsedDay>)
    ensures r.Some? <==> parse(Clean(d.dateString)).Some?
    ensures r.Some? ==> && r.value.dateString == d.dateString
                        && r.value.totalUsageSeconds == d.totalUsageSeconds
                        && r.value.cleanedDateString == Clean(d.dateString)
                        && parse(r.value.cleanedDateString) == Some(r.value.date)
                        && r.value.dayOfWeek == DayOfWeek(r.value.date)
                        && 0 <= r.value.dayOfWeek < 7
                        && multiset(r.value.apps) == multiset(d.apps)
                        && SortedBy(r.value.apps, UsageKey)
  {
    var cleaned := Clean(d.dateString);
    match parse(cleaned)
    case None => None
    case Some(date) =>
      Some(ParsedDay(d.dateString, d.totalUsageSeconds, SortBy(d.apps, UsageKey), date, cleaned, DayOfWeek(date)))
  }

  /** `processedData.map(...).filter(d => d !== null)`. */
  function ParseDays(values: seq<DayAggregate>, parse: string -> Option<int>): (r: seq<ParsedDay>)
    ensures |r| <= |values|
  {
    if values == [] then []
    else
      var init, last := values[..|values| - 1], values[|values| - 1];
      ParseDays(init, parse) + (match ParseDay(last, parse) case None => [] case Some(p) => [p])
  }

  /** The days that survive parsing, sorted by date (main.js:94-121). */
  function SortedDays(table: UsageTable, parse: string -> Option<int>): seq<ParsedDay> {
    SortBy(ParseDays(Aggregate(table), parse), DateKey)
  }

  /** The `forEach` of main.js:133-138 over date-sorted days: week number from the first day, and position. */
  function Indexed(sorted: seq<ParsedDay>): seq<DayRecord> {
    if sorted == [] then []
    else seq(|sorted|, i requires 0 <= i < |sorted| => DayRecord(sorted[i], WeekNumber(sorted[0].date, sorted[i].date), i))
  }

  /** What `transformData` returns for `table` when dates are read by `parse`. */
  function Transform(table: UsageTable, parse: string -> Option<int>): seq<DayRecord> {
    Indexed(SortedDays(table, parse))
  }

  /** The `map` and `filter` of main.js:97-118, over the aggregates in `dailyDataMap` order. */
  method ParseAll(values: seq<DayAggregate>, parse: string -> Option<int>) returns (processed: seq<ParsedDay>)
    ensures processed == ParseDays(values, parse)
  {
    processed := [];
    for t := 0 to |values|
      invariant processed == ParseDays(values[..t], parse)
    {
      assert values[..t + 1][..t] == values[..t];
      var parsed := ParseDay(values[t], parse);
      if parsed.Some? {
        processed := processed + [parsed.value];
      }
    }
    assert values[..|values|] == values;
  }

  /** The `forEach` of main.js:133-138 over non-empty date-sorted days. */
  method AssignIndices(sorted: seq<ParsedDay>) returns (days: seq<DayRecord>)
    requires sorted != []
    ensures days == Indexed(sorted)
  {
    var startDate := sorted[0].date;
    days := [];
    for index := 0 to |sorted|
      invariant |days| == index
      invariant forall k :: 0 <= k < index ==> days[k] == DayRecord(sorted[k], WeekNumber(startDate, sorted[k].date), k)
    {
      var weekNumber := WeekNumber(startDate, sorted[index].date);
      days := days + [DayRecord(sorted[index], weekNumber, index)];
    }
  }

  /** `transformData` (main.js:63-143). */
  method TransformData(table: UsageTable, parse: string -> Option<int>) returns (days: seq<DayRecord>)
    ensures days == Transform(table, parse)
  {
    var values := AggregateUsage(table);
    var processed := ParseAll(values, parse);
    processed := SortBy(processed, DateKey);
    if |processed| == 0 {
      return [];
    }
    days := AssignIndices(processed);
  }

  // ---------------------------------------------------------------------------
  // Order, positions and week numbers

  /**
   * Indexing date-sorted days keeps them in order, makes each `dayIndex` the
   * record's position, puts the first record in week 0, and gives week numbers
   * that never decrease and never go negative.
   */
  lemma IndexedOrder(sorted: seq<ParsedDay>)
    requires SortedBy(sorted, DateKey)
    ensures var out := Indexed(sorted);
            && |out| == |sorted|
            && (forall i :: 0 <= i < |out| ==> out[i].day == sorted[i] && out[i].dayIndex == i)
            && (forall i, j :: 0 <= i < j < |out| ==> out[i].day.date <= out[j].day.date)
            && (out != [] ==> out[0].weekNumber == 0)
            && (forall i, j :: 0 <= i < j < |out| ==> out[i].weekNumber <= out[j].weekNumber)
            && (forall i :: 0 <= i < |out| ==> out[i].weekNumber >= 0)
            && (forall i :: 0 <= i < |out| ==> out[i].weekNumber == WeekNumber(out[0].day.date, out[i].day.date))
  {
    var out := Indexed(sorted);
    if sorted != [] {
      forall i, j | 0 <= i < j < |out| ensures out[i].weekNumber <= out[j].weekNumber {
        WeekNumberMonotone(sorted[0].date, sorted[i].date, sorted[j].date);
      }
      forall i | 0 <= i < |out| ensures out[i].weekNumber >= 0 {
        if i > 0 {
          assert DateKey(sorted[0]) <= DateKey(sorted[i]);
        }
      }
    }
  }

  /**
   * The records come in date order, each `dayIndex` is the record's position,
   * the first record is in week 0, week numbers never decrease and never go
   * negative, and every `dayOfWeek` is the day of the week of the record's date.
   */
  lemma TransformOrder(table: UsageTable, parse: string -> Option<int>)
    ensures var out := Transform(table, parse);
            && |out| == |SortedDays(table, parse)|
            && (forall i :: 0 <= i < |out| ==> out[i].day == SortedDays(table, parse)[i] && out[i].dayIndex == i)
            && (forall i, j :: 0 <= i < j < |out| ==> out[i].day.date <= out[j].day.date)
            && (out != [] ==> out[0].weekNumber == 0)
            && (forall i, j :: 0 <= i < j < |out| ==> out[i].weekNumber <= out[j].weekNumber)
            && (forall i :: 0 <= i < |out| ==> out[i].weekNumber >= 0)
            && (forall i :: 0 <= i < |out| ==> out[i].weekNumber == WeekNumber(out[0].day.date, out[i].day.date))
            && (forall i :: 0 <= i < |out| ==> out[i].day.dayOfWeek == DayOfWeek(out[i].day.date))
  {
    var sorted := SortedDays(table, parse);
    IndexedOrder(sorted);
    forall i | 0 <= i < |sorted| ensures sorted[i].dayOfWeek == DayOfWeek(sorted[i].date) {
      assert sorted[i] in multiset(ParseDays(Aggregate(table), parse));
      ParsedDayWeekday(Aggregate(table), parse, sorted[i]);
    }
  }

  lemma {:induction false} ParsedDayWeekday(values: seq<DayAggregate>, parse: string -> Option<int>, d: ParsedDay)
    requires d in ParseDays(values, parse)
    ensures d.dayOfWeek == DayOfWeek(d.date) && d.cleanedDateString == Clean(d.dateString)
    decreases |values|
  {
    var init := values[..|values| - 1];
    if d in ParseDays(init, parse) {
      ParsedDayWeekday(init, parse, d);
    }
  }

  // ---------------------------------------------------------------------------
  // Which days survive

  /** The `dailyDataMap` keys whose cleaned header parses, in order. */
  function ParsableKeys(keys: seq<string>, parse: string -> Option<int>): (r: seq<string>)
    ensures |r| <= |keys|
    ensures forall k :: k in r <==> k in keys && parse(Clean(k)).Some?
  {
    if keys == [] then []
    else
      var init, last := keys[..|keys| - 1], keys[|keys| - 1];
      assert keys == init + [last];
      ParsableKeys(init, parse) + (if parse(Clean(last)).Some? then [last] else [])
  }

  lemma {:induction false} ParseDaysOfKeysCount(rows: seq<UsageRow>, dateColumns: seq<string>, keys: seq<string>,
                                               parse: string -> Option<int>)
    ensures |ParseDays(DaysFor(rows, dateColumns, keys), parse)| == |ParsableKeys(keys, parse)|
    decreases |keys|
  {
    if keys != [] {
      var values := DaysFor(rows, dateColumns, keys);
      assert values[..|values| - 1] == DaysFor(rows, dateColumns, keys[..|keys| - 1]);
      ParseDaysOfKeysCount(rows, dateColumns, keys[..|keys| - 1], parse);
    }
  }

  /** A parsed day comes from exactly one key: the one it is named after, whose aggregate it parses. */
  lemma {:induction false} ParseDaysOfKeysMembers(rows: seq<UsageRow>, dateColumns: seq<string>, keys: seq<string>,
                                                 parse: string -> Option<int>)
    ensures forall d :: d in ParseDays(DaysFor(rows, dateColumns, keys), parse) <==>
                          d.dateString in keys && ParseDay(DayFor(rows, dateColumns, d.dateString), parse) == Some(d)
    decreases |keys|
  {
    if keys != [] {
      var init, last := keys[..|keys| - 1], keys[|keys| - 1];
      var values := DaysFor(rows, dateColumns, keys);
      assert values[..|values| - 1] == DaysFor(rows, dateColumns, init);
      assert keys == init + [last];
      ParseDaysOfKeysMembers(rows, dateColumns, init, parse);
    }
  }

  /** Distinct keys give days with distinct names. */
  lemma {:induction false} ParseDaysOfKeysDistinct(rows: seq<UsageRow>, dateColumns: seq<string>, keys: seq<string>,
                                                  parse: string -> Option<int>)
    requires NoDuplicates(keys)
    ensures NoDuplicates(DateStrings(ParseDays(DaysFor(rows, dateColumns, keys), parse)))
    decreases |keys|
  {
    if keys != [] {
      var init, last := keys[..|keys| - 1], keys[|keys| - 1];
      var values := DaysFor(rows, dateColumns, keys);
      var before := ParseDays(DaysFor(rows, dateColumns, init), parse);
      assert values[..|values| - 1] == DaysFor(rows, dateColumns, init);
      assert NoDuplicates(init);
      ParseDaysOfKeysDistinct(rows, dateColumns, init, parse);
      ParseDaysOfKeysMembers(rows, dateColumns, init, parse);
      assert last !in init;
      forall i | 0 <= i < |before| ensures before[i].dateString != last {
        assert before[i] in before;
      }
      AppendFreshName(before, ParseDays(DaysFor(rows, dateColumns, keys), parse), last);
    }
  }

  /** The raw headers of a sequence of days. */
  function DateStrings(days: seq<ParsedDay>): (r: seq<string>)
    ensures |r| == |days|
    ensures forall i :: 0 <= i < |days| ==> r[i] == days[i].dateString
  {
    seq(|days|, i requires 0 <= i < |days| => days[i].dateString)
  }

  lemma AppendFreshName(before: seq<ParsedDay>, after: seq<ParsedDay>, name: string)
    requires NoDuplicates(DateStrings(before))
    requires forall i :: 0 <= i < |before| ==> before[i].dateString != name
    requires after == before || (|after| == |before| + 1 && after[..|before|] == before && after[|before|].dateString == name)
    ensures NoDuplicates(DateStrings(after))
  {
    if after != before {
      forall i, j | 0 <= i < j < |after| ensures after[i].dateString != after[j].dateString {
        assert after[i] == before[i];
        if j < |before| {
          assert after[j] == before[j];
          assert DateStrings(before)[i] != DateStrings(before)[j];
        }
      }
    }
  }

  /** The number of records is the number of `dailyDataMap` keys whose cleaned header parses; none at all gives `[]`. */
  lemma TransformCount(table: UsageTable, parse: string -> Option<int>)
    ensures |Transform(table, parse)| == |ParsableKeys(MapKeys(table), parse)|
    ensures Transform(table, parse) == [] <==> ParsableKeys(MapKeys(table), parse) == []
  {
    ParseDaysOfKeysCount(table.rows, DateColumns(table.columns), MapKeys(table), parse);
    TransformOrder(table, parse);
  }

  /**
   * The days are exactly the parsed aggregates of the `dailyDataMap` keys whose
   * cleaned header parses, one per key: every day is named after a key and is
   * that key's parsed aggregate, and every parsable key has its day.
   */
  lemma TransformDays(table: UsageTable, parse: string -> Option<int>)
    ensures var dateColumns := DateColumns(table.columns);
            forall d :: d in SortedDays(table, parse) <==>
              d.dateString in MapKeys(table) && ParseDay(DayFor(table.rows, dateColumns, d.dateString), parse) == Some(d)
    ensures forall k :: k in MapKeys(table) && parse(Clean(k)).Some? ==>
              ParseDay(DayFor(table.rows, DateColumns(table.columns), k), parse).value in SortedDays(table, parse)
  {
    var dateColumns := DateColumns(table.columns);
    var parsed := ParseDays(Aggregate(table), parse);
    ParseDaysOfKeysMembers(table.rows, dateColumns, MapKeys(table), parse);
    forall d ensures d in SortedDays(table, parse) <==> d in parsed {
      assert d in SortedDays(table, parse) <==> d in multiset(SortedDays(table, parse));
    }
    forall k | k in MapKeys(table) && parse(Clean(k)).Some?
      ensures ParseDay(DayFor(table.rows, dateColumns, k), parse).value in SortedDays(table, parse)
    {
      var d := ParseDay(DayFor(table.rows, dateColumns, k), parse).value;
      assert d.dateString == k;
    }
  }

  /** No two records share a raw header. */
  lemma TransformDistinctHeaders(table: UsageTable, parse: string -> Option<int>)
    ensures var out := Transform(table, parse);
            forall i, j :: 0 <= i < j < |out| ==> out[i].day.dateString != out[j].day.dateString
  {
    var dateColumns := DateColumns(table.columns);
    var parsed := ParseDays(Aggregate(table), parse);
    var sorted := SortedDays(table, parse);
    var keys := MapKeys(table);
    DistinctElements(dateColumns);
    assert NoDuplicates(keys);
    ParseDaysOfKeysDistinct(table.rows, dateColumns, keys, parse);
    NoDuplicatesPermutation(parsed, sorted);
    TransformDays(table, parse);
    TransformOrder(table, parse);
    forall i, j | 0 <= i < j < |sorted| ensures sorted[i].dateString != sorted[j].dateString {
      assert sorted[i] in sorted && sorted[j] in sorted;
    }
  }

  /**
   * Records are keyed by the raw header and cleaned only afterwards: when a
   * table has rows and both `key` and `key.suffix` among its date columns,
   * and `key` parses, the two headers give two different records with the
   * same date.
   */
  lemma SuffixedColumnsGiveSeparateRecords(table: UsageTable, parse: string -> Option<int>, key: string, suffix: string)
    requires table.rows != []
    requires '.' !in key
    requires key in table.columns && IsDateColumn(key)
    requires key + "." + suffix in table.columns && IsDateColumn(key + "." + suffix)
    requires parse(key).Some?
    ensures var dateColumns := DateColumns(table.columns);
            var plain := ParseDay(DayFor(table.rows, dateColumns, key), parse);
            var suffixed := ParseDay(DayFor(table.rows, dateColumns, key + "." + suffix), parse);
            && plain.Some? && suffixed.Some?
            && plain.value in SortedDays(table, parse)
            && suffixed.value in SortedDays(table, parse)
            && plain.value != suffixed.value
            && plain.value.date == suffixed.value.date
  {
    var dateColumns := DateColumns(table.columns);
    CleanDropsSuffix(key, suffix);
    assert key in dateColumns && key + "." + suffix in dateColumns;
    DistinctElements(dateColumns);
    TransformDays(table, parse);
    assert (key + "." + suffix)[|key|] == '.';
  }

  // ---------------------------------------------------------------------------
  // The contents of one day

  lemma {:induction false} SumUsageInsert(x: AppUsage, s: seq<AppUsage>)
    ensures SumUsage(Insert(x, s, UsageKey)) == SumUsage(s) + x.usage
    decreases |s|
  {
    if s != [] {
      SumUsageAppend([x], s);
      assert SumUsage([x]) == x.usage by {
        assert [x][..0] == [];
      }
      SumUsageAppend([s[0]], s[1..]);
      assert SumUsage([s[0]]) == s[0].usage by {
        assert [s[0]][..0] == [];
      }
      assert s == [s[0]] + s[1..];
      if UsageKey(x) >= UsageKey(s[0]) {
        SumUsageInsert(x, s[1..]);
        SumUsageAppend([s[0]], Insert(x, s[1..], UsageKey));
      }
    } else {
      assert [x][..0] == [];
    }
  }

  /** Sorting an app list does not change its total. */
  lemma {:induction false} SumUsageSorted(s: seq<AppUsage>)
    ensures SumUsage(SortBy(s, UsageKey)) == SumUsage(s)
    decreases |s|
  {
    if s != [] {
      var init := s[..|s| - 1];
      SumUsageSorted(init);
      SumUsageInsert(s[|s| - 1], SortBy(init, UsageKey));
    }
  }

  /**
   * Each day reads its header `copies >= 1` times per row (once when the
   * header line has no repeated header): its total is `copies` times the sum
   * of the column, which is also the sum of its app list; the app list holds
   * `copies` entries per row with positive usage, all positive, sorted by
   * usage with the largest first, and equal usages keep their row order.
   */
  lemma DayContents(table: UsageTable, parse: string -> Option<int>, d: ParsedDay)
    requires d in SortedDays(table, parse)
    ensures var dateColumns := DateColumns(table.columns);
            var copies := multiset(dateColumns)[d.dateString];
            var collected := ColumnApps(table.rows, d.dateString, copies);
            && copies >= 1
            && d.totalUsageSeconds == copies * ColumnTotal(table.rows, d.dateString)
            && d.totalUsageSeconds == SumUsage(d.apps)
            && |d.apps| == copies * PositiveRows(table.rows, d.dateString)
            && (forall i :: 0 <= i < |d.apps| ==> d.apps[i].usage > 0)
            && (forall i, j :: 0 <= i < j < |d.apps| ==> d.apps[i].usage >= d.apps[j].usage)
            && multiset(d.apps) == multiset(collected)
            && (forall v :: KeyFilter(d.apps, UsageKey, v) == KeyFilter(collected, UsageKey, v))
  {
    var dateColumns := DateColumns(table.columns);
    var key := d.dateString;
    var copies := multiset(dateColumns)[key];
    var collected := ColumnApps(table.rows, key, copies);
    TransformDays(table, parse);
    assert key in MapKeys(table);
    DistinctElements(dateColumns);
    assert key in dateColumns;
    assert d.apps == SortBy(collected, UsageKey);
    ColumnAppsLength(table.rows, key, copies);
    ColumnAppsPositive(table.rows, key, copies);
    ColumnAppsSum(table.rows, key, copies);
    SumUsageSorted(collected);
    forall i | 0 <= i < |d.apps| ensures d.apps[i].usage > 0 {
      assert d.apps[i] in multiset(collected);
    }
    forall v ensures KeyFilter(d.apps, UsageKey, v) == KeyFilter(collected, UsageKey, v) {
      SortByIsStable(collected, UsageKey, v);
    }
  }

  /** Without repeated headers in the header line, every day reads its column exactly once. */
  lemma DistinctHeadersReadOnce(table: UsageTable, key: string)
    requires NoDuplicates(table.columns)
    requires key in MapKeys(table)
    ensures multiset(DateColumns(table.columns))[key] == 1
  {
    NoDuplicatesIffSingleCounts(table.columns);
    DistinctElements(DateColumns(table.columns));
    assert key in DateColumns(table.columns);
  }

  /** Days with the same date stay in the order of their headers' first occurrence. */
  lemma SameDateKeepsHeaderOrder(table: UsageTable, parse: string -> Option<int>, date: int)
    ensures KeyFilter(SortedDays(table, parse), DateKey, date) == KeyFilter(ParseDays(Aggregate(table), parse), DateKey, date)
  {
    SortByIsStable(ParseDays(Aggregate(table), parse), DateKey, date);
  }
}
