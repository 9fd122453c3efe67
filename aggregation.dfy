/**
 * Steps 1-5 of `transformData` (main.js:63-92): the wide usage table, one row
 * per app and device and one column per date, is folded into one aggregate per
 * date column, keyed by the column's raw header.
 */
module Aggregation {
  import opened Wrappers
  import opened Sequences

  const AppNameColumn := "App name"
  const DeviceColumn := "Device"
  const TotalColumn := "Total Usage (seconds)"

  /**
   * A row of the usage table: the app's name and the row's cells by column
   * header. A cell is a count of seconds or empty; a header the row lacks reads
   * as empty too.
   */
  datatype UsageRow = UsageRow(appName: string, cells: map<string, Option<nat>>)

  /** The parsed table: its header line (`rawData.columns`) and its rows. */
  datatype UsageTable = UsageTable(columns: seq<string>, rows: seq<UsageRow>)

  datatype AppUsage = AppUsage(name: string, usage: nat)

  /** A value of `dailyDataMap`. */
  datatype DayAggregate = DayAggregate(dateString: string, totalUsageSeconds: nat, apps: seq<AppUsage>)

  predicate IsDateColumn(column: string) {
    column != AppNameColumn && column != DeviceColumn && column != TotalColumn
  }

  /** `rawData.columns.filter(...)`: every header except the three non-date ones, in order, repeats kept. */
  function DateColumns(columns: seq<string>): (r: seq<string>)
    ensures forall c :: c in r <==> c in columns && IsDateColumn(c)
    ensures forall c :: IsDateColumn(c) ==> multiset(r)[c] == multiset(columns)[c]
  {
    if columns == [] then []
    else
      var init, last := columns[..|columns| - 1], columns[|columns| - 1];
      assert columns == init + [last];
      DateColumns(init) + (if IsDateColumn(last) then [last] else [])
  }

  /** `parseInt(appRow[dateStr] || 0, 10)`: a missing or empty cell counts as 0 seconds. */
  function Usage(row: UsageRow, column: string): (seconds: nat)
    ensures column !in row.cells || row.cells[column] == None ==> seconds == 0
    ensures column in row.cells && row.cells[column].Some? ==> seconds == row.cells[column].value
  {
    if column in row.cells && row.cells[column].Some? then row.cells[column].value else 0
  }

  /** The column's usage summed over the rows. */
  function ColumnTotal(rows: seq<UsageRow>, column: string): nat {
    if rows == [] then 0 else ColumnTotal(rows[..|rows| - 1], column) + Usage(rows[|rows| - 1], column)
  }

  /** What one row adds to a column's app list when the column is read `copies` times. */
  function RowEntries(row: UsageRow, column: string, copies: nat): seq<AppUsage> {
    if Usage(row, column) > 0 then Repeat(AppUsage(row.appName, Usage(row, column)), copies) else []
  }

  /** The app list a column collects over the rows, each row read `copies` times. */
  function ColumnApps(rows: seq<UsageRow>, column: string, copies: nat): seq<AppUsage> {
    if rows == [] then [] else ColumnApps(rows[..|rows| - 1], column, copies) + RowEntries(rows[|rows| - 1], column, copies)
  }

  /** The usage summed over an app list. */
  function SumUsage(apps: seq<AppUsage>): nat {
    if apps == [] then 0 else SumUsage(apps[..|apps| - 1]) + apps[|apps| - 1].usage
  }

  lemma {:induction false} SumUsageAppend(a: seq<AppUsage>, b: seq<AppUsage>)
    ensures SumUsage(a + b) == SumUsage(a) + SumUsage(b)
    decreases |b|
  {
    if b == [] {
      assert a + b == a;
    } else {
      var init, last := b[..|b| - 1], b[|b| - 1];
      assert (a + b)[..|a + b| - 1] == a + init;
      SumUsageAppend(a, init);
    }
  }

  lemma SumUsageSnoc(apps: seq<AppUsage>, a: AppUsage)
    ensures SumUsage(apps + [a]) == SumUsage(apps) + a.usage
  {
    assert (apps + [a])[..|apps|] == apps;
  }

  lemma {:induction false} SumUsageRepeat(x: AppUsage, n: nat)
    ensures SumUsage(Repeat(x, n)) == n * x.usage
  {
    if n > 0 {
      calc {
        SumUsage(Repeat(x, n));
      == { SumUsageSnoc(Repeat(x, n - 1), x); }
        SumUsage(Repeat(x, n - 1)) + x.usage;
      == { SumUsageRepeat(x, n - 1); }
        (n - 1) * x.usage + x.usage;
      == { MulPred(n, x.usage); }
        n * x.usage;
      }
    }
  }

  /** The number of rows with positive usage in `column`. */
  function PositiveRows(rows: seq<UsageRow>, column: string): nat {
    if rows == [] then 0
    else PositiveRows(rows[..|rows| - 1], column) + (if Usage(rows[|rows| - 1], column) > 0 then 1 else 0)
  }

  lemma MulDistributes(c: int, a: int, b: int)
    ensures c * (a + b) == c * a + c * b
  {
  }

  lemma MulSucc(a: int, b: int)
    ensures (a + 1) * b == a * b + b
  {
  }

  lemma MulPred(a: int, b: int)
    ensures (a - 1) * b + b == a * b
  {
  }

  /** A column's app list has `copies` entries for each row with positive usage and none for the others. */
  lemma {:induction false} ColumnAppsLength(rows: seq<UsageRow>, column: string, copies: nat)
    ensures |ColumnApps(rows, column, copies)| == copies * PositiveRows(rows, column)
    decreases |rows|
  {
    if rows != [] {
      var init := rows[..|rows| - 1];
      var n := PositiveRows(init, column);
      ColumnAppsLength(init, column, copies);
      if Usage(rows[|rows| - 1], column) > 0 {
        MulDistributes(copies, n, 1);
      }
    }
  }

  /** Every entry of a column's app list has positive usage. */
  lemma {:induction false} ColumnAppsPositive(rows: seq<UsageRow>, column: string, copies: nat)
    ensures forall i :: 0 <= i < |ColumnApps(rows, column, copies)| ==> ColumnApps(rows, column, copies)[i].usage > 0
    decreases |rows|
  {
    if rows != [] {
      var init, last := rows[..|rows| - 1], rows[|rows| - 1];
      var before: seq<AppUsage>, entries: seq<AppUsage> := ColumnApps(init, column, copies), RowEntries(last, column, copies);
      ColumnAppsPositive(init, column, copies);
      forall i | 0 <= i < |before + entries| ensures (before + entries)[i].usage > 0 {
        if i >= |before| {
          assert (before + entries)[i] == entries[i - |before|];
        }
      }
    }
  }

  /** A column's app entries add up to `copies` times the column's total: a zero cell adds nothing to either. */
  lemma {:induction false} ColumnAppsSum(rows: seq<UsageRow>, column: string, copies: nat)
    ensures SumUsage(ColumnApps(rows, column, copies)) == copies * ColumnTotal(rows, column)
    decreases |rows|
  {
    if rows != [] {
      var init, last := rows[..|rows| - 1], rows[|rows| - 1];
      var before: seq<AppUsage>, entries: seq<AppUsage> := ColumnApps(init, column, copies), RowEntries(last, column, copies);
      var total, usage := ColumnTotal(init, column), Usage(last, column);
      assert SumUsage(entries) == copies * usage by {
        if usage > 0 {
          SumUsageRepeat(AppUsage(last.appName, usage), copies);
        }
      }
      calc {
        SumUsage(ColumnApps(rows, column, copies));
        SumUsage(before + entries);
      == { SumUsageAppend(before, entries); }
        SumUsage(before) + SumUsage(entries);
      == { ColumnAppsSum(init, column, copies); }
        copies * total + copies * usage;
      == { MulDistributes(copies, total, usage); }
        copies * (total + usage);
        copies * ColumnTotal(rows, column);
      }
    }
  }

  /**
   * The aggregate for `key` after all `rows`. The inner loop runs over the date
   * columns, so a header that occurs `copies` times among them is read that many
   * times per row (once, for a header line without repeats).
   */
  function DayFor(rows: seq<UsageRow>, dateColumns: seq<string>, key: string): DayAggregate {
    var copies := multiset(dateColumns)[key];
    DayAggregate(key, copies * ColumnTotal(rows, key), ColumnApps(rows, key, copies))
  }

  /** The aggregates of `keys`, in that order. */
  function DaysFor(rows: seq<UsageRow>, dateColumns: seq<string>, keys: seq<string>): (r: seq<DayAggregate>)
    ensures |r| == |keys|
  {
    if keys == [] then []
    else DaysFor(rows, dateColumns, keys[..|keys| - 1]) + [DayFor(rows, dateColumns, keys[|keys| - 1])]
  }

  lemma DaysForStep(rows: seq<UsageRow>, dateColumns: seq<string>, keys: seq<string>, t: nat)
    requires t < |keys|
    ensures DaysFor(rows, dateColumns, keys[..t + 1]) == DaysFor(rows, dateColumns, keys[..t]) + [DayFor(rows, dateColumns, keys[t])]
  {
    assert keys[..t + 1][..t] == keys[..t];
  }

  /** The keys of `dailyDataMap` in insertion order: none without rows, else each date column at its first occurrence. */
  function MapKeys(table: UsageTable): seq<string> {
    if table.rows == [] then [] else Distinct(DateColumns(table.columns))
  }

  /** `Array.from(dailyDataMap.values())` once every row has been read. */
  function Aggregate(table: UsageTable): seq<DayAggregate> {
    DaysFor(table.rows, DateColumns(table.columns), MapKeys(table))
  }

  /** The aggregate for `key` part-way through row `row`, after the first `j` date columns. */
  function PartialDay(done: seq<UsageRow>, row: UsageRow, dateColumns: seq<string>, j: nat, key: string): DayAggregate
    requires j <= |dateColumns|
  {
    var copies := multiset(dateColumns)[key];
    var seen := multiset(dateColumns[..j])[key];
    DayAggregate(key, copies * ColumnTotal(done, key) + seen * Usage(row, key),
                 ColumnApps(done, key, copies) + RowEntries(row, key, seen))
  }

  /** Reading the first `j` date columns of a row from a state that has read none of them. */
  lemma PartialDayStart(done: seq<UsageRow>, row: UsageRow, dateColumns: seq<string>, key: string)
    ensures PartialDay(done, row, dateColumns, 0, key) == DayFor(done, dateColumns, key)
  {
    assert dateColumns[..0] == [];
    assert RowEntries(row, key, 0) == [];
    assert ColumnApps(done, key, multiset(dateColumns)[key]) + [] == ColumnApps(done, key, multiset(dateColumns)[key]);
  }

  /** Once every date column of the row has been read, the row counts as done. */
  lemma PartialDayEnd(rows: seq<UsageRow>, i: nat, dateColumns: seq<string>, key: string)
    requires i < |rows|
    ensures PartialDay(rows[..i], rows[i], dateColumns, |dateColumns|, key) == DayFor(rows[..i + 1], dateColumns, key)
  {
    var copies := multiset(dateColumns)[key];
    var done, row := rows[..i], rows[i];
    assert dateColumns[..|dateColumns|] == dateColumns;
    assert rows[..i + 1][..i] == done;
    assert ColumnTotal(rows[..i + 1], key) == ColumnTotal(done, key) + Usage(row, key);
    MulDistributes(copies, ColumnTotal(done, key), Usage(row, key));
  }

  lemma SeenStep(dateColumns: seq<string>, j: nat, key: string)
    requires j < |dateColumns|
    ensures multiset(dateColumns[..j + 1])[key] == multiset(dateColumns[..j])[key] + (if key == dateColumns[j] then 1 else 0)
  {
    assert dateColumns[..j + 1] == dateColumns[..j] + [dateColumns[j]];
  }

  lemma AppendSnoc<T>(a: seq<T>, b: seq<T>, x: T)
    ensures a + (b + [x]) == (a + b) + [x]
  {
  }

  /** Reading date column `j` changes only the aggregate of that column's header. */
  lemma PartialDayStep(done: seq<UsageRow>, row: UsageRow, dateColumns: seq<string>, j: nat, key: string)
    requires j < |dateColumns|
    ensures var before := PartialDay(done, row, dateColumns, j, key);
            var after := PartialDay(done, row, dateColumns, j + 1, key);
            var usage := Usage(row, key);
            if key == dateColumns[j] then
              after == DayAggregate(key, before.totalUsageSeconds + usage,
                                    if usage > 0 then before.apps + [AppUsage(row.appName, usage)] else before.apps)
            else after == before
  {
    SeenStep(dateColumns, j, key);
    if key == dateColumns[j] {
      var seen, usage := multiset(dateColumns[..j])[key], Usage(row, key);
      MulSucc(seen, usage);
      if usage > 0 {
        var x := AppUsage(row.appName, usage);
        AppendSnoc(ColumnApps(done, key, multiset(dateColumns)[key]), Repeat(x, seen), x);
      }
    }
  }

  /** On the first row, a header not read yet has the empty aggregate `{dateString, 0, []}`. */
  lemma PartialDayFresh(row: UsageRow, dateColumns: seq<string>, j: nat, key: string)
    requires j <= |dateColumns| && key !in dateColumns[..j]
    ensures PartialDay([], row, dateColumns, j, key) == DayAggregate(key, 0, [])
  {
    assert multiset(dateColumns[..j])[key] == 0;
  }

  lemma DistinctPrefixStep(s: seq<string>, j: nat)
    requires j < |s|
    ensures Distinct(s[..j + 1]) == Distinct(s[..j]) + (if s[j] in s[..j] then [] else [s[j]])
  {
    assert s[..j + 1][..j] == s[..j];
  }

  /** A header missing from `dailyDataMap` can only be met on the first row, before its first occurrence. */
  lemma FreshOnlyOnFirstRow(keys: seq<string>, done: seq<UsageRow>, dateColumns: seq<string>, j: nat)
    requires j < |dateColumns|
    requires keys == Distinct(if |done| == 0 then dateColumns[..j] else dateColumns)
    ensures dateColumns[j] !in keys ==> |done| == 0 && dateColumns[j] !in dateColumns[..j]
  {
    DistinctElements(dateColumns);
    DistinctElements(dateColumns[..j]);
    assert dateColumns[j] in dateColumns;
  }

  /** `dailyDataMap.set(dateStr, {dateString: dateStr, totalUsageSeconds: 0, apps: []})` for a header not seen yet. */
  lemma FreshDayReady(dailyData: map<string, DayAggregate>, keys: seq<string>,
                      done: seq<UsageRow>, row: UsageRow, dateColumns: seq<string>, j: nat)
    requires j < |dateColumns|
    requires keys == Distinct(if |done| == 0 then dateColumns[..j] else dateColumns)
    requires forall k :: k in dailyData <==> k in keys
    requires forall k :: k in dailyData ==> dailyData[k] == PartialDay(done, row, dateColumns, j, k)
    requires dateColumns[j] !in dailyData
    ensures |done| == 0
    ensures keys + [dateColumns[j]] == Distinct(dateColumns[..j + 1])
    ensures var grown := dailyData[dateColumns[j] := DayAggregate(dateColumns[j], 0, [])];
            forall k :: k in grown ==> grown[k] == PartialDay(done, row, dateColumns, j, k)
  {
    var key := dateColumns[j];
    FreshOnlyOnFirstRow(keys, done, dateColumns, j);
    DistinctPrefixStep(dateColumns, j);
    var grown := dailyData[key := DayAggregate(key, 0, [])];
    forall k | k in grown ensures grown[k] == PartialDay(done, row, dateColumns, j, k) {
      if k == key {
        PartialDayFresh(row, dateColumns, j, key);
      }
    }
  }

  /** A header already in `dailyDataMap` is left as it is, and its key is already recorded. */
  lemma KnownDayReady(keys: seq<string>, done: seq<UsageRow>, dateColumns: seq<string>, j: nat)
    requires j < |dateColumns|
    requires keys == Distinct(if |done| == 0 then dateColumns[..j] else dateColumns)
    requires dateColumns[j] in keys
    ensures keys == Distinct(if |done| == 0 then dateColumns[..j + 1] else dateColumns)
  {
    if |done| == 0 {
      DistinctElements(dateColumns[..j]);
      DistinctPrefixStep(dateColumns, j);
    }
  }

  /** Writing back the updated aggregate of column `j` moves every aggregate from `j` columns read to `j + 1`. */
  lemma CellUpdated(dailyData: map<string, DayAggregate>, done: seq<UsageRow>, row: UsageRow,
                    dateColumns: seq<string>, j: nat, day: DayAggregate)
    requires j < |dateColumns| && dateColumns[j] in dailyData
    requires forall k :: k in dailyData ==> dailyData[k] == PartialDay(done, row, dateColumns, j, k)
    requires var before, usage := dailyData[dateColumns[j]], Usage(row, dateColumns[j]);
             && day.dateString == before.dateString
             && day.totalUsageSeconds == before.totalUsageSeconds + usage
             && day.apps == if usage > 0 then before.apps + [AppUsage(row.appName, usage)] else before.apps
    ensures forall k :: k in dailyData ==> dailyData[dateColumns[j] := day][k] == PartialDay(done, row, dateColumns, j + 1, k)
  {
    forall k | k in dailyData ensures dailyData[dateColumns[j] := day][k] == PartialDay(done, row, dateColumns, j + 1, k) {
      PartialDayStep(done, row, dateColumns, j, k);
    }
  }

  /** The callback ends with every aggregate at `j + 1` columns read. */
  lemma CellDone(dailyData: map<string, DayAggregate>, keys: seq<string>,
                 done: seq<UsageRow>, row: UsageRow, dateColumns: seq<string>, j: nat, day: DayAggregate)
    requires j < |dateColumns|
    requires keys == Distinct(if |done| == 0 then dateColumns[..j + 1] else dateColumns)
    requires forall k :: k in dailyData <==> k in keys
    requires forall k :: k in dailyData ==> dailyData[k] == PartialDay(done, row, dateColumns, j, k)
    requires dateColumns[j] in dailyData
    requires var before, usage := dailyData[dateColumns[j]], Usage(row, dateColumns[j]);
             && day.dateString == before.dateString
             && day.totalUsageSeconds == before.totalUsageSeconds + usage
             && day.apps == if usage > 0 then before.apps + [AppUsage(row.appName, usage)] else before.apps
    ensures keys == Distinct(if |done| == 0 then dateColumns[..j + 1] else dateColumns)
    ensures forall k :: k in dailyData[dateColumns[j] := day] <==> k in keys
    ensures forall k :: k in dailyData ==> dailyData[dateColumns[j] := day][k] == PartialDay(done, row, dateColumns, j + 1, k)
  {
    var after := dailyData[dateColumns[j] := day];
    CellUpdated(dailyData, done, row, dateColumns, j, day);
    assert forall k :: k in after <==> k in dailyData;
  }

  /** The inner `forEach` callback (main.js:72-87) for date column `j` of `row`, after the rows `done`. */
  method ReadCell(dailyData: map<string, DayAggregate>, keys: seq<string>,
                  done: seq<UsageRow>, row: UsageRow, dateColumns: seq<string>, j: nat)
    returns (dailyData': map<string, DayAggregate>, keys': seq<string>)
    requires j < |dateColumns|
    requires keys == Distinct(if |done| == 0 then dateColumns[..j] else dateColumns)
    requires forall k :: k in dailyData <==> k in keys
    requires forall k :: k in dailyData ==> dailyData[k] == PartialDay(done, row, dateColumns, j, k)
    ensures keys' == Distinct(if |done| == 0 then dateColumns[..j + 1] else dateColumns)
    ensures forall k :: k in dailyData' <==> k in keys'
    ensures forall k :: k in dailyData' ==> dailyData'[k] == PartialDay(done, row, dateColumns, j + 1, k)
  {
    var dateStr := dateColumns[j];
    var usageSeconds := Usage(row, dateStr);
    dailyData', keys' := dailyData, keys;
    if dateStr !in dailyData' {
      FreshDayReady(dailyData', keys', done, row, dateColumns, j);
      dailyData' := dailyData'[dateStr := DayAggregate(dateStr, 0, [])];
      keys' := keys' + [dateStr];
    } else {
      KnownDayReady(keys', done, dateColumns, j);
    }
    var day := dailyData'[dateStr];
    day := day.(totalUsageSeconds := day.totalUsageSeconds + usageSeconds);
    if usageSeconds > 0 {
      day := day.(apps := day.apps + [AppUsage(row.appName, usageSeconds)]);
    }
    CellDone(dailyData', keys', done, row, dateColumns, j, day);
    dailyData' := dailyData'[dateStr := day];
  }

  /** Before the row's first date column, every aggregate is the one after the previous rows. */
  lemma RowStart(dailyData: map<string, DayAggregate>, done: seq<UsageRow>, row: UsageRow, dateColumns: seq<string>)
    requires forall k :: k in dailyData ==> dailyData[k] == DayFor(done, dateColumns, k)
    ensures forall k :: k in dailyData ==> dailyData[k] == PartialDay(done, row, dateColumns, 0, k)
  {
    forall k | k in dailyData ensures dailyData[k] == PartialDay(done, row, dateColumns, 0, k) {
      PartialDayStart(done, row, dateColumns, k);
    }
  }

  /** After the row's last date column, every aggregate is the one after this row too. */
  lemma RowEnd(dailyData: map<string, DayAggregate>, rows: seq<UsageRow>, i: nat, dateColumns: seq<string>)
    requires i < |rows|
    requires forall k :: k in dailyData ==> dailyData[k] == PartialDay(rows[..i], rows[i], dateColumns, |dateColumns|, k)
    ensures forall k :: k in dailyData ==> dailyData[k] == DayFor(rows[..i + 1], dateColumns, k)
  {
    forall k | k in dailyData ensures dailyData[k] == DayFor(rows[..i + 1], dateColumns, k) {
      PartialDayEnd(rows, i, dateColumns, k);
    }
  }

  /** The inner `dateColumns.forEach` (main.js:72-87) over `row`, after the rows `done`. */
  method ReadCells(dailyData: map<string, DayAggregate>, keys: seq<string>,
                   done: seq<UsageRow>, row: UsageRow, dateColumns: seq<string>)
    returns (dailyData': map<string, DayAggregate>, keys': seq<string>)
    requires keys == if |done| == 0 then [] else Distinct(dateColumns)
    requires forall k :: k in dailyData <==> k in keys
    requires forall k :: k in dailyData ==> dailyData[k] == PartialDay(done, row, dateColumns, 0, k)
    ensures keys' == Distinct(dateColumns)
    ensures forall k :: k in dailyData' <==> k in keys'
    ensures forall k :: k in dailyData' ==> dailyData'[k] == PartialDay(done, row, dateColumns, |dateColumns|, k)
  {
    dailyData', keys' := dailyData, keys;
    assert dateColumns[..0] == [];
    for j := 0 to |dateColumns|
      invariant |done| == 0 ==> keys' == Distinct(dateColumns[..j])
      invariant |done| != 0 ==> keys' == Distinct(dateColumns)
      invariant forall k :: k in dailyData' <==> k in keys'
      invariant forall k :: k in dailyData' ==> dailyData'[k] == PartialDay(done, row, dateColumns, j, k)
    {
      dailyData', keys' := ReadCell(dailyData', keys', done, row, dateColumns, j);
    }
    assert dateColumns[..|dateColumns|] == dateColumns;
  }

  /** One iteration of `rawData.forEach` (main.js:69-89): row `i` read into `dailyDataMap`. */
  method ReadRow(dailyData: map<string, DayAggregate>, keys: seq<string>,
                 rows: seq<UsageRow>, i: nat, dateColumns: seq<string>)
    returns (dailyData': map<string, DayAggregate>, keys': seq<string>)
    requires i < |rows|
    requires keys == if i == 0 then [] else Distinct(dateColumns)
    requires forall k :: k in dailyData <==> k in keys
    requires forall k :: k in dailyData ==> dailyData[k] == DayFor(rows[..i], dateColumns, k)
    ensures keys' == Distinct(dateColumns)
    ensures forall k :: k in dailyData' <==> k in keys'
    ensures forall k :: k in dailyData' ==> dailyData'[k] == DayFor(rows[..i + 1], dateColumns, k)
  {
    RowStart(dailyData, rows[..i], rows[i], dateColumns);
    dailyData', keys' := ReadCells(dailyData, keys, rows[..i], rows[i], dateColumns);
    RowEnd(dailyData', rows, i, dateColumns);
  }

  /** The nested `forEach` loops of main.js:69-89: `dailyDataMap` and its keys in insertion order. */
  method BuildDailyData(rows: seq<UsageRow>, dateColumns: seq<string>)
    returns (dailyData: map<string, DayAggregate>, keys: seq<string>)
    ensures keys == if rows == [] then [] else Distinct(dateColumns)
    ensures forall k :: k in dailyData <==> k in keys
    ensures forall k :: k in dailyData ==> dailyData[k] == DayFor(rows, dateColumns, k)
  {
    dailyData, keys := map[], [];
    for i := 0 to |rows|
      invariant keys == if i == 0 then [] else Distinct(dateColumns)
      invariant forall k :: k in dailyData <==> k in keys
      invariant forall k :: k in dailyData ==> dailyData[k] == DayFor(rows[..i], dateColumns, k)
    {
      dailyData, keys := ReadRow(dailyData, keys, rows, i, dateColumns);
    }
    assert rows[..|rows|] == rows;
  }

  /** `transformData` up to main.js:92: the date columns, `dailyDataMap`, then `Array.from(dailyDataMap.values())`. */
  method AggregateUsage(table: UsageTable) returns (values: seq<DayAggregate>)
    ensures values == Aggregate(table)
  {
    var dateColumns := DateColumns(table.columns);
    var dailyData, keys := BuildDailyData(table.rows, dateColumns);
    values := [];
    for t := 0 to |keys|
      invariant values == DaysFor(table.rows, dateColumns, keys[..t])
    {
      DaysForStep(table.rows, dateColumns, keys, t);
      values := values + [dailyData[keys[t]]];
    }
    assert keys[..|keys|] == keys;
  }
}
