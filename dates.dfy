/**
 * Calendar arithmetic of the daily pipeline. A date is an integer day number:
 * the local calendar day `d` days after 1 January 1970. The date parser itself
 * (`d3.timeParse("%B %d, %Y")`) is a parameter of the pipeline, not modelled here.
 */
module Dates {
  import Text

  /** The column header with any duplicate-column suffix removed: `header.split('.')[0]`. */
  function Clean(header: string): (r: string)
    ensures r <= header && '.' !in r
    ensures |r| < |header| ==> header[|r|] == '.'
  {
    Text.Split(header, '.')[0]
  }

  /** Cleaning keeps exactly the text before the first '.', so a ".1"-style suffix is dropped. */
  lemma CleanDropsSuffix(key: string, suffix: string)
    requires '.' !in key
    ensures Clean(key) == key
    ensures Clean(key + "." + suffix) == key
  {
    var header := key + "." + suffix;
    var r := Clean(header);
    assert header[|key|] == '.';
    assert forall i :: 0 <= i < |key| ==> header[i] == key[i] && key[i] != '.';
    assert r == header[..|r|];
  }

  /** Cleaning twice is cleaning once. */
  lemma CleanIsIdempotent(header: string)
    ensures Clean(Clean(header)) == Clean(header)
  {
    var r := Clean(header);
    assert forall i :: 0 <= i < |r| ==> r[i] != '.';
  }

  /** `Date.prototype.getDay` (Sunday = 0) of day number `day`; 1 January 1970 was a Thursday. */
  function Weekday(day: int): (r: int)
    ensures 0 <= r < 7
  {
    (day + 4) % 7
  }

  /** `(getDay() + 6) % 7`: the day of the week counted from Monday = 0 to Sunday = 6. */
  function DayOfWeek(day: int): (r: int)
    ensures 0 <= r < 7
    ensures r == 0 <==> Weekday(day) == 1
    ensures r == 6 <==> Weekday(day) == 0
  {
    (Weekday(day) + 6) % 7
  }

  /** Consecutive days have consecutive days of the week, wrapping from Sunday to Monday. */
  lemma DayOfWeekAdvances(day: int)
    ensures DayOfWeek(day + 1) == (DayOfWeek(day) + 1) % 7
    ensures DayOfWeek(day + 7) == DayOfWeek(day)
  {
    var q, w := (day + 4) / 7, Weekday(day);
    assert day + 4 == 7 * q + w;
    assert Weekday(day + 1) == if w == 6 then 0 else w + 1 by {
      assert day + 5 == 7 * q + w + 1;
    }
    assert Weekday(day + 7) == w by {
      assert day + 11 == 7 * (q + 1) + w;
    }
  }

  /**
   * `Math.floor(d3.timeDay.count(start, date) / 7)`: the number of whole weeks
   * from `start` to `date`, negative when `date` comes first.
   */
  function WeekNumber(start: int, date: int): (r: int)
    ensures 7 * r <= date - start < 7 * r + 7
    ensures r >= 0 <==> start <= date
  {
    (date - start) / 7
  }

  /** A later date is never in an earlier week; the start date is in week 0. */
  lemma WeekNumberMonotone(start: int, a: int, b: int)
    requires a <= b
    ensures WeekNumber(start, a) <= WeekNumber(start, b)
    ensures WeekNumber(start, start) == 0
  {
  }
}
