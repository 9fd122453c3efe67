/**
 * `formatTime` (main.js:47-56): a number of seconds as text such as
 * "2 hours 5 minutes", "1 minute" or "0 second". Hours and minutes are shown
 * when non-zero, seconds only when both are zero, each unit plural above 1.
 * `ReadDuration` reads such a text back; `FormatTimeReadsBack` shows that the
 * text names exactly the displayed amount (seconds dropped from a minute on).
 */
module Durations {
  import opened Wrappers
  import opened Text

  datatype Unit = Hour | Minute | Second

  function UnitName(u: Unit): string {
    match u
    case Hour => "hour"
    case Minute => "minute"
    case Second => "second"
  }

  function UnitSeconds(u: Unit): nat {
    match u
    case Hour => 3600
    case Minute => 60
    case Second => 1
  }

  /** Larger units have a larger rank; a text names its units in decreasing rank. */
  function Rank(u: Unit): nat {
    match u
    case Hour => 2
    case Minute => 1
    case Second => 0
  }

  /** The unit's name, with an 's' when the count is above 1. */
  function UnitWord(u: Unit, n: nat): string {
    UnitName(u) + (if n > 1 then "s" else "")
  }

  /** One entry of `parts`: `${n} hour${n > 1 ? 's' : ''}` and likewise for the other units. */
  function Quantity(n: nat, u: Unit): string {
    NatToString(n) + " " + UnitWord(u, n)
  }

  function FormatTime(seconds: nat): (text: string)
    ensures seconds < 60 ==> text == Quantity(seconds, Second)
    ensures 3600 <= seconds ==> Quantity(seconds / 3600, Hour) <= text
    ensures 60 <= seconds < 3600 ==> Quantity(seconds / 60, Minute) <= text
  {
    var h := seconds / 3600;
    var m := (seconds % 3600) / 60;
    var s := seconds % 60;
    var parts := (if h > 0 then [Quantity(h, Hour)] else []) + (if m > 0 then [Quantity(m, Minute)] else []);
    Join(if parts == [] then [Quantity(s, Second)] else parts, " ")
  }

  /** The amount the text shows: all of it below a minute, otherwise whole minutes. */
  function DisplayedSeconds(seconds: nat): nat {
    if seconds < 60 then seconds else seconds - seconds % 60
  }

  /** Hours, minutes and seconds are the mixed-radix digits of the amount. */
  lemma SecondsDecompose(seconds: nat)
    ensures seconds == 3600 * (seconds / 3600) + 60 * ((seconds % 3600) / 60) + seconds % 60
    ensures (seconds % 3600) / 60 < 60
    ensures seconds / 3600 == 0 && (seconds % 3600) / 60 == 0 <==> seconds < 60
  {
    var r := seconds % 3600;
    assert seconds == 3600 * (seconds / 3600) + r;
    assert r == 60 * (r / 60) + r % 60;
    assert r % 60 == seconds % 60 by {
      assert seconds == 60 * (60 * (seconds / 3600) + r / 60) + r % 60;
    }
  }

  /** The words of the text, in order: a count then its unit, for each shown unit. */
  function Words(seconds: nat): seq<string> {
    WordsOf(seconds / 3600, (seconds % 3600) / 60, seconds % 60)
  }

  /** The words for `h` hours, `m` minutes and `s` seconds. */
  function WordsOf(h: nat, m: nat, s: nat): seq<string> {
    if h > 0 && m > 0 then [NatToString(h), UnitWord(Hour, h), NatToString(m), UnitWord(Minute, m)]
    else if h > 0 then [NatToString(h), UnitWord(Hour, h)]
    else if m > 0 then [NatToString(m), UnitWord(Minute, m)]
    else [NatToString(s), UnitWord(Second, s)]
  }

  lemma NoSpaceInWords(n: nat, u: Unit)
    ensures ' ' !in NatToString(n)
    ensures ' ' !in UnitWord(u, n)
  {
    var d := NatToString(n);
    assert forall i :: 0 <= i < |d| ==> IsDigit(d[i]);
  }

  /**
   * The parts are joined by single spaces and each part is a count, a space and
   * a unit word, so the text splits at its spaces into exactly `Words(seconds)`:
   * an hour count iff there is a whole hour, a minute count iff a whole minute
   * remains, a seconds count only when neither is shown.
   */
  lemma FormatTimeWords(seconds: nat)
    ensures Split(FormatTime(seconds), ' ') == Words(seconds)
  {
    var h := seconds / 3600;
    var m := (seconds % 3600) / 60;
    var s := seconds % 60;
    var ws := Words(seconds);
    NoSpaceInWords(h, Hour);
    NoSpaceInWords(m, Minute);
    NoSpaceInWords(s, Second);
    if h > 0 && m > 0 {
      QuantitiesJoin(h, Hour, m, Minute);
      assert FormatTime(seconds) == Join([Quantity(h, Hour), Quantity(m, Minute)], " ");
    } else if h > 0 {
      QuantityJoin(h, Hour);
      assert FormatTime(seconds) == Join([Quantity(h, Hour)], " ");
    } else if m > 0 {
      QuantityJoin(m, Minute);
      assert FormatTime(seconds) == Join([Quantity(m, Minute)], " ");
    } else {
      QuantityJoin(s, Second);
      assert FormatTime(seconds) == Join([Quantity(s, Second)], " ");
    }
    SplitJoin(ws, ' ');
  }

  lemma JoinTwo(a: string, b: string, sep: string)
    ensures Join([a, b], sep) == a + sep + b
  {
    assert [a, b][1..] == [b];
  }

  lemma QuantityJoin(n: nat, u: Unit)
    ensures Join([Quantity(n, u)], " ") == Join([NatToString(n), UnitWord(u, n)], " ")
  {
    JoinTwo(NatToString(n), UnitWord(u, n), " ");
  }

  lemma QuantitiesJoin(n: nat, u: Unit, k: nat, v: Unit)
    ensures Join([Quantity(n, u), Quantity(k, v)], " ")
         == Join([NatToString(n), UnitWord(u, n), NatToString(k), UnitWord(v, k)], " ")
  {
    var a, b, c, d := NatToString(n), UnitWord(u, n), NatToString(k), UnitWord(v, k);
    var cd := c + " " + d;
    JoinTwo(c, d, " ");
    JoinTwo(Quantity(n, u), Quantity(k, v), " ");
    assert [a, b, c, d][1..] == [b, c, d];
    assert [b, c, d][1..] == [c, d];
    assert Join([b, c, d], " ") == b + " " + cd;
    assert Join([a, b, c, d], " ") == a + " " + (b + " " + cd);
    ConcatRegroup(a, b, cd);
  }

  lemma ConcatRegroup(a: string, b: string, cd: string)
    ensures (a + " " + b) + " " + cd == a + " " + (b + " " + cd)
  {
  }

  /** `FormatTime(0)` is "0 second": zero is not plural. */
  lemma FormatTimeZero()
    ensures FormatTime(0) == "0 second"
  {
    assert NatToString(0) == "0";
  }

  // Reading a formatted duration back.

  function ReadNat(w: string): Option<nat> {
    if |w| > 0 && AllDigits(w) then Some(DigitsValue(w)) else None
  }

  /** A unit word and whether it is plural. */
  function ReadUnitWord(w: string): Option<(Unit, bool)> {
    if w == "hour" then Some((Hour, false))
    else if w == "hours" then Some((Hour, true))
    else if w == "minute" then Some((Minute, false))
    else if w == "minutes" then Some((Minute, true))
    else if w == "second" then Some((Second, false))
    else if w == "seconds" then Some((Second, true))
    else None
  }

  /**
   * Reads one or more "count unit" pairs whose units have rank below `bound` and
   * strictly decrease, each unit plural exactly when its count is above 1, and
   * returns the amount they name.
   */
  function ReadQuantities(ws: seq<string>, bound: nat): Option<nat>
    decreases |ws|
  {
    if |ws| < 2 then None
    else match (ReadNat(ws[0]), ReadUnitWord(ws[1]))
      case (Some(n), Some((u, plural))) =>
        if Rank(u) >= bound || plural != (n > 1) then None
        else if |ws| == 2 then Some(n * UnitSeconds(u))
        else (match ReadQuantities(ws[2..], Rank(u))
              case Some(rest) => Some(n * UnitSeconds(u) + rest)
              case None => None)
      case _ => None
  }

  function ReadDuration(text: string): Option<nat> {
    ReadQuantities(Split(text, ' '), 3)
  }

  lemma ReadNatOfNatToString(n: nat)
    ensures ReadNat(NatToString(n)) == Some(n)
  {
    DigitsValueOfNatToString(n);
  }

  lemma ReadUnitWordOfUnitWord(u: Unit, n: nat)
    ensures ReadUnitWord(UnitWord(u, n)) == Some((u, n > 1))
  {
    var plural := if n > 1 then "s" else "";
    match u
    case Hour =>
      assert "hour" + "s" == "hours";
      assert "hour" + "" == "hour";
    case Minute =>
      assert "minute" + "s" == "minutes";
      assert "minute" + "" == "minute";
    case Second =>
      assert "second" + "s" == "seconds";
      assert "second" + "" == "second";
  }

  /** Reading a count and its unit in front of further pairs. */
  lemma ReadQuantityPair(n: nat, u: Unit, rest: seq<string>, bound: nat)
    requires Rank(u) < bound
    ensures ReadQuantities([NatToString(n), UnitWord(u, n)] + rest, bound)
         == if rest == [] then Some(n * UnitSeconds(u))
            else match ReadQuantities(rest, Rank(u))
                 case Some(more) => Some(n * UnitSeconds(u) + more)
                 case None => None
  {
    ReadNatOfNatToString(n);
    ReadUnitWordOfUnitWord(u, n);
    var ws := [NatToString(n), UnitWord(u, n)] + rest;
    assert ws[2..] == rest;
  }

  /** A single count and unit reads back as that many units. */
  lemma ReadOne(n: nat, u: Unit)
    ensures ReadQuantities([NatToString(n), UnitWord(u, n)], 3) == Some(n * UnitSeconds(u))
  {
    ReadQuantityPair(n, u, [], 3);
    assert [NatToString(n), UnitWord(u, n)] + [] == [NatToString(n), UnitWord(u, n)];
  }

  /** Hours followed by minutes read back as their sum. */
  lemma ReadHoursMinutes(h: nat, m: nat, s: nat)
    requires h > 0 && m > 0
    ensures ReadQuantities(WordsOf(h, m, s), 3) == Some(3600 * h + 60 * m)
  {
    var hourWords, minuteWords := [NatToString(h), UnitWord(Hour, h)], [NatToString(m), UnitWord(Minute, m)];
    assert ReadQuantities(minuteWords, 2) == Some(m * 60) by {
      ReadQuantityPair(m, Minute, [], 2);
      assert minuteWords + [] == minuteWords;
    }
    assert ReadQuantities(hourWords + minuteWords, 3) == Some(h * 3600 + m * 60) by {
      ReadQuantityPair(h, Hour, minuteWords, 3);
    }
    assert hourWords + minuteWords == WordsOf(h, m, s);
  }

  lemma ReadHoursOnly(h: nat, m: nat, s: nat)
    requires h > 0 && m == 0
    ensures ReadQuantities(WordsOf(h, m, s), 3) == Some(3600 * h)
  {
    ReadOne(h, Hour);
  }

  lemma ReadMinutesOnly(h: nat, m: nat, s: nat)
    requires h == 0 && m > 0
    ensures ReadQuantities(WordsOf(h, m, s), 3) == Some(60 * m)
  {
    ReadOne(m, Minute);
  }

  lemma ReadSecondsOnly(h: nat, m: nat, s: nat)
    requires h == 0 && m == 0
    ensures ReadQuantities(WordsOf(h, m, s), 3) == Some(s)
  {
    ReadOne(s, Second);
  }

  /** The words read back as the amount of the units they show. */
  lemma ReadWordsOf(h: nat, m: nat, s: nat)
    ensures ReadQuantities(WordsOf(h, m, s), 3) == Some(3600 * h + 60 * m + (if h == 0 && m == 0 then s else 0))
  {
    if h > 0 && m > 0 {
      ReadHoursMinutes(h, m, s);
    } else if h > 0 {
      ReadHoursOnly(h, m, s);
    } else if m > 0 {
      ReadMinutesOnly(h, m, s);
    } else {
      ReadSecondsOnly(h, m, s);
    }
  }

  /** The displayed amount in terms of the hour, minute and second counts. */
  lemma DisplayedSecondsOfCounts(seconds: nat)
    ensures var h, m := seconds / 3600, (seconds % 3600) / 60;
            DisplayedSeconds(seconds) == 3600 * h + 60 * m + (if h == 0 && m == 0 then seconds % 60 else 0)
    ensures DisplayedSeconds(seconds) <= seconds < DisplayedSeconds(seconds) + 60
  {
    SecondsDecompose(seconds);
  }

  /**
   * Round trip: the text `FormatTime` produces reads back as the amount it
   * displays, which is the whole input below one minute and the input rounded
   * down to whole minutes from one minute on.
   */
  lemma FormatTimeReadsBack(seconds: nat)
    ensures ReadDuration(FormatTime(seconds)) == Some(DisplayedSeconds(seconds))
    ensures DisplayedSeconds(seconds) <= seconds < DisplayedSeconds(seconds) + 60
  {
    var h, m, s := seconds / 3600, (seconds % 3600) / 60, seconds % 60;
    var shown := 3600 * h + 60 * m + (if h == 0 && m == 0 then s else 0);
    assert ReadDuration(FormatTime(seconds)) == Some(shown) by {
      FormatTimeWords(seconds);
      ReadWordsOf(h, m, s);
    }
    assert DisplayedSeconds(seconds) == shown by {
      DisplayedSecondsOfCounts(seconds);
    }
    DisplayedSecondsOfCounts(seconds);
  }
}
