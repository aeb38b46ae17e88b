/** `CliParser` (FFMpeg-Wrapper/CliParser.cs): reads ffmpeg's diagnostic
    lines one at a time and raises time and percent progress events. Its
    only state is the integer part of the last percent it reported, so a
    percent event is raised at most once per whole percent. Percentages are
    exact here: a percent is a whole number of hundredths, rounded half to
    even from the exact ratio of the two durations. */
module Progress {
  import opened Wrappers
  import opened Text
  import opened Utils

  /* ---------------------------------------------------------------------- */
  /* Finding the time in a line                                              */
  /* ---------------------------------------------------------------------- */

  /** The shape of what `ProgressRegex` (`time=(\d\d:\d\d:\d\d.\d\d?)`)
      captures: two digits, `:`, two digits, `:`, two digits, any character
      but a line break, and one or two digits. */
  predicate IsCapture(c: string) {
    && (|c| == 10 || |c| == 11)
    && AllDigits(c[0..2]) && c[2] == ':' && AllDigits(c[3..5]) && c[5] == ':'
    && AllDigits(c[6..8]) && c[8] != '\n' && AllDigits(c[9..])
  }

  /** The capture when the regex matches at position `i` of the line: it
      follows `time=` there, and takes the optional second fraction digit
      whenever there is one. */
  function MatchAt(line: string, i: nat): (m: Option<string>)
    ensures m.Some? ==>
      && IsCapture(m.value) && i + 5 + |m.value| <= |line|
      && line[i..i + 5] == "time=" && line[i + 5..i + 5 + |m.value|] == m.value
      && (|m.value| == 10 && i + 15 < |line| ==> !IsDigit(line[i + 15]))
  {
    var j := i + 5;
    if j + 10 <= |line| && line[i..j] == "time="
       && IsDigit(line[j]) && IsDigit(line[j + 1]) && line[j + 2] == ':'
       && IsDigit(line[j + 3]) && IsDigit(line[j + 4]) && line[j + 5] == ':'
       && IsDigit(line[j + 6]) && IsDigit(line[j + 7]) && line[j + 8] != '\n'
       && IsDigit(line[j + 9])
    then
      var n := if j + 10 < |line| && IsDigit(line[j + 10]) then 11 else 10;
      CaptureAt(line, j, n);
      Some(line[j..j + n])
    else None
  }

  /** Ten or eleven characters of a line in the shape of a capture are one. */
  lemma {:induction false} CaptureAt(line: string, j: nat, n: nat)
    requires (n == 10 || n == 11) && j + n <= |line|
    requires IsDigit(line[j]) && IsDigit(line[j + 1]) && line[j + 2] == ':'
    requires IsDigit(line[j + 3]) && IsDigit(line[j + 4]) && line[j + 5] == ':'
    requires IsDigit(line[j + 6]) && IsDigit(line[j + 7]) && line[j + 8] != '\n'
    requires IsDigit(line[j + 9]) && (n == 11 ==> IsDigit(line[j + 10]))
    ensures IsCapture(line[j..j + n])
  {
    var c := line[j..j + n];
    assert c[0..2] == [line[j], line[j + 1]];
    assert c[3..5] == [line[j + 3], line[j + 4]];
    assert c[6..8] == [line[j + 6], line[j + 7]];
    assert c[9..] == if n == 11 then [line[j + 9], line[j + 10]] else [line[j + 9]];
  }

  /** `ProgressRegex.Match(line)` searching from position `from`: the
      capture at the leftmost position that matches. */
  function FindProgress(line: string, from: nat): (m: Option<string>)
    ensures m.Some? ==> IsCapture(m.value)
    decreases |line| - from
  {
    if from > |line| then None
    else if MatchAt(line, from).Some? then MatchAt(line, from)
    else FindProgress(line, from + 1)
  }

  /** The search finds the leftmost match: it is the match at some position
      with no match before it, and when it finds nothing no position matches. */
  lemma {:induction false} FindProgressLeftmost(line: string, from: nat)
    ensures var m := FindProgress(line, from);
      && (m.Some? ==> exists i :: from <= i <= |line| && m == MatchAt(line, i) && forall k :: from <= k < i ==> MatchAt(line, k).None?)
      && (m.None? ==> forall k :: from <= k <= |line| ==> MatchAt(line, k).None?)
    decreases |line| - from
  {
    var m := FindProgress(line, from);
    if from > |line| {
      assert m.None?;
    } else if MatchAt(line, from).Some? {
      assert m == MatchAt(line, from);
    } else {
      FindProgressLeftmost(line, from + 1);
      assert m == FindProgress(line, from + 1);
      if m.Some? {
        var i :| from + 1 <= i <= |line| && m == MatchAt(line, i) && forall k :: from + 1 <= k < i ==> MatchAt(line, k).None?;
        assert forall k :: from <= k < i ==> MatchAt(line, k).None?;
      }
    }
  }

  /** `TimeSpan.Parse` on a capture, in ticks. The regex's `.` matches any
      character, so a capture is `hh:mm:ss.f[f]`; or, with `:` in that
      place, four colon-separated numbers, which `TimeSpan.Parse` reads as
      `d:hh:mm:ss`; or, with a digit there, `hh:mm:` and one run of digits,
      which it reads as the seconds (leading zeros do not count). Hours
      from 24, minutes or seconds from 60 overflow, and any other separator
      is not a time; both throw (`None`). */
  function ParseProgressTime(c: string): (t: Option<int>)
    requires IsCapture(c)
    ensures t.Some? <==>
      || (c[8] == '.' && DigitsValue(c[0..2]) < 24 && DigitsValue(c[3..5]) < 60 && DigitsValue(c[6..8]) < 60)
      || (c[8] == ':' && DigitsValue(c[3..5]) < 24 && DigitsValue(c[6..8]) < 60 && DigitsValue(c[9..]) < 60)
      || (IsDigit(c[8]) && DigitsValue(c[0..2]) < 24 && DigitsValue(c[3..5]) < 60 && RunSeconds(c) < 60)
    ensures t.Some? && c[8] == '.' ==> 0 <= t.value < TicksPerDay
    ensures t.Some? && IsDigit(c[8]) ==> 0 <= t.value < TicksPerDay && t.value % TicksPerSecond == 0
    ensures t.Some? && c[8] == ':' ==>
      0 <= t.value && t.value / TicksPerDay == DigitsValue(c[0..2]) && t.value % TicksPerSecond == 0
  {
    var a, b, x, y := DigitsValue(c[0..2]), DigitsValue(c[3..5]), DigitsValue(c[6..8]), DigitsValue(c[9..]);
    if c[8] == '.' then
      if a >= 24 || b >= 60 || x >= 60 then None
      else
        TimeFieldsWithinDay(a, b, x, y, |c[9..]|);
        Some(a * TicksPerHour + b * TicksPerMinute + x * TicksPerSecond + y * Pow10(7 - |c[9..]|))
    else if c[8] == ':' then
      if b >= 24 || x >= 60 || y >= 60 then None
      else
        DayFields(a, b, x, y);
        Some(a * TicksPerDay + b * TicksPerHour + x * TicksPerMinute + y * TicksPerSecond)
    else if IsDigit(c[8]) then
      var secs := RunSeconds(c);
      if a >= 24 || b >= 60 || secs >= 60 then None
      else
        DayFields(0, a, b, secs);
        Some(a * TicksPerHour + b * TicksPerMinute + secs * TicksPerSecond)
    else None
  }

  /** With a digit where the separator would be, the characters from
      position 6 on are one run of digits, whose value is the seconds. */
  function RunSeconds(c: string): (secs: nat)
    requires IsCapture(c) && IsDigit(c[8])
    ensures AllDigits(c[6..]) && secs == DigitsValue(c[6..])
  {
    assert forall i :: 0 <= i < |c[6..]| ==> IsDigit(c[6..][i]) by {
      forall i | 0 <= i < |c[6..]|
        ensures IsDigit(c[6..][i])
      {
        if i < 2 {
          assert c[6..][i] == c[6..8][i];
        } else if i > 2 {
          assert c[6..][i] == c[9..][i - 3];
        }
      }
    }
    DigitsValue(c[6..])
  }

  /** Hours below 24, minutes and seconds below 60 and a fraction of one
      or two digits make less than a day. */
  lemma {:induction false} TimeFieldsWithinDay(h: nat, m: nat, s: nat, f: nat, k: nat)
    requires h < 24 && m < 60 && s < 60 && (k == 1 || k == 2) && f < Pow10(k)
    ensures 0 <= h * TicksPerHour + m * TicksPerMinute + s * TicksPerSecond + f * Pow10(7 - k) < TicksPerDay
  {
    assert Pow10(1) == 10 && Pow10(2) == 100;
    assert Pow10(5) == 100000 && Pow10(6) == 1000000;
    assert f * Pow10(7 - k) < TicksPerSecond;
    assert s * TicksPerSecond <= 59 * TicksPerSecond;
    assert m * TicksPerMinute <= 59 * TicksPerMinute;
    assert h * TicksPerHour <= 23 * TicksPerHour;
  }

  /** `d:hh:mm:ss` with in-range hours, minutes and seconds is `d` whole
      days and a whole number of seconds. */
  lemma {:induction false} DayFields(d: nat, h: nat, m: nat, s: nat)
    requires h < 24 && m < 60 && s < 60
    ensures var t := d * TicksPerDay + h * TicksPerHour + m * TicksPerMinute + s * TicksPerSecond;
      t / TicksPerDay == d && t % TicksPerSecond == 0
  {
    var w := h * TicksPerHour + m * TicksPerMinute + s * TicksPerSecond;
    var secs := h * 3600 + m * 60 + s;
    assert w == secs * TicksPerSecond;
    assert secs < 86400;
    assert w < TicksPerDay by {
      assert secs * TicksPerSecond <= 86399 * TicksPerSecond;
    }
    ModUnique(d * TicksPerDay + w, TicksPerDay, d, w);
    assert d * TicksPerDay + w == (d * 86400 + secs) * TicksPerSecond;
    ModUnique(d * TicksPerDay + w, TicksPerSecond, d * 86400 + secs, 0);
  }

  /** The time in a progress line: `None` when the regex finds nothing,
      `Some(None)` when the parse of what it found throws. */
  function LineTime(line: string): Option<Option<int>> {
    var m := FindProgress(line, 0);
    if m.None? then None else Some(ParseProgressTime(m.value))
  }

  /* ---------------------------------------------------------------------- */
  /* Percentages                                                             */
  /* ---------------------------------------------------------------------- */

  /** `n / d` rounded to the nearest integer, ties to the even neighbour
      (`Math.Round`'s default). */
  function RoundHalfEven(n: int, d: int): int
    requires d != 0
  {
    var num, den := if d < 0 then -n else n, if d < 0 then -d else d;
    var q, r := num / den, num % den;
    if 2 * r < den then q
    else if 2 * r > den then q + 1
    else if q % 2 == 0 then q else q + 1
  }

  /** The rounded value is a nearest integer, and the even one of two. */
  lemma {:induction false} RoundHalfEvenNearest(n: int, d: int)
    requires d > 0
    ensures var q := RoundHalfEven(n, d);
      && 2 * (n - q * d) <= d && 2 * (q * d - n) <= d
      && (2 * (n - q * d) == d || 2 * (q * d - n) == d ==> q % 2 == 0)
  {
    var q, r := n / d, n % d;
    assert n == q * d + r;
    assert (q + 1) * d == q * d + d;
  }

  /** `Math.Round(time / total * 100, 2)` in hundredths of a percent; no
      percentage exists for a zero total (the quotient is not finite). */
  function PercentOf(time: int, total: int): Option<int> {
    if total == 0 then None else Some(RoundHalfEven(time * 10000, total))
  }

  /** `(int)percentage` for a percentage in hundredths: truncation toward zero. */
  function WholePercent(hundredths: int): int {
    if hundredths >= 0 then hundredths / 100 else -((-hundredths) / 100)
  }

  /* ---------------------------------------------------------------------- */
  /* Reacting to a line                                                      */
  /* ---------------------------------------------------------------------- */

  /** An event raised: `OnTimeProgress` with a time, `OnPercentProgress`
      with a percentage in hundredths. */
  datatype ProgressEvent = Time(ticks: int) | Percent(hundredths: int)

  /** What `ParseStdError` does with a line: whether `TimeSpan.Parse`
      threw, the events it raised and the new last whole percent. */
  datatype Reaction = Reaction(Thrown: bool, Emitted: seq<ProgressEvent>, Last: int)

  /** A `frame` line whose captured time `TimeSpan.Parse` rejects: the
      handler throws on it. */
  predicate LineThrows(line: string) {
    StartsWith(line, "frame") && LineTime(line) == Some(None)
  }

  /** The reaction to one diagnostic line when the last whole percent
      reported is `last`. */
  function React(last: int, total: int, line: string): (r: Reaction)
    ensures r.Thrown <==> LineThrows(line)
    ensures r.Thrown ==> r.Emitted == [] && r.Last == last
    ensures |r.Emitted| <= 2
  {
    if !StartsWith(line, "frame") then Reaction(false, [], last)
    else
      match LineTime(line)
      case None => Reaction(false, [], last)
      case Some(None) => Reaction(true, [], last)
      case Some(Some(time)) =>
        match PercentOf(time, total)
        case Some(p) =>
          if WholePercent(p) > last then Reaction(false, [Time(time), Percent(p)], WholePercent(p))
          else Reaction(false, [Time(time)], last)
        case None => Reaction(false, [Time(time)], last)
  }

  /** A line that is not a `frame` line, or has no time, changes nothing
      and raises nothing. */
  lemma {:induction false} ReactIgnores(last: int, total: int, line: string)
    requires !StartsWith(line, "frame") || FindProgress(line, 0).None?
    ensures React(last, total, line) == Reaction(false, [], last)
  {
  }

  /** A `frame` line with a time raises exactly one time event carrying
      it, then a percent event exactly when the percentage's whole part
      exceeds the last one reported, which it then becomes. */
  lemma {:induction false} ReactFrame(last: int, total: int, line: string, time: int)
    requires StartsWith(line, "frame") && LineTime(line) == Some(Some(time))
    ensures var r := React(last, total, line);
      var fires := PercentOf(time, total).Some? && WholePercent(PercentOf(time, total).value) > last;
      && !r.Thrown
      && r.Emitted[0] == Time(time)
      && |r.Emitted| == (if fires then 2 else 1)
      && (fires ==> r.Emitted[1] == Percent(PercentOf(time, total).value) && r.Last == WholePercent(PercentOf(time, total).value))
      && (!fires ==> r.Last == last)
  {
  }

  /** The last whole percent never decreases while lines are read. */
  lemma {:induction false} ReactMonotone(last: int, total: int, line: string)
    ensures React(last, total, line).Last >= last
  {
  }

  /** A percent event raised by a line is above the last whole percent and
      is the new one. */
  lemma {:induction false} ReactPercentAbove(last: int, total: int, line: string)
    ensures var r := React(last, total, line);
      IncreasingFrom(last, r.Emitted) && LastWhole(last, r.Emitted) == r.Last
  {
    var r := React(last, total, line);
    if |r.Emitted| == 2 {
      assert r.Emitted[..1] == [r.Emitted[0]];
      assert r.Emitted[..1][..0] == [];
    } else if |r.Emitted| == 1 {
      assert r.Emitted[..0] == [];
    }
  }

  /* ---------------------------------------------------------------------- */
  /* A run of lines                                                          */
  /* ---------------------------------------------------------------------- */

  /** The percent events of `events` have strictly increasing whole parts,
      all above `bound`. */
  predicate IncreasingFrom(bound: int, events: seq<ProgressEvent>) {
    if events == [] then true
    else
      var front, e := events[..|events| - 1], events[|events| - 1];
      IncreasingFrom(bound, front) && (e.Percent? ==> WholePercent(e.hundredths) > LastWhole(bound, front))
  }

  /** The whole part of the last percent event, or `bound` if there is none. */
  function LastWhole(bound: int, events: seq<ProgressEvent>): int {
    if events == [] then bound
    else
      var e := events[|events| - 1];
      if e.Percent? then WholePercent(e.hundredths) else LastWhole(bound, events[..|events| - 1])
  }

  /** The events raised and the last whole percent after the lines are
      read one by one; a line on which `TimeSpan.Parse` throws raises
      nothing and changes nothing. */
  function Run(last: int, total: int, lines: seq<string>): (r: (seq<ProgressEvent>, int))
    ensures r.1 >= last
    ensures |r.0| <= 2 * |lines|
  {
    if lines == [] then ([], last)
    else
      var (events, l) := Run(last, total, lines[..|lines| - 1]);
      var r := React(l, total, lines[|lines| - 1]);
      ReactMonotone(l, total, lines[|lines| - 1]);
      (events + r.Emitted, r.Last)
  }

  /** Appending events extends both predicates piecewise. */
  lemma {:induction false} IncreasingAppend(bound: int, a: seq<ProgressEvent>, b: seq<ProgressEvent>)
    requires IncreasingFrom(bound, a) && IncreasingFrom(LastWhole(bound, a), b)
    ensures IncreasingFrom(bound, a + b) && LastWhole(bound, a + b) == LastWhole(LastWhole(bound, a), b)
  {
    if b == [] {
      assert a + b == a;
    } else {
      var front := b[..|b| - 1];
      IncreasingAppend(bound, a, front);
      assert (a + b)[..|a + b| - 1] == a + front;
    }
  }

  /** Over any run of lines the percent events have strictly increasing
      whole parts, all above the starting one, so there is at most one per
      whole percent; the last one reported is the state reached, which is
      never below where the run started. */
  lemma {:induction false} RunPercentsIncreasing(last: int, total: int, lines: seq<string>)
    ensures var (events, l) := Run(last, total, lines);
      IncreasingFrom(last, events) && LastWhole(last, events) == l && l >= last
  {
    if lines != [] {
      var (events, l) := Run(last, total, lines[..|lines| - 1]);
      RunPercentsIncreasing(last, total, lines[..|lines| - 1]);
      var r := React(l, total, lines[|lines| - 1]);
      ReactPercentAbove(l, total, lines[|lines| - 1]);
      IncreasingAppend(last, events, r.Emitted);
    }
  }

  /** Every percent event of an increasing sequence is above the bound. */
  lemma {:induction false} IncreasingAbove(bound: int, events: seq<ProgressEvent>)
    requires IncreasingFrom(bound, events)
    ensures LastWhole(bound, events) >= bound
    ensures forall i :: 0 <= i < |events| && events[i].Percent? ==> WholePercent(events[i].hundredths) > bound
  {
    if events != [] {
      var front := events[..|events| - 1];
      IncreasingAbove(bound, front);
      forall i | 0 <= i < |events| && events[i].Percent?
        ensures WholePercent(events[i].hundredths) > bound
      {
        if i < |front| {
          assert events[i] == front[i];
        }
      }
    }
  }

  /** Once completion has been forced (last whole percent 100), no line
      raises a percent event below 101 %. */
  lemma {:induction false} CompletionSilencesLowerPercents(total: int, lines: seq<string>)
    ensures var (events, _) := Run(100, total, lines);
      forall i :: 0 <= i < |events| && events[i].Percent? ==> WholePercent(events[i].hundredths) >= 101
  {
    RunPercentsIncreasing(100, total, lines);
    var (events, _) := Run(100, total, lines);
    IncreasingAbove(100, events);
  }

  /* ---------------------------------------------------------------------- */
  /* CliParser                                                               */
  /* ---------------------------------------------------------------------- */

  /** `CliParser`: the expected total duration, the last whole percent
      reported, and the events raised so far, in order. */
  class CliParser {
    const TotalDuration: int
    var lastProgressInt: int
    var Events: seq<ProgressEvent>

    /** `new CliParser(completionTime)`: nothing reported yet. */
    constructor (completionTime: int)
      ensures TotalDuration == completionTime && lastProgressInt == -1 && Events == []
    {
      TotalDuration := completionTime;
      lastProgressInt := -1;
      Events := [];
    }

    /** `ForceUpdateComplete()`: reports 100 % and the total duration. */
    method ForceUpdateComplete()
      modifies this
      ensures Events == old(Events) + [Percent(10000), Time(TotalDuration)]
      ensures lastProgressInt == 100
    {
      Events := Events + [Percent(10000)];
      Events := Events + [Time(TotalDuration)];
      lastProgressInt := 100;
    }

    /** `ParseStdOutput`: standard output is ignored. */
    method ParseStdOutput(line: string)
      modifies this
      ensures unchanged(this)
    {
    }

    /** `ParseStdError`: a `frame` line with a time raises the time, then
        the percentage when its whole part is new. `thrown` reports that
        `TimeSpan.Parse` rejected the captured time. */
    method ParseStdError(line: string) returns (thrown: bool)
      modifies this
      ensures var r := React(old(lastProgressInt), TotalDuration, line);
        thrown == r.Thrown && Events == old(Events) + r.Emitted && lastProgressInt == r.Last
    {
      thrown := false;
      if StartsWith(line, "frame") {
        var found := LineTime(line);
        if found.Some? {
          if found.value.None? {
            return true;
          }
          var time := found.value.value;
          Events := Events + [Time(time)];
          var percentage := PercentOf(time, TotalDuration);
          if percentage.Some? && WholePercent(percentage.value) > lastProgressInt {
            lastProgressInt := WholePercent(percentage.value);
            Events := Events + [Percent(percentage.value)];
          }
        }
      }
    }
  }

  /** The worked example: with ten minutes to go, a frame line at five
      minutes raises five minutes, then 50.00 %. */
  lemma {:induction false} HalfWayExample()
    ensures React(-1, 10 * TicksPerMinute, "frame=1 time=00:05:00.00").Emitted
      == [Time(5 * TicksPerMinute), Percent(5000)]
  {
    var line := "frame=1 time=00:05:00.00";
    ExampleFind();
    ExampleParse();
    ExamplePercent();
    assert LineTime(line) == Some(Some(5 * TicksPerMinute));
    assert StartsWith(line, "frame");
  }

  /** Five minutes of ten is 50.00 %. */
  lemma {:induction false} ExamplePercent()
    ensures PercentOf(5 * TicksPerMinute, 10 * TicksPerMinute) == Some(5000)
    ensures WholePercent(5000) == 50
  {
    assert 5 * TicksPerMinute * 10000 == 5000 * (10 * TicksPerMinute) + 0;
  }

  /** The regex finds `00:05:00.00` at position 8 of the example line. */
  lemma {:induction false} ExampleFind()
    ensures FindProgress("frame=1 time=00:05:00.00", 0) == Some("00:05:00.00")
  {
    var line := "frame=1 time=00:05:00.00";
    ExampleMatch();
    assert FindProgress(line, 8) == Some("00:05:00.00");
    forall k | 0 <= k < 8
      ensures MatchAt(line, k).None?
    {
      NoMatchAt(line, k);
    }
    FindProgressSkip(line, 0, 8);
  }

  /** The regex matches at position 8 of the example line. */
  lemma {:induction false} ExampleMatch()
    ensures MatchAt("frame=1 time=00:05:00.00", 8) == Some("00:05:00.00")
  {
    var line := "frame=1 time=00:05:00.00";
    assert line[8..13] == "time=" && line[13..24] == "00:05:00.00";
  }

  /** No match starts where there is no `t`. */
  lemma {:induction false} NoMatchAt(line: string, i: nat)
    requires i < |line| && line[i] != 't'
    ensures MatchAt(line, i).None?
  {
    if i + 15 <= |line| {
      assert line[i..i + 5][0] != "time="[0];
    }
  }

  /** The search passes over positions where nothing matches. */
  lemma {:induction false} FindProgressSkip(line: string, lo: nat, hi: nat)
    requires lo <= hi <= |line|
    requires forall k :: lo <= k < hi ==> MatchAt(line, k).None?
    ensures FindProgress(line, lo) == FindProgress(line, hi)
    decreases hi - lo
  {
    if lo < hi {
      FindProgressSkip(line, lo + 1, hi);
    }
  }

  /** `00:05:00.00` parses to five minutes. */
  lemma {:induction false} ExampleParse()
    ensures ParseProgressTime("00:05:00.00") == Some(5 * TicksPerMinute)
  {
    var c := "00:05:00.00";
    assert c[0..2] == "00";
    assert c[3..5] == "05";
    assert c[6..8] == "00";
    assert c[9..] == "00";
    assert DigitsValue("00") == 0;
    assert DigitsValue("05") == 5;
  }

  /** `00:05:0012`, a digit in the separator's place, is read as 5 minutes
      and 12 seconds: the seconds are the run `0012`. */
  lemma {:induction false} ExampleRunParse()
    ensures ParseProgressTime("00:05:0012") == Some(5 * TicksPerMinute + 12 * TicksPerSecond)
  {
    var c := "00:05:0012";
    assert c[0..2] == "00" && c[3..5] == "05" && c[6..] == "0012";
    assert DigitsValue("0") == 0 && DigitsValue("00") == 0 && DigitsValue("05") == 5;
    assert "0012"[..3] == "001" && "001"[..2] == "00" && "00"[..1] == "0";
    assert DigitsValue("001") == 1 && DigitsValue("0012") == 12;
  }

  /** `00:05:00:50`, which the regex also captures, is read as zero days,
      5 hours and 50 seconds, not as five minutes. */
  lemma {:induction false} ExampleDayParse()
    ensures ParseProgressTime("00:05:00:50") == Some(5 * TicksPerHour + 50 * TicksPerSecond)
  {
    var c := "00:05:00:50";
    assert c[0..2] == "00";
    assert c[3..5] == "05";
    assert c[6..8] == "00";
    assert c[9..] == "50";
    assert DigitsValue("00") == 0;
    assert DigitsValue("05") == 5;
    assert DigitsValue("50") == 50;
  }
}
