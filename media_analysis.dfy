/** FFMpeg-Wrapper/ffprobe/MediaAnalysis.cs: what the wrapper derives from an
    ffprobe report — durations parsed from text, aspect ratios, disposition
    flags, languages, bit depths, the partition of streams by kind, the
    primary stream of each kind and the overall duration. Durations are
    TimeSpan ticks. */
module Ffprobe {
  import opened Wrappers
  import opened Text
  import opened Utils

  /* ---------------------------------------------------------------------- */
  /* MediaAnalysisUtils.ParseDuration                                        */
  /* ---------------------------------------------------------------------- */

  /** The four captured groups of `^(\d+):(\d{1,2}):(\d{1,2})\.(\d{1,3})`, as numbers;
      the fraction has already been right-padded to three digits. */
  datatype DurationFields = DurationFields(hours: nat, minutes: nat, seconds: nat, milliseconds: nat)

  /** `s` followed by zeros up to `width` characters (`PadRight(width, '0')`). */
  function PadRightZeros(s: string, width: nat): (r: string)
    ensures |r| == if |s| < width then width else |s|
    ensures r[..|s|] == s
  {
    if |s| < width then PadRightZeros(s, width - 1) + ['0'] else s
  }

  /** A run of one or more digits at the start of `s`, the character `term`
      right after it, and the text after that. */
  function LeadingField(s: string, term: char): (r: Option<(string, string)>)
    ensures r.Some? ==> |r.value.0| >= 1 && AllDigits(r.value.0) && s == r.value.0 + [term] + r.value.1
  {
    var a := DigitRun(s);
    if a == 0 || a == |s| || s[a] != term then None
    else Some((s[..a], s[a + 1..]))
  }

  /** The regular expression applied at the start of `s`. The quantifiers are
      greedy and the groups are separated by non-digits, so each group is the
      whole digit run at its place: a run of three or more digits before the
      second `:` or the `.` makes the match fail, while extra digits after
      the third fraction digit are simply not part of the match. */
  function MatchDuration(s: string): (r: Option<DurationFields>)
  {
    match LeadingField(s, ':')
    case None => None
    case Some((hh, r1)) =>
      match LeadingField(r1, ':')
      case None => None
      case Some((mm, r2)) =>
        if |mm| > 2 then None
        else match LeadingField(r2, '.')
          case None => None
          case Some((ss, r3)) =>
            if |ss| > 2 then None
            else MatchFraction(DigitsValue(hh), DigitsValue(mm), DigitsValue(ss), r3)
  }

  /** The `(\d{1,3})` group, right-padded to three digits. */
  function MatchFraction(h: nat, m: nat, sec: nat, r3: string): (r: Option<DurationFields>)
  {
    var d := if DigitRun(r3) < 3 then DigitRun(r3) else 3;
    if d == 0 then None
    else
      assert AllDigits(r3[..d]);
      PadRightZerosValue(r3[..d], 3);
      Some(DurationFields(h, m, sec, DigitsValue(PadRightZeros(r3[..d], 3))))
  }

  /** `new TimeSpan(0, hours, minutes, seconds, milliseconds)`, in ticks. */
  function FieldsToTicks(f: DurationFields): (t: nat)
    ensures t % TicksPerMillisecond == 0
  {
    var ms := ((f.hours * 60 + f.minutes) * 60 + f.seconds) * 1000 + f.milliseconds;
    ModUnique(ms * TicksPerMillisecond, TicksPerMillisecond, ms, 0);
    ms * TicksPerMillisecond
  }

  /** `MediaAnalysisUtils.ParseDuration`: zero for a null or empty text and
      for text that does not match; otherwise the matched fields, with no
      range check on minutes or seconds. */
  function ParseDuration(duration: Option<string>): (t: nat)
    ensures t % TicksPerMillisecond == 0
    ensures duration.None? || duration.value == [] ==> t == 0
    ensures duration.Some? && MatchDuration(duration.value).Some? ==> t == FieldsToTicks(MatchDuration(duration.value).value)
    ensures duration.Some? && MatchDuration(duration.value).None? ==> t == 0
  {
    match duration
    case None => 0
    case Some(s) =>
      if s == [] then 0
      else match MatchDuration(s)
        case None => 0
        case Some(f) => FieldsToTicks(f)
  }

  /** A fraction of one or two digits is read as tenths or hundredths:
      right-padding multiplies its value by ten per missing digit. */
  lemma {:induction false} PadRightZerosValue(s: string, width: nat)
    requires AllDigits(s) && |s| <= width
    ensures AllDigits(PadRightZeros(s, width))
    ensures DigitsValue(PadRightZeros(s, width)) == DigitsValue(s) * Pow10(width - |s|)
    decreases width
  {
    if |s| < width {
      var r, init := PadRightZeros(s, width), PadRightZeros(s, width - 1);
      PadRightZerosValue(s, width - 1);
      assert r == init + ['0'];
      DigitsSnoc(init, '0');
      var v, p := DigitsValue(s), Pow10(width - 1 - |s|);
      assert Pow10(width - |s|) == 10 * p;
      MulTen(v, p);
    }
  }

  /** Appending a digit shifts the value one place and adds the digit. */
  lemma {:induction false} DigitsSnoc(s: string, c: char)
    requires AllDigits(s) && IsDigit(c)
    ensures AllDigits(s + [c]) && DigitsValue(s + [c]) == DigitsValue(s) * 10 + DigitValue(c)
  {
    var t := s + [c];
    assert t[..|t| - 1] == s;
  }

  lemma {:induction false} MulTen(v: nat, p: nat)
    ensures v * p * 10 == v * (10 * p)
  {
  }

  /** ffprobe writes durations such as "00:12:02.11" with a two-digit
      fraction; the fraction group is padded with one zero, so those two
      digits count tens of milliseconds (110 ms in the example). */
  lemma {:induction false} ParseDurationPadsFraction(s: string)
    requires |s| == 11 && s[2] == ':' && s[5] == ':' && s[8] == '.'
    requires IsDigit(s[0]) && IsDigit(s[1]) && IsDigit(s[3]) && IsDigit(s[4])
    requires IsDigit(s[6]) && IsDigit(s[7]) && IsDigit(s[9]) && IsDigit(s[10])
    ensures ParseDuration(Some(s))
      == FieldsToTicks(DurationFields(TwoDigits(s[0], s[1]), TwoDigits(s[3], s[4]), TwoDigits(s[6], s[7]), TwoDigits(s[9], s[10]) * 10))
  {
    MatchOfClock(s);
    var r := s[9..];
    assert r[0] == s[9] && r[1] == s[10];
    FractionTwoDigits(TwoDigits(s[0], s[1]), TwoDigits(s[3], s[4]), TwoDigits(s[6], s[7]), r);
  }

  /** A fraction group of two digits is padded with one zero: it counts
      tens of milliseconds. */
  lemma {:induction false} FractionTwoDigits(h: nat, m: nat, sec: nat, r: string)
    requires |r| == 2 && IsDigit(r[0]) && IsDigit(r[1])
    ensures MatchFraction(h, m, sec, r) == Some(DurationFields(h, m, sec, TwoDigits(r[0], r[1]) * 10))
  {
    assert r[..2] == r;
    TwoDigitsValue(r);
    DigitRunIs(r, 2);
    PadRightZerosValue(r, 3);
    assert Pow10(1) == 10;
  }

  /** Two digits are worth ten times the first plus the second. */
  lemma {:induction false} TwoDigitsValue(f: string)
    requires |f| == 2 && IsDigit(f[0]) && IsDigit(f[1])
    ensures AllDigits(f) && DigitsValue(f) == TwoDigits(f[0], f[1])
  {
    assert f[..1] == [f[0]];
    assert DigitsValue([f[0]]) == DigitValue(f[0]);
  }

  /** The value of two digits. */
  function TwoDigits(a: char, b: char): nat
    requires IsDigit(a) && IsDigit(b)
  {
    DigitValue(a) * 10 + DigitValue(b)
  }

  /** A text of two-digit hours, minutes and seconds, each followed by its
      separator, matches with whatever follows the `.` as the fraction
      group's text. */
  lemma {:induction false} MatchOfClock(s: string)
    requires |s| >= 9 && s[2] == ':' && s[5] == ':' && s[8] == '.'
    requires IsDigit(s[0]) && IsDigit(s[1]) && IsDigit(s[3]) && IsDigit(s[4]) && IsDigit(s[6]) && IsDigit(s[7])
    ensures MatchDuration(s) == MatchFraction(TwoDigits(s[0], s[1]), TwoDigits(s[3], s[4]), TwoDigits(s[6], s[7]), s[9..])
  {
    var r1 := s[3..];
    var r2 := r1[3..];
    assert r2[3..] == s[9..];
    TwoDigitGroup(s);
    TwoDigitGroup(r1);
    TwoDigitGroup(r2);
    MatchOfGroups(s, s[..2], r1[..2], r2[..2], r1, r2, s[9..]);
  }

  /** Two digits followed by a non-digit are the leading field, worth their
      two-digit value. */
  lemma {:induction false} TwoDigitGroup(s: string)
    requires |s| >= 3 && IsDigit(s[0]) && IsDigit(s[1]) && !IsDigit(s[2])
    ensures LeadingField(s, s[2]) == Some((s[..2], s[3..]))
    ensures AllDigits(s[..2]) && DigitsValue(s[..2]) == TwoDigits(s[0], s[1])
  {
    var field := s[..2];
    TwoDigitsValue(field);
    TwoDigitField(s, field, s[2]);
  }

  /** The time text written by `GetFFMpegFormat` is read back by
      `ParseDuration` as the same time truncated to whole milliseconds, for
      every non-negative time below one day. */
  lemma {:induction false} ParseDurationOfFormat(t: int)
    requires 0 <= t < TicksPerDay
    ensures ParseDuration(Some(GetFFMpegFormat(t))) == t / TicksPerMillisecond * TicksPerMillisecond
  {
    var h, m, sec, f := Hours(t), Minutes(t), Seconds(t), TenThousandths(t);
    ComponentBounds(t);
    var fields := MatchRender(h, m, sec, f);
    ComponentsRecompose(t);
    ModUnique(t, TicksPerDay, 0, t);
    TruncateToMilliseconds(t, h * 3600 + m * 60 + sec, f);
  }

  /** What the regular expression captures from a rendered non-negative time. */
  lemma {:induction false} MatchRender(h: nat, m: nat, sec: nat, f: nat) returns (fields: DurationFields)
    requires h < 24 && m < 60 && sec < 60 && f < 10000
    ensures MatchDuration(Render(false, h, m, sec, f)) == Some(fields)
    ensures fields == DurationFields(h, m, sec, f / 10)
  {
    RenderFields(h, m, sec, f);
    assert Pow10(2) == 100;
    FieldValue(h, 2);
    FieldValue(m, 2);
    FieldValue(sec, 2);
    var r := Render(false, h, m, sec, f);
    MatchOfGroups(r, PadDigits(h, 2), PadDigits(m, 2), PadDigits(sec, 2), r[3..], r[6..], PadDigits(f, 4));
    FractionOfRender(h, m, sec, f);
    fields := DurationFields(h, m, sec, f / 10);
  }

  /** The match of a text whose three leading groups are known. */
  lemma {:induction false} MatchOfGroups(s: string, hh: string, mm: string, ss: string, r1: string, r2: string, r3: string)
    requires LeadingField(s, ':') == Some((hh, r1))
    requires LeadingField(r1, ':') == Some((mm, r2))
    requires LeadingField(r2, '.') == Some((ss, r3))
    requires |mm| <= 2 && |ss| <= 2
    ensures MatchDuration(s) == MatchFraction(DigitsValue(hh), DigitsValue(mm), DigitsValue(ss), r3)
  {
  }

  /** The hour, minute and second groups of a rendered time are its
      two-digit fields, and the four fraction digits follow the `.`. */
  lemma {:induction false} RenderFields(h: nat, m: nat, sec: nat, f: nat)
    ensures var s := Render(false, h, m, sec, f);
      && LeadingField(s, ':') == Some((PadDigits(h, 2), s[3..]))
      && LeadingField(s[3..], ':') == Some((PadDigits(m, 2), s[6..]))
      && LeadingField(s[6..], '.') == Some((PadDigits(sec, 2), PadDigits(f, 4)))
  {
    var hh, mm, ss, ff := PadDigits(h, 2), PadDigits(m, 2), PadDigits(sec, 2), PadDigits(f, 4);
    var s := Clock(hh, mm, ss, ff);
    assert Render(false, h, m, sec, f) == s;
    ClockSlices(hh, mm, ss, ff);
    TwoDigitField(s, hh, ':');
    TwoDigitField(s[3..], mm, ':');
    TwoDigitField(s[6..], ss, '.');
  }

  /** Where the fields of a clock text sit, seen from each field's start. */
  lemma {:induction false} ClockSlices(hh: string, mm: string, ss: string, ff: string)
    requires |hh| == 2 && |mm| == 2 && |ss| == 2 && |ff| == 4
    ensures var c := Clock(hh, mm, ss, ff);
      && c[..2] == hh && c[2] == ':'
      && c[3..][..2] == mm && c[3..][2] == ':' && c[3..][3..] == c[6..]
      && c[6..][..2] == ss && c[6..][2] == '.' && c[6..][3..] == ff
  {
    var c := Clock(hh, mm, ss, ff);
    assert c[3..][..2] == c[3..5];
    assert c[6..][..2] == c[6..8];
    assert c[6..][3..] == c[9..13];
  }

  /** Two digits followed by a non-digit `term` are the leading field. */
  lemma {:induction false} TwoDigitField(s: string, field: string, term: char)
    requires |s| >= 3 && s[..2] == field && AllDigits(field) && s[2] == term && !IsDigit(term)
    ensures LeadingField(s, term) == Some((field, s[3..]))
  {
    LeadingFieldAt(s, 2, term);
  }

  /** Two or more digits followed by `term` are the leading field. */
  lemma {:induction false} LeadingFieldAt(s: string, k: nat, term: char)
    requires 1 <= k < |s| && AllDigits(s[..k]) && s[k] == term && !IsDigit(term)
    ensures LeadingField(s, term) == Some((s[..k], s[k + 1..]))
  {
    DigitRunIs(s, k);
  }

  /** The fraction group of four rendered digits is their first three. */
  lemma {:induction false} FractionOfRender(h: nat, m: nat, sec: nat, f: nat)
    requires f < 10000
    ensures MatchFraction(h, m, sec, PadDigits(f, 4)) == Some(DurationFields(h, m, sec, f / 10))
  {
    var r3 := PadDigits(f, 4);
    assert r3[..4] == r3;
    DigitRunIs(r3, 4);
    var x := r3[..3];
    assert x == PadDigits(f / 10, 3);
    PadDigitsValue(f / 10, 3);
    assert Pow10(3) == 1000 && f / 10 < 1000;
    assert DigitsValue(x) == f / 10;
    assert PadRightZeros(x, 3) == x;
  }

  /** Arithmetic behind the round trip: dropping the last of four fraction
      digits truncates to whole milliseconds. */
  lemma {:induction false} TruncateToMilliseconds(t: nat, k: nat, f: nat)
    requires f < 10000 && k * TicksPerSecond + f * 1000 == t / 1000 * 1000
    ensures (k * 1000 + f / 10) * TicksPerMillisecond == t / TicksPerMillisecond * TicksPerMillisecond
  {
    var q := t / 1000;
    assert q == k * 10000 + f;
    ModUnique(t, 1000, q, t % 1000);
    ModUnique(t, 10000, k * 1000 + f / 10, (f % 10) * 1000 + t % 1000);
  }

  /* ---------------------------------------------------------------------- */
  /* Integers and ratios                                                     */
  /* ---------------------------------------------------------------------- */

  /** `int.Parse` reduced to an optional sign followed by decimal digits;
      anything else throws a FormatException (here `None`). */
  function ParseIntInvariant(line: string): (r: Option<int>)
    ensures r.Some? ==> |line| >= 1
  {
    if |line| >= 2 && line[0] == '-' && AllDigits(line[1..]) then Some(-(DigitsValue(line[1..]) as int))
    else if |line| >= 2 && line[0] == '+' && AllDigits(line[1..]) then Some(DigitsValue(line[1..]))
    else if |line| >= 1 && AllDigits(line) then Some(DigitsValue(line))
    else None
  }

  /** Parsing the invariant-culture rendering of an integer gives it back. */
  lemma {:induction false} ParseIntOfString(i: int)
    ensures ParseIntInvariant(IntToString(i)) == Some(i)
  {
    var s := IntToString(i);
    if i < 0 {
      var t := NatToString(-i);
      assert s == "-" + t && s[1..] == t;
      NatToStringValue(-i);
      assert ParseIntInvariant(s) == Some(-(DigitsValue(t) as int));
    } else {
      NatToStringValue(i);
      assert IsDigit(s[0]);
      assert ParseIntInvariant(s) == Some(DigitsValue(s));
    }
  }

  /** The first position of `c` in `s`. */
  function IndexOf(s: string, c: char): (r: Option<nat>)
    ensures r.Some? ==> r.value < |s| && s[r.value] == c && forall j :: 0 <= j < r.value ==> s[j] != c
    ensures r.None? ==> forall j :: 0 <= j < |s| ==> s[j] != c
  {
    if s == [] then None
    else if s[0] == c then Some(0)
    else match IndexOf(s[1..], c)
      case None => None
      case Some(k) => Some(k + 1)
  }

  /** The first `c` in `a + [c] + b` is the one after `a` when `a` has none. */
  lemma {:induction false} IndexOfAfter(a: string, b: string, c: char)
    requires forall j :: 0 <= j < |a| ==> a[j] != c
    ensures IndexOf(a + [c] + b, c) == Some(|a|)
  {
    if a != [] {
      assert (a + [c] + b)[1..] == a[1..] + [c] + b;
      IndexOfAfter(a[1..], b, c);
    }
  }

  /** Element `i` of `input.Split(separator)`, if there are that many. */
  function SplitPart(s: string, sep: char, i: nat): (r: Option<string>)
    ensures r.Some? ==> forall j :: 0 <= j < |r.value| ==> r.value[j] != sep
    decreases i
  {
    match IndexOf(s, sep)
    case None => if i == 0 then Some(s) else None
    case Some(k) => if i == 0 then Some(s[..k]) else SplitPart(s[k + 1..], sep, i - 1)
  }

  /** `MediaAnalysisUtils.ParseRatioInt`: (0, 0) for a null or empty text,
      otherwise the integers before and after the first separator (up to the
      next one). A missing second part (IndexOutOfRangeException) or a part
      that is not an integer (FormatException) is `None`. */
  function ParseRatioInt(input: Option<string>, separator: char): (r: Option<(int, int)>)
    ensures input.None? || input.value == [] ==> r == Some((0, 0))
  {
    if input.None? || input.value == [] then Some((0, 0))
    else
      match (SplitPart(input.value, separator, 0), SplitPart(input.value, separator, 1))
      case (Some(p0), Some(p1)) =>
        (match (ParseIntInvariant(p0), ParseIntInvariant(p1))
         case (Some(x), Some(y)) => Some((x, y))
         case _ => None)
      case _ => None
  }

  /** A ratio written as `x<sep>y` is read back as (x, y), whatever the separator,
      as long as it cannot occur inside a number. */
  lemma {:induction false} ParseRatioIntRoundTrip(x: int, y: int, sep: char)
    requires !IsDigit(sep) && sep != '-'
    ensures ParseRatioInt(Some(IntToString(x) + [sep] + IntToString(y)), sep) == Some((x, y))
  {
    var a, b := IntToString(x), IntToString(y);
    var s := a + [sep] + b;
    NoSeparatorInInt(x, sep);
    NoSeparatorInInt(y, sep);
    IndexOfAfter(a, b, sep);
    assert s[..|a|] == a && s[|a| + 1..] == b;
    ParseIntOfString(x);
    ParseIntOfString(y);
  }

  lemma {:induction false} NoSeparatorInInt(i: int, sep: char)
    requires !IsDigit(sep) && sep != '-'
    ensures forall j :: 0 <= j < |IntToString(i)| ==> IntToString(i)[j] != sep
  {
    var s := IntToString(i);
    if i < 0 {
      assert s == "-" + NatToString(-i);
      forall j | 0 <= j < |s| ensures s[j] != sep {
        if j > 0 {
          assert s[j] == NatToString(-i)[j - 1];
        }
      }
    }
  }

  /* ---------------------------------------------------------------------- */
  /* MediaAnalysisUtils.FormatDisposition                                    */
  /* ---------------------------------------------------------------------- */

  /** `ToBool`: 0 and 1 are false and true; any other value throws. */
  function ToBool(value: int): Result<bool> {
    if value == 0 then Success(false)
    else if value == 1 then Success(true)
    else Failure("Not expected disposition state value: " + IntToString(value))
  }

  /** The dictionary, entry by entry in iteration order; the first entry with
      a value other than 0 or 1 makes the whole call throw. */
  function DispositionSpec(pairs: seq<(string, int)>): (r: Result<seq<(string, bool)>>)
    ensures r.Success? ==> |r.value| == |pairs| && forall i :: 0 <= i < |pairs| ==> r.value[i].0 == pairs[i].0
  {
    if pairs == [] then Success([])
    else
      match ToBool(pairs[|pairs| - 1].1)
      case Failure(msg) =>
        (match DispositionSpec(pairs[..|pairs| - 1])
         case Failure(earlier) => Failure(earlier)
         case Success(_) => Failure(msg))
      case Success(b) =>
        (match DispositionSpec(pairs[..|pairs| - 1])
         case Failure(earlier) => Failure(earlier)
         case Success(rs) => Success(rs + [(pairs[|pairs| - 1].0, b)]))
  }

  /** `MediaAnalysisUtils.FormatDisposition`: null stays null; otherwise each
      entry is copied into a new dictionary with its value turned into a bool. */
  method FormatDisposition(disposition: Option<seq<(string, int)>>) returns (r: Result<Option<seq<(string, bool)>>>)
    ensures disposition.None? ==> r == Success(None)
    ensures disposition.Some? ==>
      match DispositionSpec(disposition.value)
      case Success(rs) => r == Success(Some(rs))
      case Failure(msg) => r == Failure(msg)
  {
    if disposition.None? {
      return Success(None);
    }
    var pairs := disposition.value;
    var result: seq<(string, bool)> := [];
    var i := 0;
    while i < |pairs|
      invariant 0 <= i <= |pairs|
      invariant DispositionSpec(pairs[..i]) == Success(result)
    {
      var b := ToBool(pairs[i].1);
      assert pairs[..i + 1][..i] == pairs[..i];
      if b.Failure? {
        assert pairs[..i + 1] == pairs[..i] + [pairs[i]];
        DispositionFailurePropagates(pairs, i + 1);
        return Failure(b.message);
      }
      result := result + [(pairs[i].0, b.value)];
      i := i + 1;
    }
    assert pairs[..i] == pairs;
    return Success(Some(result));
  }

  /** Once a prefix fails, every longer prefix fails with the same message. */
  lemma {:induction false} DispositionFailurePropagates(pairs: seq<(string, int)>, k: nat)
    requires 0 < k <= |pairs| && DispositionSpec(pairs[..k]).Failure?
    ensures DispositionSpec(pairs) == DispositionSpec(pairs[..k])
    decreases |pairs| - k
  {
    if k < |pairs| {
      assert pairs[..k + 1][..k] == pairs[..k];
      DispositionFailurePropagates(pairs, k + 1);
    } else {
      assert pairs[..k] == pairs;
    }
  }

  /** The conversion succeeds iff every value is 0 or 1, and then keeps the
      keys in order and maps 0 to false and 1 to true. */
  lemma {:induction false} DispositionSpecMeaning(pairs: seq<(string, int)>)
    ensures DispositionSpec(pairs).Success? <==> forall i :: 0 <= i < |pairs| ==> pairs[i].1 == 0 || pairs[i].1 == 1
    ensures DispositionSpec(pairs).Success? ==>
      var rs := DispositionSpec(pairs).value;
      |rs| == |pairs| && forall i :: 0 <= i < |pairs| ==> rs[i].0 == pairs[i].0 && (rs[i].1 <==> pairs[i].1 == 1)
  {
    if pairs != [] {
      var init := pairs[..|pairs| - 1];
      DispositionSpecMeaning(init);
      assert forall i :: 0 <= i < |init| ==> init[i] == pairs[i];
    }
  }

  /* ---------------------------------------------------------------------- */
  /* Languages                                                               */
  /* ---------------------------------------------------------------------- */

  /** An Iso639 language: its ISO 639-1, 639-2 and 639-3 codes, where it has them. */
  datatype Language = Language(part1: Option<string>, part2: Option<string>, part3: Option<string>)

  /** `Language.FromPart1`: the first catalog entry with that 639-1 code. */
  function FromPart1(catalog: seq<Language>, code: string): (r: Option<Language>)
    ensures r.Some? ==> r.value in catalog && r.value.part1 == Some(code)
    ensures r.None? ==> forall l :: l in catalog ==> l.part1 != Some(code)
  {
    if catalog == [] then None
    else if catalog[0].part1 == Some(code) then Some(catalog[0])
    else FromPart1(catalog[1..], code)
  }

  /** `Language.FromPart2`: the first catalog entry with that 639-2 code. */
  function FromPart2(catalog: seq<Language>, code: string): (r: Option<Language>)
    ensures r.Some? ==> r.value in catalog && r.value.part2 == Some(code)
    ensures r.None? ==> forall l :: l in catalog ==> l.part2 != Some(code)
  {
    if catalog == [] then None
    else if catalog[0].part2 == Some(code) then Some(catalog[0])
    else FromPart2(catalog[1..], code)
  }

  /** `Language.FromPart3`: the first catalog entry with that 639-3 code. */
  function FromPart3(catalog: seq<Language>, code: string): (r: Option<Language>)
    ensures r.Some? ==> r.value in catalog && r.value.part3 == Some(code)
    ensures r.None? ==> forall l :: l in catalog ==> l.part3 != Some(code)
  {
    if catalog == [] then None
    else if catalog[0].part3 == Some(code) then Some(catalog[0])
    else FromPart3(catalog[1..], code)
  }

  /** `MediaAnalysis.ParseLanguage`: two letters are a 639-1 code, three a
      639-2 code or failing that a 639-3 code; other lengths and null give null. */
  function ParseLanguage(catalog: seq<Language>, code: Option<string>): (r: Option<Language>)
    ensures r.Some? ==> code.Some? && r.value in catalog
    ensures r.Some? && |code.value| == 2 ==> r.value.part1 == code
    ensures r.Some? && |code.value| == 3 ==> r.value.part2 == code || r.value.part3 == code
    ensures code.Some? && |code.value| != 2 && |code.value| != 3 ==> r.None?
  {
    match code
    case None => None
    case Some(c) =>
      if |c| == 2 then FromPart1(catalog, c)
      else if |c| == 3 then (match FromPart2(catalog, c) case Some(l) => Some(l) case None => FromPart3(catalog, c))
      else None
  }

  /** A code of the right length that the catalog knows is always recognised. */
  lemma {:induction false} ParseLanguageFinds(catalog: seq<Language>, c: string, l: Language)
    requires l in catalog
    requires (|c| == 2 && l.part1 == Some(c)) || (|c| == 3 && (l.part2 == Some(c) || l.part3 == Some(c)))
    ensures ParseLanguage(catalog, Some(c)).Some?
  {
  }

  /* ---------------------------------------------------------------------- */
  /* Streams                                                                 */
  /* ---------------------------------------------------------------------- */

  /** The part of an ffprobe stream record the wrapper reads into its model. */
  datatype ProbeStream = ProbeStream(
    codecType: Option<string>,
    index: int,
    bitRate: Option<string>,
    bitsPerRawSample: Option<string>,
    bitsPerSample: int,
    sampleRate: Option<string>,
    displayAspectRatio: Option<string>,
    sampleAspectRatio: Option<string>,
    duration: Option<string>,
    startTime: Option<string>,
    language: Option<string>,
    disposition: Option<seq<(string, int)>>)

  /** `MediaAnalysis.GetBitDepth`: bits_per_raw_sample if it parses, else
      bits_per_sample; zero means unknown (null). */
  function GetBitDepth(stream: ProbeStream): (r: Option<int>)
    ensures r != Some(0)
    ensures r.None? <==> (if stream.bitsPerRawSample.Some? && ParseIntInvariant(stream.bitsPerRawSample.value).Some?
                          then ParseIntInvariant(stream.bitsPerRawSample.value).value else stream.bitsPerSample) == 0
  {
    var bitDepth :=
      if stream.bitsPerRawSample.Some? && ParseIntInvariant(stream.bitsPerRawSample.value).Some?
      then ParseIntInvariant(stream.bitsPerRawSample.value).value
      else stream.bitsPerSample;
    if bitDepth == 0 then None else Some(bitDepth)
  }

  datatype StreamKind = Video | Audio | Subtitle

  function KindName(kind: StreamKind): string {
    match kind
    case Video => "video"
    case Audio => "audio"
    case Subtitle => "subtitle"
  }

  /** A parsed stream: what every kind carries (bit rate, times, language,
      disposition, bit depth), the video fields (raw sample bits, aspect
      ratios) and the audio sample rate. A field the kind does not have
      holds its default. */
  datatype MediaStream = MediaStream(
    kind: StreamKind,
    index: int,
    bitRate: int,
    bitsPerRawSample: int,
    displayAspectRatio: (int, int),
    sampleAspectRatio: (int, int),
    duration: nat,
    startTime: nat,
    sampleRateHz: int,
    language: Option<Language>,
    disposition: Option<seq<(string, bool)>>,
    bitDepth: Option<int>)

  /** The message of the `FormatException` a malformed number raises. */
  const FormatError := "Input string was not in a correct format."

  /** An optional numeric field that reads without throwing: null, empty,
      or an integer. */
  predicate IntText(text: Option<string>) {
    text.None? || text.value == [] || ParseIntInvariant(text.value).Some?
  }

  /** An optional numeric field reads as `v`: null or empty text is the
      default 0, anything else is the integer it spells. */
  predicate ReadsAs(text: Option<string>, v: int) {
    if text.None? || text.value == [] then v == 0 else ParseIntInvariant(text.value) == Some(v)
  }

  /** `!string.IsNullOrEmpty(text) ? ParseIntInvariant(text) : default`. */
  function OptionalInt(text: Option<string>): (r: Result<int>)
    ensures r.Success? <==> IntText(text)
    ensures r.Success? ==> ReadsAs(text, r.value)
    ensures r.Failure? ==> r.message == FormatError
  {
    if text.None? || text.value == [] then Success(0)
    else
      match ParseIntInvariant(text.value)
      case Some(v) => Success(v)
      case None => Failure(FormatError)
  }

  /** `ParseRatioInt(text, ':')` for an aspect ratio; a malformed ratio throws. */
  function RatioField(text: Option<string>): (r: Result<(int, int)>)
    ensures r.Success? <==> ParseRatioInt(text, ':').Some?
    ensures r.Success? ==> ParseRatioInt(text, ':') == Some(r.value)
    ensures r.Failure? ==> r.message == FormatError
  {
    match ParseRatioInt(text, ':')
    case Some(p) => Success(p)
    case None => Failure(FormatError)
  }

  /** The numbers of a stream of the kind all read without throwing: the
      bit rate; for video the raw sample bits and both aspect ratios; for
      audio the sample rate. */
  predicate NumbersParse(kind: StreamKind, s: ProbeStream) {
    && IntText(s.bitRate)
    && (kind == Video ==>
          (IntText(s.bitsPerRawSample)
           && ParseRatioInt(s.displayAspectRatio, ':').Some? && ParseRatioInt(s.sampleAspectRatio, ':').Some?))
    && (kind == Audio ==> IntText(s.sampleRate))
  }

  /** A disposition is absent or holds only 0 and 1. */
  predicate DispositionParses(d: Option<seq<(string, int)>>) {
    d.None? || forall i :: 0 <= i < |d.value| ==> d.value[i].1 == 0 || d.value[i].1 == 1
  }

  /** A stream of the kind is read without an exception. */
  predicate StreamParses(kind: StreamKind, s: ProbeStream) {
    NumbersParse(kind, s) && DispositionParses(s.disposition)
  }

  /** A converted disposition: null stays null, otherwise the same keys in
      the same order, 1 read as true and 0 as false. */
  predicate DispositionAs(d: Option<seq<(string, int)>>, r: Option<seq<(string, bool)>>) {
    && (d.None? <==> r.None?)
    && (d.Some? && r.Some? ==>
          |r.value| == |d.value|
          && forall i :: 0 <= i < |d.value| ==> r.value[i].0 == d.value[i].0 && (r.value[i].1 <==> d.value[i].1 == 1))
  }

  /** `m` is what the parse method of the kind builds from `s`. */
  predicate ParsedFrom(catalog: seq<Language>, kind: StreamKind, s: ProbeStream, m: MediaStream) {
    && m.kind == kind && m.index == s.index
    && ReadsAs(s.bitRate, m.bitRate)
    && (if kind == Video
        then ReadsAs(s.bitsPerRawSample, m.bitsPerRawSample)
             && ParseRatioInt(s.displayAspectRatio, ':') == Some(m.displayAspectRatio)
             && ParseRatioInt(s.sampleAspectRatio, ':') == Some(m.sampleAspectRatio)
        else m.bitsPerRawSample == 0 && m.displayAspectRatio == (0, 0) && m.sampleAspectRatio == (0, 0))
    && m.duration == ParseDuration(s.duration) && m.startTime == ParseDuration(s.startTime)
    && (if kind == Audio then ReadsAs(s.sampleRate, m.sampleRateHz) else m.sampleRateHz == 0)
    && m.language == ParseLanguage(catalog, s.language)
    && DispositionAs(s.disposition, m.disposition)
    && m.bitDepth == (if kind == Subtitle then None else GetBitDepth(s))
  }

  /** `ParseVideoStream` / `ParseAudioStream` / `ParseSubtitleStream`. The
      object initialiser reads the fields in order, so the first one that
      throws decides the exception: the bit rate, then (video) the raw
      sample bits and the two ratios or (audio) the sample rate, and only
      then the disposition. */
  function ParseStream(catalog: seq<Language>, kind: StreamKind, s: ProbeStream): (r: Result<MediaStream>)
    ensures r.Success? <==> StreamParses(kind, s)
    ensures r.Success? ==> ParsedFrom(catalog, kind, s, r.value)
    ensures !NumbersParse(kind, s) ==> r == Failure(FormatError)
    ensures NumbersParse(kind, s) && s.disposition.Some? && DispositionSpec(s.disposition.value).Failure? ==>
      r == Failure(DispositionSpec(s.disposition.value).message)
  {
    DispositionSpecMeaning(s.disposition.GetOr([]));
    var bitRate := OptionalInt(s.bitRate);
    var rawBits := if kind == Video then OptionalInt(s.bitsPerRawSample) else Success(0);
    var dar := if kind == Video then RatioField(s.displayAspectRatio) else Success((0, 0));
    var sar := if kind == Video then RatioField(s.sampleAspectRatio) else Success((0, 0));
    var sampleRate := if kind == Audio then OptionalInt(s.sampleRate) else Success(0);
    if bitRate.Failure? then Failure(bitRate.message)
    else if rawBits.Failure? then Failure(rawBits.message)
    else if dar.Failure? then Failure(dar.message)
    else if sar.Failure? then Failure(sar.message)
    else if sampleRate.Failure? then Failure(sampleRate.message)
    else if s.disposition.Some? && DispositionSpec(s.disposition.value).Failure? then
      Failure(DispositionSpec(s.disposition.value).message)
    else
      var disposition := if s.disposition.Some? then Some(DispositionSpec(s.disposition.value).value) else None;
      Success(MediaStream(kind, s.index, bitRate.value, rawBits.value, dar.value, sar.value,
                          ParseDuration(s.duration), ParseDuration(s.startTime), sampleRate.value,
                          ParseLanguage(catalog, s.language), disposition,
                          if kind == Subtitle then None else GetBitDepth(s)))
  }

  /** `analysis.Streams.Where(stream => stream.CodecType == kind)`. */
  function StreamsOfKind(streams: seq<ProbeStream>, kind: StreamKind): (r: seq<ProbeStream>)
    ensures |r| <= |streams|
    ensures forall x :: x in r ==> x in streams && x.codecType == Some(KindName(kind))
  {
    if streams == [] then []
    else
      var rest := StreamsOfKind(streams[..|streams| - 1], kind);
      var last := streams[|streams| - 1];
      if last.codecType == Some(KindName(kind)) then rest + [last] else rest
  }

  /** Every stream of the kind is kept, as many times as it occurs. */
  lemma {:induction false} StreamsOfKindCount(streams: seq<ProbeStream>, kind: StreamKind, x: ProbeStream)
    ensures multiset(StreamsOfKind(streams, kind))[x]
            == if x.codecType == Some(KindName(kind)) then multiset(streams)[x] else 0
  {
    if streams != [] {
      var init := streams[..|streams| - 1];
      StreamsOfKindCount(init, kind, x);
      assert streams == init + [streams[|streams| - 1]];
    }
  }

  /** The three kinds are disjoint: together they hold each stream at most once,
      and every stream of a known kind exactly once. */
  lemma {:induction false} PartitionSizes(streams: seq<ProbeStream>)
    ensures |StreamsOfKind(streams, Video)| + |StreamsOfKind(streams, Audio)| + |StreamsOfKind(streams, Subtitle)|
            == |streams| - |OtherStreams(streams)|
  {
    if streams != [] {
      PartitionSizes(streams[..|streams| - 1]);
    }
  }

  /** The streams of no kind the wrapper knows (data, attachment, null). */
  function OtherStreams(streams: seq<ProbeStream>): seq<ProbeStream> {
    if streams == [] then []
    else
      var rest := OtherStreams(streams[..|streams| - 1]);
      var last := streams[|streams| - 1];
      if last.codecType in {Some("video"), Some("audio"), Some("subtitle")} then rest else rest + [last]
  }

  /** Every selected stream of the kind is read without an exception. */
  predicate AllParse(kind: StreamKind, streams: seq<ProbeStream>) {
    forall i :: 0 <= i < |streams| ==> StreamParses(kind, streams[i])
  }

  /** `parsed` holds, in order, the stream each of `streams` parses to. */
  predicate ParsedList(catalog: seq<Language>, kind: StreamKind, streams: seq<ProbeStream>, parsed: seq<MediaStream>) {
    |parsed| == |streams| && forall i :: 0 <= i < |streams| ==> ParseStream(catalog, kind, streams[i]) == Success(parsed[i])
  }

  /** `.Select(Parse…Stream).ToList()`: every selected stream parsed, in
      order; the first stream that throws decides the exception. */
  function ParseStreams(catalog: seq<Language>, kind: StreamKind, streams: seq<ProbeStream>): (r: Result<seq<MediaStream>>)
    ensures r.Success? <==> AllParse(kind, streams)
    ensures r.Success? ==> ParsedList(catalog, kind, streams, r.value)
    ensures r.Failure? ==> FirstFailure(catalog, kind, streams, r.message)
  {
    if streams == [] then Success([])
    else
      var front := streams[..|streams| - 1];
      var last := streams[|streams| - 1];
      StreamsPrefix(streams);
      match ParseStreams(catalog, kind, front)
      case Failure(msg) => FirstFailureExtends(catalog, kind, streams, msg); Failure(msg)
      case Success(init) =>
        match ParseStream(catalog, kind, last)
        case Failure(msg) => FirstFailureLast(catalog, kind, streams, msg); Failure(msg)
        case Success(m) => StreamsStep(catalog, kind, streams, init, m); Success(init + [m])
  }

  /** Stream `i` is the first one that throws, with message `msg`. */
  predicate FirstFailure(catalog: seq<Language>, kind: StreamKind, streams: seq<ProbeStream>, msg: string) {
    exists i :: 0 <= i < |streams| && FailsWith(catalog, kind, streams, i, msg)
  }

  predicate FailsWith(catalog: seq<Language>, kind: StreamKind, streams: seq<ProbeStream>, i: nat, msg: string)
    requires i < |streams|
  {
    AllParse(kind, streams[..i]) && ParseStream(catalog, kind, streams[i]) == Failure(msg)
  }

  /** The streams before the last, element by element and prefix by prefix. */
  lemma {:induction false} StreamsPrefix(streams: seq<ProbeStream>)
    requires streams != []
    ensures var front := streams[..|streams| - 1];
      forall i :: 0 <= i < |front| ==> front[i] == streams[i] && front[..i] == streams[..i]
  {
  }

  /** A first failure among the streams before the last is the first failure of all. */
  lemma {:induction false} FirstFailureExtends(catalog: seq<Language>, kind: StreamKind, streams: seq<ProbeStream>, msg: string)
    requires streams != [] && FirstFailure(catalog, kind, streams[..|streams| - 1], msg)
    ensures FirstFailure(catalog, kind, streams, msg)
  {
    var front := streams[..|streams| - 1];
    var i :| 0 <= i < |front| && FailsWith(catalog, kind, front, i, msg);
    assert front[..i] == streams[..i] && front[i] == streams[i];
    assert FailsWith(catalog, kind, streams, i, msg);
  }

  /** When all streams before the last parse, a failing last one is the first failure. */
  lemma {:induction false} FirstFailureLast(catalog: seq<Language>, kind: StreamKind, streams: seq<ProbeStream>, msg: string)
    requires streams != [] && AllParse(kind, streams[..|streams| - 1])
    requires ParseStream(catalog, kind, streams[|streams| - 1]) == Failure(msg)
    ensures FirstFailure(catalog, kind, streams, msg)
  {
    assert FailsWith(catalog, kind, streams, |streams| - 1, msg);
  }

  /** One more parsed stream keeps the parsed list aligned with the input. */
  lemma {:induction false} StreamsStep(catalog: seq<Language>, kind: StreamKind, streams: seq<ProbeStream>, init: seq<MediaStream>, last: MediaStream)
    requires streams != [] && ParsedList(catalog, kind, streams[..|streams| - 1], init)
    requires ParseStream(catalog, kind, streams[|streams| - 1]) == Success(last)
    ensures ParsedList(catalog, kind, streams, init + [last])
  {
    var all := init + [last];
    forall i | 0 <= i < |streams|
      ensures ParseStream(catalog, kind, streams[i]) == Success(all[i])
    {
      if i < |init| {
        assert all[i] == init[i] && streams[..|streams| - 1][i] == streams[i];
      }
    }
  }

  /** Every stream of a parsed list is of the kind. */
  lemma {:induction false} ParsedListKinds(catalog: seq<Language>, kind: StreamKind, streams: seq<ProbeStream>, parsed: seq<MediaStream>)
    requires ParsedList(catalog, kind, streams, parsed)
    ensures forall m :: m in parsed ==> m.kind == kind
  {
    forall m | m in parsed
      ensures m.kind == kind
    {
      var i :| 0 <= i < |parsed| && parsed[i] == m;
      assert ParseStream(catalog, kind, streams[i]) == Success(m);
    }
  }

  /** `streams.OrderBy(stream => stream.Index).FirstOrDefault()`: the stream
      with the least index; the sort is stable, so the earliest among equals. */
  function PrimaryStream(streams: seq<MediaStream>): (r: Option<MediaStream>)
    ensures r.None? <==> streams == []
    ensures r.Some? ==> r.value in streams && forall s :: s in streams ==> r.value.index <= s.index
  {
    if streams == [] then None
    else
      match PrimaryStream(streams[1..])
      case None => Some(streams[0])
      case Some(p) => if p.index < streams[0].index then Some(p) else Some(streams[0])
  }

  /** The primary stream is the first one holding the least index: every
      stream before it has a strictly larger index. */
  lemma {:induction false} PrimaryStreamIsFirstLeast(streams: seq<MediaStream>)
    requires streams != []
    ensures exists k :: (0 <= k < |streams| && streams[k] == PrimaryStream(streams).value
                         && forall j :: 0 <= j < k ==> streams[j].index > streams[k].index)
  {
    var p := PrimaryStream(streams).value;
    if p == streams[0] {
      assert streams[0] == p;
    } else {
      var rest := streams[1..];
      PrimaryStreamIsFirstLeast(rest);
      var k :| 0 <= k < |rest| && rest[k] == PrimaryStream(rest).value
               && forall j :: 0 <= j < k ==> rest[j].index > rest[k].index;
      assert streams[k + 1] == p;
      forall j | 0 <= j < k + 1 ensures streams[j].index > streams[k + 1].index {
        if j > 0 {
          assert streams[j] == rest[j - 1];
        }
      }
    }
  }

  /* ---------------------------------------------------------------------- */
  /* MediaAnalysis                                                           */
  /* ---------------------------------------------------------------------- */

  /** The part of an ffprobe report the wrapper reads. */
  datatype ProbeReport = ProbeReport(
    formatDuration: Option<string>,
    formatStartTime: Option<string>,
    formatBitRate: Option<string>,
    streams: seq<ProbeStream>,
    errorData: seq<string>)

  /** `long.Parse(analysisFormat.BitRate ?? "0")`: a missing bit rate is 0;
      an empty or malformed one throws. */
  function FormatBitRate(text: Option<string>): (r: Result<int>)
    ensures text.None? ==> r == Success(0)
    ensures text.Some? ==> (r.Success? <==> ParseIntInvariant(text.value).Some?)
    ensures text.Some? && r.Success? ==> ParseIntInvariant(text.value) == Some(r.value)
    ensures r.Failure? ==> r.message == FormatError
  {
    match ParseIntInvariant(text.GetOr("0"))
    case Some(v) => Success(v)
    case None => Failure(FormatError)
  }

  /** The analysis of one media file. It is an object: inputs registered in
      the root-namespace `TranscodeArguments` are told apart by reference. */
  class MediaAnalysis {
    const FilePath: string
    const FormatDuration: nat
    const FormatStartTime: nat
    const FormatBitRate: int
    const VideoStreams: seq<MediaStream>
    const AudioStreams: seq<MediaStream>
    const SubtitleStreams: seq<MediaStream>
    const ErrorData: seq<string>

    predicate Valid() {
      && (forall s :: s in VideoStreams ==> s.kind == Video)
      && (forall s :: s in AudioStreams ==> s.kind == Audio)
      && (forall s :: s in SubtitleStreams ==> s.kind == Subtitle)
    }

    /** The constructor, given the already parsed format and stream lists
        (see `NewMediaAnalysis`). */
    constructor (filePath: string, formatDuration: nat, formatStartTime: nat, formatBitRate: int,
                 video: seq<MediaStream>, audio: seq<MediaStream>, subtitle: seq<MediaStream>, errorData: seq<string>)
      requires (forall s :: s in video ==> s.kind == Video) && (forall s :: s in audio ==> s.kind == Audio)
      requires forall s :: s in subtitle ==> s.kind == Subtitle
      ensures Valid()
      ensures FilePath == filePath && FormatDuration == formatDuration && FormatStartTime == formatStartTime
      ensures FormatBitRate == formatBitRate
      ensures VideoStreams == video && AudioStreams == audio && SubtitleStreams == subtitle && ErrorData == errorData
    {
      FilePath := filePath;
      FormatDuration := formatDuration;
      FormatStartTime := formatStartTime;
      FormatBitRate := formatBitRate;
      VideoStreams := video;
      AudioStreams := audio;
      SubtitleStreams := subtitle;
      ErrorData := errorData;
    }

    /** `PrimaryVideoStream`: the video stream with the least index. */
    function PrimaryVideoStream(): (r: Option<MediaStream>)
      ensures r.None? <==> VideoStreams == []
      ensures r.Some? ==> r.value in VideoStreams && forall s :: s in VideoStreams ==> r.value.index <= s.index
    {
      PrimaryStream(VideoStreams)
    }

    /** `PrimaryAudioStream`: the audio stream with the least index. */
    function PrimaryAudioStream(): (r: Option<MediaStream>)
      ensures r.None? <==> AudioStreams == []
      ensures r.Some? ==> r.value in AudioStreams && forall s :: s in AudioStreams ==> r.value.index <= s.index
    {
      PrimaryStream(AudioStreams)
    }

    /** `PrimarySubtitleStream`: the subtitle stream with the least index. */
    function PrimarySubtitleStream(): (r: Option<MediaStream>)
      ensures r.None? <==> SubtitleStreams == []
      ensures r.Some? ==> r.value in SubtitleStreams && forall s :: s in SubtitleStreams ==> r.value.index <= s.index
    {
      PrimaryStream(SubtitleStreams)
    }

    /** `MediaAnalysis.Duration`: the largest of the container duration and the
        durations of the primary video and audio streams (zero when absent). */
    function Duration(): (d: nat)
      ensures d >= FormatDuration
      ensures PrimaryVideoStream().Some? ==> d >= PrimaryVideoStream().value.duration
      ensures PrimaryAudioStream().Some? ==> d >= PrimaryAudioStream().value.duration
      ensures d == FormatDuration
              || (PrimaryVideoStream().Some? && d == PrimaryVideoStream().value.duration)
              || (PrimaryAudioStream().Some? && d == PrimaryAudioStream().value.duration)
    {
      var v := match PrimaryVideoStream() case Some(s) => s.duration case None => 0;
      var a := match PrimaryAudioStream() case Some(s) => s.duration case None => 0;
      var m := if FormatDuration >= v then FormatDuration else v;
      if m >= a then m else a
    }
  }

  /** The stream-parsing half of the `MediaAnalysis` constructor: the video,
      then the audio, then the subtitle streams, each in their original
      order; the first stream that throws decides the exception. */
  function Analyze(catalog: seq<Language>, report: ProbeReport): (r: Result<(seq<MediaStream>, seq<MediaStream>, seq<MediaStream>)>)
    ensures var video, audio, subtitle :=
        StreamsOfKind(report.streams, Video), StreamsOfKind(report.streams, Audio), StreamsOfKind(report.streams, Subtitle);
      && (r.Success? <==> AllParse(Video, video) && AllParse(Audio, audio) && AllParse(Subtitle, subtitle))
      && (r.Success? ==> ParsedList(catalog, Video, video, r.value.0) && ParsedList(catalog, Audio, audio, r.value.1)
                         && ParsedList(catalog, Subtitle, subtitle, r.value.2))
      && (!AllParse(Video, video) ==> r.Failure? && FirstFailure(catalog, Video, video, r.message))
      && (AllParse(Video, video) && !AllParse(Audio, audio) ==> r.Failure? && FirstFailure(catalog, Audio, audio, r.message))
      && (AllParse(Video, video) && AllParse(Audio, audio) && !AllParse(Subtitle, subtitle) ==>
            r.Failure? && FirstFailure(catalog, Subtitle, subtitle, r.message))
  {
    match ParseStreams(catalog, Video, StreamsOfKind(report.streams, Video))
    case Failure(msg) => Failure(msg)
    case Success(video) =>
      match ParseStreams(catalog, Audio, StreamsOfKind(report.streams, Audio))
      case Failure(msg) => Failure(msg)
      case Success(audio) =>
        match ParseStreams(catalog, Subtitle, StreamsOfKind(report.streams, Subtitle))
        case Failure(msg) => Failure(msg)
        case Success(subtitle) => Success((video, audio, subtitle))
  }

  /** `new MediaAnalysis(analysis, filePath)`: the format's bit rate is read
      first, then the streams; the object exists exactly when none of them
      throws, and otherwise the first exception is the result. */
  method NewMediaAnalysis(catalog: seq<Language>, report: ProbeReport, filePath: string) returns (r: Result<MediaAnalysis>)
    ensures var video, audio, subtitle :=
        StreamsOfKind(report.streams, Video), StreamsOfKind(report.streams, Audio), StreamsOfKind(report.streams, Subtitle);
      r.Success? <==> FormatBitRate(report.formatBitRate).Success?
                      && AllParse(Video, video) && AllParse(Audio, audio) && AllParse(Subtitle, subtitle)
    ensures FormatBitRate(report.formatBitRate).Failure? ==> r == Failure(FormatError)
    ensures FormatBitRate(report.formatBitRate).Success? && Analyze(catalog, report).Failure? ==>
      r == Failure(Analyze(catalog, report).message)
    ensures r.Success? ==> (fresh(r.value) && r.value.Valid() && r.value.FilePath == filePath
      && r.value.FormatDuration == ParseDuration(report.formatDuration)
      && r.value.FormatStartTime == ParseDuration(report.formatStartTime)
      && r.value.FormatBitRate == FormatBitRate(report.formatBitRate).value
      && ParsedList(catalog, Video, StreamsOfKind(report.streams, Video), r.value.VideoStreams)
      && ParsedList(catalog, Audio, StreamsOfKind(report.streams, Audio), r.value.AudioStreams)
      && ParsedList(catalog, Subtitle, StreamsOfKind(report.streams, Subtitle), r.value.SubtitleStreams)
      && r.value.ErrorData == report.errorData)
  {
    var bitRate := FormatBitRate(report.formatBitRate);
    if bitRate.Failure? {
      return Failure(bitRate.message);
    }
    var parsed := Analyze(catalog, report);
    if parsed.Failure? {
      return Failure(parsed.message);
    }
    var (video, audio, subtitle) := parsed.value;
    ParsedListKinds(catalog, Video, StreamsOfKind(report.streams, Video), video);
    ParsedListKinds(catalog, Audio, StreamsOfKind(report.streams, Audio), audio);
    ParsedListKinds(catalog, Subtitle, StreamsOfKind(report.streams, Subtitle), subtitle);
    var a := new MediaAnalysis(filePath, ParseDuration(report.formatDuration), ParseDuration(report.formatStartTime),
                               bitRate.value, video, audio, subtitle, report.errorData);
    return Success(a);
  }

  /** A stream together with the analysis it was read from: the
      `SourceFile` every `MediaStream` is constructed with. */
  datatype SourcedStream = SourcedStream(Stream: MediaStream, Source: MediaAnalysis)

  /** The streams of one analysis, each knowing it as its source. */
  function FromFile(file: MediaAnalysis, streams: seq<MediaStream>): (r: seq<SourcedStream>)
    ensures |r| == |streams| && forall i :: 0 <= i < |r| ==> r[i] == SourcedStream(streams[i], file)
  {
    seq(|streams|, i requires 0 <= i < |streams| => SourcedStream(streams[i], file))
  }

  /** The streams themselves, without their sources. */
  function StreamsOf(streams: seq<SourcedStream>): (r: seq<MediaStream>)
    ensures |r| == |streams| && forall i :: 0 <= i < |r| ==> r[i] == streams[i].Stream
  {
    if streams == [] then []
    else
      var front := StreamsOf(streams[..|streams| - 1]);
      var r := front + [streams[|streams| - 1].Stream];
      assert forall i :: 0 <= i < |front| ==> r[i] == front[i];
      r
  }

  /** Dropping the sources of the first `i + 1` streams is dropping those
      of the first `i`, then that of stream `i`. */
  lemma {:induction false} StreamsOfStep(streams: seq<SourcedStream>, i: int)
    requires 0 <= i < |streams|
    ensures StreamsOf(streams[..i + 1]) == StreamsOf(streams[..i]) + [streams[i].Stream]
  {
    assert streams[..i + 1][..i] == streams[..i];
  }

  /** Taking the streams of one file and dropping the source gives them back. */
  lemma {:induction false} StreamsOfFromFile(file: MediaAnalysis, streams: seq<MediaStream>)
    ensures StreamsOf(FromFile(file, streams)) == streams
  {
    var r := StreamsOf(FromFile(file, streams));
    assert |r| == |streams|;
    assert forall i :: 0 <= i < |r| ==> r[i] == streams[i];
  }
}
