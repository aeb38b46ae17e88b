/** FFMpeg-Wrapper/Utils.cs: the `[-]hh:mm:ss.ffff` rendering of a TimeSpan
    and the escaping of double quotes. A TimeSpan is a signed number of
    100-nanosecond ticks. */
module Utils {
  import opened Wrappers
  import opened Text

  const TicksPerMillisecond: nat := 10_000
  const TicksPerSecond: nat := 10_000_000
  const TicksPerMinute: nat := 600_000_000
  const TicksPerHour: nat := 36_000_000_000
  const TicksPerDay: nat := 864_000_000_000

  function Abs(t: int): nat {
    if t < 0 then -t else t
  }

  function Sign(t: int): int {
    if t < 0 then -1 else 1
  }

  /** The TimeSpan components the custom format prints: they are taken from
      the absolute value, and whole days are not part of them. */
  function Hours(t: int): nat { Abs(t) / TicksPerHour % 24 }
  function Minutes(t: int): nat { Abs(t) / TicksPerMinute % 60 }
  function Seconds(t: int): nat { Abs(t) / TicksPerSecond % 60 }
  function TenThousandths(t: int): nat { Abs(t) % TicksPerSecond / 1000 }

  /** `time.GetFFMpegFormat()`: an optional minus sign, then `hh:mm:ss.ffff`. */
  function GetFFMpegFormat(time: int): (r: string)
    ensures |r| == (if time < 0 then 14 else 13)
  {
    Render(time < 0, Hours(time), Minutes(time), Seconds(time), TenThousandths(time))
  }

  /** The text for a sign and four components, each zero-padded to its width. */
  function Render(neg: bool, h: nat, m: nat, sec: nat, f: nat): (r: string)
    ensures |r| == (if neg then 14 else 13)
  {
    (if neg then "-" else "")
    + Clock(PadDigits(h, 2), PadDigits(m, 2), PadDigits(sec, 2), PadDigits(f, 4))
  }

  /** The `hh:mm:ss.ffff` part, from its four digit fields. */
  function Clock(hh: string, mm: string, ss: string, ffff: string): (c: string)
    requires |hh| == 2 && |mm| == 2 && |ss| == 2 && |ffff| == 4
    ensures |c| == 13
    ensures c[0..2] == hh && c[2] == ':' && c[3..5] == mm && c[5] == ':'
    ensures c[6..8] == ss && c[8] == '.' && c[9..13] == ffff
  {
    hh + ":" + mm + ":" + ss + "." + ffff
  }

  /** `TimeSpan.Parse` on text of the shape `GetFFMpegFormat` writes:
      `[-]hh:mm:ss.ffff`, with hours below 24 and minutes and seconds below
      60 (otherwise .NET throws an OverflowException, here `None`). */
  function ParseTimeSpan(s: string): (r: Option<int>)
    ensures r.Some? ==> |s| == 13 || |s| == 14
    ensures r.Some? ==> -(TicksPerDay as int) < r.value < TicksPerDay && r.value % 1000 == 0
    ensures r.Some? && r.value < 0 ==> s[0] == '-'
  {
    var neg := |s| > 0 && s[0] == '-';
    match ParseClockText(if neg then s[1..] else s)
    case None => None
    case Some(mag) =>
      NegatedThousands(mag);
      Some(if neg then -mag else mag)
  }

  /** The `hh:mm:ss.ffff` part: two-digit hours below 24, minutes and
      seconds below 60, and four digits of ten-thousandths. */
  function ParseClockText(b: string): (r: Option<int>)
    ensures r.Some? ==> |b| == 13 && 0 <= r.value < TicksPerDay && r.value % 1000 == 0
  {
    if |b| == 13 && AllDigits(b[0..2]) && b[2] == ':' && AllDigits(b[3..5]) && b[5] == ':'
       && AllDigits(b[6..8]) && b[8] == '.' && AllDigits(b[9..13]) then
      var h, m, sec, f := DigitsValue(b[0..2]), DigitsValue(b[3..5]), DigitsValue(b[6..8]), DigitsValue(b[9..13]);
      if h < 24 && m < 60 && sec < 60 then
        assert Pow10(4) == 10000;
        Some(ClockTicks(h, m, sec, f))
      else None
    else None
  }

  /** The negation of a whole number of ten-thousandths is one too. */
  lemma {:induction false} NegatedThousands(x: int)
    requires x % 1000 == 0
    ensures (-x) % 1000 == 0
  {
    ModUnique(-x, 1000, -(x / 1000), 0);
  }

  /** The ticks of in-range clock fields: less than a day, in whole
      ten-thousandths of a second. */
  function ClockTicks(h: nat, m: nat, sec: nat, f: nat): (mag: nat)
    requires h < 24 && m < 60 && sec < 60 && f < 10000
    ensures mag < TicksPerDay && mag % 1000 == 0
  {
    ClockWithinDay(h, m, sec, f);
    h * TicksPerHour + m * TicksPerMinute + sec * TicksPerSecond + f * 1000
  }

  /** In-range clock fields make less than a day, in whole ten-thousandths. */
  lemma {:induction false} ClockWithinDay(h: nat, m: nat, sec: nat, f: nat)
    requires h < 24 && m < 60 && sec < 60 && f < 10000
    ensures var mag := h * TicksPerHour + m * TicksPerMinute + sec * TicksPerSecond + f * 1000;
      mag < TicksPerDay && mag % 1000 == 0
  {
    var units := h * 36_000_000 + m * 600_000 + sec * 10_000 + f;
    assert h * TicksPerHour + m * TicksPerMinute + sec * TicksPerSecond + f * 1000 == units * 1000;
    assert units < 864_000_000 by {
      assert h * 36_000_000 <= 23 * 36_000_000;
      assert m * 600_000 <= 59 * 600_000;
      assert sec * 10_000 <= 59 * 10_000;
    }
  }

  /** The layout of a rendered time: sign iff negative, two digits of hours,
      minutes and seconds and four of ten-thousandths, separated by `:`, `:`
      and `.`, each field holding the TimeSpan component. */
  lemma {:induction false} FormatLayout(t: int)
    ensures var r, o := GetFFMpegFormat(t), if t < 0 then 1 else 0;
      && (|r| > 0 && r[0] == '-' <==> t < 0)
      && r[o + 2] == ':' && r[o + 5] == ':' && r[o + 8] == '.'
      && AllDigits(r[o..o + 2]) && DigitsValue(r[o..o + 2]) == Hours(t)
      && AllDigits(r[o + 3..o + 5]) && DigitsValue(r[o + 3..o + 5]) == Minutes(t)
      && AllDigits(r[o + 6..o + 8]) && DigitsValue(r[o + 6..o + 8]) == Seconds(t)
      && AllDigits(r[o + 9..o + 13]) && DigitsValue(r[o + 9..o + 13]) == TenThousandths(t)
  {
    ComponentBounds(t);
    RenderLayout(t < 0, Hours(t), Minutes(t), Seconds(t), TenThousandths(t));
  }

  lemma {:induction false} ComponentBounds(t: int)
    ensures Hours(t) < 24 && Minutes(t) < 60 && Seconds(t) < 60 && TenThousandths(t) < 10000
  {
  }

  lemma {:induction false} RenderLayout(neg: bool, h: nat, m: nat, sec: nat, f: nat)
    requires h < 100 && m < 100 && sec < 100 && f < 10000
    ensures var r, o := Render(neg, h, m, sec, f), if neg then 1 else 0;
      && (|r| > 0 && r[0] == '-' <==> neg)
      && r[o + 2] == ':' && r[o + 5] == ':' && r[o + 8] == '.'
      && AllDigits(r[o..o + 2]) && DigitsValue(r[o..o + 2]) == h
      && AllDigits(r[o + 3..o + 5]) && DigitsValue(r[o + 3..o + 5]) == m
      && AllDigits(r[o + 6..o + 8]) && DigitsValue(r[o + 6..o + 8]) == sec
      && AllDigits(r[o + 9..o + 13]) && DigitsValue(r[o + 9..o + 13]) == f
  {
    var r, o := Render(neg, h, m, sec, f), if neg then 1 else 0;
    var c := Clock(PadDigits(h, 2), PadDigits(m, 2), PadDigits(sec, 2), PadDigits(f, 4));
    assert r[o..] == c;
    SliceOfSuffix(r, o, c);
    assert Pow10(2) == 100 && Pow10(4) == 10000;
    FieldValue(h, 2);
    FieldValue(m, 2);
    FieldValue(sec, 2);
    FieldValue(f, 4);
  }

  lemma {:induction false} FieldValue(n: nat, w: nat)
    requires n < Pow10(w)
    ensures DigitsValue(PadDigits(n, w)) == n
  {
    PadDigitsValue(n, w);
    ModUnique(n, Pow10(w), 0, n);
  }

  lemma {:induction false} SliceOfSuffix(r: string, o: nat, c: string)
    requires o <= |r| && r[o..] == c && |c| == 13
    ensures r[o..o + 2] == c[0..2] && r[o + 3..o + 5] == c[3..5]
    ensures r[o + 6..o + 8] == c[6..8] && r[o + 9..o + 13] == c[9..13]
    ensures r[o + 2] == c[2] && r[o + 5] == c[5] && r[o + 8] == c[8]
  {
  }

  /** Parsing a rendering of in-range components gives back their signed sum. */
  lemma {:induction false} ParseRender(neg: bool, h: nat, m: nat, sec: nat, f: nat)
    requires h < 24 && m < 60 && sec < 60 && f < 10000
    ensures ParseTimeSpan(Render(neg, h, m, sec, f))
            == Some((if neg then -1 else 1) * (h * TicksPerHour + m * TicksPerMinute + sec * TicksPerSecond + f * 1000))
  {
    var c := Clock(PadDigits(h, 2), PadDigits(m, 2), PadDigits(sec, 2), PadDigits(f, 4));
    assert Render(neg, h, m, sec, f) == (if neg then "-" else "") + c;
    assert Pow10(2) == 100 && Pow10(4) == 10000;
    FieldValue(h, 2);
    FieldValue(m, 2);
    FieldValue(sec, 2);
    FieldValue(f, 4);
    ParseClock(neg, c, h, m, sec, f);
  }

  /** Parsing an optional sign and a clock text whose fields hold in-range values. */
  lemma {:induction false} ParseClock(neg: bool, c: string, h: nat, m: nat, sec: nat, f: nat)
    requires |c| == 13 && c[2] == ':' && c[5] == ':' && c[8] == '.'
    requires AllDigits(c[0..2]) && AllDigits(c[3..5]) && AllDigits(c[6..8]) && AllDigits(c[9..13])
    requires DigitsValue(c[0..2]) == h && DigitsValue(c[3..5]) == m && DigitsValue(c[6..8]) == sec && DigitsValue(c[9..13]) == f
    requires h < 24 && m < 60 && sec < 60
    ensures ParseTimeSpan((if neg then "-" else "") + c)
      == Some((if neg then -1 else 1) * (h * TicksPerHour + m * TicksPerMinute + sec * TicksPerSecond + f * 1000))
  {
    var s := (if neg then "-" else "") + c;
    assert IsDigit(c[0..2][0]);
    assert (|s| > 0 && s[0] == '-') == neg;
    assert (if neg then s[1..] else s) == c;
  }

  /** Hours, minutes, seconds and ten-thousandths put back together give the
      time of day of |t|, truncated to whole ten-thousandths of a second. */
  lemma {:induction false} ComponentsRecompose(t: int)
    ensures Hours(t) * TicksPerHour + Minutes(t) * TicksPerMinute + Seconds(t) * TicksPerSecond + TenThousandths(t) * 1000
            == Abs(t) % TicksPerDay / 1000 * 1000
  {
    var a := Abs(t);
    var x := a % TicksPerDay;
    DivModNest(a, TicksPerHour, 24);
    DivModNest(a, TicksPerMinute, 60);
    DivModNest(a, TicksPerSecond, 60);
    ModOfMod(a, TicksPerHour, 24);
    ModOfMod(a, TicksPerMinute, 60);
    ModOfMod(a, TicksPerSecond, 60);
    ModOfMod(a, 1000, 10_000);
    // x = h*H + (x % H), x % H = m*M + (x % M), ...
    var h, y := x / TicksPerHour, x % TicksPerHour;
    var m, z := y / TicksPerMinute, y % TicksPerMinute;
    var s, w := z / TicksPerSecond, z % TicksPerSecond;
    var f, e := w / 1000, w % 1000;
    assert Hours(t) == h;
    assert Minutes(t) == m by { ModOfMod(x, TicksPerMinute, 60); }
    assert y % TicksPerMinute == a % TicksPerMinute by { ModOfMod(a, TicksPerMinute, 60); ModOfMod(x, TicksPerMinute, 60); }
    assert Seconds(t) == s by { ModOfMod(x, TicksPerSecond, 60); ModOfMod(y, TicksPerSecond, 60); }
    assert z % TicksPerSecond == a % TicksPerSecond by { ModOfMod(a, TicksPerSecond, 60); ModOfMod(y, TicksPerSecond, 60); }
    assert TenThousandths(t) == f;
    assert x == h * TicksPerHour + m * TicksPerMinute + s * TicksPerSecond + f * 1000 + e;
    ModUnique(x, 1000, h * (TicksPerHour / 1000) + m * (TicksPerMinute / 1000) + s * (TicksPerSecond / 1000) + f, e);
  }

  /** (a / k) % n is the k-unit digit of a % (k * n). */
  lemma {:induction false} DivModNest(a: nat, k: nat, n: nat)
    requires k > 0 && n > 0
    ensures (a / k) % n == (a % (k * n)) / k
  {
    var q, r := a / (k * n), a % (k * n);
    assert a == (q * n) * k + r;
    var r1, r0 := r / k, r % k;
    assert r == r1 * k + r0;
    assert a == (q * n + r1) * k + r0;
    ModUnique(a, k, q * n + r1, r0);
    ModUnique(q * n + r1, n, q, r1);
  }

  /** Taking a remainder by a multiple of k first does not change the remainder by k. */
  lemma {:induction false} ModOfMod(a: nat, k: nat, n: nat)
    requires k > 0 && n > 0
    ensures a % (k * n) % k == a % k
  {
    var q, r := a / (k * n), a % (k * n);
    assert a == (q * n) * k + r;
    ModUnique(a, k, q * n + r / k, r % k);
  }

  /** Formatting then parsing gives back the time of day of t with its sign,
      truncated to ten-thousandths of a second: whole days are lost. */
  lemma {:induction false} ParseFormatRoundTrip(t: int)
    ensures ParseTimeSpan(GetFFMpegFormat(t)) == Some(Sign(t) * (Abs(t) % TicksPerDay / 1000 * 1000))
  {
    var h, m, sec, f := Hours(t), Minutes(t), Seconds(t), TenThousandths(t);
    ComponentBounds(t);
    ParseRender(t < 0, h, m, sec, f);
    ComponentsRecompose(t);
    var v := h * TicksPerHour + m * TicksPerMinute + sec * TicksPerSecond + f * 1000;
    var w := Abs(t) % TicksPerDay / 1000 * 1000;
    assert v == w;
    assert GetFFMpegFormat(t) == Render(t < 0, h, m, sec, f);
    assert ParseTimeSpan(GetFFMpegFormat(t)) == Some((if t < 0 then -1 else 1) * v);
    assert (if t < 0 then -1 else 1) * v == Sign(t) * w;
  }

  /** Below one day a non-negative time survives the round trip up to its
      sub-ten-thousandth part. */
  lemma {:induction false} ParseFormatBelowOneDay(t: int)
    requires 0 <= t < TicksPerDay
    ensures ParseTimeSpan(GetFFMpegFormat(t)) == Some(t / 1000 * 1000)
  {
    ParseFormatRoundTrip(t);
    ModUnique(t, TicksPerDay, 0, t);
  }

  /** A time of one day or more prints the same as the same time one day less:
      the day count is not part of the text. */
  lemma {:induction false} FormatDropsDays(t: int)
    requires t >= TicksPerDay
    ensures GetFFMpegFormat(t) == GetFFMpegFormat(t - TicksPerDay)
  {
    var u := t - TicksPerDay;
    assert t == u + TicksPerDay;
    DivShift(u, TicksPerHour, 24);
    DivShift(u, TicksPerMinute, 24 * 60);
    DivShift(u, TicksPerSecond, 24 * 60 * 60);
    assert Hours(t) == Hours(u);
    assert Minutes(t) == Minutes(u);
    assert Seconds(t) == Seconds(u);
    ModUnique(t, TicksPerSecond, u / TicksPerSecond + 24 * 60 * 60, u % TicksPerSecond);
  }

  lemma {:induction false} DivShift(u: nat, k: nat, n: nat)
    requires k > 0 && n > 0
    ensures (u + k * n) / k == u / k + n
  {
    ModUnique(u + k * n, k, u / k + n, u % k);
  }

  /** `Utils.GetEscapedString`: every `"` becomes `\"`. */
  function GetEscapedString(str: string): (r: string)
    ensures |r| == |str| + CountChar(str, '"')
  {
    EscapeChar(str, '"')
  }

  /** The reverse of `EscapeChar`: a backslash directly followed by `q` is dropped. */
  function UnescapeChar(r: string, q: char): string {
    if r == [] then ""
    else if |r| >= 2 && r[0] == '\\' && r[1] == q then [q] + UnescapeChar(r[2..], q)
    else [r[0]] + UnescapeChar(r[1..], q)
  }

  /** Escaping is undone by unescaping, so no information is lost. */
  lemma {:induction false} EscapeRoundTrip(s: string, q: char)
    requires q != '\\'
    ensures UnescapeChar(EscapeChar(s, q), q) == s
  {
    if s != [] {
      var r := EscapeChar(s, q);
      EscapeRoundTrip(s[1..], q);
      if s[0] == q {
        assert r[2..] == EscapeChar(s[1..], q);
      } else {
        assert r[1..] == EscapeChar(s[1..], q);
        if s[0] == '\\' && s[1..] != [] && s[1] == q {
          assert r[1] == '\\';
        }
      }
    }
  }

  /** A string without `q` is left as it is. */
  lemma {:induction false} EscapeIdentity(s: string, q: char)
    requires CountChar(s, q) == 0
    ensures EscapeChar(s, q) == s
  {
    if s != [] {
      EscapeIdentity(s[1..], q);
    }
  }

  /** Every `q` in an escaped string has a backslash right before it. */
  lemma {:induction false} EscapedQuotesArePreceded(s: string, q: char)
    requires q != '\\'
    ensures var r := EscapeChar(s, q);
      forall i :: 0 <= i < |r| && r[i] == q ==> i > 0 && r[i - 1] == '\\'
  {
    if s != [] {
      EscapedQuotesArePreceded(s[1..], q);
      var r, rest := EscapeChar(s, q), EscapeChar(s[1..], q);
      var k := if s[0] == q then 2 else 1;
      assert r == r[..k] + rest;
      EscapeHead(s[1..], q);
      forall i | 0 <= i < |r| && r[i] == q
        ensures i > 0 && r[i - 1] == '\\'
      {
        if i > k {
          assert rest[i - k] == q;
          assert r[i - 1] == rest[i - k - 1];
        }
      }
    }
  }

  /** An escaped string never starts with `q`. */
  lemma {:induction false} EscapeHead(s: string, q: char)
    requires q != '\\'
    ensures var r := EscapeChar(s, q); r == [] || r[0] != q
  {
  }

  /** Escaping distributes over concatenation. */
  lemma {:induction false} EscapeAppend(a: string, b: string, q: char)
    ensures EscapeChar(a + b, q) == EscapeChar(a, q) + EscapeChar(b, q)
  {
    if a == [] {
      assert a + b == b;
    } else {
      assert (a + b)[1..] == a[1..] + b;
      EscapeAppend(a[1..], b, q);
    }
  }
}
