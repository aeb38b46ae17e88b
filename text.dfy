/** Value wrappers shared by the whole model: a nullable value, the outcome
    of an operation that may throw, and the argument of an `Equals(object?)`
    override (null, same type, other type). */
module Wrappers {

  datatype Option<+T> = None | Some(value: T) {
    function GetOr(default: T): T {
      match this
      case Some(v) => v
      case None => default
    }
  }

  /** The outcome of an operation that may throw: its value, or the exception's message. */
  datatype Result<+T> = Success(value: T) | Failure(message: string)

  /** What an `Equals(object? obj)` override can be handed. */
  datatype Boxed<+T> = Null | Same(value: T) | Foreign
}

/** Character-level helpers: decimal digits, rendering and reading of
    integers, prefixes, joining and ASCII lower-casing. */
module Text {

  predicate IsDigit(c: char) {
    '0' <= c <= '9'
  }

  predicate AllDigits(s: string) {
    forall i :: 0 <= i < |s| ==> IsDigit(s[i])
  }

  function DigitChar(d: nat): (c: char)
    requires d < 10
    ensures IsDigit(c)
  {
    ('0' as int + d) as char
  }

  function DigitValue(c: char): (d: nat)
    requires IsDigit(c)
    ensures d < 10 && DigitChar(d) == c
  {
    c as int - '0' as int
  }

  /** The length of the run of decimal digits at the start of `s`. */
  function DigitRun(s: string): (k: nat)
    ensures k <= |s| && AllDigits(s[..k]) && (k < |s| ==> !IsDigit(s[k]))
  {
    if s == [] || !IsDigit(s[0]) then 0
    else
      var k := 1 + DigitRun(s[1..]);
      assert s[..k] == [s[0]] + s[1..][..k - 1];
      k
  }

  /** A digit run ending at a non-digit has exactly that length. */
  lemma {:induction false} DigitRunIs(s: string, k: nat)
    requires k <= |s| && AllDigits(s[..k]) && (k < |s| ==> !IsDigit(s[k]))
    ensures DigitRun(s) == k
  {
    if k > 0 {
      assert s[0] == s[..k][0];
      assert s[1..][..k - 1] == s[1..k];
      assert forall i :: 0 <= i < k - 1 ==> s[1..k][i] == s[..k][i + 1];
      DigitRunIs(s[1..], k - 1);
    }
  }

  function Pow10(n: nat): (p: nat)
    ensures p >= 1
  {
    if n == 0 then 1 else 10 * Pow10(n - 1)
  }

  /** The number a string of decimal digits denotes (most significant first). */
  function DigitsValue(s: string): (v: nat)
    requires AllDigits(s)
    ensures v < Pow10(|s|)
  {
    if s == [] then 0 else DigitsValue(s[..|s| - 1]) * 10 + DigitValue(s[|s| - 1])
  }

  /** `n` written with exactly `width` digits, zero-padded on the left and
      truncated to the low `width` digits. */
  function PadDigits(n: nat, width: nat): (s: string)
    ensures |s| == width && AllDigits(s)
  {
    if width == 0 then [] else PadDigits(n / 10, width - 1) + [DigitChar(n % 10)]
  }

  /** Decimal rendering of a natural number without leading zeros, as `$"{n}"`. */
  function NatToString(n: nat): (s: string)
    ensures |s| >= 1 && AllDigits(s)
  {
    if n < 10 then [DigitChar(n)] else NatToString(n / 10) + [DigitChar(n % 10)]
  }

  /** Decimal rendering of a signed integer, as `$"{i}"` under the invariant culture. */
  function IntToString(i: int): (s: string)
    ensures |s| >= 1
  {
    if i < 0 then "-" + NatToString(-i) else NatToString(i)
  }

  lemma {:induction false} PadDigitsValue(n: nat, width: nat)
    ensures DigitsValue(PadDigits(n, width)) == n % Pow10(width)
  {
    if width > 0 {
      var s := PadDigits(n, width);
      assert s[..|s| - 1] == PadDigits(n / 10, width - 1);
      PadDigitsValue(n / 10, width - 1);
      DivModPow10(n, width - 1);
    }
  }

  lemma {:induction false} DivModPow10(n: nat, k: nat)
    ensures (n / 10) % Pow10(k) * 10 + n % 10 == n % Pow10(k + 1)
  {
    var p := Pow10(k);
    var q := n / 10;
    var r := n % 10;
    assert n == q * 10 + r;
    var a := q / p;
    var b := q % p;
    assert q == a * p + b;
    assert n == a * (p * 10) + (b * 10 + r);
    assert 0 <= b * 10 + r < p * 10;
    assert Pow10(k + 1) == p * 10;
    ModUnique(n, p * 10, a, b * 10 + r);
  }

  lemma {:induction false} ModUnique(n: int, m: int, a: int, b: int)
    requires m > 0 && n == a * m + b && 0 <= b < m
    ensures n % m == b && n / m == a
  {
    var q, r := n / m, n % m;
    assert (q - a) * m == b - r;
    if q > a {
      MulAtLeast(q - a, m);
    } else if q < a {
      MulAtLeast(a - q, m);
    }
  }

  lemma {:induction false} MulAtLeast(k: int, m: int)
    requires k >= 1 && m > 0
    ensures k * m >= m
  {
  }

  lemma {:induction false} NatToStringValue(n: nat)
    ensures DigitsValue(NatToString(n)) == n
  {
    if n >= 10 {
      var s := NatToString(n);
      assert s[..|s| - 1] == NatToString(n / 10);
      NatToStringValue(n / 10);
    }
  }

  /** Different naturals render differently. */
  lemma {:induction false} NatToStringInjective(m: nat, n: nat)
    requires NatToString(m) == NatToString(n)
    ensures m == n
  {
    NatToStringValue(m);
    NatToStringValue(n);
  }

  predicate StartsWith(s: string, prefix: string) {
    |prefix| <= |s| && s[..|prefix|] == prefix
  }

  predicate EndsWith(s: string, suffix: string) {
    |suffix| <= |s| && s[|s| - |suffix|..] == suffix
  }

  /** Concatenation of all parts, as a StringBuilder appending each in turn. */
  function Concat(parts: seq<string>): string {
    if parts == [] then "" else Concat(parts[..|parts| - 1]) + parts[|parts| - 1]
  }

  /** `string.Join(sep, parts)`. */
  function Join(sep: string, parts: seq<string>): string {
    if parts == [] then ""
    else if |parts| == 1 then parts[0]
    else Join(sep, parts[..|parts| - 1]) + sep + parts[|parts| - 1]
  }

  function CountChar(s: string, c: char): nat {
    if s == [] then 0 else (if s[0] == c then 1 else 0) + CountChar(s[1..], c)
  }

  /** Appending is associative; stated for the solver, which does not
      regroup long appends on its own. */
  lemma {:induction false} SeqAppendAssoc<T>(a: seq<T>, b: seq<T>, c: seq<T>)
    ensures a + b + c == a + (b + c)
  {
  }

  /** When `a + b` starts `whole`, `b` sits in `whole` right after `a`. */
  lemma {:induction false} SliceAfterPrefix<T>(whole: seq<T>, a: seq<T>, b: seq<T>)
    requires |a| + |b| <= |whole| && whole[..|a| + |b|] == a + b
    ensures whole[|a|..|a| + |b|] == b
  {
    assert whole[|a|..|a| + |b|] == whole[..|a| + |b|][|a|..];
  }

  /** A non-empty sequence is its front followed by its last element. */
  lemma {:induction false} SeqSplitLast<T>(s: seq<T>)
    requires |s| > 0
    ensures s == s[..|s| - 1] + [s[|s| - 1]]
  {
  }

  lemma {:induction false} CountCharAppend(a: string, b: string, c: char)
    ensures CountChar(a + b, c) == CountChar(a, c) + CountChar(b, c)
  {
    if a == [] {
      assert a + b == b;
    } else {
      assert (a + b)[1..] == a[1..] + b;
      CountCharAppend(a[1..], b, c);
    }
  }

  /** A character is counted zero times exactly when it does not occur. */
  lemma {:induction false} CountCharAbsent(s: string, c: char)
    ensures CountChar(s, c) == 0 <==> forall j :: 0 <= j < |s| ==> s[j] != c
  {
    if s != [] {
      CountCharAbsent(s[1..], c);
      assert forall j :: 1 <= j < |s| ==> s[j] == s[1..][j - 1];
    }
  }

  /** n parts joined with a one-character separator that occurs in none of
      them contain exactly n - 1 separators. */
  lemma {:induction false} JoinSeparatorCount(sep: char, parts: seq<string>)
    requires parts != []
    requires forall i :: 0 <= i < |parts| ==> CountChar(parts[i], sep) == 0
    ensures CountChar(Join([sep], parts), sep) == |parts| - 1
  {
    if |parts| > 1 {
      var init := parts[..|parts| - 1];
      JoinSeparatorCount(sep, init);
      CountCharAppend(Join([sep], init), [sep], sep);
      CountCharAppend(Join([sep], init) + [sep], parts[|parts| - 1], sep);
      assert CountChar([sep], sep) == 1 by {
        assert [sep][1..] == [];
      }
    }
  }

  function LowerChar(c: char): char {
    if 'A' <= c <= 'Z' then (c as int - 'A' as int + 'a' as int) as char else c
  }

  /** `ToLower()` restricted to ASCII letters. */
  function ToLower(s: string): (r: string)
    ensures |r| == |s|
    ensures forall i :: 0 <= i < |s| ==> r[i] == LowerChar(s[i])
  {
    if s == [] then [] else [LowerChar(s[0])] + ToLower(s[1..])
  }

  /** `str.Replace(q, "\" + q)`: a backslash is put in front of every `q`. */
  function EscapeChar(s: string, q: char): (r: string)
    ensures |r| == |s| + CountChar(s, q)
  {
    if s == [] then ""
    else (if s[0] == q then ['\\', q] else [s[0]]) + EscapeChar(s[1..], q)
  }
}
