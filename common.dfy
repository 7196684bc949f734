/**
 * The integer-to-text helpers of the web client's `Commons` object:
 * `formatTime` (a count of seconds shown as `m:ss`) and the
 * `("0" + n).slice(-2)` idiom that pads date fields to two digits.
 * Numbers are integers here; JavaScript's `String(n)` is `IntToString`.
 */
module Commons {
  import opened Wrappers
  import opened Text

  predicate AllDigits(s: string) {
    forall i :: 0 <= i < |s| ==> IsAsciiDigit(s[i])
  }

  function DigitChar(d: nat): (c: char)
    requires d < 10
    ensures IsAsciiDigit(c)
  {
    ('0' as int + d) as char
  }

  function DigitValue(c: char): (d: nat)
    requires IsAsciiDigit(c)
    ensures d < 10 && DigitChar(d) == c
  {
    c as int - '0' as int
  }

  /** `String(n)` for a non-negative integer: decimal digits, no leading zero. */
  function NatToString(n: nat): (s: string)
    ensures |s| >= 1 && AllDigits(s)
    ensures |s| > 1 ==> s[0] != '0'
    ensures s[|s| - 1] == DigitChar(n % 10)
    decreases n
  {
    if n < 10 then [DigitChar(n)] else NatToString(n / 10) + [DigitChar(n % 10)]
  }

  /** `String(n)` for any integer: a minus sign before the digits of `-n`. */
  function IntToString(n: int): string {
    if n < 0 then "-" + NatToString(-n) else NatToString(n)
  }

  /** The number a string of decimal digits denotes (the reading direction of `String`). */
  function DecimalValue(s: string): nat
    requires AllDigits(s)
  {
    if s == [] then 0 else DecimalValue(s[..|s| - 1]) * 10 + DigitValue(s[|s| - 1])
  }

  /** Reading back what `NatToString` wrote gives the number again. */
  lemma {:induction false} DecimalRoundTrip(n: nat)
    ensures DecimalValue(NatToString(n)) == n
    decreases n
  {
    var s := NatToString(n);
    if n >= 10 {
      DecimalRoundTrip(n / 10);
      assert s[..|s| - 1] == NatToString(n / 10);
    }
  }

  lemma NoColonInDigits(s: string)
    requires AllDigits(s)
    ensures ':' !in s
  {
    forall i | 0 <= i < |s| ensures s[i] != ':' {
      assert IsAsciiDigit(s[i]);
    }
  }

  /** The quotient of JavaScript's division, truncated toward zero. */
  function TruncQuot(a: int, m: int): int
    requires m > 0
  {
    if a >= 0 then a / m else -((-a) / m)
  }

  /** JavaScript's `%`: what is left of the dividend after the truncated quotient, so
      the remainder takes the sign of the dividend. */
  function JsRem(a: int, m: int): (r: int)
    requires m > 0
    ensures a == m * TruncQuot(a, m) + r
    ensures a >= 0 ==> 0 <= r < m
    ensures a < 0 ==> -m < r <= 0
  {
    if a >= 0 then a % m
    else
      var q, r := (-a) / m, (-a) % m;
      assert -a == m * q + r;
      assert m * (-q) == -(m * q);
      -r
  }

  /** `formatTime(seconds)`: `Math.floor(seconds / 60)`, a colon, then the JavaScript
      remainder with a "0" in front when it is below 10. */
  function FormatTime(seconds: int): (r: string)
    ensures var m := IntToString(seconds / 60);
      |m| < |r| && r[..|m|] == m && r[|m|] == ':'
    ensures seconds >= 0 ==> multiset(r)[':'] == 1
    ensures seconds >= 0 ==> ParseTime(r) == Some(seconds)
  {
    var r := IntToString(seconds / 60) + ":" + SecondsField(seconds);
    FormatTimeFacts(seconds, r);
    r
  }

  /** The text after the colon: the JavaScript remainder, with a "0" in front below 10. */
  function SecondsField(seconds: int): string {
    var rem := JsRem(seconds, 60);
    (if rem < 10 then "0" else "") + IntToString(rem)
  }

  /** `Math.floor(seconds / 60)` is Dafny's division by a positive divisor. */
  lemma MinutesAreFloor(seconds: int)
    ensures (seconds / 60) * 60 <= seconds < (seconds / 60) * 60 + 60
  {
  }

  lemma SecondsFieldShape(seconds: nat)
    ensures var f := SecondsField(seconds);
      |f| == 2 && AllDigits(f) && DecimalValue(f) == seconds % 60 && DecimalValue(f) < 60
  {
    var rem := seconds % 60;
    assert JsRem(seconds, 60) == rem;
    var f := SecondsField(seconds);
    DecimalRoundTrip(rem);
    if rem < 10 {
      assert f == "0" + NatToString(rem);
      DecimalPrefixZero(NatToString(rem));
    } else {
      TwoDigitString(rem);
    }
  }

  lemma DecimalPrefixZero(s: string)
    requires AllDigits(s)
    ensures AllDigits("0" + s) && DecimalValue("0" + s) == DecimalValue(s)
    decreases |s|
  {
    if s != [] {
      assert ("0" + s)[..|s|] == "0" + s[..|s| - 1];
      DecimalPrefixZero(s[..|s| - 1]);
    }
  }

  lemma TwoDigitString(n: nat)
    requires 10 <= n < 100
    ensures NatToString(n) == [DigitChar(n / 10), DigitChar(n % 10)]
  {
  }

  /** Reads `m:ss` back: `m` one or more digits, `ss` two digits below 60. */
  function ParseTime(t: string): Option<int> {
    match IndexOf(t, ':')
    case None => None
    case Some(i) =>
      var m, ss := t[..i], t[i + 1..];
      if |m| >= 1 && AllDigits(m) && |ss| == 2 && AllDigits(ss) && DecimalValue(ss) < 60
      then Some(DecimalValue(m) * 60 + DecimalValue(ss))
      else None
  }

  lemma FormatTimeFacts(seconds: int, r: string)
    requires r == IntToString(seconds / 60) + ":" + SecondsField(seconds)
    ensures seconds >= 0 ==> multiset(r)[':'] == 1 && ParseTime(r) == Some(seconds)
  {
    if seconds >= 0 {
      FormatTimeParses(seconds, r);
    }
  }

  lemma FormatTimeParses(seconds: nat, r: string)
    requires r == IntToString(seconds / 60) + ":" + SecondsField(seconds)
    ensures multiset(r)[':'] == 1
    ensures ParseTime(r) == Some(seconds)
  {
    var m := NatToString(seconds / 60);
    var f := SecondsField(seconds);
    SecondsFieldShape(seconds);
    assert r == m + (":" + f);
    OneColon(m, f);
    ParsesBack(seconds, m, f);
  }

  lemma OneColon(m: string, f: string)
    requires AllDigits(m) && AllDigits(f)
    ensures multiset(m + (":" + f))[':'] == 1
  {
    NoColonInDigits(m);
    NoColonInDigits(f);
    assert multiset(m + (":" + f)) == multiset(m) + multiset(":") + multiset(f);
  }

  lemma ParsesBack(seconds: nat, m: string, f: string)
    requires m == NatToString(seconds / 60) && f == SecondsField(seconds)
    requires |f| == 2 && AllDigits(f) && DecimalValue(f) == seconds % 60 && DecimalValue(f) < 60
    ensures ParseTime(m + (":" + f)) == Some(seconds)
  {
    var r := m + (":" + f);
    NoColonInDigits(m);
    IndexOfPrefix(m, ":" + f, ':');
    assert r[..|m|] == m && r[|m| + 1..] == f;
    DecimalRoundTrip(seconds / 60);
    MinutesAndSeconds(seconds);
    ParseTimeOf(r, |m|, seconds / 60, seconds % 60, seconds);
  }

  lemma MinutesAndSeconds(seconds: nat)
    ensures (seconds / 60) * 60 + seconds % 60 == seconds
  {
  }

  lemma ParseTimeOf(t: string, i: nat, mins: nat, secs: nat, total: int)
    requires IndexOf(t, ':') == Some(i)
    requires 1 <= |t[..i]| && AllDigits(t[..i]) && DecimalValue(t[..i]) == mins
    requires |t[i + 1..]| == 2 && AllDigits(t[i + 1..]) && DecimalValue(t[i + 1..]) == secs < 60
    requires mins * 60 + secs == total
    ensures ParseTime(t) == Some(total)
  {
  }

  /** `("0" + n).slice(-2)`: the last two characters of "0" followed by `String(n)`. */
  function PadTwo(n: int): (r: string)
    ensures |r| == 2
    ensures n >= 0 ==> AllDigits(r) && DecimalValue(r) == n % 100
    ensures 0 <= n < 10 ==> r[0] == '0'
  {
    var t := "0" + IntToString(n);
    var r := t[|t| - 2..];
    PadTwoFacts(n, r);
    r
  }

  lemma PadTwoFacts(n: int, r: string)
    requires var t := "0" + IntToString(n); r == t[|t| - 2..]
    ensures n >= 0 ==> AllDigits(r) && DecimalValue(r) == n % 100
  {
    if n >= 0 {
      var s := NatToString(n);
      var t := "0" + s;
      if n < 10 {
        assert r == ['0', DigitChar(n)];
        TwoCharValue('0', DigitChar(n));
      } else {
        assert s == NatToString(n / 10) + [DigitChar(n % 10)];
        assert r == [DigitChar((n / 10) % 10), DigitChar(n % 10)];
        TwoCharValue(DigitChar((n / 10) % 10), DigitChar(n % 10));
        LastTwoDigits(n);
      }
    }
  }

  lemma TwoCharValue(a: char, b: char)
    requires IsAsciiDigit(a) && IsAsciiDigit(b)
    ensures AllDigits([a, b]) && DecimalValue([a, b]) == DigitValue(a) * 10 + DigitValue(b)
  {
    var s := [a, b];
    assert s[..|s| - 1] == [a];
    assert [a][..0] == [];
    assert DecimalValue([a]) == DecimalValue([]) * 10 + DigitValue(a);
  }

  lemma LastTwoDigits(n: nat)
    ensures ((n / 10) % 10) * 10 + n % 10 == n % 100
  {
  }

  /** For `0 <= n <= 99`, the padded field is the two-digit decimal of `n`. */
  lemma {:induction false} PadTwoIsTwoDigitDecimal(n: int)
    requires 0 <= n <= 99
    ensures PadTwo(n) == [DigitChar(n / 10), DigitChar(n % 10)]
  {
    var t := "0" + IntToString(n);
    if n < 10 {
      assert IntToString(n) == [DigitChar(n)];
      assert t == [DigitChar(0), DigitChar(n)];
    } else {
      TwoDigitString(n);
      assert t[|t| - 2..] == [DigitChar(n / 10), DigitChar(n % 10)];
    }
  }

  /** The seconds field `formatTime` writes is the two-digit padding of `seconds % 60`. */
  lemma {:induction false} FormatTimeSecondsArePadded(seconds: nat)
    ensures FormatTime(seconds) == IntToString(seconds / 60) + ":" + PadTwo(seconds % 60)
  {
    var rem := seconds % 60;
    SecondsFieldShape(seconds);
    PadTwoIsTwoDigitDecimal(rem);
    var f := SecondsField(seconds);
    assert f[..1] == [f[0]];
    assert DecimalValue(f) == DigitValue(f[0]) * 10 + DigitValue(f[1]);
    assert f == [f[0], f[1]];
    assert DigitValue(f[0]) == rem / 10 && DigitValue(f[1]) == rem % 10;
  }
}
