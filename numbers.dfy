/**
 * Decimal numbers as the scraper reads and writes them: Python's `float()` on a
 * decimal literal, `int()` on a run of digits, and the `.2f` rendering of a
 * percentage.
 */
module Numbers {
  import opened Wrappers
  import opened Text

  function DigitValue(c: char): nat
    requires IsDigit(c)
  {
    c as int - '0' as int
  }

  /** The value of a string of decimal digits, most significant first (Python's `int()`). */
  function DigitsValue(s: string): nat
    requires AllDigits(s)
  {
    if s == [] then 0 else 10 * DigitsValue(s[..|s| - 1]) + DigitValue(s[|s| - 1])
  }

  function Pow10(k: nat): (r: nat)
    ensures r >= 1
  {
    if k == 0 then 1 else 10 * Pow10(k - 1)
  }

  /** The value of the literal `ip.fp`: both parts digits, at least one digit in all. */
  function DecimalValue(ip: string, fp: string): (r: Option<real>)
    ensures r.Some? ==> r.value >= 0.0
  {
    if AllDigits(ip) && AllDigits(fp) && |ip| + |fp| > 0 then
      Some(DigitsValue(ip) as real + DigitsValue(fp) as real / Pow10(|fp|) as real)
    else None
  }

  /** An unsigned decimal literal: digits with at most one '.', and at least one digit. */
  function ParseUnsigned(b: string): (r: Option<real>)
    ensures r.Some? ==> r.value >= 0.0
  {
    match IndexOf(b, ".")
    case None => if b != [] && AllDigits(b) then Some(DigitsValue(b) as real) else None
    case Some(k) => DecimalValue(b[..k], b[k + 1..])
  }

  /**
   * Python's `float(s)` on a decimal literal: surrounding whitespace is ignored and
   * one sign is allowed.
   */
  function ParseFloat(s: string): (r: Option<real>)
  {
    var t := Strip(s);
    if |t| > 0 && t[0] == '-' then
      match ParseUnsigned(t[1..])
      case None => None
      case Some(v) => Some(-v)
    else if |t| > 0 && t[0] == '+' then ParseUnsigned(t[1..])
    else ParseUnsigned(t)
  }

  /** Text without a minus sign never parses to a negative number. */
  lemma ParseFloatNonNegative(s: string)
    requires '-' !in s
    requires ParseFloat(s).Some?
    ensures ParseFloat(s).value >= 0.0
  {
  }

  /** A string of digits parses to the number it spells. */
  lemma ParseFloatDigits(s: string)
    requires s != [] && AllDigits(s)
    ensures ParseFloat(s) == Some(DigitsValue(s) as real)
  {
    StripKeeps(s);
    NoPointInDigits(s);
  }

  /** A point never occurs among digits. */
  lemma NoPointBefore(s: string, n: nat)
    requires n <= |s|
    requires forall i :: 0 <= i < n ==> IsDigit(s[i])
    ensures forall j :: 0 <= j < n ==> !HasAt(s, ".", j)
  {
    forall j | 0 <= j < n
      ensures !HasAt(s, ".", j)
    {
      assert IsDigit(s[j]);
    }
  }

  lemma NoPointInDigits(s: string)
    requires AllDigits(s)
    ensures IndexOf(s, ".").None?
  {
    NoPointBefore(s, |s|);
  }

  function DigitChar(d: nat): (c: char)
    requires d < 10
    ensures IsDigit(c) && DigitValue(c) == d
  {
    ('0' as int + d) as char
  }

  /** Python's `str(n)` for a natural number: decimal digits without leading zeros. */
  function NatToString(n: nat): (r: string)
    ensures r != [] && AllDigits(r)
    ensures |r| > 1 ==> r[0] != '0'
  {
    if n < 10 then [DigitChar(n)] else NatToString(n / 10) + [DigitChar(n % 10)]
  }

  lemma {:induction false} NatToStringValue(n: nat)
    ensures DigitsValue(NatToString(n)) == n
  {
    if n >= 10 {
      NatToStringValue(n / 10);
      var s := NatToString(n);
      assert s[..|s| - 1] == NatToString(n / 10);
    }
  }

  /** Round half up to a whole number of hundredths: the value the `.2f` format displays. */
  function RoundHundredths(x: real): (h: int)
    ensures h as real - 0.5 <= x * 100.0 < h as real + 0.5
  {
    (x * 100.0 + 0.5).Floor
  }

  /** The two decimals of a number of hundredths below 100, with a leading zero. */
  function TwoDigits(c: nat): (r: string)
    requires c < 100
    ensures |r| == 2 && AllDigits(r) && DigitsValue(r) == c
  {
    var r := [DigitChar(c / 10), DigitChar(c % 10)];
    assert r[..1] == [r[0]];
    assert DigitsValue(r[..1]) == c / 10;
    assert c == 10 * (c / 10) + c % 10;
    r
  }

  /** The `.2f` rendering of `h / 100`: the integer part, a point and exactly two decimals. */
  function FormatFixed2(h: nat): (r: string)
    ensures |r| >= 4 && r[|r| - 3] == '.'
  {
    NatToString(h / 100) + "." + TwoDigits(h % 100)
  }

  /** The first point of `ip + "." + fp`, when neither part has one, is the one between them. */
  lemma PointSplits(ip: string, fp: string)
    requires AllDigits(ip) && AllDigits(fp) && |ip| + |fp| > 0
    ensures ParseUnsigned(ip + "." + fp) == DecimalValue(ip, fp)
  {
    var s := ip + "." + fp;
    var k := |ip|;
    assert s[k..k + 1] == ".";
    assert forall i :: 0 <= i < k ==> s[i] == ip[i];
    NoPointBefore(s, k);
    IndexOfIs(s, ".", k);
    assert s[..k] == ip;
    assert s[k + 1..] == fp;
  }

  /** `float()` of digits, a point and decimals is the decimal value they spell. */
  lemma ParseFloatDecimal(ip: string, fp: string)
    requires ip != [] && AllDigits(ip) && AllDigits(fp)
    ensures ParseFloat(ip + "." + fp) == DecimalValue(ip, fp)
  {
    var s := ip + "." + fp;
    assert s[0] == ip[0];
    assert s[|s| - 1] == if fp == [] then '.' else fp[|fp| - 1];
    StripKeeps(s);
    PointSplits(ip, fp);
  }

  /** Reading a rendered amount back with `float()` gives the amount. */
  lemma FormatFixed2RoundTrip(h: nat)
    ensures ParseFloat(FormatFixed2(h)) == Some(h as real / 100.0)
  {
    var q := NatToString(h / 100);
    var f := TwoDigits(h % 100);
    var s := FormatFixed2(h);
    assert s == q + "." + f;
    StripKeeps(s);
    assert IsDigit(s[0]);
    assert ParseFloat(s) == ParseUnsigned(s);
    PointSplits(q, f);
    NatToStringValue(h / 100);
    HundredthsSplit(h);
  }

  lemma HundredthsSplit(h: nat)
    ensures (h / 100) as real + (h % 100) as real / Pow10(2) as real == h as real / 100.0
  {
    assert Pow10(2) == 100;
    assert h == 100 * (h / 100) + h % 100;
  }
}
