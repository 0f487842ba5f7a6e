/**
 * Decimal text of numbers, as java.math.BigInteger and java.math.BigDecimal read and
 * write it: the parser reads INTEGER and DECIMAL literals with their String
 * constructors, and the interpreter's `+` writes numbers with toString.
 */
module Numerals {
  import opened Ast

  predicate IsDigit(c: char) { '0' <= c <= '9' }

  predicate AllDigits(s: string) { forall k :: 0 <= k < |s| ==> IsDigit(s[k]) }

  /** The number a string of decimal digits denotes. */
  function DigitsValue(ds: string): nat
    requires AllDigits(ds)
    decreases |ds|
  {
    if |ds| == 0 then 0 else DigitsValue(ds[..|ds| - 1]) * 10 + (ds[|ds| - 1] as int - '0' as int)
  }

  /** Integer.MIN_VALUE and Integer.MAX_VALUE. */
  const IntMin: int := -0x8000_0000
  const IntMax: int := 0x7FFF_FFFF

  function Pow10(n: nat): (p: nat)
    ensures p >= 1
  {
    if n == 0 then 1 else 10 * Pow10(n - 1)
  }

  function DigitChar(d: nat): (c: char)
    requires d < 10
    ensures IsDigit(c) && c as int - '0' as int == d
  {
    ('0' as int + d) as char
  }

  /** The shortest decimal digits of n: no leading zero unless n is 0. */
  function NatToDigits(n: nat): (s: string)
    ensures |s| > 0 && AllDigits(s)
    ensures |s| > 1 ==> s[0] != '0'
  {
    if n < 10 then [DigitChar(n)] else NatToDigits(n / 10) + [DigitChar(n % 10)]
  }

  lemma {:induction false} NatToDigitsValue(n: nat)
    ensures DigitsValue(NatToDigits(n)) == n
  {
    if n >= 10 {
      NatToDigitsValue(n / 10);
      var s := NatToDigits(n);
      assert s[..|s| - 1] == NatToDigits(n / 10);
    }
  }

  /** Digits after digits: the value of a concatenation. */
  lemma {:induction false} DigitsValueAppend(a: string, b: string)
    requires AllDigits(a) && AllDigits(b)
    ensures AllDigits(a + b) && DigitsValue(a + b) == DigitsValue(a) * Pow10(|b|) + DigitsValue(b)
    decreases |b|
  {
    assert forall k :: 0 <= k < |a + b| ==> (a + b)[k] == if k < |a| then a[k] else b[k - |a|];
    if |b| > 0 {
      var b' := b[..|b| - 1];
      var d := b[|b| - 1] as int - '0' as int;
      assert (a + b)[..|a + b| - 1] == a + b';
      assert (a + b)[|a + b| - 1] == b[|b| - 1];
      DigitsValueAppend(a, b');
      assert DigitsValue(a + b) == DigitsValue(a + b') * 10 + d;
      assert DigitsValue(b) == DigitsValue(b') * 10 + d;
      assert Pow10(|b|) == Pow10(|b'|) * 10;
      calc {
        DigitsValue(a + b);
        (DigitsValue(a) * Pow10(|b'|) + DigitsValue(b')) * 10 + d;
        { MulAssoc(DigitsValue(a), Pow10(|b'|), 10); }
        DigitsValue(a) * Pow10(|b|) + DigitsValue(b);
      }
    } else {
      assert a + b == a;
    }
  }

  lemma MulAssoc(x: int, y: int, z: int)
    ensures (x * y) * z == x * (y * z)
  {
  }

  /** A run of '0' characters. */
  function Zeros(n: nat): (s: string)
    ensures |s| == n && AllDigits(s) && DigitsValue(s) == 0
  {
    if n == 0 then "" else Zeros(n - 1) + "0"
  }

  /** A magnitude with a sign applied. */
  function Signed(negative: bool, n: nat): int {
    if negative then -(n as int) else n as int
  }

  /** BigInteger.toString. */
  function IntToString(i: int): string {
    if i < 0 then "-" + NatToDigits(-i) else NatToDigits(i)
  }

  /** An optional leading '-' or '+', and the text after it. */
  function SplitSign(lit: string): (r: (bool, string))
    ensures |r.1| <= |lit|
  {
    if |lit| > 0 && (lit[0] == '-' || lit[0] == '+') then (lit[0] == '-', lit[1..]) else (false, lit)
  }

  /** new BigInteger(lit): a sign, then at least one digit; None where Java throws NumberFormatException. */
  function ParseInteger(lit: string): (r: Option<int>)
    ensures r.Some? <==> |SplitSign(lit).1| > 0 && AllDigits(SplitSign(lit).1)
  {
    var sign := SplitSign(lit);
    if |sign.1| > 0 && AllDigits(sign.1) then
      Some(Signed(sign.0, DigitsValue(sign.1)))
    else None
  }

  /** Reading back what BigInteger.toString writes gives the same number. */
  lemma IntegerRoundTrip(i: int)
    ensures ParseInteger(IntToString(i)) == Some(i)
  {
    var digits := NatToDigits(Abs(i));
    NatToDigitsValue(Abs(i));
    assert IntToString(i) == (if i < 0 then "-" else "") + digits;
    ParseSignedBody(i < 0, digits);
  }

  /** The position of the first '.', or |s| when there is none. */
  function DotIndex(s: string): (k: nat)
    ensures k <= |s| && (k < |s| ==> s[k] == '.') && forall j :: 0 <= j < k ==> s[j] != '.'
  {
    if |s| == 0 then 0 else if s[0] == '.' then 0 else 1 + DotIndex(s[1..])
  }

  /**
   * new BigDecimal(lit) for a sign, digits, an optional '.', digits, with at least one
   * digit in all; the unscaled value is all the digits and the scale the number after '.'.
   */
  function ParseDecimal(lit: string): (r: Option<Decimal>) {
    var sign := SplitSign(lit);
    var body := sign.1;
    var dot := DotIndex(body);
    DecimalParts(sign.0, body[..dot], if dot < |body| then body[dot + 1..] else "")
  }

  /** The decimal with the given sign, digits before the point and digits after it. */
  function DecimalParts(negative: bool, whole: string, fraction: string): (r: Option<Decimal>)
    ensures r.Some? <==> AllDigits(whole) && AllDigits(fraction) && |whole| + |fraction| > 0
  {
    if AllDigits(whole) && AllDigits(fraction) && |whole| + |fraction| > 0 then
      AllDigitsAppend(whole, fraction);
      Some(Decimal(Signed(negative, DigitsValue(whole + fraction)), |fraction|))
    else None
  }

  function Abs(i: int): nat { if i < 0 then -i else i }

  /** BigDecimal.toString's adjusted exponent: the power of ten of the leading digit. */
  function AdjustedExponent(d: Decimal): int {
    |NatToDigits(Abs(d.unscaled))| - 1 - d.scale
  }

  /** BigDecimal.toString: plain notation unless the adjusted exponent is below -6. */
  function DecimalToString(d: Decimal): string {
    var sign := if d.unscaled < 0 then "-" else "";
    var coefficient := NatToDigits(Abs(d.unscaled));
    var n := |coefficient|;
    if d.scale == 0 then sign + coefficient
    else if AdjustedExponent(d) >= -6 then
      if n > d.scale then PointText(d.unscaled < 0, coefficient[..n - d.scale], coefficient[n - d.scale..])
      else PointText(d.unscaled < 0, "0", Zeros(d.scale - n) + coefficient)
    else ScientificText(d)
  }

  /** BigDecimal.toString in scientific notation: one digit, the rest after a point, and the exponent. */
  function ScientificText(d: Decimal): string {
    var sign := if d.unscaled < 0 then "-" else "";
    var coefficient := NatToDigits(Abs(d.unscaled));
    sign + [coefficient[0]] + (if |coefficient| > 1 then "." + coefficient[1..] else "")
      + "E" + IntToString(AdjustedExponent(d))
  }

  /** Digits, a point and digits, after an optional minus sign. */
  function PointText(negative: bool, whole: string, fraction: string): string {
    (if negative then "-" else "") + whole + "." + fraction
  }

  lemma ParseSignedBody(negative: bool, body: string)
    requires |body| > 0 && IsDigit(body[0])
    ensures SplitSign((if negative then "-" else "") + body) == (negative, body)
  {
    var lit := (if negative then "-" else "") + body;
    if negative {
      assert lit[1..] == body;
    } else {
      assert lit == body;
    }
  }

  lemma ParseInteger0(negative: bool, whole: string)
    requires AllDigits(whole) && |whole| > 0
    ensures ParseDecimal((if negative then "-" else "") + whole) == Some(Decimal(Signed(negative, DigitsValue(whole)), 0))
  {
    ParseSignedBody(negative, whole);
    assert forall j :: 0 <= j < |whole| ==> whole[j] != '.';
    assert DotIndex(whole) == |whole|;
    assert whole[..|whole|] == whole;
    assert whole + "" == whole;
  }

  lemma PointSplit(whole: string, fraction: string)
    requires AllDigits(whole)
    ensures var body := whole + "." + fraction;
      DotIndex(body) == |whole| && body[..|whole|] == whole && body[|whole| + 1..] == fraction
  {
    var body := whole + "." + fraction;
    assert forall j :: 0 <= j < |whole| ==> body[j] == whole[j];
    assert body[|whole|] == '.';
  }

  lemma ParsePoint(negative: bool, whole: string, fraction: string)
    requires AllDigits(whole) && |whole| > 0
    ensures ParseDecimal(PointText(negative, whole, fraction)) == DecimalParts(negative, whole, fraction)
  {
    var body := whole + "." + fraction;
    assert PointText(negative, whole, fraction) == (if negative then "-" else "") + body;
    ParseSignedBody(negative, body);
    PointSplit(whole, fraction);
  }

  lemma AllDigitsAppend(a: string, b: string)
    requires AllDigits(a) && AllDigits(b)
    ensures AllDigits(a + b)
  {
    assert forall k :: 0 <= k < |a + b| ==> (a + b)[k] == if k < |a| then a[k] else b[k - |a|];
  }

  lemma WholeRoundTrip(d: Decimal)
    requires d.scale == 0
    ensures ParseDecimal(DecimalToString(d)) == Some(d)
  {
    var coefficient := NatToDigits(Abs(d.unscaled));
    NatToDigitsValue(Abs(d.unscaled));
    ParseInteger0(d.unscaled < 0, coefficient);
  }

  lemma LongRoundTrip(d: Decimal)
    requires 0 < d.scale < |NatToDigits(Abs(d.unscaled))|
    ensures ParseDecimal(DecimalToString(d)) == Some(d)
  {
    LongText(d);
    LongValue(d);
  }

  /** A decimal with more digits than its scale is written with its point inside the digits. */
  lemma LongText(d: Decimal)
    requires 0 < d.scale < |NatToDigits(Abs(d.unscaled))|
    ensures var coefficient := NatToDigits(Abs(d.unscaled)); var n := |coefficient|;
      DecimalToString(d) == PointText(d.unscaled < 0, coefficient[..n - d.scale], coefficient[n - d.scale..])
  {
    assert AdjustedExponent(d) >= 0;
  }

  lemma LongValue(d: Decimal)
    requires 0 < d.scale < |NatToDigits(Abs(d.unscaled))|
    ensures var coefficient := NatToDigits(Abs(d.unscaled)); var n := |coefficient|;
      ParseDecimal(PointText(d.unscaled < 0, coefficient[..n - d.scale], coefficient[n - d.scale..])) == Some(d)
  {
    var coefficient := NatToDigits(Abs(d.unscaled));
    var n := |coefficient|;
    var whole, fraction := coefficient[..n - d.scale], coefficient[n - d.scale..];
    LongDigits(d);
    ParsePoint(d.unscaled < 0, whole, fraction);
    PartsValue(d, whole, fraction);
  }

  /** Digits whose value is the magnitude of d, split with d.scale of them after the point, give d. */
  lemma PartsValue(d: Decimal, whole: string, fraction: string)
    requires AllDigits(whole) && AllDigits(fraction) && AllDigits(whole + fraction) && |whole| > 0
    requires DigitsValue(whole + fraction) == Abs(d.unscaled) && |fraction| == d.scale
    ensures DecimalParts(d.unscaled < 0, whole, fraction) == Some(d)
  {
  }

  /** Splitting the digits around the point keeps their value. */
  lemma LongDigits(d: Decimal)
    requires 0 < d.scale < |NatToDigits(Abs(d.unscaled))|
    ensures var coefficient := NatToDigits(Abs(d.unscaled)); var n := |coefficient|;
      var whole, fraction := coefficient[..n - d.scale], coefficient[n - d.scale..];
      AllDigits(whole) && AllDigits(fraction) && |whole| > 0 && |fraction| == d.scale &&
      whole + fraction == coefficient && DigitsValue(whole + fraction) == Abs(d.unscaled)
  {
    var coefficient := NatToDigits(Abs(d.unscaled));
    var n := |coefficient|;
    assert coefficient[..n - d.scale] + coefficient[n - d.scale..] == coefficient;
    NatToDigitsValue(Abs(d.unscaled));
  }

  lemma ShortRoundTrip(d: Decimal)
    requires 0 < d.scale && |NatToDigits(Abs(d.unscaled))| <= d.scale && AdjustedExponent(d) >= -6
    ensures ParseDecimal(DecimalToString(d)) == Some(d)
  {
    var coefficient := NatToDigits(Abs(d.unscaled));
    var fraction := Zeros(d.scale - |coefficient|) + coefficient;
    assert DecimalToString(d) == PointText(d.unscaled < 0, "0", fraction);
    ShortValue(d);
  }

  /** The digits written after "0." for a short decimal read back to its unscaled value. */
  lemma ShortValue(d: Decimal)
    requires 0 < d.scale && |NatToDigits(Abs(d.unscaled))| <= d.scale
    ensures var coefficient := NatToDigits(Abs(d.unscaled));
      ParseDecimal(PointText(d.unscaled < 0, "0", Zeros(d.scale - |coefficient|) + coefficient)) == Some(d)
  {
    var coefficient := NatToDigits(Abs(d.unscaled));
    var fraction := Zeros(d.scale - |coefficient|) + coefficient;
    ShortDigits(d);
    assert AllDigits("0");
    ParsePoint(d.unscaled < 0, "0", fraction);
    PartsValue(d, "0", fraction);
  }

  /** Leading zeros after "0." add nothing to the value of the digits. */
  lemma ShortDigits(d: Decimal)
    requires 0 < d.scale && |NatToDigits(Abs(d.unscaled))| <= d.scale
    ensures var coefficient := NatToDigits(Abs(d.unscaled));
      var fraction := Zeros(d.scale - |coefficient|) + coefficient;
      AllDigits(fraction) && |fraction| == d.scale && AllDigits("0" + fraction) &&
      DigitsValue("0" + fraction) == Abs(d.unscaled)
  {
    var coefficient := NatToDigits(Abs(d.unscaled));
    NatToDigitsValue(Abs(d.unscaled));
    LeadingZeros(d.scale - |coefficient|, coefficient);
  }

  lemma LeadingZeros(k: nat, ds: string)
    requires AllDigits(ds)
    ensures AllDigits("0" + (Zeros(k) + ds)) && DigitsValue("0" + (Zeros(k) + ds)) == DigitsValue(ds)
  {
    var padded := Zeros(k) + ds;
    DigitsValueAppend(Zeros(k), ds);
    assert DigitsValue(padded) == 0 * Pow10(|ds|) + DigitsValue(ds);
    assert DigitsValue(padded) == DigitsValue(ds);
    DigitsValueAppend("0", padded);
    assert "0"[..0] == "";
    assert DigitsValue("0") == 0;
    assert DigitsValue("0" + padded) == 0 * Pow10(|padded|) + DigitsValue(padded);
  }

  /** Reading back what BigDecimal.toString writes in plain notation gives the same decimal. */
  lemma DecimalRoundTrip(d: Decimal)
    requires AdjustedExponent(d) >= -6
    ensures ParseDecimal(DecimalToString(d)) == Some(d)
  {
    if d.scale == 0 {
      WholeRoundTrip(d);
    } else if |NatToDigits(Abs(d.unscaled))| > d.scale {
      LongRoundTrip(d);
    } else {
      ShortRoundTrip(d);
    }
  }
}
