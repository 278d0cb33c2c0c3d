/** The decimal text forms of numbers the label file uses, over exact integers
    and reals: Python's str() of an int, format(x, ".6f") of a number, float()
    of a token, and int() of the float it yields. */
module Decimal {
  import opened Types
  import Text

  predicate IsDigit(c: char) {
    '0' <= c <= '9'
  }

  predicate AllDigits(s: string) {
    forall i :: 0 <= i < |s| ==> IsDigit(s[i])
  }

  /** Only the characters a formatted number is made of. */
  predicate NumericText(s: string) {
    forall i :: 0 <= i < |s| ==> IsDigit(s[i]) || s[i] == '-' || s[i] == '.'
  }

  function DigitValue(c: char): (d: nat)
    requires IsDigit(c)
    ensures d <= 9
  {
    c as int - '0' as int
  }

  function DigitChar(d: nat): (c: char)
    requires d <= 9
    ensures IsDigit(c) && DigitValue(c) == d
  {
    ('0' as int + d) as char
  }

  /** The number a string of decimal digits denotes, most significant digit
      first; the empty string denotes 0. */
  function DigitsValue(s: string): nat
    requires AllDigits(s)
    decreases |s|
  {
    if s == [] then 0 else 10 * DigitsValue(s[..|s| - 1]) + DigitValue(s[|s| - 1])
  }

  function Pow10(k: nat): (p: nat)
    ensures p >= 1
  {
    if k == 0 then 1 else 10 * Pow10(k - 1)
  }

  /** The digits of n as Python's str(n) writes them: never empty, no leading
      zero, and they denote n. */
  function NatDigits(n: nat): (s: string)
    ensures s != [] && AllDigits(s)
    ensures |s| > 1 ==> s[0] != '0'
    ensures DigitsValue(s) == n
    decreases n
  {
    if n < 10 then [DigitChar(n)]
    else
      var front := NatDigits(n / 10);
      var s := front + [DigitChar(n % 10)];
      assert s[..|s| - 1] == front;
      s
  }

  /** A number below 10^k has at most k digits. */
  lemma {:induction false} NatDigitsLength(n: nat, k: nat)
    requires 1 <= k && n < Pow10(k)
    ensures |NatDigits(n)| <= k
    decreases k
  {
    if n >= 10 {
      NatDigitsLength(n / 10, k - 1);
    }
  }

  function Zeros(k: nat): (z: string)
    ensures |z| == k && AllDigits(z)
  {
    seq(k, _ => '0')
  }

  /** Leading zeros do not change the value of a digit string. */
  lemma {:induction false} ZerosValue(k: nat, s: string)
    requires AllDigits(s)
    ensures DigitsValue(Zeros(k) + s) == DigitsValue(s)
    decreases |s|, k
  {
    var z := Zeros(k);
    if s == [] {
      assert z + s == z;
      if k > 0 {
        assert z[..k - 1] == Zeros(k - 1);
        ZerosValue(k - 1, []);
        assert Zeros(k - 1) + [] == Zeros(k - 1);
      }
    } else {
      var t := z + s;
      assert t[..|t| - 1] == z + s[..|s| - 1];
      ZerosValue(k, s[..|s| - 1]);
    }
  }

  /** Left-pads a digit string with zeros to at least `width` characters. */
  function ZeroPad(s: string, width: nat): (r: string)
    requires AllDigits(s)
    ensures AllDigits(r) && |r| == if |s| < width then width else |s|
    ensures DigitsValue(r) == DigitsValue(s)
  {
    ZerosValue(if |s| < width then width - |s| else 0, s);
    Zeros(if |s| < width then width - |s| else 0) + s
  }

  /** Python's str(i) for an int: an optional minus sign, then the digits. */
  function FormatInt(i: int): (s: string)
    ensures s != [] && NumericText(s) && IsDigit(s[|s| - 1])
    ensures s[0] == '-' <==> i < 0
  {
    if i < 0 then "-" + NatDigits(-i) else NatDigits(i)
  }

  /** Round half to even: the nearest integer, the even one on a tie. This is
      what format(x, ".6f") applies to x * 10^6. */
  function RoundHalfEven(r: real): (n: int)
    ensures n as real - 0.5 <= r <= n as real + 0.5
    ensures (r == n as real - 0.5 || r == n as real + 0.5) ==> n % 2 == 0
  {
    var f := r.Floor;
    var d := r - f as real;
    if d < 0.5 then f
    else if d > 0.5 then f + 1
    else if f % 2 == 0 then f
    else f + 1
  }

  /** The value format(x, ".6f") writes: x rounded to millionths. */
  function Round6(x: real): real {
    RoundHalfEven(x * 1000000.0) as real / 1000000.0
  }

  /** A count of millionths written as digits, a point and six digits. */
  function Millionths(m: nat): (s: string)
    ensures |s| >= 8 && NumericText(s) && IsDigit(s[0])
    ensures s[|s| - 7] == '.' && AllDigits(s[|s| - 6..])
  {
    NatDigitsLength(m % 1000000, 6);
    var fraction := ZeroPad(NatDigits(m % 1000000), 6);
    var s := NatDigits(m / 1000000) + "." + fraction;
    assert s[|s| - 6..] == fraction;
    s
  }

  /** Python's format(x, ".6f"): a minus sign when x is negative, the integer
      part, a point and exactly six fractional digits of x rounded to millionths. */
  function Format6(x: real): (s: string)
    ensures |s| >= 8 && NumericText(s)
    ensures s[0] == '-' <==> x < 0.0
    ensures s[|s| - 7] == '.' && AllDigits(s[|s| - 6..])
  {
    var digits := Millionths(Magnitude(x));
    if x < 0.0 then "-" + digits else digits
  }

  /** The number of millionths in |x|, rounded as format(x, ".6f") rounds. */
  function Magnitude(x: real): nat
  {
    var n := RoundHalfEven(x * 1000000.0);
    if n < 0 then -n else n
  }

  /** Position of the first exponent marker 'e' or 'E', or the length. */
  function ExponentIndex(s: string): (n: nat)
    ensures n <= |s|
    ensures forall i :: 0 <= i < n ==> s[i] != 'e' && s[i] != 'E'
    ensures n < |s| ==> s[n] == 'e' || s[n] == 'E'
  {
    if s == [] || s[0] == 'e' || s[0] == 'E' then 0 else 1 + ExponentIndex(s[1..])
  }

  /** The exponent after 'e': an optional sign and at least one digit. */
  function ParseExponent(s: string): Option<int> {
    var neg := |s| > 0 && s[0] == '-';
    var digits := if |s| > 0 && (s[0] == '+' || s[0] == '-') then s[1..] else s;
    if digits == [] || !AllDigits(digits) then None
    else
      var v: int := DigitsValue(digits);
      Some(if neg then -v else v)
  }

  function Scale(e: int): real {
    if e >= 0 then Pow10(e) as real else 1.0 / Pow10(-e) as real
  }

  /** Digits with an optional point and at least one digit on either side of it. */
  function ParseMantissa(m: string): Option<real> {
    var dot := Text.CharIndex(m, '.');
    var whole := m[..dot];
    var fraction := if dot < |m| then m[dot + 1..] else [];
    if !AllDigits(whole) || !AllDigits(fraction) || (whole == [] && fraction == []) then None
    else Some(PointValue(whole, fraction))
  }

  /** The value of `whole.fraction`. */
  function PointValue(whole: string, fraction: string): real
    requires AllDigits(whole) && AllDigits(fraction)
  {
    DigitsValue(whole) as real + DigitsValue(fraction) as real / Pow10(|fraction|) as real
  }

  /** A mantissa with an optional exponent, without a sign. */
  function ParseUnsigned(body: string): Option<real> {
    var e := ExponentIndex(body);
    var exponent := if e < |body| then ParseExponent(body[e + 1..]) else Some(0);
    match ParseMantissa(body[..e])
    case None => None
    case Some(v) => if exponent.None? then None else Some(v * Scale(exponent.value))
  }

  /** Python's float() of a token, on the decimal forms: an optional sign, digits
      with an optional point (at least one digit on either side of it), and an
      optional exponent. The value is exact; None is the ValueError. */
  function ParseFloat(t: string): Option<real> {
    var neg := |t| > 0 && t[0] == '-';
    var body := if |t| > 0 && (t[0] == '+' || t[0] == '-') then t[1..] else t;
    match ParseUnsigned(body)
    case None => None
    case Some(v) => Some(if neg then -v else v)
  }

  /** Python's int() of a float: truncation toward zero, not floor. */
  function Trunc(r: real): (n: int)
    ensures 0.0 <= r ==> n as real <= r < n as real + 1.0
    ensures r < 0.0 ==> n as real - 1.0 < r <= n as real
  {
    if r >= 0.0 then r.Floor else -((-r).Floor)
  }

  /** Truncation keeps order. */
  lemma TruncMonotonic(a: real, b: real)
    requires a <= b
    ensures Trunc(a) <= Trunc(b)
  {
  }

  /** A digit string, a point and digits read back as the two parts. */
  lemma MantissaFixedPoint(whole: string, fraction: string)
    requires whole != [] && AllDigits(whole) && AllDigits(fraction)
    ensures ParseMantissa(whole + "." + fraction) == Some(PointValue(whole, fraction))
  {
    var m := whole + "." + fraction;
    assert forall i :: 0 <= i < |whole| ==> m[i] == whole[i] && m[i] != '.';
    assert m[|whole|] == '.';
    var dot := Text.CharIndex(m, '.');
    assert dot == |whole|;
    assert m[..dot] == whole;
    assert m[dot + 1..] == fraction;
  }

  /** Digits without a point read back as their value. */
  lemma MantissaInteger(digits: string)
    requires digits != [] && AllDigits(digits)
    ensures ParseMantissa(digits) == Some(DigitsValue(digits) as real)
  {
    assert Text.CharIndex(digits, '.') == |digits|;
    assert digits[..|digits|] == digits;
    assert ParseMantissa(digits) == Some(PointValue(digits, []));
    assert DigitsValue([]) == 0 && Pow10(0) == 1;
  }

  /** Without an exponent marker the whole body is the mantissa. */
  lemma UnsignedWithoutExponent(body: string)
    requires NumericText(body)
    ensures ParseUnsigned(body) == ParseMantissa(body)
  {
    assert ExponentIndex(body) == |body|;
    assert body[..|body|] == body;
  }

  /** Without a sign, a token that starts with a digit reads as its unsigned body. */
  lemma ParsePositive(body: string, v: real)
    requires body != [] && IsDigit(body[0])
    requires ParseUnsigned(body) == Some(v)
    ensures ParseFloat(body) == Some(v)
  {
  }

  /** A minus sign negates the value of the unsigned body after it. */
  lemma ParseNegative(body: string, v: real)
    requires body != [] && IsDigit(body[0])
    requires ParseUnsigned(body) == Some(v)
    ensures ParseFloat("-" + body) == Some(-v)
  {
    assert ("-" + body)[1..] == body;
  }

  /** float() reads back exactly the integer str() wrote. */
  lemma ParseFormatInt(i: int)
    ensures ParseFloat(FormatInt(i)) == Some(i as real)
  {
    var digits := NatDigits(if i < 0 then -i else i);
    assert FormatInt(i) == (if i < 0 then "-" else "") + digits;
    MantissaInteger(digits);
    UnsignedWithoutExponent(digits);
    assert Scale(0) == 1.0;
    var v := DigitsValue(digits) as real;
    assert ParseUnsigned(digits) == Some(v);
    if i < 0 {
      ParseNegative(digits, v);
    } else {
      ParsePositive(digits, v);
    }
  }

  /** Six zero-padded fractional digits denote millionths. */
  lemma MillionthsValue(m: nat)
    ensures PointValue(NatDigits(m / 1000000), ZeroPad(NatDigits(m % 1000000), 6)) == m as real / 1000000.0
  {
    NatDigitsLength(m % 1000000, 6);
    assert Pow10(6) == 1000000;
    assert m == (m / 1000000) * 1000000 + m % 1000000;
  }

  /** The millionths text is a digit string, a point and six digits. */
  lemma MillionthsText(m: nat)
    ensures ParseUnsigned(Millionths(m))
            == Some(PointValue(NatDigits(m / 1000000), ZeroPad(NatDigits(m % 1000000), 6)))
  {
    NatDigitsLength(m % 1000000, 6);
    var fraction := ZeroPad(NatDigits(m % 1000000), 6);
    var whole := NatDigits(m / 1000000);
    assert Millionths(m) == whole + "." + fraction;
    MantissaFixedPoint(whole, fraction);
    UnsignedWithoutExponent(Millionths(m));
    assert Scale(0) == 1.0;
  }

  /** The digits of a count of millionths read back as that count over 10^6. */
  lemma ParseMillionths(m: nat)
    ensures ParseUnsigned(Millionths(m)) == Some(m as real / 1000000.0)
  {
    var whole, fraction := NatDigits(m / 1000000), ZeroPad(NatDigits(m % 1000000), 6);
    MillionthsValue(m);
    assert PointValue(whole, fraction) == m as real / 1000000.0;
    MillionthsText(m);
  }

  /** x rounded to millionths is the signed count of millionths in its magnitude. */
  lemma Round6Magnitude(x: real)
    ensures x < 0.0 ==> Round6(x) == -(Magnitude(x) as real / 1000000.0)
    ensures 0.0 <= x ==> Round6(x) == Magnitude(x) as real / 1000000.0
  {
    var n := RoundHalfEven(x * 1000000.0);
    if x < 0.0 {
      assert n <= 0;
    } else {
      assert n >= 0;
    }
  }

  lemma ParseFormat6Negative(x: real)
    requires x < 0.0
    ensures ParseFloat(Format6(x)) == Some(Round6(x))
  {
    var m := Magnitude(x);
    var digits := Millionths(m);
    ParseMillionths(m);
    ParseNegative(digits, m as real / 1000000.0);
    assert Format6(x) == "-" + digits;
    Round6Magnitude(x);
  }

  lemma ParseFormat6NonNegative(x: real)
    requires 0.0 <= x
    ensures ParseFloat(Format6(x)) == Some(Round6(x))
  {
    var m := Magnitude(x);
    var digits := Millionths(m);
    ParseMillionths(m);
    ParsePositive(digits, m as real / 1000000.0);
    assert Format6(x) == digits;
    Round6Magnitude(x);
  }

  /** float() reads back what format(x, ".6f") wrote: x rounded to millionths. */
  lemma ParseFormat6(x: real)
    ensures ParseFloat(Format6(x)) == Some(Round6(x))
  {
    if x < 0.0 {
      ParseFormat6Negative(x);
    } else {
      ParseFormat6NonNegative(x);
    }
  }

  /** The written value is within half a millionth of the original. */
  lemma Round6Error(x: real)
    ensures -0.0000005 <= Round6(x) - x <= 0.0000005
  {
  }

  /** Writing a value that was already read back writes the same value. */
  lemma Round6Idempotent(x: real)
    ensures Round6(Round6(x)) == Round6(x)
  {
    var n := RoundHalfEven(x * 1000000.0);
    assert Round6(x) * 1000000.0 == n as real;
    var k := RoundHalfEven(n as real);
    assert k == n;
  }

  /** A number's text holds no whitespace and no line break. */
  lemma NumericIsOneWord(s: string)
    requires NumericText(s)
    ensures Text.NoSpace(s) && Text.NoLineBreak(s)
  {
  }
}
