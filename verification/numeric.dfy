/**
 * PHP's conversion of a string to an integer, as `intval` and `(int)`
 * perform it: leading whitespace, an optional sign, a decimal numeral
 * with an optional fraction and exponent, anything after it ignored; a
 * string that does not start with a numeral gives 0; a value out of the
 * 64-bit range saturates.
 */
module NumericStrings {
  import opened Common

  predicate IsDigit(c: char)
  {
    '0' <= c <= '9'
  }

  predicate AllDigits(d: string)
  {
    forall i | 0 <= i < |d| :: IsDigit(d[i])
  }

  /** The whitespace PHP skips before a numeric string: space, \t, \n, \r, \v and \f. */
  predicate IsNumericSpace(c: char)
  {
    c == ' ' || c == '\t' || c == '\n' || c == '\r' || c as int == 11 || c as int == 12
  }

  function SkipSpace(s: string): string
  {
    if |s| > 0 && IsNumericSpace(s[0]) then SkipSpace(s[1..]) else s
  }

  /** The length of the run of digits that starts s. */
  function DigitRun(s: string): (n: nat)
    ensures n <= |s|
    ensures AllDigits(s[..n])
    ensures n == |s| || !IsDigit(s[n])
  {
    if |s| == 0 || !IsDigit(s[0]) then 0
    else
      var n := 1 + DigitRun(s[1..]);
      assert s[..n] == [s[0]] + s[1..][..n - 1];
      n
  }

  /** The value of a string of decimal digits. */
  function DigitsValue(d: string): nat
    requires AllDigits(d)
  {
    if d == [] then 0
    else
      assert AllDigits(d[..|d| - 1]);
      10 * DigitsValue(d[..|d| - 1]) + (d[|d| - 1] as int - '0' as int)
  }

  function Pow10(k: nat): (p: nat)
    ensures p >= 1
  {
    if k == 0 then 1 else 10 * Pow10(k - 1)
  }

  /**
   * A decimal numeral: its sign, its digits (the integer part followed by
   * the fraction part), how many of them form the fraction, and its
   * exponent.
   */
  datatype Numeral = Numeral(negative: bool, digits: string, fractionLength: nat, exponent: int)

  /** An exponent part `e`/`E`, an optional sign and at least one digit; 0 when there is none. */
  function ExponentOf(r: string): int
  {
    if |r| > 0 && (r[0] == 'e' || r[0] == 'E') then
      var v := r[1..];
      var w := if |v| > 0 && (v[0] == '-' || v[0] == '+') then v[1..] else v;
      var m := DigitRun(w);
      if m == 0 then 0
      else if v[0] == '-' then -(DigitsValue(w[..m]) as int)
      else DigitsValue(w[..m])
    else 0
  }

  /** The digits after a point that starts r; none when r does not start with a point. */
  function FractionDigits(r: string): (f: string)
    ensures AllDigits(f)
  {
    if |r| > 0 && r[0] == '.' then r[1..][..DigitRun(r[1..])] else ""
  }

  /** What follows the point and its digits in r (all of r when it does not start with a point). */
  function AfterFraction(r: string): string
  {
    if |r| > 0 && r[0] == '.' then r[1..][DigitRun(r[1..])..] else r
  }

  lemma AllDigitsConcat(a: string, b: string)
    requires AllDigits(a) && AllDigits(b)
    ensures AllDigits(a + b)
  {
    forall i | 0 <= i < |a + b| ensures IsDigit((a + b)[i]) {
      if i >= |a| {
        assert (a + b)[i] == b[i - |a|];
      }
    }
  }

  /**
   * The numeral after its sign: it needs a digit before the point, or a
   * point followed by a digit.
   */
  function UnsignedNumeral(negative: bool, u: string): (r: Option<Numeral>)
    ensures r.Some? ==> AllDigits(r.value.digits)
  {
    var n := DigitRun(u);
    var f := FractionDigits(u[n..]);
    if n == 0 && f == [] then None
    else
      AllDigitsConcat(u[..n], f);
      Some(Numeral(negative, u[..n] + f, |f|, ExponentOf(AfterFraction(u[n..]))))
  }

  /** The numeral at the start of s after its whitespace, if there is one. */
  function ParseNumeral(s: string): (r: Option<Numeral>)
    ensures r.Some? ==> AllDigits(r.value.digits)
  {
    var t := SkipSpace(s);
    if |t| > 0 && (t[0] == '-' || t[0] == '+') then UnsignedNumeral(t[0] == '-', t[1..])
    else UnsignedNumeral(false, t)
  }

  /** The numeral's value truncated toward zero, as a cast of the double to int does. */
  function TruncatedValue(n: Numeral): int
    requires AllDigits(n.digits)
  {
    var m := DigitsValue(n.digits);
    var scale := n.exponent - n.fractionLength;
    var magnitude := if scale >= 0 then m * Pow10(scale) else m / Pow10(-scale);
    if n.negative then -magnitude else magnitude
  }

  const PhpIntMax: int := 0x7FFF_FFFF_FFFF_FFFF
  const PhpIntMin: int := -0x8000_0000_0000_0000

  /** Out-of-range values saturate at the bounds of a 64-bit PHP integer. */
  function Saturate(x: int): int
  {
    if x > PhpIntMax then PhpIntMax else if x < PhpIntMin then PhpIntMin else x
  }

  /** `intval` on a string. */
  function StringToInt(s: string): int
  {
    var p := ParseNumeral(s);
    if p.None? then 0 else Saturate(TruncatedValue(p.value))
  }

  lemma {:induction false} DigitStringDigits(k: nat)
    ensures AllDigits(DigitString(k))
    ensures DigitsValue(DigitString(k)) == k
    decreases k
  {
    if k >= 10 {
      DigitStringDigits(k / 10);
      var d := DigitString(k);
      assert d[..|d| - 1] == DigitString(k / 10);
    }
  }

  /** A run of digits followed by a non-digit is counted exactly. */
  lemma {:induction false} DigitRunPrefix(d: string, t: string)
    requires AllDigits(d)
    requires |t| == 0 || !IsDigit(t[0])
    ensures DigitRun(d + t) == |d|
    decreases |d|
  {
    if d != [] {
      assert (d + t)[1..] == d[1..] + t;
      DigitRunPrefix(d[1..], t);
    } else {
      assert d + t == t;
    }
  }

  /**
   * An integer written in decimal, after any whitespace and before
   * anything that cannot continue a numeral, converts back to itself.
   */
  lemma DecimalStringToInt(spaces: string, i: int, tail: string)
    requires forall k | 0 <= k < |spaces| :: IsNumericSpace(spaces[k])
    requires PhpIntMin <= i <= PhpIntMax
    requires |tail| == 0 || !(IsDigit(tail[0]) || tail[0] == '.' || tail[0] == 'e' || tail[0] == 'E')
    ensures StringToInt(spaces + DecimalString(i) + tail) == i
  {
    var t := DecimalString(i) + tail;
    var k := if i < 0 then -i else i;
    var n := Numeral(i < 0, DigitString(k), 0, 0);
    DecimalParse(i, tail);
    assert spaces + DecimalString(i) + tail == spaces + t;
    ParseSkipsSpaces(spaces, t);
    IntegerNumeralValue(i);
    StringToIntOf(spaces + t, n);
  }

  lemma StringToIntOf(s: string, n: Numeral)
    requires AllDigits(n.digits)
    requires ParseNumeral(s) == Some(n)
    ensures StringToInt(s) == Saturate(TruncatedValue(n))
  {
  }

  /** A numeral without fraction or exponent has the value of its digits. */
  lemma IntegerNumeralValue(i: int)
    ensures var k := if i < 0 then -i else i;
      && AllDigits(DigitString(k))
      && TruncatedValue(Numeral(i < 0, DigitString(k), 0, 0)) == i
  {
    var k := if i < 0 then -i else i;
    DigitStringDigits(k);
    assert Pow10(0) == 1;
  }

  /** Whitespace before a string that does not start with whitespace is skipped. */
  lemma ParseSkipsSpaces(spaces: string, s: string)
    requires forall k | 0 <= k < |spaces| :: IsNumericSpace(spaces[k])
    requires |s| > 0 && !IsNumericSpace(s[0])
    ensures ParseNumeral(spaces + s) == ParseNumeral(s)
  {
    SkipSpaces(spaces, s);
  }

  /** A decimal integer followed by something that cannot continue a numeral is an integer numeral. */
  lemma DecimalParse(i: int, tail: string)
    requires |tail| == 0 || !(IsDigit(tail[0]) || tail[0] == '.' || tail[0] == 'e' || tail[0] == 'E')
    ensures var k := if i < 0 then -i else i;
      && AllDigits(DigitString(k))
      && |DecimalString(i) + tail| > 0 && !IsNumericSpace((DecimalString(i) + tail)[0])
      && ParseNumeral(DecimalString(i) + tail) == Some(Numeral(i < 0, DigitString(k), 0, 0))
  {
    var k := if i < 0 then -i else i;
    DigitStringDigits(k);
    DigitStringFirst(k);
    var d := DigitString(k);
    if i < 0 {
      assert DecimalString(i) + tail == "-" + (d + tail);
      ParseSigned(d, tail);
    } else {
      assert DecimalString(i) + tail == d + tail;
      ParseUnsigned(d, tail);
    }
  }

  lemma ParseUnsigned(d: string, tail: string)
    requires AllDigits(d) && |d| > 0
    requires |tail| == 0 || !(IsDigit(tail[0]) || tail[0] == '.' || tail[0] == 'e' || tail[0] == 'E')
    ensures |d + tail| > 0 && !IsNumericSpace((d + tail)[0])
    ensures ParseNumeral(d + tail) == Some(Numeral(false, d, 0, 0))
  {
    assert (d + tail)[0] == d[0];
    assert SkipSpace(d + tail) == d + tail;
    UnsignedDecimal(false, d, tail);
  }

  lemma ParseSigned(d: string, tail: string)
    requires AllDigits(d) && |d| > 0
    requires |tail| == 0 || !(IsDigit(tail[0]) || tail[0] == '.' || tail[0] == 'e' || tail[0] == 'E')
    ensures ParseNumeral("-" + (d + tail)) == Some(Numeral(true, d, 0, 0))
  {
    var t := "-" + (d + tail);
    assert t[0] == '-' && t[1..] == d + tail;
    assert SkipSpace(t) == t;
    UnsignedDecimal(true, d, tail);
  }

  /** Digits followed by something that cannot continue a numeral form an integer numeral. */
  lemma UnsignedDecimal(negative: bool, d: string, tail: string)
    requires AllDigits(d) && |d| > 0
    requires |tail| == 0 || !(IsDigit(tail[0]) || tail[0] == '.' || tail[0] == 'e' || tail[0] == 'E')
    ensures UnsignedNumeral(negative, d + tail) == Some(Numeral(negative, d, 0, 0))
  {
    var u := d + tail;
    DigitRunPrefix(d, tail);
    assert u[..|d|] == d;
    assert u[|d|..] == tail;
    assert FractionDigits(tail) == "";
    assert d + "" == d;
  }

  /** The first character of a decimal string is a digit. */
  lemma {:induction false} DigitStringFirst(k: nat)
    ensures IsDigit(DigitString(k)[0])
    decreases k
  {
    if k >= 10 {
      DigitStringFirst(k / 10);
      assert DigitString(k)[0] == DigitString(k / 10)[0];
    }
  }

  /** Leading whitespace is skipped. */
  lemma {:induction false} SkipSpaces(spaces: string, s: string)
    requires forall k | 0 <= k < |spaces| :: IsNumericSpace(spaces[k])
    requires |s| == 0 || !IsNumericSpace(s[0])
    ensures SkipSpace(spaces + s) == s
    decreases |spaces|
  {
    if spaces == [] {
      assert spaces + s == s;
    } else {
      assert (spaces + s)[1..] == spaces[1..] + s;
      SkipSpaces(spaces[1..], s);
    }
  }
}
