/**
 The pieces of the Java platform that the two components lean on, stated
 over Dafny's unbounded integers: the 32- and 64-bit integer ranges and
 two's-complement wrap-around, `String.valueOf` for integers and booleans,
 and the parsers `Integer.valueOf`, `Long.valueOf` and `Boolean.valueOf`.
 */
module JavaLang {

  datatype Option<T> = None | Some(value: T)

  const INT_MIN: int := -0x8000_0000
  const INT_MAX: int := 0x7fff_ffff
  const LONG_MIN: int := -0x8000_0000_0000_0000
  const LONG_MAX: int := 0x7fff_ffff_ffff_ffff

  /** Java's `int` */
  type int32 = x: int | -0x8000_0000 <= x <= 0x7fff_ffff

  /** Java's `long` */
  type int64 = x: int | -0x8000_0000_0000_0000 <= x <= 0x7fff_ffff_ffff_ffff

  /** The value of an `int` expression whose exact result is `x`: two's-complement wrap-around. */
  function Wrap32(x: int): (r: int32)
    ensures INT_MIN <= x <= INT_MAX ==> r == x
    ensures INT_MAX < x <= INT_MAX + 0x1_0000_0000 ==> r == x - 0x1_0000_0000
    ensures INT_MIN - 0x1_0000_0000 <= x < INT_MIN ==> r == x + 0x1_0000_0000
    ensures (r - x) % 0x1_0000_0000 == 0
  {
    (x + 0x8000_0000) % 0x1_0000_0000 - 0x8000_0000
  }

  // ---------------------------------------------------------------------
  // Decimal digits

  predicate IsDigit(c: char) {
    '0' <= c <= '9'
  }

  predicate AllDigits(s: string) {
    forall i :: 0 <= i < |s| ==> IsDigit(s[i])
  }

  function DigitValue(c: char): (d: nat)
    requires IsDigit(c)
    ensures d < 10
  {
    c as int - '0' as int
  }

  function DigitChar(d: nat): (c: char)
    requires d < 10
    ensures IsDigit(c) && DigitValue(c) == d
  {
    ('0' as int + d) as char
  }

  /** The number a string of decimal digits denotes, most significant digit first. */
  function DigitsValue(s: string): nat
    requires AllDigits(s)
  {
    if |s| == 0 then 0 else DigitsValue(s[..|s| - 1]) * 10 + DigitValue(s[|s| - 1])
  }

  /** The shortest decimal numeral of `n`: no leading zero, "0" for zero. */
  function NatDigits(n: nat): (s: string)
    ensures |s| > 0 && AllDigits(s)
    ensures |s| > 1 ==> s[0] != '0'
  {
    if n < 10 then [DigitChar(n)] else NatDigits(n / 10) + [DigitChar(n % 10)]
  }

  lemma {:induction false} NatDigitsValue(n: nat)
    ensures DigitsValue(NatDigits(n)) == n
  {
    if n >= 10 {
      var s := NatDigits(n);
      assert s[..|s| - 1] == NatDigits(n / 10);
      NatDigitsValue(n / 10);
    }
  }

  // ---------------------------------------------------------------------
  // String.valueOf for int and long (Integer.toString, Long.toString)

  /** `String.valueOf(n)` for an `int` or a `long`: an optional minus sign, then the shortest numeral of |n|. */
  function DecimalString(n: int): (s: string)
    ensures |s| > 0
    ensures s[0] == '-' <==> n < 0
    ensures n >= 0 ==> AllDigits(s)
    ensures n < 0 ==> AllDigits(s[1..]) && |s| > 1
  {
    if n < 0 then "-" + NatDigits(-n) else NatDigits(n)
  }

  // ---------------------------------------------------------------------
  // Integer.valueOf / Long.valueOf (Integer.parseInt(s, 10), Long.parseLong(s, 10))

  /**
   Java's radix-10 signed parse into the range [lo, hi]: one optional leading
   '-' or '+', then at least one decimal digit and nothing else; a numeral
   whose value lies outside the range is rejected (Java throws
   NumberFormatException in every rejected case, here None).
   */
  function ParseDecimal(s: string, lo: int, hi: int): (r: Option<int>)
    ensures r.Some? ==> lo <= r.value <= hi
    ensures |s| == 0 ==> r == None
  {
    if |s| == 0 then None
    else
      var negative := s[0] == '-';
      var start := if s[0] == '-' || s[0] == '+' then 1 else 0;
      var body := s[start..];
      if |body| == 0 || !AllDigits(body) then None
      else
        var m: int := if negative then -(DigitsValue(body) as int) else DigitsValue(body);
        if lo <= m <= hi then Some(m) else None
  }

  /** `Integer.valueOf(s)`; None stands for the NumberFormatException. */
  function IntegerValueOf(s: string): (r: Option<int32>)
    ensures r.Some? <==> ParseDecimal(s, INT_MIN, INT_MAX).Some?
    ensures r.Some? ==> r.value == ParseDecimal(s, INT_MIN, INT_MAX).value
  {
    match ParseDecimal(s, INT_MIN, INT_MAX)
    case Some(n) => Some(n)
    case None => None
  }

  /** `Long.valueOf(s)`; None stands for the NumberFormatException. */
  function LongValueOf(s: string): (r: Option<int64>)
    ensures r.Some? <==> ParseDecimal(s, LONG_MIN, LONG_MAX).Some?
    ensures r.Some? ==> r.value == ParseDecimal(s, LONG_MIN, LONG_MAX).value
  {
    match ParseDecimal(s, LONG_MIN, LONG_MAX)
    case Some(n) => Some(n)
    case None => None
  }

  /** Parsing the decimal form of any integer gives it back exactly when it is in range. */
  lemma DecimalRoundTrip(n: int, lo: int, hi: int)
    ensures ParseDecimal(DecimalString(n), lo, hi) == if lo <= n <= hi then Some(n) else None
  {
    var s := DecimalString(n);
    if n < 0 {
      assert s[1..] == NatDigits(-n);
      NatDigitsValue(-n);
    } else {
      assert IsDigit(s[0]);
      assert s[0..] == s;
      NatDigitsValue(n);
    }
  }

  lemma IntegerRoundTrip(n: int32)
    ensures IntegerValueOf(DecimalString(n)) == Some(n)
  {
    DecimalRoundTrip(n, INT_MIN, INT_MAX);
  }

  lemma LongRoundTrip(n: int64)
    ensures LongValueOf(DecimalString(n)) == Some(n)
  {
    DecimalRoundTrip(n, LONG_MIN, LONG_MAX);
  }

  /** A `long` written out and read back as an `int` survives exactly when it fits. */
  lemma LongAsInteger(n: int64)
    ensures IntegerValueOf(DecimalString(n)) == if INT_MIN <= n <= INT_MAX then Some(n as int32) else None
  {
    DecimalRoundTrip(n, INT_MIN, INT_MAX);
  }

  /** Strings that are not numerals are rejected: letters, the empty string, a lone sign, a space. */
  lemma ParseRejectsNonNumerals(lo: int, hi: int)
    ensures ParseDecimal("abc", lo, hi) == None
    ensures ParseDecimal("", lo, hi) == None
    ensures ParseDecimal("-", lo, hi) == None
    ensures ParseDecimal(" 7", lo, hi) == None
    ensures ParseDecimal("7 ", lo, hi) == None
  {
  }

  /** A leading plus sign is accepted. */
  lemma IntegerPlusSign()
    ensures IntegerValueOf("+7") == Some(7)
  {
    assert "+7"[1..] == "7";
    assert "7"[..0] == "";
    assert DigitsValue("7") == 7;
  }

  // ---------------------------------------------------------------------
  // String.valueOf(boolean) and Boolean.valueOf(String)

  /** `String.valueOf(b)`: one of the two literals "true" and "false", told apart by b. */
  function BooleanString(b: bool): (s: string)
    ensures s == "true" || s == "false"
    ensures s == "true" <==> b
  {
    if b then "true" else "false"
  }

  function ToLowerAscii(c: char): char {
    if 'A' <= c <= 'Z' then (c as int + 32) as char else c
  }

  /** `a.equalsIgnoreCase(b)` over ASCII letters: reflexive, and only strings of equal length match. */
  function EqualsIgnoreCase(a: string, b: string): (r: bool)
    ensures a == b ==> r
    ensures r ==> |a| == |b|
  {
    |a| == |b| && forall i :: 0 <= i < |a| ==> ToLowerAscii(a[i]) == ToLowerAscii(b[i])
  }

  /** `Boolean.valueOf(s)`: true exactly for "true" in any letter case; it never throws. */
  function BooleanValueOf(s: string): (b: bool)
    ensures b ==> |s| == 4
  {
    EqualsIgnoreCase(s, "true")
  }

  lemma BooleanRoundTrip(b: bool)
    ensures BooleanValueOf(BooleanString(b)) == b
  {
  }

  lemma BooleanSamples()
    ensures BooleanValueOf("TRUE") && BooleanValueOf("True") && BooleanValueOf("tRuE")
    ensures !BooleanValueOf("yes") && !BooleanValueOf("1") && !BooleanValueOf("") && !BooleanValueOf("true ")
  {
  }
}
