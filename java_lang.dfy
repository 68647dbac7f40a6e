/**
 * The parts of java.lang that the core relies on: the width of `long` and
 * `int`, the decimal rendering `Long.toString` (used for the `Location` URI
 * and the alert parameter) with the ASCII-decimal part of `Long.parseLong`
 * as its inverse, and `Long.hashCode`.
 */
module JavaLang {
  import opened Wrappers

  const LONG_MIN: int := -0x8000_0000_0000_0000
  const LONG_MAX: int := 0x7FFF_FFFF_FFFF_FFFF
  const INT_MIN: int := -0x8000_0000
  const INT_MAX: int := 0x7FFF_FFFF

  /** A Java `long`. */
  newtype Long = x: int | -0x8000_0000_0000_0000 <= x <= 0x7FFF_FFFF_FFFF_FFFF

  predicate IsDigit(c: char) {
    '0' <= c <= '9'
  }

  predicate AllDigits(s: string) {
    forall i :: 0 <= i < |s| ==> IsDigit(s[i])
  }

  function DigitChar(d: nat): (c: char)
    requires d < 10
  {
    (('0' as int) + d) as char
  }

  function DigitValue(c: char): (d: nat)
    requires IsDigit(c)
  {
    (c as int) - ('0' as int)
  }

  /** The shortest decimal numeral of `n`. */
  function NatToDecimal(n: nat): (s: string)
    ensures |s| >= 1 && AllDigits(s)
    ensures s[0] == '0' ==> s == "0"
    decreases n
  {
    if n < 10 then [DigitChar(n)] else NatToDecimal(n / 10) + [DigitChar(n % 10)]
  }

  /** The value of a numeral, most significant digit first. */
  function DecimalValue(s: string): nat
    requires AllDigits(s)
  {
    if s == [] then 0 else DecimalValue(s[..|s| - 1]) * 10 + DigitValue(s[|s| - 1])
  }

  lemma {:induction false} DecimalRoundTrip(n: nat)
    ensures DecimalValue(NatToDecimal(n)) == n
  {
    var s := NatToDecimal(n);
    if n >= 10 {
      DecimalRoundTrip(n / 10);
      assert s[..|s| - 1] == NatToDecimal(n / 10);
    }
  }

  /** `Long.toString(v)`: an optional minus sign followed by the shortest numeral of |v|. */
  function LongToString(v: Long): (s: string)
    ensures |s| >= 1
    ensures v >= 0 <==> s[0] != '-'
    ensures v >= 0 ==> AllDigits(s)
    ensures v < 0 ==> |s| >= 2 && AllDigits(s[1..])
  {
    if v < 0 then "-" + NatToDecimal(-(v as int)) else NatToDecimal(v as int)
  }

  /**
   * The ASCII-decimal subset of `Long.parseLong(s)`: an optional '-' (or '+')
   * then one or more digits '0'..'9', whose value must fit a `long`; `None`
   * stands for the `NumberFormatException` thrown otherwise.
   */
  function ParseLong(s: string): (r: Option<Long>)
    ensures r.Some? ==> AllDigits(s) || (|s| >= 2 && (s[0] == '-' || s[0] == '+') && AllDigits(s[1..]))
    ensures |s| >= 1 && AllDigits(s) && DecimalValue(s) <= LONG_MAX ==> r == Some(DecimalValue(s) as Long)
  {
    if |s| >= 1 && (s[0] == '-' || s[0] == '+') then
      var digits := s[1..];
      if |digits| >= 1 && AllDigits(digits) then
        var v: int := if s[0] == '-' then 0 - DecimalValue(digits) as int else DecimalValue(digits);
        if LONG_MIN <= v <= LONG_MAX then Some(v as Long) else None
      else None
    else if |s| >= 1 && AllDigits(s) then
      var v := DecimalValue(s);
      if v <= LONG_MAX then Some(v as Long) else None
    else None
  }

  /** Reading back what `Long.toString` wrote gives the original number. */
  lemma LongToStringRoundTrip(v: Long)
    ensures ParseLong(LongToString(v)) == Some(v)
  {
    var s := LongToString(v);
    if v < 0 {
      DecimalRoundTrip(-(v as int));
      assert s[1..] == NatToDecimal(-(v as int));
    } else {
      DecimalRoundTrip(v as int);
    }
  }

  /** Distinct numbers have distinct renderings. */
  lemma LongToStringInjective(a: Long, b: Long)
    ensures LongToString(a) == LongToString(b) ==> a == b
  {
    LongToStringRoundTrip(a);
    LongToStringRoundTrip(b);
  }

  /** The value of the 64-bit two's-complement pattern of `v`, read as unsigned. */
  function Unsigned64(v: Long): (u: nat)
    ensures u < 0x1_0000_0000_0000_0000
  {
    if v < 0 then v as int + 0x1_0000_0000_0000_0000 else v as int
  }

  function Pow2(n: nat): (p: nat)
    ensures p >= 1
  {
    if n == 0 then 1 else 2 * Pow2(n - 1)
  }

  lemma {:induction false} Pow2Add(a: nat, b: nat)
    ensures Pow2(a + b) == Pow2(a) * Pow2(b)
  {
    if a > 0 {
      Pow2Add(a - 1, b);
    }
  }

  /** A Java `int` has 32 bits. */
  lemma Pow2Of32()
    ensures Pow2(32) == 0x1_0000_0000
  {
    assert Pow2(2) == 4;
    Pow2Add(2, 2);
    Pow2Add(4, 4);
    Pow2Add(8, 8);
    Pow2Add(16, 16);
  }

  /** The bitwise exclusive-or of the low `n` bits of `a` and `b`. */
  function XorBits(a: nat, b: nat, n: nat): (r: nat)
    ensures r < Pow2(n)
  {
    if n == 0 then 0
    else (if a % 2 != b % 2 then 1 else 0) + 2 * XorBits(a / 2, b / 2, n - 1)
  }

  /** Exclusive-or with zero leaves a number of `n` bits unchanged. */
  lemma {:induction false} XorBitsZero(a: nat, n: nat)
    requires a < Pow2(n)
    ensures XorBits(a, 0, n) == a
  {
    if n > 0 {
      XorBitsZero(a / 2, n - 1);
    }
  }

  /** Reads a 32-bit pattern, given as its unsigned value, as a two's-complement `int`. */
  function ToInt32(x: nat): (r: int)
    requires x < 0x1_0000_0000
    ensures INT_MIN <= r <= INT_MAX
  {
    if x > INT_MAX then x - 0x1_0000_0000 else x
  }

  /**
   * `Long.hashCode(v)`, that is `(int)(v ^ (v >>> 32))`: the cast keeps the
   * low 32 bits, which are the low half of `v` exclusive-or its high half.
   */
  function LongHashCode(v: Long): (h: int)
    ensures INT_MIN <= h <= INT_MAX
    ensures 0 <= v as int <= INT_MAX ==> h == v as int
  {
    var u := Unsigned64(v);
    var high, low := u / 0x1_0000_0000, u % 0x1_0000_0000;
    Pow2Of32();
    if 0 <= v as int <= INT_MAX then XorBitsZero(low, 32); ToInt32(XorBits(low, high, 32))
    else ToInt32(XorBits(low, high, 32))
  }
}
