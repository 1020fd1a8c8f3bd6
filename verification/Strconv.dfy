/** The conversions between integers and text that the driver uses: `strconv.ParseInt` and
    `strconv.FormatInt` in base 10 and 64 bits, and `%04x`. */
module Strconv {

  const MIN_INT64 := -0x8000_0000_0000_0000
  const MAX_INT64 := 0x7fff_ffff_ffff_ffff

  predicate IsInt64(i: int) { MIN_INT64 <= i <= MAX_INT64 }

  /** 64-bit wrap-around. */
  function Wrap64(i: int): int {
    (i - MIN_INT64) % 0x1_0000_0000_0000_0000 + MIN_INT64
  }

  // ----- base 10

  const DIGITS := "0123456789"

  predicate IsDigit(c: char) { '0' <= c <= '9' }

  function DigitValue(c: char): nat
    requires IsDigit(c)
  {
    c as int - '0' as int
  }

  function FormatNat(n: nat): (s: string)
    ensures s != [] && forall k :: 0 <= k < |s| ==> IsDigit(s[k])
  {
    if n < 10 then [DIGITS[n]] else FormatNat(n / 10) + [DIGITS[n % 10]]
  }

  /** The value of a string of digits. */
  function NatValue(s: string): nat
    requires forall k :: 0 <= k < |s| ==> IsDigit(s[k])
  {
    if s == [] then 0 else 10 * NatValue(s[..|s| - 1]) + DigitValue(s[|s| - 1])
  }

  predicate AllDigits(s: string) { s != [] && forall k :: 0 <= k < |s| ==> IsDigit(s[k]) }

  function FormatInt(i: int): string { if i < 0 then "-" + FormatNat(-i) else FormatNat(i) }

  datatype Parsed = Value(i: int) | Syntax | Range(limit: int)

  /** `strconv.ParseInt(s, 10, 64)`: a sign, digits, and a value within 64 bits; out of range, it
      also gives the nearest value. */
  function ParseInt(s: string): Parsed {
    var digits := if s != [] && (s[0] == '+' || s[0] == '-') then s[1..] else s;
    if !AllDigits(digits) then Syntax
    else
      var i: int := if s[0] == '-' then 0 - NatValue(digits) else NatValue(digits);
      if i > MAX_INT64 then Range(MAX_INT64) else if i < MIN_INT64 then Range(MIN_INT64) else Value(i)
  }

  /** `ParseIntWithDefault(s, 10, 64, 0)`. */
  function ParseIntOrZero(s: string): int {
    match ParseInt(s)
    case Value(i) => i
    case _ => 0
  }

  lemma {:induction false} NatRoundTrip(n: nat)
    ensures NatValue(FormatNat(n)) == n
  {
    if n < 10 {
      assert FormatNat(n)[..0] == [];
      assert NatValue([]) == 0;
    } else {
      NatRoundTrip(n / 10);
      var s := FormatNat(n);
      assert s[..|s| - 1] == FormatNat(n / 10);
    }
  }

  lemma ParseNegative(digits: string)
    requires AllDigits(digits) && 0 - NatValue(digits) >= MIN_INT64
    ensures ParseInt("-" + digits) == Value(0 - NatValue(digits))
  {
    assert ("-" + digits)[1..] == digits;
  }

  lemma ParseUnsigned(digits: string)
    requires AllDigits(digits) && NatValue(digits) <= MAX_INT64
    ensures ParseInt(digits) == Value(NatValue(digits))
  {
    assert IsDigit(digits[0]);
  }

  /** Text that a 64-bit integer is formatted to parses back to it. */
  lemma IntRoundTrip(i: int)
    requires IsInt64(i)
    ensures ParseInt(FormatInt(i)) == Value(i)
    ensures |FormatInt(i)| > 0 && (FormatInt(i)[0] == '-' <==> i < 0)
  {
    if i < 0 {
      NatRoundTrip(-i);
      ParseNegative(FormatNat(-i));
    } else {
      NatRoundTrip(i);
      ParseUnsigned(FormatNat(i));
    }
  }

  lemma ParseIsInt64(s: string)
    ensures IsInt64(ParseIntOrZero(s))
  {
  }

  // ----- base 16, four digits

  const HEX := "0123456789abcdef"

  function Hex2(n: nat): (s: string)
    requires n < 0x100
    ensures |s| == 2
  {
    [HEX[n / 0x10], HEX[n % 0x10]]
  }

  function Hex4(n: nat): (s: string)
    requires n < 0x1_0000
    ensures |s| == 4
  {
    Hex2(n / 0x100) + Hex2(n % 0x100)
  }

  function HexValue(c: char): nat {
    if '0' <= c <= '9' then c as int - '0' as int
    else if 'a' <= c <= 'f' then c as int - 'a' as int + 10
    else 0
  }

  function Hex2Value(s: string): nat
    requires |s| == 2
  {
    0x10 * HexValue(s[0]) + HexValue(s[1])
  }

  function Hex4Value(s: string): nat
    requires |s| == 4
  {
    0x100 * Hex2Value(s[..2]) + Hex2Value(s[2..])
  }

  lemma HexDigitRoundTrip(d: nat)
    requires d < 16
    ensures HexValue(HEX[d]) == d
  {
  }

  lemma Hex2RoundTrip(n: nat)
    requires n < 0x100
    ensures Hex2Value(Hex2(n)) == n
  {
    HexDigitRoundTrip(n / 0x10);
    HexDigitRoundTrip(n % 0x10);
  }

  /** Four hexadecimal digits, read back, give the number they were written for. */
  lemma Hex4RoundTrip(n: nat)
    requires n < 0x1_0000
    ensures Hex4Value(Hex4(n)) == n
  {
    var hi, lo := n / 0x100, n % 0x100;
    Hex2RoundTrip(hi);
    Hex2RoundTrip(lo);
    assert (Hex2(hi) + Hex2(lo))[..2] == Hex2(hi);
    assert (Hex2(hi) + Hex2(lo))[2..] == Hex2(lo);
  }
}
