/** `formatLunId` of connector/fibrechannel/fc_helper.go: the text form of a host LUN id in the
    by-path link of a Fibre Channel device. Ids below 256 keep their decimal form; above, the two
    16-bit halves are written in hexadecimal, low half first. */
module LunId {
  import opened Strconv

  const WHOLE_LUN_ID_LENGTH := 256

  /** `strconv.Atoi`, whose value is used even when it reports an error. */
  function Atoi(s: string): int {
    match ParseInt(s)
    case Value(i) => i
    case Syntax => 0
    case Range(limit) => limit
  }

  function Low(i: int): nat { i % 0x1_0000 }

  function High(i: int): nat { i / 0x1_0000 % 0x1_0000 }

  function FormatLunId(lunId: string): string {
    var i := Atoi(lunId);
    if i < WHOLE_LUN_ID_LENGTH then lunId else SwappedForm(Low(i), High(i))
  }

  function SwappedForm(low: nat, high: nat): string
    requires low < 0x1_0000 && high < 0x1_0000
  {
    "0x" + Hex4(low) + Hex4(high) + "00000000"
  }

  /** The decoder: a form that starts with "0x" is the swapped-halves form. */
  function DecodeLunId(text: string): int {
    if |text| == 18 && text[..2] == "0x"
    then Hex4Value(text[2..6]) + 0x1_0000 * Hex4Value(text[6..10])
    else Atoi(text)
  }

  lemma AtoiOfCanonical(n: nat)
    requires n <= MAX_INT64
    ensures Atoi(FormatNat(n)) == n
  {
    IntRoundTrip(n);
  }

  lemma DecimalIsNotHex(n: nat)
    ensures |FormatNat(n)| >= 2 ==> FormatNat(n)[1] != 'x'
  {
    assert forall k :: 0 <= k < |FormatNat(n)| ==> IsDigit(FormatNat(n)[k]);
  }

  lemma SwappedParts(low: nat, high: nat)
    requires low < 0x1_0000 && high < 0x1_0000
    ensures var text := SwappedForm(low, high);
            && |text| == 18 && text[..2] == "0x" && text[10..] == "00000000"
            && Hex4Value(text[2..6]) == low && Hex4Value(text[6..10]) == high
  {
    var text := SwappedForm(low, high);
    assert text[2..6] == Hex4(low) && text[6..10] == Hex4(high);
    Hex4RoundTrip(low);
    Hex4RoundTrip(high);
  }

  lemma DecodeLarge(low: nat, high: nat)
    requires low < 0x1_0000 && high < 0x1_0000
    ensures DecodeLunId(SwappedForm(low, high)) == low + 0x1_0000 * high
  {
    SwappedParts(low, high);
  }

  lemma DecodeSmall(n: nat)
    requires n < WHOLE_LUN_ID_LENGTH
    ensures DecodeLunId(FormatNat(n)) == n
  {
    var text := FormatNat(n);
    DecimalIsNotHex(n);
    AtoiOfCanonical(n);
    if |text| >= 2 {
      assert text[..2][1] == text[1];
    }
  }

  /** Decoding gives the id back, below 256 and above, up to 2^32 - 1; beyond, it gives the id
      modulo 2^32. */
  lemma LunIdRoundTrip(n: nat)
    requires n <= MAX_INT64
    ensures DecodeLunId(FormatLunId(FormatNat(n))) == if n < 256 then n else n % 0x1_0000_0000
  {
    AtoiOfCanonical(n);
    if n < WHOLE_LUN_ID_LENGTH {
      DecodeSmall(n);
    } else {
      DecodeLarge(Low(n), High(n));
      Halves(n);
    }
  }

  /** The text itself: below 256 the id as it stands, and from there on the two halves, each of four
      hexadecimal digits, between "0x" and eight zeros. */
  lemma TextOfLunId(n: nat)
    requires n <= MAX_INT64
    ensures n < 256 ==> FormatLunId(FormatNat(n)) == FormatNat(n)
    ensures n >= 256 ==>
              var text := FormatLunId(FormatNat(n));
              && |text| == 18 && text[..2] == "0x" && text[10..] == "00000000"
              && Hex4Value(text[2..6]) == n % 65536 && Hex4Value(text[6..10]) == n / 65536 % 65536
  {
    AtoiOfCanonical(n);
    if n >= 256 {
      SwappedParts(Low(n), High(n));
    }
  }

  lemma Halves(n: nat)
    ensures Low(n) + 0x1_0000 * High(n) == n % 0x1_0000_0000
  {
    var q := n / 0x1_0000;
    assert n == 0x1_0000 * q + Low(n);
    assert q == 0x1_0000 * (q / 0x1_0000) + High(n);
    var r := Low(n) + 0x1_0000 * High(n);
    assert n == 0x1_0000_0000 * (q / 0x1_0000) + r;
    ModUnique(n, q / 0x1_0000, r);
  }

  lemma HalvesAreUnique(low: nat, high: nat, low': nat, high': nat)
    requires low < 0x1_0000 && low' < 0x1_0000 && low + 0x1_0000 * high == low' + 0x1_0000 * high'
    ensures low == low' && high == high'
  {
  }

  lemma ModUnique(n: nat, q: nat, r: nat)
    requires n == 0x1_0000_0000 * q + r && r < 0x1_0000_0000
    ensures n % 0x1_0000_0000 == r
  {
  }

  lemma SameHalvesSameText(m: nat, n: nat)
    requires WHOLE_LUN_ID_LENGTH <= m <= MAX_INT64 && WHOLE_LUN_ID_LENGTH <= n <= MAX_INT64
    requires m % 0x1_0000_0000 == n % 0x1_0000_0000
    ensures FormatLunId(FormatNat(m)) == FormatLunId(FormatNat(n))
  {
    AtoiOfCanonical(m);
    AtoiOfCanonical(n);
    Halves(m);
    Halves(n);
    HalvesAreUnique(Low(m), High(m), Low(n), High(n));
  }

  predicate LooksHex(text: string) { |text| >= 2 && text[1] == 'x' }

  lemma SwappedLooksHex(low: nat, high: nat)
    requires low < 0x1_0000 && high < 0x1_0000
    ensures LooksHex(SwappedForm(low, high))
  {
  }

  lemma TextLooksHexIff(s: string)
    ensures LooksHex(FormatLunId(s)) <==> Atoi(s) >= WHOLE_LUN_ID_LENGTH || LooksHex(s)
  {
    if Atoi(s) >= WHOLE_LUN_ID_LENGTH {
      SwappedLooksHex(Low(Atoi(s)), High(Atoi(s)));
    }
  }

  lemma LooksHexIff(n: nat)
    requires n <= MAX_INT64
    ensures LooksHex(FormatLunId(FormatNat(n))) <==> n >= 256
  {
    AtoiOfCanonical(n);
    DecimalIsNotHex(n);
    TextLooksHexIff(FormatNat(n));
  }

  /** Two canonical ids have the same text exactly when they are equal or both at least 256 and
      equal modulo 2^32. So the text form is injective on the ids from 0 to 2^32 - 1. */
  lemma SameTextIff(m: nat, n: nat)
    requires m <= MAX_INT64 && n <= MAX_INT64
    ensures FormatLunId(FormatNat(m)) == FormatLunId(FormatNat(n)) <==>
              m == n || (m >= 256 && n >= 256 && m % 0x1_0000_0000 == n % 0x1_0000_0000)
  {
    LunIdRoundTrip(m);
    LunIdRoundTrip(n);
    if m >= WHOLE_LUN_ID_LENGTH && n >= WHOLE_LUN_ID_LENGTH && m % 0x1_0000_0000 == n % 0x1_0000_0000 {
      SameHalvesSameText(m, n);
    }
    LooksHexIff(m);
    LooksHexIff(n);
  }
}
