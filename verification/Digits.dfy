/**
 Numbers printed in digits: the BCD digits of an IMSI (`3gpp_29.274.h`) and the 40-bit rates of the MBR and GBR IEs.
 */
module Digits {
  import opened Wire

  const IMSI_BCD8_SIZE: nat := 8

  /** The digit positions of an IMSI: the low half of each octet before the high half. */
  function Nibble(b: bytes, k: nat): nat
    requires k < 2 * |b|
  {
    if k % 2 == 0 then b[k / 2] % 16 else b[k / 2] / 16
  }

  /** How many digits there are from position k on: up to the first half octet above 9. */
  function Count(b: bytes, k: nat): (n: nat)
    requires k <= 2 * |b|
    ensures k + n <= 2 * |b|
    ensures forall j :: k <= j < k + n ==> Nibble(b, j) <= 9
    ensures k + n < 2 * |b| ==> Nibble(b, k + n) > 9
    decreases 2 * |b| - k
  {
    if k == 2 * |b| || Nibble(b, k) > 9 then 0 else 1 + Count(b, k + 1)
  }

  /** The digits before position n, as text. */
  function Text(b: bytes, n: nat): (s: string)
    requires n <= 2 * |b| && forall j :: 0 <= j < n ==> Nibble(b, j) <= 9
    ensures |s| == n && forall j :: 0 <= j < n ==> s[j] == '0' + Nibble(b, j) as char
  {
    seq(n, j requires 0 <= j < n => '0' + Nibble(b, j) as char)
  }

  /** The number a string of decimal digits denotes. */
  function Decimal(s: string): (v: nat)
    requires forall j :: 0 <= j < |s| ==> '0' <= s[j] <= '9'
  {
    if s == [] then 0 else Decimal(s[..|s| - 1]) * 10 + (s[|s| - 1] - '0') as nat
  }

  function Pow10(n: nat): (p: nat)
    ensures p > 0
  {
    if n == 0 then 1 else 10 * Pow10(n - 1)
  }

  lemma {:induction false} DecimalBound(s: string)
    requires forall j :: 0 <= j < |s| ==> '0' <= s[j] <= '9'
    ensures Decimal(s) < Pow10(|s|)
  {
    if s != [] {
      DecimalBound(s[..|s| - 1]);
    }
  }

  lemma {:induction false} Pow10Grows(n: nat, m: nat)
    requires n <= m
    ensures Pow10(n) <= Pow10(m)
    decreases m - n
  {
    if n < m {
      Pow10Grows(n, m - 1);
    }
  }

  lemma {:induction false} Pow10Values()
    ensures Pow10(16) == 10_000_000_000_000_000
  {
    assert Pow10(4) == 10000;
    assert Pow10(8) == 1_0000_0000 by {
      assert Pow10(6) == 100 * Pow10(4);
    }
    assert Pow10(12) == 1_0000_0000_0000 by {
      assert Pow10(10) == 100 * Pow10(8);
    }
    assert Pow10(14) == 100 * Pow10(12);
  }

  /** What `toString` prints. */
  function Printed(b: bytes): (s: string)
    ensures forall j :: 0 <= j < |s| ==> '0' <= s[j] <= '9'
  {
    Text(b, Count(b, 0))
  }

  /** Two digits an octet, the low half first. */
  lemma {:induction false} LowHalfFirst(b: bytes, i: nat)
    requires i < |b|
    ensures 2 * i < |Printed(b)| ==> b[i] % 16 <= 9 && Printed(b)[2 * i] == '0' + (b[i] % 16) as char
    ensures 2 * i + 1 < |Printed(b)| ==> b[i] / 16 <= 9 && Printed(b)[2 * i + 1] == '0' + (b[i] / 16) as char
    ensures 2 * i == |Printed(b)| ==> b[i] % 16 > 9
    ensures 2 * i + 1 == |Printed(b)| ==> b[i] / 16 > 9
  {
    assert 2 * i / 2 == i && 2 * i % 2 == 0 && (2 * i + 1) / 2 == i && (2 * i + 1) % 2 == 1;
    assert Nibble(b, 2 * i) == b[i] % 16 && Nibble(b, 2 * i + 1) == b[i] / 16;
    hide Count, Nibble;
  }

  /** The digits before position n are among those printed. */
  lemma {:induction false} PrintedFrom(b: bytes, n: nat)
    requires n <= 2 * |b| && forall j :: 0 <= j < n ==> Nibble(b, j) <= 9
    ensures Count(b, 0) >= n && (n == 2 * |b| || Nibble(b, n) > 9 ==> Count(b, 0) == n)
  {
    var c := Count(b, 0);
    assert n < c ==> Nibble(b, n) <= 9;
  }

  /** `imsi_s::toString`. */
  method ToString(b: bytes) returns (s: string)
    requires |b| == IMSI_BCD8_SIZE
    ensures s == Printed(b)
  {
    hide Nibble, Count;
    s := [];
    var i := 0;
    while i < IMSI_BCD8_SIZE
      invariant i <= IMSI_BCD8_SIZE && forall j :: 0 <= j < 2 * i ==> Nibble(b, j) <= 9
      invariant s == Text(b, 2 * i)
    {
      PrintedFrom(b, 2 * i);
      Halves(b, i);
      if b[i] % 16 > 9 {
        return;
      }
      s := s + ['0' + (b[i] % 16) as char];
      PrintedFrom(b, 2 * i + 1);
      if b[i] / 16 > 9 {
        return;
      }
      s := s + ['0' + (b[i] / 16) as char];
      i := i + 1;
    }
    PrintedFrom(b, 16);
  }

  const U64: nat := 0x1_0000_0000_0000_0000

  /** One more digit fits 64 bits as long as there are at most sixteen. */
  lemma {:induction false} NextDigit(b: bytes, n: nat)
    requires |b| == IMSI_BCD8_SIZE && n < 16 && forall j :: 0 <= j <= n ==> Nibble(b, j) <= 9
    ensures Decimal(Text(b, n + 1)) == Decimal(Text(b, n)) * 10 + Nibble(b, n) < U64
  {
    var t := Text(b, n + 1);
    assert t[..n] == Text(b, n);
    DecimalBound(t);
    Pow10Grows(n + 1, 16);
    Pow10Values();
  }

  /** `imsi64 = imsi64 * 10 + d`, in 64-bit arithmetic. */
  method AddDigit(imsi: nat, d: nat, ghost b: bytes, ghost n: nat) returns (r: nat)
    requires |b| == IMSI_BCD8_SIZE && n < 16 && (forall j :: 0 <= j <= n ==> Nibble(b, j) <= 9)
    requires imsi == Decimal(Text(b, n)) && d == Nibble(b, n)
    ensures r == Decimal(Text(b, n + 1))
  {
    hide Decimal, Nibble, Text;
    NextDigit(b, n);
    r := (imsi * 10 + d) % U64;
  }

  /** `imsi_s::to_imsi64`, in 64-bit arithmetic: the decimal value of what `toString` prints. */
  method ToImsi64(b: bytes) returns (imsi: nat)
    requires |b| == IMSI_BCD8_SIZE
    ensures imsi == Decimal(Printed(b)) && imsi < 10_000_000_000_000_000
  {
    hide Decimal, Pow10, Nibble, Count, Text;
    imsi := 0;
    ImsiStart(b);
    ImsiBound(b);
    for i := 0 to IMSI_BCD8_SIZE
      invariant forall j :: 0 <= j < 2 * i ==> Nibble(b, j) <= 9
      invariant imsi == Decimal(Text(b, 2 * i))
    {
      PrintedFrom(b, 2 * i);
      Halves(b, i);
      var d1, d2 := b[i] % 16, b[i] / 16;
      if 10 > d1 {
        imsi := AddDigit(imsi, d1, b, 2 * i);
        PrintedFrom(b, 2 * i + 1);
        if 10 > d2 {
          imsi := AddDigit(imsi, d2, b, 2 * i + 1);
        } else {
          return;
        }
      } else {
        return;
      }
    }
    PrintedFrom(b, 16);
  }

  lemma {:induction false} Halves(b: bytes, i: nat)
    requires i < |b|
    ensures Nibble(b, 2 * i) == b[i] % 16 && Nibble(b, 2 * i + 1) == b[i] / 16
  {
  }

  lemma {:induction false} ImsiStart(b: bytes)
    ensures Decimal(Text(b, 0)) == 0
  {
  }

  lemma {:induction false} ImsiBound(b: bytes)
    requires |b| == IMSI_BCD8_SIZE
    ensures Decimal(Printed(b)) < 10_000_000_000_000_000
  {
    DecimalBound(Printed(b));
    Pow10Grows(|Printed(b)|, 16);
    Pow10Values();
  }

  // ---------------------------------------------------------------- 40-bit rates

  const RATE_MASK: nat := 0x100_0000_0000

  /** The loop of `pfcp_mbr_ie(b)` and `pfcp_gbr_ie(b)`, for one of the two rates. */
  method EncodeRate(rate: nat) returns (octets: bytes)
    requires rate < U64
    ensures octets == BE(5, rate)
  {
    hide BE;
    var a := new byte[5](_ => 0);
    var left: nat := rate % RATE_MASK;
    ghost var masked: nat := left;
    RateEmpty(left);
    for i := 5 downto 0
      invariant BE(5, masked) == BE(i, left) + a[i..]
    {
      RateStep(i, left, a[i + 1..]);
      a[i] := left % 256;
      left := left / 256;
      assert a[i..] == [a[i]] + a[i + 1..];
    }
    octets := a[..];
    RateEnd(left, masked, octets);
    RateMasked(rate);
  }

  lemma {:induction false} RateEmpty(v: nat)
    ensures BE(5, v) + [] == BE(5, v)
  {
  }

  lemma {:induction false} RateStep(i: nat, left: nat, rest: bytes)
    ensures BE(i + 1, left) + rest == BE(i, left / 256) + ([left % 256] + rest)
  {
  }

  lemma {:induction false} RateEnd(left: nat, masked: nat, octets: bytes)
    requires BE(5, masked) == BE(0, left) + octets
    ensures octets == BE(5, masked)
  {
  }

  lemma {:induction false} Pow256Five()
    ensures Pow256(5) == RATE_MASK
  {
    Pow256Values();
    assert Pow256(5) == 256 * Pow256(4);
  }

  /** Masking first changes nothing: only five octets are taken. */
  lemma {:induction false} RateMasked(rate: nat)
    ensures BE(5, rate % RATE_MASK) == BE(5, rate)
  {
    BERoundTrip(5, rate);
    BERoundTrip(5, rate % RATE_MASK);
    Pow256Five();
    BEOfFromBE(BE(5, rate));
    BEOfFromBE(BE(5, rate % RATE_MASK));
  }

  /** The loop of `to_core_type`. */
  method DecodeRate(octets: bytes) returns (rate: nat)
    requires |octets| == 5
    ensures rate == FromBE(octets) < RATE_MASK
  {
    rate := 0;
    for i := 0 to 5
      invariant rate == FromBE(octets[..i])
    {
      assert octets[..i + 1][..i] == octets[..i];
      rate := rate * 256 + octets[i];
    }
    assert octets[..5] == octets;
    FromBEBound(octets);
    Pow256Five();
  }

  /** A rate survives encoding and decoding modulo 2^40. */
  lemma {:induction false} RateRoundTrip(rate: nat)
    ensures FromBE(BE(5, rate)) == rate % RATE_MASK
  {
    BERoundTrip(5, rate);
    Pow256Five();
  }
}
