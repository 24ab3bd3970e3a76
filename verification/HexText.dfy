/**
 Hexadecimal text (`conversions.cpp`): octets printed in lower case, and text with white space anywhere read back.
 */
module HexText {
  import opened Wire

  /** `hex_to_ascii_table`. */
  function HexDigit(n: nat): (c: byte)
    requires n < 16
  {
    if n < 10 then 48 + n else 87 + n
  }

  /** `ascii_to_hex_table`. */
  function HexValue(c: byte): (v: int)
    ensures -1 <= v < 16
  {
    if 48 <= c <= 57 then c - 48
    else if 65 <= c <= 70 then c - 55
    else if 97 <= c <= 102 then c - 87
    else -1
  }

  /** The sixteen digits, and the characters that are digits with their values. */
  lemma {:induction false} DigitCharacters(n: nat, c: byte)
    ensures n < 16 ==> HexDigit(n) as char == "0123456789abcdef"[n]
    ensures '0' <= c as char <= '9' ==> HexValue(c) == (c as char - '0') as int
    ensures 'a' <= c as char <= 'f' ==> HexValue(c) == 10 + (c as char - 'a') as int
    ensures 'A' <= c as char <= 'F' ==> HexValue(c) == 10 + (c as char - 'A') as int
    ensures HexValue(c) >= 0 ==> '0' <= c as char <= '9' || 'a' <= c as char <= 'f' || 'A' <= c as char <= 'F'
    ensures IsSpace(c) <==> c in {9, 10, 11, 12, 13, 32}
  {
  }

  /** `isspace` in the C locale. */
  predicate IsSpace(c: byte) {
    c == 32 || 9 <= c <= 13
  }

  function Rendering(b: bytes): (t: bytes)
    ensures |t| == 2 * |b|
    ensures forall i :: 0 <= i < |b| ==> t[2 * i] == HexDigit(b[i] / 16) && t[2 * i + 1] == HexDigit(b[i] % 16)
  {
    if b == [] then []
    else
      var n := |b| - 1;
      Rendering(b[..n]) + [HexDigit(b[n] / 16), HexDigit(b[n] % 16)]
  }

  lemma {:induction false} RenderingStep(from: bytes, i: nat)
    requires i < |from|
    ensures Rendering(from[..i + 1]) == Rendering(from[..i]) + [HexDigit(from[i] / 16), HexDigit(from[i] % 16)]
  {
    assert from[..i + 1][..i] == from[..i];
  }

  /** `hexa_to_ascii`. */
  method HexaToAscii(from: bytes, to: array<byte>)
    requires to.Length >= 2 * |from|
    modifies to
    ensures to[..] == Rendering(from) + old(to[2 * |from|..])
  {
    hide Rendering, HexDigit;
    ghost var was := to[..];
    for i := 0 to |from|
      invariant to[..] == Rendering(from[..i]) + was[2 * i..]
    {
      ghost var now := to[..];
      var upper, lower := HexDigit(from[i] / 16), HexDigit(from[i] % 16);
      to[2 * i] := upper;
      to[2 * i + 1] := lower;
      assert to[..] == now[2 * i := upper][2 * i + 1 := lower];
      RenderingStep(from, i);
      TwoStores(Rendering(from[..i]), was[2 * i..], upper, lower);
      assert was[2 * i..][2..] == was[2 * (i + 1)..];
    }
    assert from[..|from|] == from;
  }

  lemma {:induction false} TwoStores(done: bytes, rest: bytes, c: byte, d: byte)
    requires |rest| >= 2
    ensures (done + rest)[|done| := c][|done| + 1 := d] == (done + [c, d]) + rest[2..]
  {
  }

  /** The text from position p on up to the terminating NUL, without white space. */
  function Stripped(h: bytes, p: nat): bytes
    decreases |h| - p
  {
    if p >= |h| || h[p] == 0 then []
    else if IsSpace(h[p]) then Stripped(h, p + 1)
    else [h[p]] + Stripped(h, p + 1)
  }

  /** Pairs of hexadecimal digits. */
  predicate AllHex(t: bytes) {
    forall i :: 0 <= i < |t| ==> HexValue(t[i]) >= 0
  }

  function Value(t: bytes): (b: bytes)
    requires AllHex(t)
    ensures |b| == |t| / 2
    ensures forall i :: 0 <= i < |b| ==> b[i] == 16 * HexValue(t[2 * i]) + HexValue(t[2 * i + 1])
  {
    seq(|t| / 2, i requires 0 <= i < |t| / 2 => Octet(HexValue(t[2 * i]), HexValue(t[2 * i + 1])))
  }

  function Octet(high: int, low: int): byte
    requires 0 <= high < 16 && 0 <= low < 16
  {
    16 * high + low
  }

  /** There is a terminating NUL at or behind position p. */
  ghost predicate Terminated(h: bytes, p: nat) {
    exists k :: p <= k < |h| && h[k] == 0
  }

  /** `while(*hex && isspace(*hex)) hex++;` and the look at what is there: the NUL, or the next character, which is read. */
  method NextCharacter(h: bytes, from: nat) returns (end: bool, c: byte, p: nat)
    requires Terminated(h, from)
    ensures from <= p <= |h| && (end <==> Stripped(h, from) == [])
    ensures !end ==> from < p && Terminated(h, p) && Stripped(h, from) == [c] + Stripped(h, p)
  {
    p := from;
    while h[p] != 0 && IsSpace(h[p])
      invariant from <= p < |h| && Stripped(h, p) == Stripped(h, from) && Terminated(h, p)
      decreases |h| - p
    {
      p := p + 1;
    }
    end, c := h[p] == 0, h[p];
    if !end {
      p := p + 1;
    }
  }

  /** Where the loop stands: `seen` has been read and stored, and the text from p on is still to come. */
  ghost predicate Reading(h: bytes, p: nat, seen: bytes, stored: bytes) {
    && AllHex(seen) && |seen| % 2 == 0 && stored == Value(seen)
    && Stripped(h, 0) == seen + Stripped(h, p)
  }

  /** What the text must be. */
  predicate Hexadecimal(t: bytes) {
    AllHex(t) && |t| % 2 == 0
  }

  /**
   `ascii_to_hex`: answers 1 exactly when the text before the NUL, white space aside, is an even number of
   hexadecimal digits, and then has stored their values and nothing else.
   */
  method AsciiToHex(dst: array<byte>, h: bytes) returns (r: nat)
    requires 0 in h && dst.Length >= |Stripped(h, 0)| / 2
    modifies dst
    ensures r == if Hexadecimal(Stripped(h, 0)) then 1 else 0
    ensures r == 1 ==> dst[..] == Value(Stripped(h, 0)) + old(dst[|Stripped(h, 0)| / 2..])
  {
    hide Value, AllHex, Stripped, Octet, HexValue, Reading, Hexadecimal;
    var p := 0;
    var i := 0;
    ghost var seen: bytes, was := [], dst[..];
    StartReading(h);
    while true
      invariant p <= |h| && Terminated(h, p) && 2 * i == |seen| && i <= dst.Length
      invariant Reading(h, p, seen, dst[..i]) && dst[i..] == was[i..]
      decreases |h| - p
    {
      ghost var p0 := p;
      var end, c, next := NextCharacter(h, p);
      if end {
        EndReading(h, p, seen, dst[..i]);
        assert dst[..] == dst[..i] + dst[i..];
        return 1;
      }
      p := next;
      var high := HexValue(c);
      if high < 0 {
        NotHex(h, p0, seen, dst[..i], [], c, Stripped(h, p));
        return 0;
      }
      var d;
      end, d, next := NextCharacter(h, p);
      if end {
        OddDigits(h, p0, seen, dst[..i], c);
        return 0;
      }
      p := next;
      var low := HexValue(d);
      if low < 0 {
        NotHex(h, p0, seen, dst[..i], [c], d, Stripped(h, p));
        return 0;
      }
      PairRead(h, p0, p, seen, dst[..i], c, d);
      dst[i] := Octet(high, low);
      i := i + 1;
      assert dst[..i] == dst[..i - 1] + [Octet(high, low)];
      seen := seen + [c, d];
    }
  }

  lemma {:induction false} StartReading(h: bytes)
    requires 0 in h
    ensures Terminated(h, 0) && Reading(h, 0, [], [])
  {
  }

  lemma {:induction false} EndReading(h: bytes, p: nat, seen: bytes, stored: bytes)
    requires Reading(h, p, seen, stored) && Stripped(h, p) == []
    ensures Stripped(h, 0) == seen && Hexadecimal(seen) && stored == Value(seen)
  {
    assert seen + [] == seen;
  }

  lemma {:induction false} NotHex(h: bytes, p: nat, seen: bytes, stored: bytes, first: bytes, c: byte, rest: bytes)
    requires Reading(h, p, seen, stored) && Stripped(h, p) == first + ([c] + rest) && HexValue(c) < 0
    ensures !Hexadecimal(Stripped(h, 0))
  {
    hide Stripped, HexValue;
    assert Stripped(h, 0)[|seen| + |first|] == c;
  }

  lemma {:induction false} OddDigits(h: bytes, p: nat, seen: bytes, stored: bytes, c: byte)
    requires Reading(h, p, seen, stored) && Stripped(h, p) == [c] + []
    ensures !Hexadecimal(Stripped(h, 0))
  {
    hide Stripped, HexValue, AllHex;
  }

  lemma {:induction false} PairRead(h: bytes, p: nat, q: nat, seen: bytes, stored: bytes, c: byte, d: byte)
    requires Reading(h, p, seen, stored) && HexValue(c) >= 0 && HexValue(d) >= 0
    requires Stripped(h, p) == [c] + ([d] + Stripped(h, q))
    ensures Reading(h, q, seen + [c, d], stored + [Octet(HexValue(c), HexValue(d))])
    ensures |Stripped(h, 0)| / 2 > |seen| / 2
  {
    hide Stripped, HexValue, Octet;
    var t := seen + [c, d];
    assert t + Stripped(h, q) == seen + ([c] + ([d] + Stripped(h, q)));
    assert forall i :: 0 <= i < |seen| ==> t[i] == seen[i];
    assert Value(t) == Value(seen) + [Octet(HexValue(c), HexValue(d))];
  }

  /**
   Printing and reading back: for every octet string and every text that is its rendering with white space put in
   anywhere, the text is read as hexadecimal and its value is the octet string.
   */
  lemma {:induction false} HexRoundTrip(b: bytes, h: bytes)
    requires Stripped(h, 0) == Rendering(b)
    ensures Hexadecimal(Stripped(h, 0)) && Value(Stripped(h, 0)) == b
  {
    hide Rendering, Stripped;
    var t := Rendering(b);
    forall i | 0 <= i < |t| ensures HexValue(t[i]) >= 0 {
      if i % 2 == 0 {
        DigitReadsBack(b[i / 2] / 16);
        assert t[2 * (i / 2)] == t[i];
      } else {
        DigitReadsBack(b[i / 2] % 16);
        assert t[2 * (i / 2) + 1] == t[i];
      }
    }
    forall k | 0 <= k < |b| ensures Value(t)[k] == b[k] {
      DigitReadsBack(b[k] / 16);
      DigitReadsBack(b[k] % 16);
    }
  }

  lemma {:induction false} DigitReadsBack(n: nat)
    requires n < 16
    ensures HexValue(HexDigit(n)) == n
  {
  }

  /** The rendering itself, terminated, is such a text. */
  lemma {:induction false} RenderingIsPlain(b: bytes, p: nat)
    requires p <= 2 * |b|
    ensures Stripped(Rendering(b) + [0], p) == Rendering(b)[p..]
    decreases 2 * |b| - p
  {
    hide Rendering;
    var t := Rendering(b);
    if p < |t| {
      RenderingIsPlain(b, p + 1);
      assert t[2 * (p / 2)] == HexDigit(b[p / 2] / 16) && t[2 * (p / 2) + 1] == HexDigit(b[p / 2] % 16);
      assert p == 2 * (p / 2) || p == 2 * (p / 2) + 1;
      assert t[p..] == [t[p]] + t[p + 1..];
    }
  }

  /** White space put in anywhere is not seen. */
  lemma {:induction false} SpaceIsSkipped(h: bytes, k: nat, c: byte, p: nat)
    requires p <= k <= |h| && IsSpace(c) && 0 !in h[..k]
    ensures Stripped(h[..k] + [c] + h[k..], p) == Stripped(h, p)
    decreases |h| - p
  {
    var g := h[..k] + [c] + h[k..];
    if p == k {
      assert g[p] == c;
      SameTail(h, g, k);
    } else {
      assert g[p] == h[p] && h[p] in h[..k];
      SpaceIsSkipped(h, k, c, p + 1);
    }
  }

  lemma {:induction false} SameTail(h: bytes, g: bytes, p: nat)
    requires p <= |h| && |g| == |h| + 1 && forall i :: p <= i < |h| ==> g[i + 1] == h[i]
    ensures Stripped(g, p + 1) == Stripped(h, p)
    decreases |h| - p
  {
    if p < |h| {
      SameTail(h, g, p + 1);
    }
  }
}
