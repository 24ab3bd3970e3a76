/**
 The octets of the information elements, written out: which types are dispatched to which layout, and for every
 layout and every combination of its flags what the parser makes of the octets and what the printer writes
 (sections 8.1.2 and 8.2 of 3GPP TS 29.244).
 */
module PfcpOctets {
  import opened Wire
  import opened PfcpLeaf
  import opened PfcpLeafTrip
  import opened PfcpTree
  import opened PfcpTreeTrip
  import PfcpStop

  // ---------------------------------------------------------------- numbers and flags by their octets

  function Value2(d: bytes): nat
    requires |d| == 2
  {
    d[0] as nat * 0x100 + d[1]
  }

  function Value4(d: bytes): nat
    requires |d| == 4
  {
    d[0] as nat * 0x100_0000 + d[1] as nat * 0x1_0000 + d[2] as nat * 0x100 + d[3]
  }

  function Value8(d: bytes): nat
    requires |d| == 8
  {
    Value4(d[..4]) * 0x1_0000_0000 + Value4(d[4..])
  }

  /** An octet whose four low bits are given one by one. */
  function Flags(b1: bool, b2: bool, b4: bool, b8: bool, high: nat): byte
    requires high < 16
  {
    (if b1 then 1 else 0) + (if b2 then 2 else 0) + (if b4 then 4 else 0) + (if b8 then 8 else 0) + 16 * high
  }

  lemma {:induction false} FlagsBits(b1: bool, b2: bool, b4: bool, b8: bool, high: nat)
    requires high < 16
    ensures var f := Flags(b1, b2, b4, b8, high);
            Bit(f, 1) == b1 && Bit(f, 2) == b2 && Bit(f, 4) == b4 && Bit(f, 8) == b8
  {
    Weights(if b1 then 1 else 0, if b2 then 1 else 0, if b4 then 1 else 0, if b8 then 1 else 0, high);
  }

  lemma {:induction false} Weights(i1: nat, i2: nat, i4: nat, i8: nat, high: nat)
    requires i1 <= 1 && i2 <= 1 && i4 <= 1 && i8 <= 1
    ensures var f := i1 + 2 * i2 + 4 * i4 + 8 * i8 + 16 * high;
            f % 2 == i1 && f / 2 % 2 == i2 && f / 4 % 2 == i4 && f / 8 % 2 == i8
  {
    var f := i1 + 2 * i2 + 4 * i4 + 8 * i8 + 16 * high;
    Halved(i1, i2 + 2 * i4 + 4 * i8 + 8 * high);
    assert f / 2 == i2 + 2 * (i4 + 2 * i8 + 4 * high);
    Halved(i2, i4 + 2 * i8 + 4 * high);
    assert f / 4 == i4 + 2 * (i8 + 2 * high);
    Halved(i4, i8 + 2 * high);
    assert f / 8 == i8 + 2 * high;
    Halved(i8, high);
  }

  lemma {:induction false} Halved(i: nat, rest: nat)
    requires i <= 1
    ensures (i + 2 * rest) % 2 == i && (i + 2 * rest) / 2 == rest
  {
  }

  lemma {:induction false} Number1(d: bytes)
    requires |d| == 1
    ensures FromBE(d) == d[0] && BE(1, d[0]) == d
  {
    assert d == [d[0]];
    OneOctet(d[0]);
  }

  lemma {:induction false} Number2(d: bytes)
    requires |d| == 2
    ensures FromBE(d) == Value2(d) && BE(2, Value2(d)) == d
  {
    Number1(d[..1]);
    BEOfFromBE(d);
  }

  lemma {:induction false} Number3(d: bytes)
    requires |d| == 3
    ensures FromBE(d) == d[0] as nat * 0x1_0000 + d[1] as nat * 0x100 + d[2]
  {
    Number2(d[..2]);
  }

  lemma {:induction false} Number4(d: bytes)
    requires |d| == 4
    ensures FromBE(d) == Value4(d) && BE(4, Value4(d)) == d
    ensures Value4(d) < 0x1_0000_0000
  {
    Number3(d[..3]);
    BEOfFromBE(d);
  }

  lemma {:induction false} Number8(d: bytes)
    requires |d| == 8
    ensures FromBE(d) == Value8(d) && BE(8, Value8(d)) == d
    ensures Value8(d) < 0x1_0000_0000_0000_0000
  {
    Number4(d[..4]);
    Number4(d[4..]);
    Joined(d[..4], d[4..]);
    assert d == d[..4] + d[4..];
    BEOfFromBE(d);
  }

  lemma {:induction false} Joined(a: bytes, b: bytes)
    requires |b| == 4
    ensures FromBE(a + b) == 0x1_0000_0000 * FromBE(a) + Value4(b)
  {
    JoinedOne(a, b[0]);
    JoinedOne(a + [b[0]], b[1]);
    JoinedOne(a + [b[0]] + [b[1]], b[2]);
    JoinedOne(a + [b[0]] + [b[1]] + [b[2]], b[3]);
    assert a + b == a + [b[0]] + [b[1]] + [b[2]] + [b[3]];
  }

  lemma {:induction false} JoinedOne(a: bytes, b: byte)
    ensures FromBE(a + [b]) == 256 * FromBE(a) + b
  {
    assert (a + [b])[..|a|] == a;
  }

  // ---------------------------------------------------------------- type and length

  lemma {:induction false} Head(t: u16, n: u16, s: Stream, rest: bytes)
    requires t < 256 && s.Valid() && s.At([0, t, n / 256, n % 256] + rest)
    ensures LoadTlv(s) == (Tlv(t, n, 0), s.Skip(4)) && s.Skip(4).Valid() && s.Skip(4).At(rest)
  {
    HeadPrinted(t, n);
    TlvReadsBack(Tlv(t, n, 0), s, rest);
  }

  lemma {:induction false} HeadPrinted(t: u16, n: u16)
    requires t < 0x8000
    ensures DumpTlv(Tlv(t, n, 0)) == [t / 256, t % 256, n / 256, n % 256]
    ensures t < 256 ==> DumpTlv(Tlv(t, n, 0)) == [0, t, n / 256, n % 256]
  {
    hide BE;
    PfcpStop.TwoBE(t);
    PfcpStop.TwoBE(n);
  }

  /** An element that is not grouped is what `load_from` of its type leaves. */
  lemma {:induction false} Dispatched(t: u16, n: u16, s: Stream, rest: bytes)
    requires t < 256 && s.Valid() && s.At([0, t, n / 256, n % 256] + rest)
    requires KindOf(t) != Unknown && KindOf(t) != Grouped
    ensures var s1 := s.Skip(4);
            && s1.Valid() && s1.At(rest)
            && NewIe(s) == if n == 0 then Null(s1)
                           else match Load(t, n, s1)
                                case Got(leaf, s2) => Some(LeafIe(Tlv(t, n, 0), leaf), s2)
                                case Thrown(e, s2) => Throw(e, s2)
                                case Stuck => Parsed.Hang
  {
    hide Load, LoadTlv, KindOf;
    Head(t, n, s, rest);
  }

  // ---------------------------------------------------------------- numbers

  /** The types that are one number, and how many octets it has. */
  predicate Numeric(t: nat, w: nat) {
    || (w == 1 && t in {19, 20, 25, 39, 42, 44, 88, 89, 95, 124})
    || (w == 2 && t in {37, 40, 43, 56})
    || (w == 4 && t in {29, 32, 33, 35, 36, 81, 96, 108, 109, 117})
  }

  /** The number in one, two or four octets. */
  function Value(d: bytes): nat
    requires |d| in {1, 2, 4}
  {
    if |d| == 1 then d[0] else if |d| == 2 then Value2(d) else Value4(d)
  }

  lemma {:induction false} ValueOctets(d: bytes)
    requires |d| in {1, 2, 4}
    ensures FromBE(d) == Value(d) && BE(|d|, Value(d)) == d
  {
    hide BE, FromBE;
    if |d| == 1 {
      Number1(d);
    } else if |d| == 2 {
      Number2(d);
    } else {
      Number4(d);
    }
  }

  lemma {:induction false} NumericLoads(t: u16, w: nat, n: u16, s: Stream)
    requires Numeric(t, w) && n > 0 && s.Valid()
    ensures KindOf(t) != Unknown && KindOf(t) != Grouped && Width(t) == w && (t == 81 || KindOf(t).Number?)
    ensures Load(t, n, s) == LoadNumber(t, n, s)
  {
    hide LoadNumber;
  }

  /**
   A number is read if and only if its length is that of its type, whatever is left of the stream; otherwise the
   parser throws in front of it.
   */
  lemma {:induction false} NumberWidthIff(t: u16, w: nat, n: u16, s: Stream)
    requires Numeric(t, w) && n > 0 && s.Valid()
    ensures Load(t, n, s).Got? <==> n == w
    ensures n != w ==> Load(t, n, s) == Thrown(BadLength(t, n), s)
  {
    hide Load, Read, InitialNumber, FromBE;
    NumericLoads(t, w, n, s);
  }

  /** Every number with its type and length in front, parsed. */
  lemma {:induction false} NumberParsed(t: u16, d: bytes, s: Stream)
    requires |d| in {1, 2, 4} && Numeric(t, |d|) && s.Valid() && s.At([0, t, 0, |d|] + d)
    ensures NewIe(s) == Some(LeafIe(Tlv(t, |d|, 0), Num(Value(d))), s.Skip(4 + |d|))
  {
    hide Load, Read, FromBE, BE, Value, LoadTlv, DumpTlv;
    var s1 := s.Skip(4);
    NumericLoads(t, |d|, |d|, s);
    ValueOctets(d);
    Dispatched(t, |d|, s, d);
    NumericLoads(t, |d|, |d|, s1);
    ReadLast(s1, InitialNumber(t, s1.junk), d);
  }

  /** And printed, but for the URR ID: three types compute their length again, the others print the stored one. */
  lemma {:induction false} NumberPrinted(t: u16, n: u16, d: bytes)
    requires |d| in {1, 2, 4} && Numeric(t, |d|) && t != 81
    ensures DumpIe(LeafIe(Tlv(t, n, 0), Num(Value(d))))
            == (if t in {37, 43, 95} then [0, t, 0, |d|] else [0, t, n / 256, n % 256]) + d
  {
    hide BE, Value, DumpTlv, LoadNumber;
    NumericLoads(t, |d|, |d|, Stream([], 0, true, 0));
    ValueOctets(d);
    HeadPrinted(t, if t in {37, 43, 95} then |d| else n);
  }

  /** The URR ID is printed with its lowest octet first. */
  lemma {:induction false} UrrIdOctets(d: bytes)
    requires |d| == 4
    ensures DumpIe(LeafIe(Tlv(81, 4, 0), Num(Value4(d)))) == [0, 81, 0, 4] + [d[3], d[2], d[1], d[0]]
  {
    hide BE, LE, DumpTlv, Value4;
    HeadPrinted(81, 4);
    FourLE(Value4(d));
    FourDigits(d);
  }

  lemma {:induction false} FourDigits(d: bytes)
    requires |d| == 4
    ensures var v := Value4(d);
            v % 256 == d[3] && v / 256 % 256 == d[2] && v / 256 / 256 % 256 == d[1] && v / 256 / 256 / 256 % 256 == d[0]
  {
    var v := Value4(d);
    assert v / 256 == d[0] as nat * 0x1_0000 + d[1] as nat * 0x100 + d[2];
    assert v / 256 / 256 == d[0] as nat * 0x100 + d[1];
  }

  /** What stands in the object before the number is read: what the constructor put there, or memory. */
  function Fill(t: nat, junk: byte): byte {
    if t in {20, 42} then 255 else if t in {25, 37, 81, 95, 108, 109, 117, 124} then junk else 0
  }

  /** A number the stream ends in: the octets that are missing are those that were there before. */
  lemma {:induction false} NumberCut(t: u16, w: nat, d: bytes, s: Stream)
    requires Numeric(t, w) && |d| < w && s.Valid() && s.At([0, t, 0, w] + d) && |s.data| == s.pos + 4 + |d|
    ensures NewIe(s) == Some(LeafIe(Tlv(t, w, 0), Num(Value(d + Repeat(w - |d|, Fill(t, s.junk))))),
                             s.(pos := |s.data|, ok := false))
  {
    hide Load, KindOf, NewIe, Fill, Value, LoadNumber, Width;
    var s1 := s.Skip(4);
    NumericLoads(t, w, w, s);
    Dispatched(t, w, s, d);
    NumericLoads(t, w, w, s1);
    NumberCutLoads(t, w, d, s1);
  }

  lemma {:induction false} NumberCutLoads(t: u16, w: nat, d: bytes, s: Stream)
    requires Numeric(t, w) && Width(t) == w && |d| < w && s.Valid() && s.At(d) && |s.data| == s.pos + |d|
    ensures LoadNumber(t, w, s) == Got(Num(Value(d + Repeat(w - |d|, Fill(t, s.junk)))), s.(pos := |s.data|, ok := false))
  {
    hide FromBE, BE, Value, Width;
    var memory := InitialNumber(t, s.junk);
    var rest := Repeat(w - |d|, Fill(t, s.junk));
    assert |memory| == w && memory[|d|..] == rest;
    assert s.data[s.pos..] == d;
    assert Read(s, memory).0 == d + rest;
    ValueOctets(d + rest);
  }

  // ---------------------------------------------------------------- which types there are

  /** The types `new_pfcp_ie_from_stream` has a case for. */
  predicate Listed(t: nat) {
    || 1 <= t <= 37 || 39 <= t <= 44
    || t in {56, 57, 60, 81, 83, 84, 88, 89, 93, 95, 96, 106, 107, 108, 109, 114, 116, 117, 124, 141}
  }

  /** An element is answered with a null pointer if and only if it is empty or its type has no case. */
  lemma {:induction false} NullIff(t: u16, n: u16, s: Stream)
    requires t < 0x8000 && s.Valid() && s.At([t / 256, t % 256, n / 256, n % 256])
    ensures NewIe(s).Null? <==> n == 0 || !Listed(t)
    ensures NewIe(s).Null? ==> NewIe(s) == Null(s.Skip(4))
  {
    hide Load, LoadTlv, DumpTlv;
    AnyHead(t, n, s);
  }

  lemma {:induction false} AnyHead(t: u16, n: u16, s: Stream)
    requires t < 0x8000 && s.Valid() && s.At([t / 256, t % 256, n / 256, n % 256])
    ensures LoadTlv(s) == (Tlv(t, n, 0), s.Skip(4)) && s.Skip(4).Valid()
  {
    hide FromBE, Read;
    ZeroTwo();
    var a, b := [t / 256, t % 256], [n / 256, n % 256];
    assert a + b == [t / 256, t % 256, n / 256, n % 256];
    ReadNext(s, [0, 0], a, b);
    ReadLast(s.Skip(2), [0, 0], b);
    Number2(a);
    Number2(b);
  }

  /** A type of a vendor is followed by the vendor's number, and never has a case. */
  lemma {:induction false} VendorIsNull(t: u16, n: u16, e: bytes, s: Stream)
    requires t >= 0x8000 && |e| == 2 && s.Valid() && s.At([t / 256, t % 256, n / 256, n % 256] + e)
    ensures NewIe(s) == Null(s.Skip(6))
  {
    hide FromBE, Read, Load;
    var a, b := [t / 256, t % 256], [n / 256, n % 256];
    assert a + (b + e) == [t / 256, t % 256, n / 256, n % 256] + e;
    ReadNext(s, [0, 0], a, b + e);
    ReadNext(s.Skip(2), [0, 0], b, e);
    ReadLast(s.Skip(4), [0, 0], e);
    Number2(a);
    Number2(b);
  }

  lemma {:induction false} VendorPrinted(t: u16, n: u16, e: u16)
    requires t >= 0x8000
    ensures DumpTlv(Tlv(t, n, e)) == [t / 256, t % 256, n / 256, n % 256] + [e / 256, e % 256]
  {
    hide BE;
    PfcpStop.TwoBE(t);
    PfcpStop.TwoBE(n);
    PfcpStop.TwoBE(e);
  }

  /** The types that are groups, and a group of every such type around one number. */
  lemma {:induction false} GroupOctets(t: u16, d: bytes, s: Stream)
    requires (1 <= t <= 18 || t == 83) && |d| == 4 && s.Valid()
    ensures var child := LeafIe(Tlv(108, 4, 0), Num(Value4(d)));
            var octets := [0, t, 0, 8] + ([0, 108, 0, 4] + d);
            && DumpIe(GroupIe(Tlv(t, 8, 0), [child])) == octets
            && (s.At(octets) ==> NewIe(s) == Some(GroupIe(Tlv(t, 8, 0), [child]), s.Skip(12)))
  {
    hide Load, LoadTlv, DumpTlv, Value4, KindOf, DumpIe, LoadGroup, NewIe;
    var child := LeafIe(Tlv(108, 4, 0), Num(Value4(d)));
    HeadPrinted(t, 8);
    NumberPrinted(108, 4, d);
    GroupOfOne(Tlv(t, 8, 0), child, s);
    if s.At([0, t, 0, 8] + ([0, 108, 0, 4] + d)) {
      GroupLoads(t, 8, s, [0, 108, 0, 4] + d);
      var s1 := s.Skip(4);
      NumberParsed(108, d, s1);
      GroupStep(Tlv(t, 8, 0), 8, [], s1, child, s1.Skip(8));
      GroupOfOne(Tlv(t, 8, 0), child, s1.Skip(8));
      assert [] + [child] == [child];
    }
  }

  lemma {:induction false} GroupOfOne(tlv: Tlv, child: Ie, s: Stream)
    ensures DumpIe(GroupIe(tlv, [child])) == DumpTlv(tlv) + DumpIe(child)
    ensures s.Valid() ==> LoadGroup(tlv, 0, [child], s) == Some(GroupIe(tlv, [child]), s)
  {
    hide DumpTlv, Body, DumpedLength;
    assert DumpFrom([child], 1) == [];
    assert DumpFrom([child], 0) == DumpIe(child) + [];
  }

  /** The elements of a group are read from behind its length on, for every type that is a group. */
  lemma {:induction false} GroupLoads(t: u16, n: u16, s: Stream, rest: bytes)
    requires (1 <= t <= 18 || t == 83) && n > 0 && s.Valid() && s.At([0, t, n / 256, n % 256] + rest)
    ensures s.Skip(4).Valid() && s.Skip(4).At(rest)
    ensures NewIe(s) == LoadGroup(Tlv(t, n, 0), n, [], s.Skip(4))
  {
    hide Load, LoadTlv, LoadGroup;
    Head(t, n, s, rest);
  }

  lemma {:induction false} LeafTypes(t: u16)
    ensures KindOf(t) != Unknown && KindOf(t) != Grouped <==> Listed(t) && !(1 <= t <= 18) && t != 83
  {
  }

  /** Which `load_from` reads which type. */
  lemma {:induction false} Layouts(t: u16, n: u16, s: Stream)
    requires s.Valid() && n > 0
    ensures t in {22, 24, 106, 107} ==> Load(t, n, s) == LoadText(n, s)
    ensures t == 30 ==> Load(t, n, s) == if n == 2 then LoadText(n, s) else Thrown(BadLength(t, n), s)
    ensures t in {26, 27} ==> Load(t, n, s) == LoadRates(t, n, s)
    ensures t == 41 ==> Load(t, n, s) == LoadPolicy(t, n, s)
    ensures t == 21 ==> Load(t, n, s) == LoadFteid(t, n, s)
    ensures t == 57 ==> Load(t, n, s) == LoadFseid(t, n, s)
    ensures t == 93 ==> Load(t, n, s) == LoadUeIp(t, n, s)
    ensures t == 60 ==> Load(t, n, s) == LoadNodeId(t, n, s)
    ensures t == 84 ==> Load(t, n, s) == LoadOuterHeader(t, n, s)
    ensures t == 23 ==> Load(t, n, s) == LoadSdf(s)
    ensures t in {28, 31, 34, 114, 116, 141} ==> Load(t, n, s) == LoadOther(t, n, s)
  {
    hide LoadNumber, LoadRates, LoadText, LoadPolicy, LoadFteid, LoadFseid, LoadUeIp, LoadOuterHeader, LoadSdf, LoadOther,
      LoadNodeId;
  }

  // ---------------------------------------------------------------- strings, markings, rates, policies

  lemma {:induction false} TextParsed(t: u16, text: bytes, s: Stream)
    requires t in {22, 24, 106, 107} && 0 < |text| < 0x1_0000 && s.Valid()
    requires s.At([0, t, |text| / 256, |text| % 256] + text)
    ensures NewIe(s) == Some(LeafIe(Tlv(t, |text|, 0), Str(text)), s.Skip(4 + |text|))
  {
    hide Read, DumpTlv, LoadTlv, Load, KindOf, NewIe;
    LeafTypes(t);
    Layouts(t, |text|, s.Skip(4));
    Dispatched(t, |text|, s, text);
    ReadLast(s.Skip(4), Repeat(|text|, s.junk), text);
  }

  /** Network instance and application identifier print the stored length, the predefined rules' names their size. */
  lemma {:induction false} TextPrinted(t: u16, n: u16, text: bytes)
    requires t in {22, 24, 106, 107}
    ensures DumpIe(LeafIe(Tlv(t, n, 0), Str(text)))
            == (if t in {22, 24} then [0, t, n / 256, n % 256] else [0, t, |text| / 256 % 256, |text| % 256]) + text
  {
    hide DumpTlv;
    HeadPrinted(t, if t in {22, 24} then n else |text| % 0x1_0000);
    assert |text| % 0x1_0000 / 256 == |text| / 256 % 256 && |text| % 0x1_0000 % 256 == |text| % 256;
  }

  /** A Transport Level Marking has two octets; with another length parser and printer throw. */
  lemma {:induction false} MarkingOctets(n: u16, d: bytes, s: Stream)
    requires n > 0 && |d| == 2 && s.Valid()
    ensures s.At([0, 30, n / 256, n % 256] + d) ==>
              NewIe(s) == if n == 2 then Some(LeafIe(Tlv(30, 2, 0), Str(d)), s.Skip(6)) else Throw(BadLength(30, n), s.Skip(4))
    ensures Printed(LeafIe(Tlv(30, n, 0), Str(d)))
            == if n == 2 then ([0, 30, 0, 2] + d, true) else ([0, 30, n / 256, n % 256], false)
  {
    hide Read, DumpTlv, LoadTlv, Load, KindOf;
    HeadPrinted(30, n);
    if s.At([0, 30, n / 256, n % 256] + d) {
      LeafTypes(30);
      Layouts(30, n, s.Skip(4));
      Dispatched(30, n, s, d);
      ReadLast(s.Skip(4), Repeat(2, s.junk), d);
    }
  }

  /** MBR and GBR: five octets for the uplink, then five for the downlink. */
  lemma {:induction false} RatesParsed(t: u16, n: u16, ul: bytes, dl: bytes, s: Stream)
    requires t in {26, 27} && n > 0 && |ul| == |dl| == 5 && s.Valid()
    requires s.At([0, t, n / 256, n % 256] + (ul + dl))
    ensures NewIe(s) == if n == 10 then Some(LeafIe(Tlv(t, 10, 0), Rates(ul, dl)), s.Skip(14))
                        else Throw(BadLength(t, n), s.Skip(4))
  {
    hide Read, DumpTlv, LoadTlv, Load, KindOf, NewIe;
    LeafTypes(t);
    Layouts(t, n, s.Skip(4));
    Dispatched(t, n, s, ul + dl);
    ReadNext(s.Skip(4), Repeat(5, 0), ul, dl);
    ReadLast(s.Skip(9), Repeat(5, 0), dl);
  }

  lemma {:induction false} RatesPrinted(t: u16, n: u16, ul: bytes, dl: bytes)
    requires t in {26, 27}
    ensures DumpIe(LeafIe(Tlv(t, n, 0), Rates(ul, dl))) == [0, t, n / 256, n % 256] + (ul + dl)
  {
    hide DumpTlv;
    HeadPrinted(t, n);
  }

  /** Forwarding Policy: an octet with the length of the identifier, then the identifier. */
  lemma {:induction false} PolicyParsed(n: u16, id: bytes, s: Stream)
    requires n > 0 && |id| < 256 && s.Valid()
    requires s.At([0, 41, n / 256, n % 256] + ([|id|] + id))
    ensures NewIe(s) == if n == 1 + |id| then Some(LeafIe(Tlv(41, n, 0), Policy(|id|, id)), s.Skip(5 + |id|))
                        else Throw(BadLength(41, n), s.Skip(5))
  {
    hide Read, DumpTlv, LoadTlv, FromBE, Load, KindOf, NewIe;
    Number1([|id|]);
    LeafTypes(41);
    Layouts(41, n, s.Skip(4));
    Dispatched(41, n, s, [|id|] + id);
    ReadNext(s.Skip(4), [0], [|id|], id);
    ReadLast(s.Skip(5), Repeat(|id|, s.junk), id);
  }

  lemma {:induction false} PolicyPrinted(n: u16, length: byte, id: bytes)
    ensures DumpIe(LeafIe(Tlv(41, n, 0), Policy(length, id))) == [0, 41, n / 256, n % 256] + ([length] + id)
  {
    hide DumpTlv, BE;
    HeadPrinted(41, n);
    Number1([length]);
  }
}
