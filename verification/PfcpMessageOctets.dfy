/**
 The octets of a message header (section 7.2.2 of 3GPP TS 29.244) and of a Create FAR element (section 7.5.2.3),
 for every combination of the fields that may be absent.
 */
module PfcpMessageOctets {
  import opened Wire
  import opened PfcpLeaf
  import opened PfcpLeafTrip
  import opened PfcpTree
  import PfcpTreeTrip
  import opened PfcpMessage
  import opened PfcpLength
  import opened PfcpOctets
  import opened PfcpLayouts
  import opened CreateFarTrip
  import R = Rules

  // ---------------------------------------------------------------- the header

  /** The first octet: S is bit 1, MP bit 2, the version the upper three bits. */
  function FirstOctet(hasSeid: bool, hasPriority: bool, spare: nat, version: nat): byte
    requires spare < 8 && version < 8
  {
    (if hasSeid then 1 else 0) + (if hasPriority then 2 else 0) + 4 * spare + 32 * version
  }

  lemma {:induction false} FirstBits(hasSeid: bool, hasPriority: bool, spare: nat, version: nat)
    requires spare < 8 && version < 8
    ensures var u1 := FirstOctet(hasSeid, hasPriority, spare, version);
            && (u1 % 2 == 1 <==> hasSeid) && (u1 / 2 % 2 == 1 <==> hasPriority)
            && u1 % 4 + u1 / 32 * 32 == FirstOctet(hasSeid, hasPriority, 0, version)
  {
    FirstWeights(if hasSeid then 1 else 0, if hasPriority then 1 else 0, spare, version);
  }

  lemma {:induction false} FirstWeights(i1: nat, i2: nat, spare: nat, version: nat)
    requires i1 <= 1 && i2 <= 1 && spare < 8 && version < 8
    ensures var u1 := i1 + 2 * i2 + 4 * spare + 32 * version;
            u1 % 2 == i1 && u1 / 2 % 2 == i2 && u1 % 4 == i1 + 2 * i2 && u1 / 32 == version
  {
    var u1 := i1 + 2 * i2 + 4 * spare + 32 * version;
    assert u1 / 2 == i2 + 2 * (spare + 8 * version);
  }

  function Value3(d: bytes): nat
    requires |d| == 3
  {
    d[0] as nat * 0x1_0000 + d[1] as nat * 0x100 + d[2]
  }

  /** The header behind its first octet. */
  function HeaderRest(hasSeid: bool, messageType: byte, length: u16, seid: bytes, sequence: bytes, last: byte): bytes {
    [messageType] + ([length / 256, length % 256] + ((if hasSeid then seid else []) + (sequence + [last])))
  }

  /** What a header prints: spare bits are zero, and so is a priority that is not flagged. */
  lemma {:induction false} HeaderPrinted(hasSeid: bool, hasPriority: bool, spare: nat, version: nat, messageType: byte, length: u16,
      seid: bytes, sequence: bytes, priority: nat, low: nat)
    requires spare < 8 && version < 8 && |seid| == 8 && |sequence| == 3 && priority < 16 && low < 16
    ensures DumpHeader(Header(FirstOctet(hasSeid, hasPriority, spare, version), messageType, length, Value8(seid),
                              Value3(sequence), 16 * priority + low))
            == [FirstOctet(hasSeid, hasPriority, 0, version)]
               + HeaderRest(hasSeid, messageType, length, seid, sequence, if hasPriority then 16 * priority else 0)
  {
    hide BE, FirstOctet, Value8;
    FirstBits(hasSeid, hasPriority, spare, version);
    Number1([FirstOctet(hasSeid, hasPriority, 0, version)]);
    Number1([messageType]);
    Number1([if hasPriority then 16 * priority else 0]);
    Number2([length / 256, length % 256]);
    Number8(seid);
    SequenceOctets(sequence);
    assert (16 * priority + low) / 16 == priority;
  }

  lemma {:induction false} SequenceOctets(d: bytes)
    requires |d| == 3
    ensures FromBE(d) == Value3(d) < 0x100_0000 && BE(3, Value3(d)) == d
  {
    Number3(d);
    BEOfFromBE(d);
  }

  /** What the parser makes of a header, into an object that held any other. */
  lemma {:induction false} HeaderParsed(h0: Header, hasSeid: bool, hasPriority: bool, spare: nat, version: nat, messageType: byte,
      length: u16, seid: bytes, sequence: bytes, last: byte, s: Stream)
    requires spare < 8 && version < 8 && |seid| == 8 && |sequence| == 3 && s.Valid()
    requires s.At([FirstOctet(hasSeid, hasPriority, spare, version)]
                  + HeaderRest(hasSeid, messageType, length, seid, sequence, last))
    ensures LoadHeader(h0, s)
            == (Header(FirstOctet(hasSeid, hasPriority, spare, version), messageType, length,
                       if hasSeid then Value8(seid) else 0, Value3(sequence), last),
                s.Skip(if hasSeid then 16 else 8))
  {
    hide Read, FromBE, LE, FirstOctet, Value8, Value3, LoadHeaderTail;
    var u1 := FirstOctet(hasSeid, hasPriority, spare, version);
    var tail := (if hasSeid then seid else []) + (sequence + [last]);
    FirstBits(hasSeid, hasPriority, spare, version);
    ReadNext(s, [h0.u1], [u1], HeaderRest(hasSeid, messageType, length, seid, sequence, last));
    ReadNext(s.Skip(1), [h0.messageType], [messageType], [length / 256, length % 256] + tail);
    Number2([length / 256, length % 256]);
    ReadNext(s.Skip(2), LE(2, h0.length), [length / 256, length % 256], tail);
    TailParsed(h0.(u1 := u1, messageType := messageType, length := length), hasSeid, seid, sequence, last, s.Skip(4));
  }

  lemma {:induction false} TailParsed(h: Header, hasSeid: bool, seid: bytes, sequence: bytes, last: byte, s: Stream)
    requires HasSeid(h) == hasSeid && |seid| == 8 && |sequence| == 3 && s.Valid()
    requires s.At((if hasSeid then seid else []) + (sequence + [last]))
    ensures LoadHeaderTail(h, s) == (h.(seid := if hasSeid then Value8(seid) else 0, sequence := Value3(sequence), u2 := last),
                                     s.Skip(if hasSeid then 12 else 4))
  {
    hide Read, ReadIf, FromBE, LE, Value8, Value3, Repeat;
    Number8(seid);
    SequenceOctets(sequence);
    ReadIfNext(hasSeid, s, LE(8, h.seid), seid, sequence + [last]);
    var s1 := s.Skip(OptSize(hasSeid, 8));
    ReadNext(s1, Repeat(3, s.junk), sequence, [last]);
    ReadLast(s1.Skip(3), [h.u2], [last]);
  }

  // ---------------------------------------------------------------- Create FAR

  function Four(v: u32): (d: bytes)
    ensures |d| == 4
  {
    [v / 0x100_0000, v / 0x1_0000 % 0x100, v / 0x100 % 0x100, v % 0x100]
  }

  lemma {:induction false} FourValue(v: u32)
    ensures Value4(Four(v)) == v
  {
    var a, b := v / 0x100, v / 0x1_0000;
    assert b == a / 0x100 && v / 0x100_0000 == b / 0x100;
    assert v == a * 0x100 + v % 0x100 && a == b * 0x100 + a % 0x100 && b == b / 0x100 * 0x100 + b % 0x100;
  }

  /** An element of type t, below 256, around d. */
  function Framed(t: byte, d: bytes): bytes {
    [0, t, |d| / 256 % 256, |d| % 256] + d
  }

  /** The octets and the summed sizes of a list of elements. */
  predicate Chained(ies: seq<Ie>, d: bytes) {
    DumpFrom(ies, 0) == d && PfcpTreeTrip.SizeFrom(ies, 0) == |d|
  }

  lemma {:induction false} DumpStep(ies: seq<Ie>, i: nat)
    requires i <= |ies|
    ensures DumpFrom(ies, i) == if i == |ies| then [] else DumpIe(ies[i]) + DumpFrom(ies, i + 1)
    ensures PfcpTreeTrip.SizeFrom(ies, i)
            == if i == |ies| then 0 else ies[i].tlv.length + 4 + PfcpTreeTrip.SizeFrom(ies, i + 1)
  {
    hide DumpIe;
  }

  lemma {:induction false} DumpShift(ie: Ie, rest: seq<Ie>, i: nat)
    requires i <= |rest|
    ensures DumpFrom([ie] + rest, i + 1) == DumpFrom(rest, i)
    ensures PfcpTreeTrip.SizeFrom([ie] + rest, i + 1) == PfcpTreeTrip.SizeFrom(rest, i)
    decreases |rest| - i
  {
    hide DumpIe, DumpFrom, PfcpTreeTrip.SizeFrom;
    var all := [ie] + rest;
    DumpStep(all, i + 1);
    DumpStep(rest, i);
    if i < |rest| {
      DumpShift(ie, rest, i + 1);
    }
  }

  lemma {:induction false} ChainedPrepend(c: bool, ie: Ie, rest: seq<Ie>, d: bytes, e: bytes)
    requires Chained(rest, e) && (c ==> DumpIe(ie) == d && |d| == ie.tlv.length + 4)
    ensures Chained(Prepend(c, ie, rest), (if c then d else []) + e)
  {
    hide DumpIe;
    if c {
      DumpShift(ie, rest, 0);
    } else {
      assert [] + e == e;
    }
  }

  lemma {:induction false} GroupFramed(t: byte, ies: seq<Ie>, d: bytes)
    requires Chained(ies, d)
    ensures DumpIe(NewGroup(t, ies)) == Framed(t, d)
    ensures |d| < 0x1_0000 ==> NewGroup(t, ies).tlv.length == |d|
  {
    hide DumpFrom, DumpTlv;
    HeadPrinted(t, |d| % 0x1_0000);
    assert |d| % 0x1_0000 / 256 == |d| / 256 % 256 && |d| % 0x1_0000 % 256 == |d| % 256;
  }

  /** The octets of forwarding parameters: destination, network instance, outer header, marking and policy, in this order. */
  function ForwardingOctets(f: R.Forwarding, tunnel: bytes): bytes {
    (if f.destination.present then Framed(42, [f.destination.value]) else [])
    + ((if f.networkInstance.present then Framed(22, f.networkInstance.value) else [])
    + ((if f.creation.present then tunnel else [])
    + ((if f.marking.present then Framed(30, f.marking.value) else [])
    + ((if f.policy.present then Framed(41, [f.policy.value.length] + f.policy.value.id) else []) + []))))
  }

  /** The octets a record of forwarding parameters is built and printed as; `FourTunnels` gives those of its outer header. */
  lemma {:induction false} ForwardingPrinted(f: R.Forwarding)
    requires Sizes(f.creation.value)
    requires f.networkInstance.present ==> |f.networkInstance.value| < 0x1_0000
    requires f.marking.present ==> |f.marking.value| == 2
    requires f.policy.present ==> |f.policy.value.id| < 0xffff
    ensures var d := ForwardingOctets(f, DumpIe(NewCreation(f.creation.value)));
            && DumpIe(NewGroup(4, ForwardingIes(f))) == Framed(4, d)
            && (|d| < 0x1_0000 ==> NewGroup(4, ForwardingIes(f)).tlv.length == |d|)
  {
    hide DumpIe, DumpFrom, Prepend, NewGroup, Framed, Chained, NewCreation, NewNumber, NewText, NewMarking, NewPolicy;
    var i1, i2, i3 := NewNumber(42, f.destination.value), NewText(22, f.networkInstance.value), NewCreation(f.creation.value);
    var i4, i5 := NewMarking(f.marking.value), NewPolicy(f.policy.value);
    var r4 := Prepend(f.policy.present, i5, []);
    var r3 := Prepend(f.marking.present, i4, r4);
    var r2 := Prepend(f.creation.present, i3, r3);
    var r1 := Prepend(f.networkInstance.present, i2, r2);
    var d1, d2, d3 := Framed(42, [f.destination.value]), Framed(22, f.networkInstance.value), DumpIe(i3);
    var d4, d5 := Framed(30, f.marking.value), Framed(41, [f.policy.value.length] + f.policy.value.id);
    var e5 := (if f.policy.present then d5 else []) + [];
    var e4 := (if f.marking.present then d4 else []) + e5;
    var e3 := (if f.creation.present then d3 else []) + e4;
    var e2 := (if f.networkInstance.present then d2 else []) + e3;
    NumberBuilt(42, f.destination.value);
    TunnelBuilt(f.creation.value);
    if f.networkInstance.present {
      TextBuilt(f.networkInstance.value);
    }
    if f.marking.present {
      MarkingBuilt(f.marking.value);
    }
    if f.policy.present {
      PolicyBuilt(f.policy.value);
    }
    assert Chained([], []) by {
      NothingChained();
    }
    ChainedPrepend(f.policy.present, i5, [], d5, []);
    ChainedPrepend(f.marking.present, i4, r4, d4, e5);
    ChainedPrepend(f.creation.present, i3, r3, d3, e4);
    ChainedPrepend(f.networkInstance.present, i2, r2, d2, e3);
    ChainedPrepend(f.destination.present, i1, r1, d1, e2);
    GroupFramed(4, ForwardingIes(f), ForwardingOctets(f, d3));
  }

  lemma {:induction false} NothingChained()
    ensures Chained([], [])
  {
  }

  lemma {:induction false} NumberBuilt(t: u16, v: byte)
    requires t in {42, 44, 88}
    ensures DumpIe(NewNumber(t, v)) == Framed(t, [v]) && |Framed(t, [v])| == NewNumber(t, v).tlv.length + 4
  {
    hide DumpIe;
    NumberPrinted(t, 1, [v]);
  }

  lemma {:induction false} FarIdBuilt(v: u32)
    ensures DumpIe(NewNumber(108, v)) == Framed(108, Four(v)) && |Framed(108, Four(v))| == NewNumber(108, v).tlv.length + 4
  {
    hide DumpIe, Four, Value4, NewIe, Numeric;
    var d := Four(v);
    FourValue(v);
    assert Numeric(108, |d|) by {
      FarIdIsNumeric();
    }
    NumberPrinted(108, 4, d);
  }

  lemma {:induction false} FarIdIsNumeric()
    ensures Numeric(108, 4)
  {
  }

  lemma {:induction false} TextBuilt(text: bytes)
    requires |text| < 0x1_0000
    ensures DumpIe(NewText(22, text)) == Framed(22, text) && |Framed(22, text)| == NewText(22, text).tlv.length + 4
  {
    hide DumpTlv;
    HeadPrinted(22, |text|);
  }

  lemma {:induction false} MarkingBuilt(text: bytes)
    requires |text| == 2
    ensures DumpIe(NewMarking(text)) == Framed(30, text) && |Framed(30, text)| == NewMarking(text).tlv.length + 4
  {
    hide DumpTlv;
    HeadPrinted(30, 2);
  }

  lemma {:induction false} PolicyBuilt(p: R.PolicyId)
    requires |p.id| < 0xffff
    ensures DumpIe(NewPolicy(p)) == Framed(41, [p.length] + p.id)
    ensures |Framed(41, [p.length] + p.id)| == NewPolicy(p).tlv.length + 4
  {
    hide DumpTlv, BE;
    HeadPrinted(41, 1 + |p.id|);
    Number1([p.length]);
  }

  lemma {:induction false} TunnelBuilt(c: R.HeaderCreation)
    requires Sizes(c)
    ensures |DumpIe(NewCreation(c))| == NewCreation(c).tlv.length + 4
  {
    hide BE, Bit, IsGtpu, IsV4, IsV6;
  }

  /** The octet of an Apply Action. */
  function ActionOctet(a: R.Apply): byte {
    (if a.drop then 1 else 0) + (if a.forw then 2 else 0) + (if a.buff then 4 else 0) + (if a.nocp then 8 else 0)
    + if a.dupl then 16 else 0
  }

  /** The octets a Create FAR is built and printed as, for every record; duplicating parameters are an empty element. */
  lemma {:induction false} CreateFarPrinted(b: R.CreateFar)
    requires Sizes(b.forwarding.value.creation.value)
    requires var f := b.forwarding.value;
             && (f.networkInstance.present ==> |f.networkInstance.value| < 0x1_0000)
             && (f.marking.present ==> |f.marking.value| == 2)
             && (f.policy.present ==> |f.policy.value.id| < 0xffff)
             && |ForwardingOctets(f, DumpIe(NewCreation(f.creation.value)))| < 0x1_0000
    ensures var parameters := ForwardingOctets(b.forwarding.value, DumpIe(NewCreation(b.forwarding.value.creation.value)));
            DumpIe(NewCreateFar(b))
            == Framed(3, (if b.farId.present then Framed(108, Four(b.farId.value)) else [])
                         + ((if b.action.present then Framed(44, [ActionOctet(b.action.value)]) else [])
                         + ((if b.forwarding.present then Framed(4, parameters) else [])
                         + ((if b.duplicating.present then [0, 5, 0, 0] else [])
                         + ((if b.barId.present then Framed(88, [b.barId.value]) else []) + [])))))
  {
    hide DumpIe, DumpFrom, Prepend, NewGroup, Framed, Chained, NewNumber, ForwardingIes, ForwardingOctets, NewCreation, Four;
    var f, a := b.forwarding.value, b.action.value;
    var parameters := ForwardingOctets(f, DumpIe(NewCreation(f.creation.value)));
    var i1, i2, i3 := NewNumber(108, b.farId.value), NewNumber(44, ApplyFlags(a)), NewGroup(4, ForwardingIes(f));
    var i4, i5 := NewGroup(5, []), NewNumber(88, b.barId.value);
    var d1, d2, d3 := Framed(108, Four(b.farId.value)), Framed(44, [ActionOctet(a)]), Framed(4, parameters);
    var d4, d5 := [0, 5, 0, 0], Framed(88, [b.barId.value]);
    var r4 := Prepend(b.barId.present, i5, []);
    var r3 := Prepend(b.duplicating.present, i4, r4);
    var r2 := Prepend(b.forwarding.present, i3, r3);
    var r1 := Prepend(b.action.present, i2, r2);
    var e5 := (if b.barId.present then d5 else []) + [];
    var e4 := (if b.duplicating.present then d4 else []) + e5;
    var e3 := (if b.forwarding.present then d3 else []) + e4;
    var e2 := (if b.action.present then d2 else []) + e3;
    FarIdBuilt(b.farId.value);
    NumberBuilt(44, ActionOctet(a));
    NumberBuilt(88, b.barId.value);
    ForwardingPrinted(f);
    EmptyBuilt();
    FramedSize(4, parameters);
    ChainedPrepend(b.barId.present, i5, [], d5, []);
    ChainedPrepend(b.duplicating.present, i4, r4, d4, e5);
    ChainedPrepend(b.forwarding.present, i3, r3, d3, e4);
    ChainedPrepend(b.action.present, i2, r2, d2, e3);
    ChainedPrepend(b.farId.present, i1, r1, d1, e2);
    GroupFramed(3, CreateFarIes(b), (if b.farId.present then d1 else []) + e2);
  }

  lemma {:induction false} EmptyBuilt()
    ensures Chained([], [])
    ensures DumpIe(NewGroup(5, [])) == [0, 5, 0, 0] && NewGroup(5, []).tlv.length == 0
  {
    NothingChained();
    GroupFramed(5, [], []);
  }

  lemma {:induction false} FramedSize(t: byte, d: bytes)
    ensures |Framed(t, d)| == |d| + 4
  {
  }
}
