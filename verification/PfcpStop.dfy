/**
 When the parser returns. Every loop and every recursive call of the element parsers consumes octets
 of the stream (or makes it fail), so they end on every input; the one loop that does not is the
 decoder of names, which a Node ID calls.
 */
module PfcpStop {
  import opened Wire
  import opened Fqdn
  import opened PfcpLeaf
  import opened PfcpLeafTrip
  import opened PfcpTree
  import opened PfcpTreeTrip
  import opened PfcpMessage
  import opened PfcpMessageTrip

  /** Parsing a Node ID of any length: exactly when it does not return. */
  lemma {:induction false} NodeIdHangsIff(length: nat, s: Stream)
    requires s.Valid() && 0 < length < 0x1_0000
    ensures var (kind, s1) := Read(s, [s.junk]);
            var name := Read(s1, Repeat(length - 1, s.junk)).0;
            && (LoadNodeId(60, length, s) == Stuck <==> FromBE(kind) % 16 == 2 && length > 1 && Cycles(name))
            && (length <= 0xff82 ==> (Cycles(name) <==> LoopsBack(name, 0)))
  {
    hide Read, FromBE, LoopsBack, Cycles, DottedToStringSpec;
    var (kind, s1) := Read(s, [s.junk]);
    var name := Read(s1, Repeat(length - 1, s.junk)).0;
    DecoderHangsIffCycles(name);
    if length <= 0xff82 {
      DecoderHangsIff(name);
    }
  }

  /** At s begins a Node ID that carries a name on which the decoder goes round for ever. */
  ghost predicate LoopingNodeId(s: Stream)
    requires s.Valid()
  {
    var (tlv, s1) := LoadTlv(s);
    var (kind, s2) := Read(s1, [s1.junk]);
    tlv.t == 60 && tlv.length > 1 && FromBE(kind) % 16 == 2 && Cycles(Read(s2, Repeat(tlv.length - 1, s1.junk)).0)
  }

  lemma {:induction false} LoopingIsStuck(s: Stream)
    requires s.Valid()
    ensures var (tlv, s1) := LoadTlv(s);
            LoopingNodeId(s) <==> tlv.t == 60 && tlv.length > 0 && LoadNodeId(60, tlv.length, s1) == Stuck
  {
    hide Read, FromBE, Cycles, LoadTlv, LoadNodeId, LoopsBack;
    var (tlv, s1) := LoadTlv(s);
    if tlv.length > 0 {
      NodeIdHangsIff(tlv.length, s1);
    }
  }

  // ---------------------------------------------------------------- the elements the parser reaches

  /** The element that begins at s is such a Node ID, or a group in which the parser reaches one. */
  ghost predicate ElementLoops(s: Stream)
    requires s.Valid()
    decreases s.Left(), 0
  {
    var (tlv, s1) := LoadTlv(s);
    if tlv.length > 0 && KindOf(tlv.t) == Grouped then GroupLoops(tlv.length, s1) else LoopingNodeId(s)
  }

  /** With `remaining` octets of a group to come, its next child is or holds one, or is read and a later one does. */
  ghost predicate GroupLoops(remaining: int, s: Stream)
    requires s.Valid()
    decreases s.Left(), 1
  {
    remaining > 0 &&
    (ElementLoops(s) ||
     match NewIe(s)
     case Some(ie, s1) => GroupLoops(remaining - (ie.tlv.length + 4), s1)
     case _ => false)
  }

  lemma {:induction false} ElementHangsIff(s: Stream)
    requires s.Valid()
    ensures NewIe(s) == Parsed.Hang <==> ElementLoops(s)
    decreases s.Left(), 0
  {
    hide Load, LoadTlv, LoadNodeId, LoopingNodeId;
    var (tlv, s1) := LoadTlv(s);
    LoopingIsStuck(s);
    if tlv.length > 0 {
      if KindOf(tlv.t) == Grouped {
        GroupHangsIff(tlv, tlv.length, [], s1);
      } else if KindOf(tlv.t) != Unknown {
        StuckIff(tlv.t, tlv.length, s1);
      }
    }
  }

  lemma {:induction false} StuckIff(t: nat, length: nat, s: Stream)
    requires s.Valid() && 0 < length < 0x1_0000
    ensures Load(t, length, s) == Stuck <==> t == 60 && LoadNodeId(60, length, s) == Stuck
  {
    hide LoadNumber, LoadRates, LoadText, LoadPolicy, LoadFteid, LoadFseid, LoadUeIp, LoadOuterHeader, LoadSdf,
      LoadOther, LoadNodeId;
  }

  lemma {:induction false} GroupHangsIff(tlv: Tlv, remaining: int, ies: seq<Ie>, s: Stream)
    requires s.Valid()
    ensures LoadGroup(tlv, remaining, ies, s) == Parsed.Hang <==> GroupLoops(remaining, s)
    decreases s.Left(), 1
  {
    hide Load, KindOf, LoadTlv, LoopingNodeId;
    if remaining > 0 {
      ElementHangsIff(s);
      match NewIe(s)
      case Some(ie, s1) => GroupHangsIff(tlv, remaining - (ie.tlv.length + 4), ies + [ie], s1);
      case _ =>
    }
  }

  /** The same for the loop over the elements of a message, with its wrapping counter. */
  ghost predicate IesLoop(check: u16, size: u16, s: Stream)
    requires s.Valid()
    decreases s.Left()
  {
    ElementLoops(s) ||
    match NewIe(s)
    case Some(ie, s1) =>
      var size' := (size + 4 + ie.tlv.length) % 0x1_0000;
      size' < check && IesLoop(check, size', s1)
    case _ => false
  }

  lemma {:induction false} IesHangIff(check: u16, size: u16, ies: seq<Ie>, s: Stream)
    requires s.Valid()
    ensures LoadIes(check, size, ies, s) == IesHang <==> IesLoop(check, size, s)
    decreases s.Left()
  {
    hide NewIe, ElementLoops;
    ElementHangsIff(s);
    match NewIe(s)
    case Some(ie, s1) => IesHangIff(check, (size + 4 + ie.tlv.length) % 0x1_0000, ies + [ie], s1);
    case _ =>
  }

  /**
   For every octet string: `pfcp_msg::load_from` does not return if and only if one of the elements it reaches, at any
   depth, is a Node ID with a name on which the decoder goes round. Otherwise it ends, although counters wrap
   and children overrun their parents.
   */
  lemma {:induction false} MessageHangsIff(m: Msg, s: Stream)
    requires s.Valid()
    ensures var (h, s1) := LoadHeader(m.h, s);
            LoadMsg(m, s).0 == NoReturn <==> IesLoop(CheckLength(h), 0, s1)
  {
    hide LoadHeader, LoadIes, IesLoop, CheckLength;
    var (h, s1) := LoadHeader(m.h, s);
    IesHangIff(CheckLength(h), 0, m.ies, s1);
  }

  // ---------------------------------------------------------------- messages that stop the receiver

  /** A message whose first element is a Node ID with a name the decoder goes round on, whatever stands before and behind. */
  lemma {:induction false} NodeIdMessageHangs(h: Header, name: bytes, h0: Header, s: Stream)
    requires h.seid < Pow256(8) && 0 < |name| < 0xffff && Cycles(name) && s.Valid()
    requires s.At(DumpHeader(h) + (DumpTlv(Tlv(60, 1 + |name|, 0)) + ([2] + name)))
    ensures LoadMsg(Msg(h0, []), s).0 == NoReturn
  {
    hide LoadHeader, DumpHeader, Read, FromBE, Cycles, LoadTlv, DumpTlv, LoadMsg, HasSeid;
    var tlv := Tlv(60, 1 + |name|, 0);
    HeaderReadsBack(h, h0, s, DumpTlv(tlv) + ([2] + name));
    var s1 := s.Skip(|DumpHeader(h)|);
    TlvReadsBack(tlv, s1, [2] + name);
    var s2 := s1.Skip(4);
    ReadNext(s2, [s.junk], [2], name);
    ReadLast(s2.Skip(1), Repeat(|name|, s.junk), name);
    OneOctet(2);
    assert LoopingNodeId(s1);
    MessageHangsIff(Msg(h0, []), s);
  }

  lemma {:induction false} TwoBE(v: u16)
    ensures BE(2, v) == [v / 256, v % 256]
  {
    assert BE(1, v / 256) == BE(0, v / 65536) + [v / 256 % 256];
  }

  const FOURTEEN: bytes := [0x20, 5, 0, 10, 0, 0, 1, 0, 0, 60, 0, 2, 2, 0xff]

  lemma {:induction false} EightOctets()
    ensures DumpHeader(Header(0x20, 5, 10, 0, 1, 0)) == [0x20, 5, 0, 10, 0, 0, 1, 0]
  {
    TwoBE(10);
    TwoBE(0);
    OneOctet(0x20);
    OneOctet(5);
    OneOctet(0);
    assert BE(3, 1) == BE(2, 0) + [1];
    hide BE;
  }

  lemma {:induction false} FourteenAreThese()
    ensures DumpHeader(Header(0x20, 5, 10, 0, 1, 0)) + (DumpTlv(Tlv(60, 2, 0)) + ([2] + [0xff])) == FOURTEEN
  {
    hide DumpHeader;
    EightOctets();
    TwoBE(60);
    TwoBE(2);
    hide BE;
    assert DumpTlv(Tlv(60, 2, 0)) == [0, 60, 0, 2];
  }

  /** One octet of name in a message of fourteen is enough. */
  lemma {:induction false} FourteenOctetsStop(h0: Header, junk: byte)
    ensures LoadMsg(Msg(h0, []), Stream(FOURTEEN, 0, true, junk)).0 == NoReturn
  {
    hide LoadMsg, Cycles, LoopsBack, DumpHeader, DumpTlv;
    var s := Stream(FOURTEEN, 0, true, junk);
    FourteenAreThese();
    assert FOURTEEN[0..14] == FOURTEEN;
    Pow256Values();
    DecoderHangsOnFF();
    DecoderHangsIffCycles([0xff]);
    NodeIdMessageHangs(Header(0x20, 5, 10, 0, 1, 0), [0xff], h0, s);
  }

  // ---------------------------------------------------------------- streams that never do

  /** All octets, and what memory the parser may expose, are below 128. */
  ghost predicate SevenBit(s: Stream) {
    s.junk < 128 && forall i :: 0 <= i < |s.data| ==> s.data[i] < 128
  }

  lemma {:induction false} SevenBitElement(s: Stream)
    requires s.Valid() && SevenBit(s)
    ensures !ElementLoops(s)
    decreases s.Left(), 0
  {
    hide LoadTlv, LoopingNodeId, KindOf, SevenBit;
    SevenBitNodeId(s);
    var (tlv, s1) := LoadTlv(s);
    SevenBitSame(s, s1);
    if tlv.length > 0 {
      SevenBitGroup(tlv.length, s1);
    }
  }

  lemma {:induction false} SevenBitSame(s: Stream, s1: Stream)
    requires SevenBit(s) && s1.Same(s)
    ensures SevenBit(s1)
  {
  }

  lemma {:induction false} SevenBitGroup(remaining: int, s: Stream)
    requires s.Valid() && SevenBit(s)
    ensures !GroupLoops(remaining, s)
    decreases s.Left(), 1
  {
    hide ElementLoops, SevenBit, Load, LoadTlv, KindOf;
    SevenBitElement(s);
    match NewIe(s)
    case Some(ie, s1) =>
      SevenBitSame(s, s1);
      SevenBitGroup(remaining - (ie.tlv.length + 4), s1);
    case _ =>
  }

  lemma {:induction false} SevenBitIes(check: u16, size: u16, s: Stream)
    requires s.Valid() && SevenBit(s)
    ensures !IesLoop(check, size, s)
    decreases s.Left()
  {
    hide ElementLoops, SevenBit, NewIe;
    SevenBitElement(s);
    match NewIe(s)
    case Some(ie, s1) =>
      SevenBitSame(s, s1);
      SevenBitIes(check, (size + 4 + ie.tlv.length) % 0x1_0000, s1);
    case _ =>
  }

  /** The parser returns on every stream of octets below 128. */
  lemma {:induction false} MessageReturns(m: Msg, s: Stream)
    requires s.Valid() && SevenBit(s)
    ensures LoadMsg(m, s).0 != NoReturn
  {
    hide LoadMsg, LoadHeader, IesLoop, SevenBit, CheckLength;
    MessageHangsIff(m, s);
    var (h, s1) := LoadHeader(m.h, s);
    SevenBitSame(s, s1);
    SevenBitIes(CheckLength(h), 0, s1);
  }

  lemma {:induction false} SevenBitRead(s: Stream, memory: bytes)
    requires s.Valid() && forall i :: 0 <= i < |s.data| ==> s.data[i] < 128
    requires forall i :: 0 <= i < |memory| ==> memory[i] < 128
    ensures var r := Read(s, memory).0; forall i :: 0 <= i < |r| ==> r[i] < 128
  {
  }

  lemma {:induction false} SevenBitNodeId(s: Stream)
    requires s.Valid() && SevenBit(s)
    ensures !LoopingNodeId(s)
  {
    hide Read, FromBE, LoopsBack, LoadNodeId, Repeat, Cycles;
    var t := Read(s, [0, 0]);
    SevenBitRead(s, [0, 0]);
    var length := Read(t.1, [0, 0]);
    SevenBitRead(t.1, [0, 0]);
    TwoOctets(length.0);
    var (tlv, s1) := LoadTlv(s);
    if tlv.length > 0 {
      NodeIdHangsIff(tlv.length, s1);
      var u := Read(s1, [s1.junk]);
      var name := Read(u.1, Repeat(tlv.length - 1, s1.junk)).0;
      SevenBitRead(u.1, Repeat(tlv.length - 1, s1.junk));
      NoJump(name, 0);
    }
  }

  lemma {:induction false} TwoOctets(d: bytes)
    requires |d| == 2 && d[0] < 128
    ensures FromBE(d) < 0x8000
  {
    assert d[..1] == [d[0]] && [d[0]][..0] == [];
    assert FromBE(d[..1]) == d[0];
  }

  lemma {:induction false} NoJump(dot: bytes, offset: nat)
    requires forall i :: 0 <= i < |dot| ==> dot[i] < 128
    ensures !LoopsBack(dot, offset)
    decreases |dot| - offset
  {
    if offset < |dot| {
      NoJump(dot, offset + 1 + if dot[offset] < 64 then dot[offset] else 0);
    }
  }

  /**
   The URR ID is written in the byte order of the (little-endian) host and read in network order: it
   comes back exactly when its octets read the same in both directions.
   */
  lemma {:induction false} UrrIdRoundTripIff(v: u32, s: Stream)
    requires s.Valid() && s.At(Body(81, Num(v)))
    ensures LoadNumber(81, 4, s).Got?
    ensures LoadNumber(81, 4, s).leaf == Num(v) <==> LE(4, v) == BE(4, v)
  {
    Pow256Values();
    var d := LE(4, v);
    assert d + [] == d;
    ReadNext(s, InitialNumber(81, s.junk), d, []);
    BEFits(4, v);
    BEOfFromBE(d);
  }

  lemma {:induction false} OneDiffers()
    ensures LE(4, 1) != BE(4, 1)
  {
    assert LE(4, 1)[0] == 1;
    assert BE(4, 1) == BE(3, 0) + [1] && BE(3, 0) == BE(2, 0) + [0] && BE(2, 0) == BE(1, 0) + [0];
    assert BE(1, 0) == BE(0, 0) + [0];
    assert BE(4, 1)[0] == 0;
  }

  /** The URR ID 1 comes back as another number. */
  lemma {:induction false} UrrIdOneIsChanged(s: Stream)
    requires s.Valid() && s.At(Body(81, Num(1)))
    ensures LoadNumber(81, 4, s).Got? && LoadNumber(81, 4, s).leaf != Num(1)
  {
    hide LE, BE, LoadNumber, Body;
    OneDiffers();
    UrrIdRoundTripIff(1, s);
  }
}
