/**
 Printed messages with names of any kind: which of them the receiver's parser returns from, and how.
 */
module PfcpNames {
  import opened Wire
  import opened Fqdn
  import opened PfcpLeaf
  import opened PfcpLeafStream
  import opened PfcpLeafTrip
  import opened PfcpTree
  import opened PfcpTreeTrip
  import opened PfcpMessage
  import opened PfcpMessageTrip

  /** A Node ID with a name the printer can print. Its labels may be of any length. */
  predicate Named(leaf: Leaf) {
    && leaf.NodeId? && leaf.flags < 256 && |leaf.v4| == 4 && |leaf.v6| == 16 && leaf.flags % 16 == 2 && Printable(leaf)
  }

  /** Well formed, but for the labels of names. */
  ghost predicate Plain(ie: Ie) {
    && ie.tlv.enterprise == 0 && 0 < ie.tlv.length < 0x1_0000
    && match ie
       case LeafIe(tlv, leaf) =>
         (WfLeaf(tlv.t, leaf) || (tlv.t == 60 && Named(leaf))) && tlv.length == |Body(tlv.t, leaf)|
       case GroupIe(tlv, ies) => KindOf(tlv.t) == Grouped && tlv.length == SizeFrom(ies, 0) && AllPlain(ies)
  }

  ghost predicate AllPlain(ies: seq<Ie>) {
    forall i :: 0 <= i < |ies| ==> Plain(ies[i])
  }

  /** What becomes of a parser that meets an element: it goes on, throws, or never returns. */
  datatype Fate = Fine | Throws | Stops

  /** The name decides: whether decoding its label form comes to an end, and how. */
  function NameFate(name: bytes): Fate
    requires |name| <= 255
  {
    match DottedToStringSpec(Dotted(name))
    case Done(_, _) => Fine
    case LengthError => Throws
    case Hang => Stops
  }

  function LeafFate(t: nat, leaf: Leaf): Fate {
    if t == 60 && Named(leaf) then NameFate(leaf.fqdn) else Fine
  }

  /** The first name, in the order of printing, that is not fine. */
  function IeFate(ie: Ie): Fate
    decreases ie
  {
    match ie
    case LeafIe(tlv, leaf) => LeafFate(tlv.t, leaf)
    case GroupIe(_, ies) => FateFrom(ies, 0)
  }

  function FateFrom(ies: seq<Ie>, i: nat): Fate
    requires i <= |ies|
    decreases ies, |ies| - i
  {
    if i == |ies| then Fine
    else if IeFate(ies[i]) != Fine then IeFate(ies[i])
    else FateFrom(ies, i + 1)
  }

  /**
   For printable names: the receiver never returns exactly when the label form leads to a jump to its start, and
   throws exactly when it leads to a jump back into it.
   */
  lemma {:induction false} NameFateIff(name: bytes)
    requires |name| <= 255
    ensures NameFate(name) == Stops <==> LoopsBack(Dotted(name), 0)
    ensures NameFate(name) == Throws <==> JumpsBack(Dotted(name), 0)
  {
    hide DottedToStringSpec, LoopsBack, JumpsBack, Dotted;
    DecoderHangsIff(Dotted(name));
    DecoderThrowsIff(Dotted(name));
  }

  /** One label of 255 octets is such a name: the encoder writes its length octet as 255. */
  lemma {:induction false} LongestLabelStops(name: bytes)
    requires |name| == 255 && forall j :: 0 <= j < 255 ==> name[j] != DOT
    ensures NameFate(name) == Stops
  {
    var e := LabelEnd(name, 0);
    assert e == 255;
    assert Dotted(name)[0] == 255;
    NameFateIff(name);
  }

  /** Short labels are fine. */
  lemma {:induction false} ShortIsFine(name: bytes)
    requires |name| <= 255 && ShortLabels(name)
    ensures NameFate(name) == Fine
  {
    DottedRoundTrip(name);
  }

  // ---------------------------------------------------------------- the parser against the fate

  ghost predicate MeetsFate(r: Parsed, fate: Fate, tlv: Tlv, end: Stream) {
    match fate
    case Fine => r.Some? && r.ie.tlv == tlv && r.s == end
    case Throws => r.Throw?
    case Stops => r == Parsed.Hang
  }

  lemma {:induction false} PlainSize(ie: Ie)
    requires Plain(ie)
    ensures |DumpIe(ie)| == ie.tlv.length + 4 && ie.tlv.t < 256
    decreases ie
  {
    KnownTypesAreSmall(ie.tlv.t);
    match ie
    case LeafIe(tlv, leaf) =>
      if WfLeaf(tlv.t, leaf) {
        DispatchedLeaf(tlv.t, leaf);
        DumpedLengthIsStored(tlv, leaf);
      }
    case GroupIe(tlv, ies) => PlainSizes(ies, 0);
  }

  lemma {:induction false} PlainSizes(ies: seq<Ie>, i: nat)
    requires i <= |ies| && AllPlain(ies)
    ensures |DumpFrom(ies, i)| == SizeFrom(ies, i)
    decreases ies, |ies| - i
  {
    if i < |ies| {
      PlainSize(ies[i]);
      PlainSizes(ies, i + 1);
    }
  }

  /** A Node ID with a name, read back behind its header. */
  lemma {:induction false} NamedReadsBack(leaf: Leaf, s: Stream)
    requires Named(leaf) && s.Valid() && s.At(Body(60, leaf))
    ensures |Body(60, leaf)| == |leaf.fqdn| + 2
    ensures var r := LoadNodeId(60, |Body(60, leaf)|, s);
            match NameFate(leaf.fqdn)
            case Fine => r.Got? && r.s == s.Skip(|Body(60, leaf)|)
            case Throws => r.Thrown?
            case Stops => r == Stuck
  {
    hide Read, BE, FromBE, DottedToStringSpec, Dotted, Repeat;
    var name := Dotted(leaf.fqdn);
    assert Body(60, leaf) == BE(1, leaf.flags) + name by {
      assert Opt(false, leaf.v4) + (Opt(false, leaf.v6) + name) == name;
    }
    Pow256Values();
    NumberNext(s, [s.junk], 1, leaf.flags, name);
    ReadLast(s.Skip(1), Repeat(|name|, s.junk), name);
  }

  lemma {:induction false} NodeIdIsDispatched(s: Stream)
    requires s.Valid() && LoadTlv(s).0.t == 60 && LoadTlv(s).0.length > 0
    ensures var (tlv, s1) := LoadTlv(s);
            NewIe(s) == match LoadNodeId(60, tlv.length, s1)
                        case Got(leaf, s2) => Some(LeafIe(tlv, leaf), s2)
                        case Thrown(e, s2) => Throw(e, s2)
                        case Stuck => Parsed.Hang
  {
    hide LoadTlv, LoadNodeId;
  }

  lemma {:induction false} NamedMeetsFate(tlv: Tlv, leaf: Leaf, s: Stream)
    requires Plain(LeafIe(tlv, leaf)) && tlv.t == 60 && Named(leaf)
    requires s.Valid() && s.At(DumpIe(LeafIe(tlv, leaf)))
    ensures MeetsFate(NewIe(s), NameFate(leaf.fqdn), tlv, s.Skip(tlv.length + 4))
  {
    hide LoadTlv, DumpTlv, Body, DumpedLength, NameFate, LoadNodeId, WfLeaf, Named, NewIe;
    NodeIdLength(tlv, leaf);
    TlvReadsBack(tlv, s, Body(60, leaf));
    NamedReadsBack(leaf, s.Skip(4));
    NodeIdIsDispatched(s);
  }

  lemma {:induction false} LeafMeetsFate(tlv: Tlv, leaf: Leaf, s: Stream)
    requires Plain(LeafIe(tlv, leaf)) && s.Valid() && s.At(DumpIe(LeafIe(tlv, leaf)))
    ensures MeetsFate(NewIe(s), LeafFate(tlv.t, leaf), tlv, s.Skip(tlv.length + 4))
  {
    hide LoadTlv, DumpTlv, Body, DumpedLength, Norm, NameFate, Named, WfLeaf, Load, KindOf;
    if tlv.t == 60 && Named(leaf) {
      NamedMeetsFate(tlv, leaf, s);
    } else {
      LeafIeRoundTrip(tlv, leaf, s);
    }
  }

  lemma {:induction false} NodeIdLength(tlv: Tlv, leaf: Leaf)
    requires Named(leaf)
    ensures leaf.NodeId? && DumpedLength(tlv, leaf) == tlv.length
  {
  }

  /** Parsing a printed tree: it meets the fate of its first bad name, or is read to its end. */
  lemma {:induction false} IeMeetsFate(ie: Ie, s: Stream)
    requires Plain(ie) && s.Valid() && s.At(DumpIe(ie))
    ensures MeetsFate(NewIe(s), IeFate(ie), ie.tlv, s.Skip(|DumpIe(ie)|))
    decreases ie
  {
    hide Load, LoadTlv, DumpTlv, Body, DumpedLength, WfLeaf, KindOf, LeafFate;
    PlainSize(ie);
    match ie
    case LeafIe(tlv, leaf) => LeafMeetsFate(tlv, leaf, s);
    case GroupIe(tlv, ies) =>
      TlvReadsBack(tlv, s, DumpFrom(ies, 0));
      GroupMeetsFate(tlv, ies, 0, [], s.Skip(4));
      PlainSizes(ies, 0);
  }

  lemma {:induction false} GroupMeetsFate(tlv: Tlv, ies: seq<Ie>, i: nat, read: seq<Ie>, s: Stream)
    requires i <= |ies| && AllPlain(ies) && s.Valid() && s.At(DumpFrom(ies, i))
    ensures MeetsFate(LoadGroup(tlv, SizeFrom(ies, i), read, s), FateFrom(ies, i), tlv, s.Skip(|DumpFrom(ies, i)|))
    decreases ies, |ies| - i
  {
    hide Load, LoadTlv, DumpTlv, Body, KindOf, WfLeaf, DumpIe, IeFate;
    if i < |ies| {
      var d, rest := DumpIe(ies[i]), DumpFrom(ies, i + 1);
      AtSplit(s, d, rest);
      IeMeetsFate(ies[i], s);
      if IeFate(ies[i]) == Fine {
        GroupMeetsFate(tlv, ies, i + 1, read + [NewIe(s).ie], s.Skip(|d|));
      }
    }
  }

  /** A message whose elements are plain and whose length field says how long it is. */
  ghost predicate PlainMsg(m: Msg) {
    && m.h.seid < Pow256(8) && m.ies != [] && AllPlain(m.ies)
    && m.h.length == 4 + (if HasSeid(m.h) then 8 else 0) + SizeFrom(m.ies, 0)
  }

  lemma {:induction false} IesMeetFate(ies: seq<Ie>, i: nat, check: u16, read: seq<Ie>, s: Stream)
    requires i < |ies| && AllPlain(ies) && s.Valid() && s.At(DumpFrom(ies, i)) && check == SizeFrom(ies, 0)
    requires SizeFrom(ies, i) <= check
    ensures var r := LoadIes(check, check - SizeFrom(ies, i), read, s);
            match FateFrom(ies, i)
            case Fine => r.Counted? && r.size == check && r.s == s.Skip(|DumpFrom(ies, i)|)
            case Throws => r.IesThrew?
            case Stops => r == IesHang
    decreases |ies| - i
  {
    hide NewIe, DumpIe, IeFate, Plain;
    var d, rest := DumpIe(ies[i]), DumpFrom(ies, i + 1);
    AtSplit(s, d, rest);
    IeMeetsFate(ies[i], s);
    if IeFate(ies[i]) == Fine {
      ModUnique(check - SizeFrom(ies, i) + 4 + ies[i].tlv.length, 0x1_0000, 0, check - SizeFrom(ies, i + 1));
      assert FateFrom(ies, i) == FateFrom(ies, i + 1);
      assert |DumpFrom(ies, i)| == |d| + |rest|;
      if i + 1 < |ies| {
        SizePositive(ies, i + 1);
        IesMeetFate(ies, i + 1, check, read + [NewIe(s).ie], s.Skip(|d|));
      } else {
        assert LoadIes(check, check - SizeFrom(ies, i), read, s) == Counted(read + [NewIe(s).ie], check, s.Skip(|d|));
      }
    }
  }

  /**
   For every message that can be printed, with names of any kind: the receiver goes through it, throws, or never
   returns as the first name in it that is not fine decides.
   */
  lemma {:induction false} PrintedMessageMeetsFate(m: Msg, h0: Header, s: Stream)
    requires PlainMsg(m) && s.Valid() && s.At(DumpMsg(m))
    ensures var r := LoadMsg(Msg(h0, []), s).0;
            match FateFrom(m.ies, 0)
            case Fine => r == Ok
            case Throws => r.Failed?
            case Stops => r == NoReturn
  {
    hide LoadHeader, DumpHeader, LoadIes, HasPriority, Plain, SizeFrom, DumpIe, FateFrom;
    HeaderReadsBack(m.h, h0, s, DumpFrom(m.ies, 0));
    CheckIsSize(m.h, SizeFrom(m.ies, 0));
    IesMeetFate(m.ies, 0, SizeFrom(m.ies, 0), [], s.Skip(|DumpHeader(m.h)|));
  }

  lemma {:induction false} CheckIsSize(h: Header, size: nat)
    requires h.length == 4 + (if HasSeid(h) then 8 else 0) + size
    ensures size < 0x1_0000 && CheckLength(NormHeader(h)) == size
  {
    hide HasPriority;
    CleanedFlags(h);
    ModUnique(size, 0x1_0000, 0, size);
  }
}
