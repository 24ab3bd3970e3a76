/**
 The lengths stored by constructors and by `add_ie`, against the octets `dump_to` writes.
 */
module PfcpLength {
  import opened Wire
  import opened Fqdn
  import opened PfcpLeaf
  import opened PfcpLeafStream
  import opened PfcpLeafTrip
  import opened PfcpTree
  import opened PfcpTreeTrip
  import opened PfcpMessage

  /** Lengths as constructors and `add_ie` leave them. A group that outgrew 16 bits has wrapped. */
  ghost predicate Sized(ie: Ie) {
    && ie.tlv.t < 0x8000
    && match ie
       case LeafIe(tlv, leaf) => DumpedLength(tlv, leaf) == tlv.length == |Body(tlv.t, leaf)|
       case GroupIe(tlv, ies) => tlv.length == SizeFrom(ies, 0) % 0x1_0000 && AllSized(ies)
  }

  ghost predicate AllSized(ies: seq<Ie>) {
    forall i :: 0 <= i < |ies| ==> Sized(ies[i])
  }

  /** a and b differ by a multiple of 2^16. */
  ghost predicate Mod16(a: int, b: int) {
    exists k: int :: a == b + 0x1_0000 * k
  }

  lemma {:induction false} Mod16Of(a: nat)
    ensures Mod16(a, a % 0x1_0000)
  {
    assert a == a % 0x1_0000 + 0x1_0000 * (a / 0x1_0000);
  }

  lemma {:induction false} Mod16Sum(a: int, b: int, c: int, d: int)
    requires Mod16(a, b) && Mod16(c, d)
    ensures Mod16(a + c, b + d)
  {
    var k: int :| a == b + 0x1_0000 * k;
    var l: int :| c == d + 0x1_0000 * l;
    assert a + c == b + d + 0x1_0000 * (k + l);
  }

  lemma {:induction false} Mod16Less(a: int, b: int)
    requires Mod16(a, b) && 0 <= a < 0x1_0000 && 0 <= b < 0x1_0000
    ensures a == b
  {
  }

  lemma {:induction false} Mod16Refl(a: int)
    ensures Mod16(a, a)
  {
    assert a == a + 0x1_0000 * 0;
  }

  lemma {:induction false} Mod16Trans(a: int, b: int, c: int)
    requires Mod16(a, b) && Mod16(b, c)
    ensures Mod16(a, c)
  {
    var k: int :| a == b + 0x1_0000 * k;
    var l: int :| b == c + 0x1_0000 * l;
    assert a == c + 0x1_0000 * (k + l);
  }

  lemma {:induction false} DumpCount(ie: Ie)
    requires Sized(ie)
    ensures Mod16(|DumpIe(ie)|, ie.tlv.length + 4)
    ensures |DumpIe(ie)| < 0x1_0004 && ie.tlv.length < 0x1_0000 ==> |DumpIe(ie)| == ie.tlv.length + 4
    decreases ie
  {
    hide Mod16;
    match ie
    case LeafIe(tlv, leaf) => Mod16Refl(ie.tlv.length + 4);
    case GroupIe(tlv, ies) =>
      ChildrenCount(ies, 0);
      Mod16Of(SizeFrom(ies, 0));
      Mod16Trans(|DumpFrom(ies, 0)|, SizeFrom(ies, 0), tlv.length);
      Mod16Refl(4);
      Mod16Sum(|DumpFrom(ies, 0)|, tlv.length, 4, 4);
      if |DumpIe(ie)| < 0x1_0004 {
        Mod16Less(|DumpFrom(ies, 0)|, tlv.length);
      }
  }

  lemma {:induction false} ChildrenCount(ies: seq<Ie>, i: nat)
    requires i <= |ies| && AllSized(ies)
    ensures Mod16(|DumpFrom(ies, i)|, SizeFrom(ies, i))
    decreases ies, |ies| - i
  {
    hide Mod16, DumpIe, Sized;
    if i < |ies| {
      DumpCount(ies[i]);
      ChildrenCount(ies, i + 1);
      Mod16Sum(|DumpIe(ies[i])|, ies[i].tlv.length + 4, |DumpFrom(ies, i + 1)|, SizeFrom(ies, i + 1));
    } else {
      Mod16Refl(0);
    }
  }

  /** Every element that is printed writes four octets more than its length says, modulo 2^16, at any depth. */
  lemma {:induction false} ElementSize(ie: Ie)
    requires Sized(ie) && PrintableIe(ie) && Printed(ie).1
    ensures Mod16(|Printed(ie).0|, ie.tlv.length + 4)
    ensures |Printed(ie).0| < 0x1_0004 && ie.tlv.length < 0x1_0000 ==> |Printed(ie).0| == ie.tlv.length + 4
  {
    hide Mod16, Sized, DumpIe, Printed, PrintableIe;
    PrintsIff(ie);
    DumpCount(ie);
  }

  lemma {:induction false} MessageCount(m: Msg)
    requires LengthKept(m) && AllSized(m.ies)
    ensures Mod16(|DumpMsg(m)|, m.h.length + 4)
    ensures |DumpMsg(m)| < 0x1_0004 ==> |DumpMsg(m)| == m.h.length + 4
  {
    hide Mod16, Cleaned, DumpFrom, SizeFrom;
    var fixed := 4 + if HasSeid(m.h) then 8 else 0;
    ChildrenCount(m.ies, 0);
    Mod16Refl(fixed);
    Mod16Sum(|DumpFrom(m.ies, 0)|, SizeFrom(m.ies, 0), fixed, fixed);
    Mod16Of(fixed + SizeFrom(m.ies, 0));
    Mod16Trans(|DumpFrom(m.ies, 0)| + fixed, SizeFrom(m.ies, 0) + fixed, m.h.length);
    assert |DumpMsg(m)| - 4 == |DumpFrom(m.ies, 0)| + fixed;
    Mod16Refl(4);
    Mod16Sum(|DumpMsg(m)| - 4, m.h.length, 4, 4);
    if |DumpMsg(m)| < 0x1_0004 {
      Mod16Less(|DumpMsg(m)| - 4, m.h.length);
    }
  }

  /**
   A message whose length was kept by `set_seid` and `add_ie` writes exactly 4 + length octets when it is printed,
   as long as that fits 16 bits, and agrees modulo 2^16 otherwise.
   */
  lemma {:induction false} MessageSize(m: Msg)
    requires LengthKept(m) && AllSized(m.ies) && AllPrintable(m.ies) && PrintedFrom(m.ies, 0).1
    ensures var written := DumpHeader(m.h) + PrintedFrom(m.ies, 0).0;
            Mod16(|written|, m.h.length + 4) && (|written| < 0x1_0004 ==> |written| == m.h.length + 4)
  {
    hide Mod16, AllSized, DumpHeader, DumpFrom, PrintedFrom, AllPrintable;
    PrintsAllIff(m.ies, 0);
    MessageCount(m);
  }

  /** `pfcp_grouped_ie`. */
  class GroupedIe {
    var tlv: Tlv
    var ies: seq<Ie>

    function View(): Ie
      reads this
    {
      GroupIe(tlv, ies)
    }

    constructor (t: nat)
      requires t < 0x8000
      ensures View() == GroupIe(Tlv(t, 0, 0), []) && Sized(View())
    {
      tlv, ies := Tlv(t, 0, 0), [];
    }

    method AddIe(ie: Ie)
      modifies this
      ensures View() == GroupIe(old(tlv).(length := (old(tlv).length + 4 + ie.tlv.length) % 0x1_0000), old(ies) + [ie])
      ensures old(Sized(View())) && Sized(ie) ==> Sized(View())
    {
      if Sized(View()) && Sized(ie) {
        GroupStaysSized(tlv, ies, ie);
      }
      ies := ies + [ie];
      tlv := tlv.(length := (tlv.length + 4 + ie.tlv.length) % 0x1_0000);
    }
  }

  lemma {:induction false} GroupStaysSized(tlv: Tlv, ies: seq<Ie>, ie: Ie)
    requires Sized(GroupIe(tlv, ies)) && Sized(ie)
    ensures Sized(GroupIe(tlv.(length := (tlv.length + 4 + ie.tlv.length) % 0x1_0000), ies + [ie]))
  {
    AddedSize(ies, ie, 0);
    var a, b := SizeFrom(ies, 0), 4 + ie.tlv.length;
    assert (a % 0x1_0000 + b) % 0x1_0000 == (a + b) % 0x1_0000 by {
      ModUnique(a + b, 0x1_0000, a / 0x1_0000 + (a % 0x1_0000 + b) / 0x1_0000, (a % 0x1_0000 + b) % 0x1_0000);
    }
  }

  // ---------------------------------------------------------------- constructors from core types

  function FlagBits(b1: bool, b2: bool, b4: bool, b8: bool): (f: nat)
    ensures f < 16
    ensures Bit(f, 1) == b1 && Bit(f, 2) == b2 && Bit(f, 4) == b4 && Bit(f, 8) == b8
  {
    (if b1 then 1 else 0) + (if b2 then 2 else 0) + (if b4 then 4 else 0) + (if b8 then 8 else 0)
  }

  /** `fteid_t`. */
  datatype FteidCore = FteidCore(ch: bool, chid: bool, v4: bool, v6: bool, teid: nat, ipv4: bytes, ipv6: bytes, chooseId: nat)

  /** `pfcp_fteid_ie(const fteid_t&)`. Its CHID flag is copied even when CH is clear. `junk` is a field it leaves unset. */
  function NewFteid(b: FteidCore, junk: byte): Ie {
    var leaf := Fteid(FlagBits(!b.ch && b.v4, !b.ch && b.v6, b.ch, b.chid), b.teid,
                      if b.ch then Repeat(4, 0) else b.ipv4, if b.ch then Repeat(16, 0) else b.ipv6,
                      if b.ch && b.chid then b.chooseId else junk);
    var length := if b.ch then 1 + OptSize(b.chid, 1) else 5 + OptSize(b.v4, 4) + OptSize(b.v6, 16);
    LeafIe(Tlv(21, length, 0), leaf)
  }

  /** The length of a new F-TEID is right exactly when CHID is not set without CH. */
  lemma {:induction false} NewFteidSizedIff(b: FteidCore, junk: byte)
    requires |b.ipv4| == 4 && |b.ipv6| == 16
    ensures Sized(NewFteid(b, junk)) <==> (b.chid ==> b.ch)
    ensures !Sized(NewFteid(b, junk)) ==>
              |DumpIe(NewFteid(b, junk))| == NewFteid(b, junk).tlv.length + 4 + 1
  {
    hide Bit, BE, Repeat;
  }

  /** `fseid_t`. */
  datatype FseidCore = FseidCore(v4: bool, v6: bool, seid: nat, ipv4: bytes, ipv6: bytes)

  function NewFseid(b: FseidCore): (ie: Ie)
    requires |b.ipv4| == 4 && |b.ipv6| == 16
    ensures Sized(ie)
  {
    hide Bit, BE, Repeat;
    LeafIe(Tlv(57, 9 + OptSize(b.v4, 4) + OptSize(b.v6, 16), 0),
           Fseid(FlagBits(b.v6, b.v4, false, false), b.seid,
                 if b.v4 then b.ipv4 else Repeat(4, 0), if b.v6 then b.ipv6 else Repeat(16, 0)))
  }

  /** `ue_ip_address_t`. */
  datatype UeIpCore = UeIpCore(v4: bool, v6: bool, sd: bool, ipv6d: bool, ipv4: bytes, ipv6: bytes, prefixBits: nat)

  function NewUeIp(b: UeIpCore): (ie: Ie)
    requires |b.ipv4| == 4 && |b.ipv6| == 16
    ensures Sized(ie)
  {
    hide Bit, BE, Repeat;
    LeafIe(Tlv(93, 1 + OptSize(b.v4, 4) + OptSize(b.v6, 16) + OptSize(b.v6 && b.ipv6d, 1), 0),
           UeIp(FlagBits(b.v6, b.v4, b.sd, b.v6 && b.ipv6d),
                if b.v4 then b.ipv4 else Repeat(4, 0), if b.v6 then b.ipv6 else Repeat(16, 0),
                if b.v6 && b.ipv6d then b.prefixBits else 0))
  }

  /** `node_id_t`: the kind is a 4-bit field. Where printing it returns, it writes as many octets as its length says. */
  datatype NodeIdCore = NodeIdCore(kind: nat, ipv4: bytes, ipv6: bytes, fqdn: bytes)

  function NewNodeId(b: NodeIdCore): (ie: Ie)
    requires b.kind < 16 && |b.ipv4| == 4 && |b.ipv6| == 16
    ensures ie.LeafIe? && ie.leaf.NodeId?
  {
    LeafIe(Tlv(60, (1 + OptSize(b.kind == 0, 4) + OptSize(b.kind == 1, 16) + OptSize(b.kind == 2, |b.fqdn| + 1)) % 0x1_0000, 0),
           NodeId(b.kind, if b.kind == 0 then b.ipv4 else Repeat(4, 0), if b.kind == 1 then b.ipv6 else Repeat(16, 0),
                  if b.kind == 2 then b.fqdn else []))
  }

  /**
   Printing a new Node ID returns exactly when the encoder does with its name; then it writes as many octets as its
   length says, for names that fit 16 bits.
   */
  lemma {:induction false} NewNodeIdSize(b: NodeIdCore, junk: byte)
    requires b.kind < 16 && |b.ipv4| == 4 && |b.ipv6| == 16
    ensures var ie := NewNodeId(b);
            && (NodeIdPrints(ie.leaf) <==> (b.kind == 2 ==> EncoderReturns(b.fqdn)))
            && (NodeIdPrints(ie.leaf) && (b.kind == 2 ==> |b.fqdn| < 0xfff0) ==>
                  |NodeIdBody(ie.leaf, junk)| == ie.tlv.length)
            && ((b.kind == 2 ==> |b.fqdn| <= 255 && 0 !in b.fqdn) ==> Sized(ie) && PrintableIe(ie))
  {
    hide BE, EncoderReturns, Encoded, Dotted, Repeat;
  }

  /** `outer_header_creation_t`. */
  datatype OuterHeaderCore = OuterHeaderCore(description: nat, teid: nat, ipv4: bytes, ipv6: bytes, port: nat)

  function NewOuterHeader(b: OuterHeaderCore): (ie: Ie)
    requires |b.ipv4| == 4 && |b.ipv6| == 16
    ensures Sized(ie)
  {
    hide Bit, BE, Repeat;
    var d := b.description;
    LeafIe(Tlv(84, 2 + OptSize(IsGtpu(d), 4) + OptSize(IsV4(d), 4) + OptSize(IsV6(d), 16) + OptSize(Bit(d, 0x400), 2), 0),
           OuterHeader(d, if IsGtpu(d) then b.teid else 0, if IsV4(d) then b.ipv4 else Repeat(4, 0),
                       if IsV6(d) then b.ipv6 else Repeat(16, 0), if Bit(d, 0x400) then b.port else 0))
  }

  /** `sdf_filter_t`. */
  datatype SdfCore = SdfCore(fd: bool, ttc: bool, spi: bool, fl: bool, bid: bool, fdLength: nat, flow: bytes,
                             tos: bytes, security: bytes, flowLabel: bytes, filterId: nat)

  /** `pfcp_sdf_filter_ie(const sdf_filter_t&)` throws on fields of another size. */
  predicate SdfAccepted(b: SdfCore) {
    (b.ttc ==> |b.tos| == 2) && (b.spi ==> |b.security| == 4) && (b.fl ==> |b.flowLabel| == 3)
  }

  function NewSdf(b: SdfCore): Ie
    requires SdfAccepted(b)
  {
    var flags := FlagBits(b.fd, b.ttc, b.spi, b.fl) + if b.bid then 16 else 0;
    LeafIe(Tlv(23, (2 + OptSize(b.fd, 2 + |b.flow|) + OptSize(b.ttc, 2) + OptSize(b.spi, 4)) % 0x1_0000, 0),
           Sdf(flags, if b.fd then b.fdLength else 0, if b.fd then b.flow else [], if b.ttc then b.tos else [],
               if b.spi then b.security else [], if b.fl then b.flowLabel else [], if b.bid then b.filterId else 0))
  }

  /** The length of a new SDF Filter is right exactly when it has no flow label and no filter identifier. */
  lemma {:induction false} NewSdfSizedIff(b: SdfCore)
    requires SdfAccepted(b) && |b.flow| < 0xff00
    ensures Sized(NewSdf(b)) <==> !b.fl && !b.bid
  {
    hide BE, DecimalText, FlagBits;
    var f := FlagBits(b.fd, b.ttc, b.spi, b.fl);
    SixteenApart(f, b.bid);
    assert DecimalText(b.filterId) != [];
  }

  lemma {:induction false} SixteenApart(f: nat, bid: bool)
    requires f < 16
    ensures var g := f + if bid then 16 else 0;
            (forall w | w in {1, 2, 4, 8} :: Bit(g, w) == Bit(f, w)) && Bit(g, 16) == bid
  {
  }

  /** The constructors of the fixed-width elements. */
  function NewNumber(t: nat, v: nat): (ie: Ie)
    requires KindOf(t).Number? || t == 81
    ensures Sized(ie)
  {
    LeafIe(Tlv(t, Width(t), 0), Num(v))
  }

  /** The constructors of the string elements: the length is the size cut to 16 bits. */
  function NewText(t: nat, text: bytes): (ie: Ie)
    requires KindOf(t).Text?
    ensures Sized(ie) <==> |text| < 0x1_0000
  {
    LeafIe(Tlv(t, |text| % 0x1_0000, 0), Str(text))
  }
}
