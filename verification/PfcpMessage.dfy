/**
 Messages: a bit-packed header (section 7.2.2 of 3GPP TS 29.244) and a list of information elements.
 */
module PfcpMessage {
  import opened Wire
  import opened PfcpLeaf
  import opened PfcpTree
  import opened PfcpTreeTrip

  /** `u1` packs the flags S (1) and MP (2), three spare bits and the version; `u2` the message priority above four spare bits. */
  datatype Header = Header(u1: byte, messageType: byte, length: u16, seid: nat, sequence: u32, u2: byte)

  datatype Msg = Msg(h: Header, ies: seq<Ie>)

  predicate HasSeid(h: Header) {
    h.u1 % 2 == 1
  }

  predicate HasPriority(h: Header) {
    (h.u1 / 2) % 2 == 1
  }

  /** What `dump_to` does to the header before writing it: spare bits and an absent priority are cleared. */
  function Cleaned(h: Header): Header {
    h.(u1 := h.u1 % 4 + h.u1 / 32 * 32, u2 := if HasPriority(h) then h.u2 / 16 * 16 else 0)
  }

  function DumpHeader(h: Header): bytes {
    var c := Cleaned(h);
    BE(1, c.u1) + (BE(1, c.messageType) + (BE(2, c.length) + (Opt(HasSeid(h), BE(8, c.seid))
    + (BE(3, c.sequence) + BE(1, c.u2)))))
  }

  function DumpMsg(m: Msg): bytes {
    DumpHeader(m.h) + DumpFrom(m.ies, 0)
  }

  // ---------------------------------------------------------------- parser

  /** `pfcp_msg_header::load_from` over a header that holds h. */
  function LoadHeader(h: Header, s: Stream): (r: (Header, Stream))
    requires s.Valid()
    ensures r.1.Valid() && r.1.Left() <= s.Left() && r.1.Same(s)
  {
    var u1 := Read(s, [h.u1]);
    var messageType := Read(u1.1, [h.messageType]);
    var length := Read(messageType.1, LE(2, h.length));
    FromBEBound(length.0);
    Pow256Values();
    LoadHeaderTail(h.(u1 := u1.0[0], messageType := messageType.0[0], length := FromBE(length.0)), length.1)
  }

  /** The part of the header after its length. */
  function LoadHeaderTail(h: Header, s: Stream): (r: (Header, Stream))
    requires s.Valid()
    ensures r.1.Valid() && r.1.Left() <= s.Left() && r.1.Same(s)
  {
    var seid := ReadIf(HasSeid(h), s, LE(8, h.seid));
    var sn := Read(seid.1, Repeat(3, s.junk));
    var u2 := Read(sn.1, [h.u2]);
    FromBEBound(sn.0);
    Pow256Values();
    (h.(seid := if HasSeid(h) then FromBE(seid.0) else 0, sequence := FromBE(sn.0), u2 := u2.0[0]), u2.1)
  }

  /** How the loop over the elements ends: normally with what it counted, with an exception, or not at all. */
  datatype IesLoaded =
    | Counted(ies: seq<Ie>, size: u16, s: Stream)
    | IesThrew(e: Error, ies: seq<Ie>, s: Stream)
    | IesHang

  /** The do-while loop of `pfcp_msg::load_from`. The 16-bit count may wrap. */
  function LoadIes(check: u16, size: u16, ies: seq<Ie>, s: Stream): (r: IesLoaded)
    requires s.Valid()
    ensures r != IesHang ==> r.s.Valid()
    decreases s.Left()
  {
    match NewIe(s)
    case Some(ie, s1) =>
      var size' := (size + 4 + ie.tlv.length) % 0x1_0000;
      if size' < check then LoadIes(check, size', ies + [ie], s1) else Counted(ies + [ie], size', s1)
    case Null(s1) => Counted(ies, size, s1)
    case Throw(e, s1) => IesThrew(e, ies, s1)
    case Hang => IesHang
  }

  /** How `pfcp_msg::load_from` ends. */
  datatype Outcome = Ok | MsgBadLength(size: u16, check: u16) | Failed(e: Error) | NoReturn

  /** The 16-bit length the elements should have, by the header. */
  function CheckLength(h: Header): u16 {
    (h.length - 4 - if HasSeid(h) then 8 else 0) % 0x1_0000
  }

  /** The outcome, the message object and the stream afterwards (the latter two if the call ends). */
  function LoadMsg(m: Msg, s: Stream): (r: (Outcome, Msg, Stream))
    requires s.Valid()
    ensures r.2.Valid()
  {
    var (h, s1) := LoadHeader(m.h, s);
    match LoadIes(CheckLength(h), 0, m.ies, s1)
    case Counted(ies, size, s2) =>
      (if size == CheckLength(h) then Ok else MsgBadLength(size, CheckLength(h)), Msg(h, ies), s2)
    case IesThrew(e, ies, s2) => (Failed(e), Msg(h, ies), s2)
    case IesHang => (NoReturn, Msg(h, m.ies), s1)
  }

  // ---------------------------------------------------------------- the object

  /** `pfcp_msg`. */
  class PfcpMsg {
    var u1: byte
    var messageType: byte
    var messageLength: u16
    var seid: nat
    var sequenceNumber: u32
    var u2: byte
    var ies: seq<Ie>

    function View(): Msg
      reads this
    {
      Msg(Header(u1, messageType, messageLength, seid, sequenceNumber, u2), ies)
    }

    constructor ()
      ensures View() == Msg(Header(32, 0, 4, 0, 0, 0), [])
      ensures LengthKept(View())
    {
      u1, messageType, messageLength, seid, sequenceNumber, u2, ies := 32, 0, 4, 0, 0, 0, [];
    }

    method SetSeid(v: nat)
      modifies this
      ensures seid == v && HasSeid(View().h) && ies == old(ies)
      ensures unchanged(`messageType) && unchanged(`sequenceNumber) && unchanged(`u2)
      ensures HasPriority(View().h) == old(HasPriority(View().h)) && u1 / 4 == old(u1) / 4
      ensures LengthKept(old(View())) ==> LengthKept(View())
    {
      seid := v;
      if u1 % 2 == 0 {
        u1 := u1 + 1;
        messageLength := (messageLength + 8) % 0x1_0000;
      }
    }

    method SetSequenceNumber(v: u32)
      modifies this
      ensures View() == Msg(old(View().h).(sequence := v % 0x100_0000), old(ies))
    {
      sequenceNumber := v % 0x100_0000;
    }

    method AddIe(ie: Ie)
      modifies this
      ensures View() == Msg(old(View().h).(length := (old(messageLength) + 4 + ie.tlv.length) % 0x1_0000), old(ies) + [ie])
      ensures LengthKept(old(View())) ==> LengthKept(View())
    {
      AddedSize(ies, ie, 0);
      ies := ies + [ie];
      messageLength := (messageLength + 4 + ie.tlv.length) % 0x1_0000;
    }

    /** Printing a message. False stands for the exception of an element's printer. */
    method DumpTo(output: OutStream) returns (ok: bool)
      requires AllPrintable(ies)
      modifies this, output
      ensures View() == Msg(Cleaned(old(View().h)), old(ies))
      ensures output.written == old(output.written) + DumpHeader(old(View().h)) + PrintedFrom(ies, 0).0
      ensures ok == PrintedFrom(ies, 0).1
      ensures ok ==> output.written == old(output.written) + DumpMsg(old(View()))
    {
      ghost var m, before := View(), output.written;
      DumpHeaderTo(output);
      ok := DumpAllTo(ies, output);
      PrintsAllIff(m.ies, 0);
      Assoc(before, DumpHeader(m.h), DumpFrom(m.ies, 0));
    }

    method DumpHeaderTo(output: OutStream)
      modifies this, output
      ensures output.written == old(output.written) + DumpHeader(old(View().h))
      ensures View() == Msg(Cleaned(old(View().h)), old(ies))
    {
      hide BE;
      CleanedFlags(View().h);
      ghost var m, before := View(), output.written;
      u1 := u1 % 4 + u1 / 32 * 32;
      u2 := u2 / 16 * 16;
      output.Put(BE(1, u1));
      output.Put(BE(1, messageType));
      output.Put(BE(2, messageLength));
      if u1 % 2 == 1 {
        output.Put(BE(8, seid));
      }
      var sn2 := sequenceNumber % 256;
      var sn1 := sequenceNumber / 256 % 256;
      var sn0 := sequenceNumber / 256 / 256 % 256;
      output.Put([sn0, sn1, sn2]);
      if (u1 / 2) % 2 == 0 {
        u2 := 0;
      }
      output.Put(BE(1, u2));
      ThreeOctets(sequenceNumber);
      assert output.written == before + DumpHeader(m.h);
    }

    method LoadFrom(input: InStream) returns (r: Outcome)
      requires input.st.Valid()
      modifies this, input
      ensures r == LoadMsg(old(View()), old(input.st)).0
      ensures r != NoReturn ==>
                View() == LoadMsg(old(View()), old(input.st)).1 && input.st == LoadMsg(old(View()), old(input.st)).2
    {
      hide NewIe, Read, LE, FromBE;
      ghost var m, s := View(), input.st;
      LoadHeaderFrom(input);
      var check := CheckLength(View().h);
      var iesLength: u16 := 0;
      ghost var h, s1 := View().h, input.st;
      while true
        invariant input.st.Valid() && View().h == h
        invariant LoadIes(check, iesLength, ies, input.st) == LoadIes(check, 0, m.ies, s1)
        decreases input.st.Left()
      {
        var p := NewIeFromStream(input);
        match p
        case Some(ie, _) =>
          iesLength := (iesLength + 4 + ie.tlv.length) % 0x1_0000;
          ies := ies + [ie];
          if iesLength >= check {
            break;
          }
        case Null(_) => break;
        case Throw(e, _) => return Failed(e);
        case Hang => return NoReturn;
      }
      if iesLength != check {
        return MsgBadLength(iesLength, check);
      }
      return Ok;
    }

    method LoadHeaderFrom(input: InStream)
      requires input.st.Valid()
      modifies this, input
      ensures (View().h, input.st) == LoadHeader(old(View().h), old(input.st)) && ies == old(ies) && input.st.Valid()
    {
      hide Read, LE, FromBE;
      ghost var junk := input.st.junk;
      var b := input.Get([u1]);
      u1 := b[0];
      b := input.Get([messageType]);
      messageType := b[0];
      b := input.Get(LE(2, messageLength));
      FromBEBound(b);
      Pow256Values();
      messageLength := FromBE(b);
      if u1 % 2 == 1 {
        b := input.Get(LE(8, seid));
        seid := FromBE(b);
      } else {
        seid := 0;
      }
      var sn := input.Get(Repeat(3, input.st.junk));
      FromBEBound(sn);
      sequenceNumber := FromBE(sn);
      b := input.Get([u2]);
      u2 := b[0];
    }
  }

  lemma {:induction false} ThreeOctets(v: nat)
    ensures BE(3, v) == [v / 256 / 256 % 256, v / 256 % 256, v % 256]
  {
    assert BE(1, v / 256 / 256) == [v / 256 / 256 % 256] by {
      assert BE(0, v / 256 / 256 / 256) == [];
    }
    assert BE(2, v / 256) == BE(1, v / 256 / 256) + [v / 256 % 256];
  }

  lemma {:induction false} CleanedFlags(h: Header)
    ensures HasSeid(Cleaned(h)) == HasSeid(h) && HasPriority(Cleaned(h)) == HasPriority(h)
    ensures Cleaned(Cleaned(h)) == Cleaned(h)
  {
    LowBits(h.u1 / 32, h.u1 % 4);
    var u1 := Cleaned(h).u1;
    assert h.u1 % 4 % 2 == h.u1 % 2 && h.u1 % 4 / 2 == (h.u1 / 2) % 2;
  }

  lemma {:induction false} LowBits(q: nat, r: nat)
    requires r < 4
    ensures var u := r + q * 32; u % 2 == r % 2 && (u / 2) % 2 == r / 2 && u % 4 == r && u / 32 == q
  {
    var u := r + q * 32;
    ModUnique(u, 32, q, r);
    ModUnique(u, 4, 8 * q, r);
    ModUnique(u, 2, 16 * q + r / 2, r % 2);
    ModUnique(u / 2, 2, 8 * q, r / 2);
  }

  // ---------------------------------------------------------------- lengths

  /** The header's length counts the header after its first four octets and every element, modulo 2^16. */
  predicate LengthKept(m: Msg) {
    m.h.length == (4 + (if HasSeid(m.h) then 8 else 0) + SizeFrom(m.ies, 0)) % 0x1_0000
  }

  lemma {:induction false} AddedSize(ies: seq<Ie>, ie: Ie, i: nat)
    requires i <= |ies|
    ensures SizeFrom(ies + [ie], i) == SizeFrom(ies, i) + 4 + ie.tlv.length
    decreases |ies| - i
  {
    if i < |ies| {
      AddedSize(ies, ie, i + 1);
    } else {
      assert SizeFrom(ies + [ie], i + 1) == 0;
    }
  }
}
