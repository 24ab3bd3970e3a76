/**
 Messages survive printing and parsing, and their lengths count what is printed.
 */
module PfcpMessageTrip {
  import opened Wire
  import opened PfcpLeaf
  import opened PfcpLeafTrip
  import opened PfcpTree
  import opened PfcpTreeTrip
  import opened PfcpMessage

  /** A message whose elements are well formed and whose length field says how long it is. */
  ghost predicate WfMsg(m: Msg) {
    && m.h.seid < Pow256(8)
    && WfAll(m.ies)
    && m.h.length == 4 + (if HasSeid(m.h) then 8 else 0) + SizeFrom(m.ies, 0)
  }

  /** The header after a round trip: cleaned, without a SEID that was not sent, its sequence number cut to 24 bits. */
  function NormHeader(h: Header): Header {
    Cleaned(h).(seid := if HasSeid(h) then h.seid else 0, sequence := h.sequence % 0x100_0000)
  }

  function NormMsg(m: Msg, junk: byte): Msg {
    Msg(NormHeader(m.h), NormUpTo(m.ies, |m.ies|, junk))
  }

  lemma {:induction false} HeaderReadsBack(h: Header, h0: Header, s: Stream, rest: bytes)
    requires h.seid < Pow256(8) && s.Valid() && s.At(DumpHeader(h) + rest)
    ensures LoadHeader(h0, s) == (NormHeader(h), s.Skip(|DumpHeader(h)|)) && s.Skip(|DumpHeader(h)|).At(rest)
    ensures |DumpHeader(h)| == 8 + if HasSeid(h) then 8 else 0
  {
    hide Read, BE, FromBE, LE, Pow256, HasPriority, LoadHeaderTail;
    Pow256Values();
    CleanedFlags(h);
    var c := Cleaned(h);
    var d4 := Opt(HasSeid(c), BE(8, c.seid)) + (BE(3, c.sequence) + (BE(1, c.u2) + rest));
    var d3 := BE(2, c.length) + d4;
    var d2 := BE(1, c.messageType) + d3;
    assert DumpHeader(h) + rest == BE(1, c.u1) + d2;
    OneOctet(c.u1);
    OneOctet(c.messageType);
    ReadNext(s, [h0.u1], BE(1, c.u1), d2);
    ReadNext(s.Skip(1), [h0.messageType], BE(1, c.messageType), d3);
    NumberNext(s.Skip(2), LE(2, h0.length), 2, c.length, d4);
    HeaderTailReadsBack(c, h0.(u1 := c.u1, messageType := c.messageType, length := c.length), s.Skip(4), rest);
  }

  lemma {:induction false} HeaderTailReadsBack(c: Header, h0: Header, s: Stream, rest: bytes)
    requires c.seid < Pow256(8) && s.Valid() && h0.u1 == c.u1
    requires s.At(Opt(HasSeid(c), BE(8, c.seid)) + (BE(3, c.sequence) + (BE(1, c.u2) + rest)))
    ensures var end := s.Skip(4 + OptSize(HasSeid(c), 8));
            LoadHeaderTail(h0, s)
            == (h0.(seid := if HasSeid(c) then c.seid else 0, sequence := c.sequence % 0x100_0000, u2 := c.u2), end)
            && end.At(rest)
  {
    hide Read, ReadIf, BE, FromBE, LE, Pow256, Repeat;
    Pow256Values();
    var b := HasSeid(c);
    OneOctet(c.u2);
    NumberIfNext(b, s, LE(8, h0.seid), 8, c.seid, BE(3, c.sequence) + (BE(1, c.u2) + rest));
    var s5 := s.Skip(OptSize(b, 8));
    ReadNext(s5, Repeat(3, s.junk), BE(3, c.sequence), BE(1, c.u2) + rest);
    BERoundTrip(3, c.sequence);
    ReadNext(s5.Skip(3), [h0.u2], BE(1, c.u2), rest);
  }

  /** The do-while loop over the elements of a well-formed message, from the i-th on. */
  lemma {:induction false} IesRoundTrip(ies: seq<Ie>, i: nat, check: u16, s: Stream)
    requires i < |ies| && WfAll(ies) && s.Valid() && s.At(DumpFrom(ies, i)) && check == SizeFrom(ies, 0)
    requires SizeFrom(ies, i) <= check
    ensures LoadIes(check, check - SizeFrom(ies, i), NormUpTo(ies, i, s.junk), s)
         == Counted(NormUpTo(ies, |ies|, s.junk), check, s.Skip(|DumpFrom(ies, i)|))
    decreases |ies| - i
  {
    hide NewIe, DumpIe, NormIe, WfIe;
    var d, rest := DumpIe(ies[i]), DumpFrom(ies, i + 1);
    AtSplit(s, d, rest);
    IeRoundTrip(ies[i], s);
    NormKeepsLength(ies[i], s.junk);
    ModUnique(check - SizeFrom(ies, i) + 4 + ies[i].tlv.length, 0x1_0000, 0, check - SizeFrom(ies, i + 1));
    if i + 1 < |ies| {
      SizePositive(ies, i + 1);
      IesRoundTrip(ies, i + 1, check, s.Skip(|d|));
    }
  }

  lemma {:induction false} SizePositive(ies: seq<Ie>, i: nat)
    requires i < |ies|
    ensures SizeFrom(ies, i) >= 4
  {
  }

  lemma {:induction false} NormKeepsLength(ie: Ie, junk: byte)
    ensures NormIe(ie, junk).tlv == ie.tlv
  {
  }

  /**
   Loading what a well-formed message dumped succeeds, gives the normalised message, and consumes
   exactly the dumped octets. A message without elements has to be the last thing in the stream: the
   parser looks for an element before it compares lengths.
   */
  lemma {:induction false} MessageRoundTrip(m: Msg, h0: Header, s: Stream)
    requires WfMsg(m) && s.Valid() && s.At(DumpMsg(m))
    requires m.ies == [] ==> s.pos + |DumpMsg(m)| == |s.data|
    ensures var r := LoadMsg(Msg(h0, []), s);
            r == (Ok, NormMsg(m, s.junk), s.Skip(|DumpMsg(m)|).(ok := m.ies != []))
  {
    hide LoadHeader, DumpHeader, LoadIes, NewIe, HasPriority, WfIe, SizeFrom, DumpIe;
    HeaderReadsBack(m.h, h0, s, DumpFrom(m.ies, 0));
    CheckIsSize(m);
    AllIesRoundTrip(m.ies, SizeFrom(m.ies, 0), s.Skip(|DumpHeader(m.h)|));
  }

  lemma {:induction false} CheckIsSize(m: Msg)
    requires WfMsg(m)
    ensures SizeFrom(m.ies, 0) < 0x1_0000 && CheckLength(NormHeader(m.h)) == SizeFrom(m.ies, 0)
  {
    hide SizeFrom, HasPriority;
    CleanedFlags(m.h);
    ModUnique(SizeFrom(m.ies, 0), 0x1_0000, 0, SizeFrom(m.ies, 0));
  }

  lemma {:induction false} AllIesRoundTrip(ies: seq<Ie>, check: u16, s: Stream)
    requires WfAll(ies) && s.Valid() && s.At(DumpFrom(ies, 0)) && check == SizeFrom(ies, 0)
    requires ies == [] ==> s.pos == |s.data|
    ensures LoadIes(check, 0, [], s)
         == Counted(NormUpTo(ies, |ies|, s.junk), check, s.Skip(|DumpFrom(ies, 0)|).(ok := ies != []))
  {
    hide NewIe, DumpIe, WfIe;
    if ies == [] {
      NothingThere(s);
    } else {
      IesRoundTrip(ies, 0, check, s);
    }
  }

  /** At the end of the stream the parser gets a null pointer, and the stream fails. */
  lemma {:induction false} NothingThere(s: Stream)
    requires s.Valid() && s.ok && s.pos == |s.data|
    ensures NewIe(s) == Null(s.(ok := false))
  {
    hide KindOf, Load;
    assert s.data[s.pos..] + [0, 0][|s.data| - s.pos..] == [0, 0];
    ZeroTwo();
  }

  /** Two well-formed messages with the same octets are the same message, up to what is never sent. */
  lemma {:induction false} DumpIsInjective(m: Msg, m': Msg, junk: byte)
    requires WfMsg(m) && WfMsg(m') && DumpMsg(m) == DumpMsg(m')
    ensures NormMsg(m, junk) == NormMsg(m', junk)
  {
    hide LoadMsg, NormMsg, WfMsg, DumpMsg;
    var s := Stream(DumpMsg(m), 0, true, junk);
    assert s.At(DumpMsg(m)) by {
      assert s.data[0..|DumpMsg(m)|] == DumpMsg(m);
    }
    MessageRoundTrip(m, m.h, s);
    MessageRoundTrip(m', m.h, s);
  }
}
