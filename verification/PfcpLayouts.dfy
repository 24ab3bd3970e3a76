/**
 The octets of the information elements whose fields come and go with flags, for every combination of the flags:
 what the parser makes of them, what the printer writes, and what a newly constructed element writes.
 */
module PfcpLayouts {
  import opened Wire
  import opened Fqdn
  import opened PfcpLeaf
  import opened PfcpLeafTrip
  import opened PfcpTree
  import opened PfcpLength
  import opened PfcpOctets

  // ---------------------------------------------------------------- F-TEID

  /** F-TEID: V4 is bit 1, V6 bit 2, CH bit 3, CHID bit 4. */
  lemma {:induction false} FteidParsed(v4: bool, v6: bool, ch: bool, chid: bool, high: nat, n: u16,
      teid: bytes, ipv4: bytes, ipv6: bytes, choose: byte, s: Stream)
    requires high < 16 && |teid| == 4 && |ipv4| == 4 && |ipv6| == 16 && n > 0 && s.Valid()
    requires s.At([0, 21, n / 256, n % 256] + ([Flags(v4, v6, ch, chid, high)]
                  + FteidFieldOctets(v4, v6, ch, chid, teid, ipv4, ipv6, choose)))
    ensures NewIe(s) ==
            if n == (if ch then if chid then 2 else 1 else 5 + (if v4 then 4 else 0) + if v6 then 16 else 0) then
              Some(LeafIe(Tlv(21, n, 0),
                          Fteid(Flags(v4, v6, ch, chid, high), if ch then 0 else Value4(teid),
                                if !ch && v4 then ipv4 else Repeat(4, 0),
                                if !ch && v6 then ipv6 else Repeat(16, 0),
                                if ch && chid then choose else 0)),
                   s.Skip(4 + n))
            else Throw(BadLength(21, n), s.Skip(5))
  {
    hide Load, KindOf, Read, FromBE, BE, NewIe, LoadFteid, Flags, Value4, Bit;
    var fields := FteidFieldOctets(v4, v6, ch, chid, teid, ipv4, ipv6, choose);
    LeafTypes(21);
    Layouts(21, n, s.Skip(4));
    Dispatched(21, n, s, [Flags(v4, v6, ch, chid, high)] + fields);
    FteidLoads(v4, v6, ch, chid, high, n, teid, ipv4, ipv6, choose, s.Skip(4));
  }

  /** What follows the flags. */
  function FteidFieldOctets(v4: bool, v6: bool, ch: bool, chid: bool, teid: bytes, ipv4: bytes, ipv6: bytes, choose: byte): bytes
  {
    if ch then if chid then [choose] else []
    else teid + ((if v4 then ipv4 else []) + if v6 then ipv6 else [])
  }

  lemma {:induction false} FteidLoads(v4: bool, v6: bool, ch: bool, chid: bool, high: nat, n: u16,
      teid: bytes, ipv4: bytes, ipv6: bytes, choose: byte, s: Stream)
    requires high < 16 && |teid| == 4 && |ipv4| == 4 && |ipv6| == 16 && n > 0 && s.Valid()
    requires s.At([Flags(v4, v6, ch, chid, high)] + FteidFieldOctets(v4, v6, ch, chid, teid, ipv4, ipv6, choose))
    ensures LoadFteid(21, n, s) ==
            if n == (if ch then if chid then 2 else 1 else 5 + (if v4 then 4 else 0) + if v6 then 16 else 0) then
              Got(Fteid(Flags(v4, v6, ch, chid, high), if ch then 0 else Value4(teid),
                        if !ch && v4 then ipv4 else Repeat(4, 0), if !ch && v6 then ipv6 else Repeat(16, 0),
                        if ch && chid then choose else 0),
                  s.Skip(n))
            else Thrown(BadLength(21, n), s.Skip(1))
  {
    hide Read, FromBE, BE, FteidFields, Flags, Value4, Bit, FteidFieldOctets, Opt;
    var f, fields := Flags(v4, v6, ch, chid, high), FteidFieldOctets(v4, v6, ch, chid, teid, ipv4, ipv6, choose);
    FlagsBits(v4, v6, ch, chid, high);
    Number1([f]);
    Number4(teid);
    ReadNext(s, [0], [f], fields);
    FteidFieldsAre(v4, v6, ch, chid, teid, ipv4, ipv6, choose);
    Pow256Values();
    FteidFieldsReadBack(f, !ch, !ch && v4, !ch && v6, ch && chid, Value4(teid), ipv4, ipv6, choose, s.Skip(1));
  }

  lemma {:induction false} FteidFieldsAre(v4: bool, v6: bool, ch: bool, chid: bool, teid: bytes, ipv4: bytes, ipv6: bytes, choose: byte)
    requires |teid| == 4
    ensures Opt(!ch, BE(4, Value4(teid))) + (Opt(!ch && v4, ipv4) + (Opt(!ch && v6, ipv6) + Opt(ch && chid, BE(1, choose))))
            == FteidFieldOctets(v4, v6, ch, chid, teid, ipv4, ipv6, choose)
  {
    hide BE, Value4;
    Number1([choose]);
    Number4(teid);
  }

  /** What an F-TEID object prints: with CHID but without CH the choose identifier stands behind the addresses, not counted. */
  lemma {:induction false} FteidPrinted(v4: bool, v6: bool, ch: bool, chid: bool, high: nat, stored: nat,
      teid: bytes, ipv4: bytes, ipv6: bytes, choose: byte)
    requires high < 16 && |teid| == 4
    ensures DumpIe(LeafIe(Tlv(21, stored, 0), Fteid(Flags(v4, v6, ch, chid, high), Value4(teid), ipv4, ipv6, choose)))
            == [0, 21, 0, if ch then if chid then 2 else 1 else 5 + (if v4 then 4 else 0) + if v6 then 16 else 0]
               + ([Flags(v4, v6, ch, chid, high)] + (FteidFieldOctets(v4, v6, ch, chid, teid, ipv4, ipv6, choose)
                                                     + if chid && !ch then [choose] else []))
  {
    hide BE, DumpTlv, Value4, Flags, Bit, Body, FteidFieldOctets;
    FlagsBits(v4, v6, ch, chid, high);
    FteidBody(v4, v6, ch, chid, high, teid, ipv4, ipv6, choose);
    HeadPrinted(21, if ch then if chid then 2 else 1 else 5 + (if v4 then 4 else 0) + if v6 then 16 else 0);
  }

  lemma {:induction false} FteidBody(v4: bool, v6: bool, ch: bool, chid: bool, high: nat,
      teid: bytes, ipv4: bytes, ipv6: bytes, choose: byte)
    requires high < 16 && |teid| == 4
    ensures Body(21, Fteid(Flags(v4, v6, ch, chid, high), Value4(teid), ipv4, ipv6, choose))
            == [Flags(v4, v6, ch, chid, high)] + (FteidFieldOctets(v4, v6, ch, chid, teid, ipv4, ipv6, choose)
                                                  + if chid && !ch then [choose] else [])
  {
    hide BE, Value4, Flags, Bit;
    FlagsBits(v4, v6, ch, chid, high);
    Number1([Flags(v4, v6, ch, chid, high)]);
    Number1([choose]);
    Number4(teid);
  }

  /** `pfcp_fteid_ie(const fteid_t&)`, printed. */
  lemma {:induction false} FteidConstructed(b: FteidCore, teid: bytes, junk: byte)
    requires |teid| == 4 && b.teid == Value4(teid) && b.chooseId < 256
    ensures DumpIe(NewFteid(b, junk)) ==
            if b.ch then
              if b.chid then [0, 21, 0, 2] + [4 + 8, b.chooseId] else [0, 21, 0, 1] + [4]
            else
              [0, 21, 0, 5 + (if b.v4 then 4 else 0) + if b.v6 then 16 else 0]
              + ([(if b.v4 then 1 else 0) + (if b.v6 then 2 else 0) + if b.chid then 8 else 0]
                 + (teid + ((if b.v4 then b.ipv4 else []) + (if b.v6 then b.ipv6 else [])) + if b.chid then [junk] else []))
  {
    hide DumpIe, Value4;
    var zero4, zero6 := Repeat(4, 0), Repeat(16, 0);
    FteidPrinted(!b.ch && b.v4, !b.ch && b.v6, b.ch, b.chid, 0, NewFteid(b, junk).tlv.length, teid,
                 if b.ch then zero4 else b.ipv4, if b.ch then zero6 else b.ipv6, if b.ch && b.chid then b.chooseId else junk);
  }

  // ---------------------------------------------------------------- F-SEID

  /** F-SEID: V6 is bit 1 and V4 bit 2, the IPv4 address comes first. */
  lemma {:induction false} FseidParsed(v4: bool, v6: bool, b4: bool, b8: bool, high: nat, n: u16,
      seid: bytes, ipv4: bytes, ipv6: bytes, s: Stream)
    requires high < 16 && |seid| == 8 && |ipv4| == 4 && |ipv6| == 16 && n > 0 && s.Valid()
    requires s.At([0, 57, n / 256, n % 256] + ([Flags(v6, v4, b4, b8, high)]
                  + (seid + ((if v4 then ipv4 else []) + if v6 then ipv6 else []))))
    ensures NewIe(s) ==
            if n == 9 + (if v4 then 4 else 0) + (if v6 then 16 else 0) then
              Some(LeafIe(Tlv(57, n, 0),
                          Fseid(Flags(v6, v4, b4, b8, high), Value8(seid), if v4 then ipv4 else Repeat(4, s.junk),
                                if v6 then ipv6 else Repeat(16, s.junk))),
                   s.Skip(4 + n))
            else Throw(BadLength(57, n), s.Skip(5))
  {
    hide Load, KindOf, NewIe, LoadFseid, Flags, Value8;
    LeafTypes(57);
    Layouts(57, n, s.Skip(4));
    Dispatched(57, n, s, [Flags(v6, v4, b4, b8, high)] + (seid + ((if v4 then ipv4 else []) + if v6 then ipv6 else [])));
    FseidLoads(v4, v6, b4, b8, high, n, seid, ipv4, ipv6, s.Skip(4));
  }

  lemma {:induction false} FseidLoads(v4: bool, v6: bool, b4: bool, b8: bool, high: nat, n: u16,
      seid: bytes, ipv4: bytes, ipv6: bytes, s: Stream)
    requires high < 16 && |seid| == 8 && |ipv4| == 4 && |ipv6| == 16 && n > 0 && s.Valid()
    requires s.At([Flags(v6, v4, b4, b8, high)] + (seid + ((if v4 then ipv4 else []) + if v6 then ipv6 else [])))
    ensures LoadFseid(57, n, s) ==
            if n == 9 + (if v4 then 4 else 0) + (if v6 then 16 else 0) then
              Got(Fseid(Flags(v6, v4, b4, b8, high), Value8(seid), if v4 then ipv4 else Repeat(4, s.junk),
                        if v6 then ipv6 else Repeat(16, s.junk)), s.Skip(n))
            else Thrown(BadLength(57, n), s.Skip(1))
  {
    hide Read, ReadIf, FromBE, Flags, Value8, Bit, Repeat;
    var f, j := Flags(v6, v4, b4, b8, high), s.junk;
    var e4, e6 := if v4 then ipv4 else [], if v6 then ipv6 else [];
    FlagsBits(v6, v4, b4, b8, high);
    Number1([f]);
    Number8(seid);
    ReadNext(s, [j], [f], seid + (e4 + e6));
    ReadNext(s.Skip(1), Repeat(8, j), seid, e4 + e6);
    ReadIfNext(v4, s.Skip(9), Repeat(4, j), ipv4, e6);
    ReadIfLast(v6, s.Skip(9 + OptSize(v4, 4)), Repeat(16, j), ipv6);
  }

  lemma {:induction false} FseidPrinted(v4: bool, v6: bool, b4: bool, b8: bool, high: nat, stored: nat,
      seid: bytes, ipv4: bytes, ipv6: bytes)
    requires high < 16 && |seid| == 8
    ensures DumpIe(LeafIe(Tlv(57, stored, 0), Fseid(Flags(v6, v4, b4, b8, high), Value8(seid), ipv4, ipv6)))
            == [0, 57, 0, 9 + (if v4 then 4 else 0) + if v6 then 16 else 0]
               + ([Flags(v6, v4, b4, b8, high)] + (seid + ((if v4 then ipv4 else []) + if v6 then ipv6 else [])))
  {
    hide BE, DumpTlv, Value8, Flags, Bit;
    FlagsBits(v6, v4, b4, b8, high);
    Number1([Flags(v6, v4, b4, b8, high)]);
    Number8(seid);
    HeadPrinted(57, 9 + (if v4 then 4 else 0) + if v6 then 16 else 0);
  }

  /** `pfcp_f_seid_ie(const fseid_t&)`, printed. */
  lemma {:induction false} FseidConstructed(b: FseidCore, seid: bytes)
    requires |b.ipv4| == 4 && |b.ipv6| == 16 && |seid| == 8 && b.seid == Value8(seid)
    ensures DumpIe(NewFseid(b))
            == [0, 57, 0, 9 + (if b.v4 then 4 else 0) + if b.v6 then 16 else 0]
               + ([(if b.v6 then 1 else 0) + if b.v4 then 2 else 0]
                  + (seid + ((if b.v4 then b.ipv4 else []) + if b.v6 then b.ipv6 else [])))
  {
    hide DumpIe, Value8;
    FseidPrinted(b.v4, b.v6, false, false, 0, NewFseid(b).tlv.length, seid,
                 if b.v4 then b.ipv4 else Repeat(4, 0), if b.v6 then b.ipv6 else Repeat(16, 0));
  }

  // ---------------------------------------------------------------- UE IP Address

  /** UE IP Address: V6 is bit 1, V4 bit 2, IPv6D bit 4, which counts only beside V6. */
  lemma {:induction false} UeIpParsed(v4: bool, v6: bool, sd: bool, ipv6d: bool, high: nat, n: u16,
      ipv4: bytes, ipv6: bytes, prefix: byte, s: Stream)
    requires high < 16 && |ipv4| == 4 && |ipv6| == 16 && n > 0 && s.Valid()
    requires s.At([0, 93, n / 256, n % 256] + ([Flags(v6, v4, sd, ipv6d, high)]
                  + ((if v4 then ipv4 else []) + ((if v6 then ipv6 else []) + if v6 && ipv6d then [prefix] else []))))
    ensures NewIe(s) ==
            if n == 1 + (if v4 then 4 else 0) + (if v6 then if ipv6d then 17 else 16 else 0) then
              Some(LeafIe(Tlv(93, n, 0),
                          UeIp(Flags(v6, v4, sd, ipv6d, high), if v4 then ipv4 else Repeat(4, s.junk),
                               if v6 then ipv6 else Repeat(16, s.junk), if v6 && ipv6d then prefix else s.junk)),
                   s.Skip(4 + n))
            else Throw(BadLength(93, n), s.Skip(5))
  {
    hide Load, KindOf, NewIe, LoadUeIp, Flags;
    var fields := (if v4 then ipv4 else []) + ((if v6 then ipv6 else []) + if v6 && ipv6d then [prefix] else []);
    LeafTypes(93);
    Layouts(93, n, s.Skip(4));
    Dispatched(93, n, s, [Flags(v6, v4, sd, ipv6d, high)] + fields);
    UeIpLoads(v4, v6, sd, ipv6d, high, n, ipv4, ipv6, prefix, s.Skip(4));
  }

  lemma {:induction false} UeIpLoads(v4: bool, v6: bool, sd: bool, ipv6d: bool, high: nat, n: u16,
      ipv4: bytes, ipv6: bytes, prefix: byte, s: Stream)
    requires high < 16 && |ipv4| == 4 && |ipv6| == 16 && n > 0 && s.Valid()
    requires s.At([Flags(v6, v4, sd, ipv6d, high)]
                  + ((if v4 then ipv4 else []) + ((if v6 then ipv6 else []) + if v6 && ipv6d then [prefix] else [])))
    ensures LoadUeIp(93, n, s) ==
            if n == 1 + (if v4 then 4 else 0) + (if v6 then if ipv6d then 17 else 16 else 0) then
              Got(UeIp(Flags(v6, v4, sd, ipv6d, high), if v4 then ipv4 else Repeat(4, s.junk),
                       if v6 then ipv6 else Repeat(16, s.junk), if v6 && ipv6d then prefix else s.junk), s.Skip(n))
            else Thrown(BadLength(93, n), s.Skip(1))
  {
    hide Read, ReadIf, FromBE, Flags, Bit, Repeat;
    var f, j := Flags(v6, v4, sd, ipv6d, high), s.junk;
    var e4, e6, ep := if v4 then ipv4 else [], if v6 then ipv6 else [], if v6 && ipv6d then [prefix] else [];
    FlagsBits(v6, v4, sd, ipv6d, high);
    Number1([f]);
    Number1([prefix]);
    Number1([j]);
    ReadNext(s, [j], [f], e4 + (e6 + ep));
    ReadIfNext(v4, s.Skip(1), Repeat(4, j), ipv4, e6 + ep);
    ReadIfNext(v6, s.Skip(1 + OptSize(v4, 4)), Repeat(16, j), ipv6, ep);
    ReadIfLast(v6 && ipv6d, s.Skip(1 + OptSize(v4, 4) + OptSize(v6, 16)), [j], [prefix]);
  }

  lemma {:induction false} UeIpPrinted(v4: bool, v6: bool, sd: bool, ipv6d: bool, high: nat, stored: nat,
      ipv4: bytes, ipv6: bytes, prefix: byte)
    requires high < 16
    ensures DumpIe(LeafIe(Tlv(93, stored, 0), UeIp(Flags(v6, v4, sd, ipv6d, high), ipv4, ipv6, prefix)))
            == [0, 93, 0, 1 + (if v4 then 4 else 0) + (if v6 then if ipv6d then 17 else 16 else 0)]
               + ([Flags(v6, v4, sd, ipv6d, high)]
                  + ((if v4 then ipv4 else []) + ((if v6 then ipv6 else []) + if v6 && ipv6d then [prefix] else [])))
  {
    hide BE, DumpTlv, Flags, Bit;
    FlagsBits(v6, v4, sd, ipv6d, high);
    Number1([Flags(v6, v4, sd, ipv6d, high)]);
    Number1([prefix]);
    HeadPrinted(93, 1 + (if v4 then 4 else 0) + (if v6 then if ipv6d then 17 else 16 else 0));
  }

  /** `pfcp_ue_ip_address_ie(const ue_ip_address_t&)`, printed. */
  lemma {:induction false} UeIpConstructed(b: UeIpCore)
    requires |b.ipv4| == 4 && |b.ipv6| == 16 && b.prefixBits < 256
    ensures DumpIe(NewUeIp(b))
            == [0, 93, 0, 1 + (if b.v4 then 4 else 0) + (if b.v6 then if b.ipv6d then 17 else 16 else 0)]
               + ([(if b.v6 then 1 else 0) + (if b.v4 then 2 else 0) + (if b.sd then 4 else 0)
                   + if b.v6 && b.ipv6d then 8 else 0]
                  + ((if b.v4 then b.ipv4 else [])
                     + ((if b.v6 then b.ipv6 else []) + if b.v6 && b.ipv6d then [b.prefixBits] else [])))
  {
    hide DumpIe;
    UeIpPrinted(b.v4, b.v6, b.sd, b.v6 && b.ipv6d, 0, NewUeIp(b).tlv.length,
                if b.v4 then b.ipv4 else Repeat(4, 0), if b.v6 then b.ipv6 else Repeat(16, 0),
                if b.v6 && b.ipv6d then b.prefixBits else 0);
  }

  // ---------------------------------------------------------------- Outer Header Creation

  lemma {:induction false} DescriptionBits(o1: byte, o2: byte)
    ensures var d := Value2([o1, o2]);
            && Bit(d, 0x100) == Bit(o1, 1) && Bit(d, 0x200) == Bit(o1, 2)
            && Bit(d, 0x400) == Bit(o1, 4) && Bit(d, 0x800) == Bit(o1, 8)
  {
    var d := Value2([o1, o2]);
    assert d / 0x100 == o1 && d / 0x200 == o1 / 2 && d / 0x400 == o1 / 4 && d / 0x800 == o1 / 8;
  }

  /** The fields of an outer header to create: GTP-U over IPv4, GTP-U over IPv6, UDP over IPv4, UDP over IPv6. */
  function CreationFields(g4: bool, g6: bool, u4: bool, u6: bool, teid: bytes, ipv4: bytes, ipv6: bytes, port: bytes): bytes {
    (if g4 || g6 then teid else []) + ((if g4 || u4 then ipv4 else []) + ((if g6 || u6 then ipv6 else [])
    + if u4 then port else []))
  }

  lemma {:induction false} CreationFieldsAre(g4: bool, g6: bool, u4: bool, u6: bool, teid: bytes, ipv4: bytes, ipv6: bytes,
      port: bytes)
    requires |teid| == 4 && |port| == 2
    ensures Opt(g4 || g6, BE(4, Value4(teid))) + (Opt(g4 || u4, ipv4) + (Opt(g6 || u6, ipv6) + Opt(u4, BE(2, Value2(port)))))
            == CreationFields(g4, g6, u4, u6, teid, ipv4, ipv6, port)
  {
    hide BE, Value4, Value2;
    Number4(teid);
    Number2(port);
  }

  /** The description comes first; its upper octet has one bit for each of the four. Only a length below 4 is refused. */
  lemma {:induction false} CreationParsed(g4: bool, g6: bool, u4: bool, u6: bool, high: nat, low: byte, n: u16,
      teid: bytes, ipv4: bytes, ipv6: bytes, port: bytes, s: Stream)
    requires high < 16 && |teid| == 4 && |ipv4| == 4 && |ipv6| == 16 && |port| == 2 && n > 0 && s.Valid()
    requires s.At([0, 84, n / 256, n % 256] + ([Flags(g4, g6, u4, u6, high), low]
                  + CreationFields(g4, g6, u4, u6, teid, ipv4, ipv6, port)))
    ensures NewIe(s) ==
            if n < 4 then Throw(BadLength(84, n), s.Skip(4))
            else
              Some(LeafIe(Tlv(84, n, 0),
                          OuterHeader(0x100 * (Flags(g4, g6, u4, u6, high) as nat) + low,
                                      if g4 || g6 then Value4(teid) else 0x101_0101 * (s.junk as nat),
                                      if g4 || u4 then ipv4 else Repeat(4, s.junk),
                                      if g6 || u6 then ipv6 else Repeat(16, s.junk),
                                      if u4 then Value2(port) else 0x101 * (s.junk as nat))),
                   s.Skip(6 + (if g4 || g6 then 4 else 0) + (if g4 || u4 then 4 else 0)
                          + (if g6 || u6 then 16 else 0) + if u4 then 2 else 0))
  {
    hide Load, KindOf, NewIe, LoadOuterHeader, Flags, Value4, Value2, CreationFields;
    LeafTypes(84);
    Layouts(84, n, s.Skip(4));
    Dispatched(84, n, s, [Flags(g4, g6, u4, u6, high), low] + CreationFields(g4, g6, u4, u6, teid, ipv4, ipv6, port));
    CreationLoads(g4, g6, u4, u6, high, low, n, teid, ipv4, ipv6, port, s.Skip(4));
  }

  lemma {:induction false} CreationLoads(g4: bool, g6: bool, u4: bool, u6: bool, high: nat, low: byte, n: u16,
      teid: bytes, ipv4: bytes, ipv6: bytes, port: bytes, s: Stream)
    requires high < 16 && |teid| == 4 && |ipv4| == 4 && |ipv6| == 16 && |port| == 2 && n > 0 && s.Valid()
    requires s.At([Flags(g4, g6, u4, u6, high), low] + CreationFields(g4, g6, u4, u6, teid, ipv4, ipv6, port))
    ensures LoadOuterHeader(84, n, s) ==
            if n < 4 then Thrown(BadLength(84, n), s)
            else
              Got(OuterHeader(0x100 * (Flags(g4, g6, u4, u6, high) as nat) + low,
                              if g4 || g6 then Value4(teid) else 0x101_0101 * (s.junk as nat),
                              if g4 || u4 then ipv4 else Repeat(4, s.junk),
                              if g6 || u6 then ipv6 else Repeat(16, s.junk),
                              if u4 then Value2(port) else 0x101 * (s.junk as nat)),
                  s.Skip(2 + OptSize(g4 || g6, 4) + OptSize(g4 || u4, 4) + OptSize(g6 || u6, 16) + OptSize(u4, 2)))
  {
    hide Read, FromBE, BE, Flags, Value4, CreationFields, Bit, OuterHeaderFields, Opt;
    var o1, fields := Flags(g4, g6, u4, u6, high), CreationFields(g4, g6, u4, u6, teid, ipv4, ipv6, port);
    FlagsBits(g4, g6, u4, u6, high);
    DescriptionBits(o1, low);
    Number2([o1, low]);
    Number4(teid);
    MemoryNumbers(s.junk);
    CreationFieldsAre(g4, g6, u4, u6, teid, ipv4, ipv6, port);
    Pow256Values();
    ReadNext(s, Repeat(2, s.junk), [o1, low], fields);
    OuterHeaderFieldsReadBack(Value2([o1, low]), g4 || g6, g4 || u4, g6 || u6, u4, Value4(teid), ipv4, ipv6, Value2(port),
                              s.Skip(2));
  }

  lemma {:induction false} MemoryNumbers(j: byte)
    ensures FromBE(Repeat(4, j)) == 0x101_0101 * (j as nat) && FromBE(Repeat(2, j)) == 0x101 * (j as nat)
  {
    hide FromBE;
    Number2(Repeat(2, j));
    Number4(Repeat(4, j));
  }

  lemma {:induction false} CreationPrinted(g4: bool, g6: bool, u4: bool, u6: bool, high: nat, low: byte, n: u16,
      teid: bytes, ipv4: bytes, ipv6: bytes, port: bytes)
    requires high < 16 && |teid| == 4 && |port| == 2
    ensures DumpIe(LeafIe(Tlv(84, n, 0), OuterHeader(0x100 * (Flags(g4, g6, u4, u6, high) as nat) + low, Value4(teid), ipv4, ipv6,
                                                     Value2(port))))
            == [0, 84, n / 256, n % 256] + ([Flags(g4, g6, u4, u6, high), low]
               + CreationFields(g4, g6, u4, u6, teid, ipv4, ipv6, port))
  {
    hide BE, DumpTlv, Flags, Value4, CreationFields, Bit, Opt;
    var o1 := Flags(g4, g6, u4, u6, high);
    FlagsBits(g4, g6, u4, u6, high);
    DescriptionBits(o1, low);
    Number2([o1, low]);
    CreationFieldsAre(g4, g6, u4, u6, teid, ipv4, ipv6, port);
    HeadPrinted(84, n);
  }

  /** `pfcp_outer_header_creation_ie(const outer_header_creation_t&)`, printed, for every description. */
  lemma {:induction false} CreationConstructed(b: OuterHeaderCore, g4: bool, g6: bool, u4: bool, u6: bool, high: nat, low: byte,
      teid: bytes, port: bytes)
    requires |b.ipv4| == 4 && |b.ipv6| == 16 && high < 16
    requires b.description == 0x100 * (Flags(g4, g6, u4, u6, high) as nat) + low
    requires |teid| == 4 && b.teid == Value4(teid) && |port| == 2 && b.port == Value2(port)
    ensures DumpIe(NewOuterHeader(b))
            == [0, 84, 0, 2 + (if g4 || g6 then 4 else 0) + (if g4 || u4 then 4 else 0) + (if g6 || u6 then 16 else 0)
                          + if u4 then 2 else 0]
               + ([Flags(g4, g6, u4, u6, high), low] + CreationFields(g4, g6, u4, u6, teid, b.ipv4, b.ipv6, port))
  {
    hide DumpIe, Flags, Bit, CreationFields, IsGtpu, IsV4, IsV6;
    CreationKinds(g4, g6, u4, u6, high, low);
    var ie := NewOuterHeader(b);
    var teid', port' := if g4 || g6 then teid else [0, 0, 0, 0], if u4 then port else [0, 0];
    CreationPrinted(g4, g6, u4, u6, high, low, ie.tlv.length, teid', ie.leaf.v4, ie.leaf.v6, port');
    SameFields(g4, g6, u4, u6, teid, b.ipv4, b.ipv6, port, teid', ie.leaf.v4, ie.leaf.v6, port');
  }

  lemma {:induction false} CreationKinds(g4: bool, g6: bool, u4: bool, u6: bool, high: nat, low: byte)
    requires high < 16
    ensures var d := 0x100 * (Flags(g4, g6, u4, u6, high) as nat) + low;
            && IsGtpu(d) == (g4 || g6) && IsV4(d) == (g4 || u4) && IsV6(d) == (g6 || u6) && Bit(d, 0x400) == u4
  {
    hide Flags, Bit;
    FlagsBits(g4, g6, u4, u6, high);
    DescriptionBits(Flags(g4, g6, u4, u6, high), low);
  }

  lemma {:induction false} SameFields(g4: bool, g6: bool, u4: bool, u6: bool, teid: bytes, ipv4: bytes, ipv6: bytes, port: bytes,
      teid': bytes, ipv4': bytes, ipv6': bytes, port': bytes)
    requires g4 || g6 ==> teid == teid'
    requires g4 || u4 ==> ipv4 == ipv4'
    requires g6 || u6 ==> ipv6 == ipv6'
    requires u4 ==> port == port'
    ensures CreationFields(g4, g6, u4, u6, teid, ipv4, ipv6, port) == CreationFields(g4, g6, u4, u6, teid', ipv4', ipv6', port')
  {
  }

  /** The four tunnels by name. */
  lemma {:induction false} FourTunnels(b: OuterHeaderCore, teid: bytes, port: bytes)
    requires |b.ipv4| == 4 && |b.ipv6| == 16
    requires |teid| == 4 && b.teid == Value4(teid) && |port| == 2 && b.port == Value2(port)
    ensures b.description == 0x0100 ==> DumpIe(NewOuterHeader(b)) == [0, 84, 0, 10, 1, 0] + (teid + b.ipv4)
    ensures b.description == 0x0200 ==> DumpIe(NewOuterHeader(b)) == [0, 84, 0, 22, 2, 0] + (teid + b.ipv6)
    ensures b.description == 0x0400 ==> DumpIe(NewOuterHeader(b)) == [0, 84, 0, 8, 4, 0] + (b.ipv4 + port)
    ensures b.description == 0x0800 ==> DumpIe(NewOuterHeader(b)) == [0, 84, 0, 18, 8, 0] + b.ipv6
  {
    hide DumpIe, NewOuterHeader, Value4, Value2;
    var d := b.description;
    if d in {0x0100, 0x0200, 0x0400, 0x0800} {
      CreationConstructed(b, d == 0x0100, d == 0x0200, d == 0x0400, d == 0x0800, 0, 0, teid, port);
    }
  }

  // ---------------------------------------------------------------- Node ID

  /** Node ID: an address or nothing behind the kind, which is the low half of the octet. */
  lemma {:induction false} NodeIdParsed(kind: nat, high: nat, n: u16, ipv4: bytes, ipv6: bytes, s: Stream)
    requires kind < 16 && kind != 2 && high < 16 && |ipv4| == 4 && |ipv6| == 16 && n > 0 && s.Valid()
    requires s.At([0, 60, n / 256, n % 256] + ([16 * high + kind] + if kind == 0 then ipv4 else if kind == 1 then ipv6 else []))
    ensures NewIe(s) ==
            if (kind == 0 && n != 5) || (kind == 1 && n != 17) then Throw(BadLength(60, n), s.Skip(5))
            else
              Some(LeafIe(Tlv(60, n, 0),
                          NodeId(16 * high + kind, if kind == 0 then ipv4 else Repeat(4, s.junk),
                                 if kind == 1 then ipv6 else Repeat(16, s.junk), [])),
                   s.Skip(if kind == 0 then 9 else if kind == 1 then 21 else 5))
  {
    hide Load, KindOf, NewIe, LoadNodeId;
    var fields := if kind == 0 then ipv4 else if kind == 1 then ipv6 else [];
    LeafTypes(60);
    Layouts(60, n, s.Skip(4));
    Dispatched(60, n, s, [16 * high + kind] + fields);
    NodeIdLoads(kind, high, n, ipv4, ipv6, s.Skip(4));
  }

  lemma {:induction false} NodeIdLoads(kind: nat, high: nat, n: u16, ipv4: bytes, ipv6: bytes, s: Stream)
    requires kind < 16 && kind != 2 && high < 16 && |ipv4| == 4 && |ipv6| == 16 && n > 0 && s.Valid()
    requires s.At([16 * high + kind] + if kind == 0 then ipv4 else if kind == 1 then ipv6 else [])
    ensures LoadNodeId(60, n, s) ==
            if (kind == 0 && n != 5) || (kind == 1 && n != 17) then Thrown(BadLength(60, n), s.Skip(1))
            else
              Got(NodeId(16 * high + kind, if kind == 0 then ipv4 else Repeat(4, s.junk),
                         if kind == 1 then ipv6 else Repeat(16, s.junk), []),
                  s.Skip(if kind == 0 then 5 else if kind == 1 then 17 else 1))
  {
    hide Read, FromBE, DottedToStringSpec;
    var fields := if kind == 0 then ipv4 else if kind == 1 then ipv6 else [];
    Number1([16 * high + kind]);
    ReadNext(s, [s.junk], [16 * high + kind], fields);
    if kind == 0 {
      ReadLast(s.Skip(1), Repeat(4, s.junk), ipv4);
    } else if kind == 1 {
      ReadLast(s.Skip(1), Repeat(16, s.junk), ipv6);
    }
  }

  /** Kind 2 is a name: here two labels, the first of which becomes the part of the text in front of the dot. */
  lemma {:induction false} NodeIdNamed(a: bytes, b: bytes, high: nat, s: Stream)
    requires |a| < 64 && |b| < 64 && high < 16 && 46 !in a && 46 !in b && s.Valid()
    ensures var n, text := 3 + |a| + |b|, a + [46] + b;
            var octets := [0, 60, 0, n] + ([16 * high + 2] + ([|a|] + a + ([|b|] + b)));
            && (s.At(octets) ==>
                  NewIe(s) == Some(LeafIe(Tlv(60, n, 0), NodeId(16 * high + 2, Repeat(4, s.junk), Repeat(16, s.junk), text)),
                                   s.Skip(4 + n)))
            && DumpIe(LeafIe(Tlv(60, n, 0), NodeId(16 * high + 2, [], [], text))) == octets
  {
    hide Load, KindOf, NewIe, LoadNodeId, Dotted, DumpTlv, DumpIe;
    var n, text := 3 + |a| + |b|, a + [46] + b;
    TwoLabels(a, b);
    NamePrinted(high, n, text);
    if s.At([0, 60, 0, n] + ([16 * high + 2] + Dotted(text))) {
      LeafTypes(60);
      Layouts(60, n, s.Skip(4));
      Dispatched(60, n, s, [16 * high + 2] + Dotted(text));
      NameLoads(high, text, s.Skip(4));
    }
  }

  lemma {:induction false} NamePrinted(high: nat, n: u16, text: bytes)
    requires high < 16
    ensures DumpIe(LeafIe(Tlv(60, n, 0), NodeId(16 * high + 2, [], [], text)))
            == [0, 60, n / 256, n % 256] + ([16 * high + 2] + Dotted(text))
  {
    hide Dotted, DumpTlv, BE;
    HeadPrinted(60, n);
    Number1([16 * high + 2]);
  }

  lemma {:induction false} TwoLabels(a: bytes, b: bytes)
    requires |a| < 64 && |b| < 64 && 46 !in a && 46 !in b
    ensures Dotted(a + [46] + b) == [|a|] + a + ([|b|] + b) && ShortLabels(a + [46] + b)
  {
    var s := a + [46] + b;
    assert s[|a|] == 46;
    assert forall j :: 0 <= j < |a| ==> s[j] == a[j];
    assert forall j :: |a| + 1 <= j < |s| ==> s[j] == b[j - |a| - 1];
    assert LabelEnd(s, 0) == |a| && LabelEnd(s, |a| + 1) == |s|;
    assert s[0..|a|] == a && s[|a| + 1..] == b;
    assert DottedFrom(s, |a| + 1) == Labelled(b) == [|b|] + b;
    assert Labelled(a) == [|a|] + a;
    assert ShortLabelsFrom(s, |a| + 1);
  }

  lemma {:induction false} NameLoads(high: nat, text: bytes, s: Stream)
    requires high < 16 && |text| < 200 && ShortLabels(text) && s.Valid() && s.At([16 * high + 2] + Dotted(text))
    ensures LoadNodeId(60, |text| + 2, s)
         == Got(NodeId(16 * high + 2, Repeat(4, s.junk), Repeat(16, s.junk), text), s.Skip(|text| + 2))
  {
    hide Read, FromBE, DottedToStringSpec, Dotted, ShortLabels;
    Number1([16 * high + 2]);
    ReadNext(s, [s.junk], [16 * high + 2], Dotted(text));
    ReadLast(s.Skip(1), Repeat(|text| + 1, s.junk), Dotted(text));
    DottedRoundTrip(text);
  }

  /** `pfcp_node_id_ie(const node_id_t&)` with an address, printed. */
  lemma {:induction false} NodeIdConstructed(b: NodeIdCore)
    requires b.kind < 16 && b.kind != 2 && |b.ipv4| == 4 && |b.ipv6| == 16
    ensures DumpIe(NewNodeId(b)) == if b.kind == 0 then [0, 60, 0, 5, 0] + b.ipv4
                                    else if b.kind == 1 then [0, 60, 0, 17, 1] + b.ipv6
                                    else [0, 60, 0, 1, b.kind]
  {
    hide DumpIe;
    var leaf := NewNodeId(b).leaf;
    AddressPrinted(b.kind, 0, NewNodeId(b).tlv.length, leaf.v4, leaf.v6);
  }

  lemma {:induction false} AddressPrinted(kind: nat, high: nat, n: u16, ipv4: bytes, ipv6: bytes)
    requires kind < 16 && kind != 2 && high < 16
    ensures DumpIe(LeafIe(Tlv(60, n, 0), NodeId(16 * high + kind, ipv4, ipv6, [])))
            == [0, 60, n / 256, n % 256] + ([16 * high + kind] + if kind == 0 then ipv4 else if kind == 1 then ipv6 else [])
  {
    hide DumpTlv, Body;
    AddressBody(kind, high, ipv4, ipv6);
    HeadPrinted(60, n);
  }

  lemma {:induction false} AddressBody(kind: nat, high: nat, ipv4: bytes, ipv6: bytes)
    requires kind < 16 && kind != 2 && high < 16
    ensures Body(60, NodeId(16 * high + kind, ipv4, ipv6, []))
            == [16 * high + kind] + if kind == 0 then ipv4 else if kind == 1 then ipv6 else []
  {
    hide BE, Opt, Dotted;
    var f := 16 * high + kind;
    Number1([f]);
    assert f % 16 == kind;
    OneOfThree(kind, ipv4, ipv6, Dotted([]));
  }

  lemma {:induction false} OneOfThree(kind: nat, a: bytes, b: bytes, c: bytes)
    requires kind != 2
    ensures Opt(kind == 0, a) + (Opt(kind == 1, b) + Opt(kind == 2, c)) == if kind == 0 then a else if kind == 1 then b else []
  {
  }

  // ---------------------------------------------------------------- SDF Filter

  /** An octet with five named bits. */
  function SdfFlags(fd: bool, ttc: bool, spi: bool, fl: bool, bid: bool, high: nat): byte
    requires high < 8
  {
    (if fd then 1 else 0) + (if ttc then 2 else 0) + (if spi then 4 else 0) + (if fl then 8 else 0) + (if bid then 16 else 0)
    + 32 * high
  }

  lemma {:induction false} SdfBits(fd: bool, ttc: bool, spi: bool, fl: bool, bid: bool, high: nat)
    requires high < 8
    ensures var f := SdfFlags(fd, ttc, spi, fl, bid, high);
            Bit(f, 1) == fd && Bit(f, 2) == ttc && Bit(f, 4) == spi && Bit(f, 8) == fl && Bit(f, 16) == bid
  {
    hide Bit;
    var h := 2 * high + if bid then 1 else 0;
    FlagsBits(fd, ttc, spi, fl, h);
    assert SdfFlags(fd, ttc, spi, fl, bid, high) == Flags(fd, ttc, spi, fl, h);
    FifthBit(Flags(fd, ttc, spi, fl, 0), high, bid);
  }

  lemma {:induction false} FifthBit(low: nat, high: nat, bid: bool)
    requires low < 16
    ensures Bit(low + 16 * (2 * high + if bid then 1 else 0), 16) == bid
  {
    assert (low + 16 * (2 * high + if bid then 1 else 0)) / 16 == 2 * high + if bid then 1 else 0;
  }

  /** The fields of an SDF Filter behind its flags and a spare octet. */
  function SdfOctets(fd: bool, ttc: bool, spi: bool, fl: bool, bid: bool, flow: bytes, tos: bytes, security: bytes,
      flowLabel: bytes, id: bytes): bytes
    requires |flow| < 0x1_0000
  {
    (if fd then [|flow| / 256, |flow| % 256] + flow else [])
    + ((if ttc then tos else []) + ((if spi then security else []) + ((if fl then flowLabel else []) + if bid then id else [])))
  }

  /** SDF Filter: every field its flags announce is read, the flow label and the identifier too, whatever the length says. */
  lemma {:induction false} SdfParsed(fd: bool, ttc: bool, spi: bool, fl: bool, bid: bool, high: nat, spare: byte, n: u16,
      flow: bytes, tos: bytes, security: bytes, flowLabel: bytes, id: bytes, s: Stream)
    requires high < 8 && |flow| < 0x1_0000 && |tos| == 2 && |security| == 4 && |flowLabel| == 3 && |id| == 4 && n > 0 && s.Valid()
    requires s.At([0, 23, n / 256, n % 256] + ([SdfFlags(fd, ttc, spi, fl, bid, high), spare]
                  + SdfOctets(fd, ttc, spi, fl, bid, flow, tos, security, flowLabel, id)))
    ensures NewIe(s) ==
            Some(LeafIe(Tlv(23, n, 0),
                        Sdf(SdfFlags(fd, ttc, spi, fl, bid, high), if fd then |flow| else 0x101 * (s.junk as nat),
                            if fd then flow else [], if ttc then tos else [], if spi then security else [],
                            if fl then flowLabel else [], if bid then Value4(id) else 0x101_0101 * (s.junk as nat))),
                 s.Skip(6 + (if fd then 2 + |flow| else 0) + (if ttc then 2 else 0) + (if spi then 4 else 0)
                        + (if fl then 3 else 0) + if bid then 4 else 0))
  {
    hide Load, KindOf, NewIe, LoadSdf, Value4, SdfFlags, SdfOctets;
    var f := SdfFlags(fd, ttc, spi, fl, bid, high);
    var fields := SdfOctets(fd, ttc, spi, fl, bid, flow, tos, security, flowLabel, id);
    LeafTypes(23);
    Layouts(23, n, s.Skip(4));
    Dispatched(23, n, s, [f, spare] + fields);
    SdfLoads(fd, ttc, spi, fl, bid, high, spare, flow, tos, security, flowLabel, id, s.Skip(4));
  }

  lemma {:induction false} SdfLoads(fd: bool, ttc: bool, spi: bool, fl: bool, bid: bool, high: nat, spare: byte,
      flow: bytes, tos: bytes, security: bytes, flowLabel: bytes, id: bytes, s: Stream)
    requires high < 8 && |flow| < 0x1_0000 && |tos| == 2 && |security| == 4 && |flowLabel| == 3 && |id| == 4 && s.Valid()
    requires s.At([SdfFlags(fd, ttc, spi, fl, bid, high), spare]
                  + SdfOctets(fd, ttc, spi, fl, bid, flow, tos, security, flowLabel, id))
    ensures LoadSdf(s) ==
            Got(Sdf(SdfFlags(fd, ttc, spi, fl, bid, high), if fd then |flow| else 0x101 * (s.junk as nat),
                    if fd then flow else [], if ttc then tos else [], if spi then security else [],
                    if fl then flowLabel else [], if bid then Value4(id) else 0x101_0101 * (s.junk as nat)),
                s.Skip(2 + OptSize(fd, 2 + |flow|) + OptSize(ttc, 2) + OptSize(spi, 4) + OptSize(fl, 3) + OptSize(bid, 4)))
  {
    hide Read, FromBE, SdfFlags, SdfOctets, Bit, SdfFields, Value4;
    var f := SdfFlags(fd, ttc, spi, fl, bid, high);
    var fields := SdfOctets(fd, ttc, spi, fl, bid, flow, tos, security, flowLabel, id);
    SdfBits(fd, ttc, spi, fl, bid, high);
    Number1([f]);
    assert [f, spare] + fields == [f] + ([spare] + fields);
    ReadNext(s, [s.junk], [f], [spare] + fields);
    ReadNext(s.Skip(1), [0], [spare], fields);
    SdfFieldsRead(f, fd, ttc, spi, fl, bid, flow, tos, security, flowLabel, id, s.Skip(2));
  }

  lemma {:induction false} SdfFieldsRead(f: byte, fd: bool, ttc: bool, spi: bool, fl: bool, bid: bool,
      flow: bytes, tos: bytes, security: bytes, flowLabel: bytes, id: bytes, s: Stream)
    requires |flow| < 0x1_0000 && |tos| == 2 && |security| == 4 && |flowLabel| == 3 && |id| == 4 && s.Valid()
    requires s.At(SdfOctets(fd, ttc, spi, fl, bid, flow, tos, security, flowLabel, id))
    ensures SdfFields(f, fd, ttc, spi, fl, bid, s) ==
            Got(Sdf(f, if fd then |flow| else 0x101 * (s.junk as nat),
                    if fd then flow else [], if ttc then tos else [], if spi then security else [],
                    if fl then flowLabel else [], if bid then Value4(id) else 0x101_0101 * (s.junk as nat)),
                s.Skip(OptSize(fd, 2 + |flow|) + OptSize(ttc, 2) + OptSize(spi, 4) + OptSize(fl, 3) + OptSize(bid, 4)))
  {
    hide Read, ReadIf, FromBE, Value4, ReadString, Repeat;
    var e1, e2 := if bid then id else [], if fl then flowLabel else [];
    var e3, e4 := if spi then security else [], if ttc then tos else [];
    MemoryNumbers(s.junk);
    FlowRead(fd, flow, s, e4 + (e3 + (e2 + e1)));
    SdfTailRead(ttc, spi, fl, bid, tos, security, flowLabel, id, s.Skip(OptSize(fd, 2 + |flow|)));
  }

  lemma {:induction false} SdfTailRead(ttc: bool, spi: bool, fl: bool, bid: bool,
      tos: bytes, security: bytes, flowLabel: bytes, id: bytes, s: Stream)
    requires |tos| == 2 && |security| == 4 && |flowLabel| == 3 && |id| == 4 && s.Valid()
    requires s.At((if ttc then tos else []) + ((if spi then security else []) + ((if fl then flowLabel else []) + if bid then id else [])))
    ensures var r1 := ReadString(ttc, s, 2);
            var r2 := ReadString(spi, r1.1, 4);
            var r3 := ReadString(fl, r2.1, 3);
            var r4 := ReadIf(bid, r3.1, Repeat(4, s.junk));
            && r1.0 == (if ttc then tos else []) && r2.0 == (if spi then security else [])
            && r3.0 == (if fl then flowLabel else [])
            && FromBE(r4.0) == (if bid then Value4(id) else FromBE(Repeat(4, s.junk)))
            && r4.1 == s.Skip(OptSize(ttc, 2) + OptSize(spi, 4) + OptSize(fl, 3) + OptSize(bid, 4))
  {
    hide Read, ReadIf, FromBE, Value4, ReadString, Repeat;
    var e1, e2, e3 := if bid then id else [], if fl then flowLabel else [], if spi then security else [];
    Number4(id);
    StringNext(ttc, s, tos, e3 + (e2 + e1));
    var s4 := s.Skip(OptSize(ttc, 2));
    StringNext(spi, s4, security, e2 + e1);
    var s5 := s4.Skip(OptSize(spi, 4));
    StringNext(fl, s5, flowLabel, e1);
    ReadIfLast(bid, s5.Skip(OptSize(fl, 3)), Repeat(4, s.junk), id);
  }

  lemma {:induction false} FlowRead(fd: bool, flow: bytes, s: Stream, rest: bytes)
    requires |flow| < 0x1_0000 && s.Valid() && s.At((if fd then [|flow| / 256, |flow| % 256] + flow else []) + rest)
    ensures var n := ReadIf(fd, s, Repeat(2, s.junk));
            var r := ReadString(fd, n.1, FromBE(n.0));
            && FromBE(n.0) == (if fd then |flow| else FromBE(Repeat(2, s.junk)))
            && r.0 == (if fd then flow else []) && r.1 == s.Skip(OptSize(fd, 2 + |flow|)) && r.1.At(rest)
  {
    hide Read, FromBE, Repeat;
    if fd {
      var size := [|flow| / 256, |flow| % 256];
      assert size + flow + rest == size + (flow + rest);
      Number2(size);
      ReadNext(s, Repeat(2, s.junk), size, flow + rest);
      ReadNext(s.Skip(2), Repeat(|flow|, s.junk), flow, rest);
    } else {
      assert [] + rest == rest;
    }
  }

  /** What it prints: the same, but the identifier in decimal digits. */
  lemma {:induction false} SdfPrinted(fd: bool, ttc: bool, spi: bool, fl: bool, bid: bool, high: nat, n: u16,
      flow: bytes, tos: bytes, security: bytes, flowLabel: bytes, id: nat)
    requires high < 8 && |flow| < 0x1_0000
    ensures DumpIe(LeafIe(Tlv(23, n, 0), Sdf(SdfFlags(fd, ttc, spi, fl, bid, high), |flow|, flow, tos, security, flowLabel, id)))
            == [0, 23, n / 256, n % 256] + ([SdfFlags(fd, ttc, spi, fl, bid, high), 0]
               + SdfOctets(fd, ttc, spi, fl, bid, flow, tos, security, flowLabel, DecimalText(id)))
  {
    hide DumpTlv, BE, SdfFlags, SdfOctets, Opt, Bit, DecimalText;
    var f := SdfFlags(fd, ttc, spi, fl, bid, high);
    SdfBits(fd, ttc, spi, fl, bid, high);
    Number1([f]);
    HeadPrinted(23, n);
    SdfOctetsAre(fd, ttc, spi, fl, bid, flow, tos, security, flowLabel, DecimalText(id));
    var fields := SdfOctets(fd, ttc, spi, fl, bid, flow, tos, security, flowLabel, DecimalText(id));
    assert [f] + ([0] + fields) == [f, 0] + fields;
  }

  lemma {:induction false} SdfOctetsAre(fd: bool, ttc: bool, spi: bool, fl: bool, bid: bool,
      flow: bytes, tos: bytes, security: bytes, flowLabel: bytes, id: bytes)
    requires |flow| < 0x1_0000
    ensures Opt(fd, BE(2, |flow|)) + (Opt(fd, flow) + (Opt(ttc, tos) + (Opt(spi, security) + (Opt(fl, flowLabel) + Opt(bid, id)))))
            == SdfOctets(fd, ttc, spi, fl, bid, flow, tos, security, flowLabel, id)
  {
    hide BE;
    Number2([|flow| / 256, |flow| % 256]);
    var rest := Opt(ttc, tos) + (Opt(spi, security) + (Opt(fl, flowLabel) + Opt(bid, id)));
    Assoc(Opt(fd, BE(2, |flow|)), Opt(fd, flow), rest);
  }

  /** `pfcp_sdf_filter_ie(const sdf_filter_t&)`, printed: its length counts neither flow label nor identifier. */
  lemma {:induction false} SdfConstructed(b: SdfCore)
    requires SdfAccepted(b) && |b.flow| < 0xff00 && b.fdLength == |b.flow|
    ensures var n := 2 + (if b.fd then 2 + |b.flow| else 0) + (if b.ttc then 2 else 0) + (if b.spi then 4 else 0);
            var f := (if b.fd then 1 else 0) + (if b.ttc then 2 else 0) + (if b.spi then 4 else 0) + (if b.fl then 8 else 0)
                     + (if b.bid then 16 else 0);
            DumpIe(NewSdf(b)) == [0, 23, n / 256, n % 256]
              + ([f, 0] + SdfOctets(b.fd, b.ttc, b.spi, b.fl, b.bid, b.flow, b.tos, b.security, b.flowLabel, DecimalText(b.filterId)))
  {
    hide DumpIe, DecimalText, SdfOctets;
    var leaf := NewSdf(b).leaf;
    SdfPrinted(b.fd, b.ttc, b.spi, b.fl, b.bid, 0, NewSdf(b).tlv.length, leaf.fd, leaf.ttc, leaf.spi, leaf.label3, leaf.filterId);
    SameSdf(b, leaf);
  }

  lemma {:induction false} SameSdf(b: SdfCore, leaf: Leaf)
    requires SdfAccepted(b) && |b.flow| < 0xff00 && leaf == NewSdf(b).leaf
    ensures SdfOctets(b.fd, b.ttc, b.spi, b.fl, b.bid, leaf.fd, leaf.ttc, leaf.spi, leaf.label3, DecimalText(leaf.filterId))
            == SdfOctets(b.fd, b.ttc, b.spi, b.fl, b.bid, b.flow, b.tos, b.security, b.flowLabel, DecimalText(b.filterId))
  {
    hide DecimalText;
  }

  /** The number a string of decimal digits stands for. */
  function DecimalValue(d: bytes): int {
    if d == [] then 0 else 10 * DecimalValue(d[..|d| - 1]) + d[|d| - 1] - 48
  }

  /** The decimal text of a number consists of digits and stands for the number; only zero begins with a zero. */
  lemma {:induction false} DecimalDigits(v: nat)
    ensures DecimalValue(DecimalText(v)) == v
    ensures forall i :: 0 <= i < |DecimalText(v)| ==> 48 <= DecimalText(v)[i] <= 57
    ensures v > 0 ==> DecimalText(v)[0] != 48
  {
    if v >= 10 {
      DecimalDigits(v / 10);
      assert DecimalText(v)[..|DecimalText(v)| - 1] == DecimalText(v / 10);
    } else {
      assert DecimalText(v)[..0] == [];
    }
  }

  // ---------------------------------------------------------------- elements that are only consumed

  /** QER Correlation ID: a length of one, and four octets. */
  lemma {:induction false} CorrelationOctets(n: u16, d: bytes, s: Stream)
    requires n > 0 && |d| == 4 && s.Valid() && s.At([0, 28, n / 256, n % 256] + d)
    ensures NewIe(s) == if n == 1 then Some(LeafIe(Tlv(28, 1, 0), Raw(d)), s.Skip(8)) else Throw(BadLength(28, n), s.Skip(4))
  {
    hide Read, Load, KindOf, NewIe;
    LeafTypes(28);
    Layouts(28, n, s.Skip(4));
    Dispatched(28, n, s, d);
    ReadLast(s.Skip(4), Repeat(4, 0), d);
    assert KindOf(28) == Correlation by {
      OtherKinds();
    }
  }

  lemma {:induction false} OtherKinds()
    ensures KindOf(28) == Correlation && KindOf(31) == Volumes && KindOf(34) == Volumes
    ensures KindOf(114) == FailedRule && KindOf(116) == IpResource && KindOf(141) == UserId
  {
  }

  /** The volume thresholds: three counters of eight octets, chosen by whatever memory holds. */
  lemma {:induction false} VolumesOctets(t: u16, n: u16, b1: bool, b2: bool, b4: bool, b8: bool, high: nat,
      total: bytes, uplink: bytes, downlink: bytes, s: Stream)
    requires t in {31, 34} && n > 0 && high < 16 && |total| == |uplink| == |downlink| == 8 && s.Valid()
    requires s.junk == Flags(b1, b2, b4, b8, high)
    requires s.At([0, t, n / 256, n % 256]
                  + ((if b1 then total else []) + ((if b2 then uplink else []) + if b4 then downlink else [])))
    ensures NewIe(s) == Some(LeafIe(Tlv(t, n, 0), Raw((if b1 then total else Repeat(8, s.junk))
                                                      + (if b2 then uplink else Repeat(8, s.junk))
                                                      + if b4 then downlink else Repeat(8, s.junk))),
                             s.Skip(4 + (if b1 then 8 else 0) + (if b2 then 8 else 0) + if b4 then 8 else 0))
  {
    hide Load, KindOf, NewIe, LoadOther, Flags, Repeat;
    LeafTypes(t);
    Layouts(t, n, s.Skip(4));
    Dispatched(t, n, s, (if b1 then total else []) + ((if b2 then uplink else []) + if b4 then downlink else []));
    VolumesLoad(t, n, b1, b2, b4, b8, high, total, uplink, downlink, s.Skip(4));
  }

  lemma {:induction false} VolumesLoad(t: u16, n: u16, b1: bool, b2: bool, b4: bool, b8: bool, high: nat,
      total: bytes, uplink: bytes, downlink: bytes, s: Stream)
    requires t in {31, 34} && n > 0 && high < 16 && |total| == |uplink| == |downlink| == 8 && s.Valid()
    requires s.junk == Flags(b1, b2, b4, b8, high)
    requires s.At((if b1 then total else []) + ((if b2 then uplink else []) + if b4 then downlink else []))
    ensures LoadOther(t, n, s) == Got(Raw((if b1 then total else Repeat(8, s.junk)) + (if b2 then uplink else Repeat(8, s.junk))
                                          + if b4 then downlink else Repeat(8, s.junk)),
                                      s.Skip((if b1 then 8 else 0) + (if b2 then 8 else 0) + if b4 then 8 else 0))
  {
    OtherKinds();
    hide Read, ReadIf, KindOf, Bit, Flags, Repeat;
    var e2, e4 := if b2 then uplink else [], if b4 then downlink else [];
    var memory := Repeat(8, s.junk);
    FlagsBits(b1, b2, b4, b8, high);
    ReadIfNext(b1, s, memory, total, e2 + e4);
    ReadIfNext(b2, s.Skip(OptSize(b1, 8)), memory, uplink, e4);
    ReadIfLast(b4, s.Skip(OptSize(b1, 8) + OptSize(b2, 8)), memory, downlink);
  }

  /** Failed Rule ID: a length of one; rule 4 has one octet more, the others are exceptions of two kinds. */
  lemma {:induction false} FailedRuleOctets(n: u16, rule: nat, high: nat, d: byte, s: Stream)
    requires n > 0 && rule < 32 && high < 8 && s.Valid() && s.At([0, 114, n / 256, n % 256] + ([32 * high + rule] + [d]))
    ensures NewIe(s) == if n != 1 then Throw(BadLength(114, n), s.Skip(4))
                        else if rule == 4 then Some(LeafIe(Tlv(114, 1, 0), Raw([32 * high + rule] + [d])), s.Skip(6))
                        else if rule < 4 then Throw(BadLength(114, 1), s.Skip(5))
                        else Throw(BadValue(114), s.Skip(5))
  {
    hide Load, KindOf, NewIe, LoadOther;
    LeafTypes(114);
    Layouts(114, n, s.Skip(4));
    Dispatched(114, n, s, [32 * high + rule] + [d]);
    FailedRuleLoads(n, rule, high, d, s.Skip(4));
  }

  lemma {:induction false} FailedRuleLoads(n: u16, rule: nat, high: nat, d: byte, s: Stream)
    requires n > 0 && rule < 32 && high < 8 && s.Valid() && s.At([32 * high + rule] + [d])
    ensures LoadOther(114, n, s) == if n != 1 then Thrown(BadLength(114, n), s)
                                    else if rule == 4 then Got(Raw([32 * high + rule] + [d]), s.Skip(2))
                                    else if rule < 4 then Thrown(BadLength(114, 1), s.Skip(1))
                                    else Thrown(BadValue(114), s.Skip(1))
  {
    OtherKinds();
    hide Read, KindOf;
    ReadNext(s, [0], [32 * high + rule], [d]);
    ReadLast(s.Skip(1), [s.junk], [d]);
  }

  /** User Plane IP Resource Information: V4 and V6 are bits 1 and 2, ASSONI and ASSOSI bits 6 and 7. */
  lemma {:induction false} IpResourceOctets(n: u16, b1: bool, b2: bool, mid: nat, b32: bool, b64: bool, b128: bool, range: byte,
      v4: bytes, v6: bytes, instance: bytes, source: byte, s: Stream)
    requires mid < 8 && n > 0 && |v4| == 4 && |v6| == 16 && |instance| == 2 && s.Valid()
    requires s.At([0, 116, n / 256, n % 256] + ResourceOctets(b1, b2, mid, b32, b64, b128, range, v4, v6, instance, source))
    ensures NewIe(s) == Some(LeafIe(Tlv(116, n, 0),
                                    Raw([ResourceFlags(b1, b2, mid, b32, b64, b128)] + [range] + (if b1 then v4 else Repeat(4, 0))
                                        + (if b2 then v6 else Repeat(16, 0)) + (if b32 then instance else Repeat(2, 0))
                                        + if b64 then [source] else [0])),
                             s.Skip(6 + OptSize(b1, 4) + OptSize(b2, 16) + OptSize(b32, 2) + OptSize(b64, 1)))
  {
    hide Load, KindOf, NewIe, LoadOther, ResourceOctets, ResourceFlags;
    LeafTypes(116);
    Layouts(116, n, s.Skip(4));
    Dispatched(116, n, s, ResourceOctets(b1, b2, mid, b32, b64, b128, range, v4, v6, instance, source));
    IpResourceLoads(n, b1, b2, mid, b32, b64, b128, range, v4, v6, instance, source, s.Skip(4));
  }

  function ResourceFlags(b1: bool, b2: bool, mid: nat, b32: bool, b64: bool, b128: bool): byte
    requires mid < 8
  {
    (if b1 then 1 else 0) + (if b2 then 2 else 0) + 4 * mid + (if b32 then 32 else 0) + (if b64 then 64 else 0)
    + if b128 then 128 else 0
  }

  lemma {:induction false} ResourceBits(b1: bool, b2: bool, mid: nat, b32: bool, b64: bool, b128: bool)
    requires mid < 8
    ensures var f := ResourceFlags(b1, b2, mid, b32, b64, b128);
            Bit(f, 1) == b1 && Bit(f, 2) == b2 && Bit(f, 32) == b32 && Bit(f, 64) == b64
  {
    ResourceWeights(if b1 then 1 else 0, if b2 then 1 else 0, mid, if b32 then 1 else 0, if b64 then 1 else 0,
                    if b128 then 1 else 0);
  }

  lemma {:induction false} ResourceWeights(i1: nat, i2: nat, mid: nat, i32: nat, i64: nat, i128: nat)
    requires i1 <= 1 && i2 <= 1 && mid < 8 && i32 <= 1 && i64 <= 1 && i128 <= 1
    ensures var f := i1 + 2 * i2 + 4 * mid + 32 * i32 + 64 * i64 + 128 * i128;
            f % 2 == i1 && f / 2 % 2 == i2 && f / 32 % 2 == i32 && f / 64 % 2 == i64
  {
    var f := i1 + 2 * i2 + 4 * mid + 32 * i32 + 64 * i64 + 128 * i128;
    assert f / 2 == i2 + 2 * (mid + 8 * i32 + 16 * i64 + 32 * i128);
    assert f / 32 == i32 + 2 * (i64 + 2 * i128);
    assert f / 64 == i64 + 2 * i128;
  }

  function ResourceOctets(b1: bool, b2: bool, mid: nat, b32: bool, b64: bool, b128: bool, range: byte,
      v4: bytes, v6: bytes, instance: bytes, source: byte): bytes
    requires mid < 8
  {
    [ResourceFlags(b1, b2, mid, b32, b64, b128)] + ([range] + ((if b1 then v4 else []) + ((if b2 then v6 else [])
    + ((if b32 then instance else []) + if b64 then [source] else []))))
  }

  lemma {:induction false} IpResourceLoads(n: u16, b1: bool, b2: bool, mid: nat, b32: bool, b64: bool, b128: bool, range: byte,
      v4: bytes, v6: bytes, instance: bytes, source: byte, s: Stream)
    requires mid < 8 && n > 0 && |v4| == 4 && |v6| == 16 && |instance| == 2 && s.Valid()
    requires s.At(ResourceOctets(b1, b2, mid, b32, b64, b128, range, v4, v6, instance, source))
    ensures LoadOther(116, n, s)
         == Got(Raw([ResourceFlags(b1, b2, mid, b32, b64, b128)] + [range] + (if b1 then v4 else Repeat(4, 0))
                    + (if b2 then v6 else Repeat(16, 0)) + (if b32 then instance else Repeat(2, 0)) + if b64 then [source] else [0]),
                s.Skip(2 + OptSize(b1, 4) + OptSize(b2, 16) + OptSize(b32, 2) + OptSize(b64, 1)))
  {
    OtherKinds();
    hide Read, ReadIf, KindOf, Bit, ResourceFlags, Repeat;
    var f := ResourceFlags(b1, b2, mid, b32, b64, b128);
    var e1, e2, e3 := if b64 then [source] else [], if b32 then instance else [], if b2 then v6 else [];
    var e4 := if b1 then v4 else [];
    ResourceBits(b1, b2, mid, b32, b64, b128);
    ReadNext(s, [0], [f], [range] + (e4 + (e3 + (e2 + e1))));
    ReadNext(s.Skip(1), [0], [range], e4 + (e3 + (e2 + e1)));
    ResourceFieldsRead(b1, b2, b32, b64, v4, v6, instance, source, s.Skip(2));
  }

  lemma {:induction false} ResourceFieldsRead(b1: bool, b2: bool, b32: bool, b64: bool,
      v4: bytes, v6: bytes, instance: bytes, source: byte, s: Stream)
    requires |v4| == 4 && |v6| == 16 && |instance| == 2 && s.Valid()
    requires s.At((if b1 then v4 else []) + ((if b2 then v6 else []) + ((if b32 then instance else []) + if b64 then [source] else [])))
    ensures var r1 := ReadIf(b1, s, Repeat(4, 0));
            var r2 := ReadIf(b2, r1.1, Repeat(16, 0));
            var r3 := ReadIf(b32, r2.1, Repeat(2, 0));
            var r4 := ReadIf(b64, r3.1, [0]);
            && r1.0 == (if b1 then v4 else Repeat(4, 0)) && r2.0 == (if b2 then v6 else Repeat(16, 0))
            && r3.0 == (if b32 then instance else Repeat(2, 0)) && r4.0 == (if b64 then [source] else [0])
            && r4.1 == s.Skip(OptSize(b1, 4) + OptSize(b2, 16) + OptSize(b32, 2) + OptSize(b64, 1))
  {
    hide Read, ReadIf, Repeat;
    var e1, e2, e3 := if b64 then [source] else [], if b32 then instance else [], if b2 then v6 else [];
    ReadIfNext(b1, s, Repeat(4, 0), v4, e3 + (e2 + e1));
    var s3 := s.Skip(OptSize(b1, 4));
    ReadIfNext(b2, s3, Repeat(16, 0), v6, e2 + e1);
    var s4 := s3.Skip(OptSize(b2, 16));
    ReadIfNext(b32, s4, Repeat(2, 0), instance, e1);
    ReadIfLast(b64, s4.Skip(OptSize(b32, 2)), [0], [source]);
  }

  /** User ID: a length of one, and behind the flags a length octet and that many octets for each of four fields. */
  lemma {:induction false} UserIdOctets(n: u16, b1: bool, b2: bool, b4: bool, b8: bool, high: nat,
      imsi: bytes, imei: bytes, msisdn: bytes, nai: bytes, s: Stream)
    requires high < 16 && n > 0 && |imsi| < 256 && |imei| < 256 && |msisdn| < 256 && |nai| < 256 && s.Valid()
    requires s.At([0, 141, n / 256, n % 256] + ([Flags(b1, b2, b4, b8, high)] + (Counted(b1, imsi) + (Counted(b2, imei)
                  + (Counted(b4, msisdn) + Counted(b8, nai))))))
    ensures NewIe(s) == if n != 1 then Throw(BadLength(141, n), s.Skip(4))
                        else
                          var octets := [Flags(b1, b2, b4, b8, high)] + Counted(b1, imsi) + Counted(b2, imei)
                                        + Counted(b4, msisdn) + Counted(b8, nai);
                          Some(LeafIe(Tlv(141, 1, 0), Raw(octets)), s.Skip(4 + |octets|))
  {
    hide Load, KindOf, NewIe, LoadOther, Flags, Counted;
    LeafTypes(141);
    Layouts(141, n, s.Skip(4));
    Dispatched(141, n, s, [Flags(b1, b2, b4, b8, high)] + (Counted(b1, imsi) + (Counted(b2, imei)
               + (Counted(b4, msisdn) + Counted(b8, nai)))));
    UserIdLoads(n, b1, b2, b4, b8, high, imsi, imei, msisdn, nai, s.Skip(4));
  }

  function Counted(c: bool, d: bytes): bytes
    requires |d| < 256
  {
    if c then [|d|] + d else []
  }

  lemma {:induction false} UserIdLoads(n: u16, b1: bool, b2: bool, b4: bool, b8: bool, high: nat,
      imsi: bytes, imei: bytes, msisdn: bytes, nai: bytes, s: Stream)
    requires high < 16 && n > 0 && |imsi| < 256 && |imei| < 256 && |msisdn| < 256 && |nai| < 256 && s.Valid()
    requires s.At([Flags(b1, b2, b4, b8, high)] + (Counted(b1, imsi) + (Counted(b2, imei)
                  + (Counted(b4, msisdn) + Counted(b8, nai)))))
    ensures LoadOther(141, n, s) == if n != 1 then Thrown(BadLength(141, n), s)
                                    else
                                      var octets := [Flags(b1, b2, b4, b8, high)] + Counted(b1, imsi) + Counted(b2, imei)
                                                    + Counted(b4, msisdn) + Counted(b8, nai);
                                      Got(Raw(octets), s.Skip(|octets|))
  {
    OtherKinds();
    hide Read, ReadCounted, KindOf, Bit, Flags, Counted;
    var f := Flags(b1, b2, b4, b8, high);
    var e1, e2, e3 := Counted(b8, nai), Counted(b4, msisdn), Counted(b2, imei);
    var e4 := Counted(b1, imsi);
    FlagsBits(b1, b2, b4, b8, high);
    ReadNext(s, [s.junk], [f], e4 + (e3 + (e2 + e1)));
    CountedNext(b1, imsi, s.Skip(1), e3 + (e2 + e1));
    var s3 := s.Skip(1 + |e4|);
    CountedNext(b2, imei, s3, e2 + e1);
    var s4 := s3.Skip(|e3|);
    CountedNext(b4, msisdn, s4, e1);
    assert e1 + [] == e1;
    CountedNext(b8, nai, s4.Skip(|e2|), []);
  }

  lemma {:induction false} CountedNext(c: bool, d: bytes, s: Stream, rest: bytes)
    requires |d| < 256 && s.Valid() && s.At(Counted(c, d) + rest)
    ensures ReadCounted(c, s) == (Counted(c, d), s.Skip(|Counted(c, d)|)) && s.Skip(|Counted(c, d)|).Valid()
    ensures s.Skip(|Counted(c, d)|).At(rest)
  {
    hide Read;
    if c {
      assert [|d|] + d + rest == [|d|] + (d + rest);
      ReadNext(s, [s.junk], [|d|], d + rest);
      ReadNext(s.Skip(1), Repeat(|d|, s.junk), d, rest);
    } else {
      assert [] + rest == rest;
    }
  }
}