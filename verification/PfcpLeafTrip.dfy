/**
 Reading back what was written, for every information element that is not grouped.
 */
module PfcpLeafTrip {
  import opened Wire
  import opened Fqdn
  import opened PfcpLeaf

  /**
   The objects whose printer and parser agree: sizes and presence flags are consistent with the type.
   `UrrIdRoundTripIff` and `NewFteidSizedIff` show what happens to URR IDs and F-TEIDs this leaves out.
   */
  ghost predicate WfLeaf(t: nat, leaf: Leaf) {
    match KindOf(t)
    case Number(w) => leaf.Num? && leaf.v < Pow256(w)
    case UsageRuleId => leaf.Num? && leaf.v < Pow256(4) && LE(4, leaf.v) == BE(4, leaf.v)
    case RatePair => leaf.Rates? && |leaf.ul| == |leaf.dl| == 5
    case Text => leaf.Str? && 0 < |leaf.text| < 0x1_0000
    case Marking => leaf.Str? && |leaf.text| == 2
    case Policied => leaf.Policy? && leaf.idLength == |leaf.id| < 256
    case FTeid => leaf.Fteid? && WfFteid(leaf) && (Bit(leaf.flags, 8) ==> Bit(leaf.flags, 4))
    case FSeid => leaf.Fseid? && leaf.flags < 256 && leaf.seid < Pow256(8) && |leaf.v4| == 4 && |leaf.v6| == 16
    case UeAddress => leaf.UeIp? && leaf.flags < 256 && leaf.prefixBits < 256 && |leaf.v4| == 4 && |leaf.v6| == 16
    case NodeName => leaf.NodeId? && WfNodeId(leaf)
    case OuterHeaderCreation =>
      leaf.OuterHeader? && WfOuterHeader(leaf)
      && (IsGtpu(leaf.description) || IsV4(leaf.description) || IsV6(leaf.description))
    case SdfFilter => leaf.Sdf? && WfSdf(leaf) && !Bit(leaf.flags, 8) && !Bit(leaf.flags, 16)
    case _ => false
  }

  predicate WfFteid(leaf: Leaf)
    requires leaf.Fteid?
  {
    leaf.flags < 256 && leaf.teid < Pow256(4) && leaf.chooseId < 256 && |leaf.v4| == 4 && |leaf.v6| == 16
  }

  predicate WfNodeId(leaf: Leaf)
    requires leaf.NodeId?
  {
    && leaf.flags < 256 && |leaf.v4| == 4 && |leaf.v6| == 16
    && (leaf.flags % 16 == 2 ==> |leaf.fqdn| <= 255 && 0 !in leaf.fqdn && ShortLabels(leaf.fqdn))
  }

  predicate WfOuterHeader(leaf: Leaf)
    requires leaf.OuterHeader?
  {
    && leaf.description < Pow256(2) && leaf.teid < Pow256(4) && leaf.port < Pow256(2)
    && |leaf.v4| == 4 && |leaf.v6| == 16
  }

  predicate WfSdf(leaf: Leaf)
    requires leaf.Sdf?
  {
    && leaf.flags < 256
    && (Bit(leaf.flags, 1) ==> leaf.fdLength == |leaf.fd| < 0xff00)
    && (Bit(leaf.flags, 2) ==> |leaf.ttc| == 2)
    && (Bit(leaf.flags, 4) ==> |leaf.spi| == 4)
  }

  /** The object with every field whose presence flag is clear reset to what the parser's constructor leaves there. */
  function Norm(leaf: Leaf, junk: byte): Leaf {
    match leaf
    case Fteid(flags, teid, v4, v6, chooseId) =>
      var present := TeidPresent(flags);
      Fteid(flags, if present then teid else 0,
            if present && Bit(flags, 1) then v4 else Repeat(4, 0),
            if present && Bit(flags, 2) then v6 else Repeat(16, 0),
            if Bit(flags, 8) then chooseId else 0)
    case Fseid(flags, seid, v4, v6) =>
      Fseid(flags, seid, if Bit(flags, 2) then v4 else Repeat(4, junk), if Bit(flags, 1) then v6 else Repeat(16, junk))
    case UeIp(flags, v4, v6, prefixBits) =>
      UeIp(flags, if Bit(flags, 2) then v4 else Repeat(4, junk), if Bit(flags, 1) then v6 else Repeat(16, junk),
           if Bit(flags, 1) && Bit(flags, 8) then prefixBits else junk)
    case NodeId(flags, v4, v6, fqdn) =>
      NodeId(flags, if flags % 16 == 0 then v4 else Repeat(4, junk), if flags % 16 == 1 then v6 else Repeat(16, junk),
             if flags % 16 == 2 then fqdn else [])
    case OuterHeader(d, teid, v4, v6, port) =>
      OuterHeader(d, if IsGtpu(d) then teid else FromBE(Repeat(4, junk)),
                  if IsV4(d) then v4 else Repeat(4, junk), if IsV6(d) then v6 else Repeat(16, junk),
                  if Bit(d, 0x400) then port else FromBE(Repeat(2, junk)))
    case Sdf(flags, fdLength, fd, ttc, spi, label3, filterId) =>
      Sdf(flags, if Bit(flags, 1) then fdLength else FromBE(Repeat(2, junk)),
          if Bit(flags, 1) then fd else [], if Bit(flags, 2) then ttc else [], if Bit(flags, 4) then spi else [],
          [], FromBE(Repeat(4, junk)))
    case _ => leaf
  }

  // ---------------------------------------------------------------- reading in sequence

  lemma {:induction false} ReadLast(s: Stream, memory: bytes, d: bytes)
    requires s.Valid() && s.At(d) && |memory| == |d|
    ensures Read(s, memory) == (d, s.Skip(|d|))
  {
    assert d + [] == d;
    ReadNext(s, memory, d, []);
  }

  lemma {:induction false} ReadIfLast(c: bool, s: Stream, memory: bytes, d: bytes)
    requires s.Valid() && s.At(Opt(c, d)) && |memory| == |d|
    ensures var r := ReadIf(c, s, memory);
            r.0 == (if c then d else memory) && r.1 == s.Skip(OptSize(c, |d|))
  {
    assert Opt(c, d) + [] == Opt(c, d);
    ReadIfNext(c, s, memory, d, []);
  }

  /** A numeric field of n octets, followed by more. */
  lemma {:induction false} NumberNext(s: Stream, memory: bytes, n: nat, v: nat, rest: bytes)
    requires s.Valid() && s.At(BE(n, v) + rest) && |memory| == n && v < Pow256(n)
    ensures var r := Read(s, memory); FromBE(r.0) == v && r.1 == s.Skip(n) && r.1.At(rest)
  {
    ReadNext(s, memory, BE(n, v), rest);
    BEFits(n, v);
  }

  lemma {:induction false} NumberIfNext(c: bool, s: Stream, memory: bytes, n: nat, v: nat, rest: bytes)
    requires s.Valid() && s.At(Opt(c, BE(n, v)) + rest) && |memory| == n && v < Pow256(n)
    ensures var r := ReadIf(c, s, memory);
            FromBE(r.0) == (if c then v else FromBE(memory)) && r.1 == s.Skip(OptSize(c, n)) && r.1.At(rest)
  {
    ReadIfNext(c, s, memory, BE(n, v), rest);
    BEFits(n, v);
  }

  lemma {:induction false} NumberIfLast(c: bool, s: Stream, memory: bytes, n: nat, v: nat)
    requires s.Valid() && s.At(Opt(c, BE(n, v))) && |memory| == n && v < Pow256(n)
    ensures var r := ReadIf(c, s, memory);
            FromBE(r.0) == (if c then v else FromBE(memory)) && r.1 == s.Skip(OptSize(c, n))
  {
    ReadIfLast(c, s, memory, BE(n, v));
    BEFits(n, v);
  }

  lemma {:induction false} ZeroNumber(n: nat)
    ensures FromBE(Repeat(n, 0)) == 0
  {
    if n > 0 {
      assert Repeat(n, 0)[..n - 1] == Repeat(n - 1, 0);
      ZeroNumber(n - 1);
    }
  }

  lemma {:induction false} OneOctet(b: byte)
    ensures FromBE([b]) == b && BE(1, b) == [b]
  {
    assert [b][..0] == [];
    assert BE(0, b / 256) == [];
  }

  // ---------------------------------------------------------------- one lemma per layout

  /** The object read back from its own octets: what `Read` below establishes for each layout. */
  ghost predicate ReadsBack(t: nat, leaf: Leaf, s: Stream)
    requires s.Valid()
  {
    var n := |Body(t, leaf)|;
    0 < n < 0x1_0000 && Load(t, n, s) == Got(Norm(leaf, s.junk), s.Skip(n))
  }

  lemma {:induction false} NumberReadsBack(t: nat, leaf: Leaf, s: Stream)
    requires WfLeaf(t, leaf) && leaf.Num? && s.Valid() && s.At(Body(t, leaf))
    ensures ReadsBack(t, leaf, s)
  {
    var w := Width(t);
    ReadLast(s, InitialNumber(t, s.junk), Body(t, leaf));
    BEFits(w, leaf.v);
  }

  lemma {:induction false} RatesReadBack(t: nat, leaf: Leaf, s: Stream)
    requires leaf.Rates? && |leaf.ul| == |leaf.dl| == 5
    requires s.Valid() && s.At(Body(t, leaf))
    ensures LoadRates(t, |Body(t, leaf)|, s) == Got(Norm(leaf, s.junk), s.Skip(|Body(t, leaf)|))
  {
    ReadNext(s, Repeat(5, 0), leaf.ul, leaf.dl);
    ReadLast(s.Skip(5), Repeat(5, 0), leaf.dl);
  }

  lemma {:induction false} TextReadsBack(t: nat, leaf: Leaf, s: Stream)
    requires leaf.Str?
    requires s.Valid() && s.At(Body(t, leaf))
    ensures LoadText(|Body(t, leaf)|, s) == Got(Norm(leaf, s.junk), s.Skip(|Body(t, leaf)|))
  {
    ReadLast(s, Repeat(|leaf.text|, s.junk), leaf.text);
  }

  lemma {:induction false} PolicyReadsBack(t: nat, leaf: Leaf, s: Stream)
    requires leaf.Policy? && leaf.idLength == |leaf.id| < 256
    requires s.Valid() && s.At(Body(t, leaf))
    ensures LoadPolicy(t, |Body(t, leaf)|, s) == Got(Norm(leaf, s.junk), s.Skip(|Body(t, leaf)|))
  {
    hide Read, ReadIf, BE, FromBE, Pow256, Bit;
    Pow256Values();
    NumberNext(s, [0], 1, leaf.idLength, leaf.id);
    ReadLast(s.Skip(1), Repeat(leaf.idLength, s.junk), leaf.id);
  }

  lemma {:induction false} FteidReadsBack(t: nat, leaf: Leaf, s: Stream)
    requires leaf.Fteid? && WfFteid(leaf) && (Bit(leaf.flags, 8) ==> Bit(leaf.flags, 4))
    requires s.Valid() && s.At(Body(t, leaf))
    ensures LoadFteid(t, |Body(t, leaf)|, s) == Got(Norm(leaf, s.junk), s.Skip(|Body(t, leaf)|)) && |Body(t, leaf)| < 64
  {
    hide Read, ReadIf, BE, FromBE, Pow256, Bit, FteidFields;
    var Fteid(flags, teid, v4, v6, chooseId) := leaf;
    var present := TeidPresent(flags);
    var b1, b2, b8 := present && Bit(flags, 1), present && Bit(flags, 2), Bit(flags, 8);
    var fields := Opt(present, BE(4, teid)) + (Opt(b1, v4) + (Opt(b2, v6) + Opt(b8, BE(1, chooseId))));
    Pow256Values();
    NumberNext(s, [0], 1, flags, fields);
    FteidFieldsReadBack(flags, present, b1, b2, b8, teid, v4, v6, chooseId, s.Skip(1));
  }

  lemma {:induction false} FteidFieldsReadBack(flags: nat, present: bool, b1: bool, b2: bool, b8: bool,
      teid: nat, v4: bytes, v6: bytes, chooseId: nat, s: Stream)
    requires teid < Pow256(4) && chooseId < 256 && |v4| == 4 && |v6| == 16 && s.Valid()
    requires s.At(Opt(present, BE(4, teid)) + (Opt(b1, v4) + (Opt(b2, v6) + Opt(b8, BE(1, chooseId)))))
    ensures FteidFields(flags, present, b1, b2, b8, s)
         == Got(Fteid(flags, if present then teid else 0, if b1 then v4 else Repeat(4, 0),
                      if b2 then v6 else Repeat(16, 0), if b8 then chooseId else 0),
                s.Skip(OptSize(present, 4) + OptSize(b1, 4) + OptSize(b2, 16) + OptSize(b8, 1)))
  {
    hide Read, ReadIf, BE, FromBE, Pow256, Opt, Repeat;
    Pow256Values();
    ZeroNumber(4);
    OneOctet(0);
    NumberIfNext(present, s, Repeat(4, 0), 4, teid, Opt(b1, v4) + (Opt(b2, v6) + Opt(b8, BE(1, chooseId))));
    var s2 := s.Skip(OptSize(present, 4));
    ReadIfNext(b1, s2, Repeat(4, 0), v4, Opt(b2, v6) + Opt(b8, BE(1, chooseId)));
    var s3 := s2.Skip(OptSize(b1, 4));
    ReadIfNext(b2, s3, Repeat(16, 0), v6, Opt(b8, BE(1, chooseId)));
    NumberIfLast(b8, s3.Skip(OptSize(b2, 16)), [0], 1, chooseId);
  }

  lemma {:induction false} FseidReadsBack(t: nat, leaf: Leaf, s: Stream)
    requires leaf.Fseid? && leaf.flags < 256 && leaf.seid < Pow256(8) && |leaf.v4| == 4 && |leaf.v6| == 16
    requires s.Valid() && s.At(Body(t, leaf))
    ensures LoadFseid(t, |Body(t, leaf)|, s) == Got(Norm(leaf, s.junk), s.Skip(|Body(t, leaf)|)) && |Body(t, leaf)| < 64
  {
    hide Read, ReadIf, BE, FromBE, Pow256, Bit;
    var Fseid(flags, seid, v4, v6) := leaf;
    var e4 := Opt(Bit(flags, 1), v6);
    var e3 := Opt(Bit(flags, 2), v4);
    Pow256Values();
    NumberNext(s, [s.junk], 1, flags, BE(8, seid) + (e3 + e4));
    var s1 := s.Skip(1);
    NumberNext(s1, Repeat(8, s.junk), 8, seid, e3 + e4);
    var s2 := s1.Skip(8);
    ReadIfNext(Bit(flags, 2), s2, Repeat(4, s.junk), v4, e4);
    var s3 := s2.Skip(OptSize(Bit(flags, 2), 4));
    ReadIfLast(Bit(flags, 1), s3, Repeat(16, s.junk), v6);
  }

  lemma {:induction false} UeIpReadsBack(t: nat, leaf: Leaf, s: Stream)
    requires leaf.UeIp? && leaf.flags < 256 && leaf.prefixBits < 256 && |leaf.v4| == 4 && |leaf.v6| == 16
    requires s.Valid() && s.At(Body(t, leaf))
    ensures LoadUeIp(t, |Body(t, leaf)|, s) == Got(Norm(leaf, s.junk), s.Skip(|Body(t, leaf)|)) && |Body(t, leaf)| < 64
  {
    hide Read, ReadIf, BE, FromBE, Pow256, Bit;
    var UeIp(flags, v4, v6, prefixBits) := leaf;
    var delegated := Bit(flags, 1) && Bit(flags, 8);
    var e4 := Opt(delegated, BE(1, prefixBits));
    var e3 := Opt(Bit(flags, 1), v6);
    var e2 := Opt(Bit(flags, 2), v4);
    Pow256Values();
    OneOctet(s.junk);
    NumberNext(s, [s.junk], 1, flags, e2 + (e3 + e4));
    var s1 := s.Skip(1);
    ReadIfNext(Bit(flags, 2), s1, Repeat(4, s.junk), v4, e3 + e4);
    var s2 := s1.Skip(OptSize(Bit(flags, 2), 4));
    ReadIfNext(Bit(flags, 1), s2, Repeat(16, s.junk), v6, e4);
    var s3 := s2.Skip(OptSize(Bit(flags, 1), 16));
    NumberIfLast(delegated, s3, [s.junk], 1, prefixBits);
  }

  lemma {:induction false} NodeIdReadsBack(t: nat, leaf: Leaf, s: Stream)
    requires leaf.NodeId? && WfNodeId(leaf)
    requires s.Valid() && s.At(Body(t, leaf))
    ensures 0 < |Body(t, leaf)| < 0x1_0000 && LoadNodeId(t, |Body(t, leaf)|, s) == Got(Norm(leaf, s.junk), s.Skip(|Body(t, leaf)|))
  {
    hide Read, BE, FromBE, Pow256, Dotted, DottedToStringSpec, ShortLabels;
    var NodeId(flags, v4, v6, fqdn) := leaf;
    var kind := flags % 16;
    var e4 := Opt(kind == 2, Dotted(fqdn));
    var e3 := Opt(kind == 1, v6);
    var e2 := Opt(kind == 0, v4);
    Pow256Values();
    NumberNext(s, [s.junk], 1, flags, e2 + (e3 + e4));
    var s1 := s.Skip(1);
    if kind == 0 {
      assert e2 + (e3 + e4) == v4;
      ReadLast(s1, Repeat(4, s.junk), v4);
    } else if kind == 1 {
      assert e2 + (e3 + e4) == v6;
      ReadLast(s1, Repeat(16, s.junk), v6);
    } else if kind == 2 {
      assert e2 + (e3 + e4) == Dotted(fqdn);
      ReadLast(s1, Repeat(|fqdn| + 1, s.junk), Dotted(fqdn));
      DottedRoundTrip(fqdn);
    }
  }

  lemma {:induction false} OuterHeaderReadsBack(t: nat, leaf: Leaf, s: Stream)
    requires leaf.OuterHeader? && WfOuterHeader(leaf)
    requires IsGtpu(leaf.description) || IsV4(leaf.description) || IsV6(leaf.description)
    requires s.Valid() && s.At(Body(t, leaf))
    ensures LoadOuterHeader(t, |Body(t, leaf)|, s) == Got(Norm(leaf, s.junk), s.Skip(|Body(t, leaf)|))
    ensures |Body(t, leaf)| < 64
  {
    hide Read, ReadIf, BE, FromBE, Pow256, Bit, OuterHeaderFields;
    var OuterHeader(d, teid, v4, v6, port) := leaf;
    var g, b4, b6, bp := IsGtpu(d), IsV4(d), IsV6(d), Bit(d, 0x400);
    NumberNext(s, Repeat(2, s.junk), 2, d, Opt(g, BE(4, teid)) + (Opt(b4, v4) + (Opt(b6, v6) + Opt(bp, BE(2, port)))));
    OuterHeaderFieldsReadBack(d, g, b4, b6, bp, teid, v4, v6, port, s.Skip(2));
  }

  lemma {:induction false} OuterHeaderFieldsReadBack(d: nat, g: bool, b4: bool, b6: bool, bp: bool,
      teid: nat, v4: bytes, v6: bytes, port: nat, s: Stream)
    requires teid < Pow256(4) && port < Pow256(2) && |v4| == 4 && |v6| == 16 && s.Valid()
    requires s.At(Opt(g, BE(4, teid)) + (Opt(b4, v4) + (Opt(b6, v6) + Opt(bp, BE(2, port)))))
    ensures OuterHeaderFields(d, g, b4, b6, bp, s)
         == Got(OuterHeader(d, if g then teid else FromBE(Repeat(4, s.junk)), if b4 then v4 else Repeat(4, s.junk),
                            if b6 then v6 else Repeat(16, s.junk), if bp then port else FromBE(Repeat(2, s.junk))),
                s.Skip(OptSize(g, 4) + OptSize(b4, 4) + OptSize(b6, 16) + OptSize(bp, 2)))
  {
    hide Read, ReadIf, BE, FromBE, Pow256, Opt, Repeat;
    NumberIfNext(g, s, Repeat(4, s.junk), 4, teid, Opt(b4, v4) + (Opt(b6, v6) + Opt(bp, BE(2, port))));
    var s2 := s.Skip(OptSize(g, 4));
    ReadIfNext(b4, s2, Repeat(4, s.junk), v4, Opt(b6, v6) + Opt(bp, BE(2, port)));
    var s3 := s2.Skip(OptSize(b4, 4));
    ReadIfNext(b6, s3, Repeat(16, s.junk), v6, Opt(bp, BE(2, port)));
    NumberIfLast(bp, s3.Skip(OptSize(b6, 16)), Repeat(2, s.junk), 2, port);
  }

  lemma {:induction false} SdfReadsBack(t: nat, leaf: Leaf, s: Stream)
    requires leaf.Sdf? && WfSdf(leaf) && !Bit(leaf.flags, 8) && !Bit(leaf.flags, 16)
    requires s.Valid() && s.At(Body(t, leaf))
    ensures LoadSdf(s) == Got(Norm(leaf, s.junk), s.Skip(|Body(t, leaf)|)) && 0 < |Body(t, leaf)| < 0x1_0000
  {
    hide Read, BE, FromBE, Pow256, Bit, SdfFields, Repeat, DecimalText;
    var Sdf(flags, fdLength, fd, ttc, spi, label3, filterId) := leaf;
    var b1, b2, b4 := Bit(flags, 1), Bit(flags, 2), Bit(flags, 4);
    var fields := Opt(b1, BE(2, fdLength)) + (Opt(b1, fd) + (Opt(b2, ttc) + Opt(b4, spi)));
    assert Opt(b4, spi) + (Opt(false, label3) + Opt(false, DecimalText(filterId))) == Opt(b4, spi);
    Pow256Values();
    NumberNext(s, [s.junk], 1, flags, [0] + fields);
    ReadNext(s.Skip(1), [0], [0], fields);
    SdfFieldsReadBack(flags, b1, b2, b4, fdLength, fd, ttc, spi, s.Skip(2));
  }

  lemma {:induction false} SdfFieldsReadBack(flags: nat, b1: bool, b2: bool, b4: bool,
      fdLength: nat, fd: bytes, ttc: bytes, spi: bytes, s: Stream)
    requires (b1 ==> fdLength == |fd| < 0xff00) && (b2 ==> |ttc| == 2) && (b4 ==> |spi| == 4) && s.Valid()
    requires s.At(Opt(b1, BE(2, fdLength)) + (Opt(b1, fd) + (Opt(b2, ttc) + Opt(b4, spi))))
    ensures SdfFields(flags, b1, b2, b4, false, false, s)
         == Got(Sdf(flags, if b1 then fdLength else FromBE(Repeat(2, s.junk)), if b1 then fd else [],
                    if b2 then ttc else [], if b4 then spi else [], [], FromBE(Repeat(4, s.junk))),
                s.Skip(OptSize(b1, 2) + OptSize(b1, |fd|) + OptSize(b2, 2) + OptSize(b4, 4)))
  {
    hide Read, BE, FromBE, Pow256, Repeat;
    Pow256Values();
    var tail := Opt(b1, fd) + (Opt(b2, ttc) + Opt(b4, spi));
    if b1 {
      NumberNext(s, Repeat(2, s.junk), 2, fdLength, tail);
    } else {
      assert Opt(b1, BE(2, fdLength)) + tail == tail;
    }
    SdfStringsReadBack(b1, b2, b4, fd, ttc, spi, s.Skip(OptSize(b1, 2)));
  }

  lemma {:induction false} SdfStringsReadBack(b1: bool, b2: bool, b4: bool, fd: bytes, ttc: bytes, spi: bytes, s: Stream)
    requires s.Valid() && s.At(Opt(b1, fd) + (Opt(b2, ttc) + Opt(b4, spi)))
    ensures var r1 := ReadString(b1, s, |fd|);
            var r2 := ReadString(b2, r1.1, |ttc|);
            var r3 := ReadString(b4, r2.1, |spi|);
            r1.0 == (if b1 then fd else []) && r2.0 == (if b2 then ttc else []) && r3.0 == (if b4 then spi else [])
            && r3.1 == s.Skip(OptSize(b1, |fd|) + OptSize(b2, |ttc|) + OptSize(b4, |spi|))
  {
    hide ReadString, Opt;
    StringNext(b1, s, fd, Opt(b2, ttc) + Opt(b4, spi));
    var s2 := s.Skip(OptSize(b1, |fd|));
    StringNext(b2, s2, ttc, Opt(b4, spi));
    assert Opt(b4, spi) + [] == Opt(b4, spi);
    StringNext(b4, s2.Skip(OptSize(b2, |ttc|)), spi, []);
  }

  lemma {:induction false} StringNext(c: bool, s: Stream, d: bytes, rest: bytes)
    requires s.Valid() && s.At(Opt(c, d) + rest)
    ensures var r := ReadString(c, s, |d|);
            r.0 == (if c then d else []) && r.1 == s.Skip(OptSize(c, |d|)) && r.1.At(rest)
  {
    if c {
      ReadNext(s, Repeat(|d|, s.junk), d, rest);
    } else {
      assert Opt(c, d) + rest == rest;
    }
  }

  /** Every well-formed object is read back from the octets it wrote, and nothing else is consumed. */
  lemma {:induction false} LeafRoundTrip(t: nat, leaf: Leaf, s: Stream)
    requires WfLeaf(t, leaf) && s.Valid() && s.At(Body(t, leaf))
    ensures ReadsBack(t, leaf, s)
  {
    hide Read, BE, FromBE, Pow256, Bit, LoadFteid, LoadFseid, LoadUeIp, LoadNodeId, LoadOuterHeader, LoadSdf, LoadPolicy, LoadRates, LoadText, Norm;
    match leaf
    case Num(_) => NumberReadsBack(t, leaf, s);
    case Rates(_, _) => RatesReadBack(t, leaf, s);
    case Str(_) => TextReadsBack(t, leaf, s);
    case Policy(_, _) => PolicyReadsBack(t, leaf, s);
    case Fteid(_, _, _, _, _) => FteidReadsBack(t, leaf, s);
    case Fseid(_, _, _, _) => FseidReadsBack(t, leaf, s);
    case UeIp(_, _, _, _) => UeIpReadsBack(t, leaf, s);
    case NodeId(_, _, _, _) => NodeIdReadsBack(t, leaf, s);
    case OuterHeader(_, _, _, _, _) => OuterHeaderReadsBack(t, leaf, s);
    case Sdf(_, _, _, _, _, _, _) => SdfReadsBack(t, leaf, s);
    case Raw(_) =>
  }
}
