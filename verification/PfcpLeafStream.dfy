/**
 `dump_to` and `load_from` of the information elements that are not grouped, as they work: field after
 field on a stream object.
 */
module PfcpLeafStream {
  import opened Wire
  import opened Fqdn
  import opened PfcpLeaf

  /** The stream is where the loading left it. */
  ghost predicate Leaves(r: Loaded, s: Stream) {
    !r.Stuck? ==> r.s == s
  }

  /** A field that is read when a flag is set; otherwise its memory stays. */
  method GetIf(c: bool, input: InStream, memory: bytes) returns (r: bytes)
    requires input.st.Valid()
    modifies input
    ensures (r, input.st) == ReadIf(c, old(input.st), memory) && input.st.Valid()
  {
    r := memory;
    if c {
      r := input.Get(memory);
    }
  }

  method PutIf(c: bool, output: OutStream, d: bytes)
    modifies output
    ensures output.written == old(output.written) + Opt(c, d)
  {
    if c {
      output.Put(d);
    }
  }

  // ---------------------------------------------------------------- F-TEID, F-SEID, UE IP Address

  method LoadFteidFrom(t: nat, length: nat, input: InStream) returns (r: Loaded)
    requires input.st.Valid()
    modifies input
    ensures r == LoadFteid(t, length, old(input.st)) && input.st.Valid() && Leaves(r, input.st)
  {
    hide FromBE, Bit, Read, ReadIf;
    var u := input.Get([0]);
    var flags := FromBE(u);
    var check;
    if TeidPresent(flags) {
      check := 5 + OptSize(Bit(flags, 1), 4) + OptSize(Bit(flags, 2), 16);
    } else {
      check := 1 + OptSize(Bit(flags, 8), 1);
    }
    if length != check {
      return Thrown(BadLength(t, length), input.st);
    }
    var present := TeidPresent(flags);
    var teid := GetIf(present, input, Repeat(4, 0));
    var v4 := GetIf(present && Bit(flags, 1), input, Repeat(4, 0));
    var v6 := GetIf(present && Bit(flags, 2), input, Repeat(16, 0));
    var choose := GetIf(!present && Bit(flags, 8), input, [0]);
    r := Got(Fteid(flags, FromBE(teid), v4, v6, FromBE(choose)), input.st);
  }

  method LoadFseidFrom(t: nat, length: nat, input: InStream) returns (r: Loaded)
    requires input.st.Valid()
    modifies input
    ensures r == LoadFseid(t, length, old(input.st)) && input.st.Valid() && Leaves(r, input.st)
  {
    hide FromBE, Bit, Read, ReadIf;
    var junk := input.st.junk;
    var u := input.Get([junk]);
    var flags := FromBE(u);
    if length != 9 + OptSize(Bit(flags, 2), 4) + OptSize(Bit(flags, 1), 16) {
      return Thrown(BadLength(t, length), input.st);
    }
    var seid := input.Get(Repeat(8, junk));
    var v4 := GetIf(Bit(flags, 2), input, Repeat(4, junk));
    var v6 := GetIf(Bit(flags, 1), input, Repeat(16, junk));
    r := Got(Fseid(flags, FromBE(seid), v4, v6), input.st);
  }

  method LoadUeIpFrom(t: nat, length: nat, input: InStream) returns (r: Loaded)
    requires input.st.Valid()
    modifies input
    ensures r == LoadUeIp(t, length, old(input.st)) && input.st.Valid() && Leaves(r, input.st)
  {
    hide FromBE, Bit, Read, ReadIf;
    var junk := input.st.junk;
    var u := input.Get([junk]);
    var flags := FromBE(u);
    var delegated := Bit(flags, 1) && Bit(flags, 8);
    if length != 1 + OptSize(Bit(flags, 2), 4) + OptSize(Bit(flags, 1), 16) + OptSize(delegated, 1) {
      return Thrown(BadLength(t, length), input.st);
    }
    var v4 := GetIf(Bit(flags, 2), input, Repeat(4, junk));
    var v6 := GetIf(Bit(flags, 1), input, Repeat(16, junk));
    var prefix := GetIf(delegated, input, [junk]);
    r := Got(UeIp(flags, v4, v6, FromBE(prefix)), input.st);
  }

  // ---------------------------------------------------------------- Node ID, Outer Header Creation

  /** A name whose decoder does not return is answered with `Stuck`. */
  method LoadNodeIdFrom(t: nat, length: nat, input: InStream) returns (r: Loaded)
    requires input.st.Valid() && 0 < length < 0x1_0000
    modifies input
    ensures r == LoadNodeId(t, length, old(input.st)) && input.st.Valid() && Leaves(r, input.st)
  {
    hide FromBE, Read, DottedToStringSpec;
    var junk := input.st.junk;
    var u := input.Get([junk]);
    var flags := FromBE(u);
    var v4, v6 := Repeat(4, junk), Repeat(16, junk);
    var check := length - 1;
    if flags % 16 == 0 {
      if check != 4 {
        return Thrown(BadLength(t, length), input.st);
      }
      v4 := input.Get(v4);
      r := Got(NodeId(flags, v4, v6, []), input.st);
    } else if flags % 16 == 1 {
      if check != 16 {
        return Thrown(BadLength(t, length), input.st);
      }
      v6 := input.Get(v6);
      r := Got(NodeId(flags, v4, v6, []), input.st);
    } else if flags % 16 == 2 {
      if check == 0 {
        return Thrown(BadLength(t, length), input.st);
      }
      var name := input.Get(Repeat(check, junk));
      if DottedToStringSpec(name) == Hang {
        return Stuck;
      }
      var decoded := DottedToString(name);
      match decoded
      case Done(_, fqdn) => r := Got(NodeId(flags, v4, v6, fqdn), input.st);
      case LengthError => r := Thrown(NameTooLong, input.st);
    } else {
      r := Got(NodeId(flags, v4, v6, []), input.st);
    }
  }

  method LoadOuterHeaderFrom(t: nat, length: nat, input: InStream) returns (r: Loaded)
    requires input.st.Valid()
    modifies input
    ensures r == LoadOuterHeader(t, length, old(input.st)) && input.st.Valid() && Leaves(r, input.st)
  {
    hide FromBE, Bit, Read, ReadIf;
    if length < 4 {
      return Thrown(BadLength(t, length), input.st);
    }
    var junk := input.st.junk;
    var u := input.Get(Repeat(2, junk));
    var d := FromBE(u);
    var teid := GetIf(IsGtpu(d), input, Repeat(4, junk));
    var v4 := GetIf(IsV4(d), input, Repeat(4, junk));
    var v6 := GetIf(IsV6(d), input, Repeat(16, junk));
    var port := GetIf(Bit(d, 0x400), input, Repeat(2, junk));
    r := Got(OuterHeader(d, FromBE(teid), v4, v6, FromBE(port)), input.st);
  }

  // ---------------------------------------------------------------- numbers, rates, strings

  method LoadNumberFrom(t: nat, length: nat, input: InStream) returns (r: Loaded)
    requires input.st.Valid()
    modifies input
    ensures r == LoadNumber(t, length, old(input.st)) && input.st.Valid() && Leaves(r, input.st)
  {
    hide FromBE, Read, Width, InitialNumber;
    if length != Width(t) {
      return Thrown(BadLength(t, length), input.st);
    }
    var d := input.Get(InitialNumber(t, input.st.junk));
    r := Got(Num(FromBE(d)), input.st);
  }

  method LoadRatesFrom(t: nat, length: nat, input: InStream) returns (r: Loaded)
    requires input.st.Valid()
    modifies input
    ensures r == LoadRates(t, length, old(input.st)) && input.st.Valid() && Leaves(r, input.st)
  {
    hide Read;
    if length != 10 {
      return Thrown(BadLength(t, length), input.st);
    }
    var ul := input.Get(Repeat(5, 0));
    var dl := input.Get(Repeat(5, 0));
    r := Got(Rates(ul, dl), input.st);
  }

  method LoadTextFrom(length: nat, input: InStream) returns (r: Loaded)
    requires input.st.Valid()
    modifies input
    ensures r == LoadText(length, old(input.st)) && input.st.Valid() && Leaves(r, input.st)
  {
    hide Read;
    var text := input.Get(Repeat(length, input.st.junk));
    r := Got(Str(text), input.st);
  }

  method LoadPolicyFrom(t: nat, length: nat, input: InStream) returns (r: Loaded)
    requires input.st.Valid()
    modifies input
    ensures r == LoadPolicy(t, length, old(input.st)) && input.st.Valid() && Leaves(r, input.st)
  {
    hide FromBE, Read;
    var n := input.Get([0]);
    var idLength := FromBE(n);
    if length != 1 + idLength {
      return Thrown(BadLength(t, length), input.st);
    }
    var id := input.Get(Repeat(idLength, input.st.junk));
    r := Got(Policy(idLength, id), input.st);
  }

  /** A string read through an uninitialised buffer, when a flag is set. */
  method GetString(c: bool, input: InStream, n: nat) returns (r: bytes)
    requires input.st.Valid()
    modifies input
    ensures (r, input.st) == ReadString(c, old(input.st), n) && input.st.Valid()
  {
    r := [];
    if c {
      r := input.Get(Repeat(n, input.st.junk));
    }
  }

  method LoadSdfFrom(input: InStream) returns (r: Loaded)
    requires input.st.Valid()
    modifies input
    ensures r == LoadSdf(old(input.st)) && input.st.Valid() && Leaves(r, input.st)
  {
    hide FromBE, Bit, Read, ReadIf, ReadString;
    var junk := input.st.junk;
    var u := input.Get([junk]);
    var flags := FromBE(u);
    var spare := input.Get([0]);
    var n := GetIf(Bit(flags, 1), input, Repeat(2, junk));
    var fdLength := FromBE(n);
    var fd := GetString(Bit(flags, 1), input, fdLength);
    var ttc := GetString(Bit(flags, 2), input, 2);
    var spi := GetString(Bit(flags, 4), input, 4);
    var label3 := GetString(Bit(flags, 8), input, 3);
    var id := GetIf(Bit(flags, 16), input, Repeat(4, junk));
    r := Got(Sdf(flags, fdLength, fd, ttc, spi, label3, FromBE(id)), input.st);
  }

  // ---------------------------------------------------------------- elements whose printer writes something else

  method LoadCorrelationFrom(t: nat, length: nat, input: InStream) returns (r: Loaded)
    requires input.st.Valid() && length > 0 && KindOf(t) == Correlation
    modifies input
    ensures r == LoadOther(t, length, old(input.st)) && input.st.Valid() && Leaves(r, input.st)
  {
    hide Read, KindOf;
    if length != 1 {
      return Thrown(BadLength(t, length), input.st);
    }
    var d := input.Get(Repeat(4, 0));
    r := Got(Raw(d), input.st);
  }

  /** The flags are never read: they are what the memory held. */
  method LoadVolumesFrom(t: nat, length: nat, input: InStream) returns (r: Loaded)
    requires input.st.Valid() && length > 0 && KindOf(t) == Volumes
    modifies input
    ensures r == LoadOther(t, length, old(input.st)) && input.st.Valid() && Leaves(r, input.st)
  {
    hide Read, ReadIf, KindOf, Bit;
    var junk := input.st.junk;
    var flags := junk;
    var total := GetIf(Bit(flags, 1), input, Repeat(8, junk));
    var uplink := GetIf(Bit(flags, 2), input, Repeat(8, junk));
    var downlink := GetIf(Bit(flags, 4), input, Repeat(8, junk));
    r := Got(Raw(total + uplink + downlink), input.st);
  }

  method LoadFailedRuleFrom(t: nat, length: nat, input: InStream) returns (r: Loaded)
    requires input.st.Valid() && length > 0 && KindOf(t) == FailedRule
    modifies input
    ensures r == LoadOther(t, length, old(input.st)) && input.st.Valid() && Leaves(r, input.st)
  {
    hide Read, KindOf;
    if length != 1 {
      return Thrown(BadLength(t, length), input.st);
    }
    var u := input.Get([0]);
    var rule := u[0] % 32;
    if rule == 4 {
      var d := input.Get([input.st.junk]);
      r := Got(Raw(u + d), input.st);
    } else if rule <= 3 {
      r := Thrown(BadLength(t, length), input.st);
    } else {
      r := Thrown(BadValue(t), input.st);
    }
  }

  method LoadIpResourceFrom(t: nat, length: nat, input: InStream) returns (r: Loaded)
    requires input.st.Valid() && length > 0 && KindOf(t) == IpResource
    modifies input
    ensures r == LoadOther(t, length, old(input.st)) && input.st.Valid() && Leaves(r, input.st)
  {
    hide Read, ReadIf, KindOf, Bit;
    var u := input.Get([0]);
    var flags: nat := u[0];
    var range := input.Get([0]);
    var v4 := GetIf(Bit(flags, 1), input, Repeat(4, 0));
    var v6 := GetIf(Bit(flags, 2), input, Repeat(16, 0));
    var instance := GetIf(Bit(flags, 32), input, Repeat(2, 0));
    var source := GetIf(Bit(flags, 64), input, [0]);
    r := Got(Raw(u + range + v4 + v6 + instance + source), input.st);
  }

  /** A length octet and that many octets, when a flag is set. */
  method GetCounted(c: bool, input: InStream) returns (r: bytes)
    requires input.st.Valid()
    modifies input
    ensures (r, input.st) == ReadCounted(c, old(input.st)) && input.st.Valid()
  {
    r := [];
    if c {
      var n := input.Get([input.st.junk]);
      var d := input.Get(Repeat(n[0], input.st.junk));
      r := n + d;
    }
  }

  method LoadUserIdFrom(t: nat, length: nat, input: InStream) returns (r: Loaded)
    requires input.st.Valid() && length > 0 && KindOf(t) == UserId
    modifies input
    ensures r == LoadOther(t, length, old(input.st)) && input.st.Valid() && Leaves(r, input.st)
  {
    hide Read, ReadCounted, KindOf, Bit;
    if length != 1 {
      return Thrown(BadLength(t, length), input.st);
    }
    var u := input.Get([input.st.junk]);
    var flags: nat := u[0];
    var imsi := GetCounted(Bit(flags, 1), input);
    var imei := GetCounted(Bit(flags, 2), input);
    var msisdn := GetCounted(Bit(flags, 4), input);
    var nai := GetCounted(Bit(flags, 8), input);
    r := Got(Raw(u + imsi + imei + msisdn + nai), input.st);
  }

  /** `load_from` of the object `new_pfcp_ie_from_stream` has made. */
  method LoadFrom(t: nat, length: nat, input: InStream) returns (r: Loaded)
    requires input.st.Valid() && 0 < length < 0x1_0000 && KindOf(t) != Unknown && KindOf(t) != Grouped
    modifies input
    ensures r == Load(t, length, old(input.st)) && input.st.Valid() && Leaves(r, input.st)
  {
    hide LoadNumber, LoadRates, LoadText, LoadPolicy, LoadFteid, LoadFseid, LoadUeIp, LoadOuterHeader, LoadSdf,
      LoadOther, LoadNodeId, KindOf;
    match KindOf(t)
    case Number(_) => r := LoadNumberFrom(t, length, input);
    case UsageRuleId => r := LoadNumberFrom(t, length, input);
    case RatePair => r := LoadRatesFrom(t, length, input);
    case Text => r := LoadTextFrom(length, input);
    case Marking =>
      if length != 2 {
        return Thrown(BadLength(t, length), input.st);
      }
      r := LoadTextFrom(length, input);
    case Policied => r := LoadPolicyFrom(t, length, input);
    case FTeid => r := LoadFteidFrom(t, length, input);
    case FSeid => r := LoadFseidFrom(t, length, input);
    case UeAddress => r := LoadUeIpFrom(t, length, input);
    case NodeName => r := LoadNodeIdFrom(t, length, input);
    case OuterHeaderCreation => r := LoadOuterHeaderFrom(t, length, input);
    case SdfFilter => r := LoadSdfFrom(input);
    case Correlation => r := LoadCorrelationFrom(t, length, input);
    case Volumes => r := LoadVolumesFrom(t, length, input);
    case FailedRule => r := LoadFailedRuleFrom(t, length, input);
    case IpResource => r := LoadIpResourceFrom(t, length, input);
    case UserId => r := LoadUserIdFrom(t, length, input);
  }

  // ---------------------------------------------------------------- dump_to, behind type and length

  lemma {:induction false} Chain(w: bytes, a: bytes, b: bytes, c: bytes, d: bytes, e: bytes)
    ensures w + a + b + c + d + e == w + (a + (b + (c + (d + e))))
  {
    Assoc(w + a + b + c, d, e);
    Assoc(w + a + b, c, d + e);
    Assoc(w + a, b, c + (d + e));
    Assoc(w, a, b + (c + (d + e)));
  }

  method DumpFteidTo(leaf: Leaf, output: OutStream)
    requires leaf.Fteid?
    modifies output
    ensures output.written == old(output.written) + Body(21, leaf)
  {
    hide BE, Opt, Bit;
    var present := TeidPresent(leaf.flags);
    ghost var w := output.written;
    output.Put(BE(1, leaf.flags));
    PutIf(present, output, BE(4, leaf.teid));
    PutIf(present && Bit(leaf.flags, 1), output, leaf.v4);
    PutIf(present && Bit(leaf.flags, 2), output, leaf.v6);
    PutIf(Bit(leaf.flags, 8), output, BE(1, leaf.chooseId));
    Chain(w, BE(1, leaf.flags), Opt(present, BE(4, leaf.teid)), Opt(present && Bit(leaf.flags, 1), leaf.v4),
          Opt(present && Bit(leaf.flags, 2), leaf.v6), Opt(Bit(leaf.flags, 8), BE(1, leaf.chooseId)));
  }

  method DumpFseidTo(leaf: Leaf, output: OutStream)
    requires leaf.Fseid?
    modifies output
    ensures output.written == old(output.written) + Body(57, leaf)
  {
    hide BE, Opt, Bit;
    ghost var w := output.written;
    output.Put(BE(1, leaf.flags));
    output.Put(BE(8, leaf.seid));
    PutIf(Bit(leaf.flags, 2), output, leaf.v4);
    PutIf(Bit(leaf.flags, 1), output, leaf.v6);
    Chain(w, [], BE(1, leaf.flags), BE(8, leaf.seid), Opt(Bit(leaf.flags, 2), leaf.v4), Opt(Bit(leaf.flags, 1), leaf.v6));
  }

  method DumpUeIpTo(leaf: Leaf, output: OutStream)
    requires leaf.UeIp?
    modifies output
    ensures output.written == old(output.written) + Body(93, leaf)
  {
    hide BE, Opt, Bit;
    ghost var w := output.written;
    var delegated := Bit(leaf.flags, 1) && Bit(leaf.flags, 8);
    output.Put(BE(1, leaf.flags));
    PutIf(Bit(leaf.flags, 2), output, leaf.v4);
    PutIf(Bit(leaf.flags, 1), output, leaf.v6);
    PutIf(delegated, output, BE(1, leaf.prefixBits));
    Chain(w, [], BE(1, leaf.flags), Opt(Bit(leaf.flags, 2), leaf.v4), Opt(Bit(leaf.flags, 1), leaf.v6),
          Opt(delegated, BE(1, leaf.prefixBits)));
  }

  /** What printing a Node ID appends when its encoder's buffer held `junk`. */
  function NodeIdBody(leaf: Leaf, junk: byte): bytes
    requires leaf.NodeId?
  {
    BE(1, leaf.flags) + (Opt(leaf.flags % 16 == 0, leaf.v4) + (Opt(leaf.flags % 16 == 1, leaf.v6)
    + Opt(leaf.flags % 16 == 2, Encoded(leaf.fqdn, Repeat(|leaf.fqdn| + 1, junk)))))
  }

  /** `dump_to` of a Node ID returns: its name, if it has one, is not too long for the encoder's 8-bit offset. */
  predicate NodeIdPrints(leaf: Leaf)
    requires leaf.NodeId?
  {
    leaf.flags % 16 == 2 ==> EncoderReturns(leaf.fqdn)
  }

  /** A name is encoded on the way out. What stands behind a NUL is memory. */
  method DumpNodeIdTo(leaf: Leaf, junk: byte, output: OutStream)
    requires leaf.NodeId? && NodeIdPrints(leaf)
    modifies output
    ensures output.written == old(output.written) + NodeIdBody(leaf, junk)
    ensures Printable(leaf) ==> NodeIdBody(leaf, junk) == Body(60, leaf)
  {
    hide BE, Opt, Encoded, Dotted, EncoderReturns;
    ghost var w := output.written;
    output.Put(BE(1, leaf.flags));
    PutIf(leaf.flags % 16 == 0, output, leaf.v4);
    PutIf(leaf.flags % 16 == 1, output, leaf.v6);
    PutName(leaf.flags % 16 == 2, output, leaf.fqdn, junk);
    Chain(w, [], BE(1, leaf.flags), Opt(leaf.flags % 16 == 0, leaf.v4), Opt(leaf.flags % 16 == 1, leaf.v6),
          Opt(leaf.flags % 16 == 2, Encoded(leaf.fqdn, Repeat(|leaf.fqdn| + 1, junk))));
    if Printable(leaf) {
      PrintableBody(leaf, junk);
    }
  }

  /** A name that is encoded as a whole: at most 255 octets without a NUL. */
  predicate Printable(leaf: Leaf) {
    leaf.NodeId? && leaf.flags % 16 == 2 ==> |leaf.fqdn| <= 255 && 0 !in leaf.fqdn
  }

  lemma {:induction false} PrintableBody(leaf: Leaf, junk: byte)
    requires leaf.NodeId? && Printable(leaf)
    ensures NodeIdPrints(leaf) && NodeIdBody(leaf, junk) == Body(60, leaf)
  {
    hide BE, Encoded, Dotted;
    if leaf.flags % 16 == 2 {
      EncodedWhole(leaf.fqdn, Repeat(|leaf.fqdn| + 1, junk));
    }
  }

  method PutName(c: bool, output: OutStream, name: bytes, junk: byte)
    requires c ==> EncoderReturns(name)
    modifies output
    ensures output.written == old(output.written) + Opt(c, Encoded(name, Repeat(|name| + 1, junk)))
  {
    hide EncoderReturns, Encoded;
    if c {
      var dotted := StringToDotted(name, Repeat(|name| + 1, junk));
      output.Put(dotted);
    }
  }

  method DumpOuterHeaderTo(leaf: Leaf, output: OutStream)
    requires leaf.OuterHeader?
    modifies output
    ensures output.written == old(output.written) + Body(84, leaf)
  {
    hide BE, Opt, Bit, IsGtpu, IsV4, IsV6;
    ghost var w := output.written;
    var d := leaf.description;
    output.Put(BE(2, d));
    PutIf(IsGtpu(d), output, BE(4, leaf.teid));
    PutIf(IsV4(d), output, leaf.v4);
    PutIf(IsV6(d), output, leaf.v6);
    PutIf(Bit(d, 0x400), output, BE(2, leaf.port));
    Chain(w, BE(2, d), Opt(IsGtpu(d), BE(4, leaf.teid)), Opt(IsV4(d), leaf.v4), Opt(IsV6(d), leaf.v6),
          Opt(Bit(d, 0x400), BE(2, leaf.port)));
  }

  /** The last four fields of an SDF Filter. The identifier is printed in decimal digits. */
  function SdfEnd(leaf: Leaf): bytes
    requires leaf.Sdf?
  {
    Opt(Bit(leaf.flags, 2), leaf.ttc) + (Opt(Bit(leaf.flags, 4), leaf.spi)
    + (Opt(Bit(leaf.flags, 8), leaf.label3) + Opt(Bit(leaf.flags, 16), DecimalText(leaf.filterId))))
  }

  method DumpSdfEndTo(leaf: Leaf, output: OutStream)
    requires leaf.Sdf?
    modifies output
    ensures output.written == old(output.written) + SdfEnd(leaf)
  {
    hide Opt, Bit, DecimalText;
    ghost var w := output.written;
    PutIf(Bit(leaf.flags, 2), output, leaf.ttc);
    PutIf(Bit(leaf.flags, 4), output, leaf.spi);
    PutIf(Bit(leaf.flags, 8), output, leaf.label3);
    PutIf(Bit(leaf.flags, 16), output, DecimalText(leaf.filterId));
    Chain(w, [], Opt(Bit(leaf.flags, 2), leaf.ttc), Opt(Bit(leaf.flags, 4), leaf.spi),
          Opt(Bit(leaf.flags, 8), leaf.label3), Opt(Bit(leaf.flags, 16), DecimalText(leaf.filterId)));
  }

  method DumpSdfTo(leaf: Leaf, output: OutStream)
    requires leaf.Sdf?
    modifies output
    ensures output.written == old(output.written) + Body(23, leaf)
  {
    hide BE, Opt, Bit, DecimalText;
    ghost var w := output.written;
    output.Put(BE(1, leaf.flags));
    output.Put([0]);
    PutIf(Bit(leaf.flags, 1), output, BE(2, leaf.fdLength));
    PutIf(Bit(leaf.flags, 1), output, leaf.fd);
    DumpSdfEndTo(leaf, output);
    Chain(w, BE(1, leaf.flags), [0], Opt(Bit(leaf.flags, 1), BE(2, leaf.fdLength)), Opt(Bit(leaf.flags, 1), leaf.fd),
          SdfEnd(leaf));
    assert Body(23, leaf) == BE(1, leaf.flags) + ([0] + (Opt(Bit(leaf.flags, 1), BE(2, leaf.fdLength))
                             + (Opt(Bit(leaf.flags, 1), leaf.fd) + SdfEnd(leaf))));
  }

  /** `dump_to` of a Transport Level Marking throws behind the length, unless it says two octets. */
  predicate PrinterThrows(t: nat, length: nat) {
    t == 30 && length != 2
  }

  /** `dump_to` of an object, behind its type and length. False stands for an exception. */
  method DumpBodyTo(t: nat, length: nat, leaf: Leaf, output: OutStream) returns (ok: bool)
    requires Printable(leaf) && !leaf.Raw?
    modifies output
    ensures ok <==> !PrinterThrows(t, length)
    ensures output.written == old(output.written) + if ok then Body(t, leaf) else []
  {
    hide BE, LE, Opt, Bit, Dotted, Width, NodeIdBody;
    if t == 30 && length != 2 {
      return false;
    }
    match leaf {
      case Num(v) =>
        if t == 81 {
          output.Put(LE(4, v));
        } else {
          output.Put(BE(Width(t), v));
        }
      case Rates(ul, dl) =>
        output.Put(ul);
        output.Put(dl);
        Assoc(old(output.written), ul, dl);
      case Policy(idLength, id) =>
        output.Put(BE(1, idLength));
        output.Put(id);
        Assoc(old(output.written), BE(1, idLength), id);
      case Str(text) => output.Put(text);
      case Fteid(_, _, _, _, _) => DumpFteidTo(leaf, output);
      case Fseid(_, _, _, _) => DumpFseidTo(leaf, output);
      case UeIp(_, _, _, _) => DumpUeIpTo(leaf, output);
      case NodeId(_, _, _, _) =>
        PrintableBody(leaf, 0);
        DumpNodeIdTo(leaf, 0, output);
      case OuterHeader(_, _, _, _, _) => DumpOuterHeaderTo(leaf, output);
      case Sdf(_, _, _, _, _, _, _) => DumpSdfTo(leaf, output);
    }
    return true;
  }
}
