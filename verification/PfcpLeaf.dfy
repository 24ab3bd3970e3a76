/**
 The information elements of the Packet Forwarding Control Protocol that are not grouped (section 8.2
 of 3GPP TS 29.244): what each `dump_to` writes after the type and length, and what each `load_from` reads.
 */
module PfcpLeaf {
  import opened Wire
  import opened Fqdn

  /** How the body of an information element is coded, by its type. `Unknown` types have no parser. */
  datatype Kind =
    | Grouped
    | Number(width: nat)
    | RatePair
    | Text
    | Marking
    | Policied
    | FTeid
    | FSeid
    | UeAddress
    | NodeName
    | OuterHeaderCreation
    | UsageRuleId
    | SdfFilter
    | Correlation
    | Volumes
    | FailedRule
    | IpResource
    | UserId
    | Unknown

  /** The types `new_pfcp_ie_from_stream` dispatches on. */
  function KindOf(t: nat): Kind {
    if 1 <= t <= 18 || t == 83 then Grouped
    else if t in {19, 20, 25, 39, 42, 44, 88, 89, 95, 124} then Number(1)
    else if t in {37, 40, 43, 56} then Number(2)
    else if t in {29, 32, 33, 35, 36, 96, 108, 109, 117} then Number(4)
    else if t in {22, 24, 106, 107} then Text
    else
      match t
      case 21 => FTeid
      case 23 => SdfFilter
      case 26 => RatePair
      case 27 => RatePair
      case 28 => Correlation
      case 30 => Marking
      case 31 => Volumes
      case 34 => Volumes
      case 41 => Policied
      case 57 => FSeid
      case 60 => NodeName
      case 81 => UsageRuleId
      case 84 => OuterHeaderCreation
      case 93 => UeAddress
      case 114 => FailedRule
      case 116 => IpResource
      case 141 => UserId
      case _ => Unknown
  }

  /** The fields of an information element object. */
  datatype Leaf =
    | Num(v: nat)
    | Rates(ul: bytes, dl: bytes)
    | Str(text: bytes)
    | Policy(idLength: nat, id: bytes)
    | Fteid(flags: nat, teid: nat, v4: bytes, v6: bytes, chooseId: nat)
    | Fseid(flags: nat, seid: nat, v4: bytes, v6: bytes)
    | UeIp(flags: nat, v4: bytes, v6: bytes, prefixBits: nat)
    | NodeId(flags: nat, v4: bytes, v6: bytes, fqdn: bytes)
    | OuterHeader(description: nat, teid: nat, v4: bytes, v6: bytes, port: nat)
    | Sdf(flags: nat, fdLength: nat, fd: bytes, ttc: bytes, spi: bytes, label3: bytes, filterId: nat)
    | Raw(octets: bytes)

  datatype Error = BadLength(t: nat, length: nat) | BadValue(t: nat) | NameTooLong

  /** `load_from` of one object: it returns, throws, or (decoding a name) does not return. */
  datatype Loaded = Got(leaf: Leaf, s: Stream) | Thrown(e: Error, s: Stream) | Stuck

  /** The bit of the given weight. */
  predicate Bit(b: nat, weight: nat)
    requires weight > 0
  {
    (b / weight) % 2 == 1
  }

  function Opt(c: bool, d: bytes): (r: bytes)
    ensures |r| == if c then |d| else 0
  {
    if c then d else []
  }

  function OptSize(c: bool, n: nat): nat {
    if c then n else 0
  }

  /** A read that happens only when a flag is set. */
  function ReadIf(c: bool, s: Stream, memory: bytes): (r: (bytes, Stream))
    requires s.Valid()
    ensures r.1.Valid() && |r.0| == |memory| && r.1.Left() <= s.Left() && r.1.Same(s)
  {
    if c then Read(s, memory) else (memory, s)
  }

  lemma {:induction false} ReadIfNext(c: bool, s: Stream, memory: bytes, d: bytes, rest: bytes)
    requires s.Valid() && s.At(Opt(c, d) + rest) && |memory| == |d|
    ensures var r := ReadIf(c, s, memory);
            r.0 == (if c then d else memory) && r.1 == s.Skip(OptSize(c, |d|)) && r.1.At(rest)
  {
    if c {
      ReadNext(s, memory, d, rest);
    } else {
      assert Opt(c, d) + rest == rest;
    }
  }

  // ---------------------------------------------------------------- what dump_to writes

  /** The F-TEID is assigned by the control plane: TEID and addresses follow. */
  predicate TeidPresent(flags: nat) {
    !Bit(flags, 4)
  }

  predicate IsGtpu(d: nat) {
    Bit(d, 0x100) || Bit(d, 0x200)
  }

  predicate IsV4(d: nat) {
    Bit(d, 0x100) || Bit(d, 0x400)
  }

  predicate IsV6(d: nat) {
    Bit(d, 0x200) || Bit(d, 0x800)
  }

  /** A number as the stream operator prints it: in decimal digits. */
  function DecimalText(v: nat): (t: bytes)
    ensures t != []
  {
    if v < 10 then [48 + v] else DecimalText(v / 10) + [48 + v % 10]
  }

  /** What `dump_to` writes after the type and the length. */
  function Body(t: nat, leaf: Leaf): bytes {
    match leaf
    case Num(v) => if t == 81 then LE(4, v) else BE(Width(t), v)
    case Rates(ul, dl) => ul + dl
    case Str(text) => text
    case Policy(idLength, id) => BE(1, idLength) + id
    case Fteid(flags, teid, v4, v6, chooseId) =>
      BE(1, flags) + (Opt(TeidPresent(flags), BE(4, teid))
      + (Opt(TeidPresent(flags) && Bit(flags, 1), v4)
      + (Opt(TeidPresent(flags) && Bit(flags, 2), v6)
      + Opt(Bit(flags, 8), BE(1, chooseId)))))
    case Fseid(flags, seid, v4, v6) =>
      BE(1, flags) + (BE(8, seid) + (Opt(Bit(flags, 2), v4) + Opt(Bit(flags, 1), v6)))
    case UeIp(flags, v4, v6, prefixBits) =>
      BE(1, flags) + (Opt(Bit(flags, 2), v4) + (Opt(Bit(flags, 1), v6)
      + Opt(Bit(flags, 1) && Bit(flags, 8), BE(1, prefixBits))))
    case NodeId(flags, v4, v6, fqdn) =>
      BE(1, flags) + (Opt(flags % 16 == 0, v4) + (Opt(flags % 16 == 1, v6) + Opt(flags % 16 == 2, Dotted(fqdn))))
    case OuterHeader(d, teid, v4, v6, port) =>
      BE(2, d) + (Opt(IsGtpu(d), BE(4, teid)) + (Opt(IsV4(d), v4) + (Opt(IsV6(d), v6)
      + Opt(Bit(d, 0x400), BE(2, port)))))
    case Sdf(flags, fdLength, fd, ttc, spi, label3, filterId) =>
      BE(1, flags) + ([0] + (Opt(Bit(flags, 1), BE(2, fdLength)) + (Opt(Bit(flags, 1), fd)
      + (Opt(Bit(flags, 2), ttc) + (Opt(Bit(flags, 4), spi)
      + (Opt(Bit(flags, 8), label3) + Opt(Bit(flags, 16), DecimalText(filterId))))))))
    case Raw(octets) => octets
  }

  /** Octets of a numeric field. */
  function Width(t: nat): nat {
    match KindOf(t)
    case Number(w) => w
    case _ => 4
  }

  // ---------------------------------------------------------------- what load_from reads

  /** Memory of a numeric field before it is read: some constructors set it, some leave it as it is. */
  function InitialNumber(t: nat, junk: byte): bytes {
    if t in {20, 42} then [255]
    else if t in {25, 37, 81, 95, 108, 109, 117, 124} then Repeat(Width(t), junk)
    else Repeat(Width(t), 0)
  }

  /** `load_from` of an object built from a type-length header. */
  function Load(t: nat, length: nat, s: Stream): (r: Loaded)
    requires s.Valid() && 0 < length < 0x1_0000
    ensures r.Got? ==> r.s.Valid() && r.s.Left() <= s.Left() && r.s.Same(s)
    ensures r.Thrown? ==> r.s.Valid() && r.s.Left() <= s.Left() && r.s.Same(s)
  {
    match KindOf(t)
    case Number(w) => LoadNumber(t, length, s)
    case UsageRuleId => LoadNumber(t, length, s)
    case RatePair => LoadRates(t, length, s)
    case Text => LoadText(length, s)
    case Marking => if length != 2 then Thrown(BadLength(t, length), s) else LoadText(length, s)
    case Policied => LoadPolicy(t, length, s)
    case FTeid => LoadFteid(t, length, s)
    case FSeid => LoadFseid(t, length, s)
    case UeAddress => LoadUeIp(t, length, s)
    case NodeName => LoadNodeId(t, length, s)
    case OuterHeaderCreation => LoadOuterHeader(t, length, s)
    case SdfFilter => LoadSdf(s)
    case _ => LoadOther(t, length, s)
  }

  function LoadNumber(t: nat, length: nat, s: Stream): (r: Loaded)
    requires s.Valid()
    ensures r.Got? ==> r.s.Valid() && r.s.Left() <= s.Left() && r.s.Same(s)
    ensures r.Thrown? ==> r.s == s
    ensures !r.Stuck?
  {
    if length != Width(t) then Thrown(BadLength(t, length), s)
    else
      var r := Read(s, InitialNumber(t, s.junk));
      Got(Num(FromBE(r.0)), r.1)
  }

  function LoadRates(t: nat, length: nat, s: Stream): (r: Loaded)
    requires s.Valid()
    ensures r.Got? ==> r.s.Valid() && r.s.Left() <= s.Left() && r.s.Same(s)
    ensures r.Thrown? ==> r.s == s
    ensures !r.Stuck?
  {
    if length != 10 then Thrown(BadLength(t, length), s)
    else
      var ul := Read(s, Repeat(5, 0));
      var dl := Read(ul.1, Repeat(5, 0));
      Got(Rates(ul.0, dl.0), dl.1)
  }

  function LoadText(length: nat, s: Stream): (r: Loaded)
    requires s.Valid()
    ensures r.Got? && r.s.Valid() && r.s.Left() <= s.Left() && r.s.Same(s)
  {
    var r := Read(s, Repeat(length, s.junk));
    Got(Str(r.0), r.1)
  }

  function LoadPolicy(t: nat, length: nat, s: Stream): (r: Loaded)
    requires s.Valid()
    ensures r.Got? || r.Thrown? ==> r.s.Valid() && r.s.Left() <= s.Left() && r.s.Same(s)
    ensures !r.Stuck?
  {
    var n := Read(s, [0]);
    var idLength := FromBE(n.0);
    if length != 1 + idLength then Thrown(BadLength(t, length), n.1)
    else
      var id := Read(n.1, Repeat(idLength, s.junk));
      Got(Policy(idLength, id.0), id.1)
  }

  function LoadFteid(t: nat, length: nat, s: Stream): (r: Loaded)
    requires s.Valid()
    ensures r.Got? || r.Thrown? ==> r.s.Valid() && r.s.Left() <= s.Left() && r.s.Same(s)
    ensures !r.Stuck?
  {
    var u := Read(s, [0]);
    var flags := FromBE(u.0);
    var present := TeidPresent(flags);
    var check := if present then 5 + OptSize(Bit(flags, 1), 4) + OptSize(Bit(flags, 2), 16)
                 else 1 + OptSize(Bit(flags, 8), 1);
    if length != check then Thrown(BadLength(t, length), u.1)
    else FteidFields(flags, present, present && Bit(flags, 1), present && Bit(flags, 2), !present && Bit(flags, 8), u.1)
  }

  function FteidFields(flags: nat, present: bool, hasV4: bool, hasV6: bool, hasChoose: bool, s: Stream): (r: Loaded)
    requires s.Valid()
    ensures r.Got? && r.s.Valid() && r.s.Left() <= s.Left() && r.s.Same(s)
  {
    var teid := ReadIf(present, s, Repeat(4, 0));
    var v4 := ReadIf(hasV4, teid.1, Repeat(4, 0));
    var v6 := ReadIf(hasV6, v4.1, Repeat(16, 0));
    var choose := ReadIf(hasChoose, v6.1, [0]);
    Got(Fteid(flags, FromBE(teid.0), v4.0, v6.0, FromBE(choose.0)), choose.1)
  }

  function LoadFseid(t: nat, length: nat, s: Stream): (r: Loaded)
    requires s.Valid()
    ensures r.Got? || r.Thrown? ==> r.s.Valid() && r.s.Left() <= s.Left() && r.s.Same(s)
    ensures !r.Stuck?
  {
    var u := Read(s, [s.junk]);
    var flags := FromBE(u.0);
    if length != 9 + OptSize(Bit(flags, 2), 4) + OptSize(Bit(flags, 1), 16) then Thrown(BadLength(t, length), u.1)
    else
      var seid := Read(u.1, Repeat(8, s.junk));
      var v4 := ReadIf(Bit(flags, 2), seid.1, Repeat(4, s.junk));
      var v6 := ReadIf(Bit(flags, 1), v4.1, Repeat(16, s.junk));
      Got(Fseid(flags, FromBE(seid.0), v4.0, v6.0), v6.1)
  }

  function LoadUeIp(t: nat, length: nat, s: Stream): (r: Loaded)
    requires s.Valid()
    ensures r.Got? || r.Thrown? ==> r.s.Valid() && r.s.Left() <= s.Left() && r.s.Same(s)
    ensures !r.Stuck?
  {
    var u := Read(s, [s.junk]);
    var flags := FromBE(u.0);
    var delegated := Bit(flags, 1) && Bit(flags, 8);
    if length != 1 + OptSize(Bit(flags, 2), 4) + OptSize(Bit(flags, 1), 16) + OptSize(delegated, 1) then
      Thrown(BadLength(t, length), u.1)
    else
      var v4 := ReadIf(Bit(flags, 2), u.1, Repeat(4, s.junk));
      var v6 := ReadIf(Bit(flags, 1), v4.1, Repeat(16, s.junk));
      var prefix := ReadIf(delegated, v6.1, [s.junk]);
      Got(UeIp(flags, v4.0, v6.0, FromBE(prefix.0)), prefix.1)
  }

  function LoadNodeId(t: nat, length: nat, s: Stream): (r: Loaded)
    requires s.Valid() && 0 < length < 0x1_0000
    ensures r.Got? || r.Thrown? ==> r.s.Valid() && r.s.Left() <= s.Left() && r.s.Same(s)
  {
    var u := Read(s, [s.junk]);
    var flags := FromBE(u.0);
    var v4 := Repeat(4, s.junk);
    var v6 := Repeat(16, s.junk);
    var check := length - 1;
    if flags % 16 == 0 then
      if check != 4 then Thrown(BadLength(t, length), u.1)
      else var r := Read(u.1, v4); Got(NodeId(flags, r.0, v6, []), r.1)
    else if flags % 16 == 1 then
      if check != 16 then Thrown(BadLength(t, length), u.1)
      else var r := Read(u.1, v6); Got(NodeId(flags, v4, r.0, []), r.1)
    else if flags % 16 == 2 then
      if check == 0 then Thrown(BadLength(t, length), u.1)
      else
        var r := Read(u.1, Repeat(check, s.junk));
        match DottedToStringSpec(r.0)
        case Done(_, fqdn) => Got(NodeId(flags, v4, v6, fqdn), r.1)
        case LengthError => Thrown(NameTooLong, r.1)
        case Hang => Stuck
    else Got(NodeId(flags, v4, v6, []), u.1)
  }

  function LoadOuterHeader(t: nat, length: nat, s: Stream): (r: Loaded)
    requires s.Valid()
    ensures r.Got? || r.Thrown? ==> r.s.Valid() && r.s.Left() <= s.Left() && r.s.Same(s)
    ensures !r.Stuck?
  {
    if length < 4 then Thrown(BadLength(t, length), s)
    else
      var u := Read(s, Repeat(2, s.junk));
      var d := FromBE(u.0);
      OuterHeaderFields(d, IsGtpu(d), IsV4(d), IsV6(d), Bit(d, 0x400), u.1)
  }

  function OuterHeaderFields(d: nat, isGtpu: bool, isV4: bool, isV6: bool, hasPort: bool, s: Stream): (r: Loaded)
    requires s.Valid()
    ensures r.Got? && r.s.Valid() && r.s.Left() <= s.Left() && r.s.Same(s)
  {
    var teid := ReadIf(isGtpu, s, Repeat(4, s.junk));
    var v4 := ReadIf(isV4, teid.1, Repeat(4, s.junk));
    var v6 := ReadIf(isV6, v4.1, Repeat(16, s.junk));
    var port := ReadIf(hasPort, v6.1, Repeat(2, s.junk));
    Got(OuterHeader(d, FromBE(teid.0), v4.0, v6.0, FromBE(port.0)), port.1)
  }

  function LoadSdf(s: Stream): (r: Loaded)
    requires s.Valid()
    ensures r.Got? && r.s.Valid() && r.s.Left() <= s.Left() && r.s.Same(s)
  {
    var u := Read(s, [s.junk]);
    var flags := FromBE(u.0);
    var spare := Read(u.1, [0]);
    SdfFields(flags, Bit(flags, 1), Bit(flags, 2), Bit(flags, 4), Bit(flags, 8), Bit(flags, 16), spare.1)
  }

  function SdfFields(flags: nat, hasFd: bool, hasTtc: bool, hasSpi: bool, hasLabel: bool, hasId: bool, s: Stream): (r: Loaded)
    requires s.Valid()
    ensures r.Got? && r.s.Valid() && r.s.Left() <= s.Left() && r.s.Same(s)
  {
    var n := ReadIf(hasFd, s, Repeat(2, s.junk));
    var fdLength := FromBE(n.0);
    var fd := ReadString(hasFd, n.1, fdLength);
    var ttc := ReadString(hasTtc, fd.1, 2);
    var spi := ReadString(hasSpi, ttc.1, 4);
    var label3 := ReadString(hasLabel, spi.1, 3);
    var id := ReadIf(hasId, label3.1, Repeat(4, s.junk));
    Got(Sdf(flags, fdLength, fd.0, ttc.0, spi.0, label3.0, FromBE(id.0)), id.1)
  }

  /** A string of n octets, read through an uninitialised buffer, when a flag is set. */
  function ReadString(c: bool, s: Stream, n: nat): (r: (bytes, Stream))
    requires s.Valid()
    ensures r.1.Valid() && r.1.Left() <= s.Left() && r.1.Same(s)
  {
    if c then Read(s, Repeat(n, s.junk)) else ([], s)
  }

  /** The parsers whose printer writes something else. Only what they consume is kept of them. */
  function LoadOther(t: nat, length: nat, s: Stream): (r: Loaded)
    requires s.Valid() && 0 < length
    ensures r.Got? || r.Thrown? ==> r.s.Valid() && r.s.Left() <= s.Left() && r.s.Same(s)
    ensures !r.Stuck?
  {
    match KindOf(t)
    case Correlation =>
      if length != 1 then Thrown(BadLength(t, length), s)
      else var r := Read(s, Repeat(4, 0)); Got(Raw(r.0), r.1)
    case Volumes =>
      var flags := s.junk;
      var total := ReadIf(Bit(flags, 1), s, Repeat(8, s.junk));
      var uplink := ReadIf(Bit(flags, 2), total.1, Repeat(8, s.junk));
      var downlink := ReadIf(Bit(flags, 4), uplink.1, Repeat(8, s.junk));
      Got(Raw(total.0 + uplink.0 + downlink.0), downlink.1)
    case FailedRule =>
      if length != 1 then Thrown(BadLength(t, length), s)
      else
        var u := Read(s, [0]);
        var rule := u.0[0] % 32;
        if rule == 4 then var r := Read(u.1, [s.junk]); Got(Raw(u.0 + r.0), r.1)
        else if rule <= 3 then Thrown(BadLength(t, length), u.1)
        else Thrown(BadValue(t), u.1)
    case IpResource =>
      var u := Read(s, [0]);
      var flags: nat := u.0[0];
      var range := Read(u.1, [0]);
      var v4 := ReadIf(Bit(flags, 1), range.1, Repeat(4, 0));
      var v6 := ReadIf(Bit(flags, 2), v4.1, Repeat(16, 0));
      var instance := ReadIf(Bit(flags, 32), v6.1, Repeat(2, 0));
      var source := ReadIf(Bit(flags, 64), instance.1, [0]);
      Got(Raw(u.0 + range.0 + v4.0 + v6.0 + instance.0 + source.0), source.1)
    case UserId =>
      if length != 1 then Thrown(BadLength(t, length), s)
      else
        var u := Read(s, [s.junk]);
        var flags: nat := u.0[0];
        var imsi := ReadCounted(Bit(flags, 1), u.1);
        var imei := ReadCounted(Bit(flags, 2), imsi.1);
        var msisdn := ReadCounted(Bit(flags, 4), imei.1);
        var nai := ReadCounted(Bit(flags, 8), msisdn.1);
        Got(Raw(u.0 + imsi.0 + imei.0 + msisdn.0 + nai.0), nai.1)
    case _ => Thrown(BadValue(t), s)
  }

  /** A length octet and that many octets. */
  function ReadCounted(c: bool, s: Stream): (r: (bytes, Stream))
    requires s.Valid()
    ensures r.1.Valid() && r.1.Left() <= s.Left() && r.1.Same(s)
  {
    if !c then ([], s)
    else
      var n := Read(s, [s.junk]);
      var d := Read(n.1, Repeat(n.0[0], s.junk));
      (n.0 + d.0, d.1)
  }
}
