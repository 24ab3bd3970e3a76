/**
 The forwarding program of `far_bpf.c`: GTP-U encapsulation and decapsulation of a packet in place.
 */
module Gtpu {
  import opened Wire
  import opened Checksum
  import opened Packet

  const IP_LEN: nat := 20
  const GTP_ENCAPSULATED_SIZE: nat := 36
  const GTP_UDP_PORT: u16 := 2152
  const GTP_FLAGS: byte := 0x30
  const GTPU_G_PDU: byte := 255
  const IPPROTO_UDP: byte := 17
  const IP_CSUM_OFFSET: nat := 24
  const LOCAL_IP: u32 := 503513354

  const ACCESS: byte := 0
  const CORE: byte := 1
  const GTPU_UDP_IPV4: u16 := 0x0100
  const UDP_IPV4: u16 := 0x0400
  const DOWNLINK: nat := 0
  const UPLINK: nat := 1

  type Quad = b: bytes | |b| == 4 witness [0, 0, 0, 0]
  type Mac = b: bytes | |b| == 6 witness [0, 0, 0, 0, 0, 0]

  /** The fields of `pfcp_far_t_` the program reads. Addresses and TEID are the octets in memory. */
  datatype Far = Far(forw: bool, destination: byte, creation: u16, teid: Quad, ipv4: Quad, port: u16)

  datatype Option<T> = None | Some(value: T)

  datatype Action = Aborted | Drop | Pass | Redirect(port: nat)

  // ---------------------------------------------------------------- the outer headers

  /** An IPv4 header without options around a payload of `inner` octets, not fragmented. */
  function IpHeader(inner: nat, daddr: Quad, check: u16): (h: bytes)
    ensures |h| == IP_LEN
  {
    IpStart(inner) + [64] + [IPPROTO_UDP] + LE(2, check) + LE(4, LOCAL_IP) + daddr
  }

  /** Version, type of service, total length, identification, fragmentation. */
  function IpStart(inner: nat): (h: bytes)
    ensures |h| == 8
  {
    [0x45] + [0] + BE(2, inner + GTP_ENCAPSULATED_SIZE) + [0, 0] + [0x40, 0]
  }

  function UdpHeader(inner: nat, port: u16): (h: bytes)
    ensures |h| == 8
  {
    BE(2, GTP_UDP_PORT) + BE(2, port) + BE(2, inner + 16) + [0, 0]
  }

  function GtpHeader(length: bytes, teid: Quad): (h: bytes)
    ensures |h| == 6 + |length|
  {
    [GTP_FLAGS] + [GTPU_G_PDU] + length + teid
  }

  /** The checksum the program computes for its outer header. */
  function HeaderCheck(inner: nat, daddr: Quad): u16 {
    ByDiff(0, Diff(Pairs(Words(IpHeader(inner, daddr, 0))), 5, 0))
  }

  /** The octets between the Ethernet header and the inner packet. */
  function Outer(length: bytes, far: Far): (h: bytes)
    requires |length| == 2
    ensures |h| == GTP_ENCAPSULATED_SIZE
  {
    var inner := FromBE(length);
    IpHeader(inner, far.ipv4, HeaderCheck(inner, far.ipv4)) + UdpHeader(inner, far.port) + GtpHeader(length, far.teid)
  }

  /** A frame after encapsulation: new destination address, same Ethernet type, outer headers, same IP packet. */
  function Encapsulated(frame: bytes, far: Far, mac: Mac): (r: bytes)
    requires |frame| >= 34
    ensures |r| == |frame| + GTP_ENCAPSULATED_SIZE
  {
    mac + frame[6..14] + Outer(frame[16..18], far) + frame[14..]
  }

  /** A frame after decapsulation: the 36 octets behind its Ethernet header are gone. */
  function Decapsulated(frame: bytes, mac: Mac): (r: bytes)
    requires |frame| >= 50
    ensures |r| == |frame| - GTP_ENCAPSULATED_SIZE
  {
    mac + frame[6..14] + frame[50..]
  }

  // ---------------------------------------------------------------- encapsulation in place

  method PushIpStart(p: Xdp, inner: nat, ghost eth: bytes, ghost view: bytes)
    requires p.Valid() && |eth| == 14 && |view| >= 34
    requires p.Frame() == eth + [] + view[14..]
    modifies p.buf
    ensures p.Frame() == eth + IpStart(inner) + view[22..]
    ensures p.buf[..p.data] == old(p.buf[..p.data]) && p.buf[p.dataEnd..] == old(p.buf[p.dataEnd..])
  {
    hide BE, LE, FromBE, Put;
    ghost var h: bytes := [];
    p.StoreNext(eth, h, [0x45], 14, view);
    h := h + [0x45];
    p.StoreNext(eth, h, [0], 15, view);
    h := h + [0];
    p.StoreNext(eth, h, BE(2, inner + GTP_ENCAPSULATED_SIZE), 16, view);
    h := h + BE(2, inner + GTP_ENCAPSULATED_SIZE);
    p.StoreNext(eth, h, [0, 0], 18, view);
    h := h + [0, 0];
    p.StoreNext(eth, h, [0x40, 0], 20, view);
    h := h + [0x40, 0];
    assert h == IpStart(inner);
  }

  method PushIpHeader(p: Xdp, far: Far, inner: nat, ghost eth: bytes, ghost view: bytes)
    requires p.Valid() && |eth| == 14 && |view| >= 34
    requires p.Frame() == eth + [] + view[14..]
    modifies p.buf
    ensures p.Frame() == eth + IpHeader(inner, far.ipv4, 0) + view[34..]
    ensures p.buf[..p.data] == old(p.buf[..p.data]) && p.buf[p.dataEnd..] == old(p.buf[p.dataEnd..])
  {
    hide BE, LE, FromBE, Put, IpStart;
    PushIpStart(p, inner, eth, view);
    ghost var h: bytes := IpStart(inner);
    p.StoreNext(eth, h, [64], 22, view);
    h := h + [64];
    p.StoreNext(eth, h, [IPPROTO_UDP], 23, view);
    h := h + [IPPROTO_UDP];
    p.StoreNext(eth, h, LE(2, 0), 24, view);
    h := h + LE(2, 0);
    p.StoreNext(eth, h, LE(4, LOCAL_IP), 26, view);
    h := h + LE(4, LOCAL_IP);
    p.StoreNext(eth, h, far.ipv4, 30, view);
    h := h + far.ipv4;
    assert h == IpHeader(inner, far.ipv4, 0);
  }

  method PushUdpHeader(p: Xdp, port: u16, inner: nat, ghost done: bytes, ghost view: bytes)
    requires p.Valid() && |done| == 34 && |view| >= 42
    requires p.Frame() == done + [] + view[34..]
    modifies p.buf
    ensures p.Frame() == done + UdpHeader(inner, port) + view[42..]
    ensures p.buf[..p.data] == old(p.buf[..p.data]) && p.buf[p.dataEnd..] == old(p.buf[p.dataEnd..])
  {
    hide BE, LE, FromBE, Put;
    ghost var h: bytes := [];
    p.StoreNext(done, h, BE(2, GTP_UDP_PORT), 34, view);
    h := h + BE(2, GTP_UDP_PORT);
    p.StoreNext(done, h, BE(2, port), 36, view);
    h := h + BE(2, port);
    p.StoreNext(done, h, BE(2, inner + 16), 38, view);
    h := h + BE(2, inner + 16);
    p.StoreNext(done, h, [0, 0], 40, view);
    h := h + [0, 0];
    assert h == UdpHeader(inner, port);
  }

  method PushGtpHeader(p: Xdp, teid: Quad, ghost done: bytes, ghost view: bytes)
    requires p.Valid() && |done| == 42 && |view| >= 54
    requires p.Frame() == done + [] + view[42..]
    modifies p.buf
    ensures p.Frame() == done + GtpHeader(view[52..54], teid) + view[50..]
    ensures p.buf[..p.data] == old(p.buf[..p.data]) && p.buf[p.dataEnd..] == old(p.buf[p.dataEnd..])
  {
    hide BE, LE, FromBE, Put;
    ghost var h: bytes := [];
    p.StoreNext(done, h, [GTP_FLAGS], 42, view);
    h := h + [GTP_FLAGS];
    p.StoreNext(done, h, [GTPU_G_PDU], 43, view);
    h := h + [GTPU_G_PDU];
    var length := p.Frame()[52..54];
    assert length == view[52..54];
    p.StoreNext(done, h, length, 44, view);
    h := h + length;
    p.StoreNext(done, h, teid, 46, view);
    h := h + teid;
    assert h == GtpHeader(length, teid);
  }

  /** The frame after every store but the checksum, and after the checksum. */
  function Pushed(view: bytes, far: Far, mac: Mac, check: u16): (r: bytes)
    requires |view| >= 54
    ensures |r| == |view|
  {
    var inner := FromBE(view[52..54]);
    mac + view[42..50] + IpHeader(inner, far.ipv4, check) + UdpHeader(inner, far.port)
    + GtpHeader(view[52..54], far.teid) + view[50..]
  }

  /** The frame where the program gives up: too short, or no MAC address for the other end. */
  function GivenUp(view: bytes, far: Far): (r: bytes)
    ensures |r| == |view|
  {
    if |view| < 50 then view
    else if |view| < 70 then view[36..50] + view[14..]
    else
      var inner := FromBE(view[52..54]);
      view[36..50] + IpHeader(inner, far.ipv4, 0) + UdpHeader(inner, far.port) + view[42..]
  }

  /** The frame that is sent to the access side, given up on or not: the caller does not look. */
  function Downlink(view: bytes, far: Far, arp: map<Quad, Mac>): (r: bytes)
    ensures |r| == |view|
  {
    if |view| >= 70 && far.ipv4 in arp then
      Pushed(view, far, arp[far.ipv4], HeaderCheck(FromBE(view[52..54]), far.ipv4))
    else GivenUp(view, far)
  }

  lemma {:induction false} SetMac(mac: Mac, eth: bytes, ip: bytes, udp: bytes, rest: bytes)
    requires |eth| == 14
    ensures Put(eth + ip + udp + rest, 0, mac) == mac + eth[6..] + ip + udp + rest
  {
    assert (eth + ip + udp + rest)[6..] == eth[6..] + ip + udp + rest;
  }

  /** The checksum is octets 10 and 11 of the header. */
  lemma {:induction false} CheckField(inner: nat, daddr: Quad, check: u16)
    ensures Put(IpHeader(inner, daddr, 0), 10, LE(2, check)) == IpHeader(inner, daddr, check)
    ensures IpHeader(inner, daddr, 0)[10..12] == [0, 0]
  {
    hide BE;
    assert LE(2, 0) == [0, 0];
  }

  lemma {:induction false} PutBehind(done: bytes, h: bytes, rest: bytes, off: nat, d: bytes)
    requires off + |d| <= |h|
    ensures Put(done + h + rest, |done| + off, d) == done + Put(h, off, d) + rest
  {
  }

  lemma {:induction false} SetCheck(view: bytes, far: Far, mac: Mac, check: u16)
    requires |view| >= 54
    ensures Put(Pushed(view, far, mac, 0), IP_CSUM_OFFSET, LE(2, check)) == Pushed(view, far, mac, check)
    ensures Pushed(view, far, mac, 0)[14..34] == IpHeader(FromBE(view[52..54]), far.ipv4, 0)
    ensures Pushed(view, far, mac, 0)[24..26] == [0, 0]
  {
    hide BE, LE, FromBE, IpHeader, UdpHeader, GtpHeader, Put;
    var inner := FromBE(view[52..54]);
    var eth, ip := mac + view[42..50], IpHeader(inner, far.ipv4, 0);
    var rest := UdpHeader(inner, far.port) + (GtpHeader(view[52..54], far.teid) + view[50..]);
    CheckField(inner, far.ipv4, check);
    PutBehind(eth, ip, rest, 10, LE(2, check));
    assert Pushed(view, far, mac, 0) == eth + ip + rest;
    assert Pushed(view, far, mac, check) == eth + IpHeader(inner, far.ipv4, check) + rest;
    assert (eth + ip + rest)[24..26] == ip[10..12];
  }

  lemma {:induction false} ShortIsGivenUp(view: bytes, far: Far, arp: map<Quad, Mac>)
    requires |view| >= 50
    ensures |view| < 70 ==> Downlink(view, far, arp) == view[36..50] + view[14..]
  {
    hide FromBE, IpHeader, UdpHeader, Pushed, HeaderCheck;
  }

  /** The stores behind the copied Ethernet header, once there is room for an inner IPv4 header. */
  method WriteOuter(p: Xdp, far: Far, arp: map<Quad, Mac>, ghost view: bytes) returns (pushed: bool)
    requires p.Valid() && |view| >= 70 && p.Frame() == view[36..50] + [] + view[14..]
    modifies p.buf
    ensures p.buf[..p.data] == old(p.buf[..p.data]) && p.buf[p.dataEnd..] == old(p.buf[p.dataEnd..])
    ensures pushed <==> far.ipv4 in arp
    ensures p.Frame() == Downlink(view, far, arp)
  {
    hide BE, LE, FromBE, IpHeader, UdpHeader, GtpHeader, Put, Diff, Replace, Words, ByDiff, HeaderCheck;
    ghost var eth := view[36..50];
    var inner := FromBE(p.Frame()[52..54]);
    assert p.Frame()[52..54] == view[52..54];
    PushIpHeader(p, far, inner, eth, view);
    ghost var ip := IpHeader(inner, far.ipv4, 0);
    PushUdpHeader(p, far.port, inner, eth + ip, view);
    if far.ipv4 !in arp {
      return false;
    }
    var mac := arp[far.ipv4];
    ghost var udp := UdpHeader(inner, far.port);
    SetMac(mac, eth, ip, udp, view[42..]);
    p.Store(0, mac);
    assert eth[6..] == view[42..50];
    PushGtpHeader(p, far.teid, mac + view[42..50] + ip + udp, view);
    FinishCheck(p, far, mac, inner, view);
    return true;
  }

  /** The stores once there is room for two Ethernet headers, 36 octets apart. */
  method WriteHeaders(p: Xdp, far: Far, arp: map<Quad, Mac>, ghost view: bytes) returns (pushed: bool)
    requires p.Valid() && p.Frame() == view && |view| >= 50
    modifies p.buf
    ensures p.buf[..p.data] == old(p.buf[..p.data]) && p.buf[p.dataEnd..] == old(p.buf[p.dataEnd..])
    ensures pushed <==> |view| >= 70 && far.ipv4 in arp
    ensures p.Frame() == Downlink(view, far, arp)
  {
    hide Downlink, GivenUp, Put;
    p.StoreNext([], [], p.Frame()[36..50], 0, view);
    assert p.Frame() == view[36..50] + [] + view[14..] == view[36..50] + view[14..];
    ShortIsGivenUp(view, far, arp);
    if p.data + 70 > p.dataEnd {
      return false;
    }
    pushed := WriteOuter(p, far, arp, view);
  }

  /**
   `create_outer_header_gtpu_ipv4`. The result says whether the last line was reached; the caller does not
   look at it. `view` is what lies behind the moved data pointer: 36 octets of head room and the frame,
   or the frame alone where `bpf_xdp_adjust_head` failed, which goes unnoticed.
   */
  method CreateOuterHeader(p: Xdp, far: Far, arp: map<Quad, Mac>) returns (pushed: bool)
    requires p.Valid()
    modifies p`data, p.buf
    ensures p.Valid()
    ensures p.data == if old(p.data) >= GTP_ENCAPSULATED_SIZE && |old(p.Frame())| + GTP_ENCAPSULATED_SIZE >= ETH_HLEN
                      then old(p.data) - GTP_ENCAPSULATED_SIZE else old(p.data)
    ensures p.buf[..p.data] == old(p.buf[..])[..p.data] && p.buf[p.dataEnd..] == old(p.buf[..])[p.dataEnd..]
    ensures var view := old(p.buf[..])[p.data..p.dataEnd];
            (pushed <==> |view| >= 70 && far.ipv4 in arp) && p.Frame() == Downlink(view, far, arp)
  {
    hide FromBE, Pushed, HeaderCheck, IpHeader, UdpHeader;
    p.AdjustHead(-(GTP_ENCAPSULATED_SIZE as int));
    if p.data + 14 > p.dataEnd {
      return false;
    }
    if p.data + GTP_ENCAPSULATED_SIZE + 14 > p.dataEnd {
      return false;
    }
    pushed := WriteHeaders(p, far, arp, p.Frame());
  }

  /** The last two statements: the header checksum. */
  method FinishCheck(p: Xdp, far: Far, mac: Mac, inner: nat, ghost view: bytes)
    requires p.Valid() && |view| >= 70 && inner == FromBE(view[52..54]) && p.Frame() == Pushed(view, far, mac, 0)
    modifies p.buf
    ensures p.Frame() == Pushed(view, far, mac, HeaderCheck(inner, far.ipv4))
    ensures p.buf[..p.data] == old(p.buf[..p.data]) && p.buf[p.dataEnd..] == old(p.buf[p.dataEnd..])
  {
    hide BE, LE, FromBE, IpHeader, UdpHeader, GtpHeader, Put, Pushed, Diff, Pairs, Words, ByDiff;
    SetCheck(view, far, mac, HeaderCheck(inner, far.ipv4));
    var l3sum := Diff(Pairs(Words(p.Frame()[14..34])), 5, 0);
    assert p.Frame()[24] == 0 && p.Frame()[25] == 0;
    var r := p.L3CsumReplace(IP_CSUM_OFFSET, 0, l3sum, 0);
  }

  /** With 36 octets of head room in front of a frame, what was pushed is the frame encapsulated. */
  lemma {:induction false} PushedIsEncapsulated(room: bytes, frame: bytes, far: Far, mac: Mac)
    requires |room| == GTP_ENCAPSULATED_SIZE && |frame| >= 34
    ensures FromBE((room + frame)[52..54]) == FromBE(frame[16..18])
    ensures Pushed(room + frame, far, mac, HeaderCheck(FromBE(frame[16..18]), far.ipv4)) == Encapsulated(frame, far, mac)
  {
    hide FromBE, IpHeader, UdpHeader, GtpHeader, HeaderCheck;
    var view := room + frame;
    assert view[52..54] == frame[16..18] && view[42..50] == frame[6..14] && view[50..] == frame[14..];
    var inner := FromBE(frame[16..18]);
    var ip, udp := IpHeader(inner, far.ipv4, HeaderCheck(inner, far.ipv4)), UdpHeader(inner, far.port);
    var gtp := GtpHeader(frame[16..18], far.teid);
    assert mac + frame[6..14] + (ip + udp + gtp) == mac + frame[6..14] + ip + udp + gtp;
  }

  // ---------------------------------------------------------------- decapsulation in place, and the rule

  /** What becomes of an uplink frame, and what the program answers. */
  function Uplink(frame: bytes, arp: map<Quad, Mac>): (r: (Action, bytes))
    requires |frame| >= 14
  {
    if |frame| < 50 then (Drop, frame)
    else if |frame| < 70 || frame[66..70] !in arp then (Drop, Put(frame, GTP_ENCAPSULATED_SIZE, frame[..14]))
    else (Redirect(UPLINK), Decapsulated(frame, arp[frame[66..70]]))
  }

  /** The branch of `pfcp_far_apply` that removes the outer headers. */
  method RemoveOuterHeader(p: Xdp, arp: map<Quad, Mac>) returns (action: Action)
    requires p.Valid() && |p.Frame()| >= 14
    modifies p`data, p.buf
    ensures p.Valid()
    ensures (action, p.Frame()) == Uplink(old(p.Frame()), arp)
    ensures p.data == old(p.data) + if action.Redirect? then GTP_ENCAPSULATED_SIZE else 0
    ensures p.buf[p.dataEnd..] == old(p.buf[..])[p.dataEnd..]
  {
    ghost var frame := p.Frame();
    if p.data + GTP_ENCAPSULATED_SIZE + 14 > p.dataEnd {
      return Drop;
    }
    p.Store(GTP_ENCAPSULATED_SIZE, p.Frame()[..14]);
    ghost var moved := p.Frame();
    if p.data + 70 > p.dataEnd {
      return Drop;
    }
    var daddr := p.Frame()[66..70];
    assert daddr == frame[66..70];
    if daddr !in arp {
      return Drop;
    }
    p.Store(GTP_ENCAPSULATED_SIZE, arp[daddr]);
    p.AdjustHead(GTP_ENCAPSULATED_SIZE);
    assert p.Frame() == Put(moved, GTP_ENCAPSULATED_SIZE, arp[daddr])[GTP_ENCAPSULATED_SIZE..];
    MovedIsDecapsulated(frame, arp[daddr]);
    return Redirect(UPLINK);
  }

  lemma {:induction false} MovedIsDecapsulated(frame: bytes, mac: Mac)
    requires |frame| >= 70
    ensures Put(Put(frame, GTP_ENCAPSULATED_SIZE, frame[..14]), GTP_ENCAPSULATED_SIZE, mac)[GTP_ENCAPSULATED_SIZE..]
            == Decapsulated(frame, mac)
  {
  }

  /**
   What a rule does with a frame: the answer, and the frame it leaves. `view` is what lies behind the data pointer once
   there is room for the outer headers.
   */
  function Applied(rule: Option<Far>, frame: bytes, view: bytes, arp: map<Quad, Mac>): (r: (Action, bytes)) {
    if |frame| < 14 || rule.None? then (Drop, frame)
    else
      var far := rule.value;
      if far.forw && far.destination == CORE && far.creation == UDP_IPV4 then Uplink(frame, arp)
      else if far.forw && far.destination == ACCESS && far.creation == GTPU_UDP_IPV4 then
        (Redirect(DOWNLINK), Downlink(view, far, arp))
      else (Pass, frame)
  }

  /** `pfcp_far_apply`. No FAR stands for a null pointer. */
  method FarApply(p: Xdp, rule: Option<Far>, arp: map<Quad, Mac>) returns (action: Action)
    requires p.Valid()
    modifies p`data, p.buf
    ensures p.Valid()
    ensures (action, p.Frame()) == Applied(rule, old(p.Frame()), old(p.buf[..])[p.data..p.dataEnd], arp)
    ensures p.data == if action == Redirect(UPLINK) then old(p.data) + 36
                      else if action == Redirect(DOWNLINK) && old(p.data) >= 36 then old(p.data) - 36
                      else old(p.data)
    ensures p.buf[p.dataEnd..] == old(p.buf[..])[p.dataEnd..]
  {
    hide Downlink, Decapsulated, Put;
    if p.data + 14 > p.dataEnd {
      return Drop;
    }
    if rule.None? {
      return Drop;
    }
    var far := rule.value;
    if far.forw {
      if far.destination == CORE {
        if far.creation == UDP_IPV4 {
          action := RemoveOuterHeader(p, arp);
          return;
        }
      } else if far.destination == ACCESS {
        if far.creation == GTPU_UDP_IPV4 {
          var pushed := CreateOuterHeader(p, far, arp);
          return Redirect(DOWNLINK);
        }
      }
    }
    return Pass;
  }

  /** With 36 octets of head room in front of a frame and an address for the other end, the frame is encapsulated. */
  lemma {:induction false} DownlinkEncapsulates(room: bytes, frame: bytes, far: Far, arp: map<Quad, Mac>)
    requires |room| == GTP_ENCAPSULATED_SIZE && |frame| >= 34 && far.ipv4 in arp
    ensures Downlink(room + frame, far, arp) == Encapsulated(frame, far, arp[far.ipv4])
  {
    hide FromBE, Pushed, HeaderCheck, Encapsulated, GivenUp;
    PushedIsEncapsulated(room, frame, far, arp[far.ipv4]);
  }

  // ---------------------------------------------------------------- what the two directions promise

  /**
   Decapsulating an encapsulated frame gives the frame back, except for the destination MAC address:
   it is looked up with the destination of the inner packet.
   */
  lemma {:induction false} DecapsulationUndoesEncapsulation(frame: bytes, far: Far, mac: Mac, arp: map<Quad, Mac>)
    requires |frame| >= 34
    ensures var (action, result) := Uplink(Encapsulated(frame, far, mac), arp);
            if frame[30..34] in arp then action == Redirect(UPLINK) && result == arp[frame[30..34]] + frame[6..]
            else action == Drop
  {
    hide Outer, Put;
    var e := Encapsulated(frame, far, mac);
    var head := mac + frame[6..14] + Outer(frame[16..18], far);
    assert e == head + frame[14..] && |head| == 50;
    assert e[66..70] == frame[30..34] && e[50..] == frame[14..] && e[6..14] == frame[6..14];
    if frame[30..34] in arp {
      assert frame[6..14] + frame[14..] == frame[6..];
      Assoc(arp[frame[30..34]], frame[6..14], frame[14..]);
    }
  }

  /** The outer IPv4 header checks out, in host and in network byte order, for every inner length and address. */
  lemma {:induction false} OuterHeaderValid(frame: bytes, far: Far, mac: Mac)
    requires |frame| >= 34
    ensures Valid(Words(Encapsulated(frame, far, mac)[14..34])) && Valid(NetWords(Encapsulated(frame, far, mac)[14..34]))
  {
    hide Valid, HeaderCheck, IpHeader, UdpHeader, GtpHeader, Words, NetWords;
    var inner := FromBE(frame[16..18]);
    var check := HeaderCheck(inner, far.ipv4);
    var h := IpHeader(inner, far.ipv4, check);
    assert Encapsulated(frame, far, mac)[14..34] == h;
    HeaderValid(inner, far.ipv4);
    ValidInEitherOrder(Words(h));
    NetWordsAreSwapped(h);
  }

  lemma {:induction false} HeaderValid(inner: nat, daddr: Quad)
    ensures Valid(Words(IpHeader(inner, daddr, HeaderCheck(inner, daddr))))
  {
    hide Valid, IpHeader, Diff, ByDiff, Words, Word, Pairs;
    var check := HeaderCheck(inner, daddr);
    var w := Words(IpHeader(inner, daddr, 0));
    CheckWord(inner, daddr, check);
    FreshChecksumValid(w, 5);
  }

  /** Two headers that differ in the checksum differ in word 5. */
  lemma {:induction false} CheckWord(inner: nat, daddr: Quad, check: u16)
    ensures Words(IpHeader(inner, daddr, check)) == Words(IpHeader(inner, daddr, 0))[5 := check]
    ensures Words(IpHeader(inner, daddr, 0))[5] == 0 && Words(IpHeader(inner, daddr, 0))[0] != 0
  {
    hide BE;
    var a, b := IpHeader(inner, daddr, check), IpHeader(inner, daddr, 0);
    assert forall k :: 0 <= k < 20 && k != 10 && k != 11 ==> a[k] == b[k];
    assert LE(2, check) == [check % 256, check / 256];
    assert a[10] == check % 256 && a[11] == check / 256;
    assert b[10] == 0 && b[11] == 0 && b[0] == 0x45;
    WordOfOctets(check);
    var w := Words(b)[5 := check];
    forall i | 0 <= i < 10 ensures Words(a)[i] == w[i] {
    }
  }

  lemma {:induction false} WordOfOctets(v: u16)
    ensures Word(v % 256, v / 256) == v
  {
  }
}
