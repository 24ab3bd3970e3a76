/**
 The entry program of `upf_xdp_bpf.c`: the layered parser that finds the key under which a packet's next
 program is registered, and its agreement with the encapsulator of `far_bpf.c`.
 */
module Entry {
  import opened Wire
  import opened Packet
  import opened Gtpu

  const ETH_P_IP: nat := 0x0800
  const ETH_P_8021Q: nat := 0x8100
  const ETH_P_8021AD: nat := 0x88a8

  /** `next_rule_prog_index_key`. */
  datatype Key = Key(teid: Quad, source: byte, ipv4: Quad)

  /** Either the parser answers itself, or it looks a key up (and passes the packet on a miss). */
  datatype Verdict = Answer(action: Action) | Lookup(key: Key)

  /** `eth_handle`: behind a VLAN tag everything is taken for IPv4. */
  function Classify(f: bytes): Verdict {
    if |f| < 14 then Answer(Pass)
    else
      var ethType := FromBE(f[12..14]);
      if ethType == ETH_P_8021Q || ethType == ETH_P_8021AD then Ipv4Handle(f, 18)
      else if ethType == ETH_P_IP then Ipv4Handle(f, 14)
      else Answer(Pass)
  }

  /** `ipv4_handle`: the header length field is not looked at. */
  function Ipv4Handle(f: bytes, at: nat): Verdict {
    if at + 20 > |f| then Answer(Aborted)
    else if f[at + 9] == IPPROTO_UDP then UdpHandle(f, at + 20, f[at + 12..at + 16], f[at + 16..at + 20])
    else Answer(Pass)
  }

  /** `udp_handle`. */
  function UdpHandle(f: bytes, at: nat, source: Quad, destination: Quad): Verdict {
    if at + 8 > |f| then Answer(Aborted)
    else if FromBE(f[at + 2..at + 4]) == GTP_UDP_PORT then GtpHandle(f, at + 8, source)
    else Lookup(Key([0, 0, 0, 0], CORE, destination))
  }

  /** `gtp_handle`. */
  function GtpHandle(f: bytes, at: nat, source: Quad): Verdict {
    if at + 8 > |f| then Answer(Drop)
    else if f[at + 1] != GTPU_G_PDU then Answer(Pass)
    else if !InnerIsIpv4(f, at + 8) then Answer(Drop)
    else Lookup(Key(f[at + 4..at + 8], ACCESS, source))
  }

  /** `ip_inner_check_ipv4`. */
  predicate InnerIsIpv4(f: bytes, at: nat) {
    at + 20 <= |f| && f[at] / 16 == 4
  }

  /** Where each field of an encapsulated frame lies. */
  lemma {:induction false} Layout(frame: bytes, far: Far, mac: Mac)
    requires |frame| >= 34
    ensures var e := Encapsulated(frame, far, mac);
            && e[12..14] == frame[12..14]
            && e[14] == 0x45 && e[16..18] == BE(2, FromBE(frame[16..18]) + 36)
            && e[23] == IPPROTO_UDP && e[26..30] == LE(4, LOCAL_IP) && e[30..34] == far.ipv4
            && e[36..38] == BE(2, far.port) && e[38..40] == BE(2, FromBE(frame[16..18]) + 16)
            && e[43] == GTPU_G_PDU && e[44..46] == frame[16..18] && e[46..50] == far.teid
            && e[50..] == frame[14..]
  {
    hide BE, LE, FromBE, HeaderCheck, IpHeader, UdpHeader, GtpHeader;
    var inner := FromBE(frame[16..18]);
    var ip := IpHeader(inner, far.ipv4, HeaderCheck(inner, far.ipv4));
    var udp, gtp := UdpHeader(inner, far.port), GtpHeader(frame[16..18], far.teid);
    var e := Encapsulated(frame, far, mac);
    assert e[14..34] == ip && e[34..42] == udp && e[42..50] == gtp && e[50..] == frame[14..];
    assert e[12..14] == frame[12..14];
    IpLayout(inner, far.ipv4, HeaderCheck(inner, far.ipv4));
    UdpLayout(inner, far.port);
    GtpLayout(frame[16..18], far.teid);
    assert e[14] == ip[0] && e[16..18] == ip[2..4] && e[23] == ip[9] && e[26..30] == ip[12..16] && e[30..34] == ip[16..20];
    assert e[36..38] == udp[2..4] && e[38..40] == udp[4..6];
    assert e[43] == gtp[1] && e[44..46] == gtp[2..4] && e[46..50] == gtp[4..8];
  }

  lemma {:induction false} IpLayout(inner: nat, daddr: Quad, check: u16)
    ensures var h := IpHeader(inner, daddr, check);
            h[0] == 0x45 && h[2..4] == BE(2, inner + 36) && h[9] == IPPROTO_UDP && h[12..16] == LE(4, LOCAL_IP)
            && h[16..20] == daddr
  {
    hide BE, LE;
  }

  lemma {:induction false} UdpLayout(inner: nat, port: u16)
    ensures UdpHeader(inner, port)[2..4] == BE(2, port) && UdpHeader(inner, port)[4..6] == BE(2, inner + 16)
  {
    hide BE;
  }

  lemma {:induction false} GtpLayout(length: bytes, teid: Quad)
    requires |length| == 2
    ensures var h := GtpHeader(length, teid); h[1] == GTPU_G_PDU && h[2..4] == length && h[4..8] == teid
  {
  }

  /**
   Encapsulator and parser agree: the parser looks an encapsulated frame up under the rule's TEID, ACCESS
   and the outer source address exactly when it was IPv4 with no VLAN tag, the rule's port is 2152 and the inner
   packet's version is 4.
   */
  lemma {:induction false} EncapsulatedIsLookedUpIff(frame: bytes, far: Far, mac: Mac)
    requires |frame| >= 34
    ensures Classify(Encapsulated(frame, far, mac)) == Lookup(Key(far.teid, ACCESS, [10, 1, 3, 30]))
            <==> FromBE(frame[12..14]) == ETH_P_IP && far.port == GTP_UDP_PORT && frame[14] / 16 == 4
  {
    hide FromBE, BE, LE, Encapsulated;
    Layout(frame, far, mac);
    var e := Encapsulated(frame, far, mac);
    LocalIp();
    PortReadsBack(far.port);
    assert e[50] == e[50..][0] == frame[14];
    var t := FromBE(frame[12..14]);
    if t == ETH_P_8021Q || t == ETH_P_8021AD {
      // the octet taken for the protocol number is the second one of the outer source address
      assert e[27] == e[26..30][1] == 1;
    }
  }

  lemma {:induction false} LocalIp()
    ensures LE(4, LOCAL_IP) == [10, 1, 3, 30]
  {
    assert LE(1, 30) == [30];
    assert LE(2, 7683) == [3] + LE(1, 30) == [3, 30];
    assert LE(3, 1966849) == [1] + LE(2, 7683) == [1, 3, 30];
  }

  lemma {:induction false} PortReadsBack(v: u16)
    ensures FromBE(BE(2, v)) == v
  {
    Pow256Values();
    BEFits(2, v);
  }

  /**
   The three nested length fields agree (IP total less 20 is the UDP length, that less 16 the GTP
   length, which is the inner packet's total length) exactly when the inner packet has at most 65499 octets.
   */
  lemma {:induction false} NestedLengthsAgreeIff(frame: bytes, far: Far, mac: Mac)
    requires |frame| >= 34
    ensures var e := Encapsulated(frame, far, mac);
            var total, udp, gtp := FromBE(e[16..18]), FromBE(e[38..40]), FromBE(e[44..46]);
            gtp == FromBE(frame[16..18])
            && (total - 20 == udp && udp - 16 == gtp <==> FromBE(frame[16..18]) <= 65499)
  {
    hide FromBE, BE, LE, Encapsulated;
    Layout(frame, far, mac);
    var inner := FromBE(frame[16..18]);
    Pow256Values();
    FromBEBound(frame[16..18]);
    BERoundTrip(2, inner + 36);
    BERoundTrip(2, inner + 16);
    LowHalf(inner + 36);
    LowHalf(inner + 16);
  }

  lemma {:induction false} LowHalf(v: nat)
    requires v < 0x2_0000
    ensures v % 0x1_0000 == if v < 0x1_0000 then v else v - 0x1_0000
  {
  }

  /** The parser's own answers: which packets are never looked up, and how. */
  lemma {:induction false} LookedUpIff(f: bytes, key: Key)
    ensures Classify(f) == Lookup(key) <==>
            exists at: nat :: Starts(f, at) && (GtpAt(f, at, key) || PlainAt(f, at, key))
  {
    hide FromBE;
    if Classify(f) == Lookup(key) {
      var at: nat := if FromBE(f[12..14]) == ETH_P_IP then 14 else 18;
      assert Starts(f, at) && (GtpAt(f, at, key) || PlainAt(f, at, key));
    }
  }

  /** The packets the parser gives up on: cut short in the outer headers, or a G-PDU without a whole IPv4 header inside. */
  lemma {:induction false} RejectedIff(f: bytes)
    ensures Classify(f) == Answer(Aborted) <==>
            exists at: nat :: Layer3(f, at) && (|f| < at + 20 || (f[at + 9] == IPPROTO_UDP && |f| < at + 28))
    ensures Classify(f) == Answer(Drop) <==>
            exists at: nat :: Starts(f, at) && FromBE(f[at + 22..at + 24]) == GTP_UDP_PORT
                              && (|f| < at + 36 || (f[at + 29] == GTPU_G_PDU && !InnerIsIpv4(f, at + 36)))
  {
    hide FromBE;
    if |f| >= 14 {
      var at: nat := if FromBE(f[12..14]) == ETH_P_IP then 14 else 18;
      if Classify(f) == Answer(Aborted) {
        assert Layer3(f, at);
      }
      if Classify(f) == Answer(Drop) {
        assert Starts(f, at);
      }
    }
  }

  /** The IPv4 header is taken to begin at `at`. */
  predicate Layer3(f: bytes, at: nat) {
    && |f| >= 14 && FromBE(f[12..14]) in {ETH_P_IP, ETH_P_8021Q, ETH_P_8021AD}
    && at == if FromBE(f[12..14]) == ETH_P_IP then 14 else 18
  }

  /** An IPv4 header is taken to begin at `at`, and it announces UDP. */
  predicate Starts(f: bytes, at: nat) {
    && |f| >= at + 28 && |f| >= 14 && f[at + 9] == IPPROTO_UDP
    && at == (if FromBE(f[12..14]) == ETH_P_IP then 14 else 18)
    && FromBE(f[12..14]) in {ETH_P_IP, ETH_P_8021Q, ETH_P_8021AD}
  }

  /** A G-PDU around an IPv4 packet: keyed by its TEID and outer source. */
  predicate GtpAt(f: bytes, at: nat, key: Key)
    requires Starts(f, at)
  {
    && FromBE(f[at + 22..at + 24]) == GTP_UDP_PORT
    && |f| >= at + 56 && f[at + 29] == GTPU_G_PDU && f[at + 36] / 16 == 4
    && key == Key(f[at + 32..at + 36], ACCESS, f[at + 12..at + 16])
  }

  /** Any other UDP packet: keyed by its destination. */
  predicate PlainAt(f: bytes, at: nat, key: Key)
    requires Starts(f, at)
  {
    FromBE(f[at + 22..at + 24]) != GTP_UDP_PORT && key == Key([0, 0, 0, 0], CORE, f[at + 16..at + 20])
  }
}
