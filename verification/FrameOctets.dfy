/**
 The octets of a frame, written out: what an encapsulated frame carries in front of the packet inside, and where the
 entry parser looks.
 */
module FrameOctets {
  import opened Wire
  import opened Checksum
  import opened Packet
  import opened Gtpu
  import opened Entry
  import PfcpOctets

  /** The total length field of the IPv4 packet in a frame. */
  function InnerLength(frame: bytes): u16
    requires |frame| >= 18
  {
    var high: int, low: int := frame[16], frame[17];
    0x100 * high + low
  }

  lemma {:induction false} Octets2(v: nat)
    ensures BE(2, v) == [v / 256 % 256, v % 256]
  {
    assert BE(1, v / 256) == BE(0, v / 65536) + [v / 256 % 256];
  }

  lemma {:induction false} IpOctets(inner: nat, daddr: Quad, check: u16)
    ensures var h := IpHeader(inner, daddr, check);
            && h[..10] == [0x45, 0, (inner + 36) / 256 % 256, (inner + 36) % 256, 0, 0, 0x40, 0, 64, 17]
            && h[10..12] == LE(2, check) && h[12..] == [10, 1, 3, 30] + daddr
  {
    hide BE, LE;
    Octets2(inner + 36);
    LocalIp();
    assert |IpStart(inner)| == 8;
  }

  lemma {:induction false} UdpOctets(inner: nat, port: u16)
    ensures UdpHeader(inner, port)
            == [0x08, 0x68, port / 256, port % 256, (inner + 16) / 256 % 256, (inner + 16) % 256, 0, 0]
  {
    hide BE;
    Octets2(2152);
    Octets2(port);
    Octets2(inner + 16);
  }

  lemma {:induction false} InnerIs(frame: bytes)
    requires |frame| >= 18
    ensures FromBE(frame[16..18]) == InnerLength(frame)
  {
    PfcpOctets.Number2(frame[16..18]);
  }

  /** Every octet of an encapsulated frame but the two of the header checksum. */
  lemma {:induction false} EncapsulatedOctets(frame: bytes, far: Far, mac: Mac)
    requires |frame| >= 34
    ensures var e, inner := Encapsulated(frame, far, mac), InnerLength(frame);
            && |e| == |frame| + 36
            && e[..14] == mac + frame[6..14]
            && e[14..24] == [0x45, 0, (inner + 36) / 256 % 256, (inner + 36) % 256, 0, 0, 0x40, 0, 64, 17]
            && e[26..34] == [10, 1, 3, 30] + far.ipv4
            && e[34..42] == [0x08, 0x68, far.port / 256, far.port % 256, (inner + 16) / 256 % 256, (inner + 16) % 256, 0, 0]
            && e[42..50] == [0x30, 0xff, frame[16], frame[17]] + far.teid
            && e[50..] == frame[14..]
  {
    hide BE, LE, FromBE, HeaderCheck, IpHeader, UdpHeader;
    var inner := InnerLength(frame);
    InnerIs(frame);
    var ip := IpHeader(inner, far.ipv4, HeaderCheck(inner, far.ipv4));
    var udp, gtp := UdpHeader(inner, far.port), GtpHeader(frame[16..18], far.teid);
    var e := Encapsulated(frame, far, mac);
    assert e == mac + frame[6..14] + ip + udp + gtp + frame[14..];
    IpOctets(inner, far.ipv4, HeaderCheck(inner, far.ipv4));
    UdpOctets(inner, far.port);
    assert e[14..24] == ip[..10] && e[26..34] == ip[12..] && e[34..42] == udp && e[42..50] == gtp;
    assert gtp == [0x30, 0xff, frame[16], frame[17]] + far.teid;
  }

  /** The sum of the ten 16-bit words at an offset, in network order. */
  function WordSum(e: bytes, at: nat): int
    requires at + 20 <= |e|
  {
    256 * (e[at] as int + e[at + 2] as int + e[at + 4] as int + e[at + 6] as int + e[at + 8] as int + e[at + 10] as int
           + e[at + 12] as int + e[at + 14] as int + e[at + 16] as int + e[at + 18] as int)
    + e[at + 1] as int + e[at + 3] as int + e[at + 5] as int + e[at + 7] as int + e[at + 9] as int + e[at + 11] as int
    + e[at + 13] as int + e[at + 15] as int + e[at + 17] as int + e[at + 19] as int
  }

  /** The header checksum: the words of the outer IPv4 header add up to a multiple of 65535. */
  lemma {:induction false} EncapsulatedSum(frame: bytes, far: Far, mac: Mac)
    requires |frame| >= 34
    ensures WordSum(Encapsulated(frame, far, mac), 14) % 0xffff == 0
  {
    hide Encapsulated, Valid, NetWords, Words;
    var e := Encapsulated(frame, far, mac);
    OuterHeaderValid(frame, far, mac);
    var h := e[14..34];
    ValidIff(NetWords(h));
    TotalOfTen(h);
    assert forall k :: 0 <= k < 20 ==> h[k] == e[14 + k];
    assert WordSum(e, 14) == WordSum(h, 0);
  }

  lemma {:induction false} TotalOfTen(h: bytes)
    requires |h| == 20
    ensures |NetWords(h)| == 10 && Total(NetWords(h), 10) == WordSum(h, 0)
  {
    var w := NetWords(h);
    assert Total(w, 0) == 0;
    hide Total;
    assert forall k :: 0 <= k < 10 ==> w[k] == 256 * (h[2 * k] as int) + h[2 * k + 1];
    TotalStep(w, 0);
    TotalStep(w, 1);
    TotalStep(w, 2);
    TotalStep(w, 3);
    TotalStep(w, 4);
    TotalStep(w, 5);
    TotalStep(w, 6);
    TotalStep(w, 7);
    TotalStep(w, 8);
    TotalStep(w, 9);
  }

  lemma {:induction false} TotalStep(w: seq<u16>, n: nat)
    requires n < |w|
    ensures Total(w, n + 1) == Total(w, n) + w[n]
  {
  }

  /** What the program leaves of a frame of at least 70 octets behind the moved pointer when it finds no address for the other end. */
  lemma {:induction false} GivenUpOctets(view: bytes, far: Far)
    requires |view| >= 70
    ensures var inner := PfcpOctets.Value2(view[52..54]);
            GivenUp(view, far)
            == view[36..50]
               + [0x45, 0, (inner + 36) / 256 % 256, (inner + 36) % 256, 0, 0, 0x40, 0, 64, 17, 0, 0, 10, 1, 3, 30] + far.ipv4
               + [0x08, 0x68, far.port / 256, far.port % 256, (inner + 16) / 256 % 256, (inner + 16) % 256, 0, 0]
               + view[42..]
  {
    hide BE, LE, FromBE, IpHeader, UdpHeader;
    var inner := FromBE(view[52..54]);
    PfcpOctets.Number2(view[52..54]);
    IpOctets(inner, far.ipv4, 0);
    UdpOctets(inner, far.port);
    var h := IpHeader(inner, far.ipv4, 0);
    CheckField(inner, far.ipv4, 0);
    assert h == h[..10] + h[10..12] + h[12..];
    assert h == [0x45, 0, (inner + 36) / 256 % 256, (inner + 36) % 256, 0, 0, 0x40, 0, 64, 17, 0, 0, 10, 1, 3, 30] + far.ipv4;
  }

  // ---------------------------------------------------------------- where the parser looks

  /** An IPv4 header is taken to begin at `at`: behind an Ethernet header, or behind one VLAN tag of either kind. */
  predicate IpBegins(f: bytes, at: nat) {
    && |f| >= 14
    && ((at == 14 && f[12..14] == [0x08, 0x00]) || (at == 18 && (f[12..14] == [0x81, 0x00] || f[12..14] == [0x88, 0xa8])))
  }

  /** Whole outer headers announcing UDP. */
  predicate UdpBegins(f: bytes, at: nat) {
    IpBegins(f, at) && |f| >= at + 28 && f[at + 9] == 17
  }

  lemma {:induction false} TypeOctets(f: bytes)
    requires |f| >= 14
    ensures FromBE(f[12..14]) == 0x0800 <==> f[12..14] == [0x08, 0x00]
    ensures FromBE(f[12..14]) == 0x8100 <==> f[12..14] == [0x81, 0x00]
    ensures FromBE(f[12..14]) == 0x88a8 <==> f[12..14] == [0x88, 0xa8]
  {
    hide FromBE;
    PfcpOctets.Number2(f[12..14]);
  }

  lemma {:induction false} StartsAre(f: bytes, at: nat)
    ensures Layer3(f, at) <==> IpBegins(f, at)
    ensures Starts(f, at) <==> UdpBegins(f, at)
  {
    hide FromBE;
    if |f| >= 14 {
      TypeOctets(f);
    }
  }

  /**
   The packets that are looked up, and under which octets: a G-PDU to port 2152 around an IPv4 packet under its TEID,
   source interface 0 and outer source address; every other UDP packet under interface 1 and its destination.
   */
  lemma {:induction false} LookedUpOctets(f: bytes, key: Key)
    ensures Classify(f) == Lookup(key) <==>
            exists at: nat :: UdpBegins(f, at) &&
              if f[at + 22] == 0x08 && f[at + 23] == 0x68 then
                |f| >= at + 56 && f[at + 29] == 0xff && f[at + 36] / 16 == 4 && key == Key(f[at + 32..at + 36], 0, f[at + 12..at + 16])
              else key == Key([0, 0, 0, 0], 1, f[at + 16..at + 20])
  {
    hide Classify, FromBE;
    LookedUpIff(f, key);
    forall at: nat
      ensures Starts(f, at) <==> UdpBegins(f, at)
      ensures Starts(f, at) ==> (FromBE(f[at + 22..at + 24]) == 2152 <==> f[at + 22] == 0x08 && f[at + 23] == 0x68)
    {
      StartsAre(f, at);
      if Starts(f, at) {
        PfcpOctets.Number2(f[at + 22..at + 24]);
      }
    }
  }

  /** The packets that are answered with an abort or a drop. */
  lemma {:induction false} RejectedOctets(f: bytes)
    ensures Classify(f) == Answer(Aborted) <==>
            exists at: nat :: IpBegins(f, at) && (|f| < at + 20 || (f[at + 9] == 17 && |f| < at + 28))
    ensures Classify(f) == Answer(Drop) <==>
            exists at: nat :: UdpBegins(f, at) && f[at + 22] == 0x08 && f[at + 23] == 0x68
                              && (|f| < at + 36 || (f[at + 29] == 0xff && (|f| < at + 56 || f[at + 36] / 16 != 4)))
  {
    hide Classify, FromBE;
    RejectedIff(f);
    forall at: nat
      ensures Layer3(f, at) <==> IpBegins(f, at)
      ensures Starts(f, at) <==> UdpBegins(f, at)
      ensures Starts(f, at) ==> (FromBE(f[at + 22..at + 24]) == 2152 <==> f[at + 22] == 0x08 && f[at + 23] == 0x68)
    {
      StartsAre(f, at);
      if Starts(f, at) {
        PfcpOctets.Number2(f[at + 22..at + 24]);
      }
    }
  }
}
