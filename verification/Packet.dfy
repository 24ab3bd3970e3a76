/**
 The packet a BPF program works on: a buffer with head room, the two pointers `data` and `data_end`, and
 the operations `far_bpf.c` performs on it in place.
 */
module Packet {
  import opened Wire
  import opened Checksum

  const ETH_HLEN: nat := 14
  const EINVAL: int := 22
  const EFAULT: int := 14

  /** f with d stored at offset off. */
  function Put(f: bytes, off: nat, d: bytes): (r: bytes)
    requires off + |d| <= |f|
    ensures |r| == |f|
  {
    f[..off] + d + f[off + |d|..]
  }

  /** Storing at the end of the part of a frame that is already written extends that part. */
  lemma {:induction false} PutNext(prefix: bytes, d: bytes, view: bytes)
    requires |prefix| + |d| <= |view|
    ensures Put(prefix + view[|prefix|..], |prefix|, d) == (prefix + d) + view[|prefix + d|..]
  {
    var f := prefix + view[|prefix|..];
    assert f[..|prefix|] == prefix;
    assert f[|prefix| + |d|..] == view[|prefix + d|..];
  }

  /** The 16-bit words of a header as a little-endian host reads them. */
  function Words(h: bytes): (r: seq<u16>)
    requires |h| % 2 == 0
    ensures |r| == |h| / 2
    ensures forall i :: 0 <= i < |r| ==> r[i] == Word(h[2 * i], h[2 * i + 1])
  {
    seq(|h| / 2, i requires 0 <= i < |h| / 2 => Word(h[2 * i], h[2 * i + 1]))
  }

  function Word(first: byte, second: byte): u16 {
    var a: int, b: int := first, second;
    a + 256 * b
  }

  /** The 16-bit words of a header in network byte order. */
  function NetWords(h: bytes): (r: seq<u16>)
    requires |h| % 2 == 0
  {
    seq(|h| / 2, i requires 0 <= i < |h| / 2 => Word(h[2 * i + 1], h[2 * i]))
  }

  lemma {:induction false} NetWordsAreSwapped(h: bytes)
    requires |h| % 2 == 0
    ensures NetWords(h) == SwapAll(Words(h))
  {
    forall i | 0 <= i < |h| / 2 ensures NetWords(h)[i] == Swap(Words(h)[i]) {
      WordSwapped(h[2 * i], h[2 * i + 1]);
    }
  }

  lemma {:induction false} WordSwapped(first: byte, second: byte)
    ensures Swap(Word(first, second)) == Word(second, first)
  {
    var a: int, b: int := first, second;
    assert (a + 256 * b) / 256 == b && (a + 256 * b) % 256 == a;
  }

  class Xdp {
    const buf: array<byte>
    var data: nat
    var dataEnd: nat

    ghost predicate Valid()
      reads this
    {
      data <= dataEnd <= buf.Length
    }

    function Frame(): (f: bytes)
      requires Valid()
      reads this, buf
      ensures |f| == dataEnd - data
    {
      buf[data..dataEnd]
    }

    constructor (buf: array<byte>, data: nat, dataEnd: nat)
      requires data <= dataEnd <= buf.Length
      ensures Valid() && this.buf == buf && this.data == data && this.dataEnd == dataEnd
    {
      this.buf, this.data, this.dataEnd := buf, data, dataEnd;
    }

    /** `bpf_xdp_adjust_head`: moves `data`, unless it would leave the buffer or no room for an Ethernet header. */
    method AdjustHead(delta: int)
      requires Valid()
      modifies this`data
      ensures Valid()
      ensures data as int == if 0 <= old(data) + delta <= dataEnd - ETH_HLEN then old(data) + delta else old(data)
    {
      if 0 <= data + delta <= dataEnd - ETH_HLEN {
        data := data + delta;
      }
    }

    /** A store of several octets, field assignment or `memcpy`. */
    method Store(off: nat, d: bytes)
      requires Valid() && off + |d| <= dataEnd - data
      modifies buf
      ensures Frame() == Put(old(Frame()), off, d)
      ensures buf[..data] == old(buf[..data]) && buf[dataEnd..] == old(buf[dataEnd..])
    {
      ghost var was := buf[..];
      var at := data + off;
      for i := 0 to |d|
        invariant forall k :: 0 <= k < buf.Length ==> buf[k] == if at <= k < at + i then d[k - at] else was[k]
      {
        buf[at + i] := d[i];
      }
      assert Frame() == Put(was[data..dataEnd], off, d);
      assert buf[..data] == was[..data] && buf[dataEnd..] == was[dataEnd..];
    }

    /** A store into the next field of a header: `done` precedes the header, `head` is what it already holds. */
    method StoreNext(ghost done: bytes, ghost head: bytes, d: bytes, off: nat, ghost view: bytes)
      requires Valid() && off == |done| + |head| && off + |d| <= |view|
      requires Frame() == done + head + view[off..]
      modifies buf
      ensures Frame() == done + (head + d) + view[off + |d|..]
      ensures buf[..data] == old(buf[..data]) && buf[dataEnd..] == old(buf[dataEnd..])
    {
      PutNext(done + head, d, view);
      Assoc(done, head, d);
      Store(off, d);
    }

    /** `pcn_l3_csum_replace`. */
    method L3CsumReplace(offset: u32, oldValue: u32, newValue: u32, flags: u32) returns (r: int)
      requires Valid()
      modifies buf
      ensures r == 0 <==> flags in {0, 2, 4} && offset <= 0xffff && offset % 2 == 0 && offset + 2 <= |old(Frame())|
      ensures flags >= 16 ==> r == -EINVAL
      ensures flags < 16 && (offset > 0xffff || offset % 2 == 1) ==> r == -EFAULT
      ensures r in {0, -EINVAL, -EFAULT}
      ensures buf[..data] == old(buf[..data]) && buf[dataEnd..] == old(buf[dataEnd..])
      ensures r != 0 ==> Frame() == old(Frame())
      ensures r == 0 ==>
                var f := old(Frame());
                var check := Replace(Word(f[offset], f[offset + 1]), oldValue, newValue, flags);
                check.Stored? && Frame() == Put(f, offset, LE(2, check.check))
    {
      if flags >= 16 {
        return -EINVAL;
      }
      if offset > 0xffff || offset % 2 == 1 {
        return -EFAULT;
      }
      if data + offset + 2 > dataEnd {
        return -EINVAL;
      }
      var check := Replace(Word(buf[data + offset], buf[data + offset + 1]), oldValue, newValue, flags);
      match check {
        case Stored(value) =>
          Store(offset, LE(2, value));
          return 0;
        case Rejected =>
          return -EINVAL;
      }
    }
  }
}
