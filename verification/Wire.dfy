/**
 Octets, network byte order, and the C++ streams the PFCP codec reads and writes.
 */
module Wire {

  type byte = x: int | 0 <= x < 256
  type u16 = x: int | 0 <= x < 0x1_0000
  type u32 = x: int | 0 <= x < 0x1_0000_0000
  type bytes = seq<byte>

  /** 256 to the power n. */
  function Pow256(n: nat): (r: nat)
    ensures r > 0
  {
    if n == 0 then 1 else 256 * Pow256(n - 1)
  }

  /** The low n octets of v, most significant first: what `htobe` followed by a write of n octets puts on the wire. */
  function BE(n: nat, v: nat): (r: bytes)
    ensures |r| == n
  {
    if n == 0 then [] else BE(n - 1, v / 256) + [v % 256]
  }

  /** The number whose octets are s, most significant first: a read followed by `be…toh`. */
  function FromBE(s: bytes): (v: nat)
  {
    if s == [] then 0 else FromBE(s[..|s| - 1]) * 256 + s[|s| - 1]
  }

  /** The octets of v in the memory of a little-endian host. */
  function LE(n: nat, v: nat): (r: bytes)
    ensures |r| == n
  {
    if n == 0 then [] else [v % 256] + LE(n - 1, v / 256)
  }

  function Repeat(n: nat, b: byte): (r: bytes)
    ensures |r| == n
    ensures forall i :: 0 <= i < n ==> r[i] == b
  {
    seq(n, _ => b)
  }

  lemma {:induction false} Assoc(a: bytes, b: bytes, c: bytes)
    ensures a + (b + c) == (a + b) + c
  {
  }

  lemma {:induction false} FromBEBound(s: bytes)
    ensures FromBE(s) < Pow256(|s|)
  {
    if s != [] {
      FromBEBound(s[..|s| - 1]);
    }
  }

  /** Printing n octets and reading them back keeps a number modulo 256^n. */
  lemma {:induction false} BERoundTrip(n: nat, v: nat)
    ensures FromBE(BE(n, v)) == v % Pow256(n)
  {
    if n > 0 {
      BERoundTrip(n - 1, v / 256);
      assert BE(n, v)[..n - 1] == BE(n - 1, v / 256);
      DivModSplit(v, Pow256(n - 1));
    }
  }

  lemma {:induction false} DivModSplit(v: nat, p: nat)
    requires p > 0
    ensures (v / 256) % p * 256 + v % 256 == v % (256 * p)
  {
    var q, d := v / 256 / p, (v / 256) % p;
    assert v / 256 == q * p + d;
    assert v == 256 * (q * p + d) + v % 256;
    assert 256 * (q * p + d) == (256 * p) * q + 256 * d by {
      assert 256 * (q * p + d) == 256 * (q * p) + 256 * d;
      assert 256 * (q * p) == (256 * p) * q;
    }
    assert 0 <= 256 * d + v % 256 < 256 * p;
    ModUnique(v, 256 * p, q, 256 * d + v % 256);
  }

  lemma {:induction false} ModUnique(v: int, m: int, q: int, r: int)
    requires m > 0 && 0 <= r < m && v == m * q + r
    ensures v % m == r && v / m == q
  {
    var d, e := v / m - q, r - v % m;
    assert v == m * (v / m) + v % m;
    assert m * d == e by {
      assert m * d == m * (v / m) - m * q;
    }
    MulGrows(m, d);
  }

  lemma {:induction false} MulGrows(m: int, d: int)
    requires m > 0
    ensures d >= 1 ==> m * d >= m
    ensures d <= -1 ==> m * d <= -m
  {
    if d >= 1 {
      assert m * d == m + m * (d - 1);
    } else if d <= -1 {
      assert m * d == -m + m * (d + 1);
    }
  }

  /** Reading octets as a number and printing it gives the octets back. */
  lemma {:induction false} BEOfFromBE(s: bytes)
    ensures BE(|s|, FromBE(s)) == s
  {
    if s != [] {
      BEOfFromBE(s[..|s| - 1]);
      var n := FromBE(s[..|s| - 1]);
      assert (n * 256 + s[|s| - 1]) / 256 == n && (n * 256 + s[|s| - 1]) % 256 == s[|s| - 1];
    }
  }

  lemma {:induction false} BEFits(n: nat, v: nat)
    requires v < Pow256(n)
    ensures FromBE(BE(n, v)) == v
  {
    BERoundTrip(n, v);
    ModUnique(v, Pow256(n), 0, v);
  }

  lemma {:induction false} Pow256Values()
    ensures Pow256(1) == 0x100 && Pow256(2) == 0x1_0000 && Pow256(3) == 0x100_0000
    ensures Pow256(4) == 0x1_0000_0000 && Pow256(8) == 0x1_0000_0000_0000_0000
  {
    assert Pow256(5) == 256 * Pow256(4);
    assert Pow256(6) == 256 * Pow256(5);
    assert Pow256(7) == 256 * Pow256(6);
  }

  lemma {:induction false} FourLE(v: nat)
    ensures LE(4, v) == [v % 256, v / 256 % 256, v / 256 / 256 % 256, v / 256 / 256 / 256 % 256]
  {
    assert LE(1, v / 256 / 256 / 256) == [v / 256 / 256 / 256 % 256] + LE(0, v / 256 / 256 / 256 / 256);
    assert LE(2, v / 256 / 256) == [v / 256 / 256 % 256] + LE(1, v / 256 / 256 / 256);
    assert LE(3, v / 256) == [v / 256 % 256] + LE(2, v / 256 / 256);
  }

  /**
   State of a `std::istream` over a byte string. `ok` is false once a read has run past the end; `junk`
   is the content of any octet of memory the program reads without having initialised it.
   */
  datatype Stream = Stream(data: bytes, pos: nat, ok: bool, junk: byte) {

    predicate Valid() {
      pos <= |data|
    }

    /** What is left to read: zero once the stream has failed. Every parser terminates on this measure. */
    function Left(): nat
      requires Valid()
    {
      if ok then |data| - pos + 1 else 0
    }

    /** The stream is good and its next octets are d. */
    predicate At(d: bytes) {
      ok && pos + |d| <= |data| && data[pos..pos + |d|] == d
    }

    /** Another position in the same stream. */
    predicate Same(s: Stream) {
      data == s.data && junk == s.junk
    }

    function Skip(n: nat): Stream {
      this.(pos := pos + n)
    }
  }

  /**
   `is.read(p, n)` with n octets of memory at p that hold `memory` before the call: a failed stream
   touches nothing, a short one stores what is there, leaves the rest as it was and fails.
   */
  function Read(s: Stream, memory: bytes): (r: (bytes, Stream))
    requires s.Valid()
    ensures r.1.Valid() && |r.0| == |memory| && r.1.Same(s)
    ensures r.1.Left() <= s.Left()
    ensures s.ok && memory != [] ==> r.1.Left() < s.Left()
  {
    if !s.ok then (memory, s)
    else if s.pos + |memory| <= |s.data| then (s.data[s.pos..s.pos + |memory|], s.Skip(|memory|))
    else (s.data[s.pos..] + memory[|s.data| - s.pos..], s.(pos := |s.data|, ok := false))
  }

  /** Reading what the stream holds next. */
  lemma {:induction false} ReadNext(s: Stream, memory: bytes, d: bytes, rest: bytes)
    requires s.Valid() && s.At(d + rest) && |memory| == |d|
    ensures Read(s, memory) == (d, s.Skip(|d|)) && s.Skip(|d|).At(rest)
  {
    assert s.data[s.pos..s.pos + |d + rest|] == d + rest;
    assert s.data[s.pos..s.pos + |d|] == s.data[s.pos..s.pos + |d + rest|][..|d|] == d;
    assert s.data[s.pos + |d|..s.pos + |d + rest|] == s.data[s.pos..s.pos + |d + rest|][|d|..] == rest;
  }

  /** An input stream object. */
  class InStream {
    var st: Stream

    constructor (data: bytes, junk: byte)
      ensures st == Stream(data, 0, true, junk)
    {
      st := Stream(data, 0, true, junk);
    }

    method Get(memory: bytes) returns (r: bytes)
      requires st.Valid()
      modifies this
      ensures (r, st) == Read(old(st), memory) && st.Valid()
    {
      var p := Read(st, memory);
      r, st := p.0, p.1;
    }
  }

  /** An output stream object. */
  class OutStream {
    var written: bytes

    constructor ()
      ensures written == []
    {
      written := [];
    }

    method Put(d: bytes)
      modifies this
      ensures written == old(written) + d
    {
      written := written + d;
    }
  }
}
