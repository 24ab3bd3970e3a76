/**
 Trees of information elements survive printing and parsing, whatever follows them in the stream.
 */
module PfcpTreeTrip {
  import opened Wire
  import opened PfcpLeaf
  import opened PfcpLeafStream
  import opened PfcpLeafTrip
  import opened PfcpTree

  /** What the elements of ies from the i-th on add to the length of their group in `add_ie`. */
  function SizeFrom(ies: seq<Ie>, i: nat): nat
    requires i <= |ies|
    decreases |ies| - i
  {
    if i == |ies| then 0 else ies[i].tlv.length + 4 + SizeFrom(ies, i + 1)
  }

  /** The stored lengths say what is stored, leaves are well formed and no group is empty. */
  ghost predicate WfIe(ie: Ie) {
    && ie.tlv.enterprise == 0 && 0 < ie.tlv.length < 0x1_0000
    && match ie
       case LeafIe(tlv, leaf) => WfLeaf(tlv.t, leaf) && tlv.length == |Body(tlv.t, leaf)|
       case GroupIe(tlv, ies) => KindOf(tlv.t) == Grouped && tlv.length == SizeFrom(ies, 0) && WfAll(ies)
  }

  ghost predicate WfAll(ies: seq<Ie>) {
    forall i :: 0 <= i < |ies| ==> WfIe(ies[i])
  }

  /** The tree with every leaf normalised. */
  function NormIe(ie: Ie, junk: byte): Ie
    decreases ie
  {
    match ie
    case LeafIe(tlv, leaf) => LeafIe(tlv, Norm(leaf, junk))
    case GroupIe(tlv, ies) => GroupIe(tlv, NormUpTo(ies, |ies|, junk))
  }

  function NormUpTo(ies: seq<Ie>, n: nat, junk: byte): (r: seq<Ie>)
    requires n <= |ies|
    ensures |r| == n
    decreases ies, n
  {
    if n == 0 then [] else NormUpTo(ies, n - 1, junk) + [NormIe(ies[n - 1], junk)]
  }

  lemma {:induction false} KnownTypesAreSmall(t: nat)
    ensures KindOf(t) != Unknown ==> 0 < t < 256
  {
  }

  lemma {:induction false} DispatchedLeaf(t: nat, leaf: Leaf)
    requires WfLeaf(t, leaf)
    ensures KindOf(t) != Unknown && KindOf(t) != Grouped
  {
  }

  /** The length computed again while printing is the one that was stored. */
  lemma {:induction false} DumpedLengthIsStored(tlv: Tlv, leaf: Leaf)
    requires WfLeaf(tlv.t, leaf) && tlv.length == |Body(tlv.t, leaf)| < 0x1_0000
    ensures DumpedLength(tlv, leaf) == tlv.length
  {
  }

  /** The four octets in front of an element. */
  lemma {:induction false} TlvReadsBack(tlv: Tlv, s: Stream, rest: bytes)
    requires tlv.t < 256 && tlv.length < 0x1_0000 && tlv.enterprise == 0
    requires s.Valid() && s.At(DumpTlv(tlv) + rest)
    ensures LoadTlv(s) == (tlv, s.Skip(4)) && s.Skip(4).At(rest)
  {
    Pow256Values();
    ZeroTwo();
    assert DumpTlv(tlv) + rest == BE(2, tlv.t) + (BE(2, tlv.length) + rest);
    NumberNext(s, [0, 0], 2, tlv.t, BE(2, tlv.length) + rest);
    NumberNext(s.Skip(2), [0, 0], 2, tlv.length, rest);
  }

  /** Well-formed trees are within the demands of the printer, which then does not throw. */
  lemma {:induction false} WfIsPrintable(ie: Ie)
    requires WfIe(ie)
    ensures PrintableIe(ie) && MarkingsFit(ie)
    decreases ie
  {
    match ie
    case LeafIe(tlv, leaf) =>
    case GroupIe(tlv, ies) =>
      forall i | 0 <= i < |ies| ensures PrintableIe(ies[i]) && MarkingsFit(ies[i]) {
        WfIsPrintable(ies[i]);
      }
  }

  /** A whole element takes four octets more than its stored length. */
  lemma {:induction false} DumpSize(ie: Ie)
    requires WfIe(ie)
    ensures |DumpIe(ie)| == ie.tlv.length + 4
    decreases ie
  {
    KnownTypesAreSmall(ie.tlv.t);
    match ie
    case LeafIe(tlv, leaf) =>
      DispatchedLeaf(tlv.t, leaf);
      DumpedLengthIsStored(tlv, leaf);
    case GroupIe(tlv, ies) => DumpFromSize(ies, 0);
  }

  lemma {:induction false} DumpFromSize(ies: seq<Ie>, i: nat)
    requires i <= |ies| && WfAll(ies)
    ensures |DumpFrom(ies, i)| == SizeFrom(ies, i)
    decreases ies, |ies| - i
  {
    if i < |ies| {
      DumpSize(ies[i]);
      DumpFromSize(ies, i + 1);
    }
  }

  /**
   Parsing a stream whose next octets are those of a well-formed tree gives the tree back, normalised,
   and leaves the stream right behind them.
   */
  lemma {:induction false} IeRoundTrip(ie: Ie, s: Stream)
    requires WfIe(ie) && s.Valid() && s.At(DumpIe(ie))
    ensures NewIe(s) == Some(NormIe(ie, s.junk), s.Skip(|DumpIe(ie)|))
    decreases ie
  {
    hide Load, LoadTlv, DumpTlv, Body, DumpedLength, WfLeaf, Norm, KindOf;
    DumpSize(ie);
    match ie
    case LeafIe(tlv, leaf) => LeafIeRoundTrip(tlv, leaf, s);
    case GroupIe(tlv, ies) =>
      KnownTypesAreSmall(tlv.t);
      TlvReadsBack(tlv, s, DumpFrom(ies, 0));
      GroupRoundTrip(tlv, ies, 0, s.Skip(4));
      DumpFromSize(ies, 0);
  }

  lemma {:induction false} LeafIeRoundTrip(tlv: Tlv, leaf: Leaf, s: Stream)
    requires WfIe(LeafIe(tlv, leaf)) && s.Valid() && s.At(DumpIe(LeafIe(tlv, leaf)))
    ensures NewIe(s) == Some(LeafIe(tlv, Norm(leaf, s.junk)), s.Skip(tlv.length + 4))
  {
    hide Load, LoadTlv, DumpTlv, Body, DumpedLength, WfLeaf, Norm, KindOf;
    DispatchedLeaf(tlv.t, leaf);
    KnownTypesAreSmall(tlv.t);
    DumpedLengthIsStored(tlv, leaf);
    TlvReadsBack(tlv, s, Body(tlv.t, leaf));
    LeafRoundTrip(tlv.t, leaf, s.Skip(4));
  }

  /** The loop over the children, from the i-th on. */
  lemma {:induction false} GroupRoundTrip(tlv: Tlv, ies: seq<Ie>, i: nat, s: Stream)
    requires i <= |ies| && WfAll(ies) && s.Valid() && s.At(DumpFrom(ies, i))
    ensures LoadGroup(tlv, SizeFrom(ies, i), NormUpTo(ies, i, s.junk), s)
         == Some(GroupIe(tlv, NormUpTo(ies, |ies|, s.junk)), s.Skip(|DumpFrom(ies, i)|))
    decreases ies, |ies| - i
  {
    hide Load, KindOf, LoadTlv, DumpTlv, Body, DumpedLength, WfLeaf, Norm;
    if i < |ies| {
      var d, rest, junk := DumpIe(ies[i]), DumpFrom(ies, i + 1), s.junk;
      AtSplit(s, d, rest);
      IeRoundTrip(ies[i], s);
      GroupRoundTrip(tlv, ies, i + 1, s.Skip(|d|));
      GroupStep(tlv, SizeFrom(ies, i), NormUpTo(ies, i, junk), s, NormIe(ies[i], junk), s.Skip(|d|));
    }
  }

  /** One turn of the loop. */
  lemma {:induction false} GroupStep(tlv: Tlv, remaining: int, ies: seq<Ie>, s: Stream, ie: Ie, s1: Stream)
    requires s.Valid() && s1.Valid() && remaining > 0 && NewIe(s) == Some(ie, s1)
    ensures LoadGroup(tlv, remaining, ies, s) == LoadGroup(tlv, remaining - (ie.tlv.length + 4), ies + [ie], s1)
  {
    hide Load, KindOf, NewIe, LoadTlv;
  }

  lemma {:induction false} AtSplit(s: Stream, d: bytes, rest: bytes)
    requires s.Valid() && s.At(d + rest)
    ensures s.At(d) && s.Skip(|d|).Valid() && s.Skip(|d|).At(rest)
  {
    ReadNext(s, d, d, rest);
    assert s.data[s.pos..s.pos + |d + rest|][..|d|] == d;
  }
}
