/**
 Elements of length zero: the parser takes them for unknown ones, so a tree that holds one anywhere is not read back.
 */
module PfcpEmpty {
  import opened Wire
  import opened PfcpLeaf
  import opened PfcpLeafTrip
  import opened PfcpTree
  import opened PfcpTreeTrip

  /** Well formed, but for groups without children and strings without characters. */
  ghost predicate Shaped(ie: Ie) {
    && ie.tlv.enterprise == 0 && ie.tlv.length < 0x1_0000
    && match ie
       case LeafIe(tlv, leaf) =>
         tlv.length == |Body(tlv.t, leaf)| && (WfLeaf(tlv.t, leaf) || (KindOf(tlv.t) == Text && leaf == Str([])))
       case GroupIe(tlv, ies) => KindOf(tlv.t) == Grouped && tlv.length == SizeFrom(ies, 0) && AllShaped(ies)
  }

  ghost predicate AllShaped(ies: seq<Ie>) {
    forall i :: 0 <= i < |ies| ==> Shaped(ies[i])
  }

  /** No element of the tree has length zero. */
  ghost predicate Full(ie: Ie) {
    ie.tlv.length > 0 && match ie
                         case LeafIe(_, _) => true
                         case GroupIe(_, ies) => AllFull(ies)
  }

  ghost predicate AllFull(ies: seq<Ie>) {
    forall i :: 0 <= i < |ies| ==> Full(ies[i])
  }

  lemma {:induction false} FullIsWf(ie: Ie)
    requires Shaped(ie) && Full(ie)
    ensures WfIe(ie)
    decreases ie
  {
    match ie
    case LeafIe(tlv, leaf) =>
    case GroupIe(tlv, ies) =>
      forall i | 0 <= i < |ies| ensures WfIe(ies[i]) {
        FullIsWf(ies[i]);
      }
  }

  lemma {:induction false} ShapedSize(ie: Ie)
    requires Shaped(ie)
    ensures |DumpIe(ie)| == ie.tlv.length + 4 && ie.tlv.t < 256
    decreases ie
  {
    KnownTypesAreSmall(ie.tlv.t);
    match ie
    case LeafIe(tlv, leaf) =>
      if WfLeaf(tlv.t, leaf) {
        DispatchedLeaf(tlv.t, leaf);
        DumpedLengthIsStored(tlv, leaf);
      }
    case GroupIe(tlv, ies) => ShapedSizes(ies, 0);
  }

  lemma {:induction false} ShapedSizes(ies: seq<Ie>, i: nat)
    requires i <= |ies| && AllShaped(ies)
    ensures |DumpFrom(ies, i)| == SizeFrom(ies, i)
    decreases ies, |ies| - i
  {
    if i < |ies| {
      ShapedSize(ies[i]);
      ShapedSizes(ies, i + 1);
    }
  }

  /** What the dump of an element begins with: the header the parser reads. */
  lemma {:induction false} HeaderFirst(ie: Ie, s: Stream)
    requires Shaped(ie) && s.Valid() && s.At(DumpIe(ie))
    ensures LoadTlv(s) == (ie.tlv, s.Skip(4))
    ensures ie.GroupIe? ==> s.Skip(4).At(DumpFrom(ie.ies, 0))
  {
    hide LoadTlv, WfLeaf, Body, KindOf;
    ShapedSize(ie);
    match ie
    case LeafIe(tlv, leaf) =>
      DumpTlvSize(tlv, leaf);
      TlvReadsBack(tlv, s, Body(tlv.t, leaf));
    case GroupIe(tlv, ies) => TlvReadsBack(tlv, s, DumpFrom(ies, 0));
  }

  lemma {:induction false} DumpTlvSize(tlv: Tlv, leaf: Leaf)
    requires Shaped(LeafIe(tlv, leaf))
    ensures DumpedLength(tlv, leaf) == tlv.length
  {
    if WfLeaf(tlv.t, leaf) {
      DumpedLengthIsStored(tlv, leaf);
    }
  }

  /** A tree that is not full is answered with a null pointer or an exception. */
  lemma {:induction false} HollowFails(ie: Ie, s: Stream)
    requires Shaped(ie) && !Full(ie) && s.Valid() && s.At(DumpIe(ie))
    ensures NewIe(s).Null? || NewIe(s).Throw?
    ensures ie.tlv.length > 0 ==> NewIe(s).Throw?
    decreases ie, 1
  {
    hide LoadTlv, WfLeaf, Body, Load, DumpTlv, DumpedLength;
    HeaderFirst(ie, s);
    if ie.tlv.length > 0 {
      assert ie.GroupIe?;
      HollowGroup(ie.tlv, ie.ies, 0, s.Skip(4), s.junk);
    }
  }

  /** The loop over children the first i of which were read. */
  lemma {:induction false} HollowGroup(tlv: Tlv, ies: seq<Ie>, i: nat, s: Stream, junk: byte)
    requires i < |ies| && AllShaped(ies) && (forall k :: 0 <= k < i ==> Full(ies[k])) && !AllFull(ies)
    requires s.Valid() && s.At(DumpFrom(ies, i)) && s.junk == junk
    ensures LoadGroup(tlv, SizeFrom(ies, i), NormUpTo(ies, i, junk), s).Throw?
    decreases ies, |ies| - i
  {
    hide Load, LoadTlv, DumpTlv, Body, KindOf, WfLeaf, Norm, DumpIe, WfIe, Shaped;
    var d, rest := DumpIe(ies[i]), DumpFrom(ies, i + 1);
    AtSplit(s, d, rest);
    SizePositive(ies, i);
    if Full(ies[i]) {
      FullIsWf(ies[i]);
      IeRoundTrip(ies[i], s);
      NotLast(ies, i);
      HollowGroup(tlv, ies, i + 1, s.Skip(|d|), junk);
      GroupStep(tlv, SizeFrom(ies, i), NormUpTo(ies, i, junk), s, NormIe(ies[i], junk), s.Skip(|d|));
    } else {
      HollowFails(ies[i], s);
    }
  }

  lemma {:induction false} SizePositive(ies: seq<Ie>, i: nat)
    requires i < |ies|
    ensures SizeFrom(ies, i) >= 4
  {
  }

  lemma {:induction false} NotLast(ies: seq<Ie>, i: nat)
    requires i < |ies| && (forall k :: 0 <= k <= i ==> Full(ies[k])) && !AllFull(ies)
    ensures i + 1 < |ies|
  {
  }

  /**
   For every tree whose leaves and lengths are in order: it is read back exactly when no element in it, at any
   depth, has length zero; then the result is the tree, normalised, and exactly its octets are consumed.
   */
  lemma {:induction false} IeParsesIff(ie: Ie, s: Stream)
    requires Shaped(ie) && s.Valid() && s.At(DumpIe(ie))
    ensures NewIe(s).Some? <==> Full(ie)
    ensures Full(ie) ==> NewIe(s) == Some(NormIe(ie, s.junk), s.Skip(|DumpIe(ie)|))
  {
    hide NewIe, DumpIe, Shaped, NormIe;
    if Full(ie) {
      FullIsWf(ie);
      IeRoundTrip(ie, s);
    } else {
      HollowFails(ie, s);
    }
  }
}
