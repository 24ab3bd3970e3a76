/**
 Information elements nested in information elements (section 8.1.1 of 3GPP TS 29.244): the printer
 `dump_to`, and the parser made of `new_pfcp_ie_from_stream` and `pfcp_grouped_ie::load_from`.
 */
module PfcpTree {
  import opened Wire
  import opened PfcpLeaf
  import opened PfcpLeafStream

  /** The header every information element object carries, as stored in the object. */
  datatype Tlv = Tlv(t: nat, length: nat, enterprise: nat)

  datatype Ie =
    | LeafIe(tlv: Tlv, leaf: Leaf)
    | GroupIe(tlv: Tlv, ies: seq<Ie>)

  // ---------------------------------------------------------------- printer

  function DumpTlv(tlv: Tlv): (d: bytes)
    ensures |d| == if tlv.t < 0x8000 then 4 else 6
  {
    BE(2, tlv.t) + (BE(2, tlv.length) + Opt(tlv.t >= 0x8000, BE(2, tlv.enterprise)))
  }

  /** The length some `dump_to` compute again before printing it; the others print the stored one. */
  function DumpedLength(tlv: Tlv, leaf: Leaf): nat {
    match leaf
    case Fteid(flags, _, _, _, _) =>
      if TeidPresent(flags) then 5 + OptSize(Bit(flags, 1), 4) + OptSize(Bit(flags, 2), 16)
      else 1 + OptSize(Bit(flags, 8), 1)
    case Fseid(flags, _, _, _) => 9 + OptSize(Bit(flags, 2), 4) + OptSize(Bit(flags, 1), 16)
    case UeIp(flags, _, _, _) =>
      1 + OptSize(Bit(flags, 2), 4) + OptSize(Bit(flags, 1), 16) + OptSize(Bit(flags, 1) && Bit(flags, 8), 1)
    case Num(_) => if tlv.t == 37 || tlv.t == 43 then 2 else if tlv.t == 95 then 1 else tlv.length
    case Str(text) => if tlv.t == 106 || tlv.t == 107 then |text| % 0x1_0000 else tlv.length
    case _ => tlv.length
  }

  function DumpIe(ie: Ie): bytes
    decreases ie
  {
    match ie
    case LeafIe(tlv, leaf) => DumpTlv(tlv.(length := DumpedLength(tlv, leaf))) + Body(tlv.t, leaf)
    case GroupIe(tlv, ies) => DumpTlv(tlv) + DumpFrom(ies, 0)
  }

  /** The elements of ies from the i-th on, one after the other. */
  function DumpFrom(ies: seq<Ie>, i: nat): bytes
    requires i <= |ies|
    decreases ies, |ies| - i
  {
    if i == |ies| then [] else DumpIe(ies[i]) + DumpFrom(ies, i + 1)
  }

  /** Every name in the tree is encoded as a whole. Elements that are only consumed have no printer here. */
  ghost predicate AllPrintable(ies: seq<Ie>) {
    forall i :: 0 <= i < |ies| ==> PrintableIe(ies[i])
  }

  ghost predicate PrintableIe(ie: Ie) {
    match ie
    case LeafIe(tlv, leaf) => Printable(leaf) && !leaf.Raw?
    case GroupIe(_, ies) => AllPrintable(ies)
  }

  /** What `dump_to` has written when it returns or throws, and whether it returned. */
  function Printed(ie: Ie): (r: (bytes, bool))
    decreases ie
  {
    match ie
    case LeafIe(tlv, leaf) =>
      var head := DumpTlv(tlv.(length := DumpedLength(tlv, leaf)));
      if PrinterThrows(tlv.t, tlv.length) then (head, false) else (head + Body(tlv.t, leaf), true)
    case GroupIe(tlv, ies) =>
      var (d, ok) := PrintedFrom(ies, 0);
      (DumpTlv(tlv) + d, ok)
  }

  function PrintedFrom(ies: seq<Ie>, i: nat): (r: (bytes, bool))
    requires i <= |ies|
    decreases ies, |ies| - i
  {
    if i == |ies| then ([], true)
    else
      var (d, ok) := Printed(ies[i]);
      if !ok then (d, false)
      else
        var (rest, ok') := PrintedFrom(ies, i + 1);
        (d + rest, ok')
  }

  /** No Transport Level Marking of another length than two. */
  ghost predicate MarkingsFit(ie: Ie) {
    match ie
    case LeafIe(tlv, _) => !PrinterThrows(tlv.t, tlv.length)
    case GroupIe(_, ies) => forall i :: 0 <= i < |ies| ==> MarkingsFit(ies[i])
  }

  /** Printing returns exactly when the markings fit, and then it has written the whole tree. */
  lemma {:induction false} PrintsIff(ie: Ie)
    ensures Printed(ie).1 <==> MarkingsFit(ie)
    ensures Printed(ie).1 ==> Printed(ie).0 == DumpIe(ie)
    decreases ie
  {
    hide DumpTlv, Body, DumpedLength, PrinterThrows;
    if ie.GroupIe? {
      PrintsAllIff(ie.ies, 0);
    }
  }

  lemma {:induction false} PrintsAllIff(ies: seq<Ie>, i: nat)
    requires i <= |ies|
    ensures PrintedFrom(ies, i).1 <==> forall k :: i <= k < |ies| ==> MarkingsFit(ies[k])
    ensures PrintedFrom(ies, i).1 ==> PrintedFrom(ies, i).0 == DumpFrom(ies, i)
    decreases ies, |ies| - i
  {
    hide DumpTlv, Body, DumpedLength, PrinterThrows;
    if i < |ies| {
      PrintsIff(ies[i]);
      PrintsAllIff(ies, i + 1);
    }
  }

  /** `dump_to` of an element, its children one after the other. False stands for an exception. */
  method DumpTo(ie: Ie, output: OutStream) returns (ok: bool)
    requires PrintableIe(ie)
    modifies output
    ensures output.written == old(output.written) + Printed(ie).0 && ok == Printed(ie).1
    ensures ok ==> output.written == old(output.written) + DumpIe(ie)
    decreases ie
  {
    hide DumpTlv, Body, DumpedLength, Printable, DumpFrom, PrinterThrows;
    PrintsIff(ie);
    match ie
    case LeafIe(tlv, leaf) =>
      output.Put(DumpTlv(tlv.(length := DumpedLength(tlv, leaf))));
      ok := DumpBodyTo(tlv.t, tlv.length, leaf, output);
    case GroupIe(tlv, ies) =>
      output.Put(DumpTlv(tlv));
      ok := DumpAllTo(ies, output);
  }

  method DumpAllTo(ies: seq<Ie>, output: OutStream) returns (ok: bool)
    requires AllPrintable(ies)
    modifies output
    ensures output.written == old(output.written) + PrintedFrom(ies, 0).0 && ok == PrintedFrom(ies, 0).1
    decreases ies
  {
    hide DumpIe, Printed;
    ghost var before, done: bytes := output.written, [];
    var i := 0;
    assert [] + PrintedFrom(ies, 0).0 == PrintedFrom(ies, 0).0;
    while i < |ies|
      invariant 0 <= i <= |ies|
      invariant output.written == before + done
      invariant PrintedFrom(ies, 0) == (done + PrintedFrom(ies, i).0, PrintedFrom(ies, i).1)
    {
      ghost var (d, returned) := Printed(ies[i]);
      ok := DumpTo(ies[i], output);
      Assoc(before, done, d);
      if !ok {
        return;
      }
      Assoc(done, d, PrintedFrom(ies, i + 1).0);
      done := done + d;
      i := i + 1;
    }
    ok := true;
  }

  // ---------------------------------------------------------------- parser

  /** `pfcp_tlv::load_from` into a new object, whose fields are zero. */
  function LoadTlv(s: Stream): (r: (Tlv, Stream))
    requires s.Valid()
    ensures r.1.Valid() && r.0.length < 0x1_0000 && r.1.Left() <= s.Left() && r.1.Same(s)
    ensures s.ok ==> r.1.Left() < s.Left()
    ensures !s.ok ==> r.0.length == 0
  {
    var t := Read(s, [0, 0]);
    var length := Read(t.1, [0, 0]);
    var enterprise := ReadIf(FromBE(t.0) >= 0x8000, length.1, [0, 0]);
    FromBEBound(length.0);
    Pow256Values();
    ZeroTwo();
    (Tlv(FromBE(t.0), FromBE(length.0), FromBE(enterprise.0)), enterprise.1)
  }

  lemma {:induction false} ZeroTwo()
    ensures FromBE([0, 0]) == 0
  {
    assert [0, 0][..1] == [0] && [0][..0] == [];
  }

  /** `new_pfcp_ie_from_stream`: an element, a null pointer, an exception, or no return. */
  datatype Parsed = Some(ie: Ie, s: Stream) | Null(s: Stream) | Throw(e: Error, s: Stream) | Hang

  function NewIe(s: Stream): (r: Parsed)
    requires s.Valid()
    ensures r.Some? ==> r.s.Valid() && r.s.Left() < s.Left() && r.s.Same(s)
    ensures r.Null? || r.Throw? ==> r.s.Valid() && r.s.Left() <= s.Left() && r.s.Same(s)
    decreases s.Left(), 0
  {
    var (tlv, s1) := LoadTlv(s);
    if tlv.length == 0 || KindOf(tlv.t) == Unknown then Null(s1)
    else if KindOf(tlv.t) == Grouped then LoadGroup(tlv, tlv.length, [], s1)
    else
      match Load(tlv.t, tlv.length, s1)
      case Got(leaf, s2) => Some(LeafIe(tlv, leaf), s2)
      case Thrown(e, s2) => Throw(e, s2)
      case Stuck => Hang
  }

  /** The loop of `pfcp_grouped_ie::load_from`, with `remaining` octets of the group still to come. */
  function LoadGroup(tlv: Tlv, remaining: int, ies: seq<Ie>, s: Stream): (r: Parsed)
    requires s.Valid()
    ensures !r.Null?
    ensures r.Some? || r.Throw? ==> r.s.Valid() && r.s.Left() <= s.Left() && r.s.Same(s)
    decreases s.Left(), 1
  {
    if remaining <= 0 then Some(GroupIe(tlv, ies), s)
    else
      match NewIe(s)
      case Some(ie, s1) => LoadGroup(tlv, remaining - (ie.tlv.length + 4), ies + [ie], s1)
      case Null(s1) => Throw(BadLength(tlv.t, tlv.length), s1)
      case Throw(e, s1) => Throw(e, s1)
      case Hang => Hang
  }

  /** Where a parse leaves the stream, when it ends. */
  ghost predicate LeavesAt(r: Parsed, s: Stream) {
    r != Hang ==> r.s == s
  }

  /** `new_pfcp_ie_from_stream` on a stream object. */
  method NewIeFromStream(input: InStream) returns (r: Parsed)
    requires input.st.Valid()
    modifies input
    ensures r == NewIe(old(input.st)) && input.st.Valid() && LeavesAt(r, input.st)
    decreases input.st.Left(), 0
  {
    hide Load, KindOf;
    ghost var s := input.st;
    var type2 := input.Get([0, 0]);
    var length2 := input.Get([0, 0]);
    var enterprise2 := [0, 0];
    if FromBE(type2) >= 0x8000 {
      enterprise2 := input.Get([0, 0]);
    }
    var tlv := Tlv(FromBE(type2), FromBE(length2), FromBE(enterprise2));
    assert (tlv, input.st) == LoadTlv(s);
    if tlv.length == 0 || KindOf(tlv.t) == Unknown {
      return Null(input.st);
    }
    if KindOf(tlv.t) == Grouped {
      r := LoadGroupFrom(tlv, input);
    } else {
      var loaded := LoadFrom(tlv.t, tlv.length, input);
      match loaded
      case Got(leaf, s2) => r := Some(LeafIe(tlv, leaf), s2);
      case Thrown(e, s2) => r := Throw(e, s2);
      case Stuck => r := Parsed.Hang;
    }
  }

  method LoadGroupFrom(tlv: Tlv, input: InStream) returns (r: Parsed)
    requires input.st.Valid()
    modifies input
    ensures r == LoadGroup(tlv, tlv.length, [], old(input.st)) && input.st.Valid() && LeavesAt(r, input.st)
    decreases input.st.Left(), 1
  {
    hide Load, KindOf, LoadTlv;
    ghost var s := input.st;
    var remaining: int := tlv.length;
    var ies := [];
    while remaining > 0
      invariant input.st.Valid() && input.st.Left() <= s.Left()
      invariant LoadGroup(tlv, tlv.length, [], s) == LoadGroup(tlv, remaining, ies, input.st)
      decreases input.st.Left()
    {
      var p := NewIeFromStream(input);
      match p
      case Some(ie, _) =>
        remaining := remaining - (ie.tlv.length + 4);
        ies := ies + [ie];
      case Null(s1) => return Throw(BadLength(tlv.t, tlv.length), s1);
      case Throw(e, s1) => return Throw(e, s1);
      case Hang => return Hang;
    }
    r := Some(GroupIe(tlv, ies), input.st);
  }
}
