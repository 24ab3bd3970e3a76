/**
 From a rule to octets and back: the constructors that build a Create FAR element from a `create_far` record,
 and the `to_core_type` visitors that fill a record from a parsed element.
 */
module CreateFarTrip {
  import opened Wire
  import opened PfcpLeaf
  import opened PfcpLeafTrip
  import opened PfcpTree
  import opened PfcpTreeTrip
  import opened PfcpMessage
  import opened PfcpLength
  import opened PfcpEmpty
  import R = Rules

  const CREATE_FAR: nat := 3
  const FORWARDING_PARAMETERS: nat := 4
  const DUPLICATING_PARAMETERS: nat := 5

  // ---------------------------------------------------------------- constructors

  /** A child that is added when its field is present. */
  function Prepend(c: bool, ie: Ie, rest: seq<Ie>): seq<Ie> {
    if c then [ie] + rest else rest
  }

  function NewGroup(t: nat, ies: seq<Ie>): Ie {
    GroupIe(Tlv(t, SizeFrom(ies, 0) % 0x1_0000, 0), ies)
  }

  function ApplyFlags(a: R.Apply): (f: nat)
    ensures f < 32
  {
    FlagBits(a.drop, a.forw, a.buff, a.nocp) + if a.dupl then 16 else 0
  }

  function NewMarking(text: bytes): Ie {
    LeafIe(Tlv(30, |text| % 0x1_0000, 0), Str(text))
  }

  function NewPolicy(p: R.PolicyId): Ie {
    LeafIe(Tlv(41, (1 + |p.id|) % 0x1_0000, 0), Policy(p.length, p.id))
  }

  /** Addresses as the C structures hold them. */
  predicate Sizes(c: R.HeaderCreation) {
    |c.ipv4| == 4 && |c.ipv6| == 16
  }

  function NewCreation(c: R.HeaderCreation): Ie
    requires Sizes(c)
  {
    NewOuterHeader(OuterHeaderCore(c.description, c.teid, c.ipv4, c.ipv6, c.port))
  }

  /** The children `pfcp_forwarding_parameters_ie` makes. Four fields have no element. */
  function ForwardingIes(f: R.Forwarding): seq<Ie>
    requires Sizes(f.creation.value)
  {
    Prepend(f.destination.present, NewNumber(42, f.destination.value),
            Prepend(f.networkInstance.present, NewText(22, f.networkInstance.value),
                    Prepend(f.creation.present, NewCreation(f.creation.value),
                            Prepend(f.marking.present, NewMarking(f.marking.value),
                                    Prepend(f.policy.present, NewPolicy(f.policy.value), [])))))
  }

  /** The children `pfcp_create_far_ie` makes. The element for duplicating parameters gets no children. */
  function CreateFarIes(b: R.CreateFar): seq<Ie>
    requires Sizes(b.forwarding.value.creation.value)
  {
    Prepend(b.farId.present, NewNumber(108, b.farId.value),
            Prepend(b.action.present, NewNumber(44, ApplyFlags(b.action.value)),
                    Prepend(b.forwarding.present, NewGroup(FORWARDING_PARAMETERS, ForwardingIes(b.forwarding.value)),
                            Prepend(b.duplicating.present, NewGroup(DUPLICATING_PARAMETERS, []),
                                    Prepend(b.barId.present, NewNumber(88, b.barId.value), [])))))
  }

  function NewCreateFar(b: R.CreateFar): Ie
    requires Sizes(b.forwarding.value.creation.value)
  {
    NewGroup(CREATE_FAR, CreateFarIes(b))
  }

  /** `if(x.first) add_ie(…)`: whole is what the group will hold, rest what comes behind. */
  method AddIf(g: GroupedIe, c: bool, ie: Ie, ghost rest: seq<Ie>, ghost whole: seq<Ie>)
    requires g.View() == NewGroup(g.tlv.t, g.ies) && whole == g.ies + Prepend(c, ie, rest)
    modifies g
    ensures g.tlv.t == old(g.tlv.t) && g.View() == NewGroup(g.tlv.t, g.ies) && whole == g.ies + rest
  {
    if c {
      ghost var before := g.ies;
      g.AddIe(ie);
      AddedGroup(before, ie);
    }
  }

  lemma {:induction false} AddedGroup(ies: seq<Ie>, ie: Ie)
    ensures SizeFrom(ies + [ie], 0) % 0x1_0000 == (SizeFrom(ies, 0) % 0x1_0000 + 4 + ie.tlv.length) % 0x1_0000
  {
    AddedSize(ies, ie, 0);
    var a, b := SizeFrom(ies, 0), 4 + ie.tlv.length;
    ModUnique(a + b, 0x1_0000, a / 0x1_0000 + (a % 0x1_0000 + b) / 0x1_0000, (a % 0x1_0000 + b) % 0x1_0000);
  }

  lemma {:induction false} NotAdded(ie: Ie, ie': Ie, rest: seq<Ie>)
    ensures Prepend(false, ie, rest) == Prepend(false, ie', rest)
  {
  }

  lemma {:induction false} EmptyGroup(t: nat)
    ensures NewGroup(t, []) == GroupIe(Tlv(t, 0, 0), [])
  {
  }

  /** `pfcp_forwarding_parameters_ie(const forwarding_parameters&)`. */
  method BuildForwarding(f: R.Forwarding) returns (ie: Ie)
    requires Sizes(f.creation.value)
    ensures ie == NewGroup(FORWARDING_PARAMETERS, ForwardingIes(f))
  {
    hide NewNumber, NewText, NewCreation, NewMarking, NewPolicy, Sized, Prepend, NewGroup, SizeFrom;
    EmptyGroup(FORWARDING_PARAMETERS);
    ghost var whole := ForwardingIes(f);
    ghost var r4 := Prepend(f.policy.present, NewPolicy(f.policy.value), []);
    ghost var r3 := Prepend(f.marking.present, NewMarking(f.marking.value), r4);
    ghost var r2 := Prepend(f.creation.present, NewCreation(f.creation.value), r3);
    ghost var r1 := Prepend(f.networkInstance.present, NewText(22, f.networkInstance.value), r2);
    var g := new GroupedIe(FORWARDING_PARAMETERS);
    AddIf(g, f.destination.present, NewNumber(42, f.destination.value), r1, whole);
    AddIf(g, f.networkInstance.present, NewText(22, f.networkInstance.value), r2, whole);
    AddIf(g, f.creation.present, NewCreation(f.creation.value), r3, whole);
    AddIf(g, f.marking.present, NewMarking(f.marking.value), r4, whole);
    AddIf(g, f.policy.present, NewPolicy(f.policy.value), [], whole);
    assert g.ies == whole;
    ie := g.View();
  }

  /** `pfcp_create_far_ie(const create_far&)`. */
  method BuildCreateFar(b: R.CreateFar) returns (ie: Ie)
    requires Sizes(b.forwarding.value.creation.value)
    ensures ie == NewCreateFar(b)
  {
    hide NewNumber, ApplyFlags, ForwardingIes, Sized, Prepend, NewGroup, SizeFrom;
    EmptyGroup(CREATE_FAR);
    ghost var whole := CreateFarIes(b);
    ghost var r4 := Prepend(b.barId.present, NewNumber(88, b.barId.value), []);
    ghost var r3 := Prepend(b.duplicating.present, NewGroup(DUPLICATING_PARAMETERS, []), r4);
    ghost var r2 := Prepend(b.forwarding.present, NewGroup(FORWARDING_PARAMETERS, ForwardingIes(b.forwarding.value)), r3);
    ghost var r1 := Prepend(b.action.present, NewNumber(44, ApplyFlags(b.action.value)), r2);
    var g := new GroupedIe(CREATE_FAR);
    AddIf(g, b.farId.present, NewNumber(108, b.farId.value), r1, whole);
    AddIf(g, b.action.present, NewNumber(44, ApplyFlags(b.action.value)), r2, whole);
    var forwarding := NewGroup(FORWARDING_PARAMETERS, []);
    if b.forwarding.present {
      forwarding := BuildForwarding(b.forwarding.value);
    }
    NotAdded(forwarding, NewGroup(FORWARDING_PARAMETERS, ForwardingIes(b.forwarding.value)), r3);
    AddIf(g, b.forwarding.present, forwarding, r3, whole);
    AddIf(g, b.duplicating.present, NewGroup(DUPLICATING_PARAMETERS, []), r4, whole);
    AddIf(g, b.barId.present, NewNumber(88, b.barId.value), [], whole);
    assert g.ies == whole;
    ie := g.View();
  }

  // ---------------------------------------------------------------- visitors

  /** What a visitor leaves in a container, or the exception of a container that has no such field. */
  datatype Core<T> = Core(value: T) | Illegal

  const EMPTY_CREATION := R.HeaderCreation(0, 0, Repeat(4, 0), Repeat(16, 0), 0)
  const EMPTY_FORWARDING := R.Forwarding(R.Field(false, 0), R.Field(false, []), R.Field(false, []),
                                         R.Field(false, EMPTY_CREATION), R.Field(false, []), R.Field(false, R.PolicyId(0, [])),
                                         R.Field(false, []), R.Field(false, 0), R.Field(false, 0))
  const EMPTY_DUPLICATING := R.Duplicating(R.Field(false, 0), R.Field(false, EMPTY_CREATION), R.Field(false, []),
                                           R.Field(false, R.PolicyId(0, [])))
  const EMPTY_FAR := R.CreateFar(R.Field(false, 0), R.Field(false, R.Apply(false, false, false, false, false)),
                                 R.Group(false, EMPTY_FORWARDING), R.Group(false, EMPTY_DUPLICATING), R.Field(false, 0))

  function Octet(v: nat): byte {
    v % 256
  }

  function CreationOf(d: nat, teid: nat, v4: bytes, v6: bytes, port: nat): R.HeaderCreation {
    R.HeaderCreation(d % 0x1_0000, teid % 0x1_0000_0000, v4, v6, port % 0x1_0000)
  }

  function ApplyOf(v: nat): R.Apply {
    R.Apply(Bit(v, 1), Bit(v, 2), Bit(v, 4), Bit(v, 8), Bit(v, 16))
  }

  /** `to_core_type` of one child with a `forwarding_parameters` container. */
  function SetForwarding(f: R.Forwarding, ie: Ie): Core<R.Forwarding> {
    match ie
    case LeafIe(tlv, Num(v)) =>
      if tlv.t == 42 then Core(f.(destination := R.Field(true, Octet(v)))) else Illegal
    case LeafIe(tlv, Str(text)) =>
      if tlv.t == 22 then Core(f.(networkInstance := R.Field(true, text)))
      else if tlv.t == 30 then Core(f.(marking := R.Field(true, text))) else Illegal
    case LeafIe(tlv, OuterHeader(d, teid, v4, v6, port)) =>
      Core(f.(creation := R.Field(true, CreationOf(d, teid, v4, v6, port))))
    case LeafIe(tlv, Policy(n, id)) => Core(f.(policy := R.Field(true, R.PolicyId(Octet(n), id))))
    case _ => Illegal
  }

  function SetDuplicating(x: R.Duplicating, ie: Ie): Core<R.Duplicating> {
    match ie
    case LeafIe(tlv, Num(v)) =>
      if tlv.t == 42 then Core(x.(destination := R.Field(true, Octet(v)))) else Illegal
    case LeafIe(tlv, Str(text)) => if tlv.t == 30 then Core(x.(marking := R.Field(true, text))) else Illegal
    case LeafIe(tlv, OuterHeader(d, teid, v4, v6, port)) =>
      Core(x.(creation := R.Field(true, CreationOf(d, teid, v4, v6, port))))
    case LeafIe(tlv, Policy(n, id)) => Core(x.(policy := R.Field(true, R.PolicyId(Octet(n), id))))
    case _ => Illegal
  }

  function VisitForwarding(f: Core<R.Forwarding>, ies: seq<Ie>): Core<R.Forwarding>
    decreases |ies|
  {
    if f.Illegal? || ies == [] then f else VisitForwarding(SetForwarding(f.value, ies[0]), ies[1..])
  }

  function VisitDuplicating(x: Core<R.Duplicating>, ies: seq<Ie>): Core<R.Duplicating>
    decreases |ies|
  {
    if x.Illegal? || ies == [] then x else VisitDuplicating(SetDuplicating(x.value, ies[0]), ies[1..])
  }

  /** `to_core_type` of one child with a `create_far` container. */
  function SetFar(c: R.CreateFar, ie: Ie): Core<R.CreateFar> {
    match ie
    case LeafIe(tlv, Num(v)) =>
      if tlv.t == 108 then Core(c.(farId := R.Field(true, v % 0x1_0000_0000)))
      else if tlv.t == 44 then Core(c.(action := R.Field(true, ApplyOf(v))))
      else if tlv.t == 88 then Core(c.(barId := R.Field(true, Octet(v)))) else Illegal
    case GroupIe(tlv, ies) =>
      if tlv.t == FORWARDING_PARAMETERS then
        match VisitForwarding(Core(EMPTY_FORWARDING), ies)
        case Core(f) => Core(c.(forwarding := R.Group(true, f)))
        case Illegal => Illegal
      else if tlv.t == DUPLICATING_PARAMETERS then
        match VisitDuplicating(Core(EMPTY_DUPLICATING), ies)
        case Core(x) => Core(c.(duplicating := R.Group(true, x)))
        case Illegal => Illegal
      else Illegal
    case _ => Illegal
  }

  function VisitFar(c: Core<R.CreateFar>, ies: seq<Ie>): Core<R.CreateFar>
    decreases |ies|
  {
    if c.Illegal? || ies == [] then c else VisitFar(SetFar(c.value, ies[0]), ies[1..])
  }

  /** `pfcp_create_far_ie::to_core_type`: the loop over the children. */
  method ToCreateFar(ies: seq<Ie>) returns (c: Core<R.CreateFar>)
    ensures c == VisitFar(Core(EMPTY_FAR), ies)
  {
    hide SetFar;
    c := Core(EMPTY_FAR);
    for i := 0 to |ies|
      invariant c.Core? && VisitFar(Core(EMPTY_FAR), ies) == VisitFar(c, ies[i..])
    {
      assert ies[i..][1..] == ies[i + 1..];
      c := SetFar(c.value, ies[i]);
      if c.Illegal? {
        return;
      }
    }
  }

  // ---------------------------------------------------------------- lists made with Prepend

  lemma {:induction false} PrependAll(c: bool, ie: Ie, rest: seq<Ie>)
    ensures AllShaped(Prepend(c, ie, rest)) <==> AllShaped(rest) && (c ==> Shaped(ie))
    ensures AllFull(Prepend(c, ie, rest)) <==> AllFull(rest) && (c ==> Full(ie))
  {
    hide Shaped, Full;
    var all := Prepend(c, ie, rest);
    if c {
      assert all[0] == ie;
      assert forall i :: 0 <= i < |rest| ==> all[i + 1] == rest[i];
    }
  }

  function NormAll(ies: seq<Ie>, junk: byte): (r: seq<Ie>) {
    NormUpTo(ies, |ies|, junk)
  }

  lemma {:induction false} NormAt(ies: seq<Ie>, n: nat, k: nat, junk: byte)
    requires k < n <= |ies|
    ensures NormUpTo(ies, n, junk)[k] == NormIe(ies[k], junk)
  {
    hide NormIe;
    if k < n - 1 {
      NormAt(ies, n - 1, k, junk);
    }
  }

  lemma {:induction false} PrependNorm(c: bool, ie: Ie, rest: seq<Ie>, junk: byte)
    ensures NormAll(Prepend(c, ie, rest), junk) == Prepend(c, NormIe(ie, junk), NormAll(rest, junk))
  {
    hide NormIe;
    if c {
      var all := [ie] + rest;
      forall k | 0 <= k < |all| ensures NormAll(all, junk)[k] == ([NormIe(ie, junk)] + NormAll(rest, junk))[k] {
        NormAt(all, |all|, k, junk);
        if k > 0 {
          NormAt(rest, |rest|, k - 1, junk);
        }
      }
    }
  }

  lemma {:induction false} PrependForwarding(f: R.Forwarding, c: bool, ie: Ie, rest: seq<Ie>)
    ensures VisitForwarding(Core(f), Prepend(c, ie, rest)) ==
            VisitForwarding(if c then SetForwarding(f, ie) else Core(f), rest)
  {
    assert ([ie] + rest)[1..] == rest;
  }

  lemma {:induction false} PrependFar(x: R.CreateFar, c: bool, ie: Ie, rest: seq<Ie>)
    ensures VisitFar(Core(x), Prepend(c, ie, rest)) == VisitFar(if c then SetFar(x, ie) else Core(x), rest)
  {
    assert ([ie] + rest)[1..] == rest;
  }

  // ---------------------------------------------------------------- which records are written in order

  /** Strings of the size their type has, an outer header to create; nothing is asked of absent fields. */
  predicate ForwardingFits(f: R.Forwarding)
    requires Sizes(f.creation.value)
  {
    && (f.networkInstance.present ==> |f.networkInstance.value| < 0x1_0000)
    && (f.creation.present ==>
          var d := f.creation.value.description; IsGtpu(d) || IsV4(d) || IsV6(d))
    && (f.marking.present ==> |f.marking.value| == 2)
    && (f.policy.present ==> f.policy.value.length as int == |f.policy.value.id|)
    && SizeFrom(ForwardingIes(f), 0) < 0x1_0000
  }

  predicate FarFits(b: R.CreateFar)
    requires Sizes(b.forwarding.value.creation.value)
  {
    (b.forwarding.present ==> ForwardingFits(b.forwarding.value)) && SizeFrom(CreateFarIes(b), 0) < 0x1_0000
  }

  /** What a caller must see to: something to send, no duplicating parameters, no empty group or string. */
  predicate Readable(b: R.CreateFar) {
    && !b.duplicating.present
    && (b.farId.present || b.action.present || b.forwarding.present || b.barId.present)
    && (b.forwarding.present ==>
          var f := b.forwarding.value;
          && (f.destination.present || f.networkInstance.present || f.creation.present || f.marking.present || f.policy.present)
          && (f.networkInstance.present ==> f.networkInstance.value != []))
  }

  lemma {:induction false} NumberShaped(t: nat, v: nat)
    requires KindOf(t).Number? && v < Pow256(KindOf(t).width)
    ensures Shaped(NewNumber(t, v)) && Full(NewNumber(t, v))
  {
    Pow256Values();
  }

  lemma {:induction false} TextShaped(text: bytes)
    requires |text| < 0x1_0000
    ensures Shaped(NewText(22, text)) && (Full(NewText(22, text)) <==> text != [])
  {
  }

  lemma {:induction false} MarkingShaped(text: bytes)
    requires |text| == 2
    ensures Shaped(NewMarking(text)) && Full(NewMarking(text))
  {
  }

  lemma {:induction false} PolicyShaped(p: R.PolicyId)
    requires p.length as int == |p.id|
    ensures Shaped(NewPolicy(p)) && Full(NewPolicy(p))
  {
  }

  lemma {:induction false} CreationShaped(c: R.HeaderCreation)
    requires Sizes(c) && (IsGtpu(c.description) || IsV4(c.description) || IsV6(c.description))
    ensures Shaped(NewCreation(c)) && Full(NewCreation(c))
  {
    hide BE, Bit, Repeat, IsGtpu, IsV4, IsV6;
    Pow256Values();
  }

  lemma {:induction false} GroupShaped(t: nat, ies: seq<Ie>)
    requires KindOf(t) == Grouped && AllShaped(ies) && SizeFrom(ies, 0) < 0x1_0000
    ensures Shaped(NewGroup(t, ies)) && (Full(NewGroup(t, ies)) <==> AllFull(ies) && ies != [])
  {
    hide WfLeaf, Body, AllShaped, AllFull, Mod16;
    if ies == [] {
      EmptyAll();
    } else {
      SizePositive(ies, 0);
    }
    ModUnique(SizeFrom(ies, 0), 0x1_0000, 0, SizeFrom(ies, 0));
  }

  lemma {:induction false} ForwardingShaped(f: R.Forwarding)
    requires Sizes(f.creation.value) && ForwardingFits(f)
    ensures AllShaped(ForwardingIes(f))
    ensures AllFull(ForwardingIes(f)) <==> (f.networkInstance.present ==> f.networkInstance.value != [])
    ensures ForwardingIes(f) != [] <==>
            f.destination.present || f.networkInstance.present || f.creation.present || f.marking.present || f.policy.present
  {
    hide Shaped, Full, NewNumber, NewText, NewCreation, NewMarking, NewPolicy, SizeFrom, AllShaped, AllFull;
    Pow256Values();
    var r4 := Prepend(f.policy.present, NewPolicy(f.policy.value), []);
    var r3 := Prepend(f.marking.present, NewMarking(f.marking.value), r4);
    var r2 := Prepend(f.creation.present, NewCreation(f.creation.value), r3);
    var r1 := Prepend(f.networkInstance.present, NewText(22, f.networkInstance.value), r2);
    PrependAll(f.policy.present, NewPolicy(f.policy.value), []);
    PrependAll(f.marking.present, NewMarking(f.marking.value), r4);
    PrependAll(f.creation.present, NewCreation(f.creation.value), r3);
    PrependAll(f.networkInstance.present, NewText(22, f.networkInstance.value), r2);
    PrependAll(f.destination.present, NewNumber(42, f.destination.value), r1);
    EmptyAll();
    NumberShaped(42, f.destination.value);
    if f.networkInstance.present {
      TextShaped(f.networkInstance.value);
    }
    if f.creation.present {
      CreationShaped(f.creation.value);
    }
    if f.marking.present {
      MarkingShaped(f.marking.value);
    }
    if f.policy.present {
      PolicyShaped(f.policy.value);
    }
  }

  lemma {:induction false} EmptyAll()
    ensures AllShaped([]) && AllFull([]) && SizeFrom([], 0) == 0
  {
  }

  lemma {:induction false} CreateFarShaped(b: R.CreateFar)
    requires Sizes(b.forwarding.value.creation.value) && FarFits(b)
    ensures Shaped(NewCreateFar(b)) && (Full(NewCreateFar(b)) <==> Readable(b))
  {
    hide Shaped, Full, NewNumber, SizeFrom, AllShaped, AllFull, ForwardingIes, NewGroup, ForwardingFits, ApplyFlags;
    Pow256Values();
    var g := NewGroup(FORWARDING_PARAMETERS, ForwardingIes(b.forwarding.value));
    var r4 := Prepend(b.barId.present, NewNumber(88, b.barId.value), []);
    var r3 := Prepend(b.duplicating.present, NewGroup(DUPLICATING_PARAMETERS, []), r4);
    var r2 := Prepend(b.forwarding.present, g, r3);
    var r1 := Prepend(b.action.present, NewNumber(44, ApplyFlags(b.action.value)), r2);
    PrependAll(b.barId.present, NewNumber(88, b.barId.value), []);
    PrependAll(b.duplicating.present, NewGroup(DUPLICATING_PARAMETERS, []), r4);
    PrependAll(b.forwarding.present, g, r3);
    PrependAll(b.action.present, NewNumber(44, ApplyFlags(b.action.value)), r2);
    PrependAll(b.farId.present, NewNumber(108, b.farId.value), r1);
    EmptyAll();
    NumberShaped(88, b.barId.value);
    NumberShaped(44, ApplyFlags(b.action.value));
    NumberShaped(108, b.farId.value);
    GroupShaped(DUPLICATING_PARAMETERS, []);
    if b.forwarding.present {
      ForwardingShaped(b.forwarding.value);
      ForwardingFitsSize(b.forwarding.value);
      GroupShaped(FORWARDING_PARAMETERS, ForwardingIes(b.forwarding.value));
    }
    GroupShaped(CREATE_FAR, CreateFarIes(b));
  }

  lemma {:induction false} ForwardingFitsSize(f: R.Forwarding)
    requires Sizes(f.creation.value) && ForwardingFits(f)
    ensures SizeFrom(ForwardingIes(f), 0) < 0x1_0000
  {
  }

  // ---------------------------------------------------------------- the round trip

  /** Fields without an element are lost, and what a header creation does not send comes back as memory. */
  function NormCreation(c: R.HeaderCreation, junk: byte): R.HeaderCreation {
    CreationOf(c.description, if IsGtpu(c.description) then c.teid else FromBE(Repeat(4, junk)),
               if IsV4(c.description) then c.ipv4 else Repeat(4, junk),
               if IsV6(c.description) then c.ipv6 else Repeat(16, junk),
               if Bit(c.description, 0x400) then c.port else FromBE(Repeat(2, junk)))
  }

  function NormForwarding(f: R.Forwarding, junk: byte): R.Forwarding {
    EMPTY_FORWARDING.(
      destination := if f.destination.present then f.destination else EMPTY_FORWARDING.destination,
      networkInstance := if f.networkInstance.present then f.networkInstance else EMPTY_FORWARDING.networkInstance,
      creation := if f.creation.present then R.Field(true, NormCreation(f.creation.value, junk)) else EMPTY_FORWARDING.creation,
      marking := if f.marking.present then f.marking else EMPTY_FORWARDING.marking,
      policy := if f.policy.present then f.policy else EMPTY_FORWARDING.policy)
  }

  function NormFar(b: R.CreateFar, junk: byte): R.CreateFar {
    EMPTY_FAR.(
      farId := if b.farId.present then b.farId else EMPTY_FAR.farId,
      action := if b.action.present then b.action else EMPTY_FAR.action,
      forwarding := if b.forwarding.present then R.Group(true, NormForwarding(b.forwarding.value, junk)) else EMPTY_FAR.forwarding,
      barId := if b.barId.present then b.barId else EMPTY_FAR.barId)
  }

  lemma {:induction false} ApplyReadsBack(a: R.Apply)
    ensures ApplyOf(ApplyFlags(a)) == a
  {
  }

  lemma {:induction false} ForwardingReadsBack(f: R.Forwarding, junk: byte)
    requires Sizes(f.creation.value) && ForwardingFits(f)
    ensures VisitForwarding(Core(EMPTY_FORWARDING), NormAll(ForwardingIes(f), junk)) == Core(NormForwarding(f, junk))
  {
    hide SizeFrom, NormAll, VisitForwarding, BE, Bit, Repeat, IsGtpu, IsV4, IsV6, FromBE;
    var i1, i2, i3 := NewNumber(42, f.destination.value), NewText(22, f.networkInstance.value), NewCreation(f.creation.value);
    var i4, i5 := NewMarking(f.marking.value), NewPolicy(f.policy.value);
    var r4 := Prepend(f.policy.present, i5, []);
    var r3 := Prepend(f.marking.present, i4, r4);
    var r2 := Prepend(f.creation.present, i3, r3);
    var r1 := Prepend(f.networkInstance.present, i2, r2);
    PrependNorm(f.policy.present, i5, [], junk);
    PrependNorm(f.marking.present, i4, r4, junk);
    PrependNorm(f.creation.present, i3, r3, junk);
    PrependNorm(f.networkInstance.present, i2, r2, junk);
    PrependNorm(f.destination.present, i1, r1, junk);
    var e := EMPTY_FORWARDING;
    var e1 := e.(destination := if f.destination.present then f.destination else e.destination);
    var e2 := e1.(networkInstance := if f.networkInstance.present then f.networkInstance else e.networkInstance);
    var e3 := e2.(creation := if f.creation.present then R.Field(true, NormCreation(f.creation.value, junk)) else e.creation);
    var e4 := e3.(marking := if f.marking.present then f.marking else e.marking);
    PrependForwarding(e, f.destination.present, NormIe(i1, junk), NormAll(r1, junk));
    PrependForwarding(e1, f.networkInstance.present, NormIe(i2, junk), NormAll(r2, junk));
    PrependForwarding(e2, f.creation.present, NormIe(i3, junk), NormAll(r3, junk));
    PrependForwarding(e3, f.marking.present, NormIe(i4, junk), NormAll(r4, junk));
    PrependForwarding(e4, f.policy.present, NormIe(i5, junk), NormAll([], junk));
    NothingToVisit(junk);
  }

  lemma {:induction false} NothingToVisit(junk: byte)
    ensures NormAll([], junk) == []
    ensures forall f :: VisitForwarding(f, []) == f
    ensures forall c :: VisitFar(c, []) == c
  {
  }

  lemma {:induction false} FarReadsBack(b: R.CreateFar, junk: byte)
    requires Sizes(b.forwarding.value.creation.value) && FarFits(b) && !b.duplicating.present
    ensures VisitFar(Core(EMPTY_FAR), NormAll(CreateFarIes(b), junk)) == Core(NormFar(b, junk))
  {
    hide SizeFrom, NormAll, VisitFar, VisitForwarding, ForwardingIes, NormForwarding, ApplyFlags, ApplyOf, ForwardingFits;
    var i1, i2, i5 := NewNumber(108, b.farId.value), NewNumber(44, ApplyFlags(b.action.value)), NewNumber(88, b.barId.value);
    var i3, i4 := NewGroup(FORWARDING_PARAMETERS, ForwardingIes(b.forwarding.value)), NewGroup(DUPLICATING_PARAMETERS, []);
    var r4 := Prepend(b.barId.present, i5, []);
    var r3 := Prepend(b.duplicating.present, i4, r4);
    var r2 := Prepend(b.forwarding.present, i3, r3);
    var r1 := Prepend(b.action.present, i2, r2);
    PrependNorm(b.barId.present, i5, [], junk);
    PrependNorm(b.duplicating.present, i4, r4, junk);
    PrependNorm(b.forwarding.present, i3, r3, junk);
    PrependNorm(b.action.present, i2, r2, junk);
    PrependNorm(b.farId.present, i1, r1, junk);
    ApplyReadsBack(b.action.value);
    NormGroup(FORWARDING_PARAMETERS, ForwardingIes(b.forwarding.value), junk);
    if b.forwarding.present {
      ForwardingReadsBack(b.forwarding.value, junk);
    }
    var e := EMPTY_FAR;
    var e1 := e.(farId := if b.farId.present then b.farId else e.farId);
    var e2 := e1.(action := if b.action.present then b.action else e.action);
    var e3 := e2.(forwarding := if b.forwarding.present then R.Group(true, NormForwarding(b.forwarding.value, junk)) else e.forwarding);
    PrependFar(e, b.farId.present, NormIe(i1, junk), NormAll(r1, junk));
    PrependFar(e1, b.action.present, NormIe(i2, junk), NormAll(r2, junk));
    PrependFar(e2, b.forwarding.present, NormIe(i3, junk), NormAll(r3, junk));
    PrependFar(e3, b.barId.present, NormIe(i5, junk), NormAll([], junk));
    NothingToVisit(junk);
  }

  lemma {:induction false} NormGroup(t: nat, ies: seq<Ie>, junk: byte)
    ensures NormIe(NewGroup(t, ies), junk) == GroupIe(NewGroup(t, ies).tlv, NormAll(ies, junk))
  {
  }

  /**
   A Create FAR element built from a record and printed is parsed again exactly when the record is readable; the
   visitors then give the record back, up to what is never sent. A record with duplicating parameters never is:
   its constructor makes an element of length zero, which the parser rejects.
   */
  lemma {:induction false} CreateFarRoundTripIff(b: R.CreateFar, s: Stream)
    requires Sizes(b.forwarding.value.creation.value) && FarFits(b)
    requires s.Valid() && s.At(DumpIe(NewCreateFar(b)))
    ensures NewIe(s).Some? <==> Readable(b)
    ensures Readable(b) ==>
              var r := NewIe(s);
              && r.ie.GroupIe? && r.s == s.Skip(|DumpIe(NewCreateFar(b))|)
              && VisitFar(Core(EMPTY_FAR), r.ie.ies) == Core(NormFar(b, s.junk))
  {
    hide NewIe, DumpIe, VisitFar, CreateFarIes, Full, Shaped, NormFar, NormUpTo, FarFits;
    CreateFarShaped(b);
    IeParsesIff(NewCreateFar(b), s);
    NormGroup(CREATE_FAR, CreateFarIes(b), s.junk);
    if Readable(b) {
      FarReadsBack(b, s.junk);
    }
  }

  /** A complete request for a rule that forwards is still one after the round trip, and makes the same rule but for lost fields. */
  lemma {:induction false} CompletenessSurvives(b: R.CreateFar, junk: byte)
    requires !b.duplicating.present
    ensures R.FarComplete(NormFar(b, junk)) <==> R.FarComplete(b)
  {
  }

  // ---------------------------------------------------------------- what the visitors take from any children

  /** The children forwarding parameters have a field for: by type, or by the shape only one type has. */
  predicate ForwardingChild(ie: Ie) {
    ie.LeafIe? && ((ie.leaf.Num? && ie.tlv.t == 42) || (ie.leaf.Str? && ie.tlv.t in {22, 30}) || ie.leaf.OuterHeader? || ie.leaf.Policy?)
  }

  /** Duplicating parameters have no network instance. */
  predicate DuplicatingChild(ie: Ie) {
    ie.LeafIe? && ((ie.leaf.Num? && ie.tlv.t == 42) || (ie.leaf.Str? && ie.tlv.t == 30) || ie.leaf.OuterHeader? || ie.leaf.Policy?)
  }

  ghost predicate ForwardingChildren(ies: seq<Ie>) {
    forall i :: 0 <= i < |ies| ==> ForwardingChild(ies[i])
  }

  ghost predicate DuplicatingChildren(ies: seq<Ie>) {
    forall i :: 0 <= i < |ies| ==> DuplicatingChild(ies[i])
  }

  predicate FarNumber(ie: Ie) {
    ie.LeafIe? && ie.leaf.Num? && ie.tlv.t in {108, 44, 88}
  }

  ghost predicate FarChild(ie: Ie) {
    FarNumber(ie) || (ie.GroupIe? && ((ie.tlv.t == 4 && ForwardingChildren(ie.ies)) || (ie.tlv.t == 5 && DuplicatingChildren(ie.ies))))
  }

  ghost predicate FarChildren(ies: seq<Ie>) {
    forall i :: 0 <= i < |ies| ==> FarChild(ies[i])
  }

  lemma {:induction false} ForwardingTakenIff(f: R.Forwarding, ies: seq<Ie>)
    ensures VisitForwarding(Core(f), ies).Core? <==> ForwardingChildren(ies)
    decreases |ies|
  {
    hide Octet, CreationOf;
    if ies != [] {
      var next := SetForwarding(f, ies[0]);
      assert next.Core? <==> ForwardingChild(ies[0]);
      if next.Core? {
        ForwardingTakenIff(next.value, ies[1..]);
        assert forall i :: 0 < i < |ies| ==> ies[i] == ies[1..][i - 1];
      }
    }
  }

  lemma {:induction false} DuplicatingTakenIff(x: R.Duplicating, ies: seq<Ie>)
    ensures VisitDuplicating(Core(x), ies).Core? <==> DuplicatingChildren(ies)
    decreases |ies|
  {
    hide Octet, CreationOf;
    if ies != [] {
      var next := SetDuplicating(x, ies[0]);
      assert next.Core? <==> DuplicatingChild(ies[0]);
      if next.Core? {
        DuplicatingTakenIff(next.value, ies[1..]);
        assert forall i :: 0 < i < |ies| ==> ies[i] == ies[1..][i - 1];
      }
    }
  }

  /** Filling a record throws if and only if some child, or a child of a group of parameters, has no field. */
  lemma {:induction false} FarTakenIff(c: R.CreateFar, ies: seq<Ie>)
    ensures VisitFar(Core(c), ies).Core? <==> FarChildren(ies)
    decreases |ies|
  {
    hide Octet, ApplyOf, VisitForwarding, VisitDuplicating, ForwardingChildren, DuplicatingChildren;
    if ies != [] {
      var ie := ies[0];
      var next := SetFar(c, ie);
      if ie.GroupIe? {
        ForwardingTakenIff(EMPTY_FORWARDING, ie.ies);
        DuplicatingTakenIff(EMPTY_DUPLICATING, ie.ies);
      }
      assert next.Core? <==> FarChild(ie);
      if next.Core? {
        FarTakenIff(next.value, ies[1..]);
        assert forall i :: 0 < i < |ies| ==> ies[i] == ies[1..][i - 1];
      }
    }
  }

  /** What a child leaves in duplicating parameters: the field of its type, and nothing else. */
  lemma {:induction false} DuplicatingChildSets(x: R.Duplicating, ie: Ie)
    requires DuplicatingChild(ie)
    ensures SetDuplicating(x, ie).Core?
    ensures var y, leaf := SetDuplicating(x, ie).value, ie.leaf;
            && y.destination == (if leaf.Num? then R.Field(true, leaf.v % 256) else x.destination)
            && y.marking == (if leaf.Str? then R.Field(true, leaf.text) else x.marking)
            && y.policy == (if leaf.Policy? then R.Field(true, R.PolicyId(leaf.idLength % 256, leaf.id)) else x.policy)
            && y.creation == if leaf.OuterHeader? then
                               R.Field(true, R.HeaderCreation(leaf.description % 0x1_0000, leaf.teid % 0x1_0000_0000, leaf.v4, leaf.v6,
                                                              leaf.port % 0x1_0000))
                             else x.creation
  {
  }

  /** In parsed duplicating parameters the outer header is that of the last child that has one. */
  lemma {:induction false} LastChildCounts(x: R.Duplicating, ies: seq<Ie>, k: nat)
    requires DuplicatingChildren(ies) && k < |ies|
    requires ies[k].leaf.OuterHeader? && forall i :: k < i < |ies| ==> !ies[i].leaf.OuterHeader?
    ensures VisitDuplicating(Core(x), ies).Core?
    ensures var c, leaf := VisitDuplicating(Core(x), ies).value.creation, ies[k].leaf;
            c == R.Field(true, R.HeaderCreation(leaf.description % 0x1_0000, leaf.teid % 0x1_0000_0000, leaf.v4, leaf.v6,
                                                leaf.port % 0x1_0000))
    decreases |ies|
  {
    hide SetDuplicating;
    DuplicatingChildSets(x, ies[0]);
    var next := SetDuplicating(x, ies[0]);
    assert forall i :: 0 < i < |ies| ==> ies[i] == ies[1..][i - 1];
    if k > 0 {
      LastChildCounts(next.value, ies[1..], k - 1);
    } else {
      CreationStays(next.value, ies[1..]);
    }
  }

  lemma {:induction false} CreationStays(x: R.Duplicating, ies: seq<Ie>)
    requires DuplicatingChildren(ies) && forall i :: 0 <= i < |ies| ==> !ies[i].leaf.OuterHeader?
    ensures VisitDuplicating(Core(x), ies).Core? && VisitDuplicating(Core(x), ies).value.creation == x.creation
    decreases |ies|
  {
    hide SetDuplicating;
    if ies != [] {
      DuplicatingChildSets(x, ies[0]);
      assert forall i :: 0 < i < |ies| ==> ies[i] == ies[1..][i - 1];
      CreationStays(SetDuplicating(x, ies[0]).value, ies[1..]);
    }
  }
}
