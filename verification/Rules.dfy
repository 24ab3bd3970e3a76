/**
 The rules of a PFCP session and what the requests that create, update and remove them carry
 (`msg_pfcp.hpp`, `pfcp_pdr.hpp`, `pfcp_far.hpp`).
 */
module Rules {
  import opened Wire
  import opened RuleList

  /** `std::pair<bool, T>`: the value is there even when the flag is not set. */
  datatype Field<T> = Field(present: bool, value: T)

  /** `if(u.get(x.second)) x.first = true;` and `if(u.x.first) set(u.x.second);`: flags are only ever set. */
  function Overwritten<T>(x: Field<T>, u: Field<T>): Field<T> {
    if u.present then Field(true, u.value) else x
  }

  /** The same for a grouped IE. */
  datatype Group<T> = Group(present: bool, value: T)

  const ACCESS: byte := 0
  const CORE: byte := 1

  const REQUEST_REJECTED: byte := 64
  const MANDATORY_IE_MISSING: byte := 66
  const RULE_CREATION_MODIFICATION_FAILURE: byte := 73

  const IE_PDI: u16 := 2
  const IE_FORWARDING_PARAMETERS: u16 := 4
  const IE_DUPLICATING_PARAMETERS: u16 := 5
  const IE_SOURCE_INTERFACE: u16 := 20
  const IE_F_TEID: u16 := 21
  const IE_PRECEDENCE: u16 := 29
  const IE_APPLY_ACTION: u16 := 44
  const IE_PACKET_DETECTION_RULE_ID: u16 := 56
  const IE_FAR_ID: u16 := 108

  // ---------------------------------------------------------------- packet detection rules

  /** Packet detection information, as far as this model looks into it. */
  datatype Pdi = Pdi(sourceInterface: Field<byte>, localFteid: Field<u32>, ueIpAddress: Field<bytes>,
                     trafficEndpointId: Field<byte>, networkInstance: Field<bytes>)

  datatype PdrData = PdrData(localSeid: nat, precedence: Field<u32>, pdi: Group<Pdi>, outerHeaderRemoval: Field<byte>,
                             farId: Field<u32>, urrId: Field<u32>, qerId: Field<u32>, predefined: Field<bytes>)

  datatype CreatePdr = CreatePdr(pdrId: Field<u16>, precedence: Field<u32>, pdi: Group<Pdi>, outerHeaderRemoval: Field<byte>,
                                 farId: Field<u32>, urrId: Field<u32>, qerId: Field<u32>, predefined: Field<bytes>)

  datatype UpdatePdr = UpdatePdr(pdrId: u16, outerHeaderRemoval: Field<byte>, precedence: Field<u32>, pdi: Group<Pdi>,
                                 farId: Field<u32>, urrId: Field<u32>, qerId: Field<u32>)

  function NewPdr(seid: nat, c: CreatePdr): PdrData {
    PdrData(seid, c.precedence, c.pdi, c.outerHeaderRemoval, c.farId, c.urrId, c.qerId, c.predefined)
  }

  /** `pfcp_pdr::update`. */
  function UpdatedPdr(p: PdrData, u: UpdatePdr): PdrData {
    p.(outerHeaderRemoval := Overwritten(p.outerHeaderRemoval, u.outerHeaderRemoval),
       precedence := Overwritten(p.precedence, u.precedence), pdi := if u.pdi.present then u.pdi else p.pdi,
       farId := Overwritten(p.farId, u.farId), urrId := Overwritten(p.urrId, u.urrId), qerId := Overwritten(p.qerId, u.qerId))
  }

  // ---------------------------------------------------------------- forwarding action rules

  datatype Apply = Apply(drop: bool, forw: bool, buff: bool, nocp: bool, dupl: bool)

  /** `outer_header_creation_t` and `forwarding_policy_t`. Addresses are the octets in memory. */
  datatype HeaderCreation = HeaderCreation(description: u16, teid: u32, ipv4: bytes, ipv6: bytes, port: u16)

  datatype PolicyId = PolicyId(length: byte, id: bytes)

  datatype Forwarding = Forwarding(destination: Field<byte>, networkInstance: Field<bytes>, redirect: Field<bytes>,
                                   creation: Field<HeaderCreation>, marking: Field<bytes>, policy: Field<PolicyId>,
                                   enrichment: Field<bytes>, linkedEndpoint: Field<byte>, proxying: Field<byte>)

  datatype UpdateForwarding = UpdateForwarding(destination: Field<byte>, networkInstance: Field<bytes>,
                                               creation: Field<HeaderCreation>, marking: Field<bytes>, policy: Field<PolicyId>,
                                               enrichment: Field<bytes>, linkedEndpoint: Field<byte>)

  datatype Duplicating = Duplicating(destination: Field<byte>, creation: Field<HeaderCreation>, marking: Field<bytes>,
                                     policy: Field<PolicyId>)

  datatype FarData = FarData(action: Apply, forwarding: Group<Forwarding>, duplicating: Group<Duplicating>, barId: Field<byte>)

  datatype CreateFar = CreateFar(farId: Field<u32>, action: Field<Apply>, forwarding: Group<Forwarding>,
                                 duplicating: Group<Duplicating>, barId: Field<byte>)

  datatype UpdateFar = UpdateFar(farId: u32, action: Field<Apply>, forwarding: Group<UpdateForwarding>,
                                 duplicating: Group<Duplicating>, barId: Field<byte>)

  function NewFar(c: CreateFar): FarData {
    FarData(c.action.value, c.forwarding, c.duplicating, c.barId)
  }

  /** `forwarding_parameters::update`: redirect information and proxying are never updated. */
  function UpdatedForwarding(f: Forwarding, u: UpdateForwarding): Forwarding {
    f.(destination := Overwritten(f.destination, u.destination),
       networkInstance := Overwritten(f.networkInstance, u.networkInstance),
       creation := Overwritten(f.creation, u.creation), marking := Overwritten(f.marking, u.marking),
       policy := Overwritten(f.policy, u.policy), enrichment := Overwritten(f.enrichment, u.enrichment),
       linkedEndpoint := Overwritten(f.linkedEndpoint, u.linkedEndpoint))
  }

  /** `duplicating_parameters::update`. */
  function UpdatedDuplicating(d: Duplicating, u: Duplicating): Duplicating {
    Duplicating(Overwritten(d.destination, u.destination), Overwritten(d.creation, u.creation),
                Overwritten(d.marking, u.marking), Overwritten(d.policy, u.policy))
  }

  /** `pfcp_far::update`: the parameters are updated behind their flags, which stay as they are. */
  function UpdatedFar(f: FarData, u: UpdateFar): FarData {
    FarData(
      if u.action.present then u.action.value else f.action,
      if u.forwarding.present then Group(f.forwarding.present, UpdatedForwarding(f.forwarding.value, u.forwarding.value))
      else f.forwarding,
      if u.duplicating.present then Group(f.duplicating.present, UpdatedDuplicating(f.duplicating.value, u.duplicating.value))
      else f.duplicating,
      Overwritten(f.barId, u.barId))
  }

  // ---------------------------------------------------------------- requests on the two lists

  type Pdrs = seq<Entry<PdrData>>
  type Fars = seq<Entry<FarData>>

  datatype Request =
    | AddPdr(createPdr: CreatePdr)
    | ChangePdr(updatePdr: UpdatePdr)
    | DeletePdr(pdrId: Field<u16>)
    | AddFar(createFar: CreateFar)
    | ChangeFar(updateFar: UpdateFar)
    | DeleteFar(farId: Field<u32>)

  /** No offending IE where the code leaves the parameter alone. */
  datatype Option<T> = None | Some(value: T)
  datatype Reply = Accepted | Rejected(cause: byte, offending: Option<u16>)

  function Missing(ie: u16): Reply {
    Rejected(MANDATORY_IE_MISSING, Some(ie))
  }

  /** The checks of `create(create_pdr)`, in the order of the code. */
  function CheckPdr(c: CreatePdr): Reply {
    if !c.pdrId.present then Missing(IE_PACKET_DETECTION_RULE_ID)
    else if !c.pdi.present then Missing(IE_PDI)
    else if !c.precedence.present then Missing(IE_PRECEDENCE)
    else if !c.pdi.value.sourceInterface.present then Missing(IE_SOURCE_INTERFACE)
    else if c.pdi.value.trafficEndpointId.present then Rejected(REQUEST_REJECTED, None)
    else if c.pdi.value.sourceInterface.value == ACCESS then
      if !c.pdi.value.localFteid.present then Missing(IE_F_TEID) else Accepted
    else if c.pdi.value.sourceInterface.value == CORE then Accepted
    else Rejected(REQUEST_REJECTED, None)
  }

  /** The checks of `create(create_far)`. */
  function CheckFar(c: CreateFar): Reply {
    if !c.farId.present then Missing(IE_FAR_ID)
    else if !c.action.present then Missing(IE_APPLY_ACTION)
    else if c.action.value.forw && !c.forwarding.present then Missing(IE_FORWARDING_PARAMETERS)
    else if c.action.value.dupl && !c.duplicating.present then Missing(IE_DUPLICATING_PARAMETERS)
    else Accepted
  }

  const UNKNOWN := Rejected(RULE_CREATION_MODIFICATION_FAILURE, None)

  /** What a request does to the lists of a session and what it answers. */
  function Handle(pdrs: Pdrs, fars: Fars, seid: nat, r: Request): (Pdrs, Fars, Reply) {
    match r
    case AddPdr(c) =>
      if CheckPdr(c).Accepted? then (pdrs + [Entry(c.pdrId.value, NewPdr(seid, c))], fars, Accepted)
      else (pdrs, fars, CheckPdr(c))
    case ChangePdr(u) =>
      var i := Find(pdrs, u.pdrId);
      if i < |pdrs| then (pdrs[i := Entry(u.pdrId, UpdatedPdr(pdrs[i].value, u))], fars, Accepted)
      else (pdrs, fars, UNKNOWN)
    case DeletePdr(id) =>
      if !id.present then (pdrs, fars, Missing(IE_PACKET_DETECTION_RULE_ID))
      else
        var i := Find(pdrs, id.value);
        if i < |pdrs| then (Erase(pdrs, i), fars, Accepted) else (pdrs, fars, UNKNOWN)
    case AddFar(c) =>
      if CheckFar(c).Accepted? then (pdrs, fars + [Entry(c.farId.value, NewFar(c))], Accepted)
      else (pdrs, fars, CheckFar(c))
    case ChangeFar(u) =>
      var i := Find(fars, u.farId);
      if i < |fars| then (pdrs, fars[i := Entry(u.farId, UpdatedFar(fars[i].value, u))], Accepted)
      else (pdrs, fars, UNKNOWN)
    case DeleteFar(id) =>
      if !id.present then (pdrs, fars, Missing(IE_FAR_ID))
      else
        var i := Find(fars, id.value);
        if i < |fars| then (pdrs, Erase(fars, i), Accepted) else (pdrs, fars, UNKNOWN)
  }

  // ---------------------------------------------------------------- what a request must carry

  /** Tables 7.5.2.2-1 and 7.5.2.2-2 of TS 29.244, with what this user plane supports. */
  predicate PdrComplete(c: CreatePdr) {
    && c.pdrId.present && c.precedence.present && c.pdi.present && c.pdi.value.sourceInterface.present
    && !c.pdi.value.trafficEndpointId.present
    && ((c.pdi.value.sourceInterface.value == ACCESS && c.pdi.value.localFteid.present)
        || c.pdi.value.sourceInterface.value == CORE)
  }

  /** Table 7.5.2.3-1 of TS 29.244. */
  predicate FarComplete(c: CreateFar) {
    && c.farId.present && c.action.present
    && (c.action.value.forw ==> c.forwarding.present) && (c.action.value.dupl ==> c.duplicating.present)
  }

  /** A known identifier, or a complete request: exactly these are accepted. */
  predicate Acceptable(pdrs: Pdrs, fars: Fars, r: Request) {
    match r
    case AddPdr(c) => PdrComplete(c)
    case ChangePdr(u) => u.pdrId in Ids(pdrs)
    case DeletePdr(id) => id.present && id.value in Ids(pdrs)
    case AddFar(c) => FarComplete(c)
    case ChangeFar(u) => u.farId in Ids(fars)
    case DeleteFar(id) => id.present && id.value in Ids(fars)
  }

  /**
   A request is accepted exactly when it is acceptable; a rejected one leaves both lists as they are and names one
   of three causes, the missing IE with the second; an accepted create adds one rule at the end of one list.
   */
  lemma {:induction false} AcceptedIff(pdrs: Pdrs, fars: Fars, seid: nat, r: Request)
    ensures var (pdrs', fars', reply) := Handle(pdrs, fars, seid, r);
            && (reply.Accepted? <==> Acceptable(pdrs, fars, r))
            && (reply.Rejected? ==> pdrs' == pdrs && fars' == fars
                                    && reply.cause in {REQUEST_REJECTED, MANDATORY_IE_MISSING, RULE_CREATION_MODIFICATION_FAILURE}
                                    && (reply.cause == MANDATORY_IE_MISSING <==> reply.offending.Some?))
            && (reply.Accepted? && r.AddPdr? ==> fars' == fars && |pdrs'| == |pdrs| + 1 && pdrs <= pdrs')
            && (reply.Accepted? && r.AddFar? ==> pdrs' == pdrs && |fars'| == |fars| + 1 && fars <= fars')
  {
    match r
    case ChangePdr(u) => InIds(pdrs, u.pdrId);
    case DeletePdr(id) => InIds(pdrs, id.value);
    case ChangeFar(u) => InIds(fars, u.farId);
    case DeleteFar(id) => InIds(fars, id.value);
    case _ =>
  }

  /** The mandatory IE with this number is absent. */
  predicate PdrLacks(c: CreatePdr, ie: u16) {
    || (ie == IE_PACKET_DETECTION_RULE_ID && !c.pdrId.present)
    || (ie == IE_PDI && !c.pdi.present)
    || (ie == IE_PRECEDENCE && !c.precedence.present)
    || (ie == IE_SOURCE_INTERFACE && c.pdi.present && !c.pdi.value.sourceInterface.present)
    || (ie == IE_F_TEID && c.pdi.present && c.pdi.value.sourceInterface == Field(true, ACCESS) && !c.pdi.value.localFteid.present)
  }

  predicate FarLacks(c: CreateFar, ie: u16) {
    || (ie == IE_FAR_ID && !c.farId.present)
    || (ie == IE_APPLY_ACTION && !c.action.present)
    || (ie == IE_FORWARDING_PARAMETERS && c.action.present && c.action.value.forw && !c.forwarding.present)
    || (ie == IE_DUPLICATING_PARAMETERS && c.action.present && c.action.value.dupl && !c.duplicating.present)
  }

  /** The IE a rejected create names is one the request lacks, and a create that lacks one is rejected. */
  lemma {:induction false} OffendingIsMissing(c: CreatePdr, d: CreateFar)
    ensures CheckPdr(c).Rejected? && CheckPdr(c).offending.Some? ==> PdrLacks(c, CheckPdr(c).offending.value)
    ensures CheckFar(d).Rejected? ==> CheckFar(d).offending.Some? && FarLacks(d, CheckFar(d).offending.value)
    ensures forall ie :: PdrLacks(c, ie) ==> CheckPdr(c).Rejected?
    ensures forall ie :: FarLacks(d, ie) ==> CheckFar(d).Rejected?
  {
  }

  // ---------------------------------------------------------------- the lists are two maps

  /** Rules by identifier: what a session is for. */
  datatype Maps = Maps(pdrs: map<int, PdrData>, fars: map<int, FarData>)

  /** What an accepted request does to the maps. */
  function Effect(m: Maps, seid: nat, r: Request): Maps {
    match r
    case AddPdr(c) => m.(pdrs := m.pdrs[c.pdrId.value as int := NewPdr(seid, c)])
    case ChangePdr(u) =>
      if u.pdrId in m.pdrs then m.(pdrs := m.pdrs[u.pdrId as int := UpdatedPdr(m.pdrs[u.pdrId], u)]) else m
    case DeletePdr(id) => m.(pdrs := m.pdrs - {id.value})
    case AddFar(c) => m.(fars := m.fars[c.farId.value as int := NewFar(c)])
    case ChangeFar(u) =>
      if u.farId in m.fars then m.(fars := m.fars[u.farId as int := UpdatedFar(m.fars[u.farId], u)]) else m
    case DeleteFar(id) => m.(fars := m.fars - {id.value})
  }

  /** A create uses an identifier that is not in use. */
  predicate FreshFor(pdrs: Pdrs, fars: Fars, r: Request) {
    && (r.AddPdr? && PdrComplete(r.createPdr) ==> r.createPdr.pdrId.value !in Ids(pdrs))
    && (r.AddFar? && FarComplete(r.createFar) ==> r.createFar.farId.value !in Ids(fars))
  }

  ghost function MapsOf(pdrs: Pdrs, fars: Fars): Maps {
    Maps(Stored(pdrs), Stored(fars))
  }

  /** One request on the lists is the same request on the maps. */
  lemma {:induction false} HandleRefines(pdrs: Pdrs, fars: Fars, seid: nat, r: Request)
    requires Distinct(pdrs) && Distinct(fars) && FreshFor(pdrs, fars, r)
    ensures var (pdrs', fars', reply) := Handle(pdrs, fars, seid, r);
            && Distinct(pdrs') && Distinct(fars')
            && MapsOf(pdrs', fars') == if Acceptable(pdrs, fars, r) then Effect(MapsOf(pdrs, fars), seid, r) else MapsOf(pdrs, fars)
  {
    hide Distinct, NewPdr, NewFar, UpdatedPdr, UpdatedFar, Find, Stored, Ids;
    AcceptedIff(pdrs, fars, seid, r);
    StoredKeys(pdrs);
    StoredKeys(fars);
    if Acceptable(pdrs, fars, r) {
      match r
      case AddPdr(c) => AppendStored(pdrs, Entry(c.pdrId.value, NewPdr(seid, c)));
      case ChangePdr(u) => ReplaceStored(pdrs, u.pdrId, UpdatedPdr(Stored(pdrs)[u.pdrId], u));
      case DeletePdr(id) => EraseStored(pdrs, id.value);
      case AddFar(c) => AppendStored(fars, Entry(c.farId.value, NewFar(c)));
      case ChangeFar(u) => ReplaceStored(fars, u.farId, UpdatedFar(Stored(fars)[u.farId], u));
      case DeleteFar(id) => EraseStored(fars, id.value);
    }
  }

  lemma {:induction false} StoredKeys<T>(l: seq<Entry<T>>)
    ensures forall id :: id in Stored(l) <==> id in Ids(l)
    ensures forall id :: id in Ids(l) ==> Find(l, id) < |l| && Stored(l)[id] == l[Find(l, id)].value
  {
    forall id | id in Ids(l) ensures Find(l, id) < |l| && Stored(l)[id] == l[Find(l, id)].value {
      InIds(l, id);
    }
  }

  // ---------------------------------------------------------------- runs

  function After(seid: nat, rs: seq<Request>, n: nat): (Pdrs, Fars)
    requires n <= |rs|
  {
    if n == 0 then ([], [])
    else
      var (pdrs, fars) := After(seid, rs, n - 1);
      var (pdrs', fars', reply) := Handle(pdrs, fars, seid, rs[n - 1]);
      (pdrs', fars')
  }

  /** Creates among the first n requests use fresh identifiers. */
  predicate AllFresh(seid: nat, rs: seq<Request>, n: nat)
    requires n <= |rs|
  {
    n == 0 ||
    (AllFresh(seid, rs, n - 1) && FreshFor(After(seid, rs, n - 1).0, After(seid, rs, n - 1).1, rs[n - 1]))
  }

  /** The maps after the accepted ones among the first n requests. */
  function MapsAfter(seid: nat, rs: seq<Request>, n: nat): Maps
    requires n <= |rs|
  {
    if n == 0 then Maps(map[], map[])
    else
      var m := MapsAfter(seid, rs, n - 1);
      if KnownOrComplete(m, rs[n - 1]) then Effect(m, seid, rs[n - 1]) else m
  }

  /** Acceptable, said of the maps. */
  predicate KnownOrComplete(m: Maps, r: Request) {
    match r
    case AddPdr(c) => PdrComplete(c)
    case ChangePdr(u) => u.pdrId in m.pdrs
    case DeletePdr(id) => id.present && id.value in m.pdrs
    case AddFar(c) => FarComplete(c)
    case ChangeFar(u) => u.farId in m.fars
    case DeleteFar(id) => id.present && id.value in m.fars
  }

  lemma {:induction false} SameVerdict(pdrs: Pdrs, fars: Fars, r: Request)
    ensures Acceptable(pdrs, fars, r) <==> KnownOrComplete(MapsOf(pdrs, fars), r)
  {
    hide Stored, Ids, PdrComplete, FarComplete;
    StoredKeys(pdrs);
    StoredKeys(fars);
  }

  /**
   Over every run whose creates use fresh identifiers the two lists are two maps: a search by PDR or FAR identifier
   gives the latest value for it, and nothing after it was removed.
   */
  lemma {:induction false} ListsRefineMaps(seid: nat, rs: seq<Request>, n: nat)
    requires n <= |rs| && AllFresh(seid, rs, n)
    ensures Distinct(After(seid, rs, n).0) && Distinct(After(seid, rs, n).1)
    ensures MapsOf(After(seid, rs, n).0, After(seid, rs, n).1) == MapsAfter(seid, rs, n)
  {
    if n == 0 {
    } else {
      hide Distinct, Handle, FreshFor, Acceptable, KnownOrComplete, Effect, MapsOf;
      ListsRefineMaps(seid, rs, n - 1);
      var (pdrs, fars) := After(seid, rs, n - 1);
      HandleRefines(pdrs, fars, seid, rs[n - 1]);
      SameVerdict(pdrs, fars, rs[n - 1]);
    }
  }

  /** The rule created last under an identifier in use is not the one that is found: freshness is needed. */
  lemma {:induction false} DuplicateIsShadowed(pdrs: Pdrs, fars: Fars, seid: nat, c: CreatePdr)
    requires PdrComplete(c)
    ensures var pdrs' := Handle(pdrs, fars, seid, AddPdr(c)).0;
            && c.pdrId.value in Ids(pdrs')
            && (Found(pdrs', c.pdrId.value) == NewPdr(seid, c) <==>
                c.pdrId.value !in Ids(pdrs) || Found(pdrs, c.pdrId.value) == NewPdr(seid, c))
  {
    hide Find, NewPdr, PdrComplete;
    var e := Entry(c.pdrId.value, NewPdr(seid, c));
    assert CheckPdr(c).Accepted? by {
      AcceptedIff(pdrs, fars, seid, AddPdr(c));
    }
    AppendStored(pdrs, e);
    StoredKeys(pdrs);
    StoredKeys(pdrs + [e]);
    assert (pdrs + [e])[|pdrs|].id == c.pdrId.value;
  }

  // ---------------------------------------------------------------- what the rule selection relies on

  predicate Usable(p: PdrData) {
    p.precedence.present && p.pdi.present
  }

  ghost predicate AllUsable(pdrs: Pdrs) {
    forall i :: 0 <= i < |pdrs| ==> Usable(pdrs[i].value)
  }

  lemma {:induction false} HandleKeepsUsable(pdrs: Pdrs, fars: Fars, seid: nat, r: Request)
    requires AllUsable(pdrs)
    ensures AllUsable(Handle(pdrs, fars, seid, r).0)
  {
    hide Find;
  }

  /** Every PDR of every session that requests can reach has a precedence and a PDI, fresh identifiers or not. */
  lemma {:induction false} ReachableAreUsable(seid: nat, rs: seq<Request>, n: nat)
    requires n <= |rs|
    ensures AllUsable(After(seid, rs, n).0)
  {
    if n == 0 {
    } else {
      hide Handle, AllUsable;
      ReachableAreUsable(seid, rs, n - 1);
      var (pdrs, fars) := After(seid, rs, n - 1);
      HandleKeepsUsable(pdrs, fars, seid, rs[n - 1]);
    }
  }

  /** Updates never clear a flag, and those of the parameter groups never set one. */
  lemma {:induction false} FlagsUnderUpdate(p: PdrData, u: UpdatePdr, f: FarData, v: UpdateFar)
    ensures var q := UpdatedPdr(p, u);
            && (q.precedence.present <==> p.precedence.present || u.precedence.present)
            && (q.pdi.present <==> p.pdi.present || u.pdi.present)
            && (q.farId.present <==> p.farId.present || u.farId.present)
            && q.localSeid == p.localSeid && q.predefined == p.predefined
    ensures var g := UpdatedFar(f, v);
            && g.forwarding.present == f.forwarding.present && g.duplicating.present == f.duplicating.present
            && (g.barId.present <==> f.barId.present || v.barId.present)
  {
  }
}
