/**
 What the requests leave in the rules, field by field, and which numbers the rejections carry.
 */
module RuleValues {
  import opened Wire
  import opened RuleList
  import opened Rules

  /** A field the request has is set to its value; one it has not is as before. */
  predicate Takes<T(==)>(after: Field<T>, before: Field<T>, request: Field<T>) {
    && (request.present ==> after.present && after.value == request.value)
    && (!request.present ==> after == before)
  }

  predicate SameField<T(==)>(a: Field<T>, b: Field<T>) {
    a.present == b.present && a.value == b.value
  }

  /** Every entry but the one found for id is where it was, and that one still has this identifier. */
  predicate OnlyEntryOf<T(==)>(after: seq<Entry<T>>, before: seq<Entry<T>>, id: int)
    requires id in Ids(before)
  {
    && |after| == |before|
    && forall i :: 0 <= i < |before| ==> after[i].id == before[i].id && (i != Find(before, id) ==> after[i].value == before[i].value)
  }

  lemma {:induction false} FoundAfter<T>(after: seq<Entry<T>>, before: seq<Entry<T>>, id: int)
    requires id in Ids(before) && OnlyEntryOf(after, before, id)
    ensures Find(before, id) < |before| && id in Ids(after) && Found(after, id) == after[Find(before, id)].value
  {
    hide Find;
    InIds(before, id);
    var i := Find(before, id);
    assert forall j :: 0 <= j < i ==> !IdAt(before, j, id) ==> !IdAt(after, j, id);
    FindUnique(after, id, i);
  }

  // ---------------------------------------------------------------- updates

  /** What an update of forwarding parameters leaves; redirect information and proxying stay. */
  predicate ForwardingTakes(after: Forwarding, before: Forwarding, u: UpdateForwarding) {
    && Takes(after.destination, before.destination, u.destination)
    && Takes(after.networkInstance, before.networkInstance, u.networkInstance)
    && Takes(after.creation, before.creation, u.creation)
    && Takes(after.marking, before.marking, u.marking)
    && Takes(after.policy, before.policy, u.policy)
    && Takes(after.enrichment, before.enrichment, u.enrichment)
    && Takes(after.linkedEndpoint, before.linkedEndpoint, u.linkedEndpoint)
    && SameField(after.redirect, before.redirect) && SameField(after.proxying, before.proxying)
  }

  predicate DuplicatingTakes(after: Duplicating, before: Duplicating, u: Duplicating) {
    && Takes(after.destination, before.destination, u.destination) && Takes(after.creation, before.creation, u.creation)
    && Takes(after.marking, before.marking, u.marking) && Takes(after.policy, before.policy, u.policy)
  }

  /** The groups of parameters are updated behind their flags, which stay as they were. */
  predicate FarTakes(after: FarData, before: FarData, u: UpdateFar) {
    && after.action == (if u.action.present then u.action.value else before.action)
    && after.forwarding.present == before.forwarding.present
    && (if u.forwarding.present then ForwardingTakes(after.forwarding.value, before.forwarding.value, u.forwarding.value)
        else after.forwarding.value == before.forwarding.value)
    && after.duplicating.present == before.duplicating.present
    && (if u.duplicating.present then DuplicatingTakes(after.duplicating.value, before.duplicating.value, u.duplicating.value)
        else after.duplicating.value == before.duplicating.value)
    && Takes(after.barId, before.barId, u.barId)
  }

  predicate PdrTakes(after: PdrData, before: PdrData, u: UpdatePdr) {
    && Takes(after.precedence, before.precedence, u.precedence)
    && Takes(after.outerHeaderRemoval, before.outerHeaderRemoval, u.outerHeaderRemoval)
    && Takes(after.farId, before.farId, u.farId) && Takes(after.urrId, before.urrId, u.urrId)
    && Takes(after.qerId, before.qerId, u.qerId)
    && (if u.pdi.present then after.pdi.present && after.pdi.value == u.pdi.value else after.pdi == before.pdi)
    && after.localSeid == before.localSeid && SameField(after.predefined, before.predefined)
  }

  /** An Update FAR for a known identifier: the values its rule has afterwards, and that no other rule changes. */
  lemma {:induction false} FarUpdateLeaves(pdrs: Pdrs, fars: Fars, seid: nat, u: UpdateFar)
    requires u.farId in Ids(fars)
    ensures var (pdrs', fars', reply) := Handle(pdrs, fars, seid, ChangeFar(u));
            && reply == Accepted && pdrs' == pdrs && OnlyEntryOf(fars', fars, u.farId)
            && u.farId in Ids(fars') && FarTakes(Found(fars', u.farId), Found(fars, u.farId), u)
  {
    hide Find, UpdatedFar, FarTakes;
    InIds(fars, u.farId);
    var fars' := Handle(pdrs, fars, seid, ChangeFar(u)).1;
    FoundAfter(fars', fars, u.farId);
    UpdatedFarTakes(Found(fars, u.farId), u);
  }

  lemma {:induction false} UpdatedFarTakes(f: FarData, u: UpdateFar)
    ensures FarTakes(UpdatedFar(f, u), f, u)
  {
  }

  /** The same for an Update PDR. */
  lemma {:induction false} PdrUpdateLeaves(pdrs: Pdrs, fars: Fars, seid: nat, u: UpdatePdr)
    requires u.pdrId in Ids(pdrs)
    ensures var (pdrs', fars', reply) := Handle(pdrs, fars, seid, ChangePdr(u));
            && reply == Accepted && fars' == fars && OnlyEntryOf(pdrs', pdrs, u.pdrId)
            && u.pdrId in Ids(pdrs') && PdrTakes(Found(pdrs', u.pdrId), Found(pdrs, u.pdrId), u)
  {
    hide Find, UpdatedPdr, PdrTakes;
    InIds(pdrs, u.pdrId);
    var pdrs' := Handle(pdrs, fars, seid, ChangePdr(u)).0;
    FoundAfter(pdrs', pdrs, u.pdrId);
    UpdatedPdrTakes(Found(pdrs, u.pdrId), u);
  }

  lemma {:induction false} UpdatedPdrTakes(p: PdrData, u: UpdatePdr)
    ensures PdrTakes(UpdatedPdr(p, u), p, u)
  {
  }

  // ---------------------------------------------------------------- until the next request for the same rule

  lemma {:induction false} ReplaceOther<T>(l: seq<Entry<T>>, id: int, v: T, k: int)
    requires id in Ids(l) && k in Ids(l) && k != id
    ensures Find(l, id) < |l|
    ensures var l' := l[Find(l, id) := Entry(id, v)]; k in Ids(l') && Found(l', k) == Found(l, k)
  {
    hide Find, Ids;
    InIds(l, id);
    InIds(l, k);
    var l', n := l[Find(l, id) := Entry(id, v)], Find(l, k);
    assert IdAt(l, Find(l, id), id) && IdAt(l, n, k);
    assert forall j :: 0 <= j < n ==> (IdAt(l', j, k) <==> IdAt(l, j, k));
    FindUnique(l', k, n);
  }

  lemma {:induction false} EraseOther<T>(l: seq<Entry<T>>, id: int, k: int)
    requires id in Ids(l) && k in Ids(l) && k != id
    ensures Find(l, id) < |l|
    ensures var l' := Erase(l, Find(l, id)); k in Ids(l') && Found(l', k) == Found(l, k)
  {
    hide Find, Ids;
    InIds(l, id);
    InIds(l, k);
    var i, n := Find(l, id), Find(l, k);
    var l', m := Erase(l, i), if n < i then n else n - 1;
    assert IdAt(l, i, id) && IdAt(l, n, k);
    assert forall j :: 0 <= j < |l'| ==> l'[j] == if j < i then l[j] else l[j + 1];
    assert forall j :: 0 <= j < m ==> IdAt(l', j, k) ==> IdAt(l, if j < i then j else j + 1, k);
    FindUnique(l', k, m);
  }

  lemma {:induction false} AppendOther<T>(l: seq<Entry<T>>, e: Entry<T>, k: int)
    requires k in Ids(l)
    ensures k in Ids(l + [e]) && Found(l + [e], k) == Found(l, k)
  {
    hide Find, Ids;
    InIds(l, k);
    var l', n := l + [e], Find(l, k);
    assert IdAt(l', n, k) && forall j :: 0 <= j < n ==> (IdAt(l', j, k) <==> IdAt(l, j, k));
    FindUnique(l', k, n);
  }

  /** The request updates or removes this FAR. */
  predicate TouchesFar(r: Request, id: u32) {
    match r
    case ChangeFar(u) => u.farId == id
    case DeleteFar(x) => x.present && x.value == id
    case _ => false
  }

  /** Every other request, accepted or not, leaves the FAR that is found as it is. */
  lemma {:induction false} FarStays(pdrs: Pdrs, fars: Fars, seid: nat, r: Request, id: u32)
    requires id in Ids(fars) && !TouchesFar(r, id)
    ensures var fars' := Handle(pdrs, fars, seid, r).1; id in Ids(fars') && Found(fars', id) == Found(fars, id)
  {
    hide Find, Ids, UpdatedFar, NewFar, UpdatedPdr, NewPdr;
    match r
    case AddFar(c) => AppendOther(fars, Entry(c.farId.value, NewFar(c)), id);
    case ChangeFar(u) =>
      InIds(fars, u.farId);
      if u.farId in Ids(fars) {
        ReplaceOther(fars, u.farId, UpdatedFar(fars[Find(fars, u.farId)].value, u), id);
      }
    case DeleteFar(x) =>
      InIds(fars, x.value);
      if x.value in Ids(fars) && x.present {
        EraseOther(fars, x.value, id);
      }
    case _ =>
  }

  /**
   A handover: over every run, from the m-th request, which updates a FAR with a new outer header, to the n-th, none of
   which touches that FAR, the session has exactly the new tunnel for it.
   */
  lemma {:induction false} HandoverHolds(seid: nat, rs: seq<Request>, m: nat, n: nat, u: UpdateFar)
    requires m < n <= |rs| && rs[m] == ChangeFar(u) && u.farId in Ids(After(seid, rs, m).1)
    requires u.forwarding.present && u.forwarding.value.creation.present
    requires forall k :: m < k < n ==> !TouchesFar(rs[k], u.farId)
    ensures var fars := After(seid, rs, n).1;
            u.farId in Ids(fars)
            && Found(fars, u.farId).forwarding.value.creation == Field(true, u.forwarding.value.creation.value)
  {
    hide Handle, Find, Ids, TouchesFar;
    var (pdrs, fars) := After(seid, rs, n - 1);
    if n == m + 1 {
      FarUpdateLeaves(pdrs, fars, seid, u);
    } else {
      HandoverHolds(seid, rs, m, n - 1, u);
      FarStays(pdrs, fars, seid, rs[n - 1], u.farId);
    }
  }

  // ---------------------------------------------------------------- creates

  /** Where the fields of a stored PDR come from. */
  lemma {:induction false} PdrCreateStores(pdrs: Pdrs, fars: Fars, seid: nat, c: CreatePdr)
    requires PdrComplete(c)
    ensures var (pdrs', fars', reply) := Handle(pdrs, fars, seid, AddPdr(c));
            && reply == Accepted && fars' == fars && |pdrs'| == |pdrs| + 1 && pdrs'[..|pdrs|] == pdrs
            && var (id, p) := (pdrs'[|pdrs|].id, pdrs'[|pdrs|].value);
               && id == c.pdrId.value && p.localSeid == seid
               && SameField(p.precedence, c.precedence) && p.pdi.present == c.pdi.present && p.pdi.value == c.pdi.value
               && SameField(p.outerHeaderRemoval, c.outerHeaderRemoval) && SameField(p.farId, c.farId)
               && SameField(p.urrId, c.urrId) && SameField(p.qerId, c.qerId) && SameField(p.predefined, c.predefined)
  {
    AcceptedIff(pdrs, fars, seid, AddPdr(c));
  }

  /** Where the fields of a stored FAR come from. */
  lemma {:induction false} FarCreateStores(pdrs: Pdrs, fars: Fars, seid: nat, c: CreateFar)
    requires FarComplete(c)
    ensures var (pdrs', fars', reply) := Handle(pdrs, fars, seid, AddFar(c));
            && reply == Accepted && pdrs' == pdrs && |fars'| == |fars| + 1 && fars'[..|fars|] == fars
            && var (id, f) := (fars'[|fars|].id, fars'[|fars|].value);
               && id == c.farId.value && f.action == c.action.value
               && f.forwarding.present == c.forwarding.present && f.forwarding.value == c.forwarding.value
               && f.duplicating.present == c.duplicating.present && f.duplicating.value == c.duplicating.value
               && SameField(f.barId, c.barId)
  {
    AcceptedIff(pdrs, fars, seid, AddFar(c));
  }

  // ---------------------------------------------------------------- rejections by number

  /** Causes 64, 66 and 73 of section 8.2.1 of TS 29.244, and the types of the offending elements. */
  lemma {:induction false} RejectionNumbers(pdrs: Pdrs, fars: Fars, seid: nat, c: CreatePdr, d: CreateFar, id: Field<u16>)
    ensures var p := Handle(pdrs, fars, seid, AddPdr(c)).2;
            var i := c.pdi.value;
            && (!c.pdrId.present ==> p == Rejected(66, Some(56)))
            && (c.pdrId.present && !c.pdi.present ==> p == Rejected(66, Some(2)))
            && (c.pdrId.present && c.pdi.present && !c.precedence.present ==> p == Rejected(66, Some(29)))
            && (c.pdrId.present && c.pdi.present && c.precedence.present ==>
                  && (!i.sourceInterface.present ==> p == Rejected(66, Some(20)))
                  && (i.sourceInterface.present && i.trafficEndpointId.present ==> p == Rejected(64, None))
                  && (i.sourceInterface.present && !i.trafficEndpointId.present ==>
                        && (i.sourceInterface.value == 0 && !i.localFteid.present ==> p == Rejected(66, Some(21)))
                        && (i.sourceInterface.value == 0 && i.localFteid.present ==> p == Accepted)
                        && (i.sourceInterface.value == 1 ==> p == Accepted)
                        && (i.sourceInterface.value > 1 ==> p == Rejected(64, None))))
    ensures var f := Handle(pdrs, fars, seid, AddFar(d)).2;
            && (!d.farId.present ==> f == Rejected(66, Some(108)))
            && (d.farId.present && !d.action.present ==> f == Rejected(66, Some(44)))
            && (d.farId.present && d.action.present && d.action.value.forw && !d.forwarding.present ==> f == Rejected(66, Some(4)))
            && (d.farId.present && d.action.present && (!d.action.value.forw || d.forwarding.present) ==>
                  (d.action.value.dupl && !d.duplicating.present <==> f == Rejected(66, Some(5))))
  {
  }

  /** Unknown identifiers are cause 73, missing ones 66. */
  lemma {:induction false} UnknownNumbers(pdrs: Pdrs, fars: Fars, seid: nat, u: UpdatePdr, v: UpdateFar, a: Field<u16>, b: Field<u32>)
    ensures u.pdrId !in Ids(pdrs) ==> Handle(pdrs, fars, seid, ChangePdr(u)) == (pdrs, fars, Rejected(73, None))
    ensures v.farId !in Ids(fars) ==> Handle(pdrs, fars, seid, ChangeFar(v)) == (pdrs, fars, Rejected(73, None))
    ensures Handle(pdrs, fars, seid, DeletePdr(a)).2
            == if !a.present then Rejected(66, Some(56)) else if a.value in Ids(pdrs) then Accepted else Rejected(73, None)
    ensures Handle(pdrs, fars, seid, DeleteFar(b)).2
            == if !b.present then Rejected(66, Some(108)) else if b.value in Ids(fars) then Accepted else Rejected(73, None)
  {
    hide Find, Ids;
    InIds(pdrs, u.pdrId);
    InIds(fars, v.farId);
    InIds(pdrs, a.value);
    InIds(fars, b.value);
  }
}
