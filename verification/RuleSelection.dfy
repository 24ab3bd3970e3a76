/**
 Which rule of a session is deployed: `createBPFSession` sorts the PDRs by precedence and takes the first;
 the list of `Session.cpp` is kept sorted.
 */
module RuleSelection {
  import opened Wire
  import opened RuleList
  import opened Rules
  import RuleStore
  import SessionManager
  import Pipeline
  import SessionTable
  import Gtpu
  import Entry
  import FrameOctets

  /** `comparePDR` looks only at the precedence; the lowest value goes first. */
  ghost predicate Sorted(ps: Pdrs) {
    forall i, j :: 0 <= i < j < |ps| ==> ps[i].value.precedence.value <= ps[j].value.precedence.value
  }

  /** The arguments of `createPipeline`. */
  datatype Deployment = NoPdr | NoFields | Deployed(key: Entry.Key, far: Gtpu.Far)

  /** The rule in the form of the forwarding program: values are copied whether their flags are set or not. */
  function KernelFar(f: FarData): Gtpu.Far {
    var p := f.forwarding.value;
    var c := p.creation.value;
    Gtpu.Far(f.action.forw, p.destination.value, c.description, LE(4, c.teid), Address(c.ipv4), c.port)
  }

  function Address(b: bytes): Gtpu.Quad {
    if |b| == 4 then b else [0, 0, 0, 0]
  }

  /** What `createBPFSession` does once the PDRs are sorted. */
  function Deploy(ps: Pdrs, fars: Fars): Deployment {
    if ps == [] then NoPdr
    else
      var p := ps[0].value;
      var d := p.pdi.value;
      if !(p.pdi.present && d.localFteid.present && d.sourceInterface.present && d.ueIpAddress.present) then NoFields
      else if !p.farId.present || Find(fars, p.farId.value) == |fars| then NoFields
      else
        Deployed(Entry.Key(LE(4, d.localFteid.value), d.sourceInterface.value, Address(d.ueIpAddress.value)),
                 KernelFar(fars[Find(fars, p.farId.value)].value))
  }

  ghost predicate SameElements(a: Pdrs, b: Pdrs) {
    forall e :: e in a <==> e in b
  }

  /** p is a PDR of the session with the lowest precedence value there. */
  predicate Lowest(ps: Pdrs, k: nat) {
    k < |ps| && forall j :: 0 <= j < |ps| ==> ps[k].value.precedence.value <= ps[j].value.precedence.value
  }

  /** The PDR has what a key is made of, and names a FAR of the session. */
  predicate Deployable(p: PdrData, fars: Fars) {
    var d := p.pdi.value;
    && p.pdi.present && d.localFteid.present && d.sourceInterface.present && d.ueIpAddress.present
    && p.farId.present && p.farId.value in Ids(fars)
  }

  /** The octets of a number in the memory of a little-endian host. */
  predicate InMemory(d: bytes, v: u32) {
    d == [v % 0x100, v / 0x100 % 0x100, v / 0x1_0000 % 0x100, v / 0x100_0000]
  }

  /** The key is that of the PDR. */
  predicate KeyOf(p: PdrData, key: Entry.Key) {
    var d := p.pdi.value;
    && InMemory(key.teid, d.localFteid.value) && key.source == d.sourceInterface.value
    && (|d.ueIpAddress.value| == 4 ==> key.ipv4 == d.ueIpAddress.value)
  }

  /** The far of the forwarding program has the fields of the rule. */
  predicate Carries(far: Gtpu.Far, f: FarData) {
    var p := f.forwarding.value;
    var c := p.creation.value;
    && (far.forw <==> f.action.forw) && far.destination == p.destination.value && far.creation == c.description
    && InMemory(far.teid, c.teid) && (|c.ipv4| == 4 ==> far.ipv4 == c.ipv4) && far.port == c.port
  }

  /** The deployment has this PDR's key and the fields of the FAR its FAR identifier names. */
  predicate Names(p: PdrData, fars: Fars, key: Entry.Key, far: Gtpu.Far) {
    Deployable(p, fars) && KeyOf(p, key) && Carries(far, Found(fars, p.farId.value))
  }

  lemma {:induction false} MemoryOctets(v: u32)
    ensures InMemory(LE(4, v), v)
  {
    FourLE(v);
    assert v / 0x100 / 0x100 == v / 0x1_0000 && v / 0x1_0000 / 0x100 == v / 0x100_0000;
  }

  lemma {:induction false} KernelFarCarries(f: FarData)
    ensures Carries(KernelFar(f), f)
  {
    hide LE;
    MemoryOctets(f.forwarding.value.creation.value.teid);
  }

  /** What is deployed of a list whose first PDR is p: its key and its FAR if and only if it has both. */
  lemma {:induction false} HeadIsDeployedIff(ps: Pdrs, fars: Fars)
    ensures Deploy(ps, fars).NoPdr? <==> ps == []
    ensures Deploy(ps, fars).Deployed? <==> ps != [] && Deployable(ps[0].value, fars)
    ensures Deploy(ps, fars).Deployed? ==> Names(ps[0].value, fars, Deploy(ps, fars).key, Deploy(ps, fars).far)
  {
    hide Find, LE, KernelFar, Carries;
    if ps != [] {
      var p := ps[0].value;
      MemoryOctets(p.pdi.value.localFteid.value);
      InIds(fars, p.farId.value);
      if p.farId.value in Ids(fars) {
        KernelFarCarries(Found(fars, p.farId.value));
      }
    }
  }

  /**
   Whatever order the sort leaves equal precedences in, the deployed key is that of a rule of lowest precedence value, and
   the deployed far has the fields of the FAR it names; a session without PDRs deploys nothing.
   */
  lemma {:induction false} LowestIsDeployed(ps: Pdrs, sorted: Pdrs, fars: Fars)
    requires Sorted(sorted) && SameElements(sorted, ps)
    ensures Deploy(sorted, fars).NoPdr? <==> ps == []
    ensures Deploy(sorted, fars).Deployed? ==>
              exists k: nat :: Lowest(ps, k) && Names(ps[k].value, fars, Deploy(sorted, fars).key, Deploy(sorted, fars).far)
  {
    hide Deploy, Names;
    HeadIsDeployedIff(sorted, fars);
    if sorted != [] {
      assert sorted[0] in ps;
    }
    if ps != [] {
      assert ps[0] in sorted;
      var p := sorted[0];
      assert p in sorted;
      var k :| 0 <= k < |ps| && ps[k] == p;
      forall j | 0 <= j < |ps| ensures p.value.precedence.value <= ps[j].value.precedence.value {
        assert ps[j] in sorted;
      }
      assert Lowest(ps, k);
      if Deploy(sorted, fars).Deployed? {
        assert Names(ps[k].value, fars, Deploy(sorted, fars).key, Deploy(sorted, fars).far);
      }
    }
  }

  /** With a single PDR of lowest precedence value the outcome does not depend on the sort. */
  lemma {:induction false} DeployedIsDetermined(ps: Pdrs, sorted: Pdrs, fars: Fars, k: nat)
    requires Sorted(sorted) && SameElements(sorted, ps)
    requires Lowest(ps, k) && forall j :: 0 <= j < |ps| && ps[j].value.precedence.value == ps[k].value.precedence.value ==> ps[j] == ps[k]
    ensures Deploy(sorted, fars) == Deploy([ps[k]], fars)
  {
    hide Deploy;
    assert ps[k] in sorted;
    assert sorted[0] in ps;
    DeployOfHead(sorted, fars);
  }

  lemma {:induction false} DeployOfHead(ps: Pdrs, fars: Fars)
    requires ps != []
    ensures Deploy(ps, fars) == Deploy([ps[0]], fars)
  {
  }

  /**
   What a rule asks for is what its packets get: a frame encapsulated for the deployed form of a rule carries the
   rule's address, port and, as its octets in memory, TEID, whether the flags of those fields are set or not.
   */
  lemma {:induction false} DeployedTunnel(f: FarData, frame: bytes, mac: Gtpu.Mac)
    requires |frame| >= 34 && |f.forwarding.value.creation.value.ipv4| == 4
    ensures var c, e := f.forwarding.value.creation.value, Gtpu.Encapsulated(frame, KernelFar(f), mac);
            && e[30..34] == c.ipv4 && FromBE(e[36..38]) == c.port && e[46..50] == LE(4, c.teid)
            && (Entry.Classify(e) == Entry.Lookup(Entry.Key(LE(4, c.teid), Gtpu.ACCESS, [10, 1, 3, 30])) <==>
                FromBE(frame[12..14]) == Entry.ETH_P_IP && c.port == Gtpu.GTP_UDP_PORT && frame[14] / 16 == 4)
  {
    hide FromBE, LE, BE, Gtpu.Encapsulated, Entry.Classify;
    Entry.Layout(frame, KernelFar(f), mac);
    Entry.EncapsulatedIsLookedUpIff(frame, KernelFar(f), mac);
    Entry.PortReadsBack(f.forwarding.value.creation.value.port);
  }

  /** The outer headers of a frame that is sent through a tunnel; everything behind them is the frame that came. */
  predicate Tunnelled(e: bytes, frame: bytes, c: HeaderCreation, mac: Gtpu.Mac)
    requires |frame| >= 34
  {
    && |e| == |frame| + 36 && e[..14] == mac + frame[6..14] && e[14..16] == [0x45, 0]
    && e[22..24] == [64, 17] && e[26..34] == [10, 1, 3, 30] + c.ipv4
    && e[34..38] == [0x08, 0x68, c.port / 0x100, c.port % 0x100]
    && e[42..46] == [0x30, 0xff] + frame[16..18] && InMemory(e[46..50], c.teid)
    && e[50..] == frame[14..]
  }

  lemma {:induction false} EncapsulatedIsTunnelled(far: Gtpu.Far, f: FarData, frame: bytes, mac: Gtpu.Mac)
    requires Carries(far, f) && |frame| >= 34 && |f.forwarding.value.creation.value.ipv4| == 4
    ensures Tunnelled(Gtpu.Encapsulated(frame, far, mac), frame, f.forwarding.value.creation.value, mac)
  {
    hide Gtpu.Encapsulated, InMemory;
    FrameOctets.EncapsulatedOctets(frame, far, mac);
    var e := Gtpu.Encapsulated(frame, far, mac);
    assert e[14..16] == e[14..24][..2] && e[22..24] == e[14..24][8..10] && e[34..38] == e[34..42][..4];
    assert e[42..46] == e[42..50][..4] && e[46..50] == e[42..50][4..] == far.teid;
    assert frame[16..18] == [frame[16], frame[17]];
  }

  /**
   From rule to packet. A frame that reaches the program deployed for a rule, with head room in front of it, is sent
   to the downlink port through the rule's tunnel, to the uplink port out of the tunnel it came through, or passed as
   it is, as action, destination and description of the rule say.
   */
  lemma {:induction false} DeployedRuleActs(ps: Pdrs, fars: Fars, frame: bytes, room: bytes, arp: map<Gtpu.Quad, Gtpu.Mac>)
    requires Deploy(ps, fars).Deployed? && |frame| >= 34 && |room| == 36
    ensures ps != [] && ps[0].value.farId.value in Ids(fars)
    ensures var f := Found(fars, ps[0].value.farId.value);
            var p, c := f.forwarding.value, f.forwarding.value.creation.value;
            var (action, e) := Gtpu.Applied(Gtpu.Some(Deploy(ps, fars).far), frame, room + frame, arp);
            if f.action.forw && p.destination.value == 0 && c.description == 0x0100 then
              action == Gtpu.Redirect(0) && (|c.ipv4| == 4 && c.ipv4 in arp ==> Tunnelled(e, frame, c, arp[c.ipv4]))
            else if f.action.forw && p.destination.value == 1 && c.description == 0x0400 then
              if |frame| >= 70 && frame[66..70] in arp then
                action == Gtpu.Redirect(1) && e == arp[frame[66..70]] + frame[6..14] + frame[50..]
              else action == Gtpu.Action.Drop
            else action == Gtpu.Pass && e == frame
  {
    hide Deploy, Gtpu.Encapsulated, Gtpu.Downlink, Tunnelled, InMemory;
    HeadIsDeployedIff(ps, fars);
    var f := Found(fars, ps[0].value.farId.value);
    var far := Deploy(ps, fars).far;
    var c := f.forwarding.value.creation.value;
    if |c.ipv4| == 4 && c.ipv4 in arp {
      Gtpu.DownlinkEncapsulates(room, frame, far, arp);
      EncapsulatedIsTunnelled(far, f, frame, arp[c.ipv4]);
    }
  }

  // ---------------------------------------------------------------- createBPFSession

  ghost predicate Ordered(ps: seq<RuleStore.Pdr>)
    reads ps
  {
    forall i, j :: 0 <= i < j < |ps| ==> ps[i].precedence.value <= ps[j].precedence.value
  }

  /** `std::sort`: of its result only this contract is used, the order of equal elements is open. */
  method Sort(ps: seq<RuleStore.Pdr>) returns (r: seq<RuleStore.Pdr>)
    ensures multiset(r) == multiset(ps) && Ordered(r)
  {
    r := [];
    for n := 0 to |ps|
      invariant multiset(r) == multiset(ps[..n]) && Ordered(r)
    {
      r := Insert(r, ps[n]);
      assert ps[..n + 1] == ps[..n] + [ps[n]];
    }
    assert ps[..|ps|] == ps;
  }

  method Insert(ps: seq<RuleStore.Pdr>, p: RuleStore.Pdr) returns (r: seq<RuleStore.Pdr>)
    requires Ordered(ps)
    ensures multiset(r) == multiset(ps) + multiset{p} && Ordered(r)
  {
    var k := 0;
    while k < |ps| && ps[k].precedence.value < p.precedence.value
      invariant 0 <= k <= |ps| && forall j :: 0 <= j < k ==> ps[j].precedence.value <= p.precedence.value
    {
      k := k + 1;
    }
    r := ps[..k] + [p] + ps[k..];
    InsertOrdered(ps, p, k);
    assert ps == ps[..k] + ps[k..];
  }

  lemma {:induction false} InsertOrdered(ps: seq<RuleStore.Pdr>, p: RuleStore.Pdr, k: nat)
    requires Ordered(ps) && k <= |ps|
    requires forall j :: 0 <= j < k ==> ps[j].precedence.value <= p.precedence.value
    requires k < |ps| ==> p.precedence.value <= ps[k].precedence.value
    ensures Ordered(ps[..k] + [p] + ps[k..])
  {
    var r := ps[..k] + [p] + ps[k..];
    forall i, j | 0 <= i < j < |r| ensures r[i].precedence.value <= r[j].precedence.value {
      assert r[i] == if i < k then ps[i] else if i == k then p else ps[i - 1];
      assert r[j] == if j < k then ps[j] else if j == k then p else ps[j - 1];
    }
  }

  lemma {:induction false} SameObjects(a: seq<RuleStore.Pdr>, b: seq<RuleStore.Pdr>)
    requires multiset(a) == multiset(b)
    ensures (forall i, j :: 0 <= i < j < |a| ==> a[i] != a[j]) ==> (forall i, j :: 0 <= i < j < |b| ==> b[i] != b[j])
  {
    if i, j :| 0 <= i < j < |b| && b[i] == b[j] {
      assert b == b[..i] + [b[i]] + b[i + 1..j] + [b[j]] + b[j + 1..];
      assert multiset(b)[b[i]] >= 2;
      if forall i, j :: 0 <= i < j < |a| ==> a[i] != a[j] {
        AtMostOnce(a, b[i]);
      }
    }
  }

  lemma {:induction false} AtMostOnce(a: seq<RuleStore.Pdr>, p: RuleStore.Pdr)
    requires forall i, j :: 0 <= i < j < |a| ==> a[i] != a[j]
    ensures multiset(a)[p] <= 1
  {
    if a != [] {
      var n := |a| - 1;
      AtMostOnce(a[..n], p);
      assert a == a[..n] + [a[n]];
      if a[n] == p {
        assert p !in a[..n];
      }
    }
  }

  lemma {:induction false} SortedEntries(a: seq<RuleStore.Pdr>, b: seq<RuleStore.Pdr>)
    requires multiset(a) == multiset(b) && Ordered(b)
    ensures SameElements(RuleStore.PdrsOf(b), RuleStore.PdrsOf(a)) && Sorted(RuleStore.PdrsOf(b))
  {
    InOther(a, b);
    InOther(b, a);
  }

  lemma {:induction false} InOther(a: seq<RuleStore.Pdr>, b: seq<RuleStore.Pdr>)
    requires multiset(a) == multiset(b)
    ensures forall e :: e in RuleStore.PdrsOf(a) ==> e in RuleStore.PdrsOf(b)
  {
    forall i | 0 <= i < |a| ensures RuleStore.PdrsOf(a)[i] in RuleStore.PdrsOf(b) {
      assert a[i] in multiset(b);
      var j :| 0 <= j < |b| && b[j] == a[i];
      assert RuleStore.PdrsOf(b)[j] == RuleStore.PdrsOf(a)[i];
    }
  }

  /**
   `createBPFSession`: the vector of the session is left sorted; what is deployed is what `Deploy` says of it, and
   nothing is deployed where the code throws. Every session that requests can reach meets the precondition.
   */
  method CreateBpfSession(session: RuleStore.Session, manager: SessionManager.Manager, fault: nat) returns (ok: bool)
    requires session.Valid() && AllUsable(RuleStore.PdrsOf(session.pdrs))
    modifies session`pdrs, manager, manager.programs
    ensures session.Valid() && multiset(session.pdrs) == old(multiset(session.pdrs)) && Ordered(session.pdrs)
    ensures SameElements(RuleStore.PdrsOf(session.pdrs), old(RuleStore.PdrsOf(session.pdrs)))
    ensures var d := Deploy(RuleStore.PdrsOf(session.pdrs), RuleStore.FarsOf(session.fars));
            if d.Deployed? then
              (manager.programs.View(), ok)
              == SessionTable.CreateNow(old(manager.programs.View()),
                                        Pipeline.Creation(SessionManager.Low(session.seid), d.key, d.far), fault)
            else !ok && manager.programs.View() == old(manager.programs.View())
  {
    hide Find, LE, SessionTable.CreateNow, Deploy;
    ghost var was := session.pdrs;
    var sorted := Sort(session.pdrs);
    SameObjects(was, sorted);
    SortedEntries(was, sorted);
    session.pdrs := sorted;
    ok := DeployFirst(session, manager, fault);
  }

  /** The rest of `createBPFSession`. */
  method DeployFirst(session: RuleStore.Session, manager: SessionManager.Manager, fault: nat) returns (ok: bool)
    modifies manager, manager.programs
    ensures var d := Deploy(RuleStore.PdrsOf(session.pdrs), RuleStore.FarsOf(session.fars));
            if d.Deployed? then
              (manager.programs.View(), ok)
              == SessionTable.CreateNow(old(manager.programs.View()),
                                        Pipeline.Creation(SessionManager.Low(session.seid), d.key, d.far), fault)
            else !ok && manager.programs.View() == old(manager.programs.View())
  {
    hide Find, LE, SessionTable.CreateNow, KernelFar, Address;
    if session.pdrs == [] {
      return false;
    }
    var p := session.pdrs[0];
    var d := p.pdi.value;
    if !(p.pdi.present && d.localFteid.present && d.sourceInterface.present && d.ueIpAddress.present) {
      return false;
    }
    if !p.farId.present {
      return false;
    }
    var i := session.GetFar(p.farId.value);
    if i == |session.fars| {
      return false;
    }
    var key := Entry.Key(LE(4, d.localFteid.value), d.sourceInterface.value, Address(d.ueIpAddress.value));
    ok := manager.CreateBpfSession(session.seid, key, KernelFar(session.fars[i].Data()), fault);
  }
}
