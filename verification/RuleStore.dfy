/**
 The session object of `pfcp_session.cpp`: two vectors of shared rule objects, searched, extended, erased from,
 and updated through the pointers they hold.
 */
module RuleStore {
  import opened Wire
  import opened RuleList
  import opened Rules

  /** `pfcp_pdr`. */
  class Pdr {
    var localSeid: nat
    const pdrId: u16
    var precedence: Field<u32>
    var pdi: Group<Pdi>
    var outerHeaderRemoval: Field<byte>
    var farId: Field<u32>
    var urrId: Field<u32>
    var qerId: Field<u32>
    const predefined: Field<bytes>

    function Data(): PdrData
      reads this
    {
      PdrData(localSeid, precedence, pdi, outerHeaderRemoval, farId, urrId, qerId, predefined)
    }

    constructor (c: CreatePdr)
      ensures pdrId == c.pdrId.value && Data() == NewPdr(0, c)
    {
      localSeid, pdrId, precedence, pdi := 0, c.pdrId.value, c.precedence, c.pdi;
      outerHeaderRemoval, farId, urrId, qerId := c.outerHeaderRemoval, c.farId, c.urrId, c.qerId;
      predefined := c.predefined;
    }

    method SetSeid(seid: nat)
      modifies this
      ensures Data() == old(Data()).(localSeid := seid)
    {
      localSeid := seid;
    }

    method Update(u: UpdatePdr)
      modifies this
      ensures Data() == UpdatedPdr(old(Data()), u)
    {
      if u.outerHeaderRemoval.present {
        outerHeaderRemoval := Field(true, u.outerHeaderRemoval.value);
      }
      if u.precedence.present {
        precedence := Field(true, u.precedence.value);
      }
      if u.pdi.present {
        pdi := Group(true, u.pdi.value);
      }
      if u.farId.present {
        farId := Field(true, u.farId.value);
      }
      if u.urrId.present {
        urrId := Field(true, u.urrId.value);
      }
      if u.qerId.present {
        qerId := Field(true, u.qerId.value);
      }
    }
  }

  /** `pfcp_far`. */
  class Far {
    const farId: u32
    var action: Apply
    var forwarding: Group<Forwarding>
    var duplicating: Group<Duplicating>
    var barId: Field<byte>

    function Data(): FarData
      reads this
    {
      FarData(action, forwarding, duplicating, barId)
    }

    constructor (c: CreateFar)
      ensures farId == c.farId.value && Data() == NewFar(c)
    {
      farId, action := c.farId.value, c.action.value;
      forwarding, duplicating, barId := c.forwarding, c.duplicating, c.barId;
    }

    method Update(u: UpdateFar)
      modifies this
      ensures Data() == UpdatedFar(old(Data()), u)
    {
      if u.action.present {
        action := u.action.value;
      }
      if u.forwarding.present {
        forwarding := forwarding.(value := UpdatedForwarding(forwarding.value, u.forwarding.value));
      }
      if u.duplicating.present {
        duplicating := duplicating.(value := UpdatedDuplicating(duplicating.value, u.duplicating.value));
      }
      if u.barId.present {
        barId := Field(true, u.barId.value);
      }
    }
  }

  ghost function PdrsOf(ps: seq<Pdr>): (r: Pdrs)
    reads ps
    ensures |r| == |ps| && forall i :: 0 <= i < |ps| ==> r[i] == Entry(ps[i].pdrId as int, ps[i].Data())
  {
    seq(|ps|, i requires 0 <= i < |ps| reads ps => Entry(ps[i].pdrId as int, ps[i].Data()))
  }

  ghost function FarsOf(fs: seq<Far>): (r: Fars)
    reads fs
    ensures |r| == |fs| && forall i :: 0 <= i < |fs| ==> r[i] == Entry(fs[i].farId as int, fs[i].Data())
  {
    seq(|fs|, i requires 0 <= i < |fs| reads fs => Entry(fs[i].farId as int, fs[i].Data()))
  }

  class Session {
    const seid: nat
    var pdrs: seq<Pdr>
    var fars: seq<Far>

    /** No rule object is in a list twice. */
    ghost predicate Valid()
      reads this
    {
      && (forall i, j :: 0 <= i < j < |pdrs| ==> pdrs[i] != pdrs[j])
      && (forall i, j :: 0 <= i < j < |fars| ==> fars[i] != fars[j])
    }

    constructor (seid: nat)
      ensures Valid() && this.seid == seid && pdrs == [] && fars == []
    {
      this.seid, pdrs, fars := seid, [], [];
    }

    /** `get(pdr_id)`: the position of the rule found, the length where the code answers false. */
    method GetPdr(id: u16) returns (i: nat)
      ensures i == Find(PdrsOf(pdrs), id)
    {
      i := 0;
      while i < |pdrs| && pdrs[i].pdrId != id
        invariant i <= |pdrs| && forall j :: 0 <= j < i ==> !IdAt(PdrsOf(pdrs), j, id)
      {
        i := i + 1;
      }
      ghost var n := Find(PdrsOf(pdrs), id);
      assert n < |pdrs| ==> IdAt(PdrsOf(pdrs), n, id);
      assert i < |pdrs| ==> IdAt(PdrsOf(pdrs), i, id);
    }

    /** `get(far_id)`, likewise. */
    method GetFar(id: u32) returns (i: nat)
      ensures i == Find(FarsOf(fars), id)
    {
      i := 0;
      while i < |fars| && fars[i].farId != id
        invariant i <= |fars| && forall j :: 0 <= j < i ==> !IdAt(FarsOf(fars), j, id)
      {
        i := i + 1;
      }
      ghost var n := Find(FarsOf(fars), id);
      assert n < |fars| ==> IdAt(FarsOf(fars), n, id);
      assert i < |fars| ==> IdAt(FarsOf(fars), i, id);
    }

    method Create(c: CreatePdr) returns (reply: Reply)
      requires Valid()
      modifies this
      ensures Valid() && fars == old(fars)
      ensures (PdrsOf(pdrs), FarsOf(fars), reply) == Handle(old(PdrsOf(pdrs)), old(FarsOf(fars)), seid, AddPdr(c))
    {
      hide NewPdr;
      if !c.pdrId.present {
        return Missing(IE_PACKET_DETECTION_RULE_ID);
      }
      if !c.pdi.present {
        return Missing(IE_PDI);
      }
      if !c.precedence.present {
        return Missing(IE_PRECEDENCE);
      }
      var pdi := c.pdi.value;
      if !pdi.sourceInterface.present {
        return Missing(IE_SOURCE_INTERFACE);
      }
      if pdi.trafficEndpointId.present {
        return Rejected(REQUEST_REJECTED, None);
      }
      if pdi.sourceInterface.value == ACCESS {
        if !pdi.localFteid.present {
          return Missing(IE_F_TEID);
        }
        AddNew(c);
      } else if pdi.sourceInterface.value == CORE {
        AddNew(c);
      } else {
        return Rejected(REQUEST_REJECTED, None);
      }
      return Accepted;
    }

    method AddNew(c: CreatePdr)
      requires Valid()
      modifies this`pdrs
      ensures Valid()
      ensures PdrsOf(pdrs) == old(PdrsOf(pdrs)) + [Entry(c.pdrId.value as int, NewPdr(seid, c))]
    {
      var pdr := new Pdr(c);
      pdr.SetSeid(seid);
      pdrs := pdrs + [pdr];
    }

    /** The rule object is updated where it is: the list holds the same objects before and after. */
    method Update(u: UpdatePdr) returns (reply: Reply)
      requires Valid()
      modifies pdrs
      ensures (PdrsOf(pdrs), FarsOf(fars), reply) == Handle(old(PdrsOf(pdrs)), old(FarsOf(fars)), seid, ChangePdr(u))
    {
      hide UpdatedPdr;
      var i := GetPdr(u.pdrId);
      if i == |pdrs| {
        return UNKNOWN;
      }
      ghost var was, wasFars := PdrsOf(pdrs), FarsOf(fars);
      assert IdAt(was, i, u.pdrId);
      pdrs[i].Update(u);
      assert PdrsOf(pdrs) == was[i := Entry(u.pdrId, UpdatedPdr(was[i].value, u))];
      assert FarsOf(fars) == wasFars;
      return Accepted;
    }

    method Remove(id: Field<u16>) returns (reply: Reply)
      requires Valid()
      modifies this`pdrs
      ensures Valid()
      ensures (PdrsOf(pdrs), FarsOf(fars), reply) == Handle(old(PdrsOf(pdrs)), old(FarsOf(fars)), seid, DeletePdr(id))
    {
      if !id.present {
        return Missing(IE_PACKET_DETECTION_RULE_ID);
      }
      var i := GetPdr(id.value);
      if i == |pdrs| {
        return UNKNOWN;
      }
      ghost var was := PdrsOf(pdrs);
      pdrs := pdrs[..i] + pdrs[i + 1..];
      assert PdrsOf(pdrs) == Erase(was, i);
      return Accepted;
    }

    method CreateAction(c: CreateFar) returns (reply: Reply)
      requires Valid()
      modifies this`fars
      ensures Valid()
      ensures (PdrsOf(pdrs), FarsOf(fars), reply) == Handle(old(PdrsOf(pdrs)), old(FarsOf(fars)), seid, AddFar(c))
    {
      hide NewFar;
      if !c.farId.present {
        return Missing(IE_FAR_ID);
      }
      if !c.action.present {
        return Missing(IE_APPLY_ACTION);
      }
      if c.action.value.forw {
        if !c.forwarding.present {
          return Missing(IE_FORWARDING_PARAMETERS);
        }
      }
      if c.action.value.dupl {
        if !c.duplicating.present {
          return Missing(IE_DUPLICATING_PARAMETERS);
        }
      }
      var far := new Far(c);
      fars := fars + [far];
      assert FarsOf(fars) == old(FarsOf(fars)) + [Entry(c.farId.value as int, NewFar(c))];
      return Accepted;
    }

    method UpdateAction(u: UpdateFar) returns (reply: Reply)
      requires Valid()
      modifies fars
      ensures (PdrsOf(pdrs), FarsOf(fars), reply) == Handle(old(PdrsOf(pdrs)), old(FarsOf(fars)), seid, ChangeFar(u))
    {
      hide UpdatedFar;
      var i := GetFar(u.farId);
      if i == |fars| {
        return UNKNOWN;
      }
      ghost var was, wasPdrs := FarsOf(fars), PdrsOf(pdrs);
      assert IdAt(was, i, u.farId);
      fars[i].Update(u);
      assert FarsOf(fars) == was[i := Entry(u.farId, UpdatedFar(was[i].value, u))];
      assert PdrsOf(pdrs) == wasPdrs;
      return Accepted;
    }

    method RemoveAction(id: Field<u32>) returns (reply: Reply)
      requires Valid()
      modifies this`fars
      ensures Valid()
      ensures (PdrsOf(pdrs), FarsOf(fars), reply) == Handle(old(PdrsOf(pdrs)), old(FarsOf(fars)), seid, DeleteFar(id))
    {
      if !id.present {
        return Missing(IE_FAR_ID);
      }
      var i := GetFar(id.value);
      if i == |fars| {
        return UNKNOWN;
      }
      ghost var was := FarsOf(fars);
      fars := fars[..i] + fars[i + 1..];
      assert FarsOf(fars) == Erase(was, i);
      return Accepted;
    }
  }
}
