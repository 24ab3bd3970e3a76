/**
 Whole calls of `SessionProgramManager` and `SessionManager`: the maps they leave behind answer every
 packet as a plain table of sessions would, and exactly when not.
 */
module SessionTable {
  import opened Wire
  import opened Gtpu
  import opened Entry
  import opened Pipeline

  /** Which write of a call the environment makes fail: 0 setup, 1 index, 2 program array, 3 FAR, more: none. */
  type Fault = nat

  /** `createPipeline` without interruption: the state it leaves and whether it returned normally. */
  function CreateNow(s: State, call: Creation, fault: Fault): (r: (State, bool)) {
    var id := s.counter;
    var s0 := s.(counter := id + 1, born := s.born[id := call]);
    if fault == 0 || fault == 1 || IndexFull(s, call.key) then (s0, false)
    else
      var s1 := s0.(index := s.index[call.key := id]);
      if fault == 2 || id >= MAX_LENGTH then (s1, false)
      else
        var s2 := s1.(slots := s.slots[id := id]);
        if fault == 3 then (s2, false)
        else
          (s2.(fars := s.fars[id := call.far], sessions := s.sessions[call.seid := Session(call.key, id)]), true)
  }

  /** `removePipeline` without interruption. */
  function RemoveNow(s: State, seid: u32, fails: bool): (r: (State, bool)) {
    if seid !in s.sessions then (s, false)
    else
      var key := s.sessions[seid].key;
      var s0 := s.(sessions := s.sessions - {seid});
      if fails || key !in s.index then (s0, false) else (s0.(index := s.index - {key}), true)
  }

  /** What a packet with this key gets when nothing is written between its lookups. */
  function Dispatch(s: State, key: Key): Outcome {
    if key !in s.index || s.index[key] !in s.slots then Passed
    else
      var program := s.slots[s.index[key]];
      if program in s.fars then Ran(program, s.fars[program]) else Dropped
  }

  // ---------------------------------------------------------------- calls are runs of single writes

  function CreateEvents(call: Creation, fault: Fault): (r: seq<Event>)
    ensures |r| == 6
  {
    [Create(call), Control(fault == 0), Control(fault == 1), Control(fault == 2), Control(fault == 3), Control(false)]
  }

  lemma {:induction false} CreateIsARun(s: State, call: Creation, fault: Fault)
    requires s.pending.Idle?
    ensures Run(s, CreateEvents(call, fault), 6) == CreateNow(s, call, fault).0
  {
    hide Step, Write;
    var e := CreateEvents(call, fault);
    var s1 := Step(s, e[0]);
    var s2 := Step(s1, e[1]);
    var s3 := Step(s2, e[2]);
    var s4 := Step(s3, e[3]);
    var s5 := Step(s4, e[4]);
    assert Run(s, e, 1) == s1 && Run(s, e, 2) == s2 && Run(s, e, 3) == s3;
    assert Run(s, e, 4) == s4 && Run(s, e, 5) == s5 && Run(s, e, 6) == Step(s5, e[5]);
    CreateSteps(s, call, fault);
  }

  lemma {:induction false} CreateSteps(s: State, call: Creation, fault: Fault)
    requires s.pending.Idle?
    ensures Step(Step(Step(Step(Step(Step(s, Create(call)), Control(fault == 0)), Control(fault == 1)),
                                Control(fault == 2)), Control(fault == 3)), Control(false))
            == CreateNow(s, call, fault).0
  {
    FirstSteps(s, call, fault);
    var s3 := FirstThree(s, call, fault);
    SlotSteps(s3, fault);
    hide Step, Write, IndexFull;
  }

  /** The state before the program array is written. */
  function FirstThree(s: State, call: Creation, fault: Fault): State {
    var id := s.counter;
    var s0 := s.(counter := id + 1, born := s.born[id := call]);
    if fault == 0 || fault == 1 || IndexFull(s, call.key) then s0
    else s0.(index := s.index[call.key := id], pending := WriteSlot(call, id))
  }

  lemma {:induction false} FirstSteps(s: State, call: Creation, fault: Fault)
    requires s.pending.Idle?
    ensures Step(Step(Step(s, Create(call)), Control(fault == 0)), Control(fault == 1)) == FirstThree(s, call, fault)
  {
    var s1 := Step(s, Create(call));
    assert IndexFull(s1, call.key) == IndexFull(s, call.key);
    hide IndexFull;
    var s2 := Step(s1, Control(fault == 0));
    assert fault == 0 ==> s2 == s.(counter := s1.counter, born := s1.born);
  }

  /** The last three writes, or none of them. */
  lemma {:induction false} SlotSteps(s: State, fault: Fault)
    requires s.pending.Idle? || s.pending.WriteSlot?
    ensures Step(Step(Step(s, Control(fault == 2)), Control(fault == 3)), Control(false)) ==
            if s.pending.Idle? || fault == 2 || s.pending.id >= MAX_LENGTH then s.(pending := Idle)
            else
              var id, call := s.pending.id, s.pending.call;
              var s2 := s.(slots := s.slots[id := id], pending := Idle);
              if fault == 3 then s2
              else s2.(fars := s.fars[id := call.far], sessions := s.sessions[call.seid := Session(call.key, id)])
  {
    hide IndexFull;
    var s1 := Step(s, Control(fault == 2));
    assert s1.pending.Idle? || s1.pending.WriteFar?;
    var s2 := Step(s1, Control(fault == 3));
    assert s2.pending.Idle? || s2.pending.Register?;
  }

  lemma {:induction false} RemoveIsARun(s: State, seid: u32, fails: bool)
    requires s.pending.Idle?
    ensures Run(s, [Remove(seid), Control(fails)], 2) == RemoveNow(s, seid, fails).0
  {
    var e := [Remove(seid), Control(fails)];
    assert Run(s, e, 1) == Step(s, e[0]) && Run(s, e, 2) == Step(Run(s, e, 1), e[1]);
    if seid in s.sessions && s.sessions[seid].key !in s.index {
      assert s.index - {s.sessions[seid].key} == s.index;
    }
  }

  lemma {:induction false} DispatchIsThreeLookups(s: State, key: Key)
    ensures Advance(s, Advance(s, Advance(s, Packet(key, Arrived)))) == Packet(key, Done(Dispatch(s, key)))
  {
  }

  // ---------------------------------------------------------------- agreement with the table of sessions

  /** Nothing is going on, and no two sessions run the same program. */
  ghost predicate Quiet(s: State) {
    && s.pending.Idle? && Inv(s)
    && (forall a, b :: a in s.sessions && b in s.sessions && a != b ==> s.sessions[a].program != s.sessions[b].program)
  }

  /** The session has this key. */
  predicate Holds(s: State, seid: u32, key: Key) {
    seid in s.sessions && s.sessions[seid].key == key
  }

  /** The FAR a session was created with. */
  function FarOf(s: State, seid: u32): Far
    requires seid in s.sessions && s.sessions[seid].program in s.born
  {
    s.born[s.sessions[seid].program].far
  }

  /** Every session's key leads to its program and its FAR, and every other key to nothing. */
  ghost predicate Agrees(s: State)
    requires Inv(s)
  {
    && (forall seid <- s.sessions :: Answered(s, seid))
    && (forall key :: (forall seid :: !Holds(s, seid, key)) ==> Dispatch(s, key) == Passed)
  }

  ghost predicate Answered(s: State, seid: u32)
    requires Inv(s) && seid in s.sessions
  {
    Dispatch(s, s.sessions[seid].key) == Ran(s.sessions[seid].program, FarOf(s, seid))
  }

  /** Under agreement two sessions never share a key. */
  lemma {:induction false} KeysDiffer(s: State, a: u32, b: u32)
    requires Quiet(s) && Agrees(s) && a in s.sessions && b in s.sessions && s.sessions[a].key == s.sessions[b].key
    ensures a == b
  {
    hide Inv, Dispatch;
    assert Answered(s, a) && Answered(s, b);
  }

  lemma {:induction false} CreateKeepsQuiet(s: State, call: Creation, fault: Fault)
    requires Quiet(s)
    ensures Quiet(CreateNow(s, call, fault).0)
  {
    var s' := CreateNow(s, call, fault).0;
    CreateIsARun(s, call, fault);
    RunKeeps(s, CreateEvents(call, fault), 6);
    CounterIsNew(s);
    hide Run, Inv, IndexFull;
  }

  lemma {:induction false} RemoveKeepsQuiet(s: State, seid: u32, fails: bool)
    requires Quiet(s)
    ensures Quiet(RemoveNow(s, seid, fails).0)
  {
    RemoveIsARun(s, seid, fails);
    RunKeeps(s, [Remove(seid), Control(fails)], 2);
    hide Run;
  }

  lemma {:induction false} CreateChangesOwnKey(s: State, call: Creation, fault: Fault)
    requires s.counter !in s.slots && s.counter !in s.fars
    ensures var (s', ok) := CreateNow(s, call, fault);
            Dispatch(s', call.key) ==
            if ok then Ran(s.counter, call.far)
            else if fault == 0 || fault == 1 || IndexFull(s, call.key) then Dispatch(s, call.key)
            else if fault == 2 || s.counter >= MAX_LENGTH then Passed
            else Dropped
  {
    hide IndexFull;
  }

  lemma {:induction false} CreateKeepsOtherKeys(s: State, call: Creation, fault: Fault, key: Key)
    requires s.counter !in s.slots && s.counter !in s.fars && key != call.key
    requires key in s.index ==> s.index[key] != s.counter
    requires forall id <- s.slots :: s.slots[id] != s.counter
    ensures Dispatch(CreateNow(s, call, fault).0, key) == Dispatch(s, key)
  {
    hide IndexFull;
  }

  /** What a create changes for packets: nothing but the answer for its own key. */
  lemma {:induction false} CreateChangesOneKey(s: State, call: Creation, fault: Fault, key: Key)
    requires Quiet(s)
    ensures var (s', ok) := CreateNow(s, call, fault);
            if key != call.key then Dispatch(s', key) == Dispatch(s, key)
            else if ok then Dispatch(s', key) == Ran(s.counter, call.far)
            else if fault == 0 || fault == 1 || IndexFull(s, call.key) then Dispatch(s', key) == Dispatch(s, key)
            else if fault == 2 || s.counter >= MAX_LENGTH then Dispatch(s', key) == Passed
            else Dispatch(s', key) == Dropped
  {
    hide CreateNow, Dispatch, IndexFull;
    CounterIsNew(s);
    if key == call.key {
      CreateChangesOwnKey(s, call, fault);
    } else {
      if key in s.index {
        assert Serves(s.born, s.index[key], key);
      }
      CreateKeepsOtherKeys(s, call, fault, key);
    }
  }

  /** Which calls of `createPipeline` leave maps and table in agreement. */
  predicate CreateFits(s: State, call: Creation, fault: Fault) {
    var (s', ok) := CreateNow(s, call, fault);
    if ok then
      // a new key for a new session, or the same key for the same session
      && (forall other <- s.sessions :: other != call.seid ==> s.sessions[other].key != call.key)
      && (call.seid in s.sessions ==> s.sessions[call.seid].key == call.key)
    else if fault == 0 || fault == 1 || IndexFull(s, call.key) then true
    else if fault == 2 || s.counter >= MAX_LENGTH then forall other <- s.sessions :: s.sessions[other].key != call.key
    else false
  }

  lemma {:induction false} CreateKeepsAgreement(s: State, call: Creation, fault: Fault)
    requires Quiet(s) && Agrees(s) && CreateFits(s, call, fault)
    ensures Inv(CreateNow(s, call, fault).0) && Agrees(CreateNow(s, call, fault).0)
  {
    hide Dispatch, Inv, IndexFull;
    CreateKeepsQuiet(s, call, fault);
    var (s', ok) := CreateNow(s, call, fault);
    CounterIsNew(s);
    forall seid | seid in s'.sessions ensures Answered(s', seid) {
      CreateChangesOneKey(s, call, fault, s'.sessions[seid].key);
      if !(ok && seid == call.seid) {
        assert Answered(s, seid);
        KeyInUse(s, seid);
      }
    }
    forall key | forall seid :: !Holds(s', seid, key) ensures Dispatch(s', key) == Passed {
      CreateChangesOneKey(s, call, fault, key);
      assert ok ==> Holds(s', call.seid, call.key);
      forall seid ensures !Holds(s, seid, key) {
        assert !Holds(s', seid, key);
      }
    }
  }

  lemma {:induction false} CounterIsNew(s: State)
    requires Inv(s)
    ensures s.counter !in s.born && forall seid <- s.sessions :: s.sessions[seid].program in s.born
  {
    forall seid | seid in s.sessions ensures s.sessions[seid].program in s.born {
      assert Serves(s.born, s.sessions[seid].program, s.sessions[seid].key);
    }
  }

  lemma {:induction false} KeyInUse(s: State, seid: u32)
    requires Quiet(s) && Agrees(s) && seid in s.sessions
    ensures s.sessions[seid].key in s.index && s.sessions[seid].program < s.counter
  {
    assert Answered(s, seid);
  }

  lemma {:induction false} AgreementNeedsFit(s: State, call: Creation, fault: Fault)
    requires Quiet(s) && Agrees(s) && !CreateFits(s, call, fault)
    ensures Inv(CreateNow(s, call, fault).0) && !Agrees(CreateNow(s, call, fault).0)
  {
    hide Dispatch, Inv, IndexFull;
    CreateKeepsQuiet(s, call, fault);
    var (s', ok) := CreateNow(s, call, fault);
    CounterIsNew(s);
    CreateChangesOneKey(s, call, fault, call.key);
    if other :| other in s.sessions && s.sessions[other].key == call.key && (!ok || other != call.seid) {
      KeyInUse(s, other);
      assert other in s'.sessions && !Answered(s', other);
    } else if ok {
      // the session is there already, under another key: the old key still leads to its old program
      var old' := s.sessions[call.seid].key;
      assert Answered(s, call.seid);
      CreateChangesOneKey(s, call, fault, old');
      forall seid ensures !Holds(s', seid, old') {
        if Holds(s, seid, old') {
          KeysDiffer(s, seid, call.seid);
        }
      }
    } else {
      // the program is reachable but has no FAR
      forall seid ensures !Holds(s', seid, call.key) {
      }
    }
  }

  /** Exactly which calls of `createPipeline` keep the agreement, whether they return or throw. */
  lemma {:induction false} CreateKeepsAgreementIff(s: State, call: Creation, fault: Fault)
    requires Quiet(s) && Agrees(s)
    ensures var (s', ok) := CreateNow(s, call, fault);
            && Quiet(s') && (ok <==> fault >= 4 && (call.key in s.index || |s.index| < 10) && s.counter < 10)
            && (Agrees(s') <==> CreateFits(s, call, fault))
  {
    hide Agrees, CreateFits, Quiet;
    CreateKeepsQuiet(s, call, fault);
    if CreateFits(s, call, fault) {
      CreateKeepsAgreement(s, call, fault);
    } else {
      AgreementNeedsFit(s, call, fault);
    }
  }

  /** What a removal changes for packets: the answer for the session's key becomes a miss. */
  lemma {:induction false} RemoveChangesOneKey(s: State, seid: u32, fails: bool, key: Key)
    requires Inv(s)
    ensures var s' := RemoveNow(s, seid, fails).0;
            Dispatch(s', key) == if Holds(s, seid, key) && !fails then Passed else Dispatch(s, key)
  {
  }

  lemma {:induction false} RemoveKeepsAgreement(s: State, seid: u32)
    requires Quiet(s) && Agrees(s) && seid in s.sessions
    ensures Inv(RemoveNow(s, seid, false).0) && Agrees(RemoveNow(s, seid, false).0)
  {
    hide Inv, Dispatch;
    RemoveKeepsQuiet(s, seid, false);
    var s' := RemoveNow(s, seid, false).0;
    forall other | other in s'.sessions ensures Answered(s', other) {
      RemoveChangesOneKey(s, seid, false, s.sessions[other].key);
      if s.sessions[other].key == s.sessions[seid].key {
        KeysDiffer(s, other, seid);
      }
      assert Answered(s, other);
    }
    forall key | forall other :: !Holds(s', other, key) ensures Dispatch(s', key) == Passed {
      RemoveChangesOneKey(s, seid, false, key);
      if !Holds(s, seid, key) {
        forall other ensures !Holds(s, other, key) {
          assert !Holds(s', other, key);
        }
      }
    }
  }

  lemma {:induction false} FailedEraseBreaks(s: State, seid: u32)
    requires Quiet(s) && Agrees(s) && seid in s.sessions
    ensures Inv(RemoveNow(s, seid, true).0) && !Agrees(RemoveNow(s, seid, true).0)
  {
    hide Inv, Dispatch;
    RemoveKeepsQuiet(s, seid, true);
    var s' := RemoveNow(s, seid, true).0;
    var gone := s.sessions[seid].key;
    RemoveChangesOneKey(s, seid, true, gone);
    assert Answered(s, seid);
    forall other ensures !Holds(s', other, gone) {
      if other in s.sessions && s.sessions[other].key == gone {
        KeysDiffer(s, other, seid);
      }
    }
  }

  /** Removing a session keeps the agreement unless the environment fails the erasure, and changes no other key's answer. */
  lemma {:induction false} RemoveKeepsAgreementIff(s: State, seid: u32, fails: bool)
    requires Quiet(s) && Agrees(s)
    ensures var (s', ok) := RemoveNow(s, seid, fails);
            && Quiet(s') && (ok <==> seid in s.sessions && !fails)
            && (Agrees(s') <==> !(seid in s.sessions && fails))
            && (forall key :: !Holds(s, seid, key) ==> Dispatch(s', key) == Dispatch(s, key))
  {
    RemoveKeepsQuiet(s, seid, fails);
    forall key ensures !Holds(s, seid, key) ==> Dispatch(RemoveNow(s, seid, fails).0, key) == Dispatch(s, key) {
      RemoveChangesOneKey(s, seid, fails, key);
    }
    if seid in s.sessions {
      KeyInUse(s, seid);
      hide Agrees, Quiet, Dispatch, Inv;
      if fails {
        FailedEraseBreaks(s, seid);
      } else {
        RemoveKeepsAgreement(s, seid);
      }
    }
  }
}
