/**
 `SessionProgramManager` and `SessionManager` as objects, and runs of their calls.
 */
module SessionManager {
  import opened Wire
  import opened Gtpu
  import opened Entry
  import opened Pipeline
  import opened SessionTable

  class ProgramManager {
    var counter: nat                    // BPFProgram::sIdCounter
    var index: map<Key, nat>            // m_next_rule_prog_index
    var slots: map<nat, nat>            // m_next_rule_prog
    var fars: map<nat, Far>             // the m_far map of each forwarding program
    var sessions: map<u32, Session>     // mSessionProgramsMap
    ghost var born: map<nat, Creation>

    ghost function View(): State
      reads this
    {
      State(counter, index, slots, fars, sessions, Idle, [], born)
    }

    constructor (counter: nat)
      ensures View() == Start(counter)
    {
      this.counter, index, slots, fars, sessions, born := counter, map[], map[], map[], map[], map[];
    }

    /** `BPFMap::update` on the hash map: a new key does not fit a full map. */
    method UpdateIndex(key: Key, id: nat, fails: bool) returns (ok: bool)
      modifies this`index
      ensures ok <==> !fails && (key in old(index) || |old(index)| < 10)
      ensures index == if ok then old(index)[key := id] else old(index)
    {
      if fails || (key !in index && |index| >= MAX_LENGTH) {
        return false;
      }
      index := index[key := id];
      return true;
    }

    /** `BPFMap::update` on the program array: there is no slot beyond its size. */
    method UpdateSlot(id: nat, fd: nat, fails: bool) returns (ok: bool)
      modifies this`slots
      ensures ok <==> !fails && id < MAX_LENGTH
      ensures slots == if ok then old(slots)[id := fd] else old(slots)
    {
      if fails || id >= MAX_LENGTH {
        return false;
      }
      slots := slots[id := fd];
      return true;
    }

    /** `createPipeline`: false stands for an exception. */
    method CreatePipeline(seid: u32, key: Key, far: Far, fault: Fault) returns (ok: bool)
      modifies this
      ensures (View(), ok) == CreateNow(old(View()), Creation(seid, key, far), fault)
    {
      var id := counter;
      counter := counter + 1;
      born := born[id := Creation(seid, key, far)];
      if fault == 0 {
        return false;
      }
      var stored := UpdateIndex(key, id, fault == 1);
      if !stored {
        return false;
      }
      stored := UpdateSlot(id, id, fault == 2);
      if !stored {
        return false;
      }
      if fault == 3 {
        return false;
      }
      fars := fars[id := far];
      sessions := sessions[seid := Session(key, id)];
      return true;
    }

    /** `removePipeline`. */
    method RemovePipeline(seid: u32, fails: bool) returns (ok: bool)
      modifies this
      ensures (View(), ok) == RemoveNow(old(View()), seid, fails)
    {
      if seid !in sessions {
        return false;
      }
      var key := sessions[seid].key;
      sessions := sessions - {seid};
      if fails || key !in index {
        return false;
      }
      index := index - {key};
      return true;
    }
  }

  /** The low 32 bits of a session identifier. */
  function Low(seid: nat): u32 {
    seid % 0x1_0000_0000
  }

  /** The maps and sessions, and the keys of `mSeidToSession`: whole identifiers, never erased. */
  datatype Served = Served(s: State, known: set<nat>)

  /** A call of `createBPFSession` or `removeBPFSession`, or another BPF program taking the next identifier. */
  datatype Op = Other | Make(seid: nat, key: Key, far: Far, fault: Fault) | Take(seid: nat, fails: bool)

  function CallOf(op: Op): Creation
    requires op.Make?
  {
    Creation(Low(op.seid), op.key, op.far)
  }

  /** A whole call: the identifier is cut to 32 bits on the way, but checked whole before a removal. */
  function Perform(v: Served, op: Op): (r: (Served, bool)) {
    match op
    case Other => (v.(s := v.s.(counter := v.s.counter + 1)), true)
    case Make(seid, _, _, fault) =>
      var (s', ok) := CreateNow(v.s, CallOf(op), fault);
      (Served(s', if ok then v.known + {seid} else v.known), ok)
    case Take(seid, fails) =>
      if seid !in v.known then (v, false)
      else
        var (s', ok) := RemoveNow(v.s, Low(seid), fails);
        (v.(s := s'), ok)
  }

  class Manager {
    const programs: ProgramManager
    var known: set<nat>

    ghost function View(): Served
      reads this, programs
    {
      Served(programs.View(), known)
    }

    constructor (programs: ProgramManager)
      ensures this.programs == programs && known == {}
    {
      this.programs, known := programs, {};
    }

    /** The end of `createBPFSession`. */
    method CreateBpfSession(seid: nat, key: Key, far: Far, fault: Fault) returns (ok: bool)
      modifies this, programs
      ensures (View(), ok) == Perform(old(View()), Make(seid, key, far, fault))
    {
      hide CreateNow, Low;
      ok := programs.CreatePipeline(Low(seid), key, far, fault);
      if ok {
        known := known + {seid};
      }
    }

    /** `removeBPFSession`. */
    method RemoveBpfSession(seid: nat, fails: bool) returns (ok: bool)
      modifies programs
      ensures (View(), ok) == Perform(old(View()), Take(seid, fails))
    {
      hide RemoveNow, Low;
      if seid !in known {
        return false;
      }
      ok := programs.RemovePipeline(Low(seid), fails);
    }
  }
}
