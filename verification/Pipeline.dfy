/**
 The two-level index from packet keys to forwarding programs: `SessionProgramManager.cpp` writes it one map
 at a time while the entry program reads it one map at a time. Every interleaving is a run of the events below.
 */
module Pipeline {
  import opened Wire
  import opened Gtpu
  import opened Entry

  /** `max_entries` of the hash map `m_next_rule_prog_index` and of the program array `m_next_rule_prog`. */
  const MAX_LENGTH: nat := 10

  /** One call of `createPipeline`, with the low 32 bits of the session identifier. */
  datatype Creation = Creation(seid: u32, key: Key, far: Far)

  /** `SessionPrograms`: what is remembered of a deployed session. A program is named by its identifier. */
  datatype Session = Session(key: Key, program: nat)

  /** Where the control plane stands in its current call: the next thing it does. */
  datatype Pending =
    | Idle
    | Setup(call: Creation, id: nat)
    | WriteIndex(call: Creation, id: nat)
    | WriteSlot(call: Creation, id: nat)
    | WriteFar(call: Creation, id: nat)
    | Register(call: Creation, id: nat)
    | EraseIndex(key: Key)

  /** Where a packet stands: every lookup is a step of its own. */
  datatype Stage = Arrived | TailCall(id: nat) | Running(program: nat) | Done(outcome: Outcome)

  datatype Outcome = Passed | Dropped | Ran(program: nat, far: Far)

  datatype Packet = Packet(key: Key, stage: Stage)

  /** `born` records which call each forwarding program was created by; nothing reads it. */
  datatype State = State(
    counter: nat,
    index: map<Key, nat>,
    slots: map<nat, nat>,
    fars: map<nat, Far>,
    sessions: map<u32, Session>,
    pending: Pending,
    packets: seq<Packet>,
    born: map<nat, Creation>
  )

  datatype Event =
    | OtherProgram                        // some other BPFProgram object takes the next identifier
    | Create(call: Creation)              // a call of createPipeline begins
    | Remove(seid: u32)                   // a call of removePipeline begins
    | Control(fails: bool)                // the current call does its next step, which may fail and throw
    | Arrive(key: Key)                    // a packet reaches the entry program
    | Proceed(packet: nat)                // a packet does its next lookup

  /** What happens at one event; an event that is not possible changes nothing. */
  function Step(s: State, e: Event): State {
    match e
    case OtherProgram => s.(counter := s.counter + 1)
    case Create(call) =>
      if s.pending.Idle? then
        s.(counter := s.counter + 1, pending := Setup(call, s.counter), born := s.born[s.counter := call])
      else s
    case Remove(seid) =>
      if s.pending.Idle? && seid in s.sessions then
        s.(sessions := s.sessions - {seid}, pending := EraseIndex(s.sessions[seid].key))
      else s
    case Control(fails) => Write(s, fails)
    case Arrive(key) => s.(packets := s.packets + [Packet(key, Arrived)])
    case Proceed(i) =>
      if i < |s.packets| then s.(packets := s.packets[i := Advance(s, s.packets[i])]) else s
  }

  /** The next write of the current call. A failing write throws: the rest of the call does not happen. */
  function Write(s: State, fails: bool): State {
    match s.pending
    case Idle => s
    case Setup(call, id) => s.(pending := if fails then Idle else WriteIndex(call, id))
    case WriteIndex(call, id) =>
      if fails || IndexFull(s, call.key) then s.(pending := Idle)
      else s.(index := s.index[call.key := id], pending := WriteSlot(call, id))
    case WriteSlot(call, id) =>
      if fails || id >= MAX_LENGTH then s.(pending := Idle)
      else s.(slots := s.slots[id := id], pending := WriteFar(call, id))
    case WriteFar(call, id) =>
      if fails then s.(pending := Idle)
      else s.(fars := s.fars[id := call.far], pending := Register(call, id))
    case Register(call, id) => s.(sessions := s.sessions[call.seid := Session(call.key, id)], pending := Idle)
    case EraseIndex(key) => s.(index := if fails then s.index else s.index - {key}, pending := Idle)
  }

  predicate IndexFull(s: State, key: Key) {
    key !in s.index && |s.index| >= MAX_LENGTH
  }

  /** One lookup of `tail_call_next_prog`, or the one of `far_entry_point`. */
  function Advance(s: State, p: Packet): Packet {
    match p.stage
    case Arrived => p.(stage := if p.key in s.index then TailCall(s.index[p.key]) else Done(Passed))
    case TailCall(id) => p.(stage := if id in s.slots then Running(s.slots[id]) else Done(Passed))
    case Running(program) =>
      p.(stage := Done(if program in s.fars then Ran(program, s.fars[program]) else Dropped))
    case Done(_) => p
  }

  function Run(s: State, events: seq<Event>, n: nat): State
    requires n <= |events|
  {
    if n == 0 then s else Step(Run(s, events, n - 1), events[n - 1])
  }

  /** The maps when the program starts; other BPF programs may have taken identifiers already. */
  function Start(counter: nat): State {
    State(counter, map[], map[], map[], map[], Idle, [], map[])
  }

  // ---------------------------------------------------------------- safety of every run

  type Births = map<nat, Creation>

  /** Program id was created for key. */
  predicate Serves(born: Births, id: nat, key: Key) {
    id in born && born[id].key == key
  }

  predicate PacketSafe(born: Births, p: Packet) {
    match p.stage
    case Arrived => true
    case TailCall(id) => Serves(born, id, p.key)
    case Running(program) => Serves(born, program, p.key)
    case Done(Ran(program, far)) => Serves(born, program, p.key) && far == born[program].far
    case Done(_) => true
  }

  ghost predicate PacketsSafe(born: Births, packets: seq<Packet>) {
    forall i :: 0 <= i < |packets| ==> PacketSafe(born, packets[i])
  }

  ghost predicate IndexSafe(born: Births, index: map<Key, nat>) {
    forall key <- index :: Serves(born, index[key], key)
  }

  ghost predicate FarsSafe(born: Births, fars: map<nat, Far>) {
    forall id <- fars :: id in born && fars[id] == born[id].far
  }

  ghost predicate SessionsSafe(born: Births, sessions: map<u32, Session>) {
    forall seid <- sessions :: Serves(born, sessions[seid].program, sessions[seid].key)
  }

  predicate PendingSafe(born: Births, pending: Pending) {
    pending.Idle? || pending.EraseIndex? || (pending.id in born && born[pending.id] == pending.call)
  }

  ghost predicate SlotsSafe(born: Births, slots: map<nat, nat>) {
    forall id <- slots :: slots[id] == id && id in born
  }

  /** Every entry of the maps, the table of sessions and the call in progress go back to one creation. */
  ghost predicate MapsSafe(s: State) {
    && IndexSafe(s.born, s.index) && SlotsSafe(s.born, s.slots) && FarsSafe(s.born, s.fars)
    && SessionsSafe(s.born, s.sessions) && PendingSafe(s.born, s.pending)
  }

  /** What every step keeps. */
  ghost predicate Inv(s: State) {
    && (forall id <- s.born :: id < s.counter)
    && MapsSafe(s)
    && PacketsSafe(s.born, s.packets)
  }

  lemma {:induction false} AdvanceKeeps(s: State, p: Packet)
    requires MapsSafe(s) && PacketSafe(s.born, p)
    ensures PacketSafe(s.born, Advance(s, p)) && Advance(s, p).key == p.key
  {
  }

  /** Each of the five writes keeps the map it writes to safe. */
  lemma {:induction false} EntryKeeps(s: State, call: Creation, id: nat)
    requires MapsSafe(s) && id in s.born && s.born[id] == call
    ensures IndexSafe(s.born, s.index[call.key := id]) && FarsSafe(s.born, s.fars[id := call.far])
    ensures SessionsSafe(s.born, s.sessions[call.seid := Session(call.key, id)]) && SlotsSafe(s.born, s.slots[id := id])
  {
  }

  lemma {:induction false} WriteKeeps(s: State, fails: bool)
    requires MapsSafe(s)
    ensures MapsSafe(Write(s, fails))
  {
    if !s.pending.Idle? && !s.pending.EraseIndex? {
      EntryKeeps(s, s.pending.call, s.pending.id);
      hide IndexSafe, FarsSafe, SessionsSafe, SlotsSafe, Serves;
    }
  }

  lemma {:induction false} WriteFrame(s: State, fails: bool)
    ensures Write(s, fails).born == s.born && Write(s, fails).packets == s.packets && Write(s, fails).counter == s.counter
  {
  }

  lemma {:induction false} CreateKeeps(s: State, call: Creation)
    requires Inv(s)
    ensures Inv(Step(s, Create(call)))
  {
    if s.pending.Idle? {
      assert s.counter !in s.born;
      var born := s.born[s.counter := call];
      assert forall id, key :: Serves(s.born, id, key) ==> Serves(born, id, key);
      forall i | 0 <= i < |s.packets| ensures PacketSafe(born, s.packets[i]) {
        assert PacketSafe(s.born, s.packets[i]);
      }
    }
  }

  lemma {:induction false} StepKeeps(s: State, e: Event)
    requires Inv(s)
    ensures Inv(Step(s, e))
  {
    hide Write, Advance, PacketSafe;
    match e
    case Control(fails) =>
      WriteKeeps(s, fails);
      WriteFrame(s, fails);
    case Proceed(i) =>
      if i < |s.packets| {
        AdvanceKeeps(s, s.packets[i]);
      }
    case Create(call) => CreateKeeps(s, call);
    case Arrive(key) => ArrivedIsSafe(s.born, key);
    case _ =>
  }

  lemma {:induction false} ArrivedIsSafe(born: Births, key: Key)
    ensures PacketSafe(born, Packet(key, Arrived))
  {
  }

  lemma {:induction false} RunKeeps(s: State, events: seq<Event>, n: nat)
    requires Inv(s) && n <= |events|
    ensures Inv(Run(s, events, n))
  {
    if n > 0 {
      RunKeeps(s, events, n - 1);
      StepKeeps(Run(s, events, n - 1), events[n - 1]);
    }
  }

  /** Every program is born at a call of the run, at the step where its identifier was the counter. */
  lemma {:induction false} BornAtACall(counter: nat, events: seq<Event>, n: nat, id: nat)
    requires n <= |events| && id in Run(Start(counter), events, n).born
    ensures exists j :: 0 <= j < n && events[j] == Create(Run(Start(counter), events, n).born[id])
                        && Run(Start(counter), events, j).counter == id
  {
    hide Write, Advance;
    if n > 0 {
      var s := Run(Start(counter), events, n - 1);
      if events[n - 1].Control? {
        WriteFrame(s, events[n - 1].fails);
      }
      if id in s.born && Step(s, events[n - 1]).born[id] == s.born[id] {
        BornAtACall(counter, events, n - 1, id);
      }
    }
  }

  /**
   Over every run: a packet whose key is k and that ran a forwarding program ran one that some earlier call
   created for that very key, and with the FAR of that very call.
   */
  lemma {:induction false} DispatchIsSafe(counter: nat, events: seq<Event>, i: nat)
    requires i < |Run(Start(counter), events, |events|).packets|
    ensures var p := Run(Start(counter), events, |events|).packets[i];
            p.stage.Done? && p.stage.outcome.Ran? ==>
              exists j :: 0 <= j < |events| && events[j].Create?
                          && events[j].call.key == p.key && events[j].call.far == p.stage.outcome.far
                          && Run(Start(counter), events, j).counter == p.stage.outcome.program
  {
    hide Step, Run;
    var s := Run(Start(counter), events, |events|);
    RunKeeps(Start(counter), events, |events|);
    var p := s.packets[i];
    assert PacketSafe(s.born, p);
    if p.stage.Done? && p.stage.outcome.Ran? {
      BornAtACall(counter, events, |events|, p.stage.outcome.program);
    }
  }
}
