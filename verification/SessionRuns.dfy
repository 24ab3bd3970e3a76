/**
 Runs of whole calls with 64-bit session identifiers, as `SessionManager` makes them.
 */
module SessionRuns {
  import opened Wire
  import opened Gtpu
  import opened Entry
  import opened Pipeline
  import opened SessionTable
  import opened SessionManager

  function After(counter: nat, ops: seq<Op>, n: nat): Served
    requires n <= |ops|
  {
    if n == 0 then Served(Start(counter), {}) else Perform(After(counter, ops, n - 1), ops[n - 1]).0
  }

  /** Live sessions by their whole identifiers. */
  type Sessions = map<nat, Creation>

  /** The plain table: a create that returned enters its call, a remove that returned takes its session out. */
  function Table(counter: nat, ops: seq<Op>, n: nat): Sessions
    requires n <= |ops|
  {
    if n == 0 then map[]
    else
      var ok := Perform(After(counter, ops, n - 1), ops[n - 1]).1;
      Enter(Table(counter, ops, n - 1), ops[n - 1], ok)
  }

  function Enter(table: Sessions, op: Op, ok: bool): Sessions {
    if !ok || op.Other? then table
    else if op.Make? then table[op.seid := CallOf(op)]
    else table - {op.seid}
  }

  /** No live session has the low half of this identifier. */
  predicate LowIsFree(table: Sessions, seid: nat) {
    forall other <- table :: Low(other) != Low(seid)
  }

  /** A remove of this identifier hits nothing but the session named: it is unknown, live, or shares no low half. */
  predicate Hits(known: set<nat>, table: Sessions, seid: nat) {
    seid !in known || seid in table || LowIsFree(table, seid)
  }

  /** Fresh low half and fresh key on create; writes to `m_far` and erasures succeed; removes hit what they name. */
  predicate Fresh(v: Served, table: Sessions, op: Op) {
    match op
    case Other => true
    case Make(seid, key, _, fault) =>
      LowIsFree(table, seid) && (forall other <- table :: table[other].key != key) && fault != 3
    case Take(seid, fails) => Hits(v.known, table, seid) && !fails
  }

  /** Each of the first n calls is fresh at its time. */
  predicate AllFresh(counter: nat, ops: seq<Op>, n: nat)
    requires n <= |ops|
  {
    n == 0 ||
    (AllFresh(counter, ops, n - 1) && Fresh(After(counter, ops, n - 1), Table(counter, ops, n - 1), ops[n - 1]))
  }

  /** The maps answer for the table: the FAR registered under a key, and a miss for every other key. */
  ghost predicate Answers(s: State, table: Sessions) {
    && (forall seid <- table ::
          Dispatch(s, table[seid].key).Ran? && Dispatch(s, table[seid].key).far == table[seid].far)
    && (forall key :: (forall seid <- table :: table[seid].key != key) ==> Dispatch(s, key) == Passed)
  }

  /** The 32-bit session of a live identifier is its own. */
  predicate Mine(s: State, table: Sessions, seid: nat)
    requires seid in table
  {
    && Low(seid) in s.sessions
    && s.sessions[Low(seid)].key == table[seid].key && s.sessions[Low(seid)].program in s.born
    && s.born[s.sessions[Low(seid)].program] == table[seid]
  }

  ghost predicate Mines(s: State, table: Sessions) {
    forall seid <- table :: Mine(s, table, seid)
  }

  /** Some live identifier has this low half. */
  ghost predicate Owned(table: Sessions, low: u32) {
    exists seid :: seid in table && Low(seid) == low
  }

  ghost predicate AllOwned(sessions: map<u32, Session>, table: Sessions) {
    forall low <- sessions :: Owned(table, low)
  }

  ghost predicate OneToALow(table: Sessions) {
    forall a, b :: a in table && b in table && a != b ==> Low(a) != Low(b)
  }

  /** The sessions of the manager are the live ones, one to a low half. */
  ghost predicate Registered(v: Served, table: Sessions) {
    Mines(v.s, table) && AllOwned(v.s.sessions, table) && OneToALow(table) && table.Keys <= v.known
  }

  /** What fresh calls keep. */
  ghost predicate Good(v: Served, table: Sessions) {
    Quiet(v.s) && Agrees(v.s) && Registered(v, table)
  }

  lemma {:induction false} RegisteredAnswers(v: Served, table: Sessions)
    requires Good(v, table)
    ensures Answers(v.s, table)
  {
    hide Dispatch, Inv, Low, OneToALow;
    var s := v.s;
    forall seid | seid in table
      ensures Dispatch(s, table[seid].key).Ran? && Dispatch(s, table[seid].key).far == table[seid].far
    {
      assert Mine(s, table, seid);
      assert Answered(s, Low(seid));
    }
    forall key | forall seid <- table :: table[seid].key != key ensures Dispatch(s, key) == Passed {
      forall low | low in s.sessions ensures s.sessions[low].key != key {
        assert Owned(table, low);
        var seid :| seid in table && Low(seid) == low;
        assert Mine(s, table, seid);
      }
      assert forall low :: !Holds(s, low, key);
    }
  }

  lemma {:induction false} CountedOn(s: State)
    requires Quiet(s) && Agrees(s)
    ensures var s' := s.(counter := s.counter + 1); Quiet(s') && Agrees(s')
  {
    var s' := s.(counter := s.counter + 1);
    assert Inv(s');
    assert forall key :: Dispatch(s', key) == Dispatch(s, key);
    hide Inv, Dispatch;
    forall seid | seid in s'.sessions ensures Answered(s', seid) {
      assert Answered(s, seid);
    }
    forall key | forall seid :: !Holds(s', seid, key) ensures Dispatch(s', key) == Passed {
      forall seid ensures !Holds(s, seid, key) {
        assert !Holds(s', seid, key);
      }
    }
  }

  lemma {:induction false} MakeFits(v: Served, table: Sessions, op: Op)
    requires Good(v, table) && op.Make? && Fresh(v, table, op)
    ensures CreateFits(v.s, CallOf(op), op.fault)
  {
    hide Inv, Agrees, IndexFull, Low, OneToALow;
    forall low | low in v.s.sessions ensures v.s.sessions[low].key != op.key && low != Low(op.seid) {
      assert Owned(table, low);
      var seid :| seid in table && Low(seid) == low;
      assert Mine(v.s, table, seid);
    }
  }

  lemma {:induction false} MakeRegisters(v: Served, table: Sessions, op: Op)
    requires v.s.counter !in v.s.born && Registered(v, table) && op.Make? && LowIsFree(table, op.seid)
    ensures var (v', ok) := Perform(v, op); Registered(v', Enter(table, op, ok))
  {
    hide IndexFull, Low, AllOwned, Owned;
    var (v', ok) := Perform(v, op);
    var table' := Enter(table, op, ok);
    forall seid | seid in table' ensures Mine(v'.s, table', seid) {
      if seid in table {
        assert Mine(v.s, table, seid);
      }
    }
    if ok {
      MakeOwned(v.s.sessions, table, op, Session(op.key, v.s.counter));
    }
  }

  lemma {:induction false} MakeOwned(sessions: map<u32, Session>, table: Sessions, op: Op, session: Session)
    requires AllOwned(sessions, table) && op.Make?
    ensures AllOwned(sessions[Low(op.seid) := session], table[op.seid := CallOf(op)])
  {
    hide Low;
    var table' := table[op.seid := CallOf(op)];
    assert op.seid in table';
    assert Owned(table', Low(op.seid));
    forall low | low in sessions ensures Owned(table', low) {
      assert Owned(table, low);
      var seid :| seid in table && Low(seid) == low;
      assert seid in table';
    }
  }

  lemma {:induction false} TakeOwned(sessions: map<u32, Session>, table: Sessions, seid: nat)
    requires AllOwned(sessions, table)
    ensures AllOwned(sessions - {Low(seid)}, table - {seid})
  {
    hide Low;
    forall low | low in sessions && low != Low(seid) ensures Owned(table - {seid}, low) {
      assert Owned(table, low);
      var other :| other in table && Low(other) == low;
      assert other in table - {seid};
    }
  }

  /** When a remove hits what it names, the session with that low half is the one named, or there is none. */
  lemma {:induction false} HitIsMine(v: Served, table: Sessions, seid: nat)
    requires Good(v, table) && Hits(v.known, table, seid) && seid in v.known && Low(seid) in v.s.sessions
    ensures seid in table && LowIsFree(table - {seid}, seid) && v.s.sessions[Low(seid)].key in v.s.index
  {
    hide Inv, Low, Agrees;
    KeyInUse(v.s, Low(seid));
    assert Owned(table, Low(seid));
    var owner :| owner in table && Low(owner) == Low(seid);
    assert seid in table;
    forall other | other in table - {seid} ensures Low(other) != Low(seid) {
      assert other in table && other != seid;
    }
  }

  /** Removing the live session named, or one whose low half is free, leaves the others as they are. */
  lemma {:induction false} TakeRegisters(v: Served, table: Sessions, seid: nat)
    requires Good(v, table) && Hits(v.known, table, seid)
    ensures var (v', ok) := Perform(v, Take(seid, false));
            Registered(v', Enter(table, Take(seid, false), ok))
  {
    hide Inv, Low, Agrees, AllOwned, Hits;
    if seid in v.known && Low(seid) in v.s.sessions {
      HitIsMine(v, table, seid);
      TakeOwned(v.s.sessions, table, seid);
      var (v', ok) := Perform(v, Take(seid, false));
      var table' := table - {seid};
      forall other | other in table' ensures Mine(v'.s, table', other) {
        assert Mine(v.s, table, other) && Low(other) != Low(seid);
      }
    }
  }

  lemma {:induction false} StepKeepsGood(v: Served, table: Sessions, op: Op)
    requires Good(v, table) && Fresh(v, table, op)
    ensures var (v', ok) := Perform(v, op); Good(v', Enter(table, op, ok))
  {
    CounterIsNew(v.s);
    match op
    case Other =>
      CountedOn(v.s);
      hide Inv, Agrees, Quiet, Low;
      forall seid | seid in table ensures Mine(Perform(v, op).0.s, table, seid) {
        assert Mine(v.s, table, seid);
      }
    case Make(_, _, _, fault) =>
      MakeFits(v, table, op);
      MakeRegisters(v, table, op);
      hide Inv, Agrees, Registered, Quiet, CreateNow, CreateFits, Low;
      CreateKeepsAgreementIff(v.s, CallOf(op), fault);
    case Take(seid, _) =>
      TakeRegisters(v, table, seid);
      hide Inv, Agrees, Registered, Quiet, RemoveNow, Low;
      RemoveKeepsAgreementIff(v.s, Low(seid), false);
  }

  lemma {:induction false} StartIsGood(counter: nat)
    ensures Good(Served(Start(counter), {}), map[])
  {
  }

  lemma {:induction false} RunIsGood(counter: nat, ops: seq<Op>, n: nat)
    requires n <= |ops| && AllFresh(counter, ops, n)
    ensures Good(After(counter, ops, n), Table(counter, ops, n))
  {
    if n == 0 {
      StartIsGood(counter);
    } else {
      hide Good, Perform, Enter, Fresh;
      RunIsGood(counter, ops, n - 1);
      StepKeepsGood(After(counter, ops, n - 1), Table(counter, ops, n - 1), ops[n - 1]);
    }
  }

  /**
   The two-level index refines the table of 64-bit sessions: after every run of creates whose low half and key are
   unused and of removes that hit what they name, creates that throw on a full index or program array included, the
   maps answer for the table.
   */
  lemma {:induction false} IndexRefinesTable(counter: nat, ops: seq<Op>, n: nat)
    requires n <= |ops| && AllFresh(counter, ops, n)
    ensures Answers(After(counter, ops, n).s, Table(counter, ops, n))
  {
    hide Good, Answers, AllFresh, After, Table;
    RunIsGood(counter, ops, n);
    RegisteredAnswers(After(counter, ops, n), Table(counter, ops, n));
  }

  // ---------------------------------------------------------------- which session a remove takes out

  /** Two identifiers are the same to the pipeline if and only if they differ by a multiple of 2^32. */
  lemma {:induction false} SameLowIff(a: nat, b: nat)
    ensures Low(a) == Low(b) <==> (a - b) % 0x1_0000_0000 == 0
  {
    var q, r := a / 0x1_0000_0000 - b / 0x1_0000_0000, a % 0x1_0000_0000 - b % 0x1_0000_0000;
    assert a - b == 0x1_0000_0000 * q + r;
    if r >= 0 {
      ModUnique(a - b, 0x1_0000_0000, q, r);
    } else {
      ModUnique(a - b, 0x1_0000_0000, q - 1, r + 0x1_0000_0000);
    }
  }

  /**
   In such a state: after a remove the maps answer for the table without the session named if and only if the
   identifier is unknown, or live itself, or no live session has its low half.
   */
  lemma {:induction false} RemoveHitsIff(v: Served, table: Sessions, seid: nat)
    requires Good(v, table)
    ensures var (v', ok) := Perform(v, Take(seid, false));
            Answers(v'.s, Enter(table, Take(seid, false), ok)) <==> Hits(v.known, table, seid)
  {
    hide Low, Perform, Enter, Good, Answers, Registered;
    var (v', ok) := Perform(v, Take(seid, false));
    if Hits(v.known, table, seid) {
      StepKeepsGood(v, table, Take(seid, false));
      RegisteredAnswers(v', Enter(table, Take(seid, false), ok));
    } else {
      var other :| other in table && Low(other) == Low(seid);
      WrongSessionIsHit(v, table, seid, other);
    }
  }

  /** Otherwise the remove returns normally and takes out another session, which stays in the table. */
  lemma {:induction false} WrongSessionIsHit(v: Served, table: Sessions, seid: nat, other: nat)
    requires Good(v, table) && seid in v.known && seid !in table && other in table && Low(other) == Low(seid)
    ensures var (v', ok) := Perform(v, Take(seid, false));
            && ok && Enter(table, Take(seid, false), ok) == table
            && Dispatch(v'.s, table[other].key) == Passed && !Answers(v'.s, table)
  {
    hide Inv, Dispatch, Low, Agrees;
    assert Mine(v.s, table, other);
    KeyInUse(v.s, Low(other));
    RemoveChangesOneKey(v.s, Low(seid), false, table[other].key);
    assert table - {seid} == table;
  }

  /** The maps with one session in them, created as program id. */
  function OneSession(id: nat, key: Key, far: Far, slots: map<nat, nat>, fars: map<nat, Far>, born: map<nat, Creation>): State {
    State(id + 1, map[key := id], slots[id := id], fars[id := far], map[1 := Session(key, id)], Idle, [],
          born[id := Creation(1, key, far)])
  }

  lemma {:induction false} CreateInEmpty(s: State, key: Key, far: Far)
    requires s.index == map[] && s.sessions == map[] && s.pending.Idle? && s.packets == [] && s.counter < MAX_LENGTH
    ensures CreateNow(s, Creation(1, key, far), 4) == (OneSession(s.counter, key, far, s.slots, s.fars, s.born), true)
  {
  }

  lemma {:induction false} RemoveOnly(s: State, key: Key, id: nat)
    requires s.index == map[key := id] && s.sessions == map[1 := Session(key, id)]
    ensures RemoveNow(s, 1, false) == (s.(index := map[], sessions := map[]), true)
  {
    assert s.index - {key} == map[] && s.sessions - {1} == map[];
  }

  const SECOND: nat := 0x1_0000_0001

  function StaleRun(key: Key, far: Far, key2: Key, far2: Far): seq<Op> {
    [Make(1, key, far, 4), Take(1, false), Make(SECOND, key2, far2, 4), Take(1, false)]
  }

  /** Creating 1, removing it, creating 1 + 2^32 and removing 1 again takes the second session out, not the first. */
  lemma {:induction false} StaleRemove(key: Key, far: Far, key2: Key, far2: Far)
    ensures var ops := StaleRun(key, far, key2, far2);
            && AllFresh(1, ops, 3) && Perform(After(1, ops, 3), ops[3]).1
            && Table(1, ops, 4) == map[SECOND := Creation(1, key2, far2)]
            && Dispatch(After(1, ops, 4).s, key2) == Passed
  {
    hide CreateNow, RemoveNow;
    var ops := StaleRun(key, far, key2, far2);
    assert Low(1) == 1 && Low(SECOND) == 1;
    hide Low;
    assert {} + {1} == {1} && {1} + {SECOND} == {1, SECOND};
    var s0 := Start(1);
    var s1 := OneSession(1, key, far, map[], map[], map[]);
    CreateInEmpty(s0, key, far);
    assert Perform(Served(s0, {}), ops[0]) == (Served(s1, {1}), true);
    RemoveOnly(s1, key, 1);
    var s2 := s1.(index := map[], sessions := map[]);
    assert Perform(Served(s1, {1}), ops[1]) == (Served(s2, {1}), true);
    CreateInEmpty(s2, key2, far2);
    var s3 := OneSession(2, key2, far2, s2.slots, s2.fars, s2.born);
    assert Perform(Served(s2, {1}), ops[2]) == (Served(s3, {1, SECOND}), true);
    RemoveOnly(s3, key2, 2);
    assert Perform(Served(s3, {1, SECOND}), ops[3]) == (Served(s3.(index := map[], sessions := map[]), {1, SECOND}), true);
    hide Perform, OneSession;
    assert After(1, ops, 0) == Served(s0, {}) && After(1, ops, 1) == Served(s1, {1});
    assert After(1, ops, 2) == Served(s2, {1}) && After(1, ops, 3) == Served(s3, {1, SECOND});
    assert Table(1, ops, 1) == map[1 := Creation(1, key, far)];
    assert Table(1, ops, 2) == map[1 := Creation(1, key, far)] - {1} == map[];
    assert Table(1, ops, 3) == map[SECOND := Creation(1, key2, far2)];
    assert Table(1, ops, 4) == map[SECOND := Creation(1, key2, far2)] - {1};
    assert After(1, ops, 4) == Served(s3.(index := map[], sessions := map[]), {1, SECOND});
    assert Fresh(After(1, ops, 0), Table(1, ops, 0), ops[0]);
    assert Fresh(After(1, ops, 1), Table(1, ops, 1), ops[1]);
    assert Fresh(After(1, ops, 2), Table(1, ops, 2), ops[2]);
    hide Fresh, After, Table;
    assert AllFresh(1, ops, 1);
    assert AllFresh(1, ops, 2);
  }

  // ---------------------------------------------------------------- the program array is used up

  /** How many creates returned normally. */
  function Successes(counter: nat, ops: seq<Op>, n: nat): nat
    requires n <= |ops|
  {
    if n == 0 then 0
    else Successes(counter, ops, n - 1) + Succeeds(After(counter, ops, n - 1), ops[n - 1])
  }

  function Succeeds(v: Served, op: Op): nat {
    if op.Make? && Perform(v, op).1 then 1 else 0
  }

  lemma {:induction false} CreateCounts(v: Served, op: Op)
    ensures v.s.counter <= Perform(v, op).0.s.counter
    ensures Succeeds(v, op) <= 1
    ensures Succeeds(v, op) == 1 ==> Perform(v, op).0.s.counter == v.s.counter + 1 <= MAX_LENGTH
  {
    hide IndexFull;
  }

  /** k creates have succeeded since the counter stood at `counter`; now it stands at `now`. */
  predicate Spent(counter: nat, k: nat, now: nat) {
    counter <= now && k <= now - counter && k <= if counter < MAX_LENGTH then MAX_LENGTH - counter else 0
  }

  lemma {:induction false} SpentStep(counter: nat, v: Served, op: Op, k: nat)
    requires Spent(counter, k, v.s.counter)
    ensures Spent(counter, k + Succeeds(v, op), Perform(v, op).0.s.counter)
  {
    hide Perform, Succeeds;
    CreateCounts(v, op);
  }

  lemma {:induction false} CreatesSpend(counter: nat, ops: seq<Op>, n: nat)
    requires n <= |ops|
    ensures Spent(counter, Successes(counter, ops, n), After(counter, ops, n).s.counter)
  {
    hide Perform, Succeeds;
    if n > 0 {
      CreatesSpend(counter, ops, n - 1);
      SpentStep(counter, After(counter, ops, n - 1), ops[n - 1], Successes(counter, ops, n - 1));
      hide Spent;
    }
  }

  /**
   Identifiers are never given back: over every run, whatever is removed, at most as many creates succeed as
   there are identifiers below ten left at the start.
   */
  lemma {:induction false} CreatesAreBounded(counter: nat, ops: seq<Op>, n: nat)
    requires n <= |ops|
    ensures Successes(counter, ops, n) <= if counter < 10 then 10 - counter else 0
  {
    hide Successes, After;
    CreatesSpend(counter, ops, n);
  }
}
