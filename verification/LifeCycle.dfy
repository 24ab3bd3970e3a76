/**
 The life cycle of a BPF program (`ProgramLifeCycle.hpp`): which kernel resources it takes and gives back.
 */
module LifeCycle {

  datatype ProgramState = IDLE | OPENED | LOADED | ATTACHED | LINKED

  /** The calls that take or give back a resource: an interface is named by its index. */
  datatype Call = Link(interface: nat) | Unlink(interface: nat) | Destroy(isNull: bool)

  type Section = string
  type Links = map<Section, seq<nat>>

  /** mState, mpSkeleton (present or null), mSectionLinkInterfacesMap, and the calls made so far. */
  datatype Life = Life(state: ProgramState, skeleton: bool, links: Links, calls: seq<Call>)

  /** The interfaces tear-down unlinks, in order: for each program of the object, those of its section. */
  function AllLinks(links: Links, sections: seq<Section>, n: nat): seq<nat>
    requires n <= |sections|
  {
    if n == 0 then [] else AllLinks(links, sections, n - 1) + LinksOf(links, sections[n - 1])
  }

  function LinksOf(links: Links, section: Section): seq<nat> {
    if section in links then links[section] else []
  }

  function Unlinks(interfaces: seq<nat>, n: nat): (r: seq<Call>)
    requires n <= |interfaces|
    ensures |r| == n
  {
    seq(n, i requires 0 <= i < n => Unlink(interfaces[i]))
  }

  function Destroyed(l: Life): Life {
    l.(state := IDLE, calls := l.calls + [Destroy(!l.skeleton)])
  }

  /** `tearDown`; the unlink number failAt, if it comes to that, fails and throws. */
  function TearDown(l: Life, sections: seq<Section>, failAt: nat): (r: (Life, bool)) {
    if l.state.IDLE? then (l, true)
    else if !l.state.LINKED? then (Destroyed(l), true)
    else
      var all := AllLinks(l.links, sections, |sections|);
      if failAt < |all| then (l.(calls := l.calls + Unlinks(all, failAt)), false)
      else (Destroyed(l.(calls := l.calls + Unlinks(all, |all|))), true)
  }

  /** `open`: a null skeleton is destroyed at once, and the state is OPENED all the same. */
  function Open(l: Life, limitOk: bool, given: bool): (r: (Life, bool)) {
    if !limitOk then (l, false)
    else (Life(OPENED, given, l.links, if given then l.calls else l.calls + [Destroy(true)]), true)
  }

  /** `load` and `attach`: a failure destroys the skeleton and throws, and the state stays as it was. */
  function Load(l: Life, ok: bool): (r: (Life, bool)) {
    if ok then (l.(state := LOADED), true) else (l.(calls := l.calls + [Destroy(!l.skeleton)]), false)
  }

  function Attach(l: Life, ok: bool): (r: (Life, bool)) {
    if ok then (l.(state := ATTACHED), true) else (l.(calls := l.calls + [Destroy(!l.skeleton)]), false)
  }

  function Added(links: Links, section: Section, interface: nat): Links {
    links[section := LinksOf(links, section) + [interface]]
  }

  /** `link`: interface 0 stands for an unknown name; setOk is what `bpf_set_link_xdp_fd` answers. */
  function LinkTo(l: Life, sections: seq<Section>, section: Section, interface: nat, setOk: bool, failAt: nat): (r: (Life, bool)) {
    if interface == 0 || section !in sections then (l, false)
    else if !setOk then (TearDown(l, sections, failAt).0, false)
    else
      (l.(state := LINKED, links := Added(l.links, section, interface), calls := l.calls + [Link(interface)]), true)
  }

  class ProgramLifeCycle {
    const sections: seq<Section>    // the programs of the BPF object, by section name
    var state: ProgramState
    var skeleton: bool
    var links: Links
    var calls: seq<Call>

    function Now(): Life
      reads this
    {
      Life(state, skeleton, links, calls)
    }

    constructor (sections: seq<Section>)
      ensures this.sections == sections && Now() == Life(IDLE, false, map[], [])
    {
      this.sections, state, skeleton, links, calls := sections, IDLE, false, map[], [];
    }

    method OpenProgram(limitOk: bool, given: bool) returns (ok: bool)
      modifies this
      ensures (Now(), ok) == Open(old(Now()), limitOk, given)
    {
      if !limitOk {
        return false;
      }
      skeleton := given;
      if !skeleton {
        calls := calls + [Destroy(true)];
      }
      state := OPENED;
      return true;
    }

    method LoadProgram(loaded: bool) returns (ok: bool)
      modifies this
      ensures (Now(), ok) == Load(old(Now()), loaded)
    {
      if !loaded {
        calls := calls + [Destroy(!skeleton)];
        return false;
      }
      state := LOADED;
      return true;
    }

    method AttachProgram(attached: bool) returns (ok: bool)
      modifies this
      ensures (Now(), ok) == Attach(old(Now()), attached)
    {
      if !attached {
        calls := calls + [Destroy(!skeleton)];
        return false;
      }
      state := ATTACHED;
      return true;
    }

    /** The loop over the programs stops at the first one of the section. */
    method LinkProgram(section: Section, interface: nat, setOk: bool, failAt: nat) returns (ok: bool)
      modifies this
      ensures (Now(), ok) == LinkTo(old(Now()), sections, section, interface, setOk, failAt)
    {
      hide TearDown;
      if interface == 0 {
        return false;
      }
      for i := 0 to |sections|
        invariant section !in sections[..i] && Now() == old(Now())
      {
        if sections[i] == section {
          if !setOk {
            var torn := TearDownPrograms(failAt);
            return false;
          }
          calls := calls + [Link(interface)];
          assert [] + [interface] == [interface] && sections[i] in sections;
          if section !in links {
            links := links[section := [interface]];
          } else {
            links := links[section := links[section] + [interface]];
          }
          state := LINKED;
          return true;
        }
        assert sections[..i + 1] == sections[..i] + [sections[i]];
      }
      assert sections[..|sections|] == sections;
      return false;
    }

    method TearDownPrograms(failAt: nat) returns (ok: bool)
      modifies this
      ensures (Now(), ok) == TearDown(old(Now()), sections, failAt)
    {
      if state == IDLE {
        return true;
      }
      if state == LINKED {
        ghost var all := AllLinks(links, sections, |sections|);
        var done := 0;
        for p := 0 to |sections|
          invariant state == LINKED && skeleton == old(skeleton) && links == old(links)
          invariant done == |AllLinks(links, sections, p)| && done <= failAt
          invariant calls == old(calls) + Unlinks(AllLinks(links, sections, p), done)
        {
          if sections[p] in links {
            ghost var before := AllLinks(links, sections, p);
            AllLinksPrefix(links, sections, p + 1, |sections|);
            var ok := UnlinkAll(links[sections[p]], failAt - done, old(calls), before);
            if !ok {
              assert Unlinks(all, failAt) == Unlinks(before + links[sections[p]], failAt);
              return false;
            }
            done := done + |links[sections[p]]|;
          }
        }
      }
      DestroyProgram();
      return true;
    }

    /** The inner loop: the interfaces of one section. */
    method UnlinkAll(entries: seq<nat>, failAt: nat, ghost calls0: seq<Call>, ghost before: seq<nat>) returns (ok: bool)
      requires calls == calls0 + Unlinks(before, |before|)
      modifies this`calls
      ensures ok <==> failAt >= |entries|
      ensures calls == calls0 + Unlinks(before + entries, |before| + if ok then |entries| else failAt)
    {
      for k := 0 to |entries|
        invariant k <= failAt && calls == calls0 + Unlinks(before + entries, |before| + k)
      {
        if k == failAt {
          return false;
        }
        calls := calls + [Unlink(entries[k])];
        ghost var n := |before| + k;
        assert Unlinks(before + entries, n + 1) == Unlinks(before + entries, n) + [Unlink(entries[k])];
      }
      return true;
    }

    /** `destroy`. */
    method DestroyProgram()
      modifies this
      ensures Now() == if old(state) == IDLE then old(Now()) else Destroyed(old(Now()))
    {
      if state != IDLE {
        calls := calls + [Destroy(!skeleton)];
      }
      state := IDLE;
    }
  }

  lemma {:induction false} AllLinksPrefix(links: Links, sections: seq<Section>, n: nat, m: nat)
    requires n <= m <= |sections|
    ensures AllLinks(links, sections, n) <= AllLinks(links, sections, m)
    decreases m - n
  {
    if n < m {
      AllLinksPrefix(links, sections, n, m - 1);
    }
  }

  // ---------------------------------------------------------------- what a life takes and gives back

  /** The interfaces linked, and unlinked, by a sequence of calls, with multiplicity. */
  function LinkedBy(calls: seq<Call>): multiset<nat> {
    if calls == [] then multiset{}
    else
      var rest := LinkedBy(calls[..|calls| - 1]);
      match calls[|calls| - 1]
      case Link(i) => rest + multiset{i}
      case _ => rest
  }

  function UnlinkedBy(calls: seq<Call>): multiset<nat> {
    if calls == [] then multiset{}
    else
      var rest := UnlinkedBy(calls[..|calls| - 1]);
      match calls[|calls| - 1]
      case Unlink(i) => rest + multiset{i}
      case _ => rest
  }

  function Destroys(calls: seq<Call>): nat {
    if calls == [] then 0
    else Destroys(calls[..|calls| - 1]) + if calls[|calls| - 1].Destroy? then 1 else 0
  }

  lemma {:induction false} OneMore(calls: seq<Call>, c: Call)
    ensures LinkedBy(calls + [c]) == LinkedBy(calls) + if c.Link? then multiset{c.interface} else multiset{}
    ensures UnlinkedBy(calls + [c]) == UnlinkedBy(calls) + if c.Unlink? then multiset{c.interface} else multiset{}
    ensures Destroys(calls + [c]) == Destroys(calls) + if c.Destroy? then 1 else 0
  {
    assert (calls + [c])[..|calls + [c]| - 1] == calls;
  }

  /** A loop of unlinks gives back what it goes over. */
  lemma {:induction false} UnlinksGiveBack(calls: seq<Call>, interfaces: seq<nat>, n: nat)
    requires n <= |interfaces|
    ensures LinkedBy(calls + Unlinks(interfaces, n)) == LinkedBy(calls)
    ensures UnlinkedBy(calls + Unlinks(interfaces, n)) == UnlinkedBy(calls) + multiset(interfaces[..n])
    ensures Destroys(calls + Unlinks(interfaces, n)) == Destroys(calls)
  {
    hide LinkedBy, UnlinkedBy, Destroys;
    if n == 0 {
      assert calls + Unlinks(interfaces, 0) == calls;
      assert interfaces[..0] == [];
    } else {
      UnlinksGiveBack(calls, interfaces, n - 1);
      OneMore(calls + Unlinks(interfaces, n - 1), Unlink(interfaces[n - 1]));
      assert calls + Unlinks(interfaces, n) == (calls + Unlinks(interfaces, n - 1)) + [Unlink(interfaces[n - 1])];
      assert interfaces[..n] == interfaces[..n - 1] + [interfaces[n - 1]];
      Gathered(interfaces[..n - 1], [interfaces[n - 1]]);
      Sum(UnlinkedBy(calls), multiset(interfaces[..n - 1]), multiset{interfaces[n - 1]});
    }
  }

  ghost predicate DistinctSections(sections: seq<Section>) {
    forall i, j :: 0 <= i < j < |sections| ==> sections[i] != sections[j]
  }

  lemma {:induction false} LinkElsewhere(links: Links, sections: seq<Section>, n: nat, section: Section, interface: nat)
    requires n <= |sections| && forall i :: 0 <= i < n ==> sections[i] != section
    ensures AllLinks(Added(links, section, interface), sections, n) == AllLinks(links, sections, n)
  {
    if n > 0 {
      LinkElsewhere(links, sections, n - 1, section, interface);
    }
  }

  lemma {:induction false} LinkAtLast(links: Links, sections: seq<Section>, n: nat, interface: nat)
    requires DistinctSections(sections) && 0 < n <= |sections|
    ensures AllLinks(Added(links, sections[n - 1], interface), sections, n) == AllLinks(links, sections, n) + [interface]
  {
    LinkElsewhere(links, sections, n - 1, sections[n - 1], interface);
    var before, own := AllLinks(links, sections, n - 1), LinksOf(links, sections[n - 1]);
    assert before + (own + [interface]) == (before + own) + [interface];
  }

  /** With distinct section names a new link is one more interface for tear-down. */
  lemma {:induction false} LinkCounts(links: Links, sections: seq<Section>, n: nat, k: nat, interface: nat)
    requires DistinctSections(sections) && k < n <= |sections|
    ensures multiset(AllLinks(Added(links, sections[k], interface), sections, n))
            == multiset(AllLinks(links, sections, n)) + multiset{interface}
    decreases n
  {
    hide AllLinks, Added, DistinctSections;
    if k == n - 1 {
      LinkAtLast(links, sections, n, interface);
      Gathered(AllLinks(links, sections, n), [interface]);
    } else {
      LinkCounts(links, sections, n - 1, k, interface);
      LinkNotLast(links, sections, n, k, interface);
    }
  }

  lemma {:induction false} LinkNotLast(links: Links, sections: seq<Section>, n: nat, k: nat, interface: nat)
    requires DistinctSections(sections) && k < n - 1 < |sections|
    requires multiset(AllLinks(Added(links, sections[k], interface), sections, n - 1))
             == multiset(AllLinks(links, sections, n - 1)) + multiset{interface}
    ensures multiset(AllLinks(Added(links, sections[k], interface), sections, n))
            == multiset(AllLinks(links, sections, n)) + multiset{interface}
  {
    var links' := Added(links, sections[k], interface);
    var before, before', own := AllLinks(links, sections, n - 1), AllLinks(links', sections, n - 1), LinksOf(links, sections[n - 1]);
    assert LinksOf(links', sections[n - 1]) == own;
    assert AllLinks(links, sections, n) == before + own && AllLinks(links', sections, n) == before' + own;
    hide AllLinks, LinksOf, Added, DistinctSections;
    Gathered(before', own);
    Gathered(before, own);
    Sum(multiset(before), multiset(own), multiset{interface});
  }

  lemma {:induction false} Sum(a: multiset<nat>, b: multiset<nat>, c: multiset<nat>)
    ensures a + (b + c) == (a + b) + c == (a + c) + b && a + multiset{} == a
  {
  }

  lemma {:induction false} Gathered(a: seq<nat>, b: seq<nat>)
    ensures multiset(a + b) == multiset(a) + multiset(b)
  {
  }

  datatype LinkOp = LinkOp(section: Section, interface: nat, setOk: bool)

  /** Calls of `link` one after the other; after a failed one that tore everything down no more are made. */
  function Linking(l: Life, sections: seq<Section>, ops: seq<LinkOp>, n: nat): Life
    requires n <= |ops|
  {
    if n == 0 then l
    else
      var m := Linking(l, sections, ops, n - 1);
      if m.state.IDLE? then m
      else LinkTo(m, sections, ops[n - 1].section, ops[n - 1].interface, ops[n - 1].setOk, Never(m, sections)).0
  }

  /** No unlink fails. */
  function Never(l: Life, sections: seq<Section>): nat {
    |AllLinks(l.links, sections, |sections|)|
  }

  /** The beginning of a life: `open`, `load` and `attach` have succeeded; the map may hold links of earlier lives. */
  function Attached(stale: Links): Life {
    Life(ATTACHED, true, stale, [])
  }

  function Stale(links: Links, sections: seq<Section>): multiset<nat> {
    multiset(AllLinks(links, sections, |sections|))
  }

  /** During a life: nothing given back yet, and tear-down will unlink the stale links and this life's. */
  ghost predicate Running(l: Life, sections: seq<Section>, stale: multiset<nat>) {
    && (l.state.ATTACHED? || l.state.LINKED?)
    && (l.state.LINKED? <==> LinkedBy(l.calls) != multiset{})
    && Stale(l.links, sections) == stale + LinkedBy(l.calls)
    && UnlinkedBy(l.calls) == multiset{} && Destroys(l.calls) == 0
  }

  /** After it: one destroy; everything of this life was unlinked, and the stale links too if there was anything. */
  ghost predicate Over(l: Life, stale: multiset<nat>) {
    && l.state.IDLE? && Destroys(l.calls) == 1
    && UnlinkedBy(l.calls) == if LinkedBy(l.calls) == multiset{} then multiset{} else stale + LinkedBy(l.calls)
  }

  lemma {:induction false} TearDownEnds(l: Life, sections: seq<Section>, stale: multiset<nat>)
    requires Running(l, sections, stale)
    ensures var (l', ok) := TearDown(l, sections, Never(l, sections)); ok && Over(l', stale) && LinkedBy(l'.calls) == LinkedBy(l.calls)
  {
    hide LinkedBy, UnlinkedBy, Destroys;
    var all := AllLinks(l.links, sections, |sections|);
    UnlinksGiveBack(l.calls, all, |all|);
    assert all[..|all|] == all;
    OneMore(l.calls + Unlinks(all, |all|), Destroy(!l.skeleton));
    OneMore(l.calls, Destroy(!l.skeleton));
  }

  lemma {:induction false} LinkKeepsRunning(l: Life, sections: seq<Section>, stale: multiset<nat>, op: LinkOp)
    requires DistinctSections(sections) && Running(l, sections, stale)
    ensures var l' := LinkTo(l, sections, op.section, op.interface, op.setOk, Never(l, sections)).0;
            if op.interface == 0 || op.section !in sections || op.setOk then Running(l', sections, stale)
            else Over(l', stale)
  {
    hide LinkedBy, UnlinkedBy, Destroys, AllLinks, DistinctSections;
    if op.interface != 0 && op.section in sections {
      if op.setOk {
        var k :| 0 <= k < |sections| && sections[k] == op.section;
        LinkCounts(l.links, sections, |sections|, k, op.interface);
        OneMore(l.calls, Link(op.interface));
        assert op.interface in LinkedBy(l.calls) + multiset{op.interface};
      } else {
        TearDownEnds(l, sections, stale);
      }
    }
  }

  lemma {:induction false} LinkingRuns(stale: Links, sections: seq<Section>, ops: seq<LinkOp>, n: nat)
    requires DistinctSections(sections) && n <= |ops|
    ensures var l := Linking(Attached(stale), sections, ops, n);
            Running(l, sections, Stale(stale, sections)) || Over(l, Stale(stale, sections))
  {
    if n == 0 {
    } else {
      hide Running, LinkTo, DistinctSections, Stale, AllLinks;
      LinkingRuns(stale, sections, ops, n - 1);
      var m := Linking(Attached(stale), sections, ops, n - 1);
      if !m.state.IDLE? {
        LinkKeepsRunning(m, sections, Stale(stale, sections), ops[n - 1]);
      }
    }
  }

  /** `tearDown` called again and again. */
  function Tears(l: Life, sections: seq<Section>, times: nat): Life {
    if times == 0 then l
    else
      var m := Tears(l, sections, times - 1);
      TearDown(m, sections, Never(m, sections)).0
  }

  lemma {:induction false} TearsEnd(l: Life, sections: seq<Section>, stale: multiset<nat>, times: nat)
    requires (Running(l, sections, stale) && times > 0) || Over(l, stale)
    ensures Over(Tears(l, sections, times), stale)
  {
    hide LinkedBy, UnlinkedBy, Destroys, AllLinks;
    if times > 0 {
      if Over(l, stale) || times > 1 {
        TearsEnd(l, sections, stale, times - 1);
      } else {
        assert Tears(l, sections, 0) == l;
        TearDownEnds(l, sections, stale);
      }
    }
  }

  /** The life cycle from IDLE on: `open`, then `load` and `attach`, which may fail. */
  function Begin(l: Life, loaded: bool, attached: bool): Life {
    var first := Open(l, true, true).0;
    if !loaded then Load(first, false).0 else Attach(Load(first, true).0, attached).0
  }

  /** A life that begins well begins attached, with the links of earlier lives in the map. */
  lemma {:induction false} BeginsAttached(stale: Links)
    ensures Begin(Life(IDLE, false, stale, []), true, true) == Attached(stale)
  {
  }

  /**
   A first life from IDLE, with distinct section names: after `open`, `load`, `attach`, any links, failed ones
   included, and one tear-down or more, every interface linked has been unlinked exactly once and the skeleton
   destroyed exactly once.
   */
  lemma {:induction false} FirstLifeIsSafe(sections: seq<Section>, ops: seq<LinkOp>, times: nat)
    requires DistinctSections(sections) && times > 0
    ensures var begun := Begin(Life(IDLE, false, map[], []), true, true);
            var l := Tears(Linking(begun, sections, ops, |ops|), sections, times);
            l.state.IDLE? && UnlinkedBy(l.calls) == LinkedBy(l.calls) && Destroys(l.calls) == 1
  {
    hide LinkedBy, UnlinkedBy, Destroys, Linking, Tears, Running, Begin;
    BeginsAttached(map[]);
    LinkingRuns(map[], sections, ops, |ops|);
    NothingStale(sections, |sections|);
    TearsEnd(Linking(Attached(map[]), sections, ops, |ops|), sections, multiset{}, times);
  }

  lemma {:induction false} NothingStale(sections: seq<Section>, n: nat)
    requires n <= |sections|
    ensures AllLinks(map[], sections, n) == []
  {
    if n > 0 {
      NothingStale(sections, n - 1);
    }
  }

  // ---------------------------------------------------------------- in which order

  /** Up to n only interfaces are linked. */
  ghost predicate OnlyLinks(calls: seq<Call>, n: nat) {
    n <= |calls| && forall i :: 0 <= i < n ==> calls[i].Link?
  }

  /** First links, then unlinks, and last the skeleton is destroyed, which is there. */
  ghost predicate InOrder(calls: seq<Call>) {
    exists n: nat :: OnlyLinks(calls, n) && UnlinksThenDestroy(calls, n)
  }

  ghost predicate UnlinksThenDestroy(calls: seq<Call>, n: nat) {
    n < |calls| && calls[|calls| - 1] == Destroy(false) && forall i :: n <= i < |calls| - 1 ==> calls[i].Unlink?
  }

  /** During and after a life. */
  ghost predicate Orderly(l: Life) {
    if l.state.IDLE? then InOrder(l.calls) else l.skeleton && OnlyLinks(l.calls, |l.calls|)
  }

  lemma {:induction false} TearDownInOrder(l: Life, sections: seq<Section>)
    requires Orderly(l)
    ensures var l' := TearDown(l, sections, Never(l, sections)).0; l'.state.IDLE? && Orderly(l')
  {
    hide AllLinks;
    if !l.state.IDLE? {
      var l' := TearDown(l, sections, Never(l, sections)).0;
      assert OnlyLinks(l'.calls, |l.calls|) && UnlinksThenDestroy(l'.calls, |l.calls|);
    }
  }

  lemma {:induction false} LinkingInOrder(stale: Links, sections: seq<Section>, ops: seq<LinkOp>, n: nat)
    requires n <= |ops|
    ensures Orderly(Linking(Attached(stale), sections, ops, n))
  {
    if n > 0 {
      hide AllLinks, InOrder, Added, TearDown, Never;
      LinkingInOrder(stale, sections, ops, n - 1);
      TearDownInOrder(Linking(Attached(stale), sections, ops, n - 1), sections);
    }
  }

  lemma {:induction false} TearsInOrder(l: Life, sections: seq<Section>, times: nat)
    requires Orderly(l)
    ensures var l' := Tears(l, sections, times); Orderly(l') && (times > 0 ==> l'.state.IDLE?)
  {
    hide Orderly, TearDown;
    if times > 0 {
      TearsInOrder(l, sections, times - 1);
      TearDownInOrder(Tears(l, sections, times - 1), sections);
    }
  }

  /**
   Every life that is torn down, whatever earlier lives left, makes its calls in order: interfaces are linked, then unlinked,
   and the skeleton is destroyed behind the last of them.
   */
  lemma {:induction false} LifeIsInOrder(stale: Links, sections: seq<Section>, ops: seq<LinkOp>, times: nat)
    requires times > 0
    ensures InOrder(Tears(Linking(Begin(Life(IDLE, false, stale, []), true, true), sections, ops, |ops|), sections, times).calls)
  {
    hide Tears, Linking, InOrder;
    BeginsAttached(stale);
    LinkingInOrder(stale, sections, ops, |ops|);
    TearsInOrder(Linking(Attached(stale), sections, ops, |ops|), sections, times);
  }

  /** A link that fails after others have succeeded leaves nothing linked. */
  lemma {:induction false} FailedLinkLeavesNothing(sections: seq<Section>, ops: seq<LinkOp>)
    requires DistinctSections(sections) && Linking(Attached(map[]), sections, ops, |ops|).state.IDLE?
    ensures var l := Linking(Attached(map[]), sections, ops, |ops|);
            UnlinkedBy(l.calls) == LinkedBy(l.calls) && Destroys(l.calls) == 1
  {
    hide LinkedBy, UnlinkedBy, Destroys, Linking;
    LinkingRuns(map[], sections, ops, |ops|);
    NothingStale(sections, |sections|);
  }

  /**
   Any later life: the map is never cleared, so tear-down unlinks exactly this life's interfaces if and only if
   earlier lives left no entry for the object's sections or this life has linked nothing.
   */
  lemma {:induction false} LaterLifeIsSafeIff(stale: Links, sections: seq<Section>, ops: seq<LinkOp>, times: nat)
    requires DistinctSections(sections) && times > 0
    ensures var l := Tears(Linking(Attached(stale), sections, ops, |ops|), sections, times);
            && l.state.IDLE? && Destroys(l.calls) == 1
            && (UnlinkedBy(l.calls) == LinkedBy(l.calls) <==>
                Stale(stale, sections) == multiset{} || LinkedBy(l.calls) == multiset{})
  {
    hide LinkedBy, UnlinkedBy, Destroys, Linking, Tears, Running, Stale;
    LinkingRuns(stale, sections, ops, |ops|);
    var s := Stale(stale, sections);
    TearsEnd(Linking(Attached(stale), sections, ops, |ops|), sections, s, times);
    var l := Tears(Linking(Attached(stale), sections, ops, |ops|), sections, times);
    OnlyEmptyAddsNothing(s, LinkedBy(l.calls));
  }

  lemma {:induction false} OnlyEmptyAddsNothing(s: multiset<nat>, m: multiset<nat>)
    ensures s + m == m <==> s == multiset{}
  {
    if s != multiset{} {
      var i :| i in s;
      assert (s + m)[i] == s[i] + m[i];
    }
  }

  /** A life that is opened and torn down destroys the skeleton once exactly when neither load nor attach failed. */
  lemma {:induction false} DestroyedOnceIff(sections: seq<Section>, loaded: bool, attached: bool, failAt: nat)
    ensures Destroys(TearDown(Begin(Life(IDLE, false, map[], []), loaded, attached), sections, failAt).0.calls) == 1
            <==> loaded && attached
  {
    OneMore([], Destroy(false));
    OneMore([Destroy(false)], Destroy(false));
    assert [] + [Destroy(false)] == [Destroy(false)];
    assert [Destroy(false)] + [Destroy(false)] == [Destroy(false), Destroy(false)];
  }

  /** A tear-down cut short by a failing unlink is repeated from the start: what it had unlinked is unlinked twice. */
  lemma {:induction false} RepeatedTearDown(l: Life, sections: seq<Section>, failAt: nat)
    requires l.state.LINKED? && failAt < Never(l, sections)
    ensures var all := AllLinks(l.links, sections, |sections|);
            var (l1, ok1) := TearDown(l, sections, failAt);
            var (l2, ok2) := TearDown(l1, sections, Never(l, sections));
            && !ok1 && l1.state.LINKED? && ok2 && l2.state.IDLE?
            && UnlinkedBy(l2.calls) == UnlinkedBy(l.calls) + multiset(all[..failAt]) + multiset(all)
  {
    hide UnlinkedBy, LinkedBy, Destroys;
    var all := AllLinks(l.links, sections, |sections|);
    var l1 := TearDown(l, sections, failAt).0;
    UnlinksGiveBack(l.calls, all, failAt);
    UnlinksGiveBack(l1.calls, all, |all|);
    assert all[..|all|] == all;
    OneMore(l1.calls + Unlinks(all, |all|), Destroy(!l.skeleton));
  }
}
