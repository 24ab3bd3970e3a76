/**
 The rule list of `pfcp/Session.cpp`: every added PDR goes to the back and the list is sorted again, stably.
 */
module PrecedenceList {

  /** A PDR object and its precedence. */
  datatype Rule = Rule(name: nat, precedence: nat)

  ghost predicate Sorted(l: seq<Rule>) {
    forall i, j :: 0 <= i < j < |l| ==> l[i].precedence <= l[j].precedence
  }

  /** The rules of one precedence value, in their order. */
  function Level(l: seq<Rule>, v: nat): seq<Rule> {
    if l == [] then []
    else if l[|l| - 1].precedence == v then Level(l[..|l| - 1], v) + [l[|l| - 1]]
    else Level(l[..|l| - 1], v)
  }

  /** `std::list::sort`: sorted, the same rules, and those of equal precedence in the order they had. */
  ghost predicate StablySorted(r: seq<Rule>, l: seq<Rule>) {
    Sorted(r) && forall v :: Level(r, v) == Level(l, v)
  }

  lemma {:induction false} LevelConcat(a: seq<Rule>, b: seq<Rule>, v: nat)
    ensures Level(a + b, v) == Level(a, v) + Level(b, v)
  {
    if b == [] {
      assert a + b == a;
    } else {
      LevelConcat(a, b[..|b| - 1], v);
      assert (a + b)[..|a + b| - 1] == a + b[..|b| - 1];
    }
  }

  lemma {:induction false} LevelEmpty(l: seq<Rule>, v: nat)
    ensures Level(l, v) == [] <==> forall j :: 0 <= j < |l| ==> l[j].precedence != v
  {
    if l != [] {
      LevelEmpty(l[..|l| - 1], v);
    }
  }

  lemma {:induction false} LevelOne(p: Rule, v: nat)
    ensures Level([p], v) == if p.precedence == v then [p] else []
  {
    assert [p][..0] == [];
  }

  /** The first rule of a level is the first rule of the list with that precedence. */
  lemma {:induction false} LevelHead(l: seq<Rule>, k: nat)
    requires k < |l| && forall j :: 0 <= j < k ==> l[j].precedence != l[k].precedence
    ensures Level(l, l[k].precedence) != [] && Level(l, l[k].precedence)[0] == l[k]
  {
    var v := l[k].precedence;
    assert l == l[..k] + ([l[k]] + l[k + 1..]);
    LevelEmpty(l[..k], v);
    LevelConcat(l[..k], [l[k]] + l[k + 1..], v);
    LevelConcat([l[k]], l[k + 1..], v);
    LevelOne(l[k], v);
  }

  /** Putting a rule behind all rules that are not after it keeps every level in order. */
  lemma {:induction false} InsertKeepsLevels(r: seq<Rule>, p: Rule, k: nat, v: nat)
    requires k <= |r| && forall j :: k <= j < |r| ==> r[j].precedence > p.precedence
    ensures Level(r[..k] + [p] + r[k..], v) == Level(r, v) + Level([p], v)
  {
    hide Level;
    assert r == r[..k] + r[k..];
    LevelConcat(r[..k], r[k..], v);
    LevelConcat(r[..k] + [p], r[k..], v);
    LevelConcat(r[..k], [p], v);
    LevelOne(p, v);
    if p.precedence == v {
      LevelEmpty(r[k..], v);
    }
  }

  method Sort(l: seq<Rule>) returns (r: seq<Rule>)
    ensures StablySorted(r, l)
  {
    r := [];
    for n := 0 to |l|
      invariant StablySorted(r, l[..n])
    {
      ghost var was := r;
      r := Insert(r, l[n]);
      Extended(was, l[..n], l[n], r);
      assert l[..n + 1] == l[..n] + [l[n]];
    }
    assert l[..|l|] == l;
  }

  method Insert(l: seq<Rule>, p: Rule) returns (r: seq<Rule>)
    requires Sorted(l)
    ensures StablySorted(r, l + [p])
  {
    hide Level;
    var k := |l|;
    while k > 0 && l[k - 1].precedence > p.precedence
      invariant 0 <= k <= |l| && forall j :: k <= j < |l| ==> l[j].precedence > p.precedence
    {
      k := k - 1;
    }
    r := l[..k] + [p] + l[k..];
    forall v ensures Level(r, v) == Level(l + [p], v) {
      InsertKeepsLevels(l, p, k, v);
      LevelConcat(l, [p], v);
    }
    InsertSorted(l, p, k);
  }

  lemma {:induction false} InsertSorted(l: seq<Rule>, p: Rule, k: nat)
    requires Sorted(l) && k <= |l|
    requires k > 0 ==> l[k - 1].precedence <= p.precedence
    requires forall j :: k <= j < |l| ==> l[j].precedence > p.precedence
    ensures Sorted(l[..k] + [p] + l[k..])
  {
    var r := l[..k] + [p] + l[k..];
    forall i, j | 0 <= i < j < |r| ensures r[i].precedence <= r[j].precedence {
      assert r[i] == if i < k then l[i] else if i == k then p else l[i - 1];
      assert r[j] == if j < k then l[j] else if j == k then p else l[j - 1];
    }
  }

  /** Sorting a sorted list with one more rule behind it sorts everything added so far, stably. */
  lemma {:induction false} Extended(l: seq<Rule>, added: seq<Rule>, p: Rule, r: seq<Rule>)
    requires StablySorted(l, added) && StablySorted(r, l + [p])
    ensures StablySorted(r, added + [p])
  {
    forall v ensures Level(r, v) == Level(added + [p], v) {
      LevelConcat(l, [p], v);
      LevelConcat(added, [p], v);
    }
  }

  /** rule k is the first added one of lowest precedence value. */
  ghost predicate FirstLowest(added: seq<Rule>, k: nat) {
    && k < |added| && (forall j :: 0 <= j < |added| ==> added[k].precedence <= added[j].precedence)
    && (forall j :: 0 <= j < k ==> added[j].precedence > added[k].precedence)
  }

  lemma {:induction false} HeadIsFirstLowest(added: seq<Rule>, l: seq<Rule>)
    requires StablySorted(l, added) && added != []
    ensures l != [] && exists k: nat :: FirstLowest(added, k) && added[k] == l[0]
  {
    hide Level;
    forall j | 0 <= j < |added| ensures l != [] && l[0].precedence <= added[j].precedence {
      var v := added[j].precedence;
      LevelEmpty(added, v);
      LevelEmpty(l, v);
      var i :| 0 <= i < |l| && l[i].precedence == v;
    }
    var some := added[0];
    assert l != [] && l[0].precedence <= some.precedence;
    var v := l[0].precedence;
    LevelEmpty(l, v);
    LevelEmpty(added, v);
    var k := FirstAt(added, v);
    LevelHead(added, k);
    LevelHead(l, 0);
    assert FirstLowest(added, k);
  }

  function FirstAt(l: seq<Rule>, v: nat): (k: nat)
    requires exists j :: 0 <= j < |l| && l[j].precedence == v
    ensures k < |l| && l[k].precedence == v && forall j :: 0 <= j < k ==> l[j].precedence != v
  {
    if exists j :: 0 <= j < |l| - 1 && l[j].precedence == v then
      assert forall j :: 0 <= j < |l| - 1 ==> l[..|l| - 1][j] == l[j];
      FirstAt(l[..|l| - 1], v)
    else |l| - 1
  }

  class Session {
    var rules: seq<Rule>            // mPDRs
    ghost var added: seq<Rule>      // every rule added, in order

    ghost predicate Valid()
      reads this
    {
      StablySorted(rules, added)
    }

    constructor ()
      ensures Valid() && added == []
    {
      rules, added := [], [];
    }

    method AddPdr(p: Rule)
      requires Valid()
      modifies this
      ensures Valid() && added == old(added) + [p] && StablySorted(rules, old(rules) + [p])
    {
      hide StablySorted;
      var was := rules;
      rules := rules + [p];
      rules := Sort(rules);
      Extended(was, added, p, rules);
      added := added + [p];
    }

    /** The first-added rule among those of lowest precedence value. Without rules the code has no answer. */
    method GetHighestPrecedencePdr() returns (p: Rule)
      requires Valid() && added != []
      ensures exists k: nat :: FirstLowest(added, k) && added[k] == p
    {
      HeadIsFirstLowest(added, rules);
      p := rules[0];
    }
  }
}
