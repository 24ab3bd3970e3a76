/**
 Lists searched by identifier from the front, and the map from identifiers to values they stand for.
 */
module RuleList {

  datatype Entry<T> = Entry(id: int, value: T)

  predicate IdAt<T>(l: seq<Entry<T>>, i: int, id: int) {
    0 <= i < |l| && l[i].id == id
  }

  /** The position of the first entry with this identifier, or the length. */
  function Find<T>(l: seq<Entry<T>>, id: int): (i: nat)
    ensures i <= |l|
    ensures i < |l| ==> IdAt(l, i, id)
    ensures forall j :: 0 <= j < i ==> !IdAt(l, j, id)
  {
    FindFrom(l, id, 0)
  }

  function FindFrom<T>(l: seq<Entry<T>>, id: int, k: nat): (i: nat)
    requires k <= |l| && forall j :: 0 <= j < k ==> !IdAt(l, j, id)
    ensures i <= |l|
    ensures i < |l| ==> IdAt(l, i, id)
    ensures forall j :: 0 <= j < i ==> !IdAt(l, j, id)
    decreases |l| - k
  {
    if k == |l| || l[k].id == id then k else FindFrom(l, id, k + 1)
  }

  function Ids<T>(l: seq<Entry<T>>): set<int> {
    set i | 0 <= i < |l| :: l[i].id
  }

  function Erase<T>(l: seq<Entry<T>>, i: nat): seq<Entry<T>>
    requires i < |l|
  {
    l[..i] + l[i + 1..]
  }

  ghost predicate Distinct<T>(l: seq<Entry<T>>) {
    forall i, j :: 0 <= i < j < |l| ==> l[i].id != l[j].id
  }

  /** The map a list stands for: what a search for each identifier finds. */
  ghost function Stored<T>(l: seq<Entry<T>>): map<int, T> {
    map id | id in Ids(l) :: Found(l, id)
  }

  function Found<T>(l: seq<Entry<T>>, id: int): T
    requires id in Ids(l)
  {
    InIds(l, id);
    l[Find(l, id)].value
  }

  lemma {:induction false} InIds<T>(l: seq<Entry<T>>, id: int)
    ensures id in Ids(l) <==> Find(l, id) < |l|
  {
    var i := Find(l, id);
    if i < |l| {
      assert IdAt(l, i, id);
    } else if id in Ids(l) {
      var j :| 0 <= j < |l| && l[j].id == id;
      assert IdAt(l, j, id);
    }
  }

  /** A position whose identifier does not occur before it is the one the search finds. */
  lemma {:induction false} FindUnique<T>(l: seq<Entry<T>>, id: int, i: nat)
    requires IdAt(l, i, id) && forall j :: 0 <= j < i ==> !IdAt(l, j, id)
    ensures Find(l, id) == i && id in Ids(l)
  {
    hide Find;
    var n := Find(l, id);
    assert n >= i || IdAt(l, n, id);
  }

  /** Appending adds an entry to the map exactly when its identifier is new; otherwise it is never found. */
  lemma {:induction false} AppendStored<T>(l: seq<Entry<T>>, e: Entry<T>)
    ensures Stored(l + [e]) == if e.id in Ids(l) then Stored(l) else Stored(l)[e.id := e.value]
    ensures Distinct(l) && e.id !in Ids(l) ==> Distinct(l + [e])
  {
    hide Find;
    var l' := l + [e];
    forall id ensures id in Ids(l') <==> id in Ids(l) || id == e.id {
      if id in Ids(l) {
        var j :| 0 <= j < |l| && l[j].id == id;
        assert l'[j].id == id;
      }
      assert l'[|l|].id == e.id;
    }
    forall id | id in Ids(l') ensures Found(l', id) == if id in Ids(l) then Found(l, id) else e.value {
      InIds(l, id);
      var i := Find(l, id);
      assert forall j :: 0 <= j < i ==> (IdAt(l', j, id) <==> IdAt(l, j, id));
      FindUnique(l', id, i);
    }
  }

  /** Storing a new value at the entry a search finds changes the map at that identifier only. */
  lemma {:induction false} ReplaceStored<T>(l: seq<Entry<T>>, id: int, v: T)
    requires id in Ids(l)
    ensures Find(l, id) < |l| && Stored(l[Find(l, id) := Entry(id, v)]) == Stored(l)[id := v]
    ensures Distinct(l) ==> Distinct(l[Find(l, id) := Entry(id, v)])
  {
    hide Find;
    InIds(l, id);
    var i := Find(l, id);
    var l' := l[i := Entry(id, v)];
    assert forall j :: 0 <= j < |l| ==> l'[j].id == l[j].id;
    assert Ids(l') == Ids(l);
    forall k | k in Ids(l') ensures Found(l', k) == if k == id then v else Found(l, k) {
      InIds(l, k);
      var n := Find(l, k);
      assert forall j :: 0 <= j < n ==> (IdAt(l', j, k) <==> IdAt(l, j, k));
      FindUnique(l', k, n);
    }
  }

  lemma {:induction false} EraseIds<T>(l: seq<Entry<T>>, i: nat)
    requires i < |l| && Distinct(l)
    ensures Ids(Erase(l, i)) == Ids(l) - {l[i].id} && Distinct(Erase(l, i))
    ensures |Erase(l, i)| == |l| - 1
    ensures forall j :: 0 <= j < |Erase(l, i)| ==> Erase(l, i)[j] == if j < i then l[j] else l[j + 1]
  {
    var l' := Erase(l, i);
    assert forall j :: 0 <= j < |l'| ==> l'[j] == if j < i then l[j] else l[j + 1];
    forall k ensures k in Ids(l') <==> k in Ids(l) && k != l[i].id {
      if k in Ids(l) && k != l[i].id {
        var j :| 0 <= j < |l| && l[j].id == k;
        assert l'[if j < i then j else j - 1].id == k;
      }
    }
  }

  /** Erasing the entry a search finds takes the identifier out of the map, when it occurs once. */
  lemma {:induction false} EraseStored<T>(l: seq<Entry<T>>, id: int)
    requires id in Ids(l) && Distinct(l)
    ensures Find(l, id) < |l| && Stored(Erase(l, Find(l, id))) == Stored(l) - {id} && Distinct(Erase(l, Find(l, id)))
  {
    hide Find, Ids, Distinct;
    InIds(l, id);
    var i := Find(l, id);
    var l' := Erase(l, i);
    EraseIds(l, i);
    forall k | k in Ids(l') ensures Found(l', k) == Found(l, k) {
      InIds(l, k);
      var n := Find(l, k);
      assert IdAt(l, n, k) && n != i;
      var m := if n < i then n else n - 1;
      assert l'[m] == l[n];
      DistinctFound(l', k, m);
    }
  }

  lemma {:induction false} DistinctFound<T>(l: seq<Entry<T>>, id: int, i: nat)
    requires Distinct(l) && IdAt(l, i, id)
    ensures Find(l, id) == i && id in Ids(l)
  {
    FindUnique(l, id, i);
  }

  /** After the first entry is erased the identifier is still found exactly when there was another one. */
  lemma {:induction false} EraseLeavesIff<T>(l: seq<Entry<T>>, id: int)
    requires id in Ids(l)
    ensures Find(l, id) < |l|
    ensures id in Ids(Erase(l, Find(l, id))) <==> exists j :: Find(l, id) < j < |l| && l[j].id == id
  {
    hide Find;
    InIds(l, id);
    var i := Find(l, id);
    var l' := Erase(l, i);
    assert forall j :: 0 <= j < |l'| ==> l'[j] == if j < i then l[j] else l[j + 1];
    if id in Ids(l') {
      var j :| 0 <= j < |l'| && l'[j].id == id;
      assert j < i ==> IdAt(l, j, id);
      assert l[j + 1].id == id;
    }
    if j :| i < j < |l| && l[j].id == id {
      assert l'[j - 1].id == id;
    }
  }
}
