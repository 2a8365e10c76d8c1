/** The registry of running subagents: a cap on how many run, and cancelling with everything spawned below. */
module Subagents {
  import opened WorkflowNode

  const MAX_CONCURRENT_SUBAGENTS: nat := 10

  datatype Status = Running | Completed | Failed | Cancelled | Offline

  datatype Ref = Ref(id: string, role: string, title: string, status: Status)

  /** Who spawned whom, for the agents that are running. */
  type Parents = map<string, Option<string>>

  // ---- Descendants ----

  predicate IsChild(running: Parents, parent: string, x: string) {
    x in running && running[x] == Some(parent)
  }

  /** `x` is `n` steps below `top`, every step through a running agent. */
  predicate BelowBy(running: Parents, top: string, x: string, n: nat)
    decreases n
  {
    x in running &&
    if n == 0 then x == top
    else running[x].Some? && BelowBy(running, top, running[x].value, n - 1)
  }

  ghost predicate Below(running: Parents, top: string, x: string) {
    exists n: nat :: BelowBy(running, top, x, n)
  }

  ghost function Family(running: Parents, top: string): set<string> {
    set x | x in running && Below(running, top, x)
  }

  /** The families of these agents. */
  ghost function Families(running: Parents, tops: set<string>): set<string> {
    set x, c | c in tops && x in Family(running, c) :: x
  }

  function Children(running: Parents, parent: string): set<string> {
    set x | x in running && running[x] == Some(parent)
  }

  /** What is below an agent is below one of its children. */
  lemma {:induction false} BelowAChild(running: Parents, top: string, x: string, n: nat) returns (c: string)
    requires n > 0 && BelowBy(running, top, x, n)
    ensures c in Children(running, top) && BelowBy(running, c, x, n - 1)
    decreases n
  {
    if n == 1 {
      c := x;
    } else {
      c := BelowAChild(running, top, running[x].value, n - 1);
    }
  }

  lemma {:induction false} BelowChildIsBelow(running: Parents, top: string, c: string, x: string, n: nat)
    requires top in running && c in Children(running, top) && BelowBy(running, c, x, n)
    ensures BelowBy(running, top, x, n + 1)
    decreases n
  {
    if n == 0 {
      assert BelowBy(running, top, top, 0);
    } else {
      BelowChildIsBelow(running, top, c, running[x].value, n - 1);
    }
  }

  lemma FamilyIsSelfAndChildren(running: Parents, top: string)
    requires top in running
    ensures Family(running, top) == {top} + Families(running, Children(running, top))
  {
    assert BelowBy(running, top, top, 0);
    forall x | x in Family(running, top)
      ensures x == top || x in Families(running, Children(running, top))
    {
      var n: nat :| BelowBy(running, top, x, n);
      if n > 0 {
        var c := BelowAChild(running, top, x, n);
        assert x in Family(running, c);
      }
    }
    forall x | x in Families(running, Children(running, top))
      ensures x in Family(running, top)
    {
      var c :| c in Children(running, top) && x in Family(running, c);
      var n: nat :| BelowBy(running, c, x, n);
      BelowChildIsBelow(running, top, c, x, n);
    }
  }

  // ---- Statuses ----

  /** The refs with these agents marked cancelled. */
  function Cancelling(items: map<string, Ref>, ids: set<string>): (r: map<string, Ref>)
    ensures r.Keys == items.Keys
    ensures forall x :: x in items ==>
      && r[x].status == (if x in ids then Cancelled else items[x].status)
      && r[x].id == items[x].id && r[x].role == items[x].role && r[x].title == items[x].title
  {
    map x | x in items :: if x in ids then items[x].(status := Cancelled) else items[x]
  }

  /** The running agents in the order they were spawned: the latest has spawned none of the others. */
  predicate Spawned(order: seq<string>, running: Parents) {
    if order == [] then running == map[]
    else
      var last := order[|order| - 1];
      last in running && Children(running, last) == {} && Spawned(order[..|order| - 1], running - {last})
  }

  lemma {:induction false} SpawnedLists(order: seq<string>, running: Parents)
    requires Spawned(order, running)
    ensures forall x :: x in order <==> x in running
    ensures |order| == |running|
    ensures forall i, j :: 0 <= i < j < |order| ==> order[i] != order[j]
  {
    if order != [] {
      var n := |order| - 1;
      SpawnedLists(order[..n], running - {order[n]});
      assert order == order[..n] + [order[n]];
      assert running.Keys == (running - {order[n]}).Keys + {order[n]};
    }
  }

  /** How many agents were spawned before this one, among those running. */
  function Rank(order: seq<string>, id: string): (k: nat)
    ensures k <= |order| && (k < |order| <==> id in order)
  {
    if order == [] then 0
    else if order[|order| - 1] == id then |order| - 1
    else
      var k := Rank(order[..|order| - 1], id);
      assert order == order[..|order| - 1] + [order[|order| - 1]];
      if k < |order| - 1 then k else |order|
  }

  lemma RankOfOther(order: seq<string>, id: string)
    requires id in order && id != order[|order| - 1]
    ensures Rank(order, id) < |order| - 1
  {
    assert order == order[..|order| - 1] + [order[|order| - 1]];
  }

  lemma {:induction false} ChildrenRankHigher(order: seq<string>, running: Parents, parent: string, child: string)
    requires Spawned(order, running) && parent in running && IsChild(running, parent, child)
    ensures Rank(order, parent) < Rank(order, child) < |order|
  {
    SpawnedLists(order, running);
    var n := |order| - 1;
    var last, rest := order[n], running - {order[n]};
    assert parent != last by {
      assert child !in Children(running, last);
    }
    if child != last {
      ChildrenRankHigher(order[..n], rest, parent, child);
    } else {
      RankOfOther(order, parent);
    }
  }

  lemma SpawnKeepsOrder(order: seq<string>, running: Parents, id: string, parent: Option<string>)
    requires Spawned(order, running) && id !in running && parent != Some(id) && Children(running, id) == {}
    ensures Spawned(order + [id], running[id := parent])
  {
    assert (order + [id])[..|order|] == order && running[id := parent] - {id} == running;
    assert Children(running[id := parent], id) == {};
  }

  function Without(order: seq<string>, id: string): seq<string> {
    if order == [] then []
    else Without(order[..|order| - 1], id) + if order[|order| - 1] == id then [] else [order[|order| - 1]]
  }

  lemma {:induction false} FinishKeepsOrder(order: seq<string>, running: Parents, id: string)
    requires Spawned(order, running)
    ensures Spawned(Without(order, id), running - {id})
  {
    if order != [] {
      var n := |order| - 1;
      var last := order[n];
      FinishKeepsOrder(order[..n], running - {last}, id);
      if last == id {
        assert running - {last} - {id} == running - {id};
        assert Without(order, id) == Without(order[..n], id);
      } else {
        var rest := Without(order[..n], id);
        assert (rest + [last])[..|rest|] == rest;
        assert running - {last} - {id} == running - {id} - {last};
        assert Children(running - {id}, last) == {};
      }
    } else {
      assert running - {id} == running;
    }
  }

  // ---- The registry ----

  /** `order` is the insertion order of `running`, by which it is walked; `aborted` are the agents whose abort signal
      is raised. */
  class Registry {
    var items: map<string, Ref>
    var running: Parents
    var order: seq<string>
    var aborted: set<string>

    ghost predicate Valid()
      reads this
    {
      Spawned(order, running) && |running| <= MAX_CONCURRENT_SUBAGENTS
    }

    constructor ()
      ensures Valid() && items == map[] && running == map[] && order == [] && aborted == {}
    {
      items, running, order, aborted := map[], map[], [], {};
    }

    /** Starts an agent under a fresh id unless ten are running. */
    method Spawn(id: string, role: string, title: string, parent: Option<string>) returns (started: bool)
      requires Valid()
      requires id !in running && id !in aborted && parent != Some(id) && Children(running, id) == {}
      modifies this
      ensures Valid()
      ensures started == (|old(running)| < 10)
      ensures !started ==> items == old(items) && running == old(running) && order == old(order)
      ensures started ==>
        && items == old(items)[id := Ref(id, role, title, Running)]
        && running == old(running)[id := parent] && order == old(order) + [id]
      ensures aborted == old(aborted)
    {
      if |running| >= MAX_CONCURRENT_SUBAGENTS {
        return false;
      }
      items := items[id := Ref(id, role, title, Running)];
      SpawnKeepsOrder(order, running, id, parent);
      assert running[id := parent].Keys == running.Keys + {id};
      running := running[id := parent];
      order := order + [id];
      return true;
    }

    /** An agent's run ends: it leaves `running`, whatever became of it. */
    method Finish(id: string)
      requires Valid()
      modifies this`running, this`order
      ensures Valid()
      ensures running == old(running) - {id}
      ensures order == Without(old(order), id)
    {
      FinishKeepsOrder(order, running, id);
      assert (running - {id}).Keys == running.Keys - {id};
      running := running - {id};
      order := Without(order, id);
    }

    /** Records how an agent fares, if it is still listed; a cancelled agent may be recorded completed after all. */
    method UpdateStatus(id: string, status: Status)
      requires Valid()
      modifies this`items
      ensures Valid()
      ensures items == if id in old(items) then old(items)[id := old(items)[id].(status := status)] else old(items)
    {
      if id in items {
        items := items[id := items[id].(status := status)];
      }
    }

    /** Raises the abort signal of a running agent and, cascading, of everything running below it. */
    method Cancel(id: string, cascade: bool) returns (found: bool)
      requires Valid()
      modifies this`items, this`aborted
      ensures Valid()
      ensures found == (id in running)
      ensures var hit := if !found then {} else if cascade then Family(running, id) else {id};
        aborted == old(aborted) + hit && items == Cancelling(old(items), hit)
      decreases |order| - Rank(order, id), 1
    {
      if id !in running {
        assert items == Cancelling(items, {});
        return false;
      }
      aborted := aborted + {id};
      if id in items {
        items := items[id := items[id].(status := Cancelled)];
      }
      assert items == Cancelling(old(items), {id});
      if cascade {
        var count := CancelChildren(id);
        FamilyIsSelfAndChildren(running, id);
        CancellingTwice(old(items), {id}, Families(running, Children(running, id)));
      }
      return true;
    }

    /** Cancels the children in the order they were spawned; says how many there were. */
    method CancelChildren(id: string) returns (count: nat)
      requires Valid()
      modifies this`items, this`aborted
      ensures Valid()
      ensures count == |Children(running, id)|
      ensures var hit := Families(running, Children(running, id));
        aborted == old(aborted) + hit && items == Cancelling(old(items), hit)
      decreases if id in running then |order| - Rank(order, id) else |order| + 1, 0
    {
      var children := ChildList(order, running, id);
      ChildListIsChildren(order, running, id);
      assert items == Cancelling(items, {});
      for i := 0 to |children|
        invariant running == old(running) && order == old(order)
        invariant aborted == old(aborted) + Listed(running, children[..i])
        invariant items == Cancelling(old(items), Listed(running, children[..i]))
      {
        var child := children[i];
        assert children[..i + 1][..i] == children[..i] && children[..i + 1][i] == child && child in children;
        if id in running {
          ChildrenRankHigher(order, running, id, child);
        }
        var _ := Cancel(child, true);
        CancellingTwice(old(items), Listed(running, children[..i]), Family(running, child));
      }
      assert children[..|children|] == children;
      ListedIsFamilies(running, children);
      assert Children(running, id) == set c | c in children;
      count := |children|;
    }
  }

  /** The running children of an agent, in the order they were spawned. */
  function ChildList(order: seq<string>, running: Parents, id: string): seq<string> {
    if order == [] then []
    else
      var last := order[|order| - 1];
      ChildList(order[..|order| - 1], running, id) + if IsChild(running, id, last) then [last] else []
  }

  function ListedChildren(order: seq<string>, running: Parents, id: string): set<string> {
    set x | x in order && IsChild(running, id, x)
  }

  lemma ListedChildrenSnoc(order: seq<string>, running: Parents, id: string, last: string)
    ensures ListedChildren(order + [last], running, id)
         == ListedChildren(order, running, id) + if IsChild(running, id, last) then {last} else {}
  {
  }

  lemma {:induction false} ChildListHolds(order: seq<string>, running: Parents, id: string)
    requires forall i, j :: 0 <= i < j < |order| ==> order[i] != order[j]
    ensures var list := ChildList(order, running, id);
      |list| == |ListedChildren(order, running, id)| && forall x :: x in list <==>
        x in ListedChildren(order, running, id)
  {
    if order != [] {
      var n := |order| - 1;
      ChildListHolds(order[..n], running, id);
      assert order == order[..n] + [order[n]];
      ListedChildrenSnoc(order[..n], running, id, order[n]);
      assert order[n] !in order[..n];
    }
  }

  lemma ChildListIsChildren(order: seq<string>, running: Parents, id: string)
    requires Spawned(order, running)
    ensures var list := ChildList(order, running, id);
      |list| == |Children(running, id)| && forall x :: x in list <==> x in Children(running, id)
  {
    SpawnedLists(order, running);
    ChildListHolds(order, running, id);
    assert Children(running, id) == ListedChildren(order, running, id);
  }

  /** The families of the listed agents. */
  ghost function Listed(running: Parents, tops: seq<string>): set<string> {
    if tops == [] then {} else Listed(running, tops[..|tops| - 1]) + Family(running, tops[|tops| - 1])
  }

  lemma {:induction false} ListedIsFamilies(running: Parents, tops: seq<string>)
    ensures Listed(running, tops) == Families(running, set c | c in tops)
  {
    if tops != [] {
      var n := |tops| - 1;
      ListedIsFamilies(running, tops[..n]);
      assert tops == tops[..n] + [tops[n]];
      assert (set c | c in tops) == (set c | c in tops[..n]) + {tops[n]};
      FamiliesGrow(running, (set c | c in tops[..n]), tops[n]);
    }
  }

  lemma CancellingTwice(items: map<string, Ref>, a: set<string>, b: set<string>)
    ensures Cancelling(Cancelling(items, a), b) == Cancelling(items, a + b)
  {
  }

  lemma FamiliesGrow(running: Parents, done: set<string>, c: string)
    ensures Families(running, done + {c}) == Families(running, done) + Family(running, c)
  {
  }
}
