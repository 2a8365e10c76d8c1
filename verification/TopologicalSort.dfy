/** Kahn's algorithm as the workflow normalizer runs it, proved to compute the greedy order. */
module TopologicalSort {
  import opened WorkflowNode
  import opened GreedyOrder

  // ---- Kahn's algorithm ----

  function Mult(s: seq<string>, x: string): nat {
    multiset(s)[x]
  }

  lemma MultAppend(s: seq<string>, y: string)
    ensures forall x :: Mult(s + [y], x) == Mult(s, x) + if x == y then 1 else 0
  {
  }

  lemma MultTake(s: seq<string>, k: nat)
    requires k < |s|
    ensures forall x :: Mult(s[..k + 1], x) == Mult(s[..k], x) + if x == s[k] then 1 else 0
  {
    assert s[..k + 1] == s[..k] + [s[k]];
    MultAppend(s[..k], s[k]);
  }

  ghost predicate NoRepeat(s: seq<string>) {
    forall a, b :: 0 <= a < b < |s| ==> s[a] != s[b]
  }

  /** How many entries of `deps` name a known node outside `done`. */
  ghost function Open(nodes: seq<Node>, deps: seq<string>, done: set<string>): nat {
    if deps == [] then 0 else
      var last := deps[|deps| - 1];
      Open(nodes, deps[..|deps| - 1], done) + if Known(nodes, last) && last !in done then 1 else 0
  }

  lemma {:induction false} OpenZero(nodes: seq<Node>, deps: seq<string>, done: set<string>)
    ensures Open(nodes, deps, done) == 0 <==> forall d :: d in deps && Known(nodes, d) ==> d in done
  {
    if deps != [] {
      var last := |deps| - 1;
      OpenZero(nodes, deps[..last], done);
      assert deps == deps[..last] + [deps[last]];
    }
  }

  lemma {:induction false} OpenPlace(nodes: seq<Node>, deps: seq<string>, done: set<string>, id: string)
    requires Known(nodes, id) && id !in done
    ensures Open(nodes, deps, done) == Open(nodes, deps, done + {id}) + Mult(deps, id)
  {
    if deps != [] {
      var last := |deps| - 1;
      OpenPlace(nodes, deps[..last], done, id);
      assert deps == deps[..last] + [deps[last]];
    }
  }

  ghost function Ids(nodes: seq<Node>, done: set<nat>): set<string> {
    set i | i in done && i < |nodes| :: nodes[i].id
  }

  lemma ReadyIffNoneOpen(nodes: seq<Node>, done: set<nat>, i: nat)
    requires UniqueIds(nodes) && i < |nodes|
    ensures Ready(nodes, done, i) <==> i !in done && Open(nodes, nodes[i].dependsOn, Ids(nodes, done)) == 0
  {
    OpenZero(nodes, nodes[i].dependsOn, Ids(nodes, done));
    forall j: nat | j < |nodes|
      ensures nodes[j].id in Ids(nodes, done) <==> j in done
    {
    }
    if Ready(nodes, done, i) {
      forall d | d in nodes[i].dependsOn && Known(nodes, d)
        ensures d in Ids(nodes, done)
      {
        var j: nat :| j < |nodes| && nodes[j].id == d;
        assert Edge(nodes, j, i);
      }
    } else if i !in done {
      var j: nat :| Edge(nodes, j, i) && j !in done;
      assert Known(nodes, nodes[j].id);
    }
  }

  function Insert(queue: seq<string>, id: string, position: map<string, nat>): (r: seq<string>)
    requires id in position && forall x :: x in queue ==> x in position
    ensures multiset(r) == multiset(queue) + multiset{id} && |r| == |queue| + 1
    ensures r != [] && (r[0] == id || (queue != [] && r[0] == queue[0]))
    ensures r[0] in position && position[r[0]] <= position[id]
    ensures queue != [] ==> position[r[0]] <= position[queue[0]]
  {
    if queue == [] || position[id] < position[queue[0]] then [id] + queue
    else
      assert queue == [queue[0]] + queue[1..];
      [queue[0]] + Insert(queue[1..], id, position)
  }

  /** The queue in order of original position, as the source's `queue.sort` leaves it. */
  function ByPosition(queue: seq<string>, position: map<string, nat>): (r: seq<string>)
    requires forall x :: x in queue ==> x in position
    ensures multiset(r) == multiset(queue) && |r| == |queue|
    ensures forall x :: x in r <==> x in queue
    ensures forall x :: x in queue ==> r != [] && position[r[0]] <= position[x]
  {
    if queue == [] then [] else
      assert queue == [queue[0]] + queue[1..];
      var rest := ByPosition(queue[1..], position);
      assert forall x :: x in rest ==> x in position;
      var r := Insert(rest, queue[0], position);
      assert forall x :: x in r <==> x in multiset(r);
      r
  }

  /** The index of the last node carrying each id, as successive `Map.set` calls leave it. */
  method IndexById(nodes: seq<Node>) returns (position: map<string, nat>)
    ensures forall id :: id in position <==> Known(nodes, id)
    ensures forall id :: id in position ==> position[id] < |nodes| && nodes[position[id]].id == id
  {
    position := map[];
    for i := 0 to |nodes|
      invariant forall id :: id in position <==> exists j :: 0 <= j < i && nodes[j].id == id
      invariant forall id :: id in position ==> position[id] < i && nodes[position[id]].id == id
    {
      position := position[nodes[i].id := i];
    }
  }

  /** The lists after the first `k` entries of the node's dependencies. */
  ghost predicate Listed(dependents0: map<string, seq<string>>, dependents: map<string, seq<string>>,
                         deps: seq<string>, k: nat, id: string)
    requires k <= |deps|
  {
    && dependents.Keys == dependents0.Keys
    && (forall d, x :: d in dependents ==>
          Mult(dependents[d], x) == Mult(dependents0[d], x) + if x == id then Mult(deps[..k], d) else 0)
    && (forall d, x :: d in dependents && x in dependents[d] ==> x == id || x in dependents0[d])
  }

  lemma DependentAdded(dependents0: map<string, seq<string>>, dependents: map<string, seq<string>>,
                       deps: seq<string>, k: nat, id: string)
    requires k < |deps| && Listed(dependents0, dependents, deps, k, id)
    ensures
      if deps[k] in dependents then
        Listed(dependents0, dependents[deps[k] := dependents[deps[k]] + [id]], deps, k + 1, id)
      else Listed(dependents0, dependents, deps, k + 1, id)
  {
    MultTake(deps, k);
    if deps[k] in dependents {
      MultAppend(dependents[deps[k]], id);
    }
  }

  /** Counts the known entries of one node's dependency list and adds the node to their dependents. */
  method CountNode(ghost nodes: seq<Node>, position: map<string, nat>, id: string, deps: seq<string>,
                   inDegree0: map<string, int>, dependents0: map<string, seq<string>>)
    returns (inDegree: map<string, int>, dependents: map<string, seq<string>>)
    requires forall x :: x in position <==> Known(nodes, x)
    requires inDegree0.Keys == dependents0.Keys == position.Keys && id in position
    ensures dependents.Keys == dependents0.Keys
    ensures inDegree == inDegree0[id := inDegree0[id] + Open(nodes, deps, {})]
    ensures forall d, x :: d in dependents ==>
      Mult(dependents[d], x) == Mult(dependents0[d], x) + if x == id then Mult(deps, d) else 0
    ensures forall d, x :: d in dependents && x in dependents[d] ==> x == id || x in dependents0[d]
  {
    inDegree, dependents := inDegree0, dependents0;
    assert deps[..0] == [] && forall d :: Mult([], d) == 0;
    for k := 0 to |deps|
      invariant inDegree == inDegree0[id := inDegree0[id] + Open(nodes, deps[..k], {})]
      invariant Listed(dependents0, dependents, deps, k, id)
    {
      assert deps[..k + 1][..k] == deps[..k];
      DependentAdded(dependents0, dependents, deps, k, id);
      if deps[k] in position {
        inDegree := inDegree[id := inDegree[id] + 1];
        dependents := dependents[deps[k] := dependents[deps[k]] + [id]];
      }
    }
    assert deps[..|deps|] == deps;
  }

  /** The counts and dependent lists for node `j` after the first `n` nodes have been looked at. */
  ghost predicate Counted(nodes: seq<Node>, n: nat, j: nat, inDegree: map<string, int>,
                          dependents: map<string, seq<string>>)
    requires j < |nodes|
  {
    && nodes[j].id in inDegree
    && inDegree[nodes[j].id] == (if j < n then Open(nodes, nodes[j].dependsOn, {}) else 0)
    && forall d :: d in dependents ==>
         Mult(dependents[d], nodes[j].id) == if j < n then Mult(nodes[j].dependsOn, d) else 0
  }

  ghost predicate AllCounted(nodes: seq<Node>, n: nat, inDegree: map<string, int>,
                             dependents: map<string, seq<string>>) {
    forall j :: 0 <= j < |nodes| ==> Counted(nodes, n, j, inDegree, dependents)
  }

  lemma CountedStep(nodes: seq<Node>, i: nat, n: nat, inDegree0: map<string, int>,
                    dependents0: map<string, seq<string>>,
                    inDegree: map<string, int>, dependents: map<string, seq<string>>)
    requires UniqueIds(nodes) && i < |nodes| && n == i + 1
    requires AllCounted(nodes, i, inDegree0, dependents0) && nodes[i].id in inDegree0
    requires inDegree == inDegree0[nodes[i].id := inDegree0[nodes[i].id] + Open(nodes, nodes[i].dependsOn, {})]
    requires dependents.Keys == dependents0.Keys
    requires forall d, x :: d in dependents ==>
      Mult(dependents[d], x) == Mult(dependents0[d], x) + if x == nodes[i].id then Mult(nodes[i].dependsOn, d) else 0
    ensures AllCounted(nodes, n, inDegree, dependents)
  {
    forall j | 0 <= j < |nodes|
      ensures Counted(nodes, n, j, inDegree, dependents)
    {
      assert Counted(nodes, i, j, inDegree0, dependents0);
      assert j != i ==> nodes[j].id != nodes[i].id;
    }
  }

  method ZeroCounts(nodes: seq<Node>) returns (inDegree: map<string, int>, dependents: map<string, seq<string>>)
    ensures inDegree.Keys == dependents.Keys
    ensures forall id :: id in inDegree <==> Known(nodes, id)
    ensures forall d :: d in dependents ==> dependents[d] == []
    ensures AllCounted(nodes, 0, inDegree, dependents)
  {
    inDegree, dependents := map[], map[];
    for i := 0 to |nodes|
      invariant inDegree.Keys == dependents.Keys
      invariant forall id :: id in inDegree <==> exists j :: 0 <= j < i && nodes[j].id == id
      invariant forall id :: id in inDegree ==> inDegree[id] == 0 && dependents[id] == []
    {
      inDegree := inDegree[nodes[i].id := 0];
      dependents := dependents[nodes[i].id := []];
    }
  }

  /** The counts and lists after the first `n` nodes. */
  ghost predicate CountedUpTo(nodes: seq<Node>, position: map<string, nat>, n: nat, inDegree: map<string, int>,
                              dependents: map<string, seq<string>>) {
    && inDegree.Keys == position.Keys && dependents.Keys == position.Keys
    && (forall d, x :: d in dependents && x in dependents[d] ==> x in position)
    && (UniqueIds(nodes) ==> AllCounted(nodes, n, inDegree, dependents))
  }

  method CountNext(nodes: seq<Node>, position: map<string, nat>, i: nat, inDegree0: map<string, int>,
                   dependents0: map<string, seq<string>>)
    returns (inDegree: map<string, int>, dependents: map<string, seq<string>>)
    requires forall id :: id in position <==> Known(nodes, id)
    requires i < |nodes| && CountedUpTo(nodes, position, i, inDegree0, dependents0)
    ensures CountedUpTo(nodes, position, i + 1, inDegree, dependents)
  {
    assert Known(nodes, nodes[i].id);
    inDegree, dependents := CountNode(nodes, position, nodes[i].id, nodes[i].dependsOn, inDegree0, dependents0);
    if UniqueIds(nodes) {
      CountedStep(nodes, i, i + 1, inDegree0, dependents0, inDegree, dependents);
    }
  }

  lemma SameIds(nodes: seq<Node>, position: map<string, nat>, inDegree: map<string, int>)
    requires forall id :: id in position <==> Known(nodes, id)
    requires forall id :: id in inDegree <==> Known(nodes, id)
    ensures inDegree.Keys == position.Keys
  {
  }

  lemma EmptyLists(dependents: map<string, seq<string>>, position: map<string, nat>)
    requires forall d :: d in dependents ==> dependents[d] == []
    ensures forall d, x :: d in dependents && x in dependents[d] ==> x in position
  {
  }

  /** Counts each node's known dependencies and lists each node's dependents. */
  method CountDependencies(nodes: seq<Node>, position: map<string, nat>)
    returns (inDegree: map<string, int>, dependents: map<string, seq<string>>)
    requires forall id :: id in position <==> Known(nodes, id)
    ensures inDegree.Keys == position.Keys && dependents.Keys == position.Keys
    ensures forall d, x :: d in dependents && x in dependents[d] ==> x in position
    ensures UniqueIds(nodes) ==> AllCounted(nodes, |nodes|, inDegree, dependents)
  {
    inDegree, dependents := ZeroCounts(nodes);
    SameIds(nodes, position, inDegree);
    EmptyLists(dependents, position);
    for i := 0 to |nodes|
      invariant CountedUpTo(nodes, position, i, inDegree, dependents)
    {
      inDegree, dependents := CountNext(nodes, position, i, inDegree, dependents);
    }
  }

  function Pending(inDegree: map<string, int>): set<string> {
    set id | id in inDegree && inDegree[id] > 0
  }

  /** Takes one dependency off every listed node, once per listing, and queues a node when its count reaches zero. */
  method Release(targets: seq<string>, inDegree0: map<string, int>, queue0: seq<string>)
    returns (inDegree: map<string, int>, queue: seq<string>, ghost released: seq<string>)
    requires forall x :: x in targets ==> x in inDegree0
    ensures inDegree.Keys == inDegree0.Keys
    ensures forall x :: x in inDegree ==> inDegree[x] == inDegree0[x] - Mult(targets, x)
    ensures queue == queue0 + released && NoRepeat(released)
    ensures forall x :: x in released <==> x in inDegree && inDegree[x] <= 0 < inDegree0[x]
    ensures |queue| + |Pending(inDegree)| == |queue0| + |Pending(inDegree0)|
  {
    inDegree, queue, released := inDegree0, queue0, [];
    for k := 0 to |targets|
      invariant inDegree.Keys == inDegree0.Keys
      invariant forall x :: x in inDegree ==> inDegree[x] == inDegree0[x] - Mult(targets[..k], x)
      invariant queue == queue0 + released && NoRepeat(released)
      invariant forall x :: x in released <==> x in inDegree && inDegree[x] <= 0 < inDegree0[x]
      invariant |queue| + |Pending(inDegree)| == |queue0| + |Pending(inDegree0)|
    {
      MultTake(targets, k);
      var deg := inDegree[targets[k]] - 1;
      ghost var before := Pending(inDegree);
      inDegree := inDegree[targets[k] := deg];
      assert Pending(inDegree) == if deg <= 0 then before - {targets[k]} else before;
      if deg == 0 {
        queue := queue + [targets[k]];
        released := released + [targets[k]];
      }
    }
    assert targets[..|targets|] == targets;
  }

  /** The count of node `j` is its open dependencies, and it is queued exactly when it is ready. */
  ghost predicate Tracked(nodes: seq<Node>, done: set<nat>, inDegree: map<string, int>, queue: seq<string>, j: nat)
    requires j < |nodes|
  {
    && nodes[j].id in inDegree
    && inDegree[nodes[j].id] == Open(nodes, nodes[j].dependsOn, Ids(nodes, done))
    && (nodes[j].id in queue <==> Ready(nodes, done, j))
  }

  /** What holds between two rounds of the sort, for nodes with unique ids. */
  ghost predicate RoundOk(nodes: seq<Node>, order: seq<nat>, inDegree: map<string, int>, queue: seq<string>) {
    && order == Greedy(nodes, |order|)
    && NoRepeat(queue)
    && forall j :: 0 <= j < |nodes| ==> Tracked(nodes, Elems(order), inDegree, queue, j)
  }

  lemma PlacedHasNoneOpen(nodes: seq<Node>, order: seq<nat>, j: nat)
    requires UniqueIds(nodes) && order == Greedy(nodes, |order|) && j < |nodes| && j in Elems(order)
    ensures Open(nodes, nodes[j].dependsOn, Ids(nodes, Elems(order))) == 0
  {
    GreedyRespects(nodes, |order|);
    var m :| 0 <= m < |order| && order[m] == j;
    ReadyIffNoneOpen(nodes, Elems(order[..m]), j);
    OpenZero(nodes, nodes[j].dependsOn, Ids(nodes, Elems(order[..m])));
    OpenZero(nodes, nodes[j].dependsOn, Ids(nodes, Elems(order)));
    assert Elems(order[..m]) <= Elems(order);
  }

  lemma IdsStep(nodes: seq<Node>, done: set<nat>, i: nat)
    requires UniqueIds(nodes) && i < |nodes| && i !in done
    ensures nodes[i].id !in Ids(nodes, done)
    ensures Ids(nodes, done + {i}) == Ids(nodes, done) + {nodes[i].id}
  {
  }

  lemma TrackedStep(nodes: seq<Node>, done: set<nat>, inDegree0: map<string, int>, inDegree: map<string, int>,
                    queue: seq<string>, next: seq<string>, i: nat, j: nat)
    requires UniqueIds(nodes) && i < |nodes| && j < |nodes| && i !in done
    requires j in done ==> Open(nodes, nodes[j].dependsOn, Ids(nodes, done)) == 0
    requires Tracked(nodes, done, inDegree0, queue, j)
    requires nodes[j].id in inDegree
    requires inDegree[nodes[j].id] == inDegree0[nodes[j].id] - Mult(nodes[j].dependsOn, nodes[i].id)
    requires nodes[j].id in next <==>
      (nodes[j].id in queue && j != i) || inDegree[nodes[j].id] <= 0 < inDegree0[nodes[j].id]
    requires Ready(nodes, done, i)
    ensures Tracked(nodes, done + {i}, inDegree, next, j)
  {
    var id := nodes[i].id;
    IdsStep(nodes, done, i);
    assert Known(nodes, id);
    OpenPlace(nodes, nodes[j].dependsOn, Ids(nodes, done), id);
    ReadyIffNoneOpen(nodes, done, i);
    ReadyIffNoneOpen(nodes, done, j);
    ReadyIffNoneOpen(nodes, done + {i}, j);
  }

  lemma TailMembers(nodes: seq<Node>, queue: seq<string>, i: nat, j: nat)
    requires UniqueIds(nodes) && NoRepeat(queue) && queue != []
    requires i < |nodes| && j < |nodes| && nodes[i].id == queue[0]
    ensures nodes[j].id in queue[1..] <==> nodes[j].id in queue && j != i
  {
    assert queue == [queue[0]] + queue[1..];
    assert forall k :: 0 <= k < |queue[1..]| ==> queue[1..][k] == queue[k + 1];
  }

  /** Placing the first queued node, by original position, and releasing its dependents is one greedy choice. */
  lemma RoundStep(nodes: seq<Node>, order: seq<nat>, inDegree0: map<string, int>, inDegree: map<string, int>,
                  queue: seq<string>, released: seq<string>, i: nat)
    requires UniqueIds(nodes) && RoundOk(nodes, order, inDegree0, queue)
    requires queue != [] && i < |nodes| && nodes[i].id == queue[0]
    requires forall x :: x in queue ==> Known(nodes, x)
    requires forall j :: 0 <= j < |nodes| && nodes[j].id in queue ==> i <= j
    requires inDegree.Keys == inDegree0.Keys && NoRepeat(released)
    requires forall j :: 0 <= j < |nodes| ==>
      && nodes[j].id in inDegree
      && inDegree[nodes[j].id] == inDegree0[nodes[j].id] - Mult(nodes[j].dependsOn, nodes[i].id)
    requires forall x :: x in released <==> x in inDegree && inDegree[x] <= 0 < inDegree0[x]
    ensures RoundOk(nodes, order + [i], inDegree, queue[1..] + released)
  {
    var done := Elems(order);
    assert Elems(order + [i]) == done + {i};
    assert Tracked(nodes, done, inDegree0, queue, i);
    forall j | 0 <= j < |nodes|
      ensures Tracked(nodes, done + {i}, inDegree, queue[1..] + released, j)
    {
      assert Tracked(nodes, done, inDegree0, queue, j);
      if j in done {
        PlacedHasNoneOpen(nodes, order, j);
      }
      TailMembers(nodes, queue, i, j);
      TrackedStep(nodes, done, inDegree0, inDegree, queue, queue[1..] + released, i, j);
    }
    EarliestReady(nodes, done, inDegree0, queue, i);
    ReleasedAreNew(nodes, done, inDegree0, inDegree, queue, released);
  }

  lemma EarliestReady(nodes: seq<Node>, done: set<nat>, inDegree: map<string, int>, queue: seq<string>, i: nat)
    requires i < |nodes| && nodes[i].id in queue
    requires forall j :: 0 <= j < |nodes| ==> Tracked(nodes, done, inDegree, queue, j)
    requires forall j :: 0 <= j < |nodes| && nodes[j].id in queue ==> i <= j
    ensures FirstReady(nodes, done, 0) == i
  {
    assert Tracked(nodes, done, inDegree, queue, i);
    forall j: nat | j < i
      ensures !Ready(nodes, done, j)
    {
      assert Tracked(nodes, done, inDegree, queue, j);
    }
  }

  lemma ReleasedAreNew(nodes: seq<Node>, done: set<nat>, inDegree0: map<string, int>, inDegree: map<string, int>,
                       queue: seq<string>, released: seq<string>)
    requires UniqueIds(nodes) && NoRepeat(queue) && NoRepeat(released) && queue != []
    requires forall x :: x in queue ==> Known(nodes, x)
    requires forall j :: 0 <= j < |nodes| ==> Tracked(nodes, done, inDegree0, queue, j)
    requires forall x :: x in released ==> x in inDegree0 && 0 < inDegree0[x]
    ensures NoRepeat(queue[1..] + released)
  {
    forall x | x in released
      ensures x !in queue
    {
      if x in queue {
        var j: nat :| j < |nodes| && nodes[j].id == x;
        assert Tracked(nodes, done, inDegree0, queue, j);
        ReadyIffNoneOpen(nodes, done, j);
      }
    }
    var rest := queue[1..];
    forall a, b | 0 <= a < b < |rest + released|
      ensures (rest + released)[a] != (rest + released)[b]
    {
      if b < |rest| {
        assert queue[a + 1] != queue[b + 1];
      } else if a < |rest| {
        assert released[b - |rest|] in released && queue[a + 1] in queue;
      }
    }
  }

  lemma {:induction false} GreedyStays(nodes: seq<Node>, k: nat, m: nat)
    requires m <= k && |Greedy(nodes, m)| == m && FirstReady(nodes, Elems(Greedy(nodes, m)), 0) == |nodes|
    ensures Greedy(nodes, k) == Greedy(nodes, m)
  {
    if m < k {
      GreedyStays(nodes, k - 1, m);
    }
  }

  lemma FirstRound(nodes: seq<Node>, inDegree: map<string, int>, dependents: map<string, seq<string>>,
                   queue: seq<string>)
    requires UniqueIds(nodes) && NoRepeat(queue)
    requires AllCounted(nodes, |nodes|, inDegree, dependents)
    requires forall j :: 0 <= j < |nodes| ==>
      nodes[j].id in inDegree && (nodes[j].id in queue <==> inDegree[nodes[j].id] == 0)
    ensures RoundOk(nodes, [], inDegree, queue)
  {
    forall j | 0 <= j < |nodes|
      ensures Tracked(nodes, Elems([]), inDegree, queue, j)
    {
      assert Counted(nodes, |nodes|, j, inDegree, dependents);
      assert Ids(nodes, Elems([])) == {};
      ReadyIffNoneOpen(nodes, Elems([]), j);
    }
  }

  /** The nodes that depend on nothing known, in their original order. */
  method Roots(nodes: seq<Node>, inDegree: map<string, int>) returns (queue: seq<string>)
    requires forall i :: 0 <= i < |nodes| ==> nodes[i].id in inDegree
    ensures forall x :: x in queue ==> Known(nodes, x)
    ensures UniqueIds(nodes) ==> NoRepeat(queue)
    ensures forall j :: 0 <= j < |nodes| ==> (nodes[j].id in queue <==> inDegree[nodes[j].id] == 0)
  {
    queue := [];
    for i := 0 to |nodes|
      invariant forall x :: x in queue ==> exists j :: 0 <= j < i && nodes[j].id == x
      invariant UniqueIds(nodes) ==> NoRepeat(queue)
      invariant forall j :: 0 <= j < i ==> (nodes[j].id in queue <==> inDegree[nodes[j].id] == 0)
      invariant forall x :: x in queue ==> x in inDegree && inDegree[x] == 0
    {
      assert UniqueIds(nodes) ==> nodes[i].id !in queue;
      if inDegree[nodes[i].id] == 0 {
        queue := queue + [nodes[i].id];
      }
    }
  }

  lemma FinishedIsSpec(nodes: seq<Node>, order: seq<nat>, inDegree: map<string, int>)
    requires UniqueIds(nodes) && RoundOk(nodes, order, inDegree, [])
    ensures |order| <= |nodes|
    ensures SortSpec(nodes) == if |order| < |nodes| then nodes else Pick(nodes, order)
  {
    GreedyRespects(nodes, |order|);
    Pigeonhole(order, |nodes|);
    forall j | 0 <= j < |nodes|
      ensures !Ready(nodes, Elems(order), j)
    {
      assert Tracked(nodes, Elems(order), inDegree, [], j);
    }
    GreedyStays(nodes, |nodes|, |order|);
  }

  lemma {:induction false} NoRepeatCounts(s: seq<string>)
    requires NoRepeat(s)
    ensures forall x :: multiset(s)[x] <= 1
  {
    if s != [] {
      var last := |s| - 1;
      NoRepeatCounts(s[..last]);
      assert s == s[..last] + [s[last]];
      assert s[last] !in s[..last];
    }
  }

  lemma CountsNoRepeat(s: seq<string>)
    requires forall x :: multiset(s)[x] <= 1
    ensures NoRepeat(s)
  {
    forall a, b | 0 <= a < b < |s|
      ensures s[a] != s[b]
    {
      assert s == s[..b] + [s[b]] + s[b + 1..];
      assert multiset(s) == multiset(s[..b]) + multiset{s[b]} + multiset(s[b + 1..]);
      assert s[..b][a] == s[a] && s[a] in multiset(s[..b]);
      assert multiset(s)[s[b]] <= 1;
    }
  }

  lemma SortedRoundOk(nodes: seq<Node>, order: seq<nat>, inDegree: map<string, int>, queue: seq<string>,
                      queue0: seq<string>)
    requires RoundOk(nodes, order, inDegree, queue) && multiset(queue0) == multiset(queue)
    ensures RoundOk(nodes, order, inDegree, queue0)
  {
    NoRepeatCounts(queue);
    CountsNoRepeat(queue0);
    forall j | 0 <= j < |nodes|
      ensures Tracked(nodes, Elems(order), inDegree, queue0, j)
    {
      assert Tracked(nodes, Elems(order), inDegree, queue, j);
      assert nodes[j].id in queue0 <==> nodes[j].id in multiset(queue0);
    }
  }

  lemma PositionsAreIndices(nodes: seq<Node>, position: map<string, nat>)
    requires UniqueIds(nodes) && forall id :: id in position <==> Known(nodes, id)
    requires forall id :: id in position ==> position[id] < |nodes| && nodes[position[id]].id == id
    ensures forall j :: 0 <= j < |nodes| ==> nodes[j].id in position && position[nodes[j].id] == j
  {
    forall j | 0 <= j < |nodes|
      ensures nodes[j].id in position && position[nodes[j].id] == j
    {
      assert Known(nodes, nodes[j].id);
    }
  }

  lemma PickAppend(nodes: seq<Node>, order: seq<nat>, i: nat)
    requires i < |nodes| && forall m :: 0 <= m < |order| ==> order[m] < |nodes|
    ensures Pick(nodes, order + [i]) == Pick(nodes, order) + [nodes[i]]
  {
  }

  lemma DependentsReleased(nodes: seq<Node>, i: nat, inDegree0: map<string, int>, inDegree: map<string, int>,
                           start: map<string, int>, dependents: map<string, seq<string>>)
    requires i < |nodes| && nodes[i].id in dependents
    requires AllCounted(nodes, |nodes|, start, dependents)
    requires inDegree.Keys == inDegree0.Keys == start.Keys
    requires forall x :: x in inDegree ==> inDegree[x] == inDegree0[x] - Mult(dependents[nodes[i].id], x)
    ensures forall j :: 0 <= j < |nodes| ==>
      && nodes[j].id in inDegree
      && inDegree[nodes[j].id] == inDegree0[nodes[j].id] - Mult(nodes[j].dependsOn, nodes[i].id)
  {
    forall j | 0 <= j < |nodes|
      ensures nodes[j].id in inDegree
      ensures inDegree[nodes[j].id] == inDegree0[nodes[j].id] - Mult(nodes[j].dependsOn, nodes[i].id)
    {
      assert Counted(nodes, |nodes|, j, start, dependents);
    }
  }

  /** One round of the loop: sort the queue, take its head, release the head's dependents. */
  lemma OneRound(nodes: seq<Node>, position: map<string, nat>, start: map<string, int>,
                 dependents: map<string, seq<string>>,
                 order: seq<nat>, inDegree0: map<string, int>, queue0: seq<string>,
                 inDegree: map<string, int>, queue: seq<string>, released: seq<string>)
    requires UniqueIds(nodes) && RoundOk(nodes, order, inDegree0, queue0) && queue0 != []
    requires forall j :: 0 <= j < |nodes| ==> nodes[j].id in position && position[nodes[j].id] == j
    requires forall x :: x in queue0 ==> Known(nodes, x) && x in position
    requires multiset(queue) == multiset(queue0) && queue != [] && queue[0] in queue0
    requires forall x :: x in queue0 ==> position[queue[0]] <= position[x]
    requires inDegree.Keys == inDegree0.Keys == start.Keys == dependents.Keys && NoRepeat(released)
    requires AllCounted(nodes, |nodes|, start, dependents) && queue[0] in dependents
    requires forall x :: x in inDegree ==> inDegree[x] == inDegree0[x] - Mult(dependents[queue[0]], x)
    requires forall x :: x in released <==> x in inDegree && inDegree[x] <= 0 < inDegree0[x]
    ensures RoundOk(nodes, order + [position[queue[0]]], inDegree, queue[1..] + released)
    ensures position[queue[0]] < |nodes|
    ensures Pick(nodes, order + [position[queue[0]]]) == Pick(nodes, order) + [nodes[position[queue[0]]]]
  {
    assert Known(nodes, queue[0]);
    var i := position[queue[0]];
    SortedRoundOk(nodes, order, inDegree0, queue0, queue);
    DependentsReleased(nodes, i, inDegree0, inDegree, start, dependents);
    forall x | x in queue
      ensures x in queue0
    {
      assert x in multiset(queue);
      assert x in multiset(queue0);
    }
    RoundStep(nodes, order, inDegree0, inDegree, queue, released, i);
    PickAppend(nodes, order, i);
  }

  method Sort(nodes: seq<Node>) returns (sorted: seq<Node>)
    ensures forall n :: n in sorted ==> n in nodes
    ensures UniqueIds(nodes) ==> sorted == SortSpec(nodes)
  {
    ghost var unique := UniqueIds(nodes);
    var position := IndexById(nodes);
    var inDegree, dependents := CountDependencies(nodes, position);
    assert forall i :: 0 <= i < |nodes| ==> Known(nodes, nodes[i].id);
    ghost var start := inDegree;
    var queue := Roots(nodes, inDegree);
    sorted := [];
    ghost var order: seq<nat> := [];
    if unique {
      FirstRound(nodes, inDegree, dependents, queue);
      PositionsAreIndices(nodes, position);
    }
    while queue != []
      invariant forall x :: x in queue ==> x in position
      invariant inDegree.Keys == position.Keys
      invariant forall n :: n in sorted ==> n in nodes
      invariant unique ==> RoundOk(nodes, order, inDegree, queue)
      invariant unique ==> sorted == Pick(nodes, order)
      decreases |queue| + |Pending(inDegree)|
    {
      ghost var inDegree0, queue0 := inDegree, queue;
      queue := ByPosition(queue, position);
      ghost var sortedQueue := queue;
      var id := queue[0];
      queue := queue[1..];
      sorted := sorted + [nodes[position[id]]];
      ghost var released;
      inDegree, queue, released := Release(dependents[id], inDegree, queue);
      if unique {
        OneRound(nodes, position, start, dependents, order, inDegree0, queue0, inDegree, sortedQueue, released);
      }
      order := order + [position[id]];
    }
    if unique {
      FinishedIsSpec(nodes, order, inDegree);
    }
    if |sorted| < |nodes| {
      sorted := nodes;
    }
  }
}
