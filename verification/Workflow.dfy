/** A workflow from its definition to its end: normalize the nodes, then run them. */
module Workflow {
  import opened WorkflowNode
  import opened GreedyOrder
  import TopologicalSort
  import opened PhaseLoop
  import opened PhaseLoopOrder
  import opened PhaseLoopRuns
  import opened PhaseLoopRunner
  import opened PhaseLoopSmooth
  import opened PhaseLoopExact
  import opened PhaseLoopTotal

  /** The node list a definition stands for: its sorted nodes, or its legacy phases as they are. */
  ghost function Normalized(nodes: seq<Node>, phases: seq<Node>): seq<Node> {
    if nodes != [] then SortSpec(nodes) else phases
  }

  method NormalizeWorkflow(nodes: seq<Node>, phases: seq<Node>) returns (all: seq<Node>)
    ensures UniqueIds(nodes) ==> all == Normalized(nodes, phases)
  {
    if nodes != [] {
      all := TopologicalSort.Sort(nodes);
    } else {
      all := phases;
    }
  }

  /** A fresh run of a whole definition ends where the transition system ends on the normalized nodes. */
  method RunWorkflow(nodes: seq<Node>, phases: seq<Node>, env: Env) returns (run: PhaseLoopRun)
    requires UniqueIds(nodes)
    ensures
      var all := Normalized(nodes, phases);
      run.View() == Run(FreshSetup(all), env, 0, FreshState(all))
  {
    var all := NormalizeWorkflow(nodes, phases);
    run := new PhaseLoopRun.Fresh(all, env);
    run.Execute();
  }

  /** Every dependency names some phase or orchestration node of the definition. */
  ghost predicate DepsNamed(nodes: seq<Node>) {
    forall i, d :: 0 <= i < |nodes| && d in nodes[i].dependsOn ==>
      exists j :: 0 <= j < |nodes| && nodes[j].id == d && !nodes[j].kind.Trigger?
  }

  lemma PickedEverywhere(nodes: seq<Node>, order: seq<nat>, j: nat) returns (m: nat)
    requires |order| == |nodes| && Distinct(order) && j < |nodes|
    requires forall m :: 0 <= m < |order| ==> order[m] < |nodes|
    ensures m < |order| && order[m] == j && Pick(nodes, order)[m] == nodes[j]
  {
    Pigeonhole(order, |nodes|);
    m := Position(order, j);
  }

  lemma RearrangedIsOrderly(nodes: seq<Node>, sorted: seq<Node>)
    requires UniqueIds(nodes) && DepsNamed(nodes) && Rearranged(nodes, sorted) && DepsFirst(sorted)
    ensures Orderly(sorted)
  {
    var order := OrderOf(nodes, sorted);
    RearrangedIsUnique(nodes, sorted);
    forall i, d | 0 <= i < |sorted| && d in sorted[i].dependsOn
      ensures exists j :: 0 <= j < i && sorted[j].id == d && !sorted[j].kind.Trigger?
    {
      assert sorted[i] == nodes[order[i]];
      var k :| 0 <= k < |nodes| && nodes[k].id == d && !nodes[k].kind.Trigger?;
      var j := PickedEverywhere(nodes, order, k);
      assert Edge(sorted, j, i);
    }
  }

  lemma RearrangedIsUnique(nodes: seq<Node>, sorted: seq<Node>)
    requires UniqueIds(nodes) && Rearranged(nodes, sorted)
    ensures UniqueIds(sorted)
  {
    var order := OrderOf(nodes, sorted);
    forall i, j | 0 <= i < j < |sorted|
      ensures sorted[i].id != sorted[j].id
    {
      assert order[i] != order[j] && sorted[i] == nodes[order[i]] && sorted[j] == nodes[order[j]];
    }
  }

  /** Sorting an acyclic definition gives nodes in dependency order. */
  lemma SortedIsOrderly(nodes: seq<Node>)
    requires UniqueIds(nodes) && !Cyclic(nodes) && DepsNamed(nodes)
    ensures Orderly(SortSpec(nodes))
  {
    SortOrders(nodes);
    RearrangedIsOrderly(nodes, SortSpec(nodes));
  }

  /** The positions the sorted nodes came from. */
  lemma SortedOrder(nodes: seq<Node>) returns (order: seq<nat>)
    ensures |order| == |nodes| == |SortSpec(nodes)| && Distinct(order)
    ensures forall m :: 0 <= m < |order| ==> order[m] < |nodes| && SortSpec(nodes)[m] == nodes[order[m]]
    ensures SortSpec(nodes) == Pick(nodes, order)
  {
    SortOrders(nodes);
    order := OrderOf(nodes, SortSpec(nodes));
  }

  lemma OrderOf(nodes: seq<Node>, sorted: seq<Node>) returns (order: seq<nat>)
    requires Rearranged(nodes, sorted)
    ensures |order| == |nodes| == |sorted| && Distinct(order)
    ensures forall m :: 0 <= m < |order| ==> order[m] < |nodes| && sorted[m] == nodes[order[m]]
    ensures sorted == Pick(nodes, order)
  {
    order :| |order| == |nodes| && Distinct(order)
      && (forall m :: 0 <= m < |order| ==> order[m] < |nodes|) && sorted == Pick(nodes, order);
  }

  /** Every node stands somewhere in the sorted list. */
  lemma FoundInSorted(nodes: seq<Node>, i: nat) returns (m: nat)
    requires i < |nodes|
    ensures m < |SortSpec(nodes)| && SortSpec(nodes)[m] == nodes[i]
  {
    var order := SortedOrder(nodes);
    m := PickedEverywhere(nodes, order, i);
  }

  lemma OrderlyMeansDepsFirst(nodes: seq<Node>)
    requires Orderly(nodes)
    ensures DepsFirst(nodes)
  {
    forall i: nat, j: nat | Edge(nodes, i, j)
      ensures i < j
    {
      var k :| 0 <= k < j && nodes[k].id == nodes[i].id;
      assert k == i;
    }
  }

  lemma OrderlyMeansNamed(nodes: seq<Node>)
    requires Orderly(SortSpec(nodes))
    ensures DepsNamed(nodes)
  {
    var sorted := SortSpec(nodes);
    forall i, d | 0 <= i < |nodes| && d in nodes[i].dependsOn
      ensures exists j :: 0 <= j < |nodes| && nodes[j].id == d && !nodes[j].kind.Trigger?
    {
      var m := FoundInSorted(nodes, i);
      var k :| 0 <= k < m && sorted[k].id == d && !sorted[k].kind.Trigger?;
      var j := SortedFrom(nodes, k);
    }
  }

  /** Every node of the sorted list is one of the definition's. */
  lemma SortedFrom(nodes: seq<Node>, m: nat) returns (i: nat)
    requires m < |SortSpec(nodes)|
    ensures i < |nodes| && nodes[i] == SortSpec(nodes)[m]
  {
    var order := SortedOrder(nodes);
    i := order[m];
  }

  /** Sorting puts a definition in dependency order exactly when it is acyclic and all its dependencies are named. */
  lemma SortedIsOrderlyIff(nodes: seq<Node>)
    requires UniqueIds(nodes)
    ensures Orderly(SortSpec(nodes)) <==> !Cyclic(nodes) && DepsNamed(nodes)
  {
    if !Cyclic(nodes) && DepsNamed(nodes) {
      SortedIsOrderly(nodes);
    }
    if Orderly(SortSpec(nodes)) {
      SortOrders(nodes);
      OrderlyMeansDepsFirst(SortSpec(nodes));
      OrderlyMeansNamed(nodes);
    }
  }

  lemma SortedFreeTriggers(nodes: seq<Node>)
    requires FreeTriggers(nodes)
    ensures FreeTriggers(SortSpec(nodes))
  {
    forall m | 0 <= m < |SortSpec(nodes)| && SortSpec(nodes)[m].kind.Trigger?
      ensures SortSpec(nodes)[m].dependsOn == []
    {
      var i := SortedFrom(nodes, m);
    }
  }

  lemma SortedRunnable(nodes: seq<Node>)
    requires Runnable(nodes)
    ensures Runnable(SortSpec(nodes))
  {
    forall m | 0 <= m < |SortSpec(nodes)| && SortSpec(nodes)[m].kind.Phase?
      ensures RunnablePhase(SortSpec(nodes)[m].kind.def)
    {
      var i := SortedFrom(nodes, m);
    }
  }

  /** A definition can be trusted to leave no node behind in any run that ends completed, whatever agents, critics
      and handlers answer, exactly when it is acyclic, its dependencies all name phases or orchestration nodes, its
      gates jump back only, and no retry can leave an earlier record open. */
  lemma WorkflowTotalIff(nodes: seq<Node>)
    requires UniqueIds(nodes) && FreeTriggers(nodes) && Runnable(nodes)
    ensures
      var all := SortSpec(nodes);
      AlwaysTotal(all) <==> !Cyclic(nodes) && DepsNamed(nodes) && JumpsBack(all) && NeverReopens(all)
  {
    SortedIsOrderlyIff(nodes);
    SortOrders(nodes);
    RearrangedIsUnique(nodes, SortSpec(nodes));
    SortedFreeTriggers(nodes);
    SortedRunnable(nodes);
    AlwaysTotalIff(SortSpec(nodes));
  }

  /** The half of it that asks nothing of phases and triggers. */
  lemma WorkflowCompletionIsTotal(nodes: seq<Node>, env: Env)
    requires UniqueIds(nodes) && !Cyclic(nodes) && DepsNamed(nodes)
    requires JumpsBack(SortSpec(nodes)) && NeverReopens(SortSpec(nodes))
    ensures TotalRun(SortSpec(nodes), env)
  {
    SortedIsOrderly(nodes);
    FreshCompletionIsTotal(SortSpec(nodes), env);
  }

  /** For a definition without branches, jumping gates and handlers that rewrite records, every single run that ends
      completed has completed every node exactly when the definition is acyclic and its dependencies all name phases or
      orchestration nodes. */
  lemma WorkflowCompletesIff(nodes: seq<Node>, env: Env)
    requires UniqueIds(nodes) && FreeTriggers(nodes)
    requires NoBranches(SortSpec(nodes)) && NoJumps(SortSpec(nodes)) && Aloof(SortSpec(nodes))
    ensures
      var all := SortSpec(nodes);
      var final := Run(FreshSetup(all), env, 0, FreshState(all));
      final.status == Succeeded ==>
        ((forall i :: 0 <= i < |all| ==> Settled(FreshSetup(all), final, i)) <==> !Cyclic(nodes) && DepsNamed(nodes))
  {
    SortedIsOrderlyIff(nodes);
    SortOrders(nodes);
    RearrangedIsUnique(nodes, SortSpec(nodes));
    SortedFreeTriggers(nodes);
    CompletionIsTotalIffOrderly(SortSpec(nodes), env);
  }
}
