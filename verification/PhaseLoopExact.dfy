/** What exactly it takes that a run which ends completed has left no node behind. */
module PhaseLoopExact {
  import opened WorkflowNode
  import opened PhaseLoop
  import opened PhaseLoopLog
  import opened PhaseLoopOrder
  import opened PhaseLoopRuns

  // ---- Runs that go through the list once ----

  /** No handler rewrites another node's record. */
  ghost predicate Aloof(nodes: seq<Node>) {
    forall i, id :: 0 <= i < |nodes| ==> id !in Reopens(nodes, i) && id !in Completes(nodes, i)
  }

  ghost predicate NoJumps(nodes: seq<Node>) {
    forall i :: 0 <= i < |nodes| && Gated(nodes, i) ==> !CriticAt(nodes, i).Jumps()
  }

  /** A step that skips nothing, rewrites no record of another node, and does not jump. */
  ghost predicate Calm(s: Setup, st: RunState, a: Answer)
    requires Valid(s, st) && !st.place.Ended?
  {
    && Step(s, st, a).skipped == {}
    && (st.place.AtNode? && st.idx < |s.nodes| ==> Effect(s.nodes, st.idx, a.orche.marks) == map[])
    && (st.place.InReview? ==> !JustJumped(Step(s, st, a)))
  }

  /** Every dependency of node `i` names an earlier phase or orchestration node. */
  ghost predicate DepsEarlier(nodes: seq<Node>, i: nat)
    requires i < |nodes|
  {
    forall d :: d in nodes[i].dependsOn ==> exists j :: 0 <= j < i && nodes[j].id == d && !nodes[j].kind.Trigger?
  }

  /** A calm step at a node changes whether a dependency is met only for that node's own id. */
  lemma NodeTouchesOnly(s: Setup, st: RunState, a: Answer, id: string)
    requires Valid(s, st) && st.place.AtNode? && Calm(s, st, a) && st.skipped == {}
    requires st.idx < |s.nodes| ==> id != s.nodes[st.idx].id
    ensures Met(StepNode(s, st, a), id) == Met(st, id)
  {
    var st' := StepNode(s, st, a);
    NodeFrame(s, st, a);
    ActedIsEffect(s, st, a);
    assert MarksFrom(st'.log, |st.log|) == map[];
    SameIndex(st.phases, st'.phases, id);
  }

  lemma UnmetIsPassed(s: Setup, st: RunState, a: Answer)
    requires st.place.AtNode? && st.idx < |s.nodes| && !AllMet(st, s.nodes[st.idx].dependsOn)
    requires s.recorded == {} && st.skipped == {}
    ensures var st' := StepNode(s, st, a);
      st'.phases == st.phases && st'.orche == st.orche && st'.skipped == st.skipped && !st'.place.InReview?
  {
  }

  lemma ReviewTouchesOnly(s: Setup, st: RunState, a: Answer, id: string)
    requires Valid(s, st) && st.place.InReview? && Calm(s, st, a) && id != s.nodes[st.idx].id
    ensures Met(StepReview(s, st, a), id) == Met(st, id)
  {
    ReviewFrames(s, st, a);
    SameIndex(st.phases, StepReview(s, st, a).phases, id);
  }

  /** What is done is behind the run, and stood behind what it depends on. */
  ghost predicate InOrder(s: Setup, st: RunState) {
    && HasRecords(s.nodes, st.phases, st.orche) && st.idx <= |s.nodes| && st.skipped == {}
    && (forall i :: 0 <= i < |s.nodes| && (i > st.idx || (i == st.idx && st.place.AtNode?)) ==> !Met(st, s.nodes[i].id))
    && (forall i :: 0 <= i < |s.nodes| && (Met(st, s.nodes[i].id) || (i == st.idx && st.place.InReview?)) ==>
          DepsEarlier(s.nodes, i))
  }

  /** What a node that may start depends on is done, hence earlier. */
  lemma MetIsEarlier(s: Setup, st: RunState)
    requires InOrder(s, st) && st.place.AtNode? && st.idx < |s.nodes| && UniqueIds(s.nodes)
    requires AllMet(st, s.nodes[st.idx].dependsOn)
    ensures DepsEarlier(s.nodes, st.idx)
  {
    forall d | d in s.nodes[st.idx].dependsOn
      ensures exists j :: 0 <= j < st.idx && s.nodes[j].id == d && !s.nodes[j].kind.Trigger?
    {
      assert Met(st, d);
      var k := PhaseIndex(st.phases, d);
      var j: nat;
      if k.Some? {
        j := RankReached(s.nodes, k.value);
        RankAt(s.nodes, j);
      } else {
        var i :| 0 <= i < |s.nodes| && s.nodes[i].IsOrche() && s.nodes[i].id == d;
        j := i;
      }
      assert s.nodes[j].id == d && !s.nodes[j].kind.Trigger?;
      assert j < st.idx;
    }
  }

  lemma Advance(s: Setup, st: RunState, st': RunState)
    requires Valid(s, st) && st.place.AtNode? && InOrder(s, st) && MovesOn(s, st, st') && Frame(s, st, st')
    requires st'.skipped == {} && (st.idx == |s.nodes| ==> st'.place.Ended?)
    requires forall i :: 0 <= i < |s.nodes| && i != st.idx ==> Met(st', s.nodes[i].id) == Met(st, s.nodes[i].id)
    requires st.idx < |s.nodes| ==>
      || DepsEarlier(s.nodes, st.idx)
      || (Met(st', s.nodes[st.idx].id) == Met(st, s.nodes[st.idx].id) && !st'.place.InReview?)
    ensures InOrder(s, st')
  {
  }

  lemma NodeInOrder(s: Setup, st: RunState, a: Answer)
    requires Valid(s, st) && st.place.AtNode? && InOrder(s, st) && UniqueIds(s.nodes)
    requires s.recorded == {} && Calm(s, st, a)
    ensures InOrder(s, StepNode(s, st, a))
  {
    var st' := StepNode(s, st, a);
    NodeStepMoves(s, st, a);
    NodeFrame(s, st, a);
    forall i | 0 <= i < |s.nodes| && i != st.idx
      ensures Met(st', s.nodes[i].id) == Met(st, s.nodes[i].id)
    {
      NodeTouchesOnly(s, st, a, s.nodes[i].id);
    }
    if st.idx < |s.nodes| {
      if AllMet(st, s.nodes[st.idx].dependsOn) {
        MetIsEarlier(s, st);
      } else {
        UnmetIsPassed(s, st, a);
      }
    }
    Advance(s, st, st');
  }

  lemma ReviewInOrder(s: Setup, st: RunState, a: Answer)
    requires Valid(s, st) && st.place.InReview? && InOrder(s, st) && UniqueIds(s.nodes) && Calm(s, st, a)
    requires Valid(s, StepReview(s, st, a))
    ensures InOrder(s, StepReview(s, st, a))
  {
    var st' := StepReview(s, st, a);
    ReviewFrames(s, st, a);
    ReviewStaysClose(s, st, a);
    forall i | 0 <= i < |s.nodes| && i != st.idx
      ensures Met(st', s.nodes[i].id) == Met(st, s.nodes[i].id)
    {
      ReviewTouchesOnly(s, st, a, s.nodes[i].id);
    }
  }

  lemma ReviewStaysClose(s: Setup, st: RunState, a: Answer)
    requires Valid(s, st) && st.place.InReview? && !JustJumped(StepReview(s, st, a))
    ensures var st' := StepReview(s, st, a); if st'.place.AtNode? then st'.idx == st.idx + 1 else st'.idx == st.idx
  {
    ReviewFrames(s, st, a);
    ReviewGrows(s, st, a);
  }

  lemma StepInOrder(s: Setup, st: RunState, a: Answer)
    requires Valid(s, st) && !st.place.Ended? && InOrder(s, st) && UniqueIds(s.nodes)
    requires s.recorded == {} && Calm(s, st, a)
    ensures InOrder(s, Step(s, st, a))
  {
    if st.place.AtNode? {
      NodeInOrder(s, st, a);
    } else {
      StepDescends(s, st, a);
      ReviewInOrder(s, st, a);
    }
  }

  lemma FreshInOrder(nodes: seq<Node>)
    requires UniqueIds(nodes)
    ensures InOrder(FreshSetup(nodes), FreshState(nodes))
  {
    var st := FreshState(nodes);
    FreshHasRecords(nodes);
    forall i | 0 <= i < |nodes|
      ensures !Met(st, nodes[i].id)
    {
    }
  }

  /** If such a run has every node settled, the nodes stand in dependency order. */
  lemma SettledInOrder(s: Setup, st: RunState)
    requires UniqueIds(s.nodes) && InOrder(s, st) && FreeTriggers(s.nodes)
    requires forall i :: 0 <= i < |s.nodes| ==> Settled(s, st, i)
    ensures Orderly(s.nodes)
  {
    forall i, d | 0 <= i < |s.nodes| && d in s.nodes[i].dependsOn
      ensures exists j :: 0 <= j < i && s.nodes[j].id == d && !s.nodes[j].kind.Trigger?
    {
      SettledIsMet(s, st, i);
      assert DepsEarlier(s.nodes, i);
    }
  }

  /** Triggers wait for nothing. */
  ghost predicate FreeTriggers(nodes: seq<Node>) {
    forall i :: 0 <= i < |nodes| && nodes[i].kind.Trigger? ==> nodes[i].dependsOn == []
  }

  lemma QuietStep(s: Setup, st: RunState, a: Answer)
    requires Valid(s, st) && !st.place.Ended? && NoBranches(s.nodes) && NoJumps(s.nodes) && Aloof(s.nodes)
    requires Unskipped(st)
    ensures Calm(s, st, a) && Unskipped(Step(s, st, a))
  {
    StepUnskipped(s, st, a);
    if st.place.InReview? {
      ReviewFrames(s, st, a);
      assert Gated(s.nodes, st.idx) <==> CriticAt(s.nodes, st.idx).gate;
    }
  }

  lemma RunInOrder(nodes: seq<Node>, env: Env)
    requires UniqueIds(nodes) && NoBranches(nodes) && NoJumps(nodes) && Aloof(nodes)
    ensures InOrder(FreshSetup(nodes), Run(FreshSetup(nodes), env, 0, FreshState(nodes)))
  {
    var s := FreshSetup(nodes);
    var P := (x: RunState) => InOrder(s, x) && Unskipped(x);
    FreshInOrder(nodes);
    forall x: RunState, u: nat | Valid(s, x) && !x.place.Ended? && P(x)
      ensures P(Step(s, x, env(u)))
    {
      QuietStep(s, x, env(u));
      StepInOrder(s, x, env(u));
    }
    RunKeeps(s, env, 0, FreshState(nodes), P);
  }

  /** Without branches, jumps and handlers that rewrite records, every fresh run that ends completed has completed every
      node if the nodes stand in dependency order, and otherwise every such run has passed a node over in silence. */
  lemma CompletionIsTotalIffOrderly(nodes: seq<Node>, env: Env)
    requires UniqueIds(nodes) && NoBranches(nodes) && NoJumps(nodes) && Aloof(nodes) && FreeTriggers(nodes)
    ensures
      var s, final := FreshSetup(nodes), Run(FreshSetup(nodes), env, 0, FreshState(nodes));
      final.status == Succeeded ==>
        ((forall i :: 0 <= i < |nodes| ==> Settled(s, final, i)) <==> Orderly(nodes))
  {
    var s, final := FreshSetup(nodes), Run(FreshSetup(nodes), env, 0, FreshState(nodes));
    RunInOrder(nodes, env);
    if Orderly(nodes) {
      FreshCompletionIsTotal(nodes, env);
    }
    if forall i :: 0 <= i < |nodes| ==> Settled(s, final, i) {
      SettledInOrder(s, final);
    }
  }
}
