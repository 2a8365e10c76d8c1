/** Runs in which everything goes well: every agent succeeds, every critic approves, no branch is taken. */
module PhaseLoopSmooth {
  import opened WorkflowNode
  import opened PhaseLoop
  import opened PhaseLoopOrder
  import opened PhaseLoopEntries
  import opened PhaseLoopRuns

  /** The answer of those who all succeed, with what the handler makes of other nodes' records. */
  function Smooth(marks: map<string, bool>): Answer {
    Answer(false, Output("", false, marks), _ => TurnDone, AgentsRan(_ => true), Verdict(true, []))
  }

  function Smoothly(marks: map<string, bool>): Env {
    _ => Smooth(marks)
  }

  /** A phase that does not fail on its own: it has an agent if it runs in turns, and as many as its quorum asks. */
  predicate RunnablePhase(def: PhaseDef) {
    && (def.mode != Parallel ==> def.agents != [])
    && (def.policy == FailurePolicy.Quorum && def.mode != Interactive ==>
          |def.agents| >= if def.quorum.Some? then def.quorum.value else 1)
  }

  ghost predicate Runnable(nodes: seq<Node>) {
    forall i :: 0 <= i < |nodes| && nodes[i].kind.Phase? ==> RunnablePhase(nodes[i].kind.def)
  }

  // ---- Agents ----

  predicate Unfailed(agents: seq<Agent>) {
    forall j :: 0 <= j < |agents| ==> agents[j].status != Status.Failed
  }

  predicate Lined(agents: seq<Agent>, defs: seq<string>) {
    |agents| == |defs| && forall j :: 0 <= j < |agents| ==> agents[j].id == defs[j]
  }

  predicate AgentsFit(agents: seq<Agent>, defs: seq<string>) {
    Lined(agents, defs) && Unfailed(agents)
  }

  lemma FitHasSlots(agents: seq<Agent>, defs: seq<string>)
    requires Lined(agents, defs)
    ensures HasSlots(agents, defs)
  {
  }

  lemma {:induction false} RunningFits(agents: seq<Agent>, defs: seq<string>, ok: nat -> bool, n: nat)
    requires n <= |defs| && HasSlots(agents, defs) && forall j :: ok(j)
    ensures Unfailed(agents) ==> Unfailed(AfterRunning(agents, defs, ok, n))
    ensures Lined(agents, defs) ==> Lined(AfterRunning(agents, defs, ok, n), defs)
  {
    if n > 0 {
      RunningFits(agents, defs, ok, n - 1);
      var r := AfterRunning(agents, defs, ok, n - 1);
      var j := Slot(agents, defs[n - 1], n - 1).value;
      assert AfterRunning(agents, defs, ok, n) ==
        if agents[j].status == Completed then r else r[j := r[j].(status := Completed, answered := true)];
    }
  }

  lemma {:induction false} NoneFailed(agents: seq<Agent>)
    requires Unfailed(agents)
    ensures FailedCount(agents) == 0
  {
    if agents != [] {
      NoneFailed(agents[..|agents| - 1]);
    }
  }

  lemma {:induction false} WrittenAreAgents(agents: seq<Agent>, defs: seq<string>, n: nat)
    requires n <= |defs| && HasSlots(agents, defs)
    ensures |Written(agents, defs, n)| == |defs| - n && forall a :: a in Written(agents, defs, n) ==> a in agents
    decreases |defs| - n
  {
    if n < |defs| {
      WrittenAreAgents(agents, defs, n + 1);
      var j := Slot(agents, defs[n], n).value;
      assert Written(agents, defs, n) == [agents[j]] + Written(agents, defs, n + 1);
    }
  }

  lemma WrittenFits(agents: seq<Agent>, defs: seq<string>, n: nat)
    requires Unfailed(agents) && n <= |defs| && HasSlots(agents, defs)
    ensures |Written(agents, defs, n)| == |defs| - n && Unfailed(Written(agents, defs, n))
  {
    WrittenAreAgents(agents, defs, n);
    forall j | 0 <= j < |defs| - n
      ensures Written(agents, defs, n)[j].status != Status.Failed
    {
      assert Written(agents, defs, n)[j] in agents;
    }
  }

  lemma PolicyHolds(ph: PhaseState, def: PhaseDef)
    requires AgentsFit(ph.agents, def.agents) && RunnablePhase(def) && def.mode != Interactive
    ensures !PolicyFails(ph, def)
  {
    FitHasSlots(ph.agents, def.agents);
    WrittenFits(ph.agents, def.agents, 0);
    NoneFailed(Results(ph, def));
  }

  lemma PhaseRuns(ph: PhaseState, def: PhaseDef, marks: map<string, bool>)
    requires AgentsFit(ph.agents, def.agents) && RunnablePhase(def)
    ensures
      var a := Smooth(marks);
      var ran := if def.mode == Parallel then RunAgents(ph, def.agents, a.agents) else LoopAgent(ph, def, a.turns);
      ran.Some? && AgentsFit(ran.value.agents, def.agents)
  {
    var a := Smooth(marks);
    FitHasSlots(ph.agents, def.agents);
    if def.mode == Parallel {
      RunningFits(ph.agents, def.agents, a.agents.ok, |def.agents|);
    } else {
      assert a.turns(0) == TurnDone;
    }
  }

  // ---- Steps ----

  /** A run that nothing has stopped or skipped so far, and whose agents have not failed. */
  ghost predicate Going(s: Setup, st: RunState) {
    && UniqueIds(s.nodes) && Runnable(s.nodes) && HasRecords(s.nodes, st.phases, st.orche)
    && s.recorded == {} && !s.resumed && st.skipped == {}
    && (forall k :: 0 <= k < |st.phases| ==> AgentsFit(st.phases[k].agents, PhaseDefs(s.nodes)[k].kind.def.agents))
    && st.status == (if st.place.Ended? then Succeeded else Active)
    && (st.place.Ended? ==> st.idx == |s.nodes|)
  }

  lemma FreshGoing(nodes: seq<Node>)
    requires UniqueIds(nodes) && Runnable(nodes)
    ensures Going(FreshSetup(nodes), FreshState(nodes))
  {
    FreshHasRecords(nodes);
  }

  lemma SmoothAfter(s: Setup, st: RunState, k: nat)
    requires st.idx < |s.nodes| && s.nodes[st.idx].kind.Phase? && k < |st.phases|
    requires AgentsFit(st.phases[k].agents, s.nodes[st.idx].kind.def.agents)
    requires RunnablePhase(s.nodes[st.idx].kind.def)
    ensures
      var st' := AfterAgents(s, st, k);
      && st'.status == st.status && !st'.place.Ended?
      && |st'.phases| == |st.phases| && st'.phases[k].agents == st.phases[k].agents
  {
    var def := s.nodes[st.idx].kind.def;
    if def.mode != Interactive {
      PolicyHolds(st.phases[k], def);
    }
  }

  lemma SmoothStart(s: Setup, st: RunState, k: nat, marks: map<string, bool>)
    requires Going(s, st) && st.place.AtNode? && st.idx < |s.nodes| && s.nodes[st.idx].kind.Phase?
    requires k < |st.phases| && PhaseDefs(s.nodes)[k] == s.nodes[st.idx]
    ensures
      var st' := StartPhase(s, st, k, Smooth(marks));
      && st'.status == Active && !st'.place.Ended?
      && |st'.phases| == |st.phases| && AgentsFit(st'.phases[k].agents, s.nodes[st.idx].kind.def.agents)
  {
    var def, a := s.nodes[st.idx].kind.def, Smooth(marks);
    var st1 := Log(SetStatus(st, k, Running), Started(st.idx));
    assert AgentsFit(st.phases[k].agents, def.agents) && RunnablePhase(def);
    PhaseRuns(st1.phases[k], def, marks);
    var ran := if def.mode == Parallel then RunAgents(st1.phases[k], def.agents, a.agents)
               else LoopAgent(st1.phases[k], def, a.turns);
    SmoothAfter(s, SetPhase(st1, k, ran.value), k);
  }

  lemma SmoothPhase(s: Setup, st: RunState, marks: map<string, bool>)
    requires Valid(s, st) && Going(s, st) && st.place.AtNode? && st.idx < |s.nodes| && !s.nodes[st.idx].IsOrche()
    ensures Going(s, StepPhase(s, st, Smooth(marks)))
  {
    var st' := StepPhase(s, st, Smooth(marks));
    PhaseFrame(s, st, Smooth(marks));
    RecordAtRank(s.nodes, st.phases, st.idx);
    PhaseKeepsOrche(s, st, Smooth(marks));
    if s.nodes[st.idx].kind.Phase? {
      var k := Rank(s.nodes, st.idx);
      RankAt(s.nodes, st.idx);
      if st.phases[k].status != Completed {
        SmoothStart(s, st, k, marks);
      }
      forall j | 0 <= j < |st'.phases|
        ensures AgentsFit(st'.phases[j].agents, PhaseDefs(s.nodes)[j].kind.def.agents)
      {
        if j != k {
          var i := RankReached(s.nodes, j);
          RankAt(s.nodes, i);
          assert st.phases[j].id != s.nodes[st.idx].id;
        }
      }
    }
  }

  lemma SmoothOrche(s: Setup, st: RunState, marks: map<string, bool>)
    requires Valid(s, st) && Going(s, st) && st.place.AtNode? && st.idx < |s.nodes| && s.nodes[st.idx].IsOrche()
    ensures Going(s, StepOrche(s, st, Smooth(marks).orche))
  {
    OrcheFrame(s, st, Smooth(marks).orche);
    assert Inactive(s.nodes[st.idx].kind, "") == {};
  }

  lemma SmoothNode(s: Setup, st: RunState, marks: map<string, bool>)
    requires Valid(s, st) && Going(s, st) && st.place.AtNode?
    ensures Going(s, StepNode(s, st, Smooth(marks)))
  {
    var a := Smooth(marks);
    NodeStepCases(s, st, a, StepNode(s, st, a));
    if st.idx < |s.nodes| {
      if s.nodes[st.idx].IsOrche() {
        SmoothOrche(s, st, marks);
      } else {
        SmoothPhase(s, st, marks);
      }
    }
  }

  lemma SmoothReview(s: Setup, st: RunState, marks: map<string, bool>)
    requires Valid(s, st) && Going(s, st) && st.place.InReview?
    ensures var st' := StepReview(s, st, Smooth(marks));
      && Going(s, st') && st'.place.AtNode? && st'.idx == st.idx + 1 && st'.gotos == st.gotos && !JustJumped(st')
  {
  }

  lemma SmoothStep(s: Setup, st: RunState, marks: map<string, bool>)
    requires Valid(s, st) && Going(s, st) && !st.place.Ended?
    ensures Going(s, Step(s, st, Smooth(marks)))
  {
    if st.place.AtNode? {
      SmoothNode(s, st, marks);
    } else {
      SmoothReview(s, st, marks);
    }
  }

  /** When all goes well, a run ends completed. */
  lemma SmoothRun(s: Setup, st: RunState, marks: map<string, bool>, t: nat)
    requires Valid(s, st) && Going(s, st)
    ensures Going(s, Run(s, Smoothly(marks), t, st)) && Run(s, Smoothly(marks), t, st).status == Succeeded
  {
    var P := (x: RunState) => Going(s, x);
    var env: Env := Smoothly(marks);
    forall x: RunState, u: nat | Valid(s, x) && !x.place.Ended? && P(x)
      ensures P(Step(s, x, env(u)))
    {
      SmoothStep(s, x, marks);
    }
    RunKeeps(s, env, t, st, P);
  }
}
