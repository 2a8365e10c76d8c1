/** Small definitions whose runs end completed and leave nodes behind. */
module PhaseLoopWitnesses {
  import opened WorkflowNode
  import opened PhaseLoop
  import opened PhaseLoopOrder
  import opened PhaseLoopSmooth
  import opened PhaseLoopTotal

  // ---- A cycle ----

  function CycleOfTwo(): seq<Node> {
    [Node("a", ["b"], Orche(true)), Node("b", ["a"], Orche(true))]
  }

  lemma CycleStep(s: Setup, st: RunState, a: Answer)
    requires s == FreshSetup(CycleOfTwo()) && st.idx < 2 && st.place.AtNode? && !a.aborted
    requires st.phases == [] && st.skipped == {} && "a" in st.orche && "b" in st.orche
    requires st.orche["a"] == Pending && st.orche["b"] == Pending
    ensures Step(s, st, a) == Next(st)
  {
    assert !Met(st, "a") && !Met(st, "b");
  }

  lemma CycleStart()
    ensures
      var st := FreshState(CycleOfTwo());
      && st.phases == [] && "a" in st.orche && "b" in st.orche
      && st.orche["a"] == Pending && st.orche["b"] == Pending
  {
    var nodes := CycleOfTwo();
    assert PhaseDefs(nodes[..1]) == [];
    assert nodes[0] in nodes && nodes[1] in nodes;
  }

  /** Two nodes that wait for each other: the run does nothing at all and ends completed. */
  lemma CycleCompletesNothing(env: Env)
    requires !env(0).aborted && !env(1).aborted
    ensures
      var s, final := FreshSetup(CycleOfTwo()), Run(FreshSetup(CycleOfTwo()), env, 0, FreshState(CycleOfTwo()));
      && final.status == Succeeded && final.log == []
      && forall i :: 0 <= i < |s.nodes| ==> !Settled(s, final, i)
  {
    var s, st := FreshSetup(CycleOfTwo()), FreshState(CycleOfTwo());
    CycleStart();
    CycleStep(s, st, env(0));
    RunUnfolds(s, env, 0, st);
    CycleStep(s, Next(st), env(1));
    RunUnfolds(s, env, 1, Next(st));
    CycleEnds(s, env, Next(Next(st)));
  }

  lemma CycleEnds(s: Setup, env: Env, st: RunState)
    requires Valid(s, st) && st.idx == |s.nodes| && st.place.AtNode?
    ensures Run(s, env, 2, st) == End(st, Succeeded)
  {
    RunUnfolds(s, env, 2, st);
  }

  // ---- A retry that gives up ----

  function NodeAndRetry(): seq<Node> {
    [Node("a", [], Orche(true)), Node("r", ["a"], Kind.Retry("a", 0))]
  }

  lemma RetryReopens()
    ensures FirstToReopen(NodeAndRetry(), 0, 1)
  {
    var nodes := NodeAndRetry();
    assert Callee(nodes, "a") == Some(0);
    assert "a" in ["a"] && 0 in Callees(nodes, ["a"]);
    assert nodes[1].RetryTarget() == "a";
    assert 1 in Reached(nodes, {1}) && 0 in Calls(nodes, 1);
  }

  lemma NodeAndRetryPlanned()
    ensures WellPlanned(NodeAndRetry()) && Runnable(NodeAndRetry())
  {
    assert NodeAndRetry()[0].id == "a";
  }

  /** A retry that uses up its attempts leaves its target open, and the run ends completed all the same. */
  lemma GivenUpIsLeftOpen()
    ensures WellPlanned(NodeAndRetry())
    ensures !TotalRun(NodeAndRetry(), Smoothly(map["a" := false]))
  {
    RetryReopens();
    NodeAndRetryPlanned();
    assert NodeAndRetry()[0].id == "a";
    ReopenedRun(NodeAndRetry(), 0, 1);
  }

  // ---- A resumed run ----

  function GateBack(): seq<Node> {
    var critic := Critic(true, Some(Rejection.Goto), "A", None);
    [Node("A", [], Phase(PhaseDef([], None, BestEffort, None, Parallel, 0))),
     Node("B", ["A"], Phase(PhaseDef([], Some(critic), BestEffort, None, Parallel, 0)))]
  }

  function HalfDone(): seq<PhaseState> {
    [PhaseState("A", Completed, []), PhaseState("B", Pending, [])]
  }

  lemma TwoPhases()
    ensures PhaseDefs(GateBack()) == GateBack()
    ensures PhaseIndex(HalfDone(), "A") == Some(0) && PhaseIndex(HalfDone(), "B") == Some(1)
    ensures NodeIndex(GateBack(), "A") == Some(0)
  {
    var nodes := GateBack();
    assert nodes[..1][..0] == [];
    assert PhaseDefs(nodes[..1]) == [nodes[0]];
  }

  lemma FirstReview(s: Setup, st: RunState)
    requires s.nodes == GateBack() && st.idx == 1 && st.phases == HalfDone() && st.place.AtNode? && st.skipped == {}
    requires "B" !in s.recorded && s.resumed
    ensures StepNode(s, st, Rejecting()) == Log(SetStatus(st, 1, Running), Started(1)).(place := InReview(1, 0))
  {
    TwoPhases();
    var ph := st.phases[1].(status := Running);
    assert RunAgents(ph, [], Rejecting().agents) == Some(ph);
    assert Results(ph, s.nodes[1].kind.def) == [];
    assert Met(st, "A");
  }

  lemma GateRejects(s: Setup, st: RunState)
    requires s.nodes == GateBack() && st.idx == 1 && st.place == InReview(1, 0) && st.gotos == map[]
    requires st.phases == [PhaseState("A", Completed, []), PhaseState("B", Running, [])]
    ensures
      var st' := StepReview(s, st, Rejecting());
      && st'.phases == [PhaseState("A", Pending, []), PhaseState("B", Pending, [])]
      && st'.idx == 0 && st'.place.AtNode? && st'.status == st.status && st'.skipped == st.skipped
  {
    TwoPhases();
    RejectJumps(s, st);
  }

  predicate BothPending(st: RunState) {
    && st.phases == [PhaseState("A", Pending, []), PhaseState("B", Pending, [])]
    && st.skipped == {} && st.status == Active && st.place.AtNode?
  }

  lemma PassesB(s: Setup, env: Env, t: nat, st: RunState)
    requires s.nodes == GateBack() && "B" !in s.recorded && BothPending(st) && st.idx == 1
    requires forall u :: !env(u).aborted
    ensures Run(s, env, t, st) == End(Next(st), Succeeded)
  {
    assert PhaseIndex(st.phases, "A") == Some(0);
    assert !Met(st, "A");
    assert Step(s, st, env(t)) == Next(st);
    RunUnfolds(s, env, t, st);
    RunUnfolds(s, env, t + 1, Next(st));
  }

  lemma PassesBoth(s: Setup, env: Env, t: nat, st: RunState)
    requires s.nodes == GateBack() && "A" in s.recorded && "B" !in s.recorded && BothPending(st) && st.idx == 0
    requires forall u :: !env(u).aborted
    ensures Run(s, env, t, st) == End(Next(Next(st)), Succeeded)
  {
    assert Step(s, st, env(t)) == Next(st);
    RunUnfolds(s, env, t, st);
    PassesB(s, env, t + 1, Next(st));
  }

  lemma FromReview(s: Setup, env: Env, t: nat, st: RunState)
    requires s.nodes == GateBack() && st.idx == 1 && st.place == InReview(1, 0) && st.gotos == map[]
    requires st.phases == [PhaseState("A", Completed, []), PhaseState("B", Running, [])] && st.skipped == {}
    requires "A" in s.recorded && "B" !in s.recorded && st.status == Active
    requires forall u :: env(u) == Rejecting()
    ensures
      var final := Run(s, env, t, st);
      && final.status == Succeeded
      && final.phases == [PhaseState("A", Pending, []), PhaseState("B", Pending, [])]
  {
    GateRejects(s, st);
    RunUnfolds(s, env, t, st);
    PassesBoth(s, env, t + 1, StepReview(s, st, Rejecting()));
  }

  lemma FromB(s: Setup, env: Env, t: nat, st: RunState)
    requires s.nodes == GateBack() && st.idx == 1 && st.phases == HalfDone() && st.place.AtNode? && st.skipped == {}
    requires "A" in s.recorded && "B" !in s.recorded && s.resumed && st.status == Active && st.gotos == map[]
    requires forall u :: env(u) == Rejecting()
    ensures
      var final := Run(s, env, t, st);
      && final.status == Succeeded
      && final.phases == [PhaseState("A", Pending, []), PhaseState("B", Pending, [])]
  {
    FirstReview(s, st);
    RunUnfolds(s, env, t, st);
    FromReview(s, env, t + 1, StepNode(s, st, Rejecting()));
  }

  lemma HalfDoneFits()
    ensures WellPlanned(GateBack()) && HasRecords(GateBack(), HalfDone(), map[])
    ensures Recorded(HalfDone(), map[]) == {"A"}
  {
    TwoPhases();
    assert HalfDone()[0].id == "A";
    assert GateBack()[0].id == "A" && GateBack()[1].id == "B";
  }

  /** A run resumed after phase A, whose gate at B rejects once and jumps back to A: A is reset and, being
      recorded done, not run again; B waits for A in vain; the run ends completed with neither phase completed. */
  lemma ResumedRunLosesPhases()
    ensures WellPlanned(GateBack()) && HasRecords(GateBack(), HalfDone(), map[])
    ensures
      var s := ResumeSetup(GateBack(), HalfDone(), map[]);
      var final := Run(s, _ => Rejecting(), 0, StartState(HalfDone(), map[]));
      && final.status == Succeeded
      && final.phases == [PhaseState("A", Pending, []), PhaseState("B", Pending, [])]
  {
    var s, st := ResumeSetup(GateBack(), HalfDone(), map[]), StartState(HalfDone(), map[]);
    var env: Env := _ => Rejecting();
    HalfDoneFits();
    assert Step(s, st, env(0)) == Next(st);
    RunUnfolds(s, env, 0, st);
    FromB(s, env, 1, Next(st));
  }
}
