/** What whole runs of the phase loop guarantee, fresh and resumed. */
module PhaseLoopRuns {
  import opened WorkflowNode
  import opened PhaseLoop
  import opened PhaseLoopLog
  import opened PhaseLoopOrder
  import opened PhaseLoopEntries

  lemma FreshHasRecords(nodes: seq<Node>)
    ensures HasRecords(nodes, FreshState(nodes).phases, FreshState(nodes).orche)
  {
    assert forall i :: 0 <= i < |nodes| && nodes[i].IsOrche() ==> nodes[i] in nodes;
  }

  // ---- What falls behind ----

  /** In a fresh run whose nodes stand in dependency order and whose gates jump back only, ending completed means that
      every node is completed or branch-skipped, however many jumps there were, but for those whose records handlers of
      other nodes left open, and what depends on them. */
  lemma FreshCompletionAccounts(nodes: seq<Node>, env: Env)
    requires WellPlanned(nodes)
    ensures
      var s, final := FreshSetup(nodes), Run(FreshSetup(nodes), env, 0, FreshState(nodes));
      final.status == Succeeded ==> forall i :: 0 <= i < |nodes| ==> Done(s, final, i)
  {
    FreshHasRecords(nodes);
    RunProgress(FreshSetup(nodes), env, 0, FreshState(nodes));
  }

  lemma ResumeProgress(nodes: seq<Node>, phases: seq<PhaseState>, orche: map<string, Status>)
    requires Orderly(nodes) && HasRecords(nodes, phases, orche)
    ensures Progress(ResumeSetup(nodes, phases, orche), StartState(phases, orche))
  {
    var s, st := ResumeSetup(nodes, phases, orche), StartState(phases, orche);
    forall i | 0 <= i < |nodes| && nodes[i].id in s.recorded
      ensures Done(s, st, i)
    {
      RecordAtRank(nodes, phases, i);
      if nodes[i].id in orche && Closing(orche[nodes[i].id]) {
        var j :| 0 <= j < |nodes| && nodes[j].IsOrche() && nodes[j].id == nodes[i].id;
        assert i == j;
      } else {
        var k :| 0 <= k < |phases| && phases[k].status == Completed && phases[k].id == nodes[i].id;
        var j := RankReached(nodes, k);
        RankAt(nodes, j);
        assert i == j;
      }
    }
  }

  /** The same for a resumed run, where in addition a phase that was recorded done is lost when a jump goes back over
      it. */
  lemma ResumedCompletionAccounts(nodes: seq<Node>, phases: seq<PhaseState>, orche: map<string, Status>, env: Env)
    requires WellPlanned(nodes) && HasRecords(nodes, phases, orche)
    ensures
      var s := ResumeSetup(nodes, phases, orche);
      var final := Run(s, env, 0, StartState(phases, orche));
      final.status == Succeeded ==> forall i :: 0 <= i < |nodes| ==> Done(s, final, i)
  {
    var s := ResumeSetup(nodes, phases, orche);
    ResumeProgress(nodes, phases, orche);
    RunProgress(s, env, 0, StartState(phases, orche));
  }

  // ---- What the definition rules out ----

  /** What handlers did and where gates jumped is what the definition allows. */
  ghost predicate Lawful(s: Setup, log: seq<Event>) {
    forall m :: 0 <= m < |log| ==> LawfulEvent(s, log[m])
  }

  ghost predicate LawfulEvent(s: Setup, e: Event) {
    && (e.Acted? ==> e.i < |s.nodes| && forall id :: Opens(e, id) ==> id in Reopens(s.nodes, e.i))
    && (e.Jumped? ==>
          && e.i < |s.nodes| && Jumpable(s.nodes, e.i) && s.nodes[e.i].id !in s.recorded
          && e.target < |s.nodes| && s.nodes[e.target].kind.Phase?
          && s.nodes[e.target].id == CriticAt(s.nodes, e.i).gotoPhase)
  }

  ghost predicate ReviewsNew(s: Setup, st: RunState) {
    && UniqueIds(s.nodes) && Lawful(s, st.log)
    && (st.place.InReview? ==>
          st.idx < |s.nodes| && s.nodes[st.idx].id !in s.recorded && !InteractiveAt(s.nodes, st.idx))
  }

  lemma AppendLawful(s: Setup, log: seq<Event>, evs: seq<Event>)
    requires Lawful(s, log) && forall m :: 0 <= m < |evs| ==> LawfulEvent(s, evs[m])
    ensures Lawful(s, log + evs)
  {
  }

  lemma NodeEventsLawful(s: Setup, st: RunState, a: Answer, evs: seq<Event>)
    requires Valid(s, st) && st.place.AtNode? && StepNode(s, st, a).log == st.log + evs
    requires NodeRound(s, st, StepNode(s, st, a), evs)
    ensures forall m :: 0 <= m < |evs| ==> LawfulEvent(s, evs[m])
  {
    ActedIsEffect(s, st, a);
    if |evs| > 1 {
      assert StepNode(s, st, a).log[|st.log| + 1] == evs[1];
    }
  }

  lemma NodeLawful(s: Setup, st: RunState, a: Answer)
    requires Valid(s, st) && st.place.AtNode? && ReviewsNew(s, st)
    ensures ReviewsNew(s, StepNode(s, st, a))
  {
    NodePlaces(s, st, a);
    NodeGrows(s, st, a);
    var evs :| StepNode(s, st, a).log == st.log + evs && NodeRound(s, st, StepNode(s, st, a), evs);
    NodeEventsLawful(s, st, a, evs);
    AppendLawful(s, st.log, evs);
  }

  lemma NodePlaces(s: Setup, st: RunState, a: Answer)
    requires Valid(s, st) && st.place.AtNode?
    ensures StepNode(s, st, a).place.InReview? ==>
      st.idx < |s.nodes| && s.nodes[st.idx].id !in s.recorded && !InteractiveAt(s.nodes, st.idx)
      && StepNode(s, st, a).idx == st.idx
  {
    NodeStepCases(s, st, a, StepNode(s, st, a));
    StepGrows(s, st, a);
    NodeStepMoves(s, st, a);
  }

  lemma ActedIsEffect(s: Setup, st: RunState, a: Answer)
    requires Valid(s, st) && st.place.AtNode?
    ensures
      var st' := StepNode(s, st, a);
      |st'.log| > |st.log| + 1 && st'.log[|st.log| + 1].Acted? ==>
        st.idx < |s.nodes| && st'.log[|st.log| + 1].i == st.idx
        && st'.log[|st.log| + 1].marks == Effect(s.nodes, st.idx, a.orche.marks)
  {
    NodeStepCases(s, st, a, StepNode(s, st, a));
    if st.idx < |s.nodes| && s.nodes[st.idx].IsOrche() {
      OrcheLog(s, st, a.orche);
    } else if st.idx < |s.nodes| {
      PhaseFrame(s, st, a);
      StepGrows(s, st, a);
    }
  }

  lemma JumpIsLawful(s: Setup, st: RunState, st': RunState)
    requires Valid(s, st) && st.place.InReview? && ReviewsNew(s, st) && ReviewFrame(s, st, st') && JustJumped(st')
    ensures LawfulEvent(s, st'.log[|st'.log| - 1])
  {
    var t: nat :| Leapt(s, st, st', t);
    JumpTarget(s, st, t, st'.idx);
  }

  lemma ReviewEventKinds(s: Setup, st: RunState, st': RunState, evs: seq<Event>)
    requires Valid(s, st) && st.place.InReview? && ReviewRound(s, st, st', evs)
    ensures forall m :: 0 <= m < |evs| ==> !evs[m].Acted? && (evs[m].Jumped? ==> m == |evs| - 1)
  {
  }

  lemma ReviewEventsLawful(s: Setup, st: RunState, st': RunState, evs: seq<Event>)
    requires Valid(s, st) && st.place.InReview? && ReviewsNew(s, st) && st'.log == st.log + evs
    requires ReviewRound(s, st, st', evs) && ReviewFrame(s, st, st')
    ensures forall m :: 0 <= m < |evs| ==> LawfulEvent(s, evs[m])
  {
    ReviewEventKinds(s, st, st', evs);
    assert st'.log[|st'.log| - 1] == evs[|evs| - 1];
    forall m | 0 <= m < |evs|
      ensures LawfulEvent(s, evs[m])
    {
      if evs[m].Jumped? {
        JumpIsLawful(s, st, st');
      }
    }
  }

  lemma ReviewLawful(s: Setup, st: RunState, a: Answer)
    requires Valid(s, st) && st.place.InReview? && ReviewsNew(s, st)
    ensures ReviewsNew(s, StepReview(s, st, a))
  {
    var st' := StepReview(s, st, a);
    ReviewFrames(s, st, a);
    ReviewGrows(s, st, a);
    var evs :| st'.log == st.log + evs && ReviewRound(s, st, st', evs);
    ReviewEventsLawful(s, st, st', evs);
    AppendLawful(s, st.log, evs);
  }

  lemma RunLawful(s: Setup, env: Env, t: nat, st: RunState)
    requires Valid(s, st) && ReviewsNew(s, st)
    ensures Lawful(s, Run(s, env, t, st).log)
  {
    var P := (x: RunState) => ReviewsNew(s, x);
    forall x: RunState, u: nat | Valid(s, x) && !x.place.Ended? && P(x)
      ensures P(Step(s, x, env(u)))
    {
      if x.place.AtNode? {
        NodeLawful(s, x, env(u));
      } else {
        ReviewLawful(s, x, env(u));
      }
    }
    RunKeeps(s, env, t, st, P);
  }

  /** No node can leave the record of an earlier one open. */
  ghost predicate NeverReopens(nodes: seq<Node>) {
    forall j, k :: 0 <= j < k < |nodes| ==> nodes[j].id !in Reopens(nodes, k)
  }

  /** No node can leave a record open that the run treats as done from the start. */
  ghost predicate RecordsSafe(nodes: seq<Node>, recorded: set<string>) {
    forall k, id :: 0 <= k < |nodes| && id in Reopens(nodes, k) ==> id !in recorded
  }

  /** No jump can go back over a phase that the run treats as done from the start. */
  ghost predicate JumpsSpare(nodes: seq<Node>, recorded: set<string>) {
    forall t, j, i | 0 <= t <= j <= i < |nodes| && Jumpable(nodes, i) && nodes[i].id !in recorded
      && nodes[t].kind.Phase? && nodes[t].id == CriticAt(nodes, i).gotoPhase ::
      nodes[j].kind.Phase? ==> nodes[j].id !in recorded
  }

  lemma NotLeftOpen(s: Setup, log: seq<Event>, i: nat)
    requires i < |s.nodes| && Lawful(s, log) && NeverReopens(s.nodes) && RecordsSafe(s.nodes, s.recorded)
    ensures !LeftOpen(s, log, i)
  {
    forall m | 0 <= m < |log| && Opens(log[m], s.nodes[i].id)
      ensures !(i < log[m].i || s.nodes[i].id in s.recorded)
    {
      assert LawfulEvent(s, log[m]);
    }
  }

  lemma NotLost(s: Setup, log: seq<Event>, i: nat)
    requires i < |s.nodes| && Lawful(s, log) && JumpsSpare(s.nodes, s.recorded)
    ensures !Lost(s, log, i)
  {
    forall m | 0 <= m < |log| && log[m].Jumped? && s.nodes[i].kind.Phase? && s.nodes[i].id in s.recorded
      ensures !(log[m].target <= i <= log[m].i)
    {
      assert LawfulEvent(s, log[m]);
    }
  }

  lemma {:induction false} NothingBehind(s: Setup, log: seq<Event>, i: nat)
    requires i < |s.nodes| && Lawful(s, log) && NeverReopens(s.nodes)
    requires RecordsSafe(s.nodes, s.recorded) && JumpsSpare(s.nodes, s.recorded)
    ensures !Behind(s, log, i)
  {
    NotLeftOpen(s, log, i);
    NotLost(s, log, i);
    forall j | 0 <= j < i
      ensures !Behind(s, log, j)
    {
      NothingBehind(s, log, j);
    }
  }

  /** A definition in dependency order whose gates jump back and whose retries cannot leave an earlier record open: if a
      fresh run ends completed, every node is completed or branch-skipped. */
  lemma FreshCompletionIsTotal(nodes: seq<Node>, env: Env)
    requires WellPlanned(nodes) && NeverReopens(nodes)
    ensures
      var s, final := FreshSetup(nodes), Run(FreshSetup(nodes), env, 0, FreshState(nodes));
      final.status == Succeeded ==> forall i :: 0 <= i < |nodes| ==> Settled(s, final, i)
  {
    var s, final := FreshSetup(nodes), Run(FreshSetup(nodes), env, 0, FreshState(nodes));
    FreshCompletionAccounts(nodes, env);
    RunLawful(s, env, 0, FreshState(nodes));
    forall i | 0 <= i < |nodes|
      ensures final.status == Succeeded ==> Settled(s, final, i)
    {
      NothingBehind(s, final.log, i);
      assert final.status == Succeeded ==> Done(s, final, i);
    }
  }

  ghost predicate NoBranches(nodes: seq<Node>) {
    forall i :: 0 <= i < |nodes| ==> !nodes[i].kind.If? && !nodes[i].kind.Switch?
  }

  /** Nothing has been branch-skipped. */
  ghost predicate Unskipped(st: RunState) {
    st.skipped == {} && forall id :: id in st.orche ==> st.orche[id] != Skipped
  }

  lemma OrcheUnskipped(s: Setup, st: RunState, a: OrcheAnswer)
    requires st.idx < |s.nodes| && NoBranches(s.nodes) && Unskipped(st)
    ensures Unskipped(StepOrche(s, st, a))
  {
  }

  lemma NodeUnskipped(s: Setup, st: RunState, a: Answer)
    requires Valid(s, st) && st.place.AtNode? && NoBranches(s.nodes) && Unskipped(st)
    ensures Unskipped(StepNode(s, st, a))
  {
    NodeStepCases(s, st, a, StepNode(s, st, a));
    if st.idx < |s.nodes| {
      if s.nodes[st.idx].IsOrche() {
        OrcheUnskipped(s, st, a.orche);
      } else {
        PhaseKeepsOrche(s, st, a);
      }
    }
  }

  lemma StepUnskipped(s: Setup, st: RunState, a: Answer)
    requires Valid(s, st) && !st.place.Ended? && NoBranches(s.nodes) && Unskipped(st)
    ensures Unskipped(Step(s, st, a))
  {
    if st.place.AtNode? {
      NodeUnskipped(s, st, a);
    } else {
      ReviewFrames(s, st, a);
    }
  }

  lemma RunUnskipped(s: Setup, env: Env, t: nat, st: RunState)
    requires Valid(s, st) && NoBranches(s.nodes) && Unskipped(st)
    ensures Unskipped(Run(s, env, t, st))
  {
    var P := (x: RunState) => Unskipped(x);
    forall x: RunState, u: nat | Valid(s, x) && !x.place.Ended? && P(x)
      ensures P(Step(s, x, env(u)))
    {
      StepUnskipped(s, x, env(u));
    }
    RunKeeps(s, env, t, st, P);
  }

  /** A resumed run over the same definition whose jumps and retries cannot touch what is recorded done, and that ends
      completed, leaves every node completed or branch-skipped; without branches, every phase and record is completed,
      as after an uninterrupted run. */
  lemma ResumedCompletionIsTotal(nodes: seq<Node>, phases: seq<PhaseState>, orche: map<string, Status>, env: Env)
    requires WellPlanned(nodes) && NeverReopens(nodes) && HasRecords(nodes, phases, orche)
    requires RecordsSafe(nodes, Recorded(phases, orche)) && JumpsSpare(nodes, Recorded(phases, orche))
    ensures
      var s := ResumeSetup(nodes, phases, orche);
      var final := Run(s, env, 0, StartState(phases, orche));
      final.status == Succeeded ==>
        && (forall i :: 0 <= i < |nodes| ==> Settled(s, final, i))
        && (NoBranches(nodes) && (forall id :: id in orche ==> orche[id] != Skipped) ==>
              && (forall k :: 0 <= k < |final.phases| ==> final.phases[k].status == Completed)
              && (forall i :: 0 <= i < |nodes| && nodes[i].IsOrche() ==>
                    nodes[i].id in final.orche && final.orche[nodes[i].id] == Completed))
  {
    var s, st := ResumeSetup(nodes, phases, orche), StartState(phases, orche);
    var final := Run(s, env, 0, st);
    ResumedCompletionAccounts(nodes, phases, orche, env);
    RunLawful(s, env, 0, st);
    forall i | 0 <= i < |nodes|
      ensures final.status == Succeeded ==> Settled(s, final, i)
    {
      NothingBehind(s, final.log, i);
      assert final.status == Succeeded ==> Done(s, final, i);
    }
    if NoBranches(nodes) && (forall id :: id in orche ==> orche[id] != Skipped) && final.status == Succeeded {
      RunUnskipped(s, env, 0, st);
      ResumeProgress(nodes, phases, orche);
      RunProgress(s, env, 0, st);
      UnskippedIsCompleted(s, final);
    }
  }

  lemma UnskippedIsCompleted(s: Setup, st: RunState)
    requires Orderly(s.nodes) && Progress(s, st) && Unskipped(st)
    requires forall i :: 0 <= i < |s.nodes| ==> Settled(s, st, i)
    ensures forall k :: 0 <= k < |st.phases| ==> st.phases[k].status == Completed
    ensures forall i :: 0 <= i < |s.nodes| && s.nodes[i].IsOrche() ==>
      s.nodes[i].id in st.orche && st.orche[s.nodes[i].id] == Completed
  {
    forall k | 0 <= k < |st.phases|
      ensures st.phases[k].status == Completed
    {
      var i := RankReached(s.nodes, k);
      assert Settled(s, st, i);
      RecordAtRank(s.nodes, st.phases, i);
    }
    forall i | 0 <= i < |s.nodes| && s.nodes[i].IsOrche()
      ensures s.nodes[i].id in st.orche && st.orche[s.nodes[i].id] == Completed
    {
      assert Settled(s, st, i);
    }
  }
}
