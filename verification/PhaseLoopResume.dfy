/** What a resumed run makes of the phases it found completed. */
module PhaseLoopResume {
  import opened WorkflowNode
  import opened PhaseLoop
  import opened PhaseLoopLog
  import opened PhaseLoopOrder
  import opened PhaseLoopEntries
  import opened PhaseLoopRuns
  import opened PhaseLoopEvidence
  import opened PhaseLoopGates

  // ---- Recorded nodes are never the node at hand ----

  ghost predicate OwnNew(s: Setup, st: RunState) {
    && (forall m :: 0 <= m < |st.log| ==> st.log[m].i < |s.nodes| && s.nodes[st.log[m].i].id !in s.recorded)
    && (st.place.InReview? ==> st.idx < |s.nodes| && s.nodes[st.idx].id !in s.recorded)
  }

  lemma NodeOwnNew(s: Setup, st: RunState, a: Answer)
    requires Valid(s, st) && st.place.AtNode? && OwnNew(s, st)
    ensures OwnNew(s, StepNode(s, st, a))
  {
    var st' := StepNode(s, st, a);
    NodeGrows(s, st, a);
    var evs :| st'.log == st.log + evs && NodeRound(s, st, st', evs);
    NodePlaces(s, st, a);
    StartedFacts(s, st, a);
    if evs != [] {
      assert |st'.log| > |st.log|;
    }
  }

  lemma ReviewOwnNew(s: Setup, st: RunState, a: Answer)
    requires Valid(s, st) && st.place.InReview? && OwnNew(s, st)
    ensures OwnNew(s, StepReview(s, st, a))
  {
    var st' := StepReview(s, st, a);
    ReviewGrows(s, st, a);
    var evs :| st'.log == st.log + evs && ReviewRound(s, st, st', evs);
    ReviewRoundEvents(s, st, st', evs);
  }

  lemma RunOwnNew(s: Setup, env: Env, t: nat, st: RunState)
    requires Valid(s, st) && OwnNew(s, st)
    ensures OwnNew(s, Run(s, env, t, st))
  {
    var P := (x: RunState) => OwnNew(s, x);
    forall x: RunState, u: nat | Valid(s, x) && !x.place.Ended? && P(x)
      ensures P(Step(s, x, env(u)))
    {
      if x.place.AtNode? {
        NodeOwnNew(s, x, env(u));
      } else {
        ReviewOwnNew(s, x, env(u));
      }
    }
    RunKeeps(s, env, t, st, P);
  }

  lemma DoneUnlessJumpedOver(s: Setup, st: RunState, i: nat)
    requires OwnNew(s, st) && i < |s.nodes| && s.nodes[i].id in s.recorded
    ensures PhaseDone(s, st.log, i) <==> !JumpedOver(st.log, i)
  {
    if Standing(st.log, i).Some? {
      var m := StandingAt(st.log, i);
      assert st.log[m].Jumped?;
    } else {
      StandingNone(st.log, i);
    }
  }

  /** Whatever is answered, a phase that a resumed run found completed is behind the run in the end exactly when
      no jump went back over it or a branch decision switched it off: a phase that is jumped over is reset, and never
      run again. */
  lemma RecordedSettledIff(s: Setup, st: RunState, env: Env, i: nat)
    requires Starts(s, st) && i < |s.nodes| && s.nodes[i].kind.Phase? && s.nodes[i].id in s.recorded
    ensures
      var final := Run(s, env, 0, st);
      Settled(s, final, i) <==> s.nodes[i].id in SkippedBy(final.log) || !JumpedOver(final.log, i)
  {
    var final := Run(s, env, 0, st);
    StartEvidence(s, st);
    RunEvidence(s, env, 0, st);
    RunOwnNew(s, env, 0, st);
    DoneUnlessJumpedOver(s, final, i);
    RecordAtRank(s.nodes, final.phases, i);
    RankAt(s.nodes, i);
  }

  /** A resumed run over a definition without branches, in which no handler can leave an earlier or recorded node open:
      ending completed, it has every node completed exactly when no jump went back over a recorded phase. */
  lemma ResumedTotalIff(nodes: seq<Node>, phases: seq<PhaseState>, orche: map<string, Status>, env: Env)
    requires WellPlanned(nodes) && NeverReopens(nodes) && NoBranches(nodes) && HasRecords(nodes, phases, orche)
    requires RecordsSafe(nodes, Recorded(phases, orche)) && forall id :: id in orche ==> orche[id] != Status.Skipped
    ensures
      var s := ResumeSetup(nodes, phases, orche);
      var final := Run(s, env, 0, StartState(phases, orche));
      final.status == Succeeded ==>
        ((forall i :: 0 <= i < |nodes| ==> Settled(s, final, i)) <==>
          (forall i :: 0 <= i < |nodes| ==> !Lost(s, final.log, i)))
  {
    var s, st := ResumeSetup(nodes, phases, orche), StartState(phases, orche);
    var final := Run(s, env, 0, st);
    ResumeStarts(nodes, phases, orche);
    ResumedCompletionAccounts(nodes, phases, orche, env);
    RunLawful(s, env, 0, st);
    RunUnskipped(s, env, 0, st);
    StartEvidence(s, st);
    RunEvidence(s, env, 0, st);
    forall i | 0 <= i < |nodes| && Lost(s, final.log, i)
      ensures !Settled(s, final, i)
    {
      RecordedSettledIff(s, st, env, i);
    }
    if final.status == Succeeded && forall i :: 0 <= i < |nodes| ==> !Lost(s, final.log, i) {
      forall i | 0 <= i < |nodes|
        ensures Settled(s, final, i)
      {
        NothingLost(s, final.log, i);
        assert Done(s, final, i);
      }
    }
  }

  lemma {:induction false} NothingLost(s: Setup, log: seq<Event>, i: nat)
    requires i < |s.nodes| && Lawful(s, log) && NeverReopens(s.nodes) && RecordsSafe(s.nodes, s.recorded)
    requires forall j :: 0 <= j < |s.nodes| ==> !Lost(s, log, j)
    ensures !Behind(s, log, i)
  {
    NotLeftOpen(s, log, i);
    forall j | 0 <= j < i
      ensures !Behind(s, log, j)
    {
      NothingLost(s, log, j);
    }
  }
}
