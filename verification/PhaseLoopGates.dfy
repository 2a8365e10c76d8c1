/** What it takes to complete a phase with a gate. */
module PhaseLoopGates {
  import opened WorkflowNode
  import opened PhaseLoop
  import opened PhaseLoopLog
  import opened PhaseLoopOrder
  import opened PhaseLoopEvidence

  /** If the last event that concerns node `i` completes it after a waiver: the agents its critic had pointed at. */
  function Waiver(log: seq<Event>, i: nat): Option<seq<string>> {
    if log == [] then None else
      var n := |log| - 1;
      if !Touches(log[n], i) then Waiver(log[..n], i)
      else if n >= 2 && log[n] == Finished(i) && log[n - 1] == Waived(i) && log[n - 2].Reviewed? then
        Some(log[n - 2].flagged)
      else None
  }

  lemma WaiverSnoc(log: seq<Event>, e: Event, i: nat)
    ensures !Touches(e, i) ==> Waiver(log + [e], i) == Waiver(log, i)
    ensures Touches(e, i) && e != Finished(i) ==> Waiver(log + [e], i) == None
    ensures Touches(e, i) && (log == [] || log[|log| - 1] != Waived(i)) ==> Waiver(log + [e], i) == None
  {
    assert (log + [e])[..|log|] == log;
  }

  predicate AllCompleted(agents: seq<Agent>) {
    agents != [] && forall j :: 0 <= j < |agents| ==> agents[j].status == Completed
  }

  /** A phase that was recovered has completed agents only, and one that was completed on a waiver, without a
      jump, has no agent that its critic's rejection would have rerun. */
  ghost predicate CauseStands(s: Setup, st: RunState, i: nat)
    requires i < |s.nodes| && s.nodes[i].kind.Phase?
  {
    Rank(s.nodes, i) < |st.phases| ==>
      var agents := st.phases[Rank(s.nodes, i)].agents;
      && (Standing(st.log, i) == Some(Recovered(i)) ==> s.resumed && AllCompleted(agents))
      && (Waiver(st.log, i).Some? && ReviewsAt(s.nodes, i) && !CriticAt(s.nodes, i).Jumps() ==>
            RetryDefs(s.nodes[i].kind.def.agents, agents, Waiver(st.log, i).value) == [])
  }

  ghost predicate CausesStand(s: Setup, st: RunState) {
    && Plain(s, st)
    && forall i :: 0 <= i < |s.nodes| && s.nodes[i].kind.Phase? ==> CauseStands(s, st, i)
  }

  // ---- Node rounds ----

  lemma RoundWaiver(s: Setup, st: RunState, st': RunState, evs: seq<Event>, i: nat)
    requires i < |s.nodes| && s.nodes[i].kind.Phase? && NodeRound(s, st, st', evs)
    ensures i != st.idx || evs == [] ==>
      Waiver(st.log + evs, i) == Waiver(st.log, i) && Standing(st.log + evs, i) == Standing(st.log, i)
    ensures i == st.idx && evs != [] ==>
      Waiver(st.log + evs, i) == None && (Standing(st.log + evs, i) == Some(Recovered(i)) ==> evs == [Recovered(i)])
  {
    StandingAppend(st.log, evs, i);
    StandingShort(evs, i);
    if |evs| == 0 {
      assert st.log + evs == st.log;
    } else {
      WaiverSnoc(st.log, evs[0], i);
      if |evs| == 1 {
        assert st.log + evs == st.log + [evs[0]];
      } else {
        WaiverSnoc(st.log + [evs[0]], evs[1], i);
        if |evs| == 2 {
          assert st.log + evs == st.log + [evs[0]] + [evs[1]];
        } else {
          WaiverSnoc(st.log + [evs[0]] + [evs[1]], evs[2], i);
          assert st.log + evs == st.log + [evs[0]] + [evs[1]] + [evs[2]];
        }
      }
    }
  }

  lemma RecoveredFacts(s: Setup, st: RunState, a: Answer, k: nat)
    requires Valid(s, st) && st.place.AtNode? && st.idx < |s.nodes|
    requires s.nodes[st.idx].kind.Phase? && PhaseIndex(st.phases, s.nodes[st.idx].id) == Some(k)
    requires StepNode(s, st, a).log == st.log + [Recovered(st.idx)]
    ensures |StepNode(s, st, a).phases| == |st.phases|
    ensures s.resumed && AllCompleted(StepNode(s, st, a).phases[k].agents)
  {
    var st' := StepNode(s, st, a);
    NodeStepCases(s, st, a, st');
    assert st'.log[|st.log|] == Recovered(st.idx);
    StartedFirst(s, st, k, a);
  }

  lemma StartedFirst(s: Setup, st: RunState, k: nat, a: Answer)
    requires Valid(s, st) && st.idx < |s.nodes| && s.nodes[st.idx].kind.Phase? && k < |st.phases|
    ensures |StartPhase(s, st, k, a).log| > |st.log| && StartPhase(s, st, k, a).log[|st.log|] == Started(st.idx)
  {
  }

  lemma NodeCauseHere(s: Setup, st: RunState, a: Answer, evs: seq<Event>)
    requires Valid(s, st) && st.place.AtNode? && CausesStand(s, st)
    requires StepNode(s, st, a).log == st.log + evs && NodeRound(s, st, StepNode(s, st, a), evs)
    requires st.idx < |s.nodes| && s.nodes[st.idx].kind.Phase?
    ensures CauseStands(s, StepNode(s, st, a), st.idx)
  {
    var k := Rank(s.nodes, st.idx);
    RoundWaiver(s, st, StepNode(s, st, a), evs, st.idx);
    RankAt(s.nodes, st.idx);
    RecordAtRank(s.nodes, st.phases, st.idx);
    NodePhaseStands(s, st, a, k);
    if evs == [] {
      assert st.log + evs == st.log;
      assert CauseStands(s, st, st.idx);
    } else if evs == [Recovered(st.idx)] {
      RecoveredFacts(s, st, a, k);
    }
  }

  lemma NodeCauses(s: Setup, st: RunState, a: Answer)
    requires Valid(s, st) && st.place.AtNode? && CausesStand(s, st)
    ensures CausesStand(s, StepNode(s, st, a))
  {
    var st' := StepNode(s, st, a);
    NodeFrame(s, st, a);
    PlainStays(s, st, st');
    NodeGrows(s, st, a);
    var evs :| st'.log == st.log + evs && NodeRound(s, st, st', evs);
    forall i | 0 <= i < |s.nodes| && s.nodes[i].kind.Phase?
      ensures CauseStands(s, st', i)
    {
      if i == st.idx {
        NodeCauseHere(s, st, a, evs);
      } else {
        RoundWaiver(s, st, st', evs, i);
        RankAt(s.nodes, i);
        assert CauseStands(s, st, i);
      }
    }
  }

  // ---- Review rounds ----

  /** A waiver without a jump: no agent is to be rerun, and the agents stay as they are. */
  lemma WaivedFacts(s: Setup, st: RunState, a: Answer)
    requires Valid(s, st) && st.place.InReview? && !CriticAt(s.nodes, st.idx).Jumps()
    requires StepReview(s, st, a).log == st.log + [ReviewOf(st, a), Waived(st.idx), Finished(st.idx)]
    ensures var st' := StepReview(s, st, a);
      && |st'.phases| == |st.phases| && st'.phases[st.place.k].agents == st.phases[st.place.k].agents
      && RetryDefs(s.nodes[st.idx].kind.def.agents, st.phases[st.place.k].agents, a.verdict.Flagged()) == []
  {
    var first := ReviewOf(st, a);
    var st' := StepReview(s, st, a);
    assert st'.log[|st.log| + 1] == Waived(st.idx) && |st'.log| == |st.log| + 3;
  }

  /** What a review round's own events say of node `i`. */
  lemma WaiverInRound(log: seq<Event>, evs: seq<Event>, at: nat, idx: nat, atNode: bool, i: nat)
    requires RoundEvents(at, idx, atNode, evs)
    ensures i == at ==> Waiver(log + evs, i) == if |evs| == 3 then Some(evs[0].flagged) else None
    ensures i != at ==>
      Waiver(log + evs, i) == if evs[|evs| - 1].Jumped? && idx <= i <= at then None else Waiver(log, i)
  {
    WaiverSnoc(log, evs[0], i);
    if |evs| == 1 {
      assert log + evs == log + [evs[0]];
    } else {
      WaiverSnoc(log + [evs[0]], evs[1], i);
      if |evs| == 2 {
        assert log + evs == log + [evs[0]] + [evs[1]];
      } else {
        WaiverSnoc(log + [evs[0]] + [evs[1]], evs[2], i);
        assert log + evs == log + [evs[0]] + [evs[1]] + [evs[2]];
      }
    }
  }

  lemma StandsInRound(log: seq<Event>, evs: seq<Event>, at: nat, idx: nat, atNode: bool, i: nat)
    requires RoundEvents(at, idx, atNode, evs)
    ensures i == at ==> Standing(log + evs, i) != Some(Recovered(i))
    ensures i != at ==>
      Standing(log + evs, i) ==
        if evs[|evs| - 1].Jumped? && idx <= i <= at then Some(evs[|evs| - 1]) else Standing(log, i)
  {
    StandingAppend(log, evs, i);
    StandingInRound(evs, at, idx, atNode, i);
  }

  lemma ReviewCauseHere(s: Setup, st: RunState, a: Answer, evs: seq<Event>)
    requires Valid(s, st) && st.place.InReview? && Plain(s, st)
    requires StepReview(s, st, a).log == st.log + evs && evs[0] == ReviewOf(st, a)
    requires RoundEvents(st.idx, StepReview(s, st, a).idx, StepReview(s, st, a).place.AtNode?, evs)
    ensures CauseStands(s, StepReview(s, st, a), st.idx)
  {
    var i := st.idx;
    StandsInRound(st.log, evs, i, StepReview(s, st, a).idx, StepReview(s, st, a).place.AtNode?, i);
    WaiverInRound(st.log, evs, i, StepReview(s, st, a).idx, StepReview(s, st, a).place.AtNode?, i);
    KeptIndex(s, st);
    if |evs| == 3 && !CriticAt(s.nodes, i).Jumps() {
      assert evs == [ReviewOf(st, a), Waived(i), Finished(i)];
      WaivedFacts(s, st, a);
    }
  }

  lemma ReviewCauseElsewhere(s: Setup, st: RunState, st': RunState, evs: seq<Event>, i: nat)
    requires Valid(s, st) && st.place.InReview? && CausesStand(s, st) && ReviewFrame(s, st, st')
    requires st'.log == st.log + evs && RoundEvents(st.idx, st'.idx, st'.place.AtNode?, evs)
    requires i < |s.nodes| && s.nodes[i].kind.Phase? && i != st.idx
    ensures CauseStands(s, st', i)
  {
    assert CauseStands(s, st, i);
    assert st'.log[|st'.log| - 1] == evs[|evs| - 1];
    StandsInRound(st.log, evs, st.idx, st'.idx, st'.place.AtNode?, i);
    WaiverInRound(st.log, evs, st.idx, st'.idx, st'.place.AtNode?, i);
    KeptIndex(s, st);
    RankDistinct(s.nodes, i, st.idx);
    if JustJumped(st') {
      JumpedPhases(s, st, st', i);
    }
  }

  lemma ReviewCauses(s: Setup, st: RunState, a: Answer)
    requires Valid(s, st) && st.place.InReview? && CausesStand(s, st)
    ensures CausesStand(s, StepReview(s, st, a))
  {
    var st' := StepReview(s, st, a);
    ReviewKeeps(s, st, a);
    ReviewFrames(s, st, a);
    ReviewGrows(s, st, a);
    var evs :| st'.log == st.log + evs && ReviewRound(s, st, st', evs) && evs[0] == ReviewOf(st, a);
    ReviewRoundEvents(s, st, st', evs);
    forall i | 0 <= i < |s.nodes| && s.nodes[i].kind.Phase?
      ensures CauseStands(s, st', i)
    {
      if i == st.idx {
        ReviewCauseHere(s, st, a, evs);
      } else {
        ReviewCauseElsewhere(s, st, st', evs, i);
      }
    }
  }

  // ---- Runs ----

  lemma RunCauses(s: Setup, env: Env, t: nat, st: RunState)
    requires Valid(s, st) && CausesStand(s, st)
    ensures CausesStand(s, Run(s, env, t, st))
  {
    var P := (x: RunState) => CausesStand(s, x);
    forall x: RunState, u: nat | Valid(s, x) && !x.place.Ended? && P(x)
      ensures P(Step(s, x, env(u)))
    {
      if x.place.AtNode? {
        NodeCauses(s, x, env(u));
      } else {
        ReviewCauses(s, x, env(u));
      }
    }
    RunKeeps(s, env, t, st, P);
  }

  lemma {:induction false} StandingAt(log: seq<Event>, j: nat) returns (m: nat)
    requires Standing(log, j).Some?
    ensures m < |log| && log[m] == Standing(log, j).value && Touches(log[m], j)
    ensures forall n :: m < n < |log| ==> !Touches(log[n], j)
    ensures m >= 2 && log[m] == Finished(j) && log[m - 1] == Waived(j) && log[m - 2].Reviewed? ==>
      Waiver(log, j) == Some(log[m - 2].flagged)
  {
    var last := |log| - 1;
    if Touches(log[last], j) {
      m := last;
    } else {
      m := StandingAt(log[..last], j);
      assert forall n :: m < n < last ==> log[n] == log[..last][n];
    }
  }

  lemma GateEvent(s: Setup, log: seq<Event>, i: nat, m: nat)
    requires Conforms(s, log) && Gated(s.nodes, i) && !InteractiveAt(s.nodes, i)
    requires m < |log| && log[m] == Finished(i)
    ensures m > 0
    ensures
      || (log[m - 1].Reviewed? && log[m - 1].i == i && log[m - 1].approved)
      || (m > 1 && log[m - 1] == Waived(i) && MayWaive(s.nodes, i) && Rejected(Some(log[m - 2]), i))
  {
    ConformsAt(s, log, m);
    if log[m - 1] == Waived(i) {
      ConformsAt(s, log, m - 1);
    }
  }

  /** The event at `m` completes the phase of node `i`, and why it may. */
  predicate Warranted(s: Setup, log: seq<Event>, agents: seq<Agent>, i: nat, m: nat)
    requires Gated(s.nodes, i) && m < |log|
  {
    || (log[m] == Recovered(i) && s.resumed && AllCompleted(agents))
    || (log[m] == Finished(i) && m > 0 && log[m - 1].Reviewed? && log[m - 1].i == i && log[m - 1].approved)
    || (log[m] == Finished(i) && m > 1 && log[m - 1] == Waived(i) && Rejected(Some(log[m - 2]), i)
          && MayWaive(s.nodes, i)
          && (CriticAt(s.nodes, i).Jumps() || RetryDefs(s.nodes[i].kind.def.agents, agents, log[m - 2].flagged) == []))
  }

  /** Why the completed phase of node `i` may count as completed, going by the last event that concerns it. */
  ghost predicate GateHeld(s: Setup, final: RunState, i: nat)
    requires Gated(s.nodes, i) && Rank(s.nodes, i) < |final.phases|
  {
    var log, agents := final.log, final.phases[Rank(s.nodes, i)].agents;
    || (s.nodes[i].id in s.recorded && forall n :: 0 <= n < |log| ==> !Touches(log[n], i))
    || (exists m :: 0 <= m < |log| && Warranted(s, log, agents, i, m)
          && forall n :: m < n < |log| ==> !Touches(log[n], i))
  }

  /** In every run, fresh or resumed, a gated phase (not interactive) ends up completed only if the run found it
      done and never came near it; or the last event that concerns it is its completion, right after its critic's
      approval, or right after a rejection that was waived: its jump had no target, or none of the agents in its
      record is one that the rejection would rerun; or a resumed run found all its agents completed. */
  lemma GatesHold(s: Setup, st: RunState, env: Env, i: nat)
    requires Starts(s, st) && Gated(s.nodes, i) && !InteractiveAt(s.nodes, i)
    requires Rank(s.nodes, i) < |Run(s, env, 0, st).phases|
    requires Run(s, env, 0, st).phases[Rank(s.nodes, i)].status == Completed
    ensures GateHeld(s, Run(s, env, 0, st), i)
  {
    StartEvidence(s, st);
    RunEvidence(s, env, 0, st);
    RunConforms(s, env, 0, st);
    RunCauses(s, env, 0, st);
    EvidenceHolds(s, Run(s, env, 0, st), i);
  }

  lemma EvidenceHolds(s: Setup, final: RunState, i: nat)
    requires Evidence(s, final) && CausesStand(s, final) && Conforms(s, final.log)
    requires Gated(s.nodes, i) && !InteractiveAt(s.nodes, i)
    requires Rank(s.nodes, i) < |final.phases| && final.phases[Rank(s.nodes, i)].status == Completed
    ensures GateHeld(s, final, i)
  {
    var log := final.log;
    assert PhaseDone(s, log, i);
    assert CauseStands(s, final, i);
    if Standing(log, i).Some? {
      var m := StandingAt(log, i);
      assert Touches(log[m], i);
      if log[m] == Finished(i) {
        GateEvent(s, log, i, m);
      }
      assert Warranted(s, log, final.phases[Rank(s.nodes, i)].agents, i, m);
    } else {
      StandingNone(log, i);
    }
  }

  lemma {:induction false} StandingNone(log: seq<Event>, i: nat)
    requires Standing(log, i) == None
    ensures forall n :: 0 <= n < |log| ==> !Touches(log[n], i)
  {
    if log != [] {
      StandingNone(log[..|log| - 1], i);
      assert forall n :: 0 <= n < |log| - 1 ==> log[n] == log[..|log| - 1][n];
    }
  }
}
