/** What the log of a run can look like: which event may follow which, and how often. */
module PhaseLoopLog {
  import opened WorkflowNode
  import opened PhaseLoop

  // ---- One step's events ----

  predicate Gated(nodes: seq<Node>, i: nat) {
    ReviewsAt(nodes, i) && CriticAt(nodes, i).gate
  }

  predicate InteractiveAt(nodes: seq<Node>, i: nat) {
    i < |nodes| && nodes[i].kind.Phase? && nodes[i].kind.def.mode == Interactive
  }

  /** A gate's rejection may be waived: its jump has no target, or a targeted retry found no agent. */
  predicate MayWaive(nodes: seq<Node>, i: nat) {
    && Gated(nodes, i)
    && var critic := CriticAt(nodes, i);
       if critic.Jumps() then NodeIndex(PhaseDefs(nodes), critic.gotoPhase).None? else critic.Policy() == RetryTargeted
  }

  predicate OrcheAt(nodes: seq<Node>, i: nat) {
    i < |nodes| && nodes[i].IsOrche()
  }

  /** The event is what the handler of node `i` did. */
  predicate ActedAt(e: Event, i: nat) {
    e.Acted? && e.i == i
  }

  predicate NodeRound(s: Setup, st: RunState, st': RunState, evs: seq<Event>) {
    var i := st.idx;
    || (evs == [] && !st'.place.InReview?)
    || (evs == [Recovered(i)] && st'.place.AtNode? && s.resumed && !OrcheAt(s.nodes, i))
    || (evs == [Started(i)] && st'.place.Ended? && st'.status == Errored && !OrcheAt(s.nodes, i))
    || (evs == [Started(i)] && st'.place.InReview? && ReviewsAt(s.nodes, i) && !InteractiveAt(s.nodes, i))
    || (evs == [Started(i), Finished(i)] && st'.place.AtNode? && !OrcheAt(s.nodes, i)
          && (ReviewsAt(s.nodes, i) ==> InteractiveAt(s.nodes, i)))
    || (|evs| == 2 && evs[0] == Started(i) && ActedAt(evs[1], i) && st'.place.Ended? && OrcheAt(s.nodes, i)
          && (st'.status == Errored || st'.status == WaitingForUser))
    || (|evs| == 3 && evs[0] == Started(i) && ActedAt(evs[1], i) && evs[2] == Finished(i) && st'.place.AtNode?
          && OrcheAt(s.nodes, i))
  }

  predicate ReviewRound(s: Setup, st: RunState, st': RunState, evs: seq<Event>)
    requires Valid(s, st) && st.place.InReview?
  {
    var i, r := st.idx, st.place.retries;
    var critic := CriticAt(s.nodes, i);
    && evs != [] && evs[0].Reviewed? && evs[0].i == i && evs[0].attempt == r
    && (|| (|evs| == 2 && evs[1] == Finished(i) && st'.place.AtNode? && st'.idx == i + 1
              && (evs[0].approved || !critic.gate))
        || (|evs| == 3 && evs[1] == Waived(i) && evs[2] == Finished(i) && !evs[0].approved && st'.place.AtNode?
              && st'.idx == i + 1 && MayWaive(s.nodes, i))
        || (|evs| == 2 && evs[1] == Retried(i, r + 1) && !evs[0].approved && Stays(st, st') && critic.gate
              && (critic.Policy() == RetryAll || critic.Policy() == RetryTargeted))
        || (|evs| == 2 && evs[1] == Jumped(i, st'.idx) && !evs[0].approved && st'.place.AtNode? && critic.gate
              && critic.Jumps() && critic.Retries() > 0
              && st'.idx < |s.nodes| && s.nodes[st'.idx].id == critic.gotoPhase
              && Budget(s.nodes, st'.gotos) < Budget(s.nodes, st.gotos))
        || (|evs| == 1 && !evs[0].approved && Stays(st, st') && critic.gate && critic.Policy() == Goto
              && !critic.Jumps())
        || (|evs| == 1 && !evs[0].approved && st'.place.Ended? && st'.idx == i && critic.gate
              && (st'.status == WaitingForUser || st'.status == Errored)))
  }

  /** The critic is to be asked once more. */
  predicate Stays(st: RunState, st': RunState)
    requires st.place.InReview?
  {
    st'.place.InReview? && st'.idx == st.idx && st'.place.retries == st.place.retries + 1
  }

  /** The step's own events, and what it leaves of the place. */
  ghost predicate Grows(s: Setup, st: RunState, st': RunState)
    requires Valid(s, st) && !st.place.Ended?
  {
    && |st.log| <= |st'.log| && st'.log[..|st.log|] == st.log
    && var evs := st'.log[|st.log|..];
       if st.place.AtNode? then NodeRound(s, st, st', evs) else ReviewRound(s, st, st', evs)
  }

  lemma Appended(log: seq<Event>, evs: seq<Event>)
    ensures (log + evs)[..|log|] == log && (log + evs)[|log|..] == evs
  {
  }

  lemma StartGrows(s: Setup, st: RunState, k: nat, a: Answer)
    requires st.place.AtNode? && st.idx < |s.nodes| && !s.nodes[st.idx].IsOrche() && k < |st.phases|
    ensures
      var st' := StartPhase(s, st, k, a);
      exists evs :: st'.log == st.log + evs && NodeRound(s, st, st', evs)
  {
    var i := st.idx;
    var st' := StartPhase(s, st, k, a);
    if st'.place.AtNode? {
      assert st'.log == st.log + [Started(i), Finished(i)];
      assert NodeRound(s, st, st', [Started(i), Finished(i)]);
    } else {
      assert st'.log == st.log + [Started(i)];
      assert NodeRound(s, st, st', [Started(i)]);
    }
  }

  /** What the log says that the handler of node `i` did when it answers so. */
  function Deed(s: Setup, i: nat, a: OrcheAnswer): (e: Event)
    requires i < |s.nodes|
    ensures ActedAt(e, i)
  {
    Acted(i, a.Decision(), Effect(s.nodes, i, a.marks), Inactive(s.nodes[i].kind, a.Decision()))
  }

  lemma OrcheGrows(s: Setup, st: RunState, a: OrcheAnswer)
    requires st.place.AtNode? && st.idx < |s.nodes| && s.nodes[st.idx].IsOrche()
    ensures
      var st' := StepOrche(s, st, a);
      exists evs :: st'.log == st.log + evs && NodeRound(s, st, st', evs)
  {
    var i := st.idx;
    var st' := StepOrche(s, st, a);
    if st'.log == st.log {
      assert st'.log == st.log + [];
      assert NodeRound(s, st, st', []);
    } else {
      var acted := Deed(s, i, a);
      if st'.place.AtNode? {
        assert st'.log == st.log + [Started(i), acted, Finished(i)];
        assert NodeRound(s, st, st', [Started(i), acted, Finished(i)]);
      } else {
        assert st'.log == st.log + [Started(i), acted];
        assert NodeRound(s, st, st', [Started(i), acted]);
      }
    }
  }

  lemma PhaseGrows(s: Setup, st: RunState, a: Answer)
    requires st.place.AtNode? && st.idx < |s.nodes| && !s.nodes[st.idx].IsOrche()
    ensures
      var st' := StepPhase(s, st, a);
      exists evs :: st'.log == st.log + evs && NodeRound(s, st, st', evs)
  {
    var i := st.idx;
    var st' := StepPhase(s, st, a);
    if st'.log == st.log {
      assert st'.log == st.log + [];
      assert NodeRound(s, st, st', []);
    } else {
      var k := PhaseIndex(st.phases, s.nodes[i].id).value;
      if st' == StartPhase(s, st, k, a) {
        StartGrows(s, st, k, a);
      } else {
        assert st'.log == st.log + [Recovered(i)];
        assert NodeRound(s, st, st', [Recovered(i)]);
      }
    }
  }

  lemma NodeGrows(s: Setup, st: RunState, a: Answer)
    requires Valid(s, st) && st.place.AtNode?
    ensures
      var st' := StepNode(s, st, a);
      exists evs :: st'.log == st.log + evs && NodeRound(s, st, st', evs)
  {
    var st' := StepNode(s, st, a);
    NodeStepCases(s, st, a, st');
    if st.idx < |s.nodes| && s.nodes[st.idx].IsOrche() && st' == StepOrche(s, st, a.orche) {
      OrcheGrows(s, st, a.orche);
    } else if st.idx < |s.nodes| && !s.nodes[st.idx].IsOrche() && st' == StepPhase(s, st, a) {
      PhaseGrows(s, st, a);
    } else {
      assert st'.log == st.log + [];
      assert NodeRound(s, st, st', []);
    }
  }

  lemma PhaseDefsFound(nodes: seq<Node>, id: string)
    requires NodeIndex(PhaseDefs(nodes), id).Some?
    ensures NodeIndex(nodes, id).Some?
  {
    var t := NodeIndex(PhaseDefs(nodes), id).value;
    assert PhaseDefs(nodes)[t] in nodes;
  }

  /** A rejected gate's jump: it is too many, has no target, or is made. */
  lemma JumpEnds(s: Setup, st1: RunState)
    requires Valid(s, st1) && st1.place.InReview? && CriticAt(s.nodes, st1.idx).Jumps()
    ensures
      var i, k, st' := st1.idx, st1.place.k, Jump(s, st1);
      var critic := CriticAt(s.nodes, i);
      var t := NodeIndex(PhaseDefs(s.nodes), critic.gotoPhase);
      && st'.gotos == CountJump(st1.gotos, KeyAt(s.nodes, i))
      && st'.skipped == st1.skipped && st'.orche == st1.orche
      && if GotoCount(st1.gotos, KeyAt(s.nodes, i)) + 1 > critic.Retries() then
           st'.log == st1.log && st'.phases == st1.phases && st'.idx == i && st'.place.Ended?
             && st'.status == WaitingForUser
         else if t.None? then
           st'.log == st1.log + [Waived(i), Finished(i)] && st'.phases == SetStatus(st1, k, Completed).phases
             && st'.idx == i + 1 && st'.place.AtNode?
         else
           && NodeIndex(s.nodes, critic.gotoPhase) == Some(st'.idx) && st'.place.AtNode?
           && st'.log == st1.log + [Jumped(i, st'.idx)] && st'.phases == ResetRange(st1.phases, t.value, k)
  {
    if NodeIndex(PhaseDefs(s.nodes), CriticAt(s.nodes, st1.idx).gotoPhase).Some? {
      PhaseDefsFound(s.nodes, CriticAt(s.nodes, st1.idx).gotoPhase);
    }
  }

  /** A rejection by a gate that jumps. */
  predicate RejectsToJump(s: Setup, st: RunState, first: Event)
    requires Valid(s, st)
  {
    && st.place.InReview? && Gated(s.nodes, st.idx) && CriticAt(s.nodes, st.idx).Jumps()
    && first.Reviewed? && first.i == st.idx && first.attempt == st.place.retries && !first.approved
  }

  lemma JumpMadeGrows(s: Setup, st: RunState, first: Event, st': RunState)
    requires Valid(s, st) && RejectsToJump(s, st, first)
    requires GotoCount(st.gotos, KeyAt(s.nodes, st.idx)) < CriticAt(s.nodes, st.idx).Retries()
    requires st'.gotos == CountJump(st.gotos, KeyAt(s.nodes, st.idx)) && st'.place.AtNode?
    requires NodeIndex(s.nodes, CriticAt(s.nodes, st.idx).gotoPhase) == Some(st'.idx)
    ensures ReviewRound(s, st, st', [first, Jumped(st.idx, st'.idx)])
  {
    BudgetDrops(s.nodes, st.gotos, st.idx);
  }

  lemma JumpGrows(s: Setup, st: RunState, first: Event)
    requires Valid(s, st) && RejectsToJump(s, st, first)
    ensures
      var st' := Jump(s, Log(SetStatus(st, st.place.k, Reviewing), first));
      exists evs :: st'.log == st.log + evs && ReviewRound(s, st, st', evs)
  {
    var i := st.idx;
    var critic := CriticAt(s.nodes, i);
    var st1 := Log(SetStatus(st, st.place.k, Reviewing), first);
    var st' := Jump(s, st1);
    JumpEnds(s, st1);
    if GotoCount(st.gotos, KeyAt(s.nodes, i)) + 1 > critic.Retries() {
      assert ReviewRound(s, st, st', [first]);
    } else if NodeIndex(PhaseDefs(s.nodes), critic.gotoPhase).None? {
      assert st'.log == st.log + [first, Waived(i), Finished(i)];
      assert ReviewRound(s, st, st', [first, Waived(i), Finished(i)]);
    } else {
      JumpMadeGrows(s, st, first, st');
      assert st'.log == st.log + [first, Jumped(i, st'.idx)];
    }
  }

  /** The review event that an answer makes. */
  function ReviewOf(st: RunState, a: Answer): Event
    requires st.place.InReview?
  {
    Reviewed(st.idx, st.place.retries, a.verdict.Passes(), a.verdict.Flagged())
  }

  lemma ReviewGrows(s: Setup, st: RunState, a: Answer)
    requires Valid(s, st) && st.place.InReview?
    ensures
      var st' := StepReview(s, st, a);
      exists evs :: st'.log == st.log + evs && ReviewRound(s, st, st', evs) && evs[0] == ReviewOf(st, a)
  {
    var i, r, ok := st.idx, st.place.retries, a.verdict.Passes();
    var critic := CriticAt(s.nodes, i);
    var st' := StepReview(s, st, a);
    var first := ReviewOf(st, a);
    if ok || !critic.gate {
      assert st'.log == st.log + [first, Finished(i)];
      assert ReviewRound(s, st, st', [first, Finished(i)]);
    } else if critic.Jumps() {
      JumpGrows(s, st, first);
      var evs :| st'.log == st.log + evs && ReviewRound(s, st, st', evs);
      assert st'.log[|st.log|] == first;
    } else {
      RetryGrows(s, st, a);
    }
  }

  lemma RerunEnds(st1: RunState, cleared: PhaseState, defs: seq<string>, ans: AgentsAnswer)
    requires st1.place.InReview? && st1.place.k < |st1.phases|
    ensures
      var i, r, st' := st1.idx, st1.place.retries + 1, RerunAgents(st1, cleared, defs, ans);
      || (st'.log == st1.log && st'.place.Ended? && st'.status == Errored && st'.idx == i)
      || (st'.log == st1.log + [Retried(i, r)] && st'.place.InReview? && st'.place.retries == r && st'.idx == i)
  {
  }

  /** A retry breaks off, finds nobody to rerun, or goes to the next review. */
  lemma RetryEnds(s: Setup, st1: RunState, flagged: seq<string>, all: bool, ans: AgentsAnswer)
    requires Valid(s, st1) && st1.place.InReview? && st1.place.retries < CriticAt(s.nodes, st1.idx).Retries()
    ensures
      var i, r, st' := st1.idx, st1.place.retries + 1, RetryPhase(s, st1, flagged, all, ans);
      || (st'.log == st1.log && st'.place.Ended? && st'.status == Errored && st'.idx == i)
      || (st'.log == st1.log + [Waived(i), Finished(i)] && st'.place.AtNode? && st'.idx == i + 1 && !all)
      || (st'.log == st1.log + [Retried(i, r)] && st'.place.InReview? && st'.place.retries == r && st'.idx == i)
  {
    var ph := st1.phases[st1.place.k].(status := Running);
    var defs := s.nodes[st1.idx].kind.def.agents;
    if all {
      RerunEnds(st1, Reset(ph).(status := Running), defs, ans);
    } else {
      RerunEnds(st1, ph.(agents := Cleared(ph.agents, flagged)), RetryDefs(defs, ph.agents, flagged), ans);
    }
  }

  lemma RetryGrows(s: Setup, st: RunState, a: Answer)
    requires Valid(s, st) && st.place.InReview? && Gated(s.nodes, st.idx) && !CriticAt(s.nodes, st.idx).Jumps()
    requires !a.verdict.Passes()
    ensures
      var st' := StepReview(s, st, a);
      exists evs :: st'.log == st.log + evs && ReviewRound(s, st, st', evs) && evs[0] == ReviewOf(st, a)
  {
    var i, r := st.idx, st.place.retries;
    var critic := CriticAt(s.nodes, i);
    var st' := StepReview(s, st, a);
    var first := ReviewOf(st, a);
    var st1 := Log(SetStatus(st, st.place.k, Reviewing), first);
    if critic.Policy() == Escalate || r + 1 > critic.Retries() || critic.Policy() == Rejection.Goto {
      assert ReviewRound(s, st, st', [first]);
    } else {
      RetryEnds(s, st1, a.verdict.Flagged(), critic.Policy() == RetryAll, a.agents);
      if st'.place.Ended? {
        assert ReviewRound(s, st, st', [first]);
      } else if st'.place.AtNode? {
        assert st'.log == st.log + [first, Waived(i), Finished(i)];
        assert ReviewRound(s, st, st', [first, Waived(i), Finished(i)]);
      } else {
        assert st'.log == st.log + [first, Retried(i, r + 1)];
        assert ReviewRound(s, st, st', [first, Retried(i, r + 1)]);
      }
    }
  }

  lemma StepGrows(s: Setup, st: RunState, a: Answer)
    requires Valid(s, st) && !st.place.Ended?
    ensures Grows(s, st, Step(s, st, a))
  {
    var st' := Step(s, st, a);
    if st.place.AtNode? {
      NodeGrows(s, st, a);
      var evs :| st'.log == st.log + evs && NodeRound(s, st, st', evs);
      Appended(st.log, evs);
    } else {
      ReviewGrows(s, st, a);
      var evs :| st'.log == st.log + evs && ReviewRound(s, st, st', evs);
      Appended(st.log, evs);
    }
  }

  // ---- Grammar ----

  /** After these events a run is between two nodes. */
  predicate Closed(e: Option<Event>) {
    e.None? || e.value.Finished? || e.value.Recovered? || e.value.Jumped?
  }

  predicate Rejected(e: Option<Event>, i: nat) {
    e.Some? && e.value.Reviewed? && e.value.i == i && !e.value.approved
  }

  /** Which event may come after which (`None` is the beginning of the run). */
  predicate Follows(s: Setup, prev: Option<Event>, e: Event) {
    match e
    case Started(i) => Closed(prev)
    case Acted(i, _, _, _) => prev == Some(Started(i)) && OrcheAt(s.nodes, i)
    case Recovered(i) => Closed(prev) && s.resumed && !OrcheAt(s.nodes, i)
    case Finished(i) =>
      || (prev == Some(Started(i)) && !OrcheAt(s.nodes, i) && (ReviewsAt(s.nodes, i) ==> InteractiveAt(s.nodes, i)))
      || (prev.Some? && ActedAt(prev.value, i))
      || prev == Some(Waived(i))
      || (prev.Some? && prev.value.Reviewed? && prev.value.i == i && (prev.value.approved || !Gated(s.nodes, i)))
    case Reviewed(i, attempt, _, _) =>
      && ReviewsAt(s.nodes, i) && !InteractiveAt(s.nodes, i)
      && attempt <= CriticAt(s.nodes, i).Retries()
      && if attempt == 0 then prev == Some(Started(i)) else
           || prev == Some(Retried(i, attempt))
           || (Rejected(prev, i) && prev.value.attempt == attempt - 1 && Gated(s.nodes, i)
             && CriticAt(s.nodes, i).Policy() == Goto)
    case Waived(i) => MayWaive(s.nodes, i) && Rejected(prev, i)
    case Retried(i, attempt) =>
      && Gated(s.nodes, i) && attempt > 0 && Rejected(prev, i) && prev.value.attempt == attempt - 1
      && (CriticAt(s.nodes, i).Policy() == RetryAll || CriticAt(s.nodes, i).Policy() == RetryTargeted)
    case Jumped(i, target) =>
      && Gated(s.nodes, i) && CriticAt(s.nodes, i).Jumps() && CriticAt(s.nodes, i).Retries() > 0 && Rejected(prev, i)
      && target < |s.nodes| && s.nodes[target].id == CriticAt(s.nodes, i).gotoPhase
  }

  function Before(log: seq<Event>, m: nat): Option<Event>
    requires m <= |log|
  {
    if m == 0 then None else Some(log[m - 1])
  }

  /** Every event may follow the one before it. */
  ghost predicate Conforms(s: Setup, log: seq<Event>) {
    log == [] || (Conforms(s, log[..|log| - 1]) && Follows(s, Before(log, |log| - 1), log[|log| - 1]))
  }

  lemma {:induction false} ConformsAt(s: Setup, log: seq<Event>, m: nat)
    requires Conforms(s, log) && m < |log|
    ensures Follows(s, Before(log, m), log[m])
  {
    if m < |log| - 1 {
      ConformsAt(s, log[..|log| - 1], m);
    }
  }

  /** What the last event says about the place of the run. */
  predicate LastFits(s: Setup, st: RunState)
    requires Valid(s, st)
  {
    var last := Before(st.log, |st.log|);
    match st.place
    case AtNode => Closed(last)
    case InReview(_, r) =>
      && !InteractiveAt(s.nodes, st.idx)
      && if r == 0 then last == Some(Started(st.idx)) else
           || last == Some(Retried(st.idx, r))
           || (Rejected(last, st.idx) && last.value.attempt == r - 1 && Gated(s.nodes, st.idx)
             && CriticAt(s.nodes, st.idx).Policy() == Goto)
    case Ended =>
      && (st.status == Succeeded || st.status == Cancelled ==> Closed(last))
      && (last.Some? && last.value.Reviewed? ==>
            Rejected(last, last.value.i) && (st.status == WaitingForUser || st.status == Errored))
  }

  lemma ConformsAppend(s: Setup, log: seq<Event>, e: Event)
    requires Conforms(s, log) && Follows(s, Before(log, |log|), e)
    ensures Conforms(s, log + [e])
  {
    assert (log + [e])[..|log|] == log;
  }

  lemma ConformsNext(s: Setup, log: seq<Event>, e0: Event, e: Event)
    requires Conforms(s, log + [e0]) && Follows(s, Some(e0), e)
    ensures Conforms(s, log + [e0] + [e])
  {
    var log1 := log + [e0];
    assert Before(log1, |log1|) == Some(e0);
    ConformsAppend(s, log1, e);
  }

  lemma ConformsAppendTwo(s: Setup, log: seq<Event>, e0: Event, e1: Event)
    requires Conforms(s, log) && Follows(s, Before(log, |log|), e0) && Follows(s, Some(e0), e1)
    ensures Conforms(s, log + [e0] + [e1])
  {
    ConformsAppend(s, log, e0);
    ConformsNext(s, log, e0, e1);
  }

  lemma InOnes(log: seq<Event>, evs: seq<Event>)
    requires 0 < |evs| <= 3
    ensures log + evs ==
      if |evs| == 1 then log + [evs[0]]
      else if |evs| == 2 then log + [evs[0]] + [evs[1]]
      else log + [evs[0]] + [evs[1]] + [evs[2]]
  {
  }

  lemma ConformsAppendAll(s: Setup, log: seq<Event>, evs: seq<Event>)
    requires Conforms(s, log) && |evs| <= 3
    requires |evs| > 0 ==> Follows(s, Before(log, |log|), evs[0])
    requires |evs| > 1 ==> Follows(s, Some(evs[0]), evs[1])
    requires |evs| > 2 ==> Follows(s, Some(evs[1]), evs[2])
    ensures Conforms(s, log + evs)
  {
    if evs == [] {
      assert log + evs == log;
    } else {
      InOnes(log, evs);
      if |evs| == 1 {
        ConformsAppend(s, log, evs[0]);
      } else {
        ConformsAppendTwo(s, log, evs[0], evs[1]);
        if |evs| == 3 {
          ConformsNext(s, log + [evs[0]], evs[1], evs[2]);
        }
      }
    }
  }

  lemma NodeConforms(s: Setup, st: RunState, st': RunState, evs: seq<Event>)
    requires Valid(s, st) && st.place.AtNode? && Conforms(s, st.log) && LastFits(s, st)
    requires Valid(s, st') && MovesOn(s, st, st') && NodeRound(s, st, st', evs) && st'.log == st.log + evs
    ensures Conforms(s, st'.log) && LastFits(s, st')
  {
    ConformsAppendAll(s, st.log, evs);
    assert Before(st'.log, |st'.log|) == if evs == [] then Before(st.log, |st.log|) else Some(evs[|evs| - 1]);
  }

  lemma ReviewConforms(s: Setup, st: RunState, st': RunState, evs: seq<Event>)
    requires Valid(s, st) && st.place.InReview? && Conforms(s, st.log) && LastFits(s, st)
    requires Valid(s, st') && ReviewRound(s, st, st', evs) && st'.log == st.log + evs
    ensures Conforms(s, st'.log) && LastFits(s, st')
  {
    assert |evs| > 0 && evs[0].Reviewed? && evs[0].i == st.idx && evs[0].attempt == st.place.retries;
    assert Follows(s, Before(st.log, |st.log|), evs[0]);
    ConformsAppendAll(s, st.log, evs);
    assert Before(st'.log, |st'.log|) == Some(evs[|evs| - 1]);
  }

  lemma StepConforms(s: Setup, st: RunState, a: Answer)
    requires Valid(s, st) && !st.place.Ended? && Conforms(s, st.log) && LastFits(s, st)
    requires Valid(s, Step(s, st, a))
    ensures Conforms(s, Step(s, st, a).log) && LastFits(s, Step(s, st, a))
  {
    var st' := Step(s, st, a);
    StepGrows(s, st, a);
    var evs := st'.log[|st.log|..];
    assert st'.log == st.log + evs;
    if st.place.AtNode? {
      NodeStepMoves(s, st, a);
      NodeConforms(s, st, st', evs);
    } else {
      ReviewConforms(s, st, st', evs);
    }
  }

  /** Every run's log is a word of the grammar, and its last event fits the way it ended. In particular a gated
      phase finishes only right after an approval or a permitted waiver, and any other rejection is followed by
      another review of the same phase, by a jump, or by the end of the run. */
  lemma {:induction false} RunConforms(s: Setup, env: Env, t: nat, st: RunState)
    requires Valid(s, st) && Conforms(s, st.log) && LastFits(s, st)
    ensures Conforms(s, Run(s, env, t, st).log) && LastFits(s, Run(s, env, t, st))
    decreases Budget(s.nodes, st.gotos), |s.nodes| - st.idx, Rounds(s, st)
  {
    if !st.place.Ended? {
      StepDescends(s, st, env(t));
      StepConforms(s, st, env(t));
      RunConforms(s, env, t + 1, Step(s, st, env(t)));
    }
  }

  // ---- Counting ----

  function Entries(log: seq<Event>, i: nat): nat {
    if log == [] then 0 else
      Entries(log[..|log| - 1], i) + if log[|log| - 1] == Started(i) then 1 else 0
  }

  function Jumps(log: seq<Event>): nat {
    if log == [] then 0 else
      Jumps(log[..|log| - 1]) + if log[|log| - 1].Jumped? then 1 else 0
  }

  lemma {:induction false} CountAppend(log: seq<Event>, evs: seq<Event>, i: nat)
    ensures Entries(log + evs, i) == Entries(log, i) + Entries(evs, i)
    ensures Jumps(log + evs) == Jumps(log) + Jumps(evs)
  {
    if evs == [] {
      assert log + evs == log;
    } else {
      CountAppend(log, evs[..|evs| - 1], i);
      assert (log + evs)[..|log + evs| - 1] == log + evs[..|evs| - 1];
    }
  }

  /** Jumps made and left stay within `most`; each node was entered at most once per pass over the list. */
  ghost predicate EntriesBounded(s: Setup, most: nat, st: RunState) {
    && Jumps(st.log) + Budget(s.nodes, st.gotos) <= most
    && forall i: nat :: Entries(st.log, i) <=
         Jumps(st.log) + if i < st.idx || (i == st.idx && !st.place.AtNode?) then 1 else 0
  }

  lemma EntriesKept(s: Setup, most: nat, st: RunState, st': RunState, evs: seq<Event>)
    requires EntriesBounded(s, most, st) && st'.log == st.log + evs
    requires Jumps(evs) + Budget(s.nodes, st'.gotos) <= Budget(s.nodes, st.gotos)
    requires forall i: nat :: i != st.idx ==> Entries(evs, i) == 0
    requires Jumps(evs) == 0 ==> st.idx <= st'.idx && (st.place.AtNode? || st'.idx > st.idx || !st'.place.AtNode?)
    requires Entries(evs, st.idx) <= if st.place.AtNode? && (st'.idx > st.idx || !st'.place.AtNode?) then 1 else 0
    ensures EntriesBounded(s, most, st')
  {
    CountAppend(st.log, evs, 0);
    forall i: nat
      ensures Entries(st'.log, i) <=
        Jumps(st'.log) + if i < st'.idx || (i == st'.idx && !st'.place.AtNode?) then 1 else 0
    {
      CountAppend(st.log, evs, i);
    }
  }

  lemma NodeEntries(s: Setup, most: nat, st: RunState, st': RunState, evs: seq<Event>)
    requires Valid(s, st) && st.place.AtNode? && EntriesBounded(s, most, st)
    requires MovesOn(s, st, st') && NodeRound(s, st, st', evs) && st'.log == st.log + evs
    ensures EntriesBounded(s, most, st')
  {
    forall i: nat {
      CountShort(evs, i);
    }
    EntriesKept(s, most, st, st', evs);
  }

  lemma ReviewEntries(s: Setup, most: nat, st: RunState, st': RunState, evs: seq<Event>)
    requires Valid(s, st) && Valid(s, st') && st.place.InReview? && EntriesBounded(s, most, st)
    requires Descends(s, st, st') && ReviewRound(s, st, st', evs) && st'.log == st.log + evs
    ensures EntriesBounded(s, most, st')
  {
    forall i: nat
      ensures Entries(evs, i) == 0
    {
      CountShort(evs, i);
    }
    CountShort(evs, 0);
    EntriesKept(s, most, st, st', evs);
  }

  lemma StepEntries(s: Setup, most: nat, st: RunState, a: Answer)
    requires Valid(s, st) && !st.place.Ended? && EntriesBounded(s, most, st)
    ensures EntriesBounded(s, most, Step(s, st, a))
  {
    var st' := Step(s, st, a);
    StepGrows(s, st, a);
    StepDescends(s, st, a);
    var evs := st'.log[|st.log|..];
    assert st'.log == st.log + evs;
    if st.place.AtNode? {
      NodeStepMoves(s, st, a);
      NodeEntries(s, most, st, st', evs);
    } else {
      ReviewEntries(s, most, st, st', evs);
    }
  }

  /** Counting in a step's own events. */
  lemma CountShort(evs: seq<Event>, i: nat)
    requires |evs| <= 3
    ensures Entries(evs, i) ==
      (if |evs| > 0 && evs[0] == Started(i) then 1 else 0) +
      (if |evs| > 1 && evs[1] == Started(i) then 1 else 0) +
      (if |evs| > 2 && evs[2] == Started(i) then 1 else 0)
    ensures Jumps(evs) ==
      (if |evs| > 0 && evs[0].Jumped? then 1 else 0) +
      (if |evs| > 1 && evs[1].Jumped? then 1 else 0) +
      (if |evs| > 2 && evs[2].Jumped? then 1 else 0)
  {
    if |evs| > 0 {
      var e1 := evs[..|evs| - 1];
      if |e1| > 0 {
        var e2 := e1[..|e1| - 1];
        if |e2| > 0 {
          assert e2[..|e2| - 1] == [];
        }
      }
    }
  }

  lemma RunEntries(s: Setup, most: nat, env: Env, t: nat, st: RunState)
    requires Valid(s, st) && EntriesBounded(s, most, st)
    ensures EntriesBounded(s, most, Run(s, env, t, st))
  {
    var P := (x: RunState) => EntriesBounded(s, most, x);
    forall x: RunState, u: nat | Valid(s, x) && !x.place.Ended? && P(x)
      ensures P(Step(s, x, env(u)))
    {
      StepEntries(s, most, x, env(u));
    }
    RunKeeps(s, env, t, st, P);
  }

  /** A state in which a run begins. */
  predicate Begins(st: RunState) {
    st.status == Active && st.idx == 0 && st.place.AtNode? && st.log == [] && st.gotos == map[]
  }

  /** Whatever agents, critics and handlers answer, no node is entered more often than once plus the jumps that
      all goto critics together allow. */
  lemma EachNodeEnteredAtMost(s: Setup, env: Env, st: RunState, i: nat)
    requires Begins(st)
    ensures Entries(Run(s, env, 0, st).log, i) <= 1 + Budget(s.nodes, map[])
    ensures Conforms(s, Run(s, env, 0, st).log)
  {
    RunEntries(s, Budget(s.nodes, map[]), env, 0, st);
    RunConforms(s, env, 0, st);
  }

  /** The critic calls since the last time node `i` was entered. */
  function CallsThisEntry(log: seq<Event>, i: nat): nat {
    if log == [] then 0 else
      var last := log[|log| - 1];
      if last == Started(i) then 0
      else CallsThisEntry(log[..|log| - 1], i) + if last.Reviewed? && last.i == i then 1 else 0
  }

  lemma {:induction false} CallsMatchAttempts(s: Setup, log: seq<Event>, i: nat)
    requires Conforms(s, log) && log != [] && (log[|log| - 1].Reviewed? || log[|log| - 1].Retried?)
      && log[|log| - 1].i == i
    ensures CallsThisEntry(log, i) == log[|log| - 1].attempt + if log[|log| - 1].Reviewed? then 1 else 0
  {
    var n := |log| - 1;
    assert Follows(s, Before(log, n), log[n]);
    var shorter := log[..n];
    if log[n].Reviewed? && log[n].attempt == 0 {
      assert shorter[n - 1] == Started(i);
    } else {
      CallsMatchAttempts(s, shorter, i);
    }
  }

  /** Per entry of a phase its critic is called at most once more than it may retry: at every point of the log. */
  lemma {:induction false} CallsBounded(s: Setup, log: seq<Event>, i: nat)
    requires Conforms(s, log) && ReviewsAt(s.nodes, i)
    ensures CallsThisEntry(log, i) <= CriticAt(s.nodes, i).Retries() + 1
  {
    if log != [] {
      var n := |log| - 1;
      var shorter := log[..n];
      CallsBounded(s, shorter, i);
      if log[n].Reviewed? && log[n].i == i {
        CallsMatchAttempts(s, log, i);
      }
    }
  }
}
