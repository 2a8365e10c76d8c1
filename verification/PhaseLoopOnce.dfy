/** When a run enters no orchestration node twice. */
module PhaseLoopOnce {
  import opened WorkflowNode
  import opened PhaseLoop
  import opened PhaseLoopLog
  import opened PhaseLoopOrder
  import opened PhaseLoopEntries
  import opened PhaseLoopRuns

  /** The record of this orchestration node is closed, or the node is branch-skipped. */
  predicate Shut(s: Setup, st: RunState, k: nat)
    requires k < |s.nodes|
  {
    s.nodes[k].id in st.skipped || (s.nodes[k].id in st.orche && Closing(st.orche[s.nodes[k].id]))
  }

  /** Orchestration nodes before one that was entered are shut, and so are those that were entered, once each. */
  ghost predicate ShutBehind(s: Setup, st: RunState) {
    && (forall j, k :: 0 <= k < j < |s.nodes| && s.nodes[k].IsOrche() && Entries(st.log, j) > 0 ==> Shut(s, st, k))
    && (forall j :: 0 <= j < |s.nodes| && s.nodes[j].IsOrche() && Entries(st.log, j) > 0 ==>
          Entries(st.log, j) == 1 && Shut(s, st, j))
  }

  ghost predicate Tidy(s: Setup, st: RunState) {
    && WellPlanned(s.nodes) && NeverReopens(s.nodes) && s.recorded == {}
    && Advancing(s, st) && ReviewsNew(s, st)
    && (forall j :: 0 <= j < |s.nodes| && s.nodes[j].IsOrche() ==> Entries(st.log, j) <= 1)
    && (!st.place.Ended? ==> ShutBehind(s, st))
  }

  lemma PassedIsShut(s: Setup, st: RunState, k: nat)
    requires Tidy(s, st) && k < st.idx <= |s.nodes| && s.nodes[k].IsOrche()
    ensures Shut(s, st, k)
  {
    NothingBehind(s, st.log, k);
    assert Done(s, st, k);
  }

  /** A step that starts orchestration node `idx` leaves the records of earlier nodes shut. */
  lemma ShutStays(s: Setup, st: RunState, a: Answer, k: nat)
    requires Valid(s, st) && st.place.AtNode? && Tidy(s, st) && k < |s.nodes| && Shut(s, st, k)
    requires st.idx < |s.nodes| && StepNode(s, st, a).log != st.log ==> k < st.idx || !s.nodes[st.idx].IsOrche()
    ensures Shut(s, StepNode(s, st, a), k)
  {
    var st' := StepNode(s, st, a);
    NodeFrame(s, st, a);
    ActedIsEffect(s, st, a);
    if st.idx < |s.nodes| && !s.nodes[st.idx].IsOrche() {
      KeepsOrche(s, st, a);
    }
    if st'.log == st.log {
      QuietFacts(s, st, a);
    }
  }

  /** A node that starts is open, so no later one was entered yet, nor it itself. */
  lemma StartsFirst(s: Setup, st: RunState, a: Answer, j: nat)
    requires Valid(s, st) && st.place.AtNode? && ShutBehind(s, st) && StepNode(s, st, a).log != st.log
    requires st.idx < |s.nodes| && s.nodes[st.idx].IsOrche() && st.idx <= j < |s.nodes|
    ensures Entries(st.log, j) == 0
  {
    StartedFacts(s, st, a);
    assert !Shut(s, st, st.idx);
  }

  lemma NodeEntriesAre(s: Setup, st: RunState, a: Answer, j: nat)
    requires Valid(s, st) && st.place.AtNode?
    ensures
      var log' := StepNode(s, st, a).log;
      || Entries(log', j) == Entries(st.log, j)
      || (j == st.idx && log' != st.log && Entries(log', j) == Entries(st.log, j) + 1)
  {
    NodeGrows(s, st, a);
    var evs :| StepNode(s, st, a).log == st.log + evs && NodeRound(s, st, StepNode(s, st, a), evs);
    CountAppend(st.log, evs, j);
    CountShort(evs, j);
  }

  lemma NodeCounts(s: Setup, st: RunState, a: Answer, j: nat)
    requires Valid(s, st) && st.place.AtNode? && Tidy(s, st) && j < |s.nodes| && s.nodes[j].IsOrche()
    ensures
      var st' := StepNode(s, st, a);
      Entries(st'.log, j) <= 1 && (Entries(st'.log, j) > 0 && !st'.place.Ended? ==> Shut(s, st', j))
  {
    var st' := StepNode(s, st, a);
    NodeEntriesAre(s, st, a, j);
    var starts := st.idx < |s.nodes| && st'.log != st.log && s.nodes[st.idx].IsOrche();
    if starts && st.idx <= j {
      StartsFirst(s, st, a, j);
      StartedFacts(s, st, a);
    } else if Entries(st.log, j) > 0 {
      ShutStays(s, st, a, j);
    }
  }

  lemma NodeShuts(s: Setup, st: RunState, a: Answer, j: nat, k: nat)
    requires Valid(s, st) && st.place.AtNode? && Tidy(s, st) && k < j < |s.nodes| && s.nodes[k].IsOrche()
    requires Entries(StepNode(s, st, a).log, j) > 0
    ensures Shut(s, StepNode(s, st, a), k)
  {
    var st' := StepNode(s, st, a);
    NodeEntriesAre(s, st, a, j);
    if Entries(st.log, j) == 0 {
      PassedIsShut(s, st, k);
    }
    if st.idx < |s.nodes| && st'.log != st.log && s.nodes[st.idx].IsOrche() && st.idx < j {
      StartsFirst(s, st, a, j);
    }
    ShutStays(s, st, a, k);
  }

  lemma NodeTidy(s: Setup, st: RunState, a: Answer)
    requires Valid(s, st) && st.place.AtNode? && Tidy(s, st)
    ensures Tidy(s, StepNode(s, st, a))
  {
    var st' := StepNode(s, st, a);
    StepAdvances(s, st, a);
    NodeLawful(s, st, a);
    forall j | 0 <= j < |s.nodes| && s.nodes[j].IsOrche()
      ensures Entries(st'.log, j) <= 1 && (Entries(st'.log, j) > 0 && !st'.place.Ended? ==> Shut(s, st', j))
    {
      NodeCounts(s, st, a, j);
    }
    forall j, k | 0 <= k < j < |s.nodes| && s.nodes[k].IsOrche() && Entries(st'.log, j) > 0
      ensures Shut(s, st', k)
    {
      NodeShuts(s, st, a, j, k);
    }
  }

  lemma ReviewShuts(s: Setup, st: RunState, st': RunState, evs: seq<Event>)
    requires Valid(s, st) && st.place.InReview? && ShutBehind(s, st)
    requires ReviewRound(s, st, st', evs) && st'.log == st.log + evs
    requires st'.orche == st.orche && st'.skipped == st.skipped
    ensures ShutBehind(s, st')
  {
    forall j: nat
      ensures Entries(st'.log, j) == Entries(st.log, j)
    {
      ReviewEntersNothing(s, st, st', evs, j);
    }
    assert forall k :: 0 <= k < |s.nodes| && Shut(s, st, k) ==> Shut(s, st', k);
  }

  lemma ReviewTidy(s: Setup, st: RunState, a: Answer)
    requires Valid(s, st) && st.place.InReview? && Tidy(s, st)
    ensures Tidy(s, StepReview(s, st, a))
  {
    var st' := StepReview(s, st, a);
    StepAdvances(s, st, a);
    ReviewLawful(s, st, a);
    ReviewFrames(s, st, a);
    ReviewGrows(s, st, a);
    var evs :| st'.log == st.log + evs && ReviewRound(s, st, st', evs);
    ReviewShuts(s, st, st', evs);
  }

  /** In a well planned definition whose retries cannot leave an earlier record open, a fresh run enters no
      orchestration node twice, however many jumps reset the phases around it. */
  lemma NoNodeTwice(nodes: seq<Node>, env: Env, i: nat)
    requires WellPlanned(nodes) && NeverReopens(nodes) && i < |nodes| && nodes[i].IsOrche()
    ensures Entries(Run(FreshSetup(nodes), env, 0, FreshState(nodes)).log, i) <= 1
  {
    var s, st := FreshSetup(nodes), FreshState(nodes);
    var P := (x: RunState) => Tidy(s, x);
    FreshHasRecords(nodes);
    forall x: RunState, u: nat | Valid(s, x) && !x.place.Ended? && P(x)
      ensures P(Step(s, x, env(u)))
    {
      if x.place.AtNode? {
        NodeTidy(s, x, env(u));
      } else {
        ReviewTidy(s, x, env(u));
      }
    }
    RunKeeps(s, env, 0, st, P);
  }
}
