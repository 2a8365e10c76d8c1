/** How often a run enters orchestration nodes and nodes that were recorded done. */
module PhaseLoopEntries {
  import opened WorkflowNode
  import opened PhaseLoop
  import opened PhaseLoopLog
  import opened PhaseLoopOrder

  /** How often handlers of other nodes left this record open. */
  function Reopenings(log: seq<Event>, id: string): nat {
    if log == [] then 0
    else Reopenings(log[..|log| - 1], id) + if Opens(log[|log| - 1], id) then 1 else 0
  }

  lemma {:induction false} ReopeningsAppend(log: seq<Event>, evs: seq<Event>, id: string)
    ensures Reopenings(log + evs, id) == Reopenings(log, id) + Reopenings(evs, id)
  {
    if evs == [] {
      assert log + evs == log;
    } else {
      ReopeningsAppend(log, evs[..|evs| - 1], id);
      assert (log + evs)[..|log + evs| - 1] == log + evs[..|evs| - 1];
    }
  }

  lemma {:induction false} ReopensOnce(evs: seq<Event>, id: string, m: nat)
    requires m < |evs| && Opens(evs[m], id)
    ensures Reopenings(evs, id) >= 1
  {
    if m < |evs| - 1 {
      ReopensOnce(evs[..|evs| - 1], id, m);
    }
  }

  /** A recorded node was never entered; an orchestration node was entered once more than it was reopened at most, and
      while the run goes on with its record open, no more than that. */
  ghost predicate Once(s: Setup, st: RunState, i: nat)
    requires i < |s.nodes|
  {
    var id := s.nodes[i].id;
    && (id in s.recorded ==> Entries(st.log, i) == 0)
    && (s.nodes[i].IsOrche() ==>
          && id in st.orche
          && Entries(st.log, i) <= 1 + Reopenings(st.log, id)
          && (st.place.Ended? || Closing(st.orche[id]) || Entries(st.log, i) <= Reopenings(st.log, id)))
  }

  ghost predicate EachOnce(s: Setup, st: RunState) {
    forall i :: 0 <= i < |s.nodes| ==> Once(s, st, i)
  }

  lemma StartedFacts(s: Setup, st: RunState, a: Answer)
    requires Valid(s, st) && st.place.AtNode?
    ensures
      var st' := StepNode(s, st, a);
      st'.log != st.log ==>
        && st.idx < |s.nodes| && s.nodes[st.idx].id !in s.recorded && s.nodes[st.idx].id !in st.skipped
        && AllMet(st, s.nodes[st.idx].dependsOn)
        && (s.nodes[st.idx].IsOrche() && s.nodes[st.idx].id in st.orche ==>
              && !Closing(st.orche[s.nodes[st.idx].id])
              && st'.orche.Keys == st.orche.Keys
              && (st'.place.Ended? || Closing(st'.orche[s.nodes[st.idx].id])))
  {
    NodeStepCases(s, st, a, StepNode(s, st, a));
  }

  lemma OrcheQuiet(s: Setup, st: RunState, a: OrcheAnswer)
    requires st.idx < |s.nodes| && StepOrche(s, st, a).log == st.log
    ensures StepOrche(s, st, a) == Next(st)
  {
    assert |StepOrche(s, st, a).log| == |st.log|;
  }

  lemma QuietFacts(s: Setup, st: RunState, a: Answer)
    requires Valid(s, st) && st.place.AtNode? && StepNode(s, st, a).log == st.log
    ensures
      var st' := StepNode(s, st, a);
      st'.orche == st.orche || (st.idx < |s.nodes| && s.nodes[st.idx].id in st.orche
        && st'.orche == st.orche[s.nodes[st.idx].id := Skipped])
  {
    var st' := StepNode(s, st, a);
    NodeStepCases(s, st, a, st');
    if st.idx < |s.nodes| {
      if !s.nodes[st.idx].IsOrche() {
        PhaseKeepsOrche(s, st, a);
      } else if st' == StepOrche(s, st, a.orche) {
        OrcheQuiet(s, st, a.orche);
      }
    }
  }

  lemma OthersNotEntered(s: Setup, st: RunState, st': RunState, evs: seq<Event>, i: nat)
    requires NodeRound(s, st, st', evs) && i != st.idx && st'.log == st.log + evs
    ensures Entries(st'.log, i) == Entries(st.log, i)
  {
    CountAppend(st.log, evs, i);
    CountShort(evs, i);
  }

  /** Seen from a node with another record. */
  lemma OtherOnce(s: Setup, st: RunState, st': RunState, evs: seq<Event>, i: nat)
    requires Valid(s, st) && st.place.AtNode? && i < |s.nodes| && Once(s, st, i)
    requires i != st.idx && (st.idx < |s.nodes| ==> s.nodes[i].id != s.nodes[st.idx].id)
    requires Frame(s, st, st') && NodeRound(s, st, st', evs) && st'.log == st.log + evs
    ensures Once(s, st', i)
  {
    var id := s.nodes[i].id;
    OthersNotEntered(s, st, st', evs, i);
    ReopeningsAppend(st.log, evs, id);
    var marks := MarksFrom(st'.log, |st.log|);
    if id in marks && !marks[id] {
      assert st'.log[|st.log| + 1] == evs[1];
      ReopensOnce(evs, id, 1);
    }
  }

  /** Seen from the node at hand, or one with the same id. */
  lemma OwnOnce(s: Setup, st: RunState, a: Answer, evs: seq<Event>, i: nat)
    requires Valid(s, st) && st.place.AtNode? && st.idx < |s.nodes| && i < |s.nodes| && Once(s, st, i)
    requires s.nodes[i].id == s.nodes[st.idx].id
    requires NodeRound(s, st, StepNode(s, st, a), evs) && StepNode(s, st, a).log == st.log + evs
    ensures Once(s, StepNode(s, st, a), i)
  {
    CountAppend(st.log, evs, i);
    CountShort(evs, i);
    ReopeningsAppend(st.log, evs, s.nodes[i].id);
    StartedFacts(s, st, a);
    if evs == [] {
      assert st.log + evs == st.log;
      QuietFacts(s, st, a);
    } else {
      assert |StepNode(s, st, a).log| > |st.log|;
      if !s.nodes[st.idx].IsOrche() {
        PhaseFrame(s, st, a);
        KeepsOrche(s, st, a);
      }
    }
  }

  lemma KeepsOrche(s: Setup, st: RunState, a: Answer)
    requires Valid(s, st) && st.place.AtNode? && st.idx < |s.nodes| && !s.nodes[st.idx].IsOrche()
    ensures StepNode(s, st, a).orche == st.orche
  {
    NodeStepCases(s, st, a, StepNode(s, st, a));
    PhaseKeepsOrche(s, st, a);
  }

  lemma PhaseKeepsOrche(s: Setup, st: RunState, a: Answer)
    requires Valid(s, st) && st.idx < |s.nodes| && !s.nodes[st.idx].IsOrche()
    ensures StepPhase(s, st, a).orche == st.orche && StepPhase(s, st, a).skipped == st.skipped
  {
    var k := PhaseIndex(st.phases, s.nodes[st.idx].id);
    if k.Some? {
      StartFrame(s, st, k.value, a);
    }
  }

  lemma NodeOnce(s: Setup, st: RunState, a: Answer)
    requires Valid(s, st) && st.place.AtNode? && EachOnce(s, st)
    ensures EachOnce(s, StepNode(s, st, a))
  {
    NodeGrows(s, st, a);
    var evs :| StepNode(s, st, a).log == st.log + evs && NodeRound(s, st, StepNode(s, st, a), evs);
    NodeFrame(s, st, a);
    forall i | 0 <= i < |s.nodes|
      ensures Once(s, StepNode(s, st, a), i)
    {
      if st.idx < |s.nodes| && s.nodes[i].id == s.nodes[st.idx].id {
        OwnOnce(s, st, a, evs, i);
      } else {
        OtherOnce(s, st, StepNode(s, st, a), evs, i);
      }
    }
  }

  lemma ReviewEntersNothing(s: Setup, st: RunState, st': RunState, evs: seq<Event>, i: nat)
    requires Valid(s, st) && st.place.InReview? && ReviewRound(s, st, st', evs) && st'.log == st.log + evs
    ensures Entries(st'.log, i) == Entries(st.log, i)
  {
    CountAppend(st.log, evs, i);
    CountShort(evs, i);
  }

  lemma ReviewOnceToo(s: Setup, st: RunState, a: Answer)
    requires Valid(s, st) && st.place.InReview? && EachOnce(s, st)
    ensures EachOnce(s, StepReview(s, st, a))
  {
    var st' := StepReview(s, st, a);
    ReviewFrames(s, st, a);
    ReviewGrows(s, st, a);
    var evs :| st'.log == st.log + evs && ReviewRound(s, st, st', evs);
    forall i | 0 <= i < |s.nodes|
      ensures Once(s, st', i)
    {
      assert Once(s, st, i);
      ReviewEntersNothing(s, st, st', evs, i);
      ReopeningsAppend(st.log, evs, s.nodes[i].id);
    }
  }

  lemma RunOnce(s: Setup, env: Env, t: nat, st: RunState)
    requires Valid(s, st) && EachOnce(s, st)
    ensures EachOnce(s, Run(s, env, t, st))
  {
    var P := (x: RunState) => EachOnce(s, x);
    forall x: RunState, u: nat | Valid(s, x) && !x.place.Ended? && P(x)
      ensures P(Step(s, x, env(u)))
    {
      if x.place.AtNode? {
        NodeOnce(s, x, env(u));
      } else {
        ReviewOnceToo(s, x, env(u));
      }
    }
    RunKeeps(s, env, t, st, P);
  }

  /** However many jumps reset the phases around it, a run enters an orchestration node at most once more than
      handlers of other nodes left its record open, and it enters no node that it found completed or skipped. */
  lemma OrcheEnteredOnce(s: Setup, st: RunState, env: Env, i: nat)
    requires Begins(st) && i < |s.nodes|
    requires forall j :: 0 <= j < |s.nodes| && s.nodes[j].IsOrche() ==> s.nodes[j].id in st.orche
    ensures var log := Run(s, env, 0, st).log;
      && (s.nodes[i].IsOrche() ==> Entries(log, i) <= 1 + Reopenings(log, s.nodes[i].id))
      && (s.nodes[i].id in s.recorded ==> Entries(log, i) == 0)
  {
    RunOnce(s, env, 0, st);
    assert Once(s, Run(s, env, 0, st), i);
  }
}
