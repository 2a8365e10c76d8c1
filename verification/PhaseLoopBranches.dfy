/** What a branch decision switches off, told from the node's own fields and the branch decided on. */
module PhaseLoopBranches {
  import opened WorkflowNode
  import opened PhaseLoop
  import opened PhaseLoopLog
  import opened PhaseLoopOrder
  import opened PhaseLoopEntries
  import opened PhaseLoopEvidence

  // ---- Branches not taken ----

  /** Case `m` is the one taken: the first of the branch's name. */
  predicate Takes(cases: seq<Case>, branch: string, m: nat) {
    m < |cases| && cases[m].value == branch && forall j :: 0 <= j < m ==> cases[j].value != branch
  }

  /** Some case or the default lists the id. */
  predicate Listed(cases: seq<Case>, defaultTargets: seq<string>, id: string) {
    id in defaultTargets || exists m :: 0 <= m < |cases| && id in cases[m].targets
  }

  predicate TakenLists(cases: seq<Case>, branch: string, id: string) {
    exists m :: 0 <= m < |cases| && Takes(cases, branch, m) && id in cases[m].targets
  }

  /** The branch taken lists the id: the first matching case, or the default if none matches. */
  predicate OnTaken(cases: seq<Case>, defaultTargets: seq<string>, branch: string, id: string) {
    || TakenLists(cases, branch, id)
    || (id in defaultTargets && forall m :: 0 <= m < |cases| ==> cases[m].value != branch)
  }

  lemma {:induction false} ActiveAreTaken(cases: seq<Case>, defaultTargets: seq<string>, branch: string, id: string)
    ensures id in ActiveTargets(cases, defaultTargets, branch) <==> OnTaken(cases, defaultTargets, branch, id)
  {
    if cases == [] {
    } else if cases[0].value == branch {
      assert forall m :: Takes(cases, branch, m) ==> m == 0;
      assert Takes(cases, branch, 0);
    } else {
      var rest := cases[1..];
      ActiveAreTaken(rest, defaultTargets, branch, id);
      TakenLater(cases, branch, id);
      assert (forall m :: 0 <= m < |cases| ==> cases[m].value != branch)
        <==> (forall m :: 0 <= m < |rest| ==> rest[m].value != branch);
    }
  }

  lemma TakenLater(cases: seq<Case>, branch: string, id: string)
    requires cases != [] && cases[0].value != branch
    ensures TakenLists(cases, branch, id) <==> TakenLists(cases[1..], branch, id)
  {
    var rest := cases[1..];
    if m: nat :| m < |cases| && Takes(cases, branch, m) && id in cases[m].targets {
      assert rest[m - 1] == cases[m];
      assert Takes(rest, branch, m - 1);
    }
    if m: nat :| m < |rest| && Takes(rest, branch, m) && id in rest[m].targets {
      assert cases[m + 1] == rest[m];
      assert Takes(cases, branch, m + 1);
    }
  }

  lemma IfSwitchesOff(trueBranch: seq<string>, falseBranch: seq<string>, branch: string, id: string)
    ensures id in Inactive(If(trueBranch, falseBranch), branch)
       <==> (branch == "true" && id in falseBranch) || (branch != "" && branch != "true" && id in trueBranch)
  {
  }

  lemma SwitchSwitchesOff(cases: seq<Case>, defaultTargets: seq<string>, branch: string, id: string)
    ensures id in Inactive(Switch(cases, defaultTargets), branch)
       <==> branch != "" && Listed(cases, defaultTargets, id) && !OnTaken(cases, defaultTargets, branch, id)
  {
    ActiveAreTaken(cases, defaultTargets, branch, id);
    if id in Targets(cases) {
      var c :| c in cases && id in c.targets;
      var m :| 0 <= m < |cases| && cases[m] == c;
      assert id in cases[m].targets;
    }
    if m :| 0 <= m < |cases| && id in cases[m].targets {
      assert cases[m] in cases;
    }
  }

  // ---- One step ----

  /** An answered `if` newly skips exactly what the branch not taken lists. */
  lemma IfSkipsTheOther(s: Setup, st: RunState, a: Answer, id: string)
    requires Valid(s, st) && st.place.AtNode? && StepNode(s, st, a).log != st.log && st.idx < |s.nodes|
    requires s.nodes[st.idx].kind.If? && a.orche.Output?
    ensures
      var kind, branch := s.nodes[st.idx].kind, a.orche.branch;
      id in StepNode(s, st, a).skipped <==>
        || id in st.skipped
        || (branch == "true" && id in kind.falseBranch)
        || (branch != "" && branch != "true" && id in kind.trueBranch)
  {
    NodeStepCases(s, st, a, StepNode(s, st, a));
    IfSwitchesOff(s.nodes[st.idx].kind.trueBranch, s.nodes[st.idx].kind.falseBranch, a.orche.branch, id);
  }

  /** An answered `switch` newly skips exactly what some branch lists and the branch taken does not. */
  lemma SwitchSkipsTheOthers(s: Setup, st: RunState, a: Answer, id: string)
    requires Valid(s, st) && st.place.AtNode? && StepNode(s, st, a).log != st.log && st.idx < |s.nodes|
    requires s.nodes[st.idx].kind.Switch? && a.orche.Output?
    ensures
      var kind, branch := s.nodes[st.idx].kind, a.orche.branch;
      id in StepNode(s, st, a).skipped <==>
        || id in st.skipped
        || (branch != "" && Listed(kind.cases, kind.defaultTargets, id)
              && !OnTaken(kind.cases, kind.defaultTargets, branch, id))
  {
    NodeStepCases(s, st, a, StepNode(s, st, a));
    SwitchSwitchesOff(s.nodes[st.idx].kind.cases, s.nodes[st.idx].kind.defaultTargets, a.orche.branch, id);
  }

  // ---- Whole runs ----

  /** The decision for `branch` at a node of this kind is against the id. */
  predicate DecidedAgainst(kind: Kind, branch: string, id: string) {
    match kind
    case If(trueBranch, falseBranch) =>
      (branch == "true" && id in falseBranch) || (branch != "" && branch != "true" && id in trueBranch)
    case Switch(cases, defaultTargets) =>
      branch != "" && Listed(cases, defaultTargets, id) && !OnTaken(cases, defaultTargets, branch, id)
    case _ => false
  }

  lemma InactiveIsDecided(kind: Kind, branch: string, id: string)
    ensures id in Inactive(kind, branch) <==> DecidedAgainst(kind, branch, id)
  {
    match kind
    case If(trueBranch, falseBranch) => IfSwitchesOff(trueBranch, falseBranch, branch, id);
    case Switch(cases, defaultTargets) => SwitchSwitchesOff(cases, defaultTargets, branch, id);
    case _ =>
  }

  /** What a handler's report says is skipped is what its decision is against. */
  ghost predicate Decides(s: Setup, e: Event) {
    e.Acted? ==> e.i < |s.nodes| && forall id :: id in e.skips <==> DecidedAgainst(s.nodes[e.i].kind, e.branch, id)
  }

  /** No node was skipped by the time it was started. */
  ghost predicate StartsUnskipped(s: Setup, log: seq<Event>) {
    forall m :: 0 <= m < |log| && log[m].Started? && log[m].i < |s.nodes| ==>
      s.nodes[log[m].i].id !in SkippedBy(log[..m])
  }

  ghost predicate BranchesHold(s: Setup, st: RunState) {
    && st.skipped == SkippedBy(st.log)
    && (forall m :: 0 <= m < |st.log| ==> Decides(s, st.log[m]))
    && StartsUnskipped(s, st.log)
  }

  lemma UnskippedStays(s: Setup, log: seq<Event>, evs: seq<Event>)
    requires StartsUnskipped(s, log) && forall m :: 0 <= m < |evs| ==> !evs[m].Started? || m == 0
    requires evs != [] && evs[0].Started? && evs[0].i < |s.nodes| ==> s.nodes[evs[0].i].id !in SkippedBy(log)
    ensures StartsUnskipped(s, log + evs)
  {
    var log' := log + evs;
    forall m | 0 <= m < |log'| && log'[m].Started? && log'[m].i < |s.nodes|
      ensures s.nodes[log'[m].i].id !in SkippedBy(log'[..m])
    {
      if m < |log| {
        assert log'[m] == log[m] && log'[..m] == log[..m];
      } else {
        assert log'[m] == evs[m - |log|];
        assert log'[..m] == log;
      }
    }
  }

  lemma DecidesAppend(s: Setup, log: seq<Event>, evs: seq<Event>)
    requires forall m :: 0 <= m < |log| ==> Decides(s, log[m])
    requires forall m :: 0 <= m < |evs| ==> Decides(s, evs[m])
    ensures forall m :: 0 <= m < |log + evs| ==> Decides(s, (log + evs)[m])
  {
  }

  lemma DeedDecides(s: Setup, i: nat, a: OrcheAnswer)
    requires i < |s.nodes|
    ensures Decides(s, Deed(s, i, a))
  {
    forall id: string
      ensures id in Inactive(s.nodes[i].kind, a.Decision()) <==> DecidedAgainst(s.nodes[i].kind, a.Decision(), id)
    {
      InactiveIsDecided(s.nodes[i].kind, a.Decision(), id);
    }
  }

  lemma OrcheEvents(s: Setup, st: RunState, a: OrcheAnswer)
    requires Valid(s, st) && st.idx < |s.nodes|
    ensures
      var evs := StepOrche(s, st, a).log[|st.log|..];
      forall m :: 0 <= m < |evs| ==> evs[m].Acted? ==> evs[m] == Deed(s, st.idx, a)
  {
  }

  /** An orchestration node's own events decide. */
  lemma OrcheDecides(s: Setup, st: RunState, a: OrcheAnswer, evs: seq<Event>)
    requires Valid(s, st) && st.idx < |s.nodes| && StepOrche(s, st, a).log == st.log + evs
    ensures forall m :: 0 <= m < |evs| ==> Decides(s, evs[m])
  {
    DeedDecides(s, st.idx, a);
    OrcheEvents(s, st, a);
    assert evs == StepOrche(s, st, a).log[|st.log|..];
  }

  lemma PhaseDecides(s: Setup, st: RunState, st': RunState, evs: seq<Event>)
    requires !OrcheAt(s.nodes, st.idx) && NodeRound(s, st, st', evs)
    ensures forall m :: 0 <= m < |evs| ==> Decides(s, evs[m])
  {
  }

  lemma NodeDecides(s: Setup, st: RunState, a: Answer, evs: seq<Event>)
    requires Valid(s, st) && st.place.AtNode? && StepNode(s, st, a).log == st.log + evs
    requires NodeRound(s, st, StepNode(s, st, a), evs)
    ensures forall m :: 0 <= m < |evs| ==> Decides(s, evs[m])
  {
    var st' := StepNode(s, st, a);
    NodeStepCases(s, st, a, st');
    if st'.log == st.log {
      assert |evs| == 0;
    } else if s.nodes[st.idx].IsOrche() {
      OrcheDecides(s, st, a.orche, evs);
    } else {
      PhaseDecides(s, st, st', evs);
    }
  }

  lemma NodeBranches(s: Setup, st: RunState, a: Answer)
    requires Valid(s, st) && st.place.AtNode? && BranchesHold(s, st)
    ensures BranchesHold(s, StepNode(s, st, a))
  {
    var st' := StepNode(s, st, a);
    NodeSkips(s, st, a);
    NodeGrows(s, st, a);
    var evs :| st'.log == st.log + evs && NodeRound(s, st, st', evs);
    NodeDecides(s, st, a, evs);
    DecidesAppend(s, st.log, evs);
    StartsOnce(s, st, st', evs);
    StartedFacts(s, st, a);
    assert evs != [] ==> |st'.log| > |st.log|;
    UnskippedStays(s, st.log, evs);
  }

  lemma ReviewBranches(s: Setup, st: RunState, a: Answer)
    requires Valid(s, st) && st.place.InReview? && BranchesHold(s, st)
    ensures BranchesHold(s, StepReview(s, st, a))
  {
    var st' := StepReview(s, st, a);
    ReviewGrows(s, st, a);
    var evs :| st'.log == st.log + evs && ReviewRound(s, st, st', evs);
    ReviewSkips(st, st', s, evs);
    ReviewFrames(s, st, a);
    ReviewDecides(s, st, st', evs);
    DecidesAppend(s, st.log, evs);
    UnskippedStays(s, st.log, evs);
  }

  lemma ReviewDecides(s: Setup, st: RunState, st': RunState, evs: seq<Event>)
    requires Valid(s, st) && st.place.InReview? && ReviewRound(s, st, st', evs)
    ensures forall m :: 0 <= m < |evs| ==> Decides(s, evs[m]) && !evs[m].Started?
  {
  }

  lemma RunBranches(s: Setup, env: Env, t: nat, st: RunState)
    requires Valid(s, st) && BranchesHold(s, st)
    ensures BranchesHold(s, Run(s, env, t, st))
  {
    var P := (x: RunState) => BranchesHold(s, x);
    forall x: RunState, u: nat | Valid(s, x) && !x.place.Ended? && P(x)
      ensures P(Step(s, x, env(u)))
    {
      if x.place.AtNode? {
        NodeBranches(s, x, env(u));
      } else {
        ReviewBranches(s, x, env(u));
      }
    }
    RunKeeps(s, env, t, st, P);
  }

  lemma {:induction false} SkipsStay(log: seq<Event>, m: nat, n: nat)
    requires m < n <= |log| && log[m].Acted?
    ensures log[m].skips <= SkippedBy(log[..n])
  {
    assert log[..n][..n - 1] == log[..n - 1];
    if m < n - 1 {
      SkipsStay(log, m, n - 1);
    }
  }

  /** In every run: what a branch node switches off is exactly what its decision is against, and a node that a decision
      is against is not started at any later point of the run, not even after a jump back. */
  lemma DecisionsStand(s: Setup, st: RunState, env: Env, m: nat)
    requires Begins(st) && st.skipped == {} && Valid(s, st)
    requires m < |Run(s, env, 0, st).log| && Run(s, env, 0, st).log[m].Acted?
    ensures
      var log := Run(s, env, 0, st).log;
      && log[m].i < |s.nodes|
      && (forall id :: id in log[m].skips <==> DecidedAgainst(s.nodes[log[m].i].kind, log[m].branch, id))
      && forall n :: m < n < |log| && log[n].Started? && log[n].i < |s.nodes| ==>
           !DecidedAgainst(s.nodes[log[m].i].kind, log[m].branch, s.nodes[log[n].i].id)
  {
    RunBranches(s, env, 0, st);
    var log := Run(s, env, 0, st).log;
    assert Decides(s, log[m]);
    forall n | m < n < |log| && log[n].Started? && log[n].i < |s.nodes|
      ensures s.nodes[log[n].i].id !in log[m].skips
    {
      SkipsStay(log, m, n);
    }
  }
}
