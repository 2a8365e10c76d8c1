/** The definitions all of whose completed runs leave no node behind, exactly. */
module PhaseLoopTotal {
  import opened WorkflowNode
  import opened PhaseLoop
  import opened PhaseLoopLog
  import opened PhaseLoopOrder
  import opened PhaseLoopRuns
  import opened PhaseLoopSmooth
  import opened PhaseLoopExact

  /** Whatever is answered, a fresh run that ends completed has every node completed or branch-skipped. */
  ghost predicate AlwaysTotal(nodes: seq<Node>) {
    forall env: Env :: TotalRun(nodes, env)
  }

  ghost predicate TotalRun(nodes: seq<Node>, env: Env) {
    var s, final := FreshSetup(nodes), Run(FreshSetup(nodes), env, 0, FreshState(nodes));
    final.status == Succeeded ==> forall i :: 0 <= i < |nodes| ==> Settled(s, final, i)
  }

  // ---- Dependency order is needed ----

  lemma SmoothIsCalm(s: Setup, st: RunState)
    requires Valid(s, st) && !st.place.Ended? && Going(s, st)
    ensures Calm(s, st, Smooth(map[]))
  {
    SmoothStep(s, st, map[]);
    if st.place.InReview? {
      SmoothReview(s, st, map[]);
    }
  }

  lemma SmoothInOrder(nodes: seq<Node>)
    requires UniqueIds(nodes) && Runnable(nodes)
    ensures InOrder(FreshSetup(nodes), Run(FreshSetup(nodes), Smoothly(map[]), 0, FreshState(nodes)))
  {
    var s := FreshSetup(nodes);
    var env: Env := Smoothly(map[]);
    var P := (x: RunState) => Going(s, x) && InOrder(s, x);
    FreshInOrder(nodes);
    FreshGoing(nodes);
    forall x: RunState, u: nat | Valid(s, x) && !x.place.Ended? && P(x)
      ensures P(Step(s, x, env(u)))
    {
      SmoothIsCalm(s, x);
      SmoothStep(s, x, map[]);
      StepInOrder(s, x, Smooth(map[]));
    }
    RunKeeps(s, env, 0, FreshState(nodes), P);
  }

  lemma TotalMeansOrderly(nodes: seq<Node>)
    requires UniqueIds(nodes) && FreeTriggers(nodes) && Runnable(nodes) && AlwaysTotal(nodes)
    ensures Orderly(nodes)
  {
    var env: Env := Smoothly(map[]);
    var s, final := FreshSetup(nodes), Run(FreshSetup(nodes), env, 0, FreshState(nodes));
    FreshGoing(nodes);
    SmoothRun(s, FreshState(nodes), map[], 0);
    SmoothInOrder(nodes);
    assert TotalRun(nodes, env);
    SettledInOrder(s, final);
  }

  // ---- A smooth run settles what it passes ----

  /** Nothing has stopped, skipped or jumped, and everything behind the run is settled. */
  ghost predicate Upto(s: Setup, st: RunState) {
    && Going(s, st) && st.gotos == map[] && st.idx <= |s.nodes|
    && forall i :: 0 <= i < st.idx ==> Settled(s, st, i)
  }

  lemma UptoMeetsDeps(s: Setup, st: RunState)
    requires Orderly(s.nodes) && Upto(s, st) && st.idx < |s.nodes|
    ensures AllMet(st, s.nodes[st.idx].dependsOn)
  {
    forall d | d in s.nodes[st.idx].dependsOn
      ensures Met(st, d)
    {
      var j :| 0 <= j < st.idx && s.nodes[j].id == d && !s.nodes[j].kind.Trigger?;
      SettledIsMet(s, st, j);
    }
  }

  /** What a settled node needs to stay so. */
  lemma KeptRecord(s: Setup, st: RunState, a: Answer, i: nat)
    requires Valid(s, st) && st.place.AtNode? && i < st.idx && Settled(s, st, i)
    requires st.idx < |s.nodes| ==> s.nodes[i].id !in Effect(s.nodes, st.idx, a.orche.marks)
    ensures Settled(s, StepNode(s, st, a), i)
  {
    NodeFrame(s, st, a);
    ActedIsEffect(s, st, a);
    SettledStays(s, st, StepNode(s, st, a), i);
    assert s.nodes[i].id !in MarksFrom(StepNode(s, st, a).log, |st.log|);
  }

  lemma UptoNode(s: Setup, st: RunState, marks: map<string, bool>)
    requires Valid(s, st) && st.place.AtNode? && Orderly(s.nodes) && Upto(s, st)
    requires st.idx < |s.nodes| ==>
      forall i :: 0 <= i < st.idx ==> s.nodes[i].id !in Effect(s.nodes, st.idx, marks)
    ensures Upto(s, StepNode(s, st, Smooth(marks)))
  {
    var a := Smooth(marks);
    var st' := StepNode(s, st, a);
    SmoothNode(s, st, marks);
    NodeStepMoves(s, st, a);
    NodeFrame(s, st, a);
    forall i | 0 <= i < st'.idx
      ensures Settled(s, st', i)
    {
      if i < st.idx {
        KeptRecord(s, st, a, i);
      } else {
        UptoMeetsDeps(s, st);
        RecordAtRank(s.nodes, st.phases, st.idx);
        SameIndex(st.phases, st'.phases, s.nodes[st.idx].id);
      }
    }
  }

  lemma UptoReview(s: Setup, st: RunState, marks: map<string, bool>)
    requires Valid(s, st) && st.place.InReview? && Upto(s, st)
    ensures Upto(s, StepReview(s, st, Smooth(marks)))
  {
    var st' := StepReview(s, st, Smooth(marks));
    SmoothReview(s, st, marks);
    ReviewFrames(s, st, Smooth(marks));
    forall i | 0 <= i < st'.idx
      ensures Settled(s, st', i)
    {
      ReviewKeepsSettled(s, st, st', i);
    }
  }

  /** A critic that approves settles its phase and leaves the others. */
  lemma ReviewKeepsSettled(s: Setup, st: RunState, st': RunState, i: nat)
    requires Valid(s, st) && st.place.InReview? && UniqueIds(s.nodes) && Aligned(s.nodes, st.phases)
    requires ReviewFrame(s, st, st') && !JustJumped(st') && st'.place.AtNode?
    requires i < |s.nodes| && (i == st.idx || Settled(s, st, i))
    ensures Settled(s, st', i)
  {
    KeptIndex(s, st);
    RecordAtRank(s.nodes, st.phases, i);
    SameIndex(st.phases, st'.phases, s.nodes[i].id);
    RankAt(s.nodes, st.idx);
    if s.nodes[i].kind.Phase? && i != st.idx {
      RankDistinct(s.nodes, i, st.idx);
    }
  }

  // ---- Reopening handlers have to go ----

  lemma LonelyReach(nodes: seq<Node>, k: nat)
    requires k < |nodes| && !nodes[k].IsOrche()
    ensures Reached(nodes, {k}) == {k}
  {
    assert Calls(nodes, k) == {};
    assert ({k} + set i, j | i in {k} && j in Calls(nodes, i) :: j) == {k};
  }

  lemma ReopensIsOrche(nodes: seq<Node>, k: nat, id: string) returns (j: nat)
    requires k < |nodes| && id in Reopens(nodes, k)
    ensures nodes[k].IsOrche() && j < |nodes| && nodes[j].IsOrche() && nodes[j].id == id
  {
    if !nodes[k].IsOrche() {
      LonelyReach(nodes, k);
    }
    var m, n :| m in Reached(nodes, {k}) && nodes[m].kind.Retry? && n in Calls(nodes, m) && nodes[n].id == id;
    j := n;
  }

  /** Until node `k` has run all is settled, from then on the record of node `j` is open. */
  ghost predicate Reopening(s: Setup, st: RunState, j: nat, k: nat) {
    && j < k < |s.nodes| && s.nodes[j].id in st.orche && s.nodes[k].id in st.orche
    && Going(s, st)
    && if st.idx <= k then Upto(s, st) && !Closing(st.orche[s.nodes[k].id])
       else !Closing(st.orche[s.nodes[j].id])
  }

  /** Node `k` is the first after node `j` that can reopen its record. */
  ghost predicate FirstToReopen(nodes: seq<Node>, j: nat, k: nat) {
    && j < k < |nodes| && nodes[j].id in Reopens(nodes, k)
    && forall i :: j < i < k ==> nodes[j].id !in Reopens(nodes, i)
  }

  lemma {:induction false} FindFirst(nodes: seq<Node>, j: nat, k: nat) returns (first: nat)
    requires j < k < |nodes| && nodes[j].id in Reopens(nodes, k)
    ensures FirstToReopen(nodes, j, first)
    decreases k
  {
    if i :| j < i < k && nodes[j].id in Reopens(nodes, i) {
      first := FindFirst(nodes, j, i);
    } else {
      first := k;
    }
  }

  lemma HandlerReopens(s: Setup, st: RunState, j: nat)
    requires st.idx < |s.nodes| && j < |s.nodes| && s.nodes[j].id in Reopens(s.nodes, st.idx)
    requires s.nodes[j].id != s.nodes[st.idx].id && s.nodes[j].id in st.orche
    requires s.nodes[st.idx].id in st.orche && !Closing(st.orche[s.nodes[st.idx].id])
    ensures
      var st' := StepOrche(s, st, Smooth(map[s.nodes[j].id := false]).orche);
      && s.nodes[j].id in st'.orche && !Closing(st'.orche[s.nodes[j].id])
      && s.nodes[st.idx].id in st'.orche && st'.idx == st.idx + 1
  {
    assert s.nodes[j].id in Effect(s.nodes, st.idx, map[s.nodes[j].id := false]);
  }

  lemma ReopenedHere(s: Setup, st: RunState, j: nat, k: nat)
    requires Valid(s, st) && st.place.AtNode? && Orderly(s.nodes) && Reopening(s, st, j, k) && st.idx == k
    requires FirstToReopen(s.nodes, j, k) && s.nodes[k].IsOrche()
    ensures Reopening(s, StepNode(s, st, Smooth(map[s.nodes[j].id := false])), j, k)
  {
    var marks := map[s.nodes[j].id := false];
    SmoothNode(s, st, marks);
    UptoMeetsDeps(s, st);
    HandlerReopens(s, st, j);
    assert StepNode(s, st, Smooth(marks)) == StepOrche(s, st, Smooth(marks).orche);
  }

  lemma ReopeningBefore(s: Setup, st: RunState, j: nat, k: nat)
    requires Valid(s, st) && st.place.AtNode? && Orderly(s.nodes) && Reopening(s, st, j, k) && st.idx < k
    requires FirstToReopen(s.nodes, j, k)
    ensures Upto(s, StepNode(s, st, Smooth(map[s.nodes[j].id := false])))
  {
    var marks := map[s.nodes[j].id := false];
    forall i | 0 <= i < st.idx
      ensures s.nodes[i].id !in Effect(s.nodes, st.idx, marks)
    {
      assert i != j ==> s.nodes[i].id != s.nodes[j].id;
    }
    UptoNode(s, st, marks);
  }

  /** The record of another node can only be left open by the handler's marks. */
  lemma RecordsByMarks(s: Setup, st: RunState, marks: map<string, bool>, id: string)
    requires Valid(s, st) && st.place.AtNode? && id in st.orche && !Closing(st.orche[id])
    requires st.idx < |s.nodes| ==> id != s.nodes[st.idx].id
    requires id in marks ==> !marks[id]
    ensures
      var st' := StepNode(s, st, Smooth(marks));
      id in st'.orche && !Closing(st'.orche[id])
  {
    NodeFrame(s, st, Smooth(marks));
    ActedIsEffect(s, st, Smooth(marks));
  }

  lemma ReopeningNode(s: Setup, st: RunState, j: nat, k: nat)
    requires Valid(s, st) && st.place.AtNode? && Orderly(s.nodes) && Reopening(s, st, j, k)
    requires FirstToReopen(s.nodes, j, k) && s.nodes[k].IsOrche()
    ensures Reopening(s, StepNode(s, st, Smooth(map[s.nodes[j].id := false])), j, k)
  {
    var marks := map[s.nodes[j].id := false];
    if st.idx == k {
      ReopenedHere(s, st, j, k);
    } else {
      SmoothNode(s, st, marks);
      NodeStepMoves(s, st, Smooth(marks));
      NodeFrame(s, st, Smooth(marks));
      if st.idx < k {
        ReopeningBefore(s, st, j, k);
        RecordsByMarks(s, st, marks, s.nodes[k].id);
      } else {
        RecordsByMarks(s, st, marks, s.nodes[j].id);
      }
    }
  }

  lemma ReopeningReview(s: Setup, st: RunState, j: nat, k: nat)
    requires Valid(s, st) && st.place.InReview? && Reopening(s, st, j, k) && s.nodes[k].IsOrche()
    ensures Reopening(s, StepReview(s, st, Smooth(map[s.nodes[j].id := false])), j, k)
  {
    var marks := map[s.nodes[j].id := false];
    SmoothReview(s, st, marks);
    ReviewFrames(s, st, Smooth(marks));
    if st.idx <= k {
      UptoReview(s, st, marks);
    }
  }

  lemma ReopeningStart(nodes: seq<Node>, j: nat, k: nat)
    requires UniqueIds(nodes) && Runnable(nodes) && j < k < |nodes| && nodes[j].IsOrche() && nodes[k].IsOrche()
    ensures Reopening(FreshSetup(nodes), FreshState(nodes), j, k)
  {
    FreshGoing(nodes);
    assert nodes[j] in nodes && nodes[k] in nodes;
  }

  lemma ReopeningRun(s: Setup, st: RunState, j: nat, k: nat)
    requires Valid(s, st) && Orderly(s.nodes) && Reopening(s, st, j, k)
    requires FirstToReopen(s.nodes, j, k) && s.nodes[k].IsOrche()
    ensures Reopening(s, Run(s, Smoothly(map[s.nodes[j].id := false]), 0, st), j, k)
  {
    var env: Env := Smoothly(map[s.nodes[j].id := false]);
    var P := (x: RunState) => Reopening(s, x, j, k);
    forall x: RunState, u: nat | Valid(s, x) && !x.place.Ended? && P(x)
      ensures P(Step(s, x, env(u)))
    {
      if x.place.AtNode? {
        ReopeningNode(s, x, j, k);
      } else {
        ReopeningReview(s, x, j, k);
      }
    }
    RunKeeps(s, env, 0, st, P);
  }

  lemma OpenIsUnsettled(s: Setup, st: RunState, j: nat, k: nat)
    requires Reopening(s, st, j, k) && st.place.Ended? && s.nodes[j].IsOrche()
    ensures !Settled(s, st, j)
  {
  }

  lemma ReopenedRun(nodes: seq<Node>, j: nat, k: nat)
    requires Orderly(nodes) && Runnable(nodes) && FirstToReopen(nodes, j, k)
    ensures !TotalRun(nodes, Smoothly(map[nodes[j].id := false]))
  {
    var i := ReopensIsOrche(nodes, k, nodes[j].id);
    assert i == j;
    var s, st := FreshSetup(nodes), FreshState(nodes);
    ReopeningStart(nodes, j, k);
    ReopeningRun(s, st, j, k);
    OpenIsUnsettled(s, Run(s, Smoothly(map[nodes[j].id := false]), 0, st), j, k);
  }

  lemma NotReopened(nodes: seq<Node>, j: nat, k: nat)
    requires Orderly(nodes) && Runnable(nodes) && AlwaysTotal(nodes) && j < k < |nodes|
    ensures nodes[j].id !in Reopens(nodes, k)
  {
    if nodes[j].id in Reopens(nodes, k) {
      var first := FindFirst(nodes, j, k);
      assert TotalRun(nodes, Smoothly(map[nodes[j].id := false]));
      ReopenedRun(nodes, j, first);
    }
  }

  lemma TotalMeansNeverReopens(nodes: seq<Node>)
    requires Orderly(nodes) && Runnable(nodes) && AlwaysTotal(nodes)
    ensures NeverReopens(nodes)
  {
    forall j, k | 0 <= j < k < |nodes|
      ensures nodes[j].id !in Reopens(nodes, k)
    {
      NotReopened(nodes, j, k);
    }
  }

  // ---- So do jumps forward ----

  lemma {:induction false} RunAgrees(s: Setup, env: Env, env': Env, t: nat, st: RunState)
    requires Valid(s, st) && forall u: nat :: u >= t ==> env(u) == env'(u)
    ensures Run(s, env, t, st) == Run(s, env', t, st)
    decreases Budget(s.nodes, st.gotos), |s.nodes| - st.idx, Rounds(s, st)
  {
    if !st.place.Ended? {
      StepDescends(s, st, env(t));
      RunAgrees(s, env, env', t + 1, Step(s, st, env(t)));
    }
  }

  /** The run is past the phase of node `i`, which is not completed. */
  ghost predicate Undone(s: Setup, st: RunState, i: nat) {
    && Going(s, st) && i < st.idx <= |s.nodes| && s.nodes[i].kind.Phase?
    && Rank(s.nodes, i) < |st.phases| && st.phases[Rank(s.nodes, i)].status != Completed
  }

  lemma UndoneStays(s: Setup, st: RunState, i: nat)
    requires Valid(s, st) && !st.place.Ended? && Undone(s, st, i)
    ensures Undone(s, Step(s, st, Smooth(map[])), i)
  {
    var a := Smooth(map[]);
    SmoothStep(s, st, map[]);
    RankAt(s.nodes, i);
    if st.place.AtNode? {
      NodeFrame(s, st, a);
      NodeStepMoves(s, st, a);
      assert st.phases[Rank(s.nodes, i)].id == s.nodes[i].id;
    } else {
      SmoothReview(s, st, map[]);
      ReviewFrames(s, st, a);
      KeptIndex(s, st);
      RankDistinct(s.nodes, i, st.idx);
    }
  }

  lemma UndoneRun(s: Setup, st: RunState, t: nat, i: nat)
    requires Valid(s, st) && Undone(s, st, i)
    ensures Undone(s, Run(s, Smoothly(map[]), t, st), i)
    ensures Run(s, Smoothly(map[]), t, st).status == Succeeded
  {
    var env: Env := Smoothly(map[]);
    var P := (x: RunState) => Undone(s, x, i);
    forall x: RunState, u: nat | Valid(s, x) && !x.place.Ended? && P(x)
      ensures P(Step(s, x, env(u)))
    {
      UndoneStays(s, x, i);
    }
    RunKeeps(s, env, t, st, P);
    SmoothRun(s, st, map[], t);
  }

  /** The gate of node `i` can jump forward to node `j`. */
  ghost predicate JumpsAhead(nodes: seq<Node>, i: nat, j: nat) {
    && i < j < |nodes| && Jumpable(nodes, i)
    && nodes[j].kind.Phase? && nodes[j].id == CriticAt(nodes, i).gotoPhase
  }

  function Rejecting(): Answer {
    Smooth(map[]).(verdict := Verdict(false, []))
  }

  lemma {:induction false} FindsOwn(nodes: seq<Node>, j: nat)
    requires j < |nodes| && forall i :: 0 <= i < j ==> nodes[i].id != nodes[j].id
    ensures NodeIndex(nodes, nodes[j].id) == Some(j)
  {
    if j > 0 {
      assert nodes[1..][j - 1] == nodes[j];
      FindsOwn(nodes[1..], j - 1);
    }
  }

  lemma FindsTarget(nodes: seq<Node>, j: nat)
    requires UniqueIds(nodes) && j < |nodes| && nodes[j].kind.Phase?
    ensures NodeIndex(PhaseDefs(nodes), nodes[j].id) == Some(Rank(nodes, j))
  {
    var defs := PhaseDefs(nodes);
    RankAt(nodes, j);
    var found := NodeIndex(defs, nodes[j].id);
    assert defs[Rank(nodes, j)].id == nodes[j].id;
    var m := RankReached(nodes, found.value);
    RankAt(nodes, m);
    assert nodes[m].id == nodes[j].id;
  }

  /** A jump to a later rank resets nothing. */
  lemma JumpAhead(s: Setup, st: RunState, t: nat, j: nat)
    requires Valid(s, st) && st.place.InReview? && CriticAt(s.nodes, st.idx).Jumps()
    requires CriticAt(s.nodes, st.idx).Retries() > 0 && st.gotos == map[] && st.place.k < t
    requires NodeIndex(PhaseDefs(s.nodes), CriticAt(s.nodes, st.idx).gotoPhase) == Some(t)
    requires NodeIndex(s.nodes, CriticAt(s.nodes, st.idx).gotoPhase) == Some(j)
    ensures
      var st' := Jump(s, st);
      && st'.phases == st.phases && st'.orche == st.orche && st'.skipped == st.skipped
      && st'.status == st.status && st'.idx == j && st'.place == AtNode
  {
    assert ResetRange(st.phases, t, st.place.k) == st.phases;
    assert GotoCount(CountJump(st.gotos, KeyAt(s.nodes, st.idx)), KeyAt(s.nodes, st.idx)) == 1;
  }

  lemma RejectJumps(s: Setup, st: RunState)
    requires Valid(s, st) && st.place.InReview? && Gated(s.nodes, st.idx) && CriticAt(s.nodes, st.idx).Jumps()
    ensures StepReview(s, st, Rejecting()) ==
      Jump(s, Log(SetStatus(st, st.place.k, Reviewing), Reviewed(st.idx, st.place.retries, false, [])))
  {
  }

  /** The phase under review is left as it is. */
  lemma LeftUndone(s: Setup, st: RunState, st': RunState)
    requires Valid(s, st) && st.place.InReview? && Upto(s, st) && st.place.k == Rank(s.nodes, st.idx)
    requires st'.phases == SetStatus(st, st.place.k, Reviewing).phases
    requires st'.orche == st.orche && st'.skipped == st.skipped && st'.status == st.status
    requires st.idx < st'.idx < |s.nodes| && st'.place == AtNode
    ensures Undone(s, st', st.idx)
  {
  }

  lemma JumpedAhead(s: Setup, st: RunState, i: nat, j: nat)
    requires Valid(s, st) && st.place.InReview? && st.idx == i && Upto(s, st) && JumpsAhead(s.nodes, i, j)
    ensures Undone(s, StepReview(s, st, Rejecting()), i)
  {
    var st1 := Log(SetStatus(st, st.place.k, Reviewing), Reviewed(i, st.place.retries, false, []));
    KeptIndex(s, st);
    FindsOwn(s.nodes, j);
    FindsTarget(s.nodes, j);
    RankMonotone(s.nodes, i, j);
    RejectJumps(s, st);
    JumpAhead(s, st1, Rank(s.nodes, j), j);
    LeftUndone(s, st, Jump(s, st1));
  }

  lemma EntersReview(s: Setup, st: RunState, i: nat)
    requires Valid(s, st) && st.place.AtNode? && st.idx == i < |s.nodes| && Orderly(s.nodes) && Upto(s, st)
    requires ReviewsAt(s.nodes, i) && !InteractiveAt(s.nodes, i)
    requires Rank(s.nodes, i) < |st.phases| && st.phases[Rank(s.nodes, i)].status != Completed
    ensures
      var st' := StepNode(s, st, Smooth(map[]));
      && st'.place.InReview? && st'.idx == i && |st'.phases| == |st.phases|
      && st'.phases[Rank(s.nodes, i)].status != Completed
  {
    var k := Rank(s.nodes, i);
    UptoMeetsDeps(s, st);
    RecordAtRank(s.nodes, st.phases, i);
    RankAt(s.nodes, i);
    assert StepNode(s, st, Smooth(map[])) == StartPhase(s, st, k, Smooth(map[]));
    SmoothStart(s, st, k, map[]);
    StartReviews(s, st, k, Smooth(map[]));
  }

  lemma StartReviews(s: Setup, st: RunState, k: nat, a: Answer)
    requires ReviewsAt(s.nodes, st.idx) && !InteractiveAt(s.nodes, st.idx) && k < |st.phases|
    ensures
      var st' := StartPhase(s, st, k, a);
      st'.place.Ended? || (st'.place.InReview? && st'.idx == st.idx && |st'.phases| == |st.phases|
        && st'.phases[k].status == Running)
  {
  }

  /** From any point of a smooth run before the gate: answers on which it jumps ahead and ends completed. */
  lemma {:induction false} Ambush(s: Setup, st: RunState, t: nat, i: nat, j: nat) returns (env: Env)
    requires JumpsAhead(s.nodes, i, j) && Approaches(s, st, i) && Orderly(s.nodes)
    ensures Run(s, env, t, st).status == Succeeded && Undone(s, Run(s, env, t, st), i)
    decreases i - st.idx, st.place.AtNode?
  {
    if st.place.InReview? && st.idx == i {
      var st' := StepReview(s, st, Rejecting());
      StepDescends(s, st, Rejecting());
      JumpedAhead(s, st, i, j);
      UndoneRun(s, st', t + 1, i);
      env := (u: nat) => if u == t then Rejecting() else Smooth(map[]);
      RunAgrees(s, env, Smoothly(map[]), t + 1, st');
    } else {
      var st' := Step(s, st, Smooth(map[]));
      if st.place.InReview? {
        AmbushReview(s, st, i);
      } else {
        AmbushNode(s, st, i);
      }
      var later := Ambush(s, st', t + 1, i, j);
      env := (u: nat) => if u == t then Smooth(map[]) else later(u);
      RunAgrees(s, env, later, t + 1, st');
    }
    RunUnfolds(s, env, t, st);
  }

  lemma RunUnfolds(s: Setup, env: Env, t: nat, st: RunState)
    requires Valid(s, st) && !st.place.Ended?
    ensures Valid(s, Step(s, st, env(t))) && Run(s, env, t, st) == Run(s, env, t + 1, Step(s, st, env(t)))
  {
    StepDescends(s, st, env(t));
  }

  /** A smooth step before the gate of node `i`. */
  ghost predicate Approaches(s: Setup, st: RunState, i: nat)
    requires i < |s.nodes|
  {
    && Valid(s, st) && !st.place.Ended? && Upto(s, st) && st.idx <= i
    && Rank(s.nodes, i) < |st.phases| && st.phases[Rank(s.nodes, i)].status != Completed
  }

  lemma AmbushReview(s: Setup, st: RunState, i: nat)
    requires i < |s.nodes| && s.nodes[i].kind.Phase? && Approaches(s, st, i) && st.place.InReview? && st.idx < i
    ensures Approaches(s, StepReview(s, st, Smooth(map[])), i)
    ensures StepReview(s, st, Smooth(map[])).idx == st.idx + 1
  {
    StepDescends(s, st, Smooth(map[]));
    UptoReview(s, st, map[]);
    SmoothReview(s, st, map[]);
    ReviewFrames(s, st, Smooth(map[]));
    KeptIndex(s, st);
    RankDistinct(s.nodes, i, st.idx);
  }

  lemma StillUndone(s: Setup, st: RunState, a: Answer, i: nat)
    requires Valid(s, st) && st.place.AtNode? && UniqueIds(s.nodes) && Aligned(s.nodes, st.phases)
    requires i < |s.nodes| && s.nodes[i].kind.Phase? && st.idx < i
    requires Rank(s.nodes, i) < |st.phases| && st.phases[Rank(s.nodes, i)].status != Completed
    ensures
      var st' := StepNode(s, st, a);
      |st'.phases| == |st.phases| && st'.phases[Rank(s.nodes, i)].status != Completed
  {
    NodeFrame(s, st, a);
    RankAt(s.nodes, i);
    assert st.phases[Rank(s.nodes, i)].id == s.nodes[i].id;
  }

  lemma AmbushNode(s: Setup, st: RunState, i: nat)
    requires i < |s.nodes| && Approaches(s, st, i) && st.place.AtNode?
    requires Orderly(s.nodes) && Jumpable(s.nodes, i)
    ensures Approaches(s, StepNode(s, st, Smooth(map[])), i)
    ensures
      var st' := StepNode(s, st, Smooth(map[]));
      st.idx <= st'.idx && (st'.idx == st.idx ==> st'.place.InReview?)
  {
    var a := Smooth(map[]);
    StepDescends(s, st, a);
    UptoNode(s, st, map[]);
    NodeStepMoves(s, st, a);
    if st.idx == i {
      EntersReview(s, st, i);
    } else {
      StillUndone(s, st, a, i);
    }
  }

  lemma UndoneIsUnsettled(s: Setup, st: RunState, i: nat)
    requires Undone(s, st, i)
    ensures !Settled(s, st, i)
  {
    RecordAtRank(s.nodes, st.phases, i);
  }

  lemma TotalMeansJumpsBack(nodes: seq<Node>)
    requires Orderly(nodes) && Runnable(nodes) && AlwaysTotal(nodes)
    ensures JumpsBack(nodes)
  {
    var s, st := FreshSetup(nodes), FreshState(nodes);
    FreshGoing(nodes);
    forall i, j | 0 <= i < |nodes| && 0 <= j < |nodes| && Jumpable(nodes, i)
      && nodes[j].kind.Phase? && nodes[j].id == CriticAt(nodes, i).gotoPhase
      ensures j <= i
    {
      if i < j {
        RankAt(nodes, i);
        var env := Ambush(s, st, 0, i, j);
        assert TotalRun(nodes, env);
        UndoneIsUnsettled(s, Run(s, env, 0, st), i);
      }
    }
  }

  /** A definition can be trusted to leave no node behind, whatever agents, critics and handlers answer, exactly
      when its nodes stand in dependency order, its gates jump back only, and no retry can leave an earlier record
      open. (Its phases must not fail by themselves: a run that never ends completed leaves nothing to ask.) */
  lemma AlwaysTotalIff(nodes: seq<Node>)
    requires UniqueIds(nodes) && FreeTriggers(nodes) && Runnable(nodes)
    ensures AlwaysTotal(nodes) <==> WellPlanned(nodes) && NeverReopens(nodes)
  {
    if WellPlanned(nodes) && NeverReopens(nodes) {
      forall env: Env
        ensures TotalRun(nodes, env)
      {
        FreshCompletionIsTotal(nodes, env);
      }
    }
    if AlwaysTotal(nodes) {
      TotalMeansOrderly(nodes);
      TotalMeansNeverReopens(nodes);
      TotalMeansJumpsBack(nodes);
    }
  }
}
