/** Dependency order and completeness of whole runs. */
module PhaseLoopOrder {
  import opened WorkflowNode
  import opened PhaseLoop
  import opened PhaseLoopLog

  // ---- Phase records follow the phase nodes ----

  ghost predicate Aligned(nodes: seq<Node>, phases: seq<PhaseState>) {
    && |phases| == |PhaseDefs(nodes)|
    && forall k :: 0 <= k < |phases| ==> phases[k].id == PhaseDefs(nodes)[k].id
  }

  /** The position among the phases of the node at `i`. */
  function Rank(nodes: seq<Node>, i: nat): nat
    requires i <= |nodes|
  {
    |PhaseDefs(nodes[..i])|
  }

  lemma {:induction false} RankAt(nodes: seq<Node>, i: nat)
    requires i < |nodes| && nodes[i].kind.Phase?
    ensures Rank(nodes, i) < |PhaseDefs(nodes)| && PhaseDefs(nodes)[Rank(nodes, i)] == nodes[i]
  {
    var shorter := nodes[..|nodes| - 1];
    if i < |nodes| - 1 {
      RankAt(shorter, i);
      assert shorter[..i] == nodes[..i];
    }
  }

  lemma {:induction false} RankMonotone(nodes: seq<Node>, i: nat, j: nat)
    requires i <= j <= |nodes|
    ensures Rank(nodes, i) <= Rank(nodes, j)
    ensures i < j && nodes[i].kind.Phase? ==> Rank(nodes, i) < Rank(nodes, j)
  {
    if i < j {
      assert nodes[..j][..j - 1] == nodes[..j - 1];
      RankMonotone(nodes, i, j - 1);
    }
  }

  lemma {:induction false} RankReached(nodes: seq<Node>, k: nat) returns (i: nat)
    requires k < |PhaseDefs(nodes)|
    ensures i < |nodes| && nodes[i].kind.Phase? && Rank(nodes, i) == k
  {
    var last := |nodes| - 1;
    if k < |PhaseDefs(nodes[..last])| {
      i := RankReached(nodes[..last], k);
      assert nodes[..last][..i] == nodes[..i];
    } else {
      i := last;
    }
  }

  /** With unique ids a phase node's record is found at its rank, and other nodes have none. */
  lemma RecordAtRank(nodes: seq<Node>, phases: seq<PhaseState>, i: nat)
    requires UniqueIds(nodes) && Aligned(nodes, phases) && i < |nodes|
    ensures PhaseIndex(phases, nodes[i].id) == if nodes[i].kind.Phase? then Some(Rank(nodes, i)) else None
  {
    var found := PhaseIndex(phases, nodes[i].id);
    if found.Some? {
      var j := RankReached(nodes, found.value);
      RankAt(nodes, j);
      assert nodes[j].id == nodes[i].id;
    }
    if nodes[i].kind.Phase? {
      RankAt(nodes, i);
    }
  }

  // ---- What one step leaves alone ----

  predicate Closing(status: Status) {
    status == Completed || status == Skipped
  }

  /** What the events from position `n` on say that a handler did to other nodes' records. */
  function MarksFrom(log: seq<Event>, n: nat): map<string, bool> {
    if n + 1 < |log| && log[n + 1].Acted? then log[n + 1].marks else map[]
  }

  /** A step touches no phase but the one at hand, only adds skips, and changes no record of another node but as its
      handler marked it. */
  ghost predicate Frame(s: Setup, st: RunState, st': RunState)
    requires st.idx <= |s.nodes|
  {
    && |st'.phases| == |st.phases|
    && (forall k :: 0 <= k < |st.phases| ==> st'.phases[k].id == st.phases[k].id)
    && (forall k :: 0 <= k < |st.phases| && st.phases[k].status == Completed ==> st'.phases[k].status == Completed)
    && (forall k :: 0 <= k < |st.phases| && (st.idx < |s.nodes| ==> st.phases[k].id != s.nodes[st.idx].id) ==>
          st'.phases[k] == st.phases[k])
    && st.skipped <= st'.skipped && st.log <= st'.log
    && st'.orche.Keys == st.orche.Keys
    && (forall id :: id in st.orche && (st.idx < |s.nodes| ==> id != s.nodes[st.idx].id) ==>
          st'.orche[id] == Mark(st.orche, MarksFrom(st'.log, |st.log|))[id])
    && (forall id :: id in MarksFrom(st'.log, |st.log|) ==> st'.log[|st.log| + 1].i == st.idx < |s.nodes|)
    && (st.idx < |s.nodes| && s.nodes[st.idx].id in st.orche && Closing(st.orche[s.nodes[st.idx].id]) ==>
          Closing(st'.orche[s.nodes[st.idx].id]))
  }

  lemma AfterFrame(s: Setup, st: RunState, k: nat)
    requires st.idx < |s.nodes| && s.nodes[st.idx].kind.Phase? && k < |st.phases|
    ensures
      var st' := AfterAgents(s, st, k);
      && |st'.phases| == |st.phases| && st'.phases[k].id == st.phases[k].id
      && (forall j :: 0 <= j < |st.phases| && j != k ==> st'.phases[j] == st.phases[j])
      && st'.skipped == st.skipped && st'.orche == st.orche
      && (st'.log == st.log || st'.log == st.log + [Finished(st.idx)])
      && (st'.place.AtNode? ==> st'.phases[k].status == Completed)
  {
  }

  lemma StartFrame(s: Setup, st: RunState, k: nat, a: Answer)
    requires Valid(s, st) && st.idx < |s.nodes| && !s.nodes[st.idx].IsOrche() && k < |st.phases|
    ensures
      var st' := StartPhase(s, st, k, a);
      && |st'.phases| == |st.phases| && st'.phases[k].id == st.phases[k].id
      && (forall j :: 0 <= j < |st.phases| && j != k ==> st'.phases[j] == st.phases[j])
      && st'.skipped == st.skipped && st'.orche == st.orche
      && (st'.log == st.log + [Started(st.idx)] || st'.log == st.log + [Started(st.idx)] + [Finished(st.idx)])
      && (st'.place.AtNode? ==> st'.phases[k].status == Completed)
  {
    var st1 := Log(SetStatus(st, k, Running), Started(st.idx));
    if !s.nodes[st.idx].kind.Trigger? {
      var def := s.nodes[st.idx].kind.def;
      var ran := if def.mode == Parallel then RunAgents(st1.phases[k], def.agents, a.agents)
                 else LoopAgent(st1.phases[k], def, a.turns);
      if ran.Some? {
        AfterFrame(s, SetPhase(st1, k, ran.value), k);
      }
    }
  }

  lemma NoMarks(log: seq<Event>, evs: seq<Event>)
    requires forall m :: 0 <= m < |evs| ==> !evs[m].Acted?
    ensures log <= log + evs && MarksFrom(log + evs, |log|) == map[]
  {
  }

  lemma HandlerLog(s: Setup, st: RunState, a: OrcheAnswer)
    requires Valid(s, st) && st.idx < |s.nodes|
    ensures
      var acted := RunHandler(s, st, a);
      && |acted.log| == |st.log| + 2 && st.log <= acted.log
      && acted.log[|st.log| + 1].Acted? && acted.log[|st.log| + 1].i == st.idx
      && acted.log[|st.log| + 1].marks == Effect(s.nodes, st.idx, a.marks)
  {
  }

  lemma OrcheLog(s: Setup, st: RunState, a: OrcheAnswer)
    requires Valid(s, st) && st.idx < |s.nodes|
    ensures
      var st' := StepOrche(s, st, a);
      && st.log <= st'.log
      && (st'.log == st.log || (|st'.log| > |st.log| + 1 && st'.log[|st.log| + 1].Acted?
            && st'.log[|st.log| + 1].i == st.idx && MarksFrom(st'.log, |st.log|) == Effect(s.nodes, st.idx, a.marks)))
  {
    HandlerLog(s, st, a);
  }

  lemma OrcheFrame(s: Setup, st: RunState, a: OrcheAnswer)
    requires Valid(s, st) && st.idx < |s.nodes| && s.nodes[st.idx].IsOrche()
    ensures Frame(s, st, StepOrche(s, st, a))
    ensures
      var st' := StepOrche(s, st, a);
      st'.place.AtNode? && s.nodes[st.idx].id in st.orche ==> Closing(st'.orche[s.nodes[st.idx].id])
  {
    OrcheLog(s, st, a);
  }

  /** How the main loop moves past a node. */
  ghost predicate MayPass(s: Setup, st: RunState, st': RunState)
    requires st.idx < |s.nodes|
  {
    var node := s.nodes[st.idx];
    || node.id in s.recorded
    || node.id in st.skipped
    || !AllMet(st, node.dependsOn)
    || (node.IsOrche() && (node.id in st.orche ==> node.id in st'.orche && Closing(st'.orche[node.id])))
    || (!node.IsOrche() && match PhaseIndex(st.phases, node.id)
                           case None => true
                           case Some(k) => |st'.phases| == |st.phases| && st'.phases[k].status == Completed)
  }

  /** A step that changes one phase, the one at hand, and only appends to the log. */
  lemma PhaseOnlyFrame(s: Setup, st: RunState, st': RunState, k: nat, evs: seq<Event>)
    requires Valid(s, st) && st.idx < |s.nodes| && k < |st.phases| && st.phases[k].id == s.nodes[st.idx].id
    requires st.phases[k].status != Completed
    requires |st'.phases| == |st.phases| && st'.phases[k].id == st.phases[k].id
    requires forall j :: 0 <= j < |st.phases| && j != k ==> st'.phases[j] == st.phases[j]
    requires st'.skipped == st.skipped && st'.orche == st.orche && st'.log == st.log + evs
    requires forall m :: 0 <= m < |evs| ==> !evs[m].Acted?
    ensures Frame(s, st, st')
  {
    NoMarks(st.log, evs);
  }

  lemma PhaseFrame(s: Setup, st: RunState, a: Answer)
    requires Valid(s, st) && st.idx < |s.nodes| && !s.nodes[st.idx].IsOrche()
    ensures Frame(s, st, StepPhase(s, st, a))
    ensures StepPhase(s, st, a).place.AtNode? ==> MayPass(s, st, StepPhase(s, st, a))
  {
    var found := PhaseIndex(st.phases, s.nodes[st.idx].id);
    var i, st' := st.idx, StepPhase(s, st, a);
    if found.None? || st.phases[found.value].status == Completed {
      QuietFrame(s, st, st');
    } else {
      var k := found.value;
      StartFrame(s, st, k, a);
      if st' == StartPhase(s, st, k, a) {
        PhaseOnlyFrame(s, st, st', k,
          if st'.log == st.log + [Started(i)] then [Started(i)] else [Started(i)] + [Finished(i)]);
      } else {
        PhaseOnlyFrame(s, st, st', k, [Recovered(i)]);
      }
    }
  }

  lemma QuietFrame(s: Setup, st: RunState, st': RunState)
    requires st.idx <= |s.nodes| && st'.phases == st.phases && st'.skipped == st.skipped && st'.log == st.log
    requires st'.orche == st.orche
      || (st.idx < |s.nodes| && s.nodes[st.idx].id in st.orche && st'.orche == st.orche[s.nodes[st.idx].id := Skipped])
    ensures Frame(s, st, st')
  {
  }

  lemma NodeFrame(s: Setup, st: RunState, a: Answer)
    requires Valid(s, st) && st.place.AtNode?
    ensures Frame(s, st, StepNode(s, st, a))
    ensures st.idx < |s.nodes| && StepNode(s, st, a).place.AtNode? ==> MayPass(s, st, StepNode(s, st, a))
  {
    var st' := StepNode(s, st, a);
    NodeStepCases(s, st, a, st');
    if st.idx < |s.nodes| && s.nodes[st.idx].IsOrche() && st' == StepOrche(s, st, a.orche) {
      OrcheFrame(s, st, a.orche);
    } else if st.idx < |s.nodes| && !s.nodes[st.idx].IsOrche() && st' == StepPhase(s, st, a) {
      PhaseFrame(s, st, a);
    } else {
      QuietFrame(s, st, st');
    }
  }

  /** The step's last event is a jump. */
  predicate JustJumped(st: RunState) {
    st.log != [] && st.log[|st.log| - 1].Jumped?
  }

  /** The critic at hand jumps to the phase of rank `t`, at position `target`. */
  predicate JumpsTo(s: Setup, st: RunState, t: nat, target: nat)
    requires Valid(s, st) && st.place.InReview?
  {
    && CriticAt(s.nodes, st.idx).gate && CriticAt(s.nodes, st.idx).Jumps()
    && NodeIndex(PhaseDefs(s.nodes), CriticAt(s.nodes, st.idx).gotoPhase) == Some(t)
    && NodeIndex(s.nodes, CriticAt(s.nodes, st.idx).gotoPhase) == Some(target)
  }

  /** The step jumped to the phase of rank `t`. */
  ghost predicate Leapt(s: Setup, st: RunState, st': RunState, t: nat)
    requires Valid(s, st) && st.place.InReview? && |st'.phases| == |st.phases| && JustJumped(st')
  {
    var k := st.place.k;
    && JumpsTo(s, st, t, st'.idx) && st'.place.AtNode?
    && CriticAt(s.nodes, st.idx).Retries() > 0 && st'.log[|st'.log| - 1] == Jumped(st.idx, st'.idx)
    && (forall j :: 0 <= j < |st.phases| && j != k ==>
          st'.phases[j] == if t <= j <= k then Reset(st.phases[j]) else st.phases[j])
    && st'.phases[k].status != Completed
  }

  ghost predicate ReviewFrame(s: Setup, st: RunState, st': RunState)
    requires Valid(s, st) && st.place.InReview?
  {
    var k := st.place.k;
    && st'.skipped == st.skipped && st'.orche == st.orche && st.log < st'.log
    && |st'.phases| == |st.phases|
    && (forall j :: 0 <= j < |st.phases| ==> st'.phases[j].id == st.phases[j].id)
    && (if JustJumped(st') then
          exists t: nat :: Leapt(s, st, st', t)
        else
          && (forall j :: 0 <= j < |st.phases| && j != k ==> st'.phases[j] == st.phases[j])
          && (st'.place.AtNode? <==> st'.phases[k].status == Completed)
          && (st'.place.AtNode? ==>
                st'.idx == st.idx + 1 && st'.log != [] && st'.log[|st'.log| - 1] == Finished(st.idx)))
  }

  lemma JumpMadeFrame(s: Setup, st: RunState, st': RunState, t: nat)
    requires Valid(s, st) && st.place.InReview? && JumpsTo(s, st, t, st'.idx) && st'.place.AtNode?
    requires st'.skipped == st.skipped && st'.orche == st.orche && st.log < st'.log
    requires CriticAt(s.nodes, st.idx).Retries() > 0 && st'.log[|st'.log| - 1] == Jumped(st.idx, st'.idx)
    requires st'.phases == ResetRange(SetStatus(st, st.place.k, Reviewing).phases, t, st.place.k)
    ensures ReviewFrame(s, st, st')
  {
    assert Leapt(s, st, st', t);
  }

  lemma JumpFrame(s: Setup, st: RunState, first: Event)
    requires Valid(s, st) && st.place.InReview? && Gated(s.nodes, st.idx) && CriticAt(s.nodes, st.idx).Jumps()
    requires first.Reviewed?
    ensures ReviewFrame(s, st, Jump(s, Log(SetStatus(st, st.place.k, Reviewing), first)))
  {
    var st1 := Log(SetStatus(st, st.place.k, Reviewing), first);
    var st' := Jump(s, st1);
    JumpEnds(s, st1);
    if st'.place.AtNode? && st'.log[|st'.log| - 1].Jumped? {
      JumpMadeFrame(s, st, st', NodeIndex(PhaseDefs(s.nodes), CriticAt(s.nodes, st.idx).gotoPhase).value);
    }
  }

  /** The log of a rejection that is retried, waived or broken off. */
  lemma RetryLog(s: Setup, st1: RunState, flagged: seq<string>, all: bool, ans: AgentsAnswer)
    requires Valid(s, st1) && st1.place.InReview? && st1.place.retries < CriticAt(s.nodes, st1.idx).Retries()
    requires st1.log != [] && st1.log[|st1.log| - 1].Reviewed?
    ensures
      var st' := RetryPhase(s, st1, flagged, all, ans);
      && st1.log <= st'.log && !JustJumped(st')
      && (st'.place.AtNode? ==> st'.idx == st1.idx + 1 && st'.log[|st'.log| - 1] == Finished(st1.idx))
  {
    RetryEnds(s, st1, flagged, all, ans);
  }

  lemma RerunTouches(st1: RunState, cleared: PhaseState, defs: seq<string>, ans: AgentsAnswer)
    requires st1.place.InReview? && st1.place.k < |st1.phases|
    requires cleared.id == st1.phases[st1.place.k].id && cleared.status == Running
    ensures
      var k, st' := st1.place.k, RerunAgents(st1, cleared, defs, ans);
      && st'.skipped == st1.skipped && st'.orche == st1.orche
      && |st'.phases| == |st1.phases| && st'.phases[k].id == st1.phases[k].id
      && (forall j :: 0 <= j < |st1.phases| && j != k ==> st'.phases[j] == st1.phases[j])
      && !st'.place.AtNode? && st'.phases[k].status != Completed
  {
  }

  lemma RetryTouches(s: Setup, st1: RunState, flagged: seq<string>, all: bool, ans: AgentsAnswer)
    requires Valid(s, st1) && st1.place.InReview? && st1.place.retries < CriticAt(s.nodes, st1.idx).Retries()
    ensures
      var k, st' := st1.place.k, RetryPhase(s, st1, flagged, all, ans);
      && st'.skipped == st1.skipped && st'.orche == st1.orche
      && |st'.phases| == |st1.phases| && st'.phases[k].id == st1.phases[k].id
      && (forall j :: 0 <= j < |st1.phases| && j != k ==> st'.phases[j] == st1.phases[j])
      && (st'.place.AtNode? <==> st'.phases[k].status == Completed)
  {
    var ph := st1.phases[st1.place.k].(status := Running);
    var defs := s.nodes[st1.idx].kind.def.agents;
    if all {
      RerunTouches(st1, Reset(ph).(status := Running), defs, ans);
    } else {
      RerunTouches(st1, ph.(agents := Cleared(ph.agents, flagged)), RetryDefs(defs, ph.agents, flagged), ans);
    }
  }

  lemma RetryFrame(s: Setup, st: RunState, first: Event, flagged: seq<string>, all: bool, ans: AgentsAnswer)
    requires Valid(s, st) && st.place.InReview? && st.place.retries < CriticAt(s.nodes, st.idx).Retries()
    requires first.Reviewed?
    ensures ReviewFrame(s, st, RetryPhase(s, Log(SetStatus(st, st.place.k, Reviewing), first), flagged, all, ans))
  {
    var st1 := Log(SetStatus(st, st.place.k, Reviewing), first);
    RetryLog(s, st1, flagged, all, ans);
    RetryTouches(s, st1, flagged, all, ans);
  }

  lemma ReviewFrames(s: Setup, st: RunState, a: Answer)
    requires Valid(s, st) && st.place.InReview?
    ensures ReviewFrame(s, st, StepReview(s, st, a))
  {
    var critic := CriticAt(s.nodes, st.idx);
    var first := ReviewOf(st, a);
    var st1 := Log(SetStatus(st, st.place.k, Reviewing), first);
    if a.verdict.Passes() || !critic.gate {
      assert ReviewFrame(s, st, Finalize(st1, st.place.k));
    } else if critic.Jumps() {
      JumpFrame(s, st, first);
    } else if critic.Policy() == Escalate || st.place.retries + 1 > critic.Retries() {
      assert ReviewFrame(s, st, End(st1, WaitingForUser));
    } else if critic.Policy() != Goto {
      RetryFrame(s, st, first, a.verdict.Flagged(), critic.Policy() == RetryAll, a.agents);
    }
  }

  // ---- Completeness ----

  /** Node `i` is behind the run: branch-skipped, or its phase or record is done. Triggers have neither. */
  ghost predicate Settled(s: Setup, st: RunState, i: nat)
    requires i < |s.nodes|
  {
    var node := s.nodes[i];
    || node.kind.Trigger?
    || node.id in st.skipped
    || (node.kind.Phase? && PhaseIndex(st.phases, node.id).Some?
      && st.phases[PhaseIndex(st.phases, node.id).value].status == Completed)
    || (node.IsOrche() && node.id in st.orche && Closing(st.orche[node.id]))
  }

  /** Unique ids, and every dependency names an earlier phase or orchestration node. */
  ghost predicate Orderly(nodes: seq<Node>) {
    && UniqueIds(nodes)
    && forall i, d :: 0 <= i < |nodes| && d in nodes[i].dependsOn ==>
         exists j :: 0 <= j < i && nodes[j].id == d && !nodes[j].kind.Trigger?
  }

  /** The gate of node `i` can make the run jump. */
  predicate Jumpable(nodes: seq<Node>, i: nat) {
    Gated(nodes, i) && CriticAt(nodes, i).Jumps() && CriticAt(nodes, i).Retries() > 0 && !InteractiveAt(nodes, i)
  }

  /** No gate's jump leads forward. */
  ghost predicate JumpsBack(nodes: seq<Node>) {
    forall i, j | 0 <= i < |nodes| && 0 <= j < |nodes| && Jumpable(nodes, i) ::
      nodes[j].kind.Phase? && nodes[j].id == CriticAt(nodes, i).gotoPhase ==> j <= i
  }

  /** Every phase node has its phase record and every orchestration node, and nothing else, its own record. */
  ghost predicate HasRecords(nodes: seq<Node>, phases: seq<PhaseState>, orche: map<string, Status>) {
    && Aligned(nodes, phases)
    && (forall i :: 0 <= i < |nodes| && nodes[i].IsOrche() ==> nodes[i].id in orche)
    && (forall id :: id in orche ==> exists i :: 0 <= i < |nodes| && nodes[i].IsOrche() && nodes[i].id == id)
  }

  lemma SettledIsMet(s: Setup, st: RunState, i: nat)
    requires UniqueIds(s.nodes) && HasRecords(s.nodes, st.phases, st.orche)
    requires i < |s.nodes| && !s.nodes[i].kind.Trigger?
    ensures Settled(s, st, i) <==> Met(st, s.nodes[i].id)
  {
    RecordAtRank(s.nodes, st.phases, i);
  }

  /** The definition allows a dependency-ordered run. */
  ghost predicate WellPlanned(nodes: seq<Node>) {
    Orderly(nodes) && JumpsBack(nodes)
  }

  /** The handler of another node left the record of node `j` open, behind the run's back: the run was past node `j`, or
      treats it as done. */
  ghost predicate LeftOpen(s: Setup, log: seq<Event>, j: nat)
    requires j < |s.nodes|
  {
    exists m :: 0 <= m < |log| && Opens(log[m], s.nodes[j].id) && (j < log[m].i || s.nodes[j].id in s.recorded)
  }

  predicate Opens(e: Event, id: string) {
    e.Acted? && id in e.marks && !e.marks[id]
  }

  /** A jump went back over this phase, which the run treats as done and never runs again. */
  ghost predicate Lost(s: Setup, log: seq<Event>, j: nat)
    requires j < |s.nodes|
  {
    s.nodes[j].kind.Phase? && s.nodes[j].id in s.recorded && JumpedOver(log, j)
  }

  ghost predicate JumpedOver(log: seq<Event>, j: nat) {
    exists m :: 0 <= m < |log| && log[m].Jumped? && log[m].target <= j <= log[m].i
  }

  /** Node `i` was left open or lost, or depends, directly or through others, on one that was. */
  ghost predicate Behind(s: Setup, log: seq<Event>, i: nat)
    requires i < |s.nodes|
  {
    || LeftOpen(s, log, i)
    || Lost(s, log, i)
    || exists j :: 0 <= j < i && s.nodes[j].id in s.nodes[i].dependsOn && Behind(s, log, j)
  }

  lemma {:induction false} BehindStays(s: Setup, log: seq<Event>, log': seq<Event>, i: nat)
    requires i < |s.nodes| && log <= log' && Behind(s, log, i)
    ensures Behind(s, log', i)
  {
    if LeftOpen(s, log, i) {
      var m :| 0 <= m < |log| && Opens(log[m], s.nodes[i].id) && (i < log[m].i || s.nodes[i].id in s.recorded);
      assert log'[m] == log[m];
    } else if Lost(s, log, i) {
      var m :| 0 <= m < |log| && log[m].Jumped? && log[m].target <= i <= log[m].i;
      assert log'[m] == log[m];
    } else {
      var j :| 0 <= j < i && s.nodes[j].id in s.nodes[i].dependsOn && Behind(s, log, j);
      BehindStays(s, log, log', j);
    }
  }

  ghost predicate Done(s: Setup, st: RunState, i: nat)
    requires i < |s.nodes|
  {
    Settled(s, st, i) || Behind(s, st.log, i)
  }

  ghost predicate Progress(s: Setup, st: RunState) {
    && HasRecords(s.nodes, st.phases, st.orche)
    && st.idx <= |s.nodes|
    && (st.status == Succeeded ==> st.idx == |s.nodes|)
    && (st.status == Succeeded ==> st.place.Ended?)
    && (st.place.InReview? ==>
          st.idx < |s.nodes| && s.nodes[st.idx].id !in s.recorded && !InteractiveAt(s.nodes, st.idx))
    && (forall i :: 0 <= i < st.idx ==> Done(s, st, i))
    && (forall i :: 0 <= i < |s.nodes| && s.nodes[i].id in s.recorded ==> Done(s, st, i))
  }

  /** A dependency that is not met is one that fell behind. */
  lemma UnmetIsBehind(s: Setup, st: RunState)
    requires Orderly(s.nodes) && Progress(s, st) && st.idx < |s.nodes| && !AllMet(st, s.nodes[st.idx].dependsOn)
    ensures Behind(s, st.log, st.idx)
  {
    var d :| d in s.nodes[st.idx].dependsOn && !Met(st, d);
    var j :| 0 <= j < st.idx && s.nodes[j].id == d && !s.nodes[j].kind.Trigger?;
    assert Done(s, st, j);
    RecordAtRank(s.nodes, st.phases, j);
  }

  lemma SameIndex(phases: seq<PhaseState>, phases': seq<PhaseState>, id: string)
    requires |phases| == |phases'| && forall k :: 0 <= k < |phases| ==> phases[k].id == phases'[k].id
    ensures PhaseIndex(phases, id) == PhaseIndex(phases', id)
  {
    var k, k' := PhaseIndex(phases, id), PhaseIndex(phases', id);
    if k.Some? {
      assert phases'[k.value].id == id;
    }
    if k'.Some? {
      assert phases[k'.value].id == id;
    }
  }

  /** What is settled behind the run stays so, unless the step's handler leaves it open. */
  lemma SettledStays(s: Setup, st: RunState, st': RunState, i: nat)
    requires Valid(s, st) && Frame(s, st, st') && i < |s.nodes| && Settled(s, st, i)
    ensures Settled(s, st', i) || (i < st.idx || s.nodes[i].id in s.recorded ==> LeftOpen(s, st'.log, i))
    ensures s.nodes[i].kind.Phase? ==> Settled(s, st', i)
  {
    var id := s.nodes[i].id;
    if s.nodes[i].kind.Phase? && id !in st.skipped {
      SameIndex(st.phases, st'.phases, id);
    }
    if s.nodes[i].IsOrche() && id in MarksFrom(st'.log, |st.log|) && !MarksFrom(st'.log, |st.log|)[id] {
      assert Opens(st'.log[|st.log| + 1], id) && st'.log[|st.log| + 1].i == st.idx;
    }
  }

  lemma DoneStays(s: Setup, st: RunState, st': RunState, i: nat)
    requires Valid(s, st) && Frame(s, st, st') && i < |s.nodes| && Done(s, st, i)
    requires i < st.idx || s.nodes[i].id in s.recorded
    ensures Done(s, st', i)
  {
    if Behind(s, st.log, i) {
      BehindStays(s, st.log, st'.log, i);
    } else {
      SettledStays(s, st, st', i);
    }
  }

  lemma PassedIsDone(s: Setup, st: RunState, st': RunState)
    requires Valid(s, st) && Orderly(s.nodes) && Progress(s, st) && Frame(s, st, st')
    requires st.idx < |s.nodes| && MayPass(s, st, st')
    ensures Done(s, st', st.idx)
  {
    if s.nodes[st.idx].id in s.recorded {
      DoneStays(s, st, st', st.idx);
    } else if !AllMet(st, s.nodes[st.idx].dependsOn) {
      UnmetIsBehind(s, st);
      BehindStays(s, st.log, st'.log, st.idx);
    } else {
      RecordAtRank(s.nodes, st.phases, st.idx);
      SameIndex(st.phases, st'.phases, s.nodes[st.idx].id);
    }
  }

  lemma FrameKeepsRecords(s: Setup, st: RunState, st': RunState)
    requires st.idx <= |s.nodes| && HasRecords(s.nodes, st.phases, st.orche) && Frame(s, st, st')
    ensures HasRecords(s.nodes, st'.phases, st'.orche)
  {
  }

  lemma PassedStaysDone(s: Setup, st: RunState, st': RunState, i: nat)
    requires Valid(s, st) && WellPlanned(s.nodes) && Progress(s, st) && Frame(s, st, st') && i < |s.nodes|
    requires i < st.idx || s.nodes[i].id in s.recorded
    ensures Done(s, st', i)
  {
    assert Done(s, st, i);
    DoneStays(s, st, st', i);
  }

  lemma NodeProgress(s: Setup, st: RunState, st': RunState)
    requires Valid(s, st) && st.place.AtNode? && WellPlanned(s.nodes) && Progress(s, st)
    requires MovesOn(s, st, st') && Frame(s, st, st')
    requires st.idx < |s.nodes| && st'.place.AtNode? ==> MayPass(s, st, st')
    requires st.idx == |s.nodes| ==> !st'.place.AtNode?
    requires st'.status == Succeeded ==> st'.place.Ended? && st.idx == |s.nodes|
    requires st'.place.InReview? ==>
      st.idx < |s.nodes| && s.nodes[st.idx].id !in s.recorded && !InteractiveAt(s.nodes, st.idx)
    ensures Progress(s, st')
  {
    FrameKeepsRecords(s, st, st');
    forall i | 0 <= i < |s.nodes| && (i < st.idx || s.nodes[i].id in s.recorded)
      ensures Done(s, st', i)
    {
      PassedStaysDone(s, st, st', i);
    }
    if st.idx < |s.nodes| && st'.place.AtNode? {
      PassedIsDone(s, st, st');
    }
  }

  lemma RankDistinct(nodes: seq<Node>, i: nat, j: nat)
    requires i < |nodes| && j < |nodes| && i != j && nodes[i].kind.Phase? && nodes[j].kind.Phase?
    ensures Rank(nodes, i) != Rank(nodes, j)
  {
    if i < j {
      RankMonotone(nodes, i, j);
    } else {
      RankMonotone(nodes, j, i);
    }
  }

  /** The record under review is the one at the rank of the node at hand. */
  lemma KeptIndex(s: Setup, st: RunState)
    requires Valid(s, st) && st.place.InReview? && UniqueIds(s.nodes) && Aligned(s.nodes, st.phases)
    ensures st.place.k == Rank(s.nodes, st.idx)
  {
    var k := st.place.k;
    var j := RankReached(s.nodes, k);
    RankAt(s.nodes, j);
    assert s.nodes[j].id == s.nodes[st.idx].id;
  }

  lemma ReviewMoved(s: Setup, st: RunState, st': RunState, i: nat)
    requires Valid(s, st) && st.place.InReview? && Orderly(s.nodes) && Progress(s, st)
    requires ReviewFrame(s, st, st') && !JustJumped(st') && i < |s.nodes|
    requires Settled(s, st, i) || (i == st.idx && st'.place.AtNode?)
    requires i == st.idx ==> st'.place.AtNode?
    ensures Settled(s, st', i)
  {
    RecordAtRank(s.nodes, st.phases, i);
    RecordAtRank(s.nodes, st.phases, st.idx);
    SameIndex(st.phases, st'.phases, s.nodes[i].id);
    if i != st.idx && s.nodes[i].kind.Phase? {
      RankDistinct(s.nodes, i, st.idx);
    }
    RankAt(s.nodes, st.idx);
    KeptIndex(s, st);
  }

  lemma JumpTarget(s: Setup, st: RunState, t: nat, target: nat)
    requires Valid(s, st) && st.place.InReview? && UniqueIds(s.nodes) && JumpsTo(s, st, t, target)
    ensures s.nodes[target].kind.Phase? && t == Rank(s.nodes, target)
  {
    var j := RankReached(s.nodes, t);
    RankAt(s.nodes, j);
    assert s.nodes[j].id == s.nodes[target].id;
  }

  /** A jump reopens exactly the phases it goes back over. */
  lemma JumpedPhases(s: Setup, st: RunState, st': RunState, i: nat)
    requires Valid(s, st) && st.place.InReview? && UniqueIds(s.nodes) && Aligned(s.nodes, st.phases)
    requires ReviewFrame(s, st, st') && JustJumped(st') && i < |s.nodes| && s.nodes[i].kind.Phase? && i != st.idx
    ensures Rank(s.nodes, i) < |st.phases| && st'.phases[Rank(s.nodes, i)] ==
      if st'.idx <= i <= st.idx then Reset(st.phases[Rank(s.nodes, i)]) else st.phases[Rank(s.nodes, i)]
  {
    var target := st'.idx;
    var t: nat :| Leapt(s, st, st', t);
    JumpTarget(s, st, t, target);
    KeptIndex(s, st);
    RankAt(s.nodes, i);
    RankDistinct(s.nodes, i, st.idx);
    if i < target {
      RankMonotone(s.nodes, i, target);
    } else {
      RankMonotone(s.nodes, target, i);
    }
    if i < st.idx {
      RankMonotone(s.nodes, i, st.idx);
    } else {
      RankMonotone(s.nodes, st.idx, i);
    }
  }

  lemma JumpsBackwards(s: Setup, st: RunState, st': RunState)
    requires Valid(s, st) && st.place.InReview? && WellPlanned(s.nodes) && !InteractiveAt(s.nodes, st.idx)
    requires ReviewFrame(s, st, st') && JustJumped(st')
    ensures st'.idx <= st.idx && st'.log[|st'.log| - 1] == Jumped(st.idx, st'.idx) && Jumpable(s.nodes, st.idx)
  {
    var t: nat :| Leapt(s, st, st', t);
    JumpTarget(s, st, t, st'.idx);
  }

  lemma ReviewJumped(s: Setup, st: RunState, st': RunState, i: nat)
    requires Valid(s, st) && st.place.InReview? && WellPlanned(s.nodes) && Progress(s, st)
    requires ReviewFrame(s, st, st') && JustJumped(st') && i < |s.nodes|
    requires Settled(s, st, i) && (i < st'.idx || s.nodes[i].id in s.recorded)
    ensures Settled(s, st', i) || Lost(s, st'.log, i)
  {
    JumpsBackwards(s, st, st');
    RecordAtRank(s.nodes, st.phases, i);
    SameIndex(st.phases, st'.phases, s.nodes[i].id);
    if s.nodes[i].kind.Phase? && i != st.idx {
      JumpedPhases(s, st, st', i);
      if st'.idx <= i <= st.idx {
        assert JumpedOver(st'.log, i);
      }
    }
  }

  lemma ReviewProgress(s: Setup, st: RunState, st': RunState)
    requires Valid(s, st) && st.place.InReview? && WellPlanned(s.nodes) && Progress(s, st)
    requires ReviewFrame(s, st, st') && Valid(s, st')
    requires st'.place.InReview? ==> st'.idx == st.idx
    requires st'.status != Succeeded && (JustJumped(st') || st'.place.AtNode? || st'.idx == st.idx)
    ensures Progress(s, st')
  {
    if JustJumped(st') {
      JumpsBackwards(s, st, st');
    }
    forall i | 0 <= i < |s.nodes| && (i < st'.idx || s.nodes[i].id in s.recorded)
      ensures Done(s, st', i)
    {
      assert i != st.idx ==> Done(s, st, i);
      if i != st.idx && Behind(s, st.log, i) {
        BehindStays(s, st.log, st'.log, i);
      } else if JustJumped(st') {
        ReviewJumped(s, st, st', i);
      } else {
        ReviewMoved(s, st, st', i);
      }
    }
  }

  lemma ReviewStatus(s: Setup, st: RunState, a: Answer)
    requires Valid(s, st) && st.place.InReview? && st.status == Active
    ensures
      var st' := StepReview(s, st, a);
      && st'.status != Succeeded && (st'.place.InReview? ==> st'.idx == st.idx)
      && (JustJumped(st') || st'.place.AtNode? || st'.idx == st.idx)
      && (!st'.place.Ended? ==> st'.status == Active)
  {
  }

  lemma AfterStatus(s: Setup, st: RunState, k: nat)
    requires st.idx < |s.nodes| && s.nodes[st.idx].kind.Phase? && k < |st.phases|
    requires st.place.AtNode? && st.status == Active
    ensures
      var st' := AfterAgents(s, st, k);
      && st'.status != Succeeded && (st'.place.InReview? ==> !InteractiveAt(s.nodes, st.idx))
      && (!st'.place.Ended? ==> st'.status == Active)
  {
  }

  lemma StartStatus(s: Setup, st: RunState, k: nat, a: Answer)
    requires st.place.AtNode? && st.status == Active && st.idx < |s.nodes| && !s.nodes[st.idx].IsOrche()
    requires k < |st.phases|
    ensures
      var st' := StartPhase(s, st, k, a);
      && st'.status != Succeeded && (st'.place.InReview? ==> !InteractiveAt(s.nodes, st.idx))
      && (!st'.place.Ended? ==> st'.status == Active)
  {
    var st1 := Log(SetStatus(st, k, Running), Started(st.idx));
    if !s.nodes[st.idx].kind.Trigger? {
      var def := s.nodes[st.idx].kind.def;
      var ran := if def.mode == Parallel then RunAgents(st1.phases[k], def.agents, a.agents)
                 else LoopAgent(st1.phases[k], def, a.turns);
      if ran.Some? {
        AfterStatus(s, SetPhase(st1, k, ran.value), k);
      }
    }
  }

  lemma PhaseStatus(s: Setup, st: RunState, a: Answer)
    requires Valid(s, st) && st.place.AtNode? && st.status == Active && st.idx < |s.nodes| && !s.nodes[st.idx].IsOrche()
    ensures
      var st' := StepPhase(s, st, a);
      && st'.status != Succeeded && (st'.place.InReview? ==> !InteractiveAt(s.nodes, st.idx))
      && (!st'.place.Ended? ==> st'.status == Active)
  {
    var k := PhaseIndex(st.phases, s.nodes[st.idx].id);
    if k.Some? {
      StartStatus(s, st, k.value, a);
    }
  }

  lemma OrcheStatus(s: Setup, st: RunState, a: OrcheAnswer)
    requires Valid(s, st) && st.place.AtNode? && st.status == Active && st.idx < |s.nodes|
    ensures
      var st' := StepOrche(s, st, a);
      && st'.status != Succeeded && !st'.place.InReview? && (!st'.place.Ended? ==> st'.status == Active)
  {
  }

  lemma NodeStatus(s: Setup, st: RunState, a: Answer)
    requires Valid(s, st) && st.place.AtNode? && st.status == Active
    ensures
      var st' := StepNode(s, st, a);
      && (st'.status == Succeeded ==> st'.place.Ended? && st.idx == |s.nodes|)
      && (st.idx == |s.nodes| ==> !st'.place.AtNode?)
      && (st'.place.InReview? ==>
            st.idx < |s.nodes| && s.nodes[st.idx].id !in s.recorded && !InteractiveAt(s.nodes, st.idx))
      && (!st'.place.Ended? ==> st'.status == Active)
  {
    NodeStepCases(s, st, a, StepNode(s, st, a));
    if st.idx < |s.nodes| {
      if s.nodes[st.idx].IsOrche() {
        OrcheStatus(s, st, a.orche);
      } else {
        PhaseStatus(s, st, a);
      }
    }
  }

  lemma StepProgress(s: Setup, st: RunState, a: Answer)
    requires Valid(s, st) && !st.place.Ended? && st.status == Active
    requires WellPlanned(s.nodes) && Progress(s, st)
    requires Valid(s, Step(s, st, a))
    ensures Progress(s, Step(s, st, a))
    ensures !Step(s, st, a).place.Ended? ==> Step(s, st, a).status == Active
  {
    if st.place.AtNode? {
      NodeFrame(s, st, a);
      NodeStepMoves(s, st, a);
      NodeStatus(s, st, a);
      NodeProgress(s, st, StepNode(s, st, a));
    } else {
      ReviewFrames(s, st, a);
      ReviewStatus(s, st, a);
      ReviewProgress(s, st, StepReview(s, st, a));
    }
  }

  ghost predicate Advancing(s: Setup, st: RunState) {
    Progress(s, st) && (!st.place.Ended? ==> st.status == Active)
  }

  lemma StepAdvances(s: Setup, st: RunState, a: Answer)
    requires Valid(s, st) && !st.place.Ended? && WellPlanned(s.nodes) && Advancing(s, st)
    ensures Advancing(s, Step(s, st, a))
  {
    StepDescends(s, st, a);
    StepProgress(s, st, a);
  }

  lemma RunProgress(s: Setup, env: Env, t: nat, st: RunState)
    requires Valid(s, st) && WellPlanned(s.nodes) && Progress(s, st)
    requires !st.place.Ended? ==> st.status == Active
    ensures Progress(s, Run(s, env, t, st))
  {
    var P := (x: RunState) => Advancing(s, x);
    forall x: RunState, u: nat | Valid(s, x) && !x.place.Ended? && P(x)
      ensures P(Step(s, x, env(u)))
    {
      StepAdvances(s, x, env(u));
    }
    RunKeeps(s, env, t, st, P);
  }
}
