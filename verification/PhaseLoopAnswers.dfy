/** What the answers of agents, critics and handlers lead to, told from the answers and the node's own fields. */
module PhaseLoopAnswers {
  import opened WorkflowNode
  import opened PhaseLoop
  import opened PhaseLoopLog

  // ---- Agents ----

  /** Agents have ids of their own, definitions too, and every definition names an agent. */
  ghost predicate Named(agents: seq<Agent>, defs: seq<string>) {
    && (forall i, j :: 0 <= i < j < |agents| ==> agents[i].id != agents[j].id)
    && (forall i, j :: 0 <= i < j < |defs| ==> defs[i] != defs[j])
    && (forall k :: 0 <= k < |defs| ==> HasAgent(agents, defs[k]))
  }

  ghost predicate HasAgent(agents: seq<Agent>, id: string) {
    exists j :: 0 <= j < |agents| && agents[j].id == id
  }

  /** What a run of the definitions makes of agent `a`: completed agents and those nobody defines are left alone, the
      others are completed or failed by the outcome of their own definition. */
  predicate TookOutcome(a: Agent, a': Agent, defs: seq<string>, ok: nat -> bool) {
    if a.status == Completed || a.id !in defs then a' == a
    else
      forall k :: 0 <= k < |defs| && defs[k] == a.id ==>
        a' == if ok(k) then a.(status := Completed, answered := true) else a.(status := Failed)
  }

  lemma NamedSlot(agents: seq<Agent>, defs: seq<string>, k: nat, j: nat)
    requires Named(agents, defs) && k < |defs| && j < |agents| && agents[j].id == defs[k]
    ensures Slot(agents, defs[k], k) == Some(j)
  {
  }

  lemma NamedSlots(agents: seq<Agent>, defs: seq<string>)
    requires Named(agents, defs)
    ensures HasSlots(agents, defs)
  {
    forall k | 0 <= k < |defs|
      ensures Slot(agents, defs[k], k).Some?
    {
      assert HasAgent(agents, defs[k]);
      var j :| 0 <= j < |agents| && agents[j].id == defs[k];
      NamedSlot(agents, defs, k, j);
    }
  }

  lemma OutcomeNext(a: Agent, a': Agent, defs: seq<string>, ok: nat -> bool, n: nat)
    requires n < |defs| && (forall i, j :: 0 <= i < j < |defs| ==> defs[i] != defs[j])
    requires
      if a.id != defs[n] || a.status == Completed then TookOutcome(a, a', defs[..n], ok)
      else a' == if ok(n) then a.(status := Completed, answered := true) else a.(status := Failed)
    ensures TookOutcome(a, a', defs[..n + 1], ok)
  {
    assert defs[..n + 1] == defs[..n] + [defs[n]];
    assert forall k :: 0 <= k < n ==> defs[k] != defs[n];
  }

  lemma {:induction false} OutcomeAt(agents: seq<Agent>, defs: seq<string>, ok: nat -> bool, n: nat, j: nat)
    requires Named(agents, defs) && HasSlots(agents, defs) && n <= |defs| && j < |agents|
    ensures TookOutcome(agents[j], AfterRunning(agents, defs, ok, n)[j], defs[..n], ok)
  {
    if n > 0 {
      OutcomeAt(agents, defs, ok, n - 1, j);
      assert HasAgent(agents, defs[n - 1]);
      var i :| 0 <= i < |agents| && agents[i].id == defs[n - 1];
      NamedSlot(agents, defs, n - 1, i);
      if i == j && agents[j].status != Completed {
        NotYetRun(agents, defs, ok, n - 1, j);
      }
      OutcomeNext(agents[j], AfterRunning(agents, defs, ok, n)[j], defs, ok, n - 1);
    }
  }

  lemma NotYetRun(agents: seq<Agent>, defs: seq<string>, ok: nat -> bool, n: nat, j: nat)
    requires Named(agents, defs) && HasSlots(agents, defs) && n < |defs| && j < |agents| && agents[j].id == defs[n]
    requires TookOutcome(agents[j], AfterRunning(agents, defs, ok, n)[j], defs[..n], ok)
    ensures AfterRunning(agents, defs, ok, n)[j] == agents[j]
  {
    assert forall k :: 0 <= k < n ==> defs[k] != defs[n];
  }

  /** Agents that run without an exception take their own outcomes. */
  lemma AgentsTakeOutcomes(ph: PhaseState, defs: seq<string>, ok: nat -> bool, j: nat)
    requires Named(ph.agents, defs) && j < |ph.agents|
    ensures
      var r := RunAgents(ph, defs, AgentsRan(ok));
      && r.Some? && r.value.id == ph.id && |r.value.agents| == |ph.agents|
      && TookOutcome(ph.agents[j], r.value.agents[j], defs, ok)
  {
    NamedSlots(ph.agents, defs);
    OutcomeAt(ph.agents, defs, ok, |defs|, j);
    assert defs[..|defs|] == defs;
  }

  /** In general, with ids that are missing or twice there: a definition writes to the first record of its id, or to the
      one at its own place if none has it, ... */
  lemma SlotIs(agents: seq<Agent>, id: string, k: nat, j: nat)
    requires j < |agents|
    ensures Slot(agents, id, k) == Some(j) <==>
      if HasAgent(agents, id) then agents[j].id == id && forall i :: 0 <= i < j ==> agents[i].id != id
      else j == k
  {
  }

  /** ... a record that was completed, or that no definition writes to, stays as it was, ... */
  lemma {:induction false} UnwrittenStays(agents: seq<Agent>, defs: seq<string>, ok: nat -> bool, n: nat, j: nat)
    requires HasSlots(agents, defs) && n <= |defs| && j < |agents|
    requires agents[j].status == Completed || forall k :: 0 <= k < n ==> Slot(agents, defs[k], k) != Some(j)
    ensures AfterRunning(agents, defs, ok, n)[j] == agents[j]
  {
    if n > 0 {
      AfterNext(agents, defs, ok, n - 1, j);
      UnwrittenStays(agents, defs, ok, n - 1, j);
    }
  }

  /** ... and any other has the outcome of the last definition that writes to it. */
  lemma {:induction false} LastOutcomeStays(agents: seq<Agent>, defs: seq<string>, ok: nat -> bool, n: nat, k: nat,
                                            j: nat)
    requires HasSlots(agents, defs) && k < n <= |defs| && j < |agents| && agents[j].status != Completed
    requires Slot(agents, defs[k], k) == Some(j) && forall i :: k < i < n ==> Slot(agents, defs[i], i) != Some(j)
    ensures
      var a' := AfterRunning(agents, defs, ok, n)[j];
      && a'.id == agents[j].id && a'.status == (if ok(k) then Completed else Failed) && (ok(k) ==> a'.answered)
  {
    AfterNext(agents, defs, ok, n - 1, j);
    if k < n - 1 {
      LastOutcomeStays(agents, defs, ok, n - 1, k, j);
    } else {
      AfterIds(agents, defs, ok, k, j);
    }
  }

  /** What one more definition makes of a record. */
  lemma AfterNext(agents: seq<Agent>, defs: seq<string>, ok: nat -> bool, n: nat, j: nat)
    requires HasSlots(agents, defs) && n < |defs| && j < |agents|
    ensures
      var a, a' := AfterRunning(agents, defs, ok, n)[j], AfterRunning(agents, defs, ok, n + 1)[j];
      a' ==
        if Slot(agents, defs[n], n) != Some(j) || agents[j].status == Completed then a
        else if ok(n) then a.(status := Completed, answered := true)
        else a.(status := Failed)
  {
  }

  lemma {:induction false} AfterIds(agents: seq<Agent>, defs: seq<string>, ok: nat -> bool, n: nat, j: nat)
    requires HasSlots(agents, defs) && n <= |defs| && j < |agents|
    ensures AfterRunning(agents, defs, ok, n)[j].id == agents[j].id
  {
    if n > 0 {
      AfterIds(agents, defs, ok, n - 1, j);
    }
  }

  // ---- Failure policies ----

  /** The definitions whose agent was to run, and failed. */
  ghost function Failures(agents: seq<Agent>, defs: seq<string>, ok: nat -> bool): set<nat> {
    set k: nat | k < |defs| && !ok(k) && forall j :: 0 <= j < |agents| && agents[j].id == defs[k] ==>
      agents[j].status != Completed
  }

  ghost function FailedAt(agents: seq<Agent>): set<nat> {
    set k: nat | k < |agents| && agents[k].status == Failed
  }

  lemma {:induction false} FailedAreCounted(agents: seq<Agent>)
    ensures FailedCount(agents) == |FailedAt(agents)|
  {
    if agents != [] {
      var n := |agents| - 1;
      FailedAreCounted(agents[..n]);
      assert FailedAt(agents) == FailedAt(agents[..n]) + if agents[n].status == Failed then {n} else {};
    }
  }

  lemma {:induction false} WrittenAt(agents: seq<Agent>, defs: seq<string>, n: nat, k: nat)
    requires HasSlots(agents, defs) && n <= k < |defs|
    ensures Written(agents, defs, n)[k - n] == agents[Slot(agents, defs[k], k).value]
    decreases |defs| - n
  {
    if n < k {
      WrittenAt(agents, defs, n + 1, k);
      assert Written(agents, defs, n)[k - n] == Written(agents, defs, n + 1)[k - (n + 1)];
    }
  }

  /** The record of definition `k` after the run, and that it is failed exactly if the definition failed. */
  lemma OutcomeFails(ph: PhaseState, ph': PhaseState, defs: seq<string>, ok: nat -> bool, k: nat, j: nat)
    requires Named(ph.agents, defs) && RunAgents(ph, defs, AgentsRan(ok)) == Some(ph')
    requires k < |defs| && j < |ph.agents| && ph.agents[j].id == defs[k]
    ensures j < |ph'.agents| && (ph'.agents[j].status == Failed <==> k in Failures(ph.agents, defs, ok))
  {
    AgentsTakeOutcomes(ph, defs, ok, j);
    assert defs[k] in defs;
  }

  lemma ResultAt(ph: PhaseState, ph': PhaseState, defs: seq<string>, ok: nat -> bool, k: nat)
    requires Named(ph.agents, defs) && RunAgents(ph, defs, AgentsRan(ok)) == Some(ph') && k < |defs|
    ensures HasSlots(ph'.agents, defs) && Slot(ph'.agents, defs[k], k).Some?
    ensures ph'.agents[Slot(ph'.agents, defs[k], k).value].status == Failed <==> k in Failures(ph.agents, defs, ok)
  {
    assert HasAgent(ph.agents, defs[k]);
    var j :| 0 <= j < |ph.agents| && ph.agents[j].id == defs[k];
    OutcomeFails(ph, ph', defs, ok, k, j);
    StillNamed(ph, ph', defs, ok);
    NamedSlots(ph'.agents, defs);
    SameIds(ph, ph', defs, ok, j);
    NamedSlot(ph'.agents, defs, k, j);
  }

  lemma SameIds(ph: PhaseState, ph': PhaseState, defs: seq<string>, ok: nat -> bool, j: nat)
    requires Named(ph.agents, defs) && RunAgents(ph, defs, AgentsRan(ok)) == Some(ph') && j < |ph.agents|
    ensures |ph'.agents| == |ph.agents| && ph'.agents[j].id == ph.agents[j].id
  {
    AgentsTakeOutcomes(ph, defs, ok, j);
    if ph.agents[j].id in defs {
      var k :| 0 <= k < |defs| && defs[k] == ph.agents[j].id;
    }
  }

  lemma StillNamed(ph: PhaseState, ph': PhaseState, defs: seq<string>, ok: nat -> bool)
    requires Named(ph.agents, defs) && RunAgents(ph, defs, AgentsRan(ok)) == Some(ph')
    ensures Named(ph'.agents, defs)
  {
    forall j | 0 <= j < |ph.agents|
      ensures |ph'.agents| == |ph.agents| && ph'.agents[j].id == ph.agents[j].id
    {
      SameIds(ph, ph', defs, ok, j);
    }
    forall k | 0 <= k < |defs|
      ensures HasAgent(ph'.agents, defs[k])
    {
      assert HasAgent(ph.agents, defs[k]);
      var j :| 0 <= j < |ph.agents| && ph.agents[j].id == defs[k];
      assert ph'.agents[j].id == defs[k];
    }
  }

  /** The phase's failure policy lets it go on with so many failures. */
  predicate Tolerates(def: PhaseDef, total: nat, failures: nat) {
    match def.policy
    case BestEffort => true
    case FailFast => failures == 0
    case Quorum => total - failures >= if def.quorum.Some? then def.quorum.value else 1
  }

  lemma FailuresAreCounted(ph: PhaseState, ph': PhaseState, def: PhaseDef, ok: nat -> bool)
    requires Named(ph.agents, def.agents) && RunAgents(ph, def.agents, AgentsRan(ok)) == Some(ph')
    requires def.mode != SequentialLoop
    ensures |Results(ph', def)| == |def.agents|
    ensures FailedCount(Results(ph', def)) == |Failures(ph.agents, def.agents, ok)|
  {
    var results := Results(ph', def);
    if def.agents != [] {
      ResultAt(ph, ph', def.agents, ok, 0);
    }
    forall k: nat | k < |def.agents|
      ensures k in FailedAt(results) <==> k in Failures(ph.agents, def.agents, ok)
    {
      ResultAt(ph, ph', def.agents, ok, k);
      WrittenAt(ph'.agents, def.agents, 0, k);
    }
    assert FailedAt(results) == Failures(ph.agents, def.agents, ok);
    FailedAreCounted(results);
  }

  lemma PolicyCounts(ph: PhaseState, ph': PhaseState, def: PhaseDef, ok: nat -> bool)
    requires Named(ph.agents, def.agents) && RunAgents(ph, def.agents, AgentsRan(ok)) == Some(ph')
    requires def.mode != SequentialLoop
    ensures PolicyFails(ph', def) <==> !Tolerates(def, |def.agents|, |Failures(ph.agents, def.agents, ok)|)
  {
    FailuresAreCounted(ph, ph', def, ok);
  }

  // ---- Starting a phase ----

  /** The step at hand starts the phase of this node, whose record is number `k`. */
  ghost predicate StartsPhase(s: Setup, st: RunState, k: nat, a: Answer) {
    && Valid(s, st) && st.place.AtNode? && st.idx < |s.nodes| && s.nodes[st.idx].kind.Phase?
    && st.log < StepNode(s, st, a).log && StepNode(s, st, a).log[|st.log|] == Started(st.idx)
    && PhaseIndex(st.phases, s.nodes[st.idx].id) == Some(k)
  }

  lemma StartedPhase(s: Setup, st: RunState, k: nat, a: Answer)
    requires StartsPhase(s, st, k, a)
    ensures StepNode(s, st, a) == StartPhase(s, st, k, a)
  {
    NodeStepCases(s, st, a, StepNode(s, st, a));
  }

  /** How a phase goes on from its agents' runs: it fails by its policy, is completed, or goes to its critic. */
  predicate GoesOnFrom(s: Setup, st: RunState, st': RunState, k: nat, tolerated: bool)
    requires st.idx < |s.nodes| && s.nodes[st.idx].kind.Phase? && k < |st'.phases|
  {
    if !tolerated then st'.place.Ended? && st'.status == Errored && st'.phases[k].status == Failed
    else if s.nodes[st.idx].kind.def.critic.None? then
      st'.place.AtNode? && st'.idx == st.idx + 1 && st'.phases[k].status == Completed
    else st'.place == InReview(k, 0) && st'.idx == st.idx && st'.phases[k].status == Running
  }

  /** A phase whose agents run side by side: each takes its outcome, and their failures decide by the policy. */
  lemma ParallelPhaseGoesOn(s: Setup, st: RunState, k: nat, a: Answer)
    requires StartsPhase(s, st, k, a) && s.nodes[st.idx].kind.def.mode == Parallel
    requires Named(st.phases[k].agents, s.nodes[st.idx].kind.def.agents)
    ensures
      var st', def, agents := StepNode(s, st, a), s.nodes[st.idx].kind.def, st.phases[k].agents;
      && |st'.phases| == |st.phases|
      && match a.agents
         case AgentsCrashed => st'.place.Ended? && st'.status == Errored
         case AgentsRan(ok) =>
           && GoesOnFrom(s, st, st', k, Tolerates(def, |def.agents|, |Failures(agents, def.agents, ok)|))
           && |st'.phases[k].agents| == |agents|
           && forall j :: 0 <= j < |agents| ==> TookOutcome(agents[j], st'.phases[k].agents[j], def.agents, ok)
  {
    StartedPhase(s, st, k, a);
    var st', def := StepNode(s, st, a), s.nodes[st.idx].kind.def;
    if a.agents.AgentsRan? {
      var ph := st.phases[k].(status := Running);
      var ran := RunAgents(ph, def.agents, a.agents);
      NamedSlots(ph.agents, def.agents);
      forall j | 0 <= j < |ph.agents|
        ensures TookOutcome(ph.agents[j], ran.value.agents[j], def.agents, a.agents.ok)
      {
        AgentsTakeOutcomes(ph, def.agents, a.agents.ok, j);
      }
      PolicyCounts(ph, ran.value, def, a.agents.ok);
    }
  }

  // ---- Phases in turns ----

  predicate Breaks(turn: Turn, canRun: bool) {
    turn.TurnCrashed? || (!canRun && !turn.TurnAborted?)
  }

  predicate Stops(turn: Turn) {
    turn.TurnAborted? || turn.TurnDone?
  }

  /** Of the turns from `n` on, each that breaks comes after one that stopped the loop. */
  ghost predicate StopsInTime(canRun: bool, turns: nat -> Turn, n: nat, max: nat) {
    forall i :: n <= i < max && Breaks(turns(i), canRun) ==> exists j :: n <= j < i && Stops(turns(j))
  }

  lemma {:induction false} TurnsEndIff(canRun: bool, turns: nat -> Turn, n: nat, max: nat)
    ensures TurnsEnd(canRun, turns, n, max) <==> StopsInTime(canRun, turns, n, max)
    decreases max - n
  {
    if n < max {
      if Stops(turns(n)) {
        StoppedInTime(canRun, turns, n, max);
      } else if Breaks(turns(n), canRun) {
        BrokenAtOnce(canRun, turns, n, max);
      } else {
        TurnsEndIff(canRun, turns, n + 1, max);
        LaterInTime(canRun, turns, n, max);
      }
    }
  }

  lemma BrokenAtOnce(canRun: bool, turns: nat -> Turn, n: nat, max: nat)
    requires n < max && Breaks(turns(n), canRun)
    ensures !StopsInTime(canRun, turns, n, max)
  {
  }

  lemma StoppedInTime(canRun: bool, turns: nat -> Turn, n: nat, max: nat)
    requires n < max && Stops(turns(n))
    ensures StopsInTime(canRun, turns, n, max) <==> !Breaks(turns(n), canRun)
  {
  }

  lemma LaterInTime(canRun: bool, turns: nat -> Turn, n: nat, max: nat)
    requires n < max && !Stops(turns(n)) && !Breaks(turns(n), canRun)
    ensures StopsInTime(canRun, turns, n, max) <==> StopsInTime(canRun, turns, n + 1, max)
  {
  }

  /** How many turns a phase in turns may take: its own bound, else 20 with a user and 50 without. */
  function MostTurns(def: PhaseDef): (max: nat)
    ensures max > 0
  {
    if def.maxLoop != 0 then def.maxLoop else if def.mode == Interactive then 20 else 50
  }

  /** A phase in turns fails unless it stops before it breaks; else its first agent is completed. One with a user is
      completed then; the other goes on by its policy. */
  lemma LoopingPhaseGoesOn(s: Setup, st: RunState, k: nat, a: Answer)
    requires StartsPhase(s, st, k, a) && s.nodes[st.idx].kind.def.mode != Parallel
    ensures
      var st', def, agents := StepNode(s, st, a), s.nodes[st.idx].kind.def, st.phases[k].agents;
      && |st'.phases| == |st.phases|
      && if agents == [] || !StopsInTime(def.agents != [], a.turns, 0, MostTurns(def)) then
           st'.place.Ended? && st'.status == Errored
         else
           && |st'.phases[k].agents| == |agents|
           && st'.phases[k].agents[0] ==
                (if a.turns(0).TurnAborted? && agents[0].status == Completed then agents[0]
                 else Agent(agents[0].id, Completed, true))
           && (forall j :: 0 < j < |agents| ==> st'.phases[k].agents[j] == agents[j])
           && if def.mode == Interactive then
                st'.place.AtNode? && st'.idx == st.idx + 1 && st'.phases[k].status == Completed
              else
                GoesOnFrom(s, st, st', k, Tolerates(def, |agents|, |FailedAt(st'.phases[k].agents)|))
  {
    StartedPhase(s, st, k, a);
    var def := s.nodes[st.idx].kind.def;
    TurnsEndIff(def.agents != [], a.turns, 0, MostTurns(def));
    var ran := LoopAgent(st.phases[k].(status := Running), def, a.turns);
    if ran.Some? {
      AfterTurns(s, SetPhase(Log(SetStatus(st, k, Running), Started(st.idx)), k, ran.value), k);
    }
  }

  lemma AfterTurns(s: Setup, st: RunState, k: nat)
    requires st.idx < |s.nodes| && s.nodes[st.idx].kind.Phase? && s.nodes[st.idx].kind.def.mode != Parallel
    requires k < |st.phases| && st.phases[k].status == Running
    ensures
      var st', def := AfterAgents(s, st, k), s.nodes[st.idx].kind.def;
      && |st'.phases| == |st.phases| && st'.phases[k].agents == st.phases[k].agents
      && if def.mode == Interactive then
           st'.place.AtNode? && st'.idx == st.idx + 1 && st'.phases[k].status == Completed
         else GoesOnFrom(s, st, st', k, Tolerates(def, |st.phases[k].agents|, |FailedAt(st.phases[k].agents)|))
  {
    FailedAreCounted(st.phases[k].agents);
  }

  // ---- The critic's verdict ----

  /** The critic is satisfied, or its gate does not hold anything back: the phase is completed. */
  lemma PassedReviewCompletes(s: Setup, st: RunState, a: Answer)
    requires Valid(s, st) && st.place.InReview?
    requires a.verdict.CriticCrashed? || a.verdict.approved || !CriticAt(s.nodes, st.idx).gate
    ensures
      var st' := StepReview(s, st, a);
      && st'.place.AtNode? && st'.idx == st.idx + 1
      && st'.phases == st.phases[st.place.k := st.phases[st.place.k].(status := Completed)]
  {
  }

  /** A gate rejects. */
  predicate Rejects(s: Setup, st: RunState, a: Answer) {
    && Valid(s, st) && st.place.InReview? && CriticAt(s.nodes, st.idx).gate
    && a.verdict.Verdict? && !a.verdict.approved
  }

  /** A rejection stops the run for the user exactly when jumps or rounds are used up, or the critic escalates. */
  lemma RejectionWaits(s: Setup, st: RunState, a: Answer)
    requires Rejects(s, st, a)
    ensures
      var st', critic, max := StepReview(s, st, a), CriticAt(s.nodes, st.idx),
        if CriticAt(s.nodes, st.idx).maxRetries.Some? then CriticAt(s.nodes, st.idx).maxRetries.value else 1;
      st'.place.Ended? && st'.status == WaitingForUser <==>
        if critic.onRejection == Some(Goto) && critic.gotoPhase != "" then
          GotoCount(st.gotos, KeyAt(s.nodes, st.idx)) >= max
        else critic.onRejection in {None, Some(Escalate)} || st.place.retries >= max
  {
    var st1 := Log(SetStatus(st, st.place.k, Reviewing), ReviewOf(st, a));
    if CriticAt(s.nodes, st.idx).Jumps() {
      JumpEnds(s, st1);
    }
  }

  /** A jump that is made is counted, takes the run to the target, and resets just the phases it goes back over. */
  lemma RejectionJumps(s: Setup, st: RunState, a: Answer, t: nat)
    requires Rejects(s, st, a) && CriticAt(s.nodes, st.idx).Jumps()
    requires GotoCount(st.gotos, KeyAt(s.nodes, st.idx)) < CriticAt(s.nodes, st.idx).Retries()
    requires NodeIndex(PhaseDefs(s.nodes), CriticAt(s.nodes, st.idx).gotoPhase) == Some(t)
    ensures
      var st', k := StepReview(s, st, a), st.place.k;
      && st'.place.AtNode? && st'.idx < |s.nodes| && s.nodes[st'.idx].id == CriticAt(s.nodes, st.idx).gotoPhase
      && GotoCount(st'.gotos, KeyAt(s.nodes, st.idx)) == GotoCount(st.gotos, KeyAt(s.nodes, st.idx)) + 1
      && (forall key :: key != KeyAt(s.nodes, st.idx) ==> GotoCount(st'.gotos, key) == GotoCount(st.gotos, key))
      && |st'.phases| == |st.phases|
      && (forall j :: 0 <= j < |st.phases| && !(t <= j <= k) && j != k ==> st'.phases[j] == st.phases[j])
      && (forall j :: 0 <= j < |st.phases| && t <= j <= k ==> StartsOver(st.phases[j], st'.phases[j]))
  {
    JumpEnds(s, Log(SetStatus(st, st.place.k, Reviewing), ReviewOf(st, a)));
    var phases := SetStatus(st, st.place.k, Reviewing).phases;
    forall j | 0 <= j < |st.phases| && t <= j <= st.place.k
      ensures StartsOver(st.phases[j], StepReview(s, st, a).phases[j])
    {
      ResetStartsOver(st.phases[j], phases[j]);
    }
  }

  /** Two critics count their jumps apart if the ids of their phases hold no `>`; ... */
  lemma KeysDiffer(phase: string, target: string, phase': string, target': string)
    requires '>' !in phase && '>' !in phase' && GotoKey(phase, target) == GotoKey(phase', target')
    ensures phase == phase' && target == target'
  {
    var key, key' := GotoKey(phase, target), GotoKey(phase', target');
    assert key[|phase| + 1] == '>' && key'[|phase'| + 1] == '>';
    assert forall k :: 0 <= k < |phase| + 1 ==> key[k] == (if k < |phase| then phase[k] else '-');
    assert forall k :: 0 <= k < |phase'| + 1 ==> key'[k] == (if k < |phase'| then phase'[k] else '-');
    assert |phase| == |phase'|;
    assert phase == key[..|phase|] == phase' && target == key[|phase| + 2..] == target';
  }

  /** ... otherwise they may share one count. */
  lemma KeysMayCollide()
    ensures GotoKey("a->b", "c") == GotoKey("a", "b->c")
  {
    assert "a->b" + "->" + "c" == "a->b->c" == "a" + "->" + "b->c";
  }

  /** An agent starts over. */
  function Fresh(a: Agent): Agent {
    Agent(a.id, Pending, false)
  }

  function AllFresh(agents: seq<Agent>): (r: seq<Agent>)
    ensures |r| == |agents| && forall j :: 0 <= j < |r| ==> r[j] == Fresh(agents[j])
  {
    seq(|agents|, j requires 0 <= j < |agents| => Fresh(agents[j]))
  }

  /** A phase starts over, with all its agents. */
  predicate StartsOver(ph: PhaseState, ph': PhaseState) {
    && ph'.id == ph.id && ph'.status == Pending && |ph'.agents| == |ph.agents|
    && forall i :: 0 <= i < |ph.agents| ==> ph'.agents[i] == Fresh(ph.agents[i])
  }

  lemma ResetStartsOver(ph: PhaseState, changed: PhaseState)
    requires changed.id == ph.id && changed.agents == ph.agents
    ensures StartsOver(ph, Reset(changed))
  {
  }

  /** A rejection that is to be retried by all agents runs them all again, whatever they had done. */
  lemma RejectionRetriesAll(s: Setup, st: RunState, a: Answer)
    requires Rejects(s, st, a) && CriticAt(s.nodes, st.idx).onRejection == Some(RetryAll)
    requires st.place.retries < CriticAt(s.nodes, st.idx).Retries()
    requires Named(st.phases[st.place.k].agents, s.nodes[st.idx].kind.def.agents)
    ensures
      var agents := st.phases[st.place.k].agents;
      RerunAfresh(st, StepReview(s, st, a), AllFresh(agents), s.nodes[st.idx].kind.def.agents, a.agents)
  {
    StepRetriesAll(s, st, a);
    AllRerun(st, ReviewOf(st, a), s.nodes[st.idx].kind.def.agents, a.agents);
  }

  lemma AllRerun(st: RunState, first: Event, defs: seq<string>, ans: AgentsAnswer)
    requires st.place.InReview? && st.place.k < |st.phases| && Named(st.phases[st.place.k].agents, defs)
    ensures
      var st1 := Log(SetStatus(st, st.place.k, Reviewing), first);
      var cleared := Reset(st1.phases[st.place.k].(status := Running)).(status := Running);
      RerunAfresh(st, RerunAgents(st1, cleared, defs, ans), AllFresh(st.phases[st.place.k].agents), defs, ans)
  {
    var agents := st.phases[st.place.k].agents;
    var st1 := Log(SetStatus(st, st.place.k, Reviewing), first);
    var cleared := Reset(st1.phases[st.place.k].(status := Running)).(status := Running);
    assert cleared.agents == AllFresh(agents);
    RenamedStays(agents, cleared.agents, defs);
    RerunTakesOutcomes(st1, cleared, defs, ans);
  }

  lemma StepRetriesAll(s: Setup, st: RunState, a: Answer)
    requires Rejects(s, st, a) && CriticAt(s.nodes, st.idx).onRejection == Some(RetryAll)
    requires st.place.retries < CriticAt(s.nodes, st.idx).Retries()
    ensures
      var st1 := Log(SetStatus(st, st.place.k, Reviewing), ReviewOf(st, a));
      StepReview(s, st, a) ==
        RerunAgents(st1, Reset(st1.phases[st.place.k].(status := Running)).(status := Running),
                    s.nodes[st.idx].kind.def.agents, a.agents)
  {
  }

  /** The critic is asked again after these agents, put in place of the phase's own, were run: the run stops if one
      throws, else each takes its outcome. */
  predicate RerunAfresh(st: RunState, st': RunState, agents: seq<Agent>, defs: seq<string>, ans: AgentsAnswer)
    requires st.place.InReview? && st.place.k < |st.phases|
  {
    var k := st.place.k;
    && |st'.phases| == |st.phases|
    && match ans
       case AgentsCrashed => st'.place.Ended? && st'.status == Errored
       case AgentsRan(ok) =>
         && st'.place == InReview(k, st.place.retries + 1) && st'.idx == st.idx
         && |st'.phases[k].agents| == |agents|
         && forall j :: 0 <= j < |agents| ==> TookOutcome(agents[j], st'.phases[k].agents[j], defs, ok)
  }

  lemma RerunTakesOutcomes(st: RunState, cleared: PhaseState, defs: seq<string>, ans: AgentsAnswer)
    requires st.place.InReview? && st.place.k < |st.phases| && Named(cleared.agents, defs)
    ensures RerunAfresh(st, RerunAgents(st, cleared, defs, ans), cleared.agents, defs, ans)
  {
    NamedSlots(cleared.agents, defs);
    if ans.AgentsRan? {
      forall j | 0 <= j < |cleared.agents|
        ensures TookOutcome(cleared.agents[j], RunAgents(cleared, defs, ans).value.agents[j], defs, ans.ok)
      {
        AgentsTakeOutcomes(cleared, defs, ans.ok, j);
      }
    }
  }

  lemma RenamedStays(agents: seq<Agent>, agents': seq<Agent>, defs: seq<string>)
    requires Named(agents, defs) && |agents'| == |agents|
    requires forall j :: 0 <= j < |agents| ==> agents'[j].id == agents[j].id
    ensures Named(agents', defs)
  {
    forall k | 0 <= k < |defs|
      ensures HasAgent(agents', defs[k])
    {
      assert HasAgent(agents, defs[k]);
      var j :| 0 <= j < |agents| && agents[j].id == defs[k];
      assert agents'[j].id == defs[k];
    }
  }

  /** The critic's rejection is about this agent: it pointed at it, or pointed at nobody and the agent failed or has no
      result. */
  predicate Blamed(agent: Agent, flagged: seq<string>) {
    agent.id in flagged || (flagged == [] && (agent.status == Failed || !agent.answered))
  }

  lemma {:induction false} RetryDefsAre(defs: seq<string>, agents: seq<Agent>, flagged: seq<string>, id: string)
    ensures id in RetryDefs(defs, agents, flagged) <==>
      id in defs && exists j :: 0 <= j < |agents| && agents[j].id == id && Blamed(agents[j], flagged)
  {
    if defs != [] {
      var n := |defs| - 1;
      RetryDefsAre(defs[..n], agents, flagged, id);
      assert defs == defs[..n] + [defs[n]];
    }
  }

  lemma {:induction false} RetryDefsNamed(defs: seq<string>, agents: seq<Agent>, flagged: seq<string>)
    requires Named(agents, defs)
    ensures Named(agents, RetryDefs(defs, agents, flagged))
  {
    if defs != [] {
      var n := |defs| - 1;
      RetryDefsNamed(defs[..n], agents, flagged);
      RetryDefsAre(defs[..n], agents, flagged, defs[n]);
      var front := RetryDefs(defs[..n], agents, flagged);
      assert forall k :: 0 <= k < |front| ==> front[k] in front;
      assert HasAgent(agents, defs[n]);
    }
  }

  /** What a targeted retry makes of an agent: left as it is, started over, or run again. */
  predicate Retargeted(a: Agent, a': Agent, defs: seq<string>, flagged: seq<string>) {
    if !Blamed(a, flagged) then a' == a
    else if a.id !in defs then a' == Fresh(a)
    else a' == Agent(a.id, Completed, true) || a' == Agent(a.id, Failed, false)
  }

  lemma ClearedOutcome(agents: seq<Agent>, defs: seq<string>, flagged: seq<string>, ok: nat -> bool, j: nat,
                       a': Agent)
    requires Named(agents, defs) && j < |agents|
    requires TookOutcome(Cleared(agents, flagged)[j], a', RetryDefs(defs, agents, flagged), ok)
    ensures Retargeted(agents[j], a', defs, flagged)
  {
    var again := RetryDefs(defs, agents, flagged);
    RetryDefsAre(defs, agents, flagged, agents[j].id);
    BlamedOnce(agents, flagged, j);
    if agents[j].id in again {
      var k :| 0 <= k < |again| && again[k] == agents[j].id;
    }
  }

  lemma BlamedOnce(agents: seq<Agent>, flagged: seq<string>, j: nat)
    requires j < |agents| && forall i, k :: 0 <= i < k < |agents| ==> agents[i].id != agents[k].id
    ensures (exists i :: 0 <= i < |agents| && agents[i].id == agents[j].id && Blamed(agents[i], flagged))
       <==> Blamed(agents[j], flagged)
    ensures Cleared(agents, flagged)[j] == if Blamed(agents[j], flagged) then Fresh(agents[j]) else agents[j]
  {
  }

  lemma SomeoneBlamed(agents: seq<Agent>, defs: seq<string>, flagged: seq<string>)
    ensures RetryDefs(defs, agents, flagged) == [] <==>
      forall i :: 0 <= i < |agents| && agents[i].id in defs ==> !Blamed(agents[i], flagged)
  {
    var again := RetryDefs(defs, agents, flagged);
    if again != [] {
      RetryDefsAre(defs, agents, flagged, again[0]);
    } else {
      forall i | 0 <= i < |agents| && agents[i].id in defs
        ensures !Blamed(agents[i], flagged)
      {
        RetryDefsAre(defs, agents, flagged, agents[i].id);
      }
    }
  }

  /** A targeted rejection that is about none of the defined agents is waived and the phase is completed; ... */
  lemma RejectionWithoutTargets(s: Setup, st: RunState, a: Answer)
    requires Rejects(s, st, a) && CriticAt(s.nodes, st.idx).onRejection == Some(RetryTargeted)
    requires st.place.retries < CriticAt(s.nodes, st.idx).Retries()
    requires forall i :: 0 <= i < |st.phases[st.place.k].agents| ==>
      st.phases[st.place.k].agents[i].id in s.nodes[st.idx].kind.def.agents ==>
        !Blamed(st.phases[st.place.k].agents[i], a.verdict.flagged)
    ensures
      var st', k := StepReview(s, st, a), st.place.k;
      && st'.place.AtNode? && st'.idx == st.idx + 1
      && st'.phases == st.phases[k := st.phases[k].(status := Completed)]
  {
    SomeoneBlamed(st.phases[st.place.k].agents, s.nodes[st.idx].kind.def.agents, a.verdict.flagged);
  }

  /** ... one that is about some of them reruns these, and leaves the others as they are. */
  lemma RejectionRetriesTargets(s: Setup, st: RunState, a: Answer, i: nat)
    requires Rejects(s, st, a) && CriticAt(s.nodes, st.idx).onRejection == Some(RetryTargeted)
    requires st.place.retries < CriticAt(s.nodes, st.idx).Retries()
    requires Named(st.phases[st.place.k].agents, s.nodes[st.idx].kind.def.agents)
    requires i < |st.phases[st.place.k].agents| && Blamed(st.phases[st.place.k].agents[i], a.verdict.flagged)
    requires st.phases[st.place.k].agents[i].id in s.nodes[st.idx].kind.def.agents
    ensures
      RerunByTarget(st, StepReview(s, st, a), s.nodes[st.idx].kind.def.agents, a.verdict.flagged, a.agents)
  {
    SomeoneBlamed(st.phases[st.place.k].agents, s.nodes[st.idx].kind.def.agents, a.verdict.flagged);
    StepRetriesTargets(s, st, a);
    TargetsOfReview(st, ReviewOf(st, a), s.nodes[st.idx].kind.def.agents, a.verdict.flagged, a.agents);
  }

  lemma TargetsOfReview(st: RunState, first: Event, defs: seq<string>, flagged: seq<string>, ans: AgentsAnswer)
    requires st.place.InReview? && st.place.k < |st.phases| && Named(st.phases[st.place.k].agents, defs)
    ensures
      var st1 := Log(SetStatus(st, st.place.k, Reviewing), first);
      var ph := st1.phases[st.place.k].(status := Running);
      RerunByTarget(st,
        RerunAgents(st1, ph.(agents := Cleared(ph.agents, flagged)), RetryDefs(defs, ph.agents, flagged), ans), defs,
        flagged, ans)
  {
    var st1 := Log(SetStatus(st, st.place.k, Reviewing), first);
    TargetsRerun(st1, st1.phases[st.place.k].(status := Running), defs, flagged, ans);
  }

  /** The critic is asked again after the agents that its rejection is about were run again. */
  predicate RerunByTarget(st: RunState, st': RunState, defs: seq<string>, flagged: seq<string>, ans: AgentsAnswer)
    requires st.place.InReview? && st.place.k < |st.phases|
  {
    var k, agents := st.place.k, st.phases[st.place.k].agents;
    && |st'.phases| == |st.phases|
    && match ans
       case AgentsCrashed => st'.place.Ended? && st'.status == Errored
       case AgentsRan(_) =>
         && st'.place == InReview(k, st.place.retries + 1) && st'.idx == st.idx
         && |st'.phases[k].agents| == |agents|
         && forall j :: 0 <= j < |agents| ==> Retargeted(agents[j], st'.phases[k].agents[j], defs, flagged)
  }

  lemma StepRetriesTargets(s: Setup, st: RunState, a: Answer)
    requires Rejects(s, st, a) && CriticAt(s.nodes, st.idx).onRejection == Some(RetryTargeted)
    requires st.place.retries < CriticAt(s.nodes, st.idx).Retries()
    requires RetryDefs(s.nodes[st.idx].kind.def.agents, st.phases[st.place.k].agents, a.verdict.flagged) != []
    ensures
      var st1 := Log(SetStatus(st, st.place.k, Reviewing), ReviewOf(st, a));
      var ph := st1.phases[st.place.k].(status := Running);
      StepReview(s, st, a) ==
        RerunAgents(st1, ph.(agents := Cleared(ph.agents, a.verdict.flagged)),
                    RetryDefs(s.nodes[st.idx].kind.def.agents, ph.agents, a.verdict.flagged), a.agents)
  {
  }

  lemma TargetsRerun(st: RunState, ph: PhaseState, defs: seq<string>, flagged: seq<string>, ans: AgentsAnswer)
    requires st.place.InReview? && st.place.k < |st.phases| && Named(ph.agents, defs)
    requires ph.agents == st.phases[st.place.k].agents
    ensures
      RerunByTarget(st,
        RerunAgents(st, ph.(agents := Cleared(ph.agents, flagged)), RetryDefs(defs, ph.agents, flagged), ans), defs,
        flagged, ans)
  {
    var cleared, again := ph.(agents := Cleared(ph.agents, flagged)), RetryDefs(defs, ph.agents, flagged);
    RetryDefsNamed(defs, ph.agents, flagged);
    RenamedStays(ph.agents, cleared.agents, again);
    RerunTakesOutcomes(st, cleared, again, ans);
    if ans.AgentsRan? {
      var agents' := RerunAgents(st, cleared, again, ans).phases[st.place.k].agents;
      forall j | 0 <= j < |ph.agents|
        ensures Retargeted(ph.agents[j], agents'[j], defs, flagged)
      {
        ClearedOutcome(ph.agents, defs, flagged, ans.ok, j, agents'[j]);
      }
    }
  }

  // ---- Nodes that are not phases, and the end of a run ----

  /** The main loop ends as completed at the end of the list, and as cancelled where it sees an abort before that. */
  lemma LoopEnds(s: Setup, st: RunState, a: Answer)
    requires Valid(s, st) && st.place.AtNode?
    ensures st.idx == |s.nodes| ==> StepNode(s, st, a) == st.(status := Succeeded, place := Ended)
    ensures st.idx < |s.nodes| && a.aborted ==> StepNode(s, st, a) == st.(status := Cancelled, place := Ended)
    ensures st.idx < |s.nodes| && !a.aborted && StepNode(s, st, a).place.Ended? ==>
      |StepNode(s, st, a).log| > |st.log| && StepNode(s, st, a).status in {Errored, WaitingForUser}
  {
    NodeStepCases(s, st, a, StepNode(s, st, a));
    if st.idx < |s.nodes| {
      NodeEndsStarted(s, st, a);
    }
  }

  lemma NodeEndsStarted(s: Setup, st: RunState, a: Answer)
    requires Valid(s, st) && st.idx < |s.nodes|
    ensures
      var st' := if s.nodes[st.idx].IsOrche() then StepOrche(s, st, a.orche) else StepPhase(s, st, a);
      st'.place.Ended? ==> |st'.log| > |st.log| && st'.status in {Errored, WaitingForUser}
  {
  }

  /** An orchestration node that is started: one that throws fails the run, one that waits stops it with its record
      pending, so that a resumed run starts it again, and any other is completed and left behind. */
  lemma HandlersDecide(s: Setup, st: RunState, a: Answer)
    requires Valid(s, st) && st.place.AtNode? && StepNode(s, st, a).log != st.log && st.idx < |s.nodes|
    requires s.nodes[st.idx].IsOrche() && s.nodes[st.idx].id in st.orche
    ensures
      var st', id := StepNode(s, st, a), s.nodes[st.idx].id;
      && id in st'.orche && st'.phases == st.phases
      && match a.orche
         case Threw(_) => st'.place.Ended? && st'.status == Errored && st'.orche[id] == Failed
         case Output(_, waiting, _) =>
           if waiting then
             && st'.place.Ended? && st'.status == WaitingForUser && st'.orche[id] == Pending
             && ((forall k :: 0 <= k < |st.phases| ==> st.phases[k].id != id) ==>
                   id !in ResumeSetup(s.nodes, st'.phases, st'.orche).recorded)
           else st'.place.AtNode? && st'.idx == st.idx + 1 && st'.orche[id] == Completed
  {
    NodeStepCases(s, st, a, StepNode(s, st, a));
  }

  /** A node that was done before a resume, was switched off, or has a dependency that is not met, is passed over: no
      phase changes, and no record but that of an orchestration node that was switched off. */
  lemma NodesArePassedOver(s: Setup, st: RunState, a: Answer)
    requires Valid(s, st) && st.place.AtNode? && st.idx < |s.nodes| && !a.aborted
    requires
      var node := s.nodes[st.idx];
      node.id in s.recorded || node.id in st.skipped || exists d :: d in node.dependsOn && !Met(st, d)
    ensures
      var st', node := StepNode(s, st, a), s.nodes[st.idx];
      && st'.place.AtNode? && st'.idx == st.idx + 1 && st'.log == st.log && st'.phases == st.phases
      && st'.skipped == st.skipped
      && (if node.id !in s.recorded && node.id in st.skipped && node.IsOrche() && node.id in st.orche then
            st'.orche == st.orche[node.id := Skipped]
          else st'.orche == st.orche)
  {
  }

  /** A phase that may run is passed over if it is completed, recovered if the run is a resumed one that finds all its
      agents completed, and started otherwise. */
  lemma PhaseIsRecoveredIff(s: Setup, st: RunState, k: nat, a: Answer)
    requires Valid(s, st) && st.place.AtNode? && st.idx < |s.nodes| && !a.aborted && s.nodes[st.idx].kind.Phase?
    requires s.nodes[st.idx].id !in s.recorded && s.nodes[st.idx].id !in st.skipped
    requires AllMet(st, s.nodes[st.idx].dependsOn) && PhaseIndex(st.phases, s.nodes[st.idx].id) == Some(k)
    ensures
      var st', ph := StepNode(s, st, a), st.phases[k];
      if ph.status == Completed then
        st'.log == st.log && st'.phases == st.phases && st'.place.AtNode? && st'.idx == st.idx + 1
      else if s.resumed && ph.agents != [] && forall j :: 0 <= j < |ph.agents| ==> ph.agents[j].status == Completed then
        && st'.log == st.log + [Recovered(st.idx)] && st'.phases == st.phases[k := ph.(status := Completed)]
        && st'.place.AtNode? && st'.idx == st.idx + 1
      else StartsPhase(s, st, k, a)
  {
    assert StepNode(s, st, a) == StepPhase(s, st, a);
    StartedAtOnce(s, st, k, a);
  }

  lemma StartedAtOnce(s: Setup, st: RunState, k: nat, a: Answer)
    requires st.idx < |s.nodes| && !s.nodes[st.idx].IsOrche() && k < |st.phases|
    ensures st.log < StartPhase(s, st, k, a).log && StartPhase(s, st, k, a).log[|st.log|] == Started(st.idx)
  {
  }

  /** A dependency is met exactly if it was switched off, or its phase is completed, or its record closed. */
  lemma MetIff(st: RunState, dep: string)
    requires forall j, k :: 0 <= j < k < |st.phases| ==> st.phases[j].id != st.phases[k].id
    requires forall k :: 0 <= k < |st.phases| ==> st.phases[k].id !in st.orche
    ensures Met(st, dep) <==>
      || dep in st.skipped
      || (exists k :: 0 <= k < |st.phases| && st.phases[k].id == dep && st.phases[k].status == Completed)
      || (dep in st.orche && st.orche[dep] in {Completed, Skipped})
  {
  }

  /** A retry may complete its target's record, and may leave it open if the target may throw; an error handler may
      complete the records of the nodes it tries; a node that runs no others touches no other record. */
  lemma HandlersMark(nodes: seq<Node>, i: nat, id: string, marks: map<string, bool>)
    requires i < |nodes| && id != nodes[i].id
    ensures
      var target := Callee(nodes, nodes[i].RetryTarget());
      nodes[i].kind.Retry? && nodes[i].kind.attempts >= 0 && target.Some? && nodes[target.value].id == id ==>
        && Effect(nodes, i, map[id := true]) == map[id := true]
        && (nodes[target.value].kind.MayThrow() ==> Effect(nodes, i, map[id := false]) == map[id := false])
    ensures nodes[i].kind.ErrorHandler? && id in nodes[i].kind.tries ==>
      Effect(nodes, i, map[id := true]) == map[id := true]
    ensures nodes[i].kind.If? || nodes[i].kind.Switch? || nodes[i].kind.Orche? ==> Effect(nodes, i, marks) == map[]
  {
    assert i in Reached(nodes, {i});
    if nodes[i].kind.Retry? && nodes[i].kind.attempts >= 0 {
      var target := Callee(nodes, nodes[i].RetryTarget());
      assert target.Some? ==> target.value in Calls(nodes, i);
    }
    if nodes[i].kind.If? || nodes[i].kind.Switch? || nodes[i].kind.Orche? {
      assert Calls(nodes, i) == {} && Reached(nodes, {i}) == {i};
    }
  }

  // ---- Where a run begins ----

  /** A fresh run has a pending record for every phase, with a pending agent for each definition, ... */
  lemma FreshPhaseIsPending(nodes: seq<Node>, k: nat)
    requires k < |PhaseDefs(nodes)|
    ensures
      var defs, ph := PhaseDefs(nodes)[k].kind.def.agents, FreshPhases(nodes)[k];
      && |FreshPhases(nodes)| == |PhaseDefs(nodes)| && ph.id == PhaseDefs(nodes)[k].id && ph.status == Pending
      && |ph.agents| == |defs| && forall j :: 0 <= j < |defs| ==> ph.agents[j] == Agent(defs[j], Pending, false)
  {
  }

  /** ... and one for every orchestration node. */
  lemma FreshRecordIsPending(nodes: seq<Node>, i: nat)
    requires i < |nodes| && nodes[i].IsOrche()
    ensures nodes[i].id in FreshOrche(nodes) && FreshOrche(nodes)[nodes[i].id] == Pending
  {
    assert nodes[i] in nodes;
  }

  /** A resumed run remembers the phases that are completed and the records that are closed, and a fresh one nothing. */
  lemma ResumeRemembers(nodes: seq<Node>, phases: seq<PhaseState>, orche: map<string, Status>, id: string)
    ensures ResumeSetup(nodes, phases, orche).resumed && !FreshSetup(nodes).resumed
    ensures id !in FreshSetup(nodes).recorded
    ensures id in ResumeSetup(nodes, phases, orche).recorded <==>
      || (id in orche && orche[id] in {Completed, Skipped})
      || exists k :: 0 <= k < |phases| && phases[k].id == id && phases[k].status == Completed
  {
  }
}
