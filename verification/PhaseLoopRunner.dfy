/** The phase loop as the runner executes it, with its variables updated in place, proved to follow the transition
    system. */
module PhaseLoopRunner {
  import opened WorkflowNode
  import opened PhaseLoop

  class PhaseLoopRun {
    const nodes: seq<Node>
    const resumed: bool
    const recorded: set<string>
    const env: nat -> Answer

    var status: RunStatus
    var phases: seq<PhaseState>
    var orche: map<string, Status>
    var skipped: set<string>
    var gotos: map<string, nat>
    var idx: nat
    var clock: nat

    ghost var place: Place
    ghost var log: seq<Event>
    ghost var trace: seq<RunState>

    ghost function S(): Setup {
      Setup(nodes, resumed, recorded)
    }

    /** The transition system's state that the fields stand for. */
    ghost function View(): RunState
      reads this
    {
      RunState(status, phases, orche, skipped, gotos, idx, place, log)
    }

    /** The states the run has been in, one per answer taken from the tape, form a chain of steps up to the present. */
    ghost predicate Chained()
      reads this
    {
      && |trace| == clock + 1 && trace[clock] == View()
      && Chain(S(), env, trace)
    }

    constructor Fresh(nodes: seq<Node>, env: nat -> Answer)
      ensures this.nodes == nodes && this.env == env && S() == FreshSetup(nodes)
      ensures Chained() && View() == FreshState(nodes) && clock == 0
    {
      this.nodes, this.resumed, this.recorded, this.env := nodes, false, {}, env;
      status, phases, orche := Active, FreshPhases(nodes), FreshOrche(nodes);
      skipped, gotos, idx, clock := {}, map[], 0, 0;
      place, log := AtNode, [];
      trace := [FreshState(nodes)];
    }

    constructor Resume(nodes: seq<Node>, phases: seq<PhaseState>, orche: map<string, Status>, env: nat -> Answer)
      ensures this.nodes == nodes && this.env == env && S() == ResumeSetup(nodes, phases, orche)
      ensures Chained() && View() == StartState(phases, orche) && clock == 0
    {
      this.nodes, this.resumed, this.recorded, this.env := nodes, true, Recorded(phases, orche), env;
      this.status, this.phases, this.orche := Active, phases, orche;
      skipped, gotos, idx, clock := {}, map[], 0, 0;
      place, log := AtNode, [];
      trace := [StartState(phases, orche)];
    }

    // ---- Phase records ----

    /** The source's `reset_phase_state`. */
    method ResetPhase(k: nat)
      requires k < |phases|
      modifies this`phases
      ensures phases == old(phases)[k := Reset(old(phases)[k])]
    {
      var agents := phases[k].agents;
      for j := 0 to |agents|
        invariant |agents| == |old(phases)[k].agents|
        invariant forall m :: 0 <= m < |agents| ==>
          agents[m] == if m < j then old(phases)[k].agents[m].(status := Pending, answered := false)
            else old(phases)[k].agents[m]
      {
        agents := agents[j := agents[j].(status := Pending, answered := false)];
      }
      assert agents == Reset(old(phases)[k]).agents;
      phases := phases[k := phases[k].(status := Pending, agents := agents)];
    }

    method ResetPhases(lo: nat, hi: nat)
      requires hi < |phases|
      modifies this`phases
      ensures phases == ResetRange(old(phases), lo, hi)
    {
      var j := lo;
      while j <= hi
        invariant lo <= j && (lo <= hi ==> j <= hi + 1) && (lo > hi ==> j == lo)
        invariant |phases| == |old(phases)|
        invariant forall m :: 0 <= m < |phases| ==>
          phases[m] == if lo <= m < j && m <= hi then Reset(old(phases)[m]) else old(phases)[m]
      {
        ResetPhase(j);
        j := j + 1;
      }
    }

    /** Puts the agents a targeted retry picks back to pending. */
    method ClearAgents(k: nat, flagged: seq<string>)
      requires k < |phases|
      modifies this`phases
      ensures phases == old(phases)[k := old(phases)[k].(agents := Cleared(old(phases)[k].agents, flagged))]
    {
      var agents := phases[k].agents;
      for j := 0 to |agents|
        invariant |agents| == |old(phases)[k].agents|
        invariant forall m :: 0 <= m < |agents| ==>
          agents[m] == if m < j then Cleared(old(phases)[k].agents, flagged)[m] else old(phases)[k].agents[m]
      {
        if Picked(agents[j], flagged) {
          agents := agents[j := agents[j].(status := Pending, answered := false)];
        }
      }
      assert agents == Cleared(old(phases)[k].agents, flagged);
      phases := phases[k := phases[k].(agents := agents)];
    }

    /** The source's `run_phase_agents`: start every agent that is not completed, then record its outcome. */
    method RunPhaseAgents(k: nat, defs: seq<string>, ans: AgentsAnswer) returns (crashed: bool)
      requires k < |phases|
      modifies this`phases
      ensures
        var ran := RunAgents(old(phases)[k], defs, ans);
        crashed == ran.None? && phases == if crashed then old(phases) else old(phases)[k := ran.value]
    {
      var start := phases[k].agents;
      if ans.AgentsCrashed? || !HasSlots(start, defs) {
        return true;
      }
      var running := StartAgents(start, defs);
      var agents := SettleAgents(start, running, defs, ans.ok);
      phases := phases[k := phases[k].(agents := agents)];
      crashed := false;
    }

    /** The source's `run_looping_phase`. */
    method RunLoopingPhase(k: nat, def: PhaseDef, turns: nat -> Turn) returns (crashed: bool)
      requires k < |phases|
      modifies this`phases
      ensures
        var ran := LoopAgent(old(phases)[k], def, turns);
        crashed == ran.None? && phases == if crashed then old(phases) else old(phases)[k := ran.value]
    {
      var ph := phases[k];
      var canRun := def.agents != [] && ph.agents != [];
      var max, i, stop := LoopMax(def), 0, false;
      var reached := false;
      while i < max && !stop
        invariant 0 <= i <= max
        invariant stop ==> TurnsEnd(canRun, turns, 0, max)
        invariant !stop ==> TurnsEnd(canRun, turns, 0, max) == TurnsEnd(canRun, turns, i, max)
        invariant reached ==> canRun
        invariant i > 0 ==> !turns(0).TurnAborted?
        invariant reached <==> i > 0 || (stop && !turns(0).TurnAborted?)
        decreases max - i, !stop
      {
        if turns(i).TurnAborted? {
          stop := true;
        } else if !canRun || turns(i).TurnCrashed? {
          LoopCrashes(ph, def, turns, i);
          return true;
        } else {
          reached := true;
          if turns(i).TurnDone? {
            stop := true;
          } else {
            i := i + 1;
          }
        }
      }
      if ph.agents == [] {
        return true;
      }
      var agent := ph.agents[0];
      if reached || agent.status != Completed {
        agent := agent.(status := Completed, answered := true);
      }
      assert ph.agents[0 := ph.agents[0]] == ph.agents;
      phases := phases[k := ph.(agents := ph.agents[0 := agent])];
      crashed := false;
    }

    // ---- Orchestration nodes ----

    method Skip(ids: seq<string>)
      modifies this`skipped
      ensures skipped == old(skipped) + set x | x in ids
    {
      for j := 0 to |ids|
        invariant skipped == old(skipped) + set x | x in ids[..j]
      {
        skipped := skipped + {ids[j]};
        assert ids[..j + 1] == ids[..j] + [ids[j]];
      }
      assert ids[..|ids|] == ids;
    }

    /** Skips what a branch decision leaves inactive. */
    method SkipInactive(kind: Kind, branch: string)
      modifies this`skipped
      ensures skipped == old(skipped) + Inactive(kind, branch)
    {
      if kind.If? && branch != "" {
        Skip(if branch == "true" then kind.falseBranch else kind.trueBranch);
      } else if kind.Switch? && branch != "" {
        var active := ActiveTargets(kind.cases, kind.defaultTargets, branch);
        var targets: seq<string> := [];
        for c := 0 to |kind.cases|
          invariant forall t :: t in targets <==> exists d :: 0 <= d < c && t in kind.cases[d].targets
        {
          targets := targets + kind.cases[c].targets;
        }
        targets := targets + kind.defaultTargets;
        for j := 0 to |targets|
          invariant skipped == old(skipped) + set x | x in targets[..j] && x !in active
        {
          if targets[j] !in active {
            skipped := skipped + {targets[j]};
          }
          assert targets[..j + 1] == targets[..j] + [targets[j]];
        }
        assert targets[..|targets|] == targets;
        assert (set x | x in targets && x !in active) == Inactive(kind, branch);
      }
    }

    method SetOrche(id: string, to: Status)
      modifies this`orche
      ensures View() == SetRecord(old(View()), id, to)
    {
      if id in orche {
        orche := orche[id := to];
      }
    }

    /** Runs the orchestration node at hand; `stopped` says that the run is over. */
    method RunOrche(a: OrcheAnswer) returns (stopped: bool)
      requires Valid(S(), View()) && place.AtNode? && idx < |nodes| && nodes[idx].IsOrche()
      modifies this`status, this`orche, this`skipped, this`idx, this`place, this`log
      ensures View() == StepOrche(S(), old(View()), a)
      ensures stopped <==> place.Ended?
    {
      var node := nodes[idx];
      if node.id in orche && (orche[node.id] == Completed || orche[node.id] == Skipped) {
        idx := idx + 1;
        return false;
      }
      SetOrche(node.id, Running);
      log := log + [Started(idx)];
      var marks := Effect(nodes, idx, a.marks);
      orche := Mark(orche, marks);
      match a
      case Threw(_) =>
        log := log + [Acted(idx, "", marks, {})];
        SetOrche(node.id, Failed);
        Stop(Errored);
        stopped := true;
      case Output(branch, waiting, _) =>
        stopped := Settle(node, marks, branch, waiting);
    }

    /** The handler has answered: skip the inactive branch, then wait or close the record. */
    method Settle(node: Node, marks: map<string, bool>, branch: string, waiting: bool) returns (stopped: bool)
      requires place.AtNode?
      modifies this`status, this`orche, this`skipped, this`idx, this`place, this`log
      ensures
        var skips := Inactive(node.kind, branch);
        var st := Log(old(View()).(skipped := old(View()).skipped + skips), Acted(old(idx), branch, marks, skips));
        View() == if waiting then End(SetRecord(st, node.id, Pending), WaitingForUser)
                  else Next(Log(SetRecord(st, node.id, Completed), Finished(st.idx)))
      ensures stopped == waiting
    {
      SkipInactive(node.kind, branch);
      log := log + [Acted(idx, branch, marks, Inactive(node.kind, branch))];
      SetOrche(node.id, if waiting then Pending else Completed);
      if waiting {
        Stop(WaitingForUser);
        return true;
      }
      log := log + [Finished(idx)];
      idx := idx + 1;
      return false;
    }

    // ---- Phases ----

    /** The source's `finalize_phase`, and the move to the next node. */
    method FinalizePhase(k: nat)
      requires k < |phases|
      modifies this`phases, this`idx, this`place, this`log
      ensures View() == Finalize(old(View()), k)
    {
      phases := phases[k := phases[k].(status := Completed)];
      log, place := log + [Finished(idx)], AtNode;
      idx := idx + 1;
    }

    method Stop(with: RunStatus)
      modifies this`status, this`place
      ensures View() == End(old(View()), with)
    {
      status, place := with, Place.Ended;
    }

    /** Runs the phase at hand up to its critic. */
    method RunPhase(k: nat, a: Answer) returns (stopped: bool, toCritic: bool)
      requires Valid(S(), View()) && place.AtNode? && idx < |nodes| && !nodes[idx].IsOrche() && k < |phases|
      modifies this`status, this`phases, this`idx, this`place, this`log
      ensures View() == StartPhase(S(), old(View()), k, a)
      ensures stopped <==> place.Ended?
      ensures toCritic <==> place == InReview(k, 0)
    {
      phases := phases[k := phases[k].(status := Running)];
      log := log + [Started(idx)];
      if nodes[idx].kind.Trigger? {
        Stop(Errored);
        return true, false;
      }
      var def := nodes[idx].kind.def;
      var crashed;
      if def.mode == Parallel {
        crashed := RunPhaseAgents(k, def.agents, a.agents);
      } else {
        crashed := RunLoopingPhase(k, def, a.turns);
      }
      if crashed {
        Stop(Errored);
        return true, false;
      }
      if def.mode == Interactive {
        FinalizePhase(k);
        return false, false;
      }
      if PolicyFails(phases[k], def) {
        phases := phases[k := phases[k].(status := Failed)];
        Stop(Errored);
        return true, false;
      }
      if def.critic.None? {
        FinalizePhase(k);
        return false, false;
      }
      place := InReview(k, 0);
      return false, true;
    }

    predicate Ready(deps: seq<string>)
      reads this
    {
      AllMet(RunState(status, phases, orche, skipped, gotos, idx, AtNode, []), deps)
    }

    /** One look at the node at hand: skip it, pass it over, run it, or stop. */
    method VisitNode(a: Answer) returns (stopped: bool, toCritic: Option<nat>)
      requires Valid(S(), View()) && place.AtNode? && idx < |nodes|
      modifies this`status, this`phases, this`orche, this`skipped, this`idx, this`place, this`log
      ensures View() == StepNode(S(), old(View()), a)
      ensures stopped <==> place.Ended?
      ensures place.InReview? <==> toCritic.Some?
      ensures toCritic.Some? ==> place == InReview(toCritic.value, 0)
    {
      toCritic := None;
      if a.aborted {
        Stop(Cancelled);
        return true, None;
      }
      var node := nodes[idx];
      if node.id in recorded {
        idx := idx + 1;
        return false, None;
      }
      if node.id in skipped {
        if node.IsOrche() {
          SetOrche(node.id, Skipped);
        }
        idx := idx + 1;
        return false, None;
      }
      if !Ready(node.dependsOn) {
        idx := idx + 1;
        return false, None;
      }
      if node.IsOrche() {
        stopped := RunOrche(a.orche);
        return stopped, None;
      }
      stopped, toCritic := VisitPhase(a);
    }

    /** One look at a node that is not an orchestration node. */
    method VisitPhase(a: Answer) returns (stopped: bool, toCritic: Option<nat>)
      requires Valid(S(), View()) && place.AtNode? && idx < |nodes| && !nodes[idx].IsOrche()
      modifies this`status, this`phases, this`idx, this`place, this`log
      ensures View() == StepPhase(S(), old(View()), a)
      ensures stopped <==> place.Ended?
      ensures place.InReview? <==> toCritic.Some?
      ensures toCritic.Some? ==> place == InReview(toCritic.value, 0)
    {
      var found := PhaseIndex(phases, nodes[idx].id);
      if found.None? {
        idx := idx + 1;
        return false, None;
      }
      var k := found.value;
      if phases[k].status == Completed {
        idx := idx + 1;
        return false, None;
      }
      if resumed && phases[k].agents != [] && forall j :: 0 <= j < |phases[k].agents| ==>
        phases[k].agents[j].status == Completed {
        phases := phases[k := phases[k].(status := Completed)];
        log := log + [Recovered(idx)];
        idx := idx + 1;
        return false, None;
      }
      var reviewed;
      stopped, reviewed := RunPhase(k, a);
      return stopped, if reviewed then Some(k) else None;
    }

    // ---- Critic ----

    /** The goto branch of a rejection. */
    method JumpBack(k: nat)
      requires Valid(S(), View()) && place.InReview? && place.k == k && CriticAt(nodes, idx).Jumps()
      modifies this`status, this`phases, this`gotos, this`idx, this`place, this`log
      ensures View() == Jump(S(), old(View())) && !place.InReview?
    {
      var critic := CriticAt(nodes, idx);
      var key := GotoKey(nodes[idx].id, critic.gotoPhase);
      var count := GotoCount(gotos, key) + 1;
      gotos := gotos[key := count];
      if count > critic.Retries() {
        Stop(WaitingForUser);
        return;
      }
      var target := NodeIndex(PhaseDefs(nodes), critic.gotoPhase);
      if target.None? {
        log := log + [Waived(idx)];
        FinalizePhase(k);
        return;
      }
      ResetPhases(target.value, k);
      var found := NodeIndex(nodes, critic.gotoPhase);
      var from := idx;
      if found.Some? {
        idx := found.value;
      }
      log, place := log + [Jumped(from, idx)], AtNode;
    }

    /** Reruns agents that were put back to pending. */
    method Rerun(k: nat, defs: seq<string>, ans: AgentsAnswer) returns (again: bool)
      requires k < |phases| && place.InReview? && place.k == k
      modifies this`status, this`phases, this`place, this`log
      ensures
        var st := old(View());
        var ran := RunAgents(st.phases[k], defs, ans);
        View() == if ran.None? then End(st, Errored)
                  else
                    Log(SetPhase(st, k, ran.value), Retried(st.idx, st.place.retries + 1))
                    .(place := InReview(k, st.place.retries + 1))
      ensures again <==> place.InReview?
    {
      var crashed := RunPhaseAgents(k, defs, ans);
      if crashed {
        Stop(Errored);
        return false;
      }
      log := log + [Retried(idx, place.retries + 1)];
      place := InReview(k, place.retries + 1);
      return true;
    }

    /** Puts all agents back to pending and reruns them. */
    method RerunAll(k: nat, flagged: seq<string>, ans: AgentsAnswer) returns (again: bool)
      requires Valid(S(), View()) && place.InReview? && place.k == k && place.retries < CriticAt(nodes, idx).Retries()
      modifies this`status, this`phases, this`idx, this`place, this`log
      ensures View() == RetryPhase(S(), old(View()), flagged, true, ans)
      ensures again <==> place.InReview?
    {
      phases := phases[k := phases[k].(status := Running)];
      ResetPhase(k);
      phases := phases[k := phases[k].(status := Running)];
      assert phases == old(phases)[k := Reset(old(phases)[k].(status := Running)).(status := Running)];
      again := Rerun(k, nodes[idx].kind.def.agents, ans);
    }

    /** Reruns the agents the critic pointed at; with none to rerun the rejection is waived. */
    method RerunTargeted(k: nat, flagged: seq<string>, ans: AgentsAnswer) returns (again: bool)
      requires Valid(S(), View()) && place.InReview? && place.k == k && place.retries < CriticAt(nodes, idx).Retries()
      modifies this`status, this`phases, this`idx, this`place, this`log
      ensures View() == RetryPhase(S(), old(View()), flagged, false, ans)
      ensures again <==> place.InReview?
    {
      phases := phases[k := phases[k].(status := Running)];
      var defs := RetryDefs(nodes[idx].kind.def.agents, phases[k].agents, flagged);
      if defs == [] {
        log := log + [Waived(idx)];
        FinalizePhase(k);
        return false;
      }
      ClearAgents(k, flagged);
      again := Rerun(k, defs, ans);
    }

    /** The two retry branches of a rejection. */
    method RetryAgents(k: nat, flagged: seq<string>, all: bool, ans: AgentsAnswer) returns (again: bool)
      requires Valid(S(), View()) && place.InReview? && place.k == k && place.retries < CriticAt(nodes, idx).Retries()
      modifies this`status, this`phases, this`idx, this`place, this`log
      ensures View() == RetryPhase(S(), old(View()), flagged, all, ans)
      ensures again <==> place.InReview?
    {
      if all {
        again := RerunAll(k, flagged, ans);
      } else {
        again := RerunTargeted(k, flagged, ans);
      }
    }

    /** One round of the critic loop; `done` says that the loop is left. */
    method ReviewOnce(k: nat, retries: nat, a: Answer) returns (done: bool)
      requires Valid(S(), View()) && place == InReview(k, retries)
      modifies this`status, this`phases, this`gotos, this`idx, this`place, this`log
      ensures View() == StepReview(S(), old(View()), a)
      ensures done <==> !place.InReview?
    {
      var critic := CriticAt(nodes, idx);
      phases := phases[k := phases[k].(status := Reviewing)];
      log := log + [Reviewed(idx, retries, a.verdict.Passes(), a.verdict.Flagged())];
      if a.verdict.Passes() || !critic.gate {
        FinalizePhase(k);
        return true;
      }
      if critic.Jumps() {
        JumpBack(k);
        return true;
      }
      if critic.Policy() == Escalate || retries + 1 > critic.Retries() {
        Stop(WaitingForUser);
        return true;
      }
      if critic.Policy() == Goto {
        place := InReview(k, retries + 1);
        return false;
      }
      var again := RetryAgents(k, a.verdict.Flagged(), critic.Policy() == RetryAll, a.agents);
      return !again;
    }

    /** An answer has been used: the tape moves on. */
    method Tick()
      requires |trace| == clock + 1 && Chain(S(), env, trace)
      requires Valid(S(), trace[clock]) && !trace[clock].place.Ended? && View() == Step(S(), trace[clock], env(clock))
      modifies this`clock, this`trace
      ensures Chained() && clock == old(clock) + 1 && trace == old(trace) + [View()]
    {
      ChainGrows(S(), env, trace, View());
      clock, trace := clock + 1, trace + [View()];
    }

    /** Takes the next answer from the tape for one round of the critic loop. */
    method ReviewNext(k: nat, retries: nat) returns (done: bool)
      requires Valid(S(), View()) && place == InReview(k, retries) && status == Active && Chained()
      modifies this`status, this`phases, this`gotos, this`idx, this`clock, this`place, this`log, this`trace
      ensures Valid(S(), View()) && Chained() && trace[0] == old(trace[0])
      ensures !done ==> place == InReview(k, retries + 1) && idx == old(idx) && gotos == old(gotos) && status == Active
      ensures done ==> !place.InReview? && (place.AtNode? <==> status == Active) && Ahead(S(), old(View()), View())
    {
      ReviewTurn(S(), View(), env(clock));
      done := ReviewOnce(k, retries, env(clock));
      Tick();
    }

    /** The critic loop of the phase at hand. */
    method Review(k: nat)
      requires Valid(S(), View()) && place == InReview(k, 0) && status == Active && Chained()
      modifies this`status, this`phases, this`gotos, this`idx, this`clock, this`place, this`log, this`trace
      ensures Valid(S(), View()) && Chained() && trace[0] == old(trace[0])
      ensures !place.InReview? && (place.AtNode? <==> status == Active)
      ensures Ahead(S(), old(View()), View())
    {
      var retries, done := 0, false;
      while !done
        invariant Valid(S(), View()) && Chained() && trace[0] == old(trace[0])
        invariant !done ==> place == InReview(k, retries) && idx == old(idx) && gotos == old(gotos) && status == Active
        invariant done ==> !place.InReview? && (place.AtNode? <==> status == Active) && Ahead(S(), old(View()), View())
        decreases CriticAt(nodes, old(idx)).Retries() + 1 - retries, !done
      {
        done := ReviewNext(k, retries);
        retries := retries + 1;
      }
    }

    method VisitNext() returns (stopped: bool, toCritic: Option<nat>)
      requires Valid(S(), View()) && place.AtNode? && status == Active && idx < |nodes| && Chained()
      modifies this
      ensures Valid(S(), View()) && Chained() && trace[0] == old(trace[0])
      ensures stopped <==> place.Ended?
      ensures !stopped ==>
        status == Active && gotos == old(gotos) && idx == if toCritic.Some? then old(idx) else old(idx) + 1
      ensures !stopped ==> place == if toCritic.Some? then InReview(toCritic.value, 0) else AtNode
    {
      NodeTurn(S(), View(), env(clock));
      stopped, toCritic := VisitNode(env(clock));
      Tick();
    }

    method MainLoop()
      requires Valid(S(), View()) && place.AtNode? && status == Active && Chained()
      modifies this
      ensures Valid(S(), View()) && Chained() && trace[0] == old(trace[0]) && place.Ended?
    {
      while idx < |nodes|
        invariant Valid(S(), View()) && place.AtNode? && status == Active && Chained() && trace[0] == old(trace[0])
        decreases Budget(nodes, gotos), |nodes| - idx
      {
        var stopped, toCritic := VisitNext();
        if stopped {
          return;
        }
        if toCritic.Some? {
          Review(toCritic.value);
          if status != Active {
            return;
          }
        }
      }
      NodeTurn(S(), View(), env(clock));
      Stop(Succeeded);
      Tick();
    }

    /** Runs the workflow: whatever the answers, it ends, and where the transition system ends. */
    method Execute()
      requires Valid(S(), View()) && place.AtNode? && status == Active && clock == 0 && Chained()
      modifies this
      ensures View() == Run(S(), env, 0, old(View()))
    {
      MainLoop();
      ChainIsRun(S(), env, trace, 0);
    }
  }

  // ---- Chains of steps ----

  ghost predicate Link(s: Setup, env: Env, trace: seq<RunState>, t: nat) {
    && t + 1 < |trace|
    && Valid(s, trace[t]) && !trace[t].place.Ended?
    && trace[t + 1] == Step(s, trace[t], env(t))
  }

  ghost predicate Chain(s: Setup, env: Env, trace: seq<RunState>) {
    forall t {:trigger Link(s, env, trace, t)} :: 0 <= t < |trace| - 1 ==> Link(s, env, trace, t)
  }

  lemma ChainGrows(s: Setup, env: Env, trace: seq<RunState>, st: RunState)
    requires trace != [] && Chain(s, env, trace)
    requires
      var last := trace[|trace| - 1];
      Valid(s, last) && !last.place.Ended? && st == Step(s, last, env(|trace| - 1))
    ensures Chain(s, env, trace + [st])
  {
    forall t | 0 <= t < |trace + [st]| - 1
      ensures Link(s, env, trace + [st], t)
    {
      if t < |trace| - 1 {
        assert Link(s, env, trace, t);
      }
    }
  }

  lemma {:induction false} ChainIsRun(s: Setup, env: Env, trace: seq<RunState>, t: nat)
    requires t < |trace| && Chain(s, env, trace)
    requires Valid(s, trace[|trace| - 1]) && trace[|trace| - 1].place.Ended?
    ensures Valid(s, trace[t]) && Run(s, env, t, trace[t]) == trace[|trace| - 1]
    decreases |trace| - t
  {
    if t < |trace| - 1 {
      assert Link(s, env, trace, t);
      ChainIsRun(s, env, trace, t + 1);
      RunStep(s, env, t, trace[t]);
    }
  }

  lemma RunStep(s: Setup, env: Env, t: nat, st: RunState)
    requires Valid(s, st) && !st.place.Ended?
    ensures Valid(s, Step(s, st, env(t))) && Run(s, env, t, st) == Run(s, env, t + 1, Step(s, st, env(t)))
  {
    StepDescends(s, st, env(t));
  }

  /** The run has ended, or gone on within the measure of the main loop. */
  ghost predicate Ahead(s: Setup, st: RunState, st': RunState) {
    || Budget(s.nodes, st'.gotos) < Budget(s.nodes, st.gotos)
    || (Budget(s.nodes, st'.gotos) == Budget(s.nodes, st.gotos) && (st'.place.Ended? || st'.idx > st.idx))
  }

  lemma StartEnds(s: Setup, st: RunState, k: nat, a: Answer)
    requires st.place.AtNode? && st.status == Active && st.idx < |s.nodes| && !s.nodes[st.idx].IsOrche()
    requires k < |st.phases|
    ensures StartPhase(s, st, k, a).place.Ended? <==> StartPhase(s, st, k, a).status != Active
  {
  }

  lemma OrcheEnds(s: Setup, st: RunState, a: OrcheAnswer)
    requires st.place.AtNode? && st.status == Active && st.idx < |s.nodes|
    ensures StepOrche(s, st, a).place.Ended? <==> StepOrche(s, st, a).status != Active
  {
  }

  lemma NodeEnds(s: Setup, st: RunState, a: Answer)
    requires Valid(s, st) && st.place.AtNode? && st.status == Active
    ensures StepNode(s, st, a).place.Ended? <==> StepNode(s, st, a).status != Active
  {
    NodeStepCases(s, st, a, StepNode(s, st, a));
    if st.idx < |s.nodes| {
      if s.nodes[st.idx].IsOrche() {
        OrcheEnds(s, st, a.orche);
      } else {
        var k := PhaseIndex(st.phases, s.nodes[st.idx].id);
        if k.Some? {
          StartEnds(s, st, k.value, a);
        }
      }
    }
  }

  lemma NodeTurn(s: Setup, st: RunState, a: Answer)
    requires Valid(s, st) && st.place.AtNode? && st.status == Active
    ensures
      var st' := StepNode(s, st, a);
      && Valid(s, st') && MovesOn(s, st, st')
      && (st'.place.Ended? <==> st'.status != Active)
      && (st.idx == |s.nodes| ==> st' == End(st, Succeeded))
  {
    StepDescends(s, st, a);
    NodeStepMoves(s, st, a);
    NodeEnds(s, st, a);
  }

  /** A review that goes on keeps its phase; one that ends does so within the measure. */
  lemma ReviewTurn(s: Setup, st: RunState, a: Answer)
    requires Valid(s, st) && st.place.InReview? && st.status == Active
    ensures
      var st' := StepReview(s, st, a);
      && Valid(s, st')
      && (st'.place.Ended? <==> st'.status != Active)
      && (st'.place.InReview? ==>
            st'.place == InReview(st.place.k, st.place.retries + 1) && st'.idx == st.idx && st'.gotos == st.gotos)
      && (!st'.place.InReview? ==> Ahead(s, st, st'))
  {
    StepDescends(s, st, a);
    ReviewPlaces(s, st, a);
  }

  lemma ReviewPlaces(s: Setup, st: RunState, a: Answer)
    requires Valid(s, st) && st.place.InReview? && st.status == Active
    ensures
      var st' := StepReview(s, st, a);
      && (st'.place.Ended? <==> st'.status != Active)
      && (st'.place.InReview? ==>
            st'.place == InReview(st.place.k, st.place.retries + 1) && st'.idx == st.idx && st'.gotos == st.gotos)
  {
  }

  lemma LoopCrashes(ph: PhaseState, def: PhaseDef, turns: nat -> Turn, i: nat)
    requires var canRun := def.agents != [] && ph.agents != [];
      i < LoopMax(def) && !turns(i).TurnAborted? && (!canRun || turns(i).TurnCrashed?) &&
      TurnsEnd(canRun, turns, 0, LoopMax(def)) == TurnsEnd(canRun, turns, i, LoopMax(def))
    ensures LoopAgent(ph, def, turns).None?
  {
  }

  /** One of the first `n` definitions writes to record `m` and runs. */
  ghost predicate Touched(agents: seq<Agent>, defs: seq<string>, n: nat, m: nat)
    requires n <= |defs| && HasSlots(agents, defs) && m < |agents|
  {
    agents[m].status != Completed && exists j :: 0 <= j < n && Slot(agents, defs[j], j).value == m
  }

  lemma TouchedStep(agents: seq<Agent>, defs: seq<string>, n: nat, m: nat)
    requires n < |defs| && HasSlots(agents, defs) && m < |agents|
    ensures Touched(agents, defs, n + 1, m) <==>
      Touched(agents, defs, n, m) || (agents[m].status != Completed && Slot(agents, defs[n], n).value == m)
  {
  }

  /** Record `m` after the first `n` definitions have been started. */
  ghost function Begun(agents: seq<Agent>, defs: seq<string>, n: nat, m: nat): Agent
    requires n <= |defs| && HasSlots(agents, defs) && m < |agents|
  {
    if Touched(agents, defs, n, m) then agents[m].(status := Running) else agents[m]
  }

  method StartAgents(start: seq<Agent>, defs: seq<string>) returns (agents: seq<Agent>)
    requires HasSlots(start, defs)
    ensures |agents| == |start| && forall m :: 0 <= m < |start| ==> agents[m] == Begun(start, defs, |defs|, m)
  {
    agents := start;
    for j := 0 to |defs|
      invariant |agents| == |start|
      invariant forall m :: 0 <= m < |start| ==> agents[m] == Begun(start, defs, j, m)
    {
      var slot := Slot(start, defs[j], j).value;
      forall m | 0 <= m < |start| {
        TouchedStep(start, defs, j, m);
      }
      if start[slot].status != Completed {
        agents := agents[slot := agents[slot].(status := Running)];
      }
    }
  }

  /** Record `m` once the first `n` of the started definitions have ended. */
  ghost function Ended(start: seq<Agent>, defs: seq<string>, ok: nat -> bool, n: nat, m: nat): Agent
    requires n <= |defs| && HasSlots(start, defs) && m < |start|
  {
    if Touched(start, defs, n, m) then AfterRunning(start, defs, ok, n)[m] else Begun(start, defs, |defs|, m)
  }

  lemma {:induction false} UntouchedStays(start: seq<Agent>, defs: seq<string>, ok: nat -> bool, n: nat, m: nat)
    requires n <= |defs| && HasSlots(start, defs) && m < |start| && !Touched(start, defs, n, m)
    ensures AfterRunning(start, defs, ok, n)[m] == start[m]
  {
    if n > 0 {
      TouchedStep(start, defs, n - 1, m);
      UntouchedStays(start, defs, ok, n - 1, m);
    }
  }

  lemma EndedStep(start: seq<Agent>, defs: seq<string>, ok: nat -> bool, n: nat, m: nat)
    requires n < |defs| && HasSlots(start, defs) && m < |start|
    ensures
      var before := Ended(start, defs, ok, n, m);
      Ended(start, defs, ok, n + 1, m) ==
        if Slot(start, defs[n], n).value != m || start[m].status == Completed then before
        else if ok(n) then before.(status := Completed, answered := true)
        else before.(status := Failed)
  {
    TouchedStep(start, defs, n, m);
    if !Touched(start, defs, n, m) {
      UntouchedStays(start, defs, ok, n, m);
    }
  }

  /** One more of the started definitions has ended. */
  lemma SettleStep(start: seq<Agent>, defs: seq<string>, ok: nat -> bool, j: nat, before: seq<Agent>,
                   agents: seq<Agent>)
    requires HasSlots(start, defs) && j < |defs| && |before| == |start|
    requires forall m :: 0 <= m < |start| ==> before[m] == Ended(start, defs, ok, j, m)
    requires
      var slot := Slot(start, defs[j], j).value;
      agents ==
        if start[slot].status == Completed then before
        else if ok(j) then before[slot := before[slot].(status := Completed, answered := true)]
        else before[slot := before[slot].(status := Failed)]
    ensures |agents| == |start| && forall m :: 0 <= m < |start| ==> agents[m] == Ended(start, defs, ok, j + 1, m)
  {
    forall m | 0 <= m < |start|
      ensures agents[m] == Ended(start, defs, ok, j + 1, m)
    {
      EndedStep(start, defs, ok, j, m);
    }
  }

  method SettleAgents(start: seq<Agent>, running: seq<Agent>, defs: seq<string>,
                      ok: nat -> bool) returns (agents: seq<Agent>)
    requires HasSlots(start, defs) && |running| == |start|
    requires forall m :: 0 <= m < |start| ==> running[m] == Begun(start, defs, |defs|, m)
    ensures agents == AfterRunning(start, defs, ok, |defs|)
  {
    agents := running;
    for j := 0 to |defs|
      invariant |agents| == |start|
      invariant forall m :: 0 <= m < |start| ==> agents[m] == Ended(start, defs, ok, j, m)
    {
      ghost var before := agents;
      var slot := Slot(start, defs[j], j).value;
      if start[slot].status != Completed {
        if ok(j) {
          agents := agents[slot := agents[slot].(status := Completed, answered := true)];
        } else {
          agents := agents[slot := agents[slot].(status := Failed)];
        }
      }
      SettleStep(start, defs, ok, j, before, agents);
    }
    EndedIsAfter(start, defs, ok, agents);
  }

  lemma EndedIsAfter(start: seq<Agent>, defs: seq<string>, ok: nat -> bool, agents: seq<Agent>)
    requires HasSlots(start, defs) && |agents| == |start|
    requires forall m :: 0 <= m < |start| ==> agents[m] == Ended(start, defs, ok, |defs|, m)
    ensures agents == AfterRunning(start, defs, ok, |defs|)
  {
    forall m | 0 <= m < |start|
      ensures agents[m] == AfterRunning(start, defs, ok, |defs|)[m]
    {
      if !Touched(start, defs, |defs|, m) {
        UntouchedStays(start, defs, ok, |defs|, m);
      }
    }
  }
}
