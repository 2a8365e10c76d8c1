/** The phase loop as a transition system: one step per round of the main loop or of the critic loop,
    driven by a tape of arbitrary answers from agents, critics, node handlers and the abort signal. */
module PhaseLoop {
  import opened WorkflowNode

  // ---- State ----

  /** The status words of phases, agents and orchestration records. */
  datatype Status = Pending | Running | Reviewing | Completed | Failed | Skipped

  datatype RunStatus = Active | Succeeded | Errored | Cancelled | WaitingForUser

  /** `answered` says that the agent's result is defined. */
  datatype Agent = Agent(id: string, status: Status, answered: bool)

  datatype PhaseState = PhaseState(id: string, status: Status, agents: seq<Agent>)

  /** Where a run stands: about to look at node `idx`, reviewing its phase (record `k`, after `retries`
      rejections), or ended. */
  datatype Place = AtNode | InReview(k: nat, retries: nat) | Ended

  /** What a run did, in order; `i` is a position in the node list. `Acted` comes with each run of an orchestration
      node: `branch` is the branch it decided on (`""` for none), `marks` are the records of other nodes that its
      handler completed (`true`) or left open (`false`), `skips` the ids its decision switched off. `Reviewed` holds the
      agents that the critic pointed at. */
  datatype Event =
    | Started(i: nat)
    | Acted(i: nat, branch: string, marks: map<string, bool>, skips: set<string>)
    | Finished(i: nat)
    | Recovered(i: nat)
    | Reviewed(i: nat, attempt: nat, approved: bool, flagged: seq<string>)
    | Waived(i: nat)
    | Retried(i: nat, attempt: nat)
    | Jumped(i: nat, target: nat)

  /** Orchestration records are keyed by node id. */
  datatype RunState = RunState(
    status: RunStatus,
    phases: seq<PhaseState>,
    orche: map<string, Status>,
    skipped: set<string>,
    gotos: map<string, nat>,
    idx: nat,
    place: Place,
    log: seq<Event>)

  /** What stays fixed during a run; `recorded` holds the ids a resumed run found completed or skipped. */
  datatype Setup = Setup(nodes: seq<Node>, resumed: bool, recorded: set<string>)

  // ---- Environment ----

  datatype Turn = TurnAborted | TurnCrashed | TurnDone | TurnOther

  /** The outcome of running a list of agents: `ok(k)` for the k-th of them, or an exception. */
  datatype AgentsAnswer = AgentsCrashed | AgentsRan(ok: nat -> bool)

  datatype Verdict = CriticCrashed | Verdict(approved: bool, flagged: seq<string>)
  {
    /** A crashed critic counts as an approval. */
    predicate Passes() {
      CriticCrashed? || approved
    }

    function Flagged(): seq<string> {
      if CriticCrashed? then [] else flagged
    }
  }

  /** A node handler's outcome. `marks` says what a retry or an error handler makes of the records of other nodes, as
      far as it can reach them: `true` for completed, `false` for left running. */
  datatype OrcheAnswer =
    | Threw(marks: map<string, bool>)
    | Output(branch: string, waiting: bool, marks: map<string, bool>)
  {
    /** A handler that throws decides nothing. */
    function Decision(): string {
      if Threw? then "" else branch
    }
  }

  datatype Answer = Answer(aborted: bool, orche: OrcheAnswer, turns: nat -> Turn, agents: AgentsAnswer,
                           verdict: Verdict)

  type Env = nat -> Answer

  // ---- Lookup ----

  function NodeIndex(nodes: seq<Node>, id: string): (r: Option<nat>)
    ensures r.Some? ==> r.value < |nodes| && nodes[r.value].id == id
    ensures r.Some? ==> forall j :: 0 <= j < r.value ==> nodes[j].id != id
    ensures r.None? ==> forall j :: 0 <= j < |nodes| ==> nodes[j].id != id
  {
    if nodes == [] then None
    else if nodes[0].id == id then Some(0)
    else
      var r := NodeIndex(nodes[1..], id);
      if r.Some? then Some(r.value + 1) else None
  }

  function PhaseIndex(phases: seq<PhaseState>, id: string): (r: Option<nat>)
    ensures r.Some? ==> r.value < |phases| && phases[r.value].id == id
    ensures r.Some? ==> forall j :: 0 <= j < r.value ==> phases[j].id != id
    ensures r.None? ==> forall j :: 0 <= j < |phases| ==> phases[j].id != id
  {
    if phases == [] then None
    else if phases[0].id == id then Some(0)
    else
      var r := PhaseIndex(phases[1..], id);
      if r.Some? then Some(r.value + 1) else None
  }

  /** The phase nodes, in node order: the source's `phase_defs`. */
  function PhaseDefs(nodes: seq<Node>): (r: seq<Node>)
    ensures forall n :: n in r ==> n in nodes && n.kind.Phase?
  {
    if nodes == [] then []
    else if nodes[|nodes| - 1].kind.Phase? then PhaseDefs(nodes[..|nodes| - 1]) + [nodes[|nodes| - 1]]
    else PhaseDefs(nodes[..|nodes| - 1])
  }

  // ---- Running agents ----

  /** The record an agent definition writes to: the first with its id, else the one at its own position. */
  function Slot(agents: seq<Agent>, id: string, k: nat): (r: Option<nat>)
    ensures r.Some? ==> r.value < |agents|
  {
    if exists j :: 0 <= j < |agents| && agents[j].id == id then Some(FirstAgent(agents, id))
    else if k < |agents| then Some(k)
    else None
  }

  function FirstAgent(agents: seq<Agent>, id: string): (r: nat)
    requires exists j :: 0 <= j < |agents| && agents[j].id == id
    ensures r < |agents| && agents[r].id == id
    ensures forall j :: 0 <= j < r ==> agents[j].id != id
  {
    if agents[0].id == id then 0 else
      assert exists j :: 0 <= j < |agents[1..]| && agents[1..][j].id == id by {
        var j :| 0 <= j < |agents| && agents[j].id == id;
        assert agents[1..][j - 1].id == id;
      }
      FirstAgent(agents[1..], id) + 1
  }

  predicate HasSlots(agents: seq<Agent>, defs: seq<string>) {
    forall k :: 0 <= k < |defs| ==> Slot(agents, defs[k], k).Some?
  }

  /** The records after the first `n` definitions have run; an agent already completed is left alone. */
  function AfterRunning(agents: seq<Agent>, defs: seq<string>, ok: nat -> bool, n: nat): (r: seq<Agent>)
    requires n <= |defs| && HasSlots(agents, defs)
    ensures |r| == |agents|
  {
    if n == 0 then agents else
      var r := AfterRunning(agents, defs, ok, n - 1);
      var j := Slot(agents, defs[n - 1], n - 1).value;
      if agents[j].status == Completed then r
      else if ok(n - 1) then r[j := r[j].(status := Completed, answered := true)]
      else r[j := r[j].(status := Failed)]
  }

  function RunAgents(ph: PhaseState, defs: seq<string>, ans: AgentsAnswer): (r: Option<PhaseState>)
    ensures r.Some? ==> r.value.id == ph.id && r.value.status == ph.status
  {
    if ans.AgentsCrashed? || !HasSlots(ph.agents, defs) then None
    else Some(ph.(agents := AfterRunning(ph.agents, defs, ans.ok, |defs|)))
  }

  /** Whether the turns from `i` on end without an exception. */
  predicate TurnsEnd(canRun: bool, turns: nat -> Turn, i: nat, max: nat)
    decreases max - i
  {
    if i >= max || turns(i).TurnAborted? then true
    else if !canRun || turns(i).TurnCrashed? then false
    else turns(i).TurnDone? || TurnsEnd(canRun, turns, i + 1, max)
  }

  function LoopMax(def: PhaseDef): (max: nat)
    ensures max > 0
  {
    if def.maxLoop > 0 then def.maxLoop else if def.mode == Interactive then 20 else 50
  }

  function LoopAgent(ph: PhaseState, def: PhaseDef, turns: nat -> Turn): (r: Option<PhaseState>)
    ensures r.Some? ==> r.value.id == ph.id && r.value.status == ph.status
  {
    if ph.agents == [] || !TurnsEnd(def.agents != [], turns, 0, LoopMax(def)) then None
    else if turns(0).TurnAborted? && ph.agents[0].status == Completed then Some(ph)
    else Some(ph.(agents := ph.agents[0 := ph.agents[0].(status := Completed, answered := true)]))
  }

  /** How many of the phase's results count as failed, and how many there are. */
  function FailedCount(agents: seq<Agent>): (n: nat)
    ensures n <= |agents|
  {
    if agents == [] then 0 else
      FailedCount(agents[..|agents| - 1]) + if agents[|agents| - 1].status == Failed then 1 else 0
  }

  /** The records that the definitions from position `n` on wrote to. */
  function Written(agents: seq<Agent>, defs: seq<string>, n: nat): (r: seq<Agent>)
    requires n <= |defs| && HasSlots(agents, defs)
    ensures |r| == |defs| - n
    decreases |defs| - n
  {
    if n == |defs| then [] else [agents[Slot(agents, defs[n], n).value]] + Written(agents, defs, n + 1)
  }

  function Results(ph: PhaseState, def: PhaseDef): seq<Agent> {
    if def.mode == SequentialLoop || !HasSlots(ph.agents, def.agents) then ph.agents
    else Written(ph.agents, def.agents, 0)
  }

  predicate PolicyFails(ph: PhaseState, def: PhaseDef) {
    var results := Results(ph, def);
    var failed := FailedCount(results);
    || (def.policy == FailFast && failed > 0)
    || (def.policy == Quorum && |results| - failed < (if def.quorum.Some? then def.quorum.value else 1))
  }

  // ---- Critic reactions ----

  function Reopened(agents: seq<Agent>): (r: seq<Agent>)
    ensures |r| == |agents|
    ensures forall j :: 0 <= j < |agents| ==> r[j] == agents[j].(status := Pending, answered := false)
  {
    if agents == [] then [] else [agents[0].(status := Pending, answered := false)] + Reopened(agents[1..])
  }

  function Reset(ph: PhaseState): PhaseState {
    ph.(status := Pending, agents := Reopened(ph.agents))
  }

  /** Phases `from` to `upto`, both included, are reset; nothing happens when `from` is the later one. */
  function ResetRange(phases: seq<PhaseState>, from: int, upto: int): (r: seq<PhaseState>)
    ensures |r| == |phases|
    ensures forall j :: 0 <= j < |phases| ==> r[j] == if from <= j <= upto then Reset(phases[j]) else phases[j]
  {
    if phases == [] then []
    else [if from <= 0 <= upto then Reset(phases[0]) else phases[0]] + ResetRange(phases[1..], from - 1, upto - 1)
  }

  /** Whether a targeted retry picks this agent. */
  predicate Picked(agent: Agent, flagged: seq<string>) {
    if flagged != [] then agent.id in flagged else agent.status == Failed || !agent.answered
  }

  function Cleared(agents: seq<Agent>, flagged: seq<string>): (r: seq<Agent>)
    ensures |r| == |agents|
    ensures forall j :: 0 <= j < |agents| ==>
      r[j] == if Picked(agents[j], flagged) then agents[j].(status := Pending, answered := false) else agents[j]
  {
    if agents == [] then []
    else
      [if Picked(agents[0], flagged) then agents[0].(status := Pending, answered := false) else agents[0]] +
      Cleared(agents[1..], flagged)
  }

  /** The definitions a targeted retry reruns. */
  function RetryDefs(defs: seq<string>, agents: seq<Agent>, flagged: seq<string>): seq<string> {
    if defs == [] then [] else
      var last := defs[|defs| - 1];
      RetryDefs(defs[..|defs| - 1], agents, flagged) +
        if exists j :: 0 <= j < |agents| && agents[j].id == last && Picked(agents[j], flagged) then [last] else []
  }

  // ---- Branches ----

  function Targets(cases: seq<Case>): set<string> {
    set c, t | c in cases && t in c.targets :: t
  }

  function ActiveTargets(cases: seq<Case>, defaultTargets: seq<string>, branch: string): seq<string> {
    if cases == [] then defaultTargets
    else if cases[0].value == branch then cases[0].targets
    else ActiveTargets(cases[1..], defaultTargets, branch)
  }

  /** The node ids that a branch decision switches off. */
  function Inactive(kind: Kind, branch: string): set<string> {
    if branch == "" then {}
    else match kind
      case If(trueBranch, falseBranch) =>
        var inactive := if branch == "true" then falseBranch else trueBranch;
        set x | x in inactive
      case Switch(cases, defaultTargets) =>
        Targets(cases) + (set x | x in defaultTargets) - (set x | x in ActiveTargets(cases, defaultTargets, branch))
      case _ => {}
  }

  // ---- Nodes that run other nodes ----

  /** The orchestration node that a handler finds under an id. */
  function Callee(nodes: seq<Node>, id: string): (r: Option<nat>)
    ensures r.Some? ==> r.value < |nodes| && nodes[r.value].id == id && nodes[r.value].IsOrche()
  {
    match NodeIndex(nodes, id)
    case Some(j) => if nodes[j].IsOrche() then Some(j) else None
    case None => None
  }

  function Callees(nodes: seq<Node>, ids: seq<string>): (r: set<nat>)
    ensures forall j :: j in r ==> j < |nodes|
  {
    set id | id in ids && Callee(nodes, id).Some? :: Callee(nodes, id).value
  }

  /** The nodes that the handler of node `i` may run itself. */
  function Calls(nodes: seq<Node>, i: nat): (r: set<nat>)
    requires i < |nodes|
    ensures forall j :: j in r ==> j < |nodes|
  {
    match nodes[i].kind
    case Retry(_, attempts) => if attempts >= 0 then Callees(nodes, [nodes[i].RetryTarget()]) else {}
    case ErrorHandler(tries, fallbacks) =>
      var tried := Callees(nodes, tries);
      tried + if exists j :: j in tried && nodes[j].kind.MayThrow() then Callees(nodes, fallbacks) else {}
    case Repeat(bodies) => Callees(nodes, bodies)
    case _ => {}
  }

  function Positions(n: nat): (r: set<nat>)
    ensures forall i :: i in r <==> 0 <= i < n
  {
    if n == 0 then {} else Positions(n - 1) + {n - 1}
  }

  /** These nodes and all that their handlers may run, directly or through one another. */
  function Reached(nodes: seq<Node>, from: set<nat>): (r: set<nat>)
    requires forall i :: i in from ==> i < |nodes|
    ensures from <= r && forall i :: i in r ==> i < |nodes|
    decreases Positions(|nodes|) - from
  {
    var next := from + set i, j | i in from && j in Calls(nodes, i) :: j;
    if next == from then from else
      assert from < next;
      Reached(nodes, next)
  }

  /** The ids whose records a run of node `i` may leave open: targets of retries that can use up their attempts. */
  function Reopens(nodes: seq<Node>, i: nat): set<string>
    requires i < |nodes|
  {
    set k, j | k in Reached(nodes, {i}) && nodes[k].kind.Retry? && j in Calls(nodes, k) && nodes[j].kind.MayThrow() ::
      nodes[j].id
  }

  /** The ids whose records a run of node `i` may complete: targets of retries, and nodes that error handlers try. */
  function Completes(nodes: seq<Node>, i: nat): set<string>
    requires i < |nodes|
  {
    (set k, j | k in Reached(nodes, {i}) && nodes[k].kind.Retry? && j in Calls(nodes, k) :: nodes[j].id) +
    (set k, id | k in Reached(nodes, {i}) && nodes[k].kind.ErrorHandler? && id in nodes[k].kind.tries :: id)
  }

  /** What a run of node `i` makes of other nodes' records, out of what its handler would make of them. */
  function Effect(nodes: seq<Node>, i: nat, marks: map<string, bool>): (r: map<string, bool>)
    requires i < |nodes|
    ensures nodes[i].id !in r
    ensures forall id :: id in r ==> id in marks && r[id] == marks[id] && (!r[id] ==> id in Reopens(nodes, i))
  {
    map id | id in marks && id != nodes[i].id
      && (if marks[id] then id in Completes(nodes, i) else id in Reopens(nodes, i)) :: marks[id]
  }

  function Mark(orche: map<string, Status>, marks: map<string, bool>): (r: map<string, Status>)
    ensures r.Keys == orche.Keys
  {
    map id | id in orche :: if id in marks then (if marks[id] then Completed else Running) else orche[id]
  }

  // ---- Dependencies ----

  predicate Met(st: RunState, dep: string) {
    || dep in st.skipped
    || match PhaseIndex(st.phases, dep)
       case Some(k) => st.phases[k].status == Completed
       case None => dep in st.orche && (st.orche[dep] == Completed || st.orche[dep] == Skipped)
  }

  predicate AllMet(st: RunState, deps: seq<string>) {
    forall d :: d in deps ==> Met(st, d)
  }

  // ---- Steps ----

  function GotoKey(phase: string, target: string): string {
    phase + "->" + target
  }

  function GotoCount(gotos: map<string, nat>, key: string): nat {
    if key in gotos then gotos[key] else 0
  }

  predicate ReviewsAt(nodes: seq<Node>, i: nat) {
    i < |nodes| && nodes[i].kind.Phase? && nodes[i].kind.def.critic.Some?
  }

  function CriticAt(nodes: seq<Node>, i: nat): Critic
    requires ReviewsAt(nodes, i)
  {
    nodes[i].kind.def.critic.value
  }

  predicate Valid(s: Setup, st: RunState) {
    && st.idx <= |s.nodes|
    && (st.place.InReview? ==>
          && ReviewsAt(s.nodes, st.idx)
          && st.place.k < |st.phases| && st.phases[st.place.k].id == s.nodes[st.idx].id
          && st.place.retries <= CriticAt(s.nodes, st.idx).Retries())
  }

  function Log(st: RunState, e: Event): RunState {
    st.(log := st.log + [e])
  }

  function End(st: RunState, status: RunStatus): RunState {
    st.(status := status, place := Ended)
  }

  function Next(st: RunState): RunState {
    st.(idx := st.idx + 1, place := AtNode)
  }

  function SetPhase(st: RunState, k: nat, ph: PhaseState): RunState
    requires k < |st.phases|
  {
    st.(phases := st.phases[k := ph])
  }

  function SetStatus(st: RunState, k: nat, status: Status): RunState
    requires k < |st.phases|
  {
    SetPhase(st, k, st.phases[k].(status := status))
  }

  function SetRecord(st: RunState, id: string, status: Status): RunState {
    if id in st.orche then st.(orche := st.orche[id := status]) else st
  }

  function Finalize(st: RunState, k: nat): RunState
    requires k < |st.phases|
  {
    Next(Log(SetStatus(st, k, Completed), Finished(st.idx)))
  }

  /** The handler of the orchestration node at hand has run: its marks and its skips. */
  function RunHandler(s: Setup, st: RunState, a: OrcheAnswer): RunState
    requires st.idx < |s.nodes|
  {
    var node := s.nodes[st.idx];
    var started := Log(SetRecord(st, node.id, Running), Started(st.idx));
    var marks := Effect(s.nodes, st.idx, a.marks);
    var skips := Inactive(node.kind, a.Decision());
    Log(started.(orche := Mark(started.orche, marks), skipped := started.skipped + skips),
        Acted(st.idx, a.Decision(), marks, skips))
  }

  function StepOrche(s: Setup, st: RunState, a: OrcheAnswer): RunState
    requires st.idx < |s.nodes|
  {
    var id := s.nodes[st.idx].id;
    if id in st.orche && (st.orche[id] == Completed || st.orche[id] == Skipped) then Next(st) else
      var acted := RunHandler(s, st, a);
      match a
      case Threw(_) => End(SetRecord(acted, id, Failed), Errored)
      case Output(_, waiting, _) =>
        if waiting then End(SetRecord(acted, id, Pending), WaitingForUser)
        else Next(Log(SetRecord(acted, id, Completed), Finished(st.idx)))
  }

  /** The phase's agents have run: apply the failure policy, then go to the critic or finish. */
  function AfterAgents(s: Setup, st: RunState, k: nat): RunState
    requires st.idx < |s.nodes| && s.nodes[st.idx].kind.Phase? && k < |st.phases|
  {
    var def := s.nodes[st.idx].kind.def;
    if def.mode == Interactive then Finalize(st, k)
    else if PolicyFails(st.phases[k], def) then End(SetStatus(st, k, Failed), Errored)
    else if def.critic.None? then Finalize(st, k)
    else st.(place := InReview(k, 0))
  }

  function StartPhase(s: Setup, st: RunState, k: nat, a: Answer): RunState
    requires st.idx < |s.nodes| && !s.nodes[st.idx].IsOrche() && k < |st.phases|
  {
    var st1 := Log(SetStatus(st, k, Running), Started(st.idx));
    if s.nodes[st.idx].kind.Trigger? then End(st1, Errored) else
      var def := s.nodes[st.idx].kind.def;
      var ran := if def.mode == Parallel then RunAgents(st1.phases[k], def.agents, a.agents)
                 else LoopAgent(st1.phases[k], def, a.turns);
      if ran.None? then End(st1, Errored) else AfterAgents(s, SetPhase(st1, k, ran.value), k)
  }

  function StepPhase(s: Setup, st: RunState, a: Answer): RunState
    requires st.idx < |s.nodes| && !s.nodes[st.idx].IsOrche()
  {
    match PhaseIndex(st.phases, s.nodes[st.idx].id)
    case None => Next(st)
    case Some(k) =>
      if st.phases[k].status == Completed then Next(st)
      else if s.resumed && st.phases[k].agents != [] &&
              forall j :: 0 <= j < |st.phases[k].agents| ==> st.phases[k].agents[j].status == Completed then
        Next(Log(SetStatus(st, k, Completed), Recovered(st.idx)))
      else StartPhase(s, st, k, a)
  }

  function StepNode(s: Setup, st: RunState, a: Answer): RunState
    requires st.idx <= |s.nodes|
  {
    if st.idx == |s.nodes| then End(st, Succeeded)
    else if a.aborted then End(st, Cancelled) else
      var node := s.nodes[st.idx];
      if node.id in s.recorded then Next(st)
      else if node.id in st.skipped then Next(if node.IsOrche() then SetRecord(st, node.id, Skipped) else st)
      else if !AllMet(st, node.dependsOn) then Next(st)
      else if node.IsOrche() then StepOrche(s, st, a.orche)
      else StepPhase(s, st, a)
  }

  /** A rejected gate jumps back: count the jump, then escalate, waive or reset and go. */
  function Jump(s: Setup, st: RunState): RunState
    requires Valid(s, st) && st.place.InReview?
  {
    var critic := CriticAt(s.nodes, st.idx);
    var key := KeyAt(s.nodes, st.idx);
    var st1 := st.(gotos := CountJump(st.gotos, key));
    if GotoCount(st1.gotos, key) > critic.Retries() then End(st1, WaitingForUser)
    else match NodeIndex(PhaseDefs(s.nodes), critic.gotoPhase)
      case None => Finalize(Log(st1, Waived(st.idx)), st.place.k)
      case Some(t) =>
        var found := NodeIndex(s.nodes, critic.gotoPhase);
        var target := if found.Some? then found.value else st.idx;
        Log(st1, Jumped(st.idx, target)).(
          phases := ResetRange(st.phases, t, st.place.k), idx := target, place := AtNode)
  }

  /** Agents that were put back to pending are run again, and the critic is asked once more. */
  function RerunAgents(st: RunState, cleared: PhaseState, defs: seq<string>, ans: AgentsAnswer): RunState
    requires st.place.InReview? && st.place.k < |st.phases|
  {
    var k := st.place.k;
    var ran := RunAgents(cleared, defs, ans);
    if ran.None? then End(SetPhase(st, k, cleared), Errored)
    else
      Log(SetPhase(st, k, ran.value), Retried(st.idx, st.place.retries + 1))
      .(place := InReview(k, st.place.retries + 1))
  }

  /** A rejected gate reruns all agents, or the ones the critic pointed at. */
  function RetryPhase(s: Setup, st: RunState, flagged: seq<string>, all: bool, ans: AgentsAnswer): RunState
    requires Valid(s, st) && st.place.InReview?
    requires st.place.retries < CriticAt(s.nodes, st.idx).Retries()
  {
    var k := st.place.k;
    var def := s.nodes[st.idx].kind.def;
    var ph := st.phases[k].(status := Running);
    if !all && RetryDefs(def.agents, ph.agents, flagged) == [] then
      Finalize(Log(SetPhase(st, k, ph), Waived(st.idx)), k)
    else
      var cleared := if all then Reset(ph).(status := Running) else ph.(agents := Cleared(ph.agents, flagged));
      RerunAgents(st, cleared, if all then def.agents else RetryDefs(def.agents, ph.agents, flagged), ans)
  }

  function StepReview(s: Setup, st: RunState, a: Answer): RunState
    requires Valid(s, st) && st.place.InReview?
  {
    var critic := CriticAt(s.nodes, st.idx);
    var k, retries := st.place.k, st.place.retries;
    var st1 := Log(SetStatus(st, k, Reviewing), Reviewed(st.idx, retries, a.verdict.Passes(), a.verdict.Flagged()));
    if a.verdict.Passes() || !critic.gate then Finalize(st1, k)
    else if critic.Jumps() then Jump(s, st1)
    else if critic.Policy() == Escalate || retries + 1 > critic.Retries() then End(st1, WaitingForUser)
    else if critic.Policy() == Goto then st1.(place := InReview(k, retries + 1))
    else RetryPhase(s, st1, a.verdict.Flagged(), critic.Policy() == RetryAll, a.agents)
  }

  function Step(s: Setup, st: RunState, a: Answer): RunState
    requires Valid(s, st) && !st.place.Ended?
  {
    if st.place.AtNode? then StepNode(s, st, a) else StepReview(s, st, a)
  }

  // ---- Runs ----

  /** How many more jumps the goto critics allow in all. */
  function Budget(nodes: seq<Node>, gotos: map<string, nat>): nat {
    if nodes == [] then 0 else
      var last := |nodes| - 1;
      Budget(nodes[..last], gotos) + JumpsLeft(nodes[last], gotos)
  }

  function JumpsLeft(node: Node, gotos: map<string, nat>): nat {
    if node.kind.Phase? && node.kind.def.critic.Some? && node.kind.def.critic.value.Jumps() then
      var critic := node.kind.def.critic.value;
      var used := GotoCount(gotos, GotoKey(node.id, critic.gotoPhase));
      if used < critic.Retries() then critic.Retries() - used else 0
    else 0
  }

  /** Critic rounds left at the current node, with room for entering and for ending. */
  function Rounds(s: Setup, st: RunState): nat
    requires Valid(s, st)
  {
    match st.place
    case Ended => 0
    case InReview(_, retries) => 1 + CriticAt(s.nodes, st.idx).Retries() - retries
    case AtNode => 2 + if ReviewsAt(s.nodes, st.idx) then CriticAt(s.nodes, st.idx).Retries() else 0
  }

  /** The counters after one more jump under `key`. */
  function CountJump(gotos: map<string, nat>, key: string): map<string, nat> {
    gotos[key := GotoCount(gotos, key) + 1]
  }

  lemma {:induction false} BudgetNeverRises(nodes: seq<Node>, gotos: map<string, nat>, key: string)
    ensures Budget(nodes, CountJump(gotos, key)) <= Budget(nodes, gotos)
  {
    if nodes != [] {
      BudgetNeverRises(nodes[..|nodes| - 1], gotos, key);
    }
  }

  function KeyAt(nodes: seq<Node>, i: nat): string
    requires ReviewsAt(nodes, i)
  {
    GotoKey(nodes[i].id, CriticAt(nodes, i).gotoPhase)
  }

  lemma {:induction false} BudgetDrops(nodes: seq<Node>, gotos: map<string, nat>, i: nat)
    requires ReviewsAt(nodes, i) && CriticAt(nodes, i).Jumps()
    requires GotoCount(gotos, KeyAt(nodes, i)) < CriticAt(nodes, i).Retries()
    ensures Budget(nodes, CountJump(gotos, KeyAt(nodes, i))) < Budget(nodes, gotos)
  {
    if i < |nodes| - 1 {
      BudgetDrops(nodes[..|nodes| - 1], gotos, i);
    } else {
      BudgetNeverRises(nodes[..|nodes| - 1], gotos, KeyAt(nodes, i));
    }
  }

  /** (jumps left, nodes left, critic rounds left) is lexicographically smaller in `st'` than in `st`. */
  predicate Descends(s: Setup, st: RunState, st': RunState)
    requires Valid(s, st) && Valid(s, st')
  {
    var b, b' := Budget(s.nodes, st.gotos), Budget(s.nodes, st'.gotos);
    || b' < b
    || (b' == b && st.idx < st'.idx)
    || (b' == b && st.idx == st'.idx && Rounds(s, st') < Rounds(s, st))
  }

  /** A main-loop round ends the run, moves one node on, or turns to the critic of the node at hand. */
  predicate MovesOn(s: Setup, st: RunState, st': RunState)
    requires Valid(s, st)
  {
    && st'.gotos == st.gotos
    && match st'.place
       case Ended => st'.idx == st.idx
       case AtNode => st'.idx == st.idx + 1
       case InReview(k, retries) => st'.idx == st.idx && retries == 0 && Valid(s, st')
  }

  lemma PhaseStepMoves(s: Setup, st: RunState, k: nat, a: Answer)
    requires Valid(s, st) && st.idx < |s.nodes| && !s.nodes[st.idx].IsOrche()
    requires k < |st.phases| && st.phases[k].id == s.nodes[st.idx].id
    ensures MovesOn(s, st, StartPhase(s, st, k, a))
  {
    var st1 := Log(SetStatus(st, k, Running), Started(st.idx));
    if !s.nodes[st.idx].kind.Trigger? {
      var def := s.nodes[st.idx].kind.def;
      var ran := if def.mode == Parallel then RunAgents(st1.phases[k], def.agents, a.agents)
                 else LoopAgent(st1.phases[k], def, a.turns);
      if ran.Some? {
        var st2 := SetPhase(st1, k, ran.value);
        assert st2.phases[k].id == s.nodes[st.idx].id;
        assert MovesOn(s, st, AfterAgents(s, st2, k));
      }
    }
  }

  lemma OrcheStepMoves(s: Setup, st: RunState, a: OrcheAnswer)
    requires Valid(s, st) && st.idx < |s.nodes|
    ensures MovesOn(s, st, StepOrche(s, st, a))
  {
  }

  lemma PhaseMoves(s: Setup, st: RunState, a: Answer)
    requires Valid(s, st) && st.idx < |s.nodes| && !s.nodes[st.idx].IsOrche()
    ensures MovesOn(s, st, StepPhase(s, st, a))
  {
    var k := PhaseIndex(st.phases, s.nodes[st.idx].id);
    if k.Some? {
      PhaseStepMoves(s, st, k.value, a);
    }
  }

  /** The step at a node is one of these. */
  lemma NodeStepCases(s: Setup, st: RunState, a: Answer, st': RunState)
    requires st.idx <= |s.nodes| && st' == StepNode(s, st, a)
    ensures
      || st' == End(st, if st.idx == |s.nodes| then Succeeded else Cancelled)
      || (st.idx < |s.nodes| && s.nodes[st.idx].id in s.recorded && st' == Next(st))
      || (st.idx < |s.nodes| && s.nodes[st.idx].id in st.skipped && s.nodes[st.idx].id !in s.recorded
            && st' == Next(if s.nodes[st.idx].IsOrche() then SetRecord(st, s.nodes[st.idx].id, Skipped) else st))
      || (st.idx < |s.nodes| && !AllMet(st, s.nodes[st.idx].dependsOn) && st' == Next(st))
      || (st.idx < |s.nodes| && s.nodes[st.idx].id !in s.recorded && s.nodes[st.idx].id !in st.skipped
            && AllMet(st, s.nodes[st.idx].dependsOn)
            && st' == if s.nodes[st.idx].IsOrche() then StepOrche(s, st, a.orche) else StepPhase(s, st, a))
  {
  }

  lemma NodeStepMoves(s: Setup, st: RunState, a: Answer)
    requires Valid(s, st) && st.place.AtNode?
    ensures MovesOn(s, st, StepNode(s, st, a))
  {
    var st' := StepNode(s, st, a);
    NodeStepCases(s, st, a, st');
    if st.idx < |s.nodes| {
      if s.nodes[st.idx].IsOrche() {
        OrcheStepMoves(s, st, a.orche);
      } else {
        PhaseMoves(s, st, a);
      }
    }
  }

  lemma JumpDescends(s: Setup, st: RunState)
    requires Valid(s, st) && st.place.InReview? && CriticAt(s.nodes, st.idx).Jumps()
    ensures Valid(s, Jump(s, st)) && (Descends(s, st, Jump(s, st)))
  {
    BudgetNeverRises(s.nodes, st.gotos, KeyAt(s.nodes, st.idx));
    if GotoCount(st.gotos, KeyAt(s.nodes, st.idx)) < CriticAt(s.nodes, st.idx).Retries() {
      BudgetDrops(s.nodes, st.gotos, st.idx);
    }
  }

  /** Every step keeps the state well formed and lowers the measure. */
  lemma StepDescends(s: Setup, st: RunState, a: Answer)
    requires Valid(s, st) && !st.place.Ended?
    ensures Valid(s, Step(s, st, a)) && Descends(s, st, Step(s, st, a))
  {
    if st.place.AtNode? {
      NodeStepMoves(s, st, a);
    } else {
      var st1 := Log(SetStatus(st, st.place.k, Reviewing),
                     Reviewed(st.idx, st.place.retries, a.verdict.Passes(), a.verdict.Flagged()));
      if CriticAt(s.nodes, st.idx).Jumps() {
        JumpDescends(s, st1);
      }
    }
  }

  /** The state in which a run ends. Its very definition needs that every run ends, whatever the answers. */
  function Run(s: Setup, env: Env, t: nat, st: RunState): (final: RunState)
    requires Valid(s, st)
    ensures Valid(s, final) && final.place.Ended?
    decreases Budget(s.nodes, st.gotos), |s.nodes| - st.idx, Rounds(s, st)
  {
    if st.place.Ended? then st else
      StepDescends(s, st, env(t));
      Run(s, env, t + 1, Step(s, st, env(t)))
  }

  /** What every step keeps, a run keeps. */
  lemma {:induction false} RunKeeps(s: Setup, env: Env, t: nat, st: RunState, P: RunState -> bool)
    requires Valid(s, st) && P(st)
    requires forall x: RunState, u: nat :: Valid(s, x) && !x.place.Ended? && P(x) ==> P(Step(s, x, env(u)))
    ensures P(Run(s, env, t, st))
    decreases Budget(s.nodes, st.gotos), |s.nodes| - st.idx, Rounds(s, st)
  {
    if !st.place.Ended? {
      StepDescends(s, st, env(t));
      RunKeeps(s, env, t + 1, Step(s, st, env(t)), P);
    }
  }

  // ---- Starting a run ----

  function InitialPhase(node: Node): PhaseState
    requires node.kind.Phase?
  {
    var agents := node.kind.def.agents;
    PhaseState(node.id, Pending, seq(|agents|, j requires 0 <= j < |agents| => Agent(agents[j], Pending, false)))
  }

  function FreshPhases(nodes: seq<Node>): seq<PhaseState> {
    var defs := PhaseDefs(nodes);
    seq(|defs|, k requires 0 <= k < |defs| => InitialPhase(defs[k]))
  }

  function FreshSetup(nodes: seq<Node>): Setup {
    Setup(nodes, false, {})
  }

  function FreshOrche(nodes: seq<Node>): map<string, Status> {
    map n | n in nodes && n.IsOrche() :: n.id := Pending
  }

  function StartState(phases: seq<PhaseState>, orche: map<string, Status>): RunState {
    RunState(Active, phases, orche, {}, map[], 0, AtNode, [])
  }

  function FreshState(nodes: seq<Node>): RunState {
    StartState(FreshPhases(nodes), FreshOrche(nodes))
  }

  /** What a resumed run treats as already done. */
  function Recorded(phases: seq<PhaseState>, orche: map<string, Status>): set<string> {
    (set id | id in orche && (orche[id] == Completed || orche[id] == Skipped)) +
    (set k | 0 <= k < |phases| && phases[k].status == Completed :: phases[k].id)
  }

  function ResumeSetup(nodes: seq<Node>, phases: seq<PhaseState>, orche: map<string, Status>): Setup {
    Setup(nodes, true, Recorded(phases, orche))
  }
}
