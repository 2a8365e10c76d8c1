/** Workflow node definitions: the part of a node that the sorter and the phase loop look at. */
module WorkflowNode {

  datatype Option<+T> = None | Some(value: T)

  datatype Mode = Parallel | Interactive | SequentialLoop

  datatype FailurePolicy = BestEffort | FailFast | Quorum

  datatype Rejection = Escalate | RetryAll | RetryTargeted | Goto

  /** `gotoPhase == ""` stands for an absent target: the source tests it for truthiness. */
  datatype Critic = Critic(
    gate: bool,
    onRejection: Option<Rejection>,
    gotoPhase: string,
    maxRetries: Option<nat>)
  {
    function Policy(): Rejection {
      if onRejection.Some? then onRejection.value else Escalate
    }

    function Retries(): nat {
      if maxRetries.Some? then maxRetries.value else 1
    }

    predicate Jumps() {
      Policy() == Goto && gotoPhase != ""
    }
  }

  /** `maxLoop == 0` stands for an absent bound; an absent failure policy is best effort. */
  datatype PhaseDef = PhaseDef(
    agents: seq<string>,
    critic: Option<Critic>,
    policy: FailurePolicy,
    quorum: Option<nat>,
    mode: Mode,
    maxLoop: nat)

  datatype Case = Case(value: string, targets: seq<string>)

  /** `Retry`, `ErrorHandler` and `Repeat` run other nodes: a retry its target, or its first dependency if `target
      == ""`, and `attempts == 0` stands for the default; an error handler the nodes to try, and the fallbacks (`[]`
      if it has none or is not to use them) when one of those throws; a repeat (the source's loop and batch) its
      bodies. `Orche` stands for every other orchestration node type, and says whether its handler may throw. */
  datatype Kind =
    | Phase(def: PhaseDef)
    | If(trueBranch: seq<string>, falseBranch: seq<string>)
    | Switch(cases: seq<Case>, defaultTargets: seq<string>)
    | Retry(target: string, attempts: int)
    | ErrorHandler(tries: seq<string>, fallbacks: seq<string>)
    | Repeat(bodies: seq<string>)
    | Orche(throws: bool)
    | Trigger
  {
    /** Handlers that run other nodes catch whatever those throw; a branch node's condition may fail. */
    predicate MayThrow() {
      If? || Switch? || (Orche? && throws)
    }
  }

  datatype Node = Node(id: string, dependsOn: seq<string>, kind: Kind)
  {
    /** The id of the node a retry runs. */
    function RetryTarget(): string {
      if kind.Retry? && kind.target != "" then kind.target else if dependsOn != [] then dependsOn[0] else ""
    }

    /** The source's `is_orche_node`. */
    predicate IsOrche() {
      !kind.Phase? && !kind.Trigger?
    }
  }

  ghost predicate UniqueIds(nodes: seq<Node>) {
    forall i, j :: 0 <= i < j < |nodes| ==> nodes[i].id != nodes[j].id
  }

  ghost predicate Known(nodes: seq<Node>, id: string) {
    exists i :: 0 <= i < |nodes| && nodes[i].id == id
  }

  /** Node `j` depends on node `i`. */
  ghost predicate Edge(nodes: seq<Node>, i: nat, j: nat) {
    i < |nodes| && j < |nodes| && nodes[i].id in nodes[j].dependsOn
  }

  /** Every known dependency of a node stands before it. */
  ghost predicate DepsFirst(nodes: seq<Node>) {
    forall i, j :: Edge(nodes, i, j) ==> i < j
  }

  ghost predicate IsWalk(nodes: seq<Node>, walk: seq<nat>) {
    forall k :: 0 <= k < |walk| - 1 ==> Edge(nodes, walk[k], walk[k + 1])
  }

  /** The dependency graph over known ids has a cycle. */
  ghost predicate Cyclic(nodes: seq<Node>) {
    exists walk: seq<nat> :: |walk| >= 2 && IsWalk(nodes, walk) && walk[0] == walk[|walk| - 1]
  }
}
