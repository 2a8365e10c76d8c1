/** A task's whole life: runs of its loop, resumes, cancellation, interruption. */
module TaskLife {
  import opened WorkflowNode

  const MAX_TASK_TURNS: nat := 500
  const MAX_RESUME_COUNT: nat := 3

  datatype TaskStatus =
    | Running | WaitingApproval | WaitingUserInput | Failed | Cancelled | Completed | MaxTurnsReached | Stopped

  /** `known` says that the task is in the store: it is put there when its first run begins. */
  datatype Task = Task(
    known: bool,
    currentTurn: nat,
    maxTurns: nat,
    status: TaskStatus,
    stepIndex: int,
    resumeCount: nat)

  /** What happens around one turn: whether the caller aborted, whether the node threw, the status and the next index
      the node returned, if any. */
  datatype Turn = Turn(aborted: bool, threw: bool, status: Option<TaskStatus>, next: Option<int>)

  predicate Over(t: Task) {
    t.status == Completed || t.status == Cancelled
  }

  // ---- Specification ----

  /** An option of zero means the default of forty turns. */
  function TurnLimit(option: int): (m: nat)
    ensures m >= 1 && (option >= 1 ==> m == option) && (option == 0 ==> m == 40)
  {
    if option == 0 then 40 else if option >= 1 then option else 1
  }

  function NewTask(maxTurnsOption: int, startIndex: int): Task {
    Task(false, 0, TurnLimit(maxTurnsOption), Running, startIndex, 0)
  }

  function OneTurn(t: Task, nodes: nat, turn: Turn): Task {
    var index := if t.stepIndex >= 0 then t.stepIndex else 0;
    if turn.aborted then t.(status := Cancelled)
    else if index >= nodes then t.(status := Completed)
    else
      var u := t.(currentTurn := t.currentTurn + 1);
      if turn.threw then u.(status := Failed)
      else if turn.status.Some? && turn.status.value != Running then u.(status := turn.status.value)
      else
        var next := if turn.next.Some? then turn.next.value else index + 1;
        u.(stepIndex := next, status := if next >= nodes then Completed else Running)
  }

  /** The loop from here on; `env` answers turn by turn. */
  function LoopFrom(t: Task, nodes: nat, env: nat -> Turn): (r: Task)
    ensures r.status != Running && r.maxTurns == t.maxTurns && r.resumeCount == t.resumeCount
    ensures t.currentTurn <= r.currentTurn && (r.currentTurn == t.currentTurn || r.currentTurn <= t.maxTurns)
    decreases t.maxTurns - t.currentTurn, t.status == Running
  {
    if t.status != Running then t
    else if t.currentTurn >= t.maxTurns then t.(status := MaxTurnsReached)
    else LoopFrom(OneTurn(t, nodes, env(t.currentTurn)), nodes, env)
  }

  /** A run of a task that was there starts over from the first node when the saved index no longer exists; the
      first run of a new task takes the start index as it is. */
  function Ran(t: Task, nodes: nat, env: nat -> Turn): Task {
    LoopFrom(if t.known && t.stepIndex >= nodes then t.(stepIndex := 0) else t.(known := true), nodes, env)
  }

  // ---- The course of a run, told from the answers alone ----

  /** The answer lets the task go on: nothing aborted, threw, waited or ended it. */
  predicate GoesOn(turn: Turn) {
    !turn.aborted && !turn.threw && (turn.status.None? || turn.status.value == Running)
  }

  /** The index that the task stands at before turn `from + k`, when it stood at `start` before turn `from` and all
      turns between went on: what the turn before returned, or the one after its own; below zero means the first. */
  function IndexAt(start: int, env: nat -> Turn, from: nat, k: nat): (i: nat) {
    var given :=
      if k == 0 then start
      else if env(from + k - 1).next.Some? then env(from + k - 1).next.value
      else IndexAt(start, env, from, k - 1) + 1;
    if given >= 0 then given else 0
  }

  /** Turn `k` of a run of `t`, if the turns before it went on, is taken and goes on. */
  predicate TurnGoesOn(t: Task, nodes: nat, env: nat -> Turn, k: nat) {
    && t.currentTurn + k < t.maxTurns && GoesOn(env(t.currentTurn + k))
    && IndexAt(t.stepIndex, env, t.currentTurn, k) < nodes
  }

  predicate WentOn(t: Task, nodes: nat, env: nat -> Turn, n: nat) {
    forall k :: 0 <= k < n ==> TurnGoesOn(t, nodes, env, k)
  }

  /** How a running task comes out of a run in which exactly `n` turns went on: why there was no other turn, or what
      the last one did to it, and how many turns were taken. */
  predicate EndsAfter(t: Task, nodes: nat, env: nat -> Turn, n: nat, r: Task) {
    var m := t.currentTurn + n;
    var atEnd := IndexAt(t.stepIndex, env, t.currentTurn, n) >= nodes;
    && WentOn(t, nodes, env, n)
    && if n > 0 && atEnd then r.status == Completed && r.currentTurn == m
       else if m >= t.maxTurns then r.status == MaxTurnsReached && r.currentTurn == m
       else if env(m).aborted then r.status == Cancelled && r.currentTurn == m
       else if atEnd then r.status == Completed && r.currentTurn == m
       else
         && !GoesOn(env(m)) && r.currentTurn == m + 1
         && r.status == if env(m).threw then Failed else env(m).status.value
  }

  /** The course after the first turn is that of the task as this turn left it. */
  lemma {:induction false} CourseGoesOn(t: Task, nodes: nat, env: nat -> Turn, k: nat)
    requires k > 0 && GoesOn(env(t.currentTurn)) && IndexAt(t.stepIndex, env, t.currentTurn, 0) < nodes
    ensures
      var u := OneTurn(t, nodes, env(t.currentTurn));
      && u.currentTurn == t.currentTurn + 1 && u.maxTurns == t.maxTurns
      && IndexAt(t.stepIndex, env, t.currentTurn, k) == IndexAt(u.stepIndex, env, u.currentTurn, k - 1)
  {
    if k > 1 {
      CourseGoesOn(t, nodes, env, k - 1);
    }
  }

  /** One more turn that went on, in front. */
  lemma WentOnLonger(t: Task, nodes: nat, env: nat -> Turn, n: nat)
    requires TurnGoesOn(t, nodes, env, 0)
    requires WentOn(OneTurn(t, nodes, env(t.currentTurn)), nodes, env, n)
    ensures WentOn(t, nodes, env, n + 1)
  {
    var u := OneTurn(t, nodes, env(t.currentTurn));
    CourseGoesOn(t, nodes, env, 1);
    forall k | 0 <= k < n + 1
      ensures TurnGoesOn(t, nodes, env, k)
    {
      if k > 0 {
        CourseGoesOn(t, nodes, env, k);
        assert TurnGoesOn(u, nodes, env, k - 1);
      }
    }
  }

  lemma EndsLater(t: Task, nodes: nat, env: nat -> Turn, n: nat, r: Task)
    requires t.status == Running && TurnGoesOn(t, nodes, env, 0)
    requires
      var u := OneTurn(t, nodes, env(t.currentTurn));
      if u.status == Running then EndsAfter(u, nodes, env, n, r) else n == 0 && r == u
    ensures EndsAfter(t, nodes, env, n + 1, r)
  {
    WentOnLonger(t, nodes, env, n);
    CourseGoesOn(t, nodes, env, n + 1);
  }

  /** Every run takes its course: from node to node along `IndexAt`, until something ends it. */
  lemma {:induction false} RunTakesCourse(t: Task, nodes: nat, env: nat -> Turn) returns (n: nat)
    requires t.status == Running
    ensures EndsAfter(t, nodes, env, n, LoopFrom(t, nodes, env))
    decreases t.maxTurns - t.currentTurn
  {
    n := 0;
    if TurnGoesOn(t, nodes, env, 0) {
      var u := OneTurn(t, nodes, env(t.currentTurn));
      if u.status == Running {
        n := RunTakesCourse(u, nodes, env);
      }
      EndsLater(t, nodes, env, n, LoopFrom(u, nodes, env));
      n := n + 1;
    }
  }

  lemma {:induction false} StraightIndex(env: nat -> Turn, nodes: nat, k: nat)
    requires k <= nodes && forall j :: 0 <= j < nodes ==> env(j).next.None?
    ensures IndexAt(0, env, 0, k) == k
  {
    if k > 0 {
      StraightIndex(env, nodes, k - 1);
    }
  }

  /** A new task whose nodes all go on and name no next index runs them from the first to the last, each once, and is
      completed after as many turns as there are nodes. */
  lemma StraightRun(maxTurnsOption: int, nodes: nat, env: nat -> Turn)
    requires 0 < nodes <= TurnLimit(maxTurnsOption)
    requires forall k :: 0 <= k < nodes ==> GoesOn(env(k)) && env(k).next.None?
    ensures forall k :: 0 <= k < nodes ==> IndexAt(0, env, 0, k) == k
    ensures
      var r := Ran(NewTask(maxTurnsOption, 0), nodes, env);
      r.status == Completed && r.currentTurn == nodes
  {
    var t := NewTask(maxTurnsOption, 0).(known := true);
    var n := RunTakesCourse(t, nodes, env);
    forall k | 0 <= k <= nodes
      ensures IndexAt(0, env, 0, k) == k
    {
      StraightIndex(env, nodes, k);
    }
    assert n > nodes ==> !TurnGoesOn(t, nodes, env, nodes);
  }

  /** If turn `k` of a run is reached and its node throws, the task has failed after it. */
  lemma ThrowFails(t: Task, nodes: nat, env: nat -> Turn, k: nat)
    requires t.status == Running && WentOn(t, nodes, env, k)
    requires t.currentTurn + k < t.maxTurns && IndexAt(t.stepIndex, env, t.currentTurn, k) < nodes
    requires env(t.currentTurn + k).threw && !env(t.currentTurn + k).aborted
    ensures LoopFrom(t, nodes, env).status == Failed && LoopFrom(t, nodes, env).currentTurn == t.currentTurn + k + 1
  {
    var n := RunTakesCourse(t, nodes, env);
    assert !TurnGoesOn(t, nodes, env, k) && (n < k ==> TurnGoesOn(t, nodes, env, n));
  }

  /** These are the indices of the nodes that a run from turn `from` on runs. */
  predicate Visits(start: int, nodes: nat, env: nat -> Turn, from: nat, visited: seq<nat>) {
    forall k :: 0 <= k < |visited| ==> visited[k] == IndexAt(start, env, from, k) < nodes
  }

  /** The run has taken these turns, and the task stands where the answers lead to. */
  predicate Walked(start: int, nodes: nat, env: nat -> Turn, from: nat, visited: seq<nat>, t: Task) {
    && Visits(start, nodes, env, from, visited) && t.currentTurn == from + |visited|
    && (t.status == Running ==>
          (if t.stepIndex >= 0 then t.stepIndex else 0) == IndexAt(start, env, from, |visited|))
  }

  /** The node that a round runs, if it runs one. */
  function Visit(t: Task, u: Task): (v: seq<nat>) {
    if u.currentTurn == t.currentTurn then [] else [if t.stepIndex >= 0 then t.stepIndex else 0]
  }

  lemma WalkOn(start: int, nodes: nat, env: nat -> Turn, from: nat, visited: seq<nat>, t: Task)
    requires Walked(start, nodes, env, from, visited, t) && t.status == Running
    ensures
      var u := OneTurn(t, nodes, env(t.currentTurn));
      Walked(start, nodes, env, from, visited + Visit(t, u), u)
  {
  }

  /** A quarter more, and at least one. */
  function Extended(m: nat): nat {
    m + (if m >= 1 then (m + 3) / 4 else 1)
  }

  function Resumed(t: Task): Task {
    if Over(t) then t
    else if t.resumeCount + 1 > MAX_RESUME_COUNT then t.(status := Cancelled)
    else
      var extended := t.currentTurn + (Extended(t.maxTurns) - t.maxTurns);
      t.(resumeCount := t.resumeCount + 1, status := Running,
         maxTurns := if t.currentTurn < t.maxTurns then t.maxTurns
                     else if extended <= MAX_TASK_TURNS then extended else MAX_TASK_TURNS)
  }

  // ---- The store's task ----

  class TaskState {
    var known: bool
    var currentTurn: nat
    var maxTurns: nat
    var status: TaskStatus
    var stepIndex: int
    var resumeCount: nat

    ghost function View(): Task
      reads this
    {
      Task(known, currentTurn, maxTurns, status, stepIndex, resumeCount)
    }

    constructor (maxTurnsOption: int, startIndex: int)
      ensures View() == NewTask(maxTurnsOption, startIndex)
    {
      known, currentTurn, status, stepIndex, resumeCount := false, 0, Running, startIndex, 0;
      maxTurns := TurnLimit(maxTurnsOption);
    }

    /** One round of the task loop: at most one node is run. */
    method TakeTurn(nodes: nat, turn: Turn) returns (ghost ran: seq<nat>)
      requires status == Running
      modifies this
      ensures View() == OneTurn(old(View()), nodes, turn)
      ensures ran == Visit(old(View()), View())
    {
      ran := [];
      if turn.aborted {
        status := Cancelled;
        return;
      }
      var current := if stepIndex >= 0 then stepIndex else 0;
      if current >= nodes {
        status := Completed;
        return;
      }
      currentTurn := currentTurn + 1;
      ran := [current];
      if turn.threw {
        status := Failed;
        return;
      }
      if turn.status.Some? && turn.status.value != Running {
        status := turn.status.value;
      }
      if status == Running {
        stepIndex := if turn.next.Some? then turn.next.value else current + 1;
        if stepIndex >= nodes {
          status := Completed;
        }
      }
    }

    /** The rounds of a run. */
    method TakeTurns(nodes: nat, env: nat -> Turn) returns (ghost visited: seq<nat>)
      modifies this
      ensures LoopFrom(View(), nodes, env) == LoopFrom(old(View()), nodes, env)
      ensures Walked(old(stepIndex), nodes, env, old(currentTurn), visited, View())
      ensures status != Running || currentTurn >= maxTurns
    {
      visited := [];
      while currentTurn < maxTurns && status == Running
        invariant LoopFrom(View(), nodes, env) == LoopFrom(old(View()), nodes, env)
        invariant Walked(old(stepIndex), nodes, env, old(currentTurn), visited, View())
        decreases maxTurns - currentTurn, status == Running
      {
        WalkOn(old(stepIndex), nodes, env, old(currentTurn), visited, View());
        ghost var ran := TakeTurn(nodes, env(currentTurn));
        visited := visited + ran;
        if status in {WaitingApproval, WaitingUserInput, Failed, Cancelled, Completed} {
          break;
        }
      }
    }

    /** Runs the nodes at the indices `visited`, each the one that the answers before it lead to. */
    method RunTaskLoop(nodes: nat, env: nat -> Turn) returns (ghost visited: seq<nat>)
      modifies this
      ensures View() == Ran(old(View()), nodes, env)
      ensures currentTurn == old(currentTurn) + |visited|
      ensures Visits(if old(known) && old(stepIndex) >= nodes then 0 else old(stepIndex), nodes, env, old(currentTurn),
                     visited)
    {
      if !known {
        known := true;
      } else if stepIndex >= nodes {
        stepIndex := 0;
      }
      visited := TakeTurns(nodes, env);
      if status == Running && currentTurn >= maxTurns {
        status := MaxTurnsReached;
      }
    }

    /** Makes the task runnable again, three times in its life at most; a fourth attempt cancels it. */
    method Resume() returns (resumed: bool)
      modifies this
      ensures View() == Resumed(old(View()))
      ensures resumed == (!Over(old(View())) && old(resumeCount) < MAX_RESUME_COUNT)
    {
      if status == Completed || status == Cancelled {
        return false;
      }
      var count := resumeCount + 1;
      if count > MAX_RESUME_COUNT {
        status := Cancelled;
        return false;
      }
      resumeCount := count;
      if currentTurn >= maxTurns {
        var base := if maxTurns >= 1 then maxTurns else 1;
        var extendBy := if (base + 3) / 4 >= 1 then (base + 3) / 4 else 1;
        maxTurns := if currentTurn + extendBy <= MAX_TASK_TURNS then currentTurn + extendBy else MAX_TASK_TURNS;
      }
      status := Running;
      return true;
    }
  }

  // ---- Whole lives ----

  /** What may happen to a task: a run over these nodes, a resume, cancellation, being left running by a dead session
      (to be resumed or given up), expiry while it waits. */
  datatype Op = Run(nodes: nat, env: nat -> Turn) | Resume | Cancel | Orphan(resumable: bool) | Expire

  /** A task that is not there yet can only be run. */
  function Apply(t: Task, op: Op): Task {
    if !t.known && !op.Run? then t else
    match op
    case Run(nodes, env) => Ran(t, nodes, env)
    case Resume => Resumed(t)
    case Cancel => t.(status := Cancelled)
    case Orphan(resumable) =>
      if t.status != Running then t else t.(status := if resumable then WaitingUserInput else Failed)
    case Expire =>
      if t.status == WaitingApproval || t.status == WaitingUserInput then t.(status := Cancelled) else t
  }

  function Life(t: Task, ops: seq<Op>): Task {
    if ops == [] then t else Apply(Life(t, ops[..|ops| - 1]), ops[|ops| - 1])
  }

  /** How many resumes made the task run again. */
  function Resumes(t: Task, ops: seq<Op>): nat {
    if ops == [] then 0
    else
      var before := Life(t, ops[..|ops| - 1]);
      Resumes(t, ops[..|ops| - 1]) +
        if ops[|ops| - 1] == Resume && before.known && !Over(before) && Resumed(before).status == Running then 1 else 0
  }

  function Min(a: nat, b: nat): nat { if a <= b then a else b }

  function Max(a: nat, b: nat): nat { if a >= b then a else b }

  /** The limit after `k` extensions. */
  function Grown(m: nat, k: nat): nat {
    if k == 0 then m else Extended(Grown(m, k - 1))
  }

  /** What a task started with limit `m` can use up after `k` resumes. */
  function Ceiling(m: nat, k: nat): nat {
    Max(m, Min(MAX_TASK_TURNS, Grown(m, k)))
  }

  lemma ExtendedGrows(a: nat, b: nat)
    requires a <= b
    ensures Extended(a) <= Extended(b) && a < Extended(a)
  {
  }

  lemma CeilingGrows(m: nat, k: nat)
    ensures Ceiling(m, k) <= Ceiling(m, k + 1)
  {
    ExtendedGrows(Grown(m, k), Grown(m, k));
  }

  lemma {:induction false} GrownAtLeast(m: nat, k: nat)
    ensures m <= Grown(m, k)
  {
    if k > 0 {
      GrownAtLeast(m, k - 1);
      ExtendedGrows(Grown(m, k - 1), Grown(m, k - 1));
    }
  }

  /** Turns are spent within the limit unless the limit was capped, and both stay under the ceiling for the resumes
      so far. */
  predicate Within(t: Task, m: nat) {
    && (t.currentTurn <= t.maxTurns || t.maxTurns >= MAX_TASK_TURNS)
    && t.currentTurn <= Ceiling(m, t.resumeCount) && 1 <= t.maxTurns <= Ceiling(m, t.resumeCount)
    && t.resumeCount <= MAX_RESUME_COUNT
  }

  lemma ResumedWithin(t: Task, m: nat)
    requires Within(t, m)
    ensures Within(Resumed(t), m)
  {
    var k := t.resumeCount;
    CeilingGrows(m, k);
    GrownAtLeast(m, k);
    if t.currentTurn == t.maxTurns < MAX_TASK_TURNS && m < MAX_TASK_TURNS {
      ExtendedGrows(t.maxTurns, Grown(m, k));
    }
  }

  lemma ApplyWithin(t: Task, op: Op, m: nat)
    requires Within(t, m)
    ensures Within(Apply(t, op), m)
    ensures Apply(t, op).resumeCount == t.resumeCount +
      if op == Resume && t.known && !Over(t) && Resumed(t).status == Running then 1 else 0
  {
    if op == Resume {
      ResumedWithin(t, m);
    }
  }

  lemma {:induction false} LifeWithin(m: nat, startIndex: int, ops: seq<Op>)
    requires m >= 1
    ensures var t := Life(NewTask(m, startIndex), ops);
      Within(t, m) && t.resumeCount == Resumes(NewTask(m, startIndex), ops)
  {
    if ops != [] {
      LifeWithin(m, startIndex, ops[..|ops| - 1]);
      ApplyWithin(Life(NewTask(m, startIndex), ops[..|ops| - 1]), ops[|ops| - 1], m);
    } else {
      GrownAtLeast(m, 0);
    }
  }

  lemma GrownThrice(m: nat)
    ensures Grown(m, 3) == Extended(Extended(Extended(m)))
  {
    assert Grown(m, 0) == m;
    assert Grown(m, 1) == Extended(m);
    assert Grown(m, 2) == Extended(Extended(m));
  }

  lemma {:induction false} CeilingUpTo(m: nat, k: nat, n: nat)
    requires k <= n
    ensures Ceiling(m, k) <= Ceiling(m, n)
    decreases n - k
  {
    if k < n {
      CeilingGrows(m, k);
      CeilingUpTo(m, k + 1, n);
    }
  }

  /** However long a task lives, it is resumed three times at most, and its turns are bounded. */
  lemma LifeIsBounded(maxTurnsOption: int, startIndex: int, ops: seq<Op>)
    ensures Resumes(NewTask(maxTurnsOption, startIndex), ops) <= MAX_RESUME_COUNT
    ensures
      var m := TurnLimit(maxTurnsOption);
      Life(NewTask(maxTurnsOption, startIndex), ops).currentTurn
        <= Max(m, Min(MAX_TASK_TURNS, Extended(Extended(Extended(m)))))
  {
    var m := TurnLimit(maxTurnsOption);
    assert NewTask(maxTurnsOption, startIndex) == NewTask(m, startIndex);
    LifeWithin(m, startIndex, ops);
    CeilingUpTo(m, Life(NewTask(m, startIndex), ops).resumeCount, 3);
    GrownThrice(m);
  }

  /** A resumed task goes on where it stopped, and has a turn to take unless the cap is used up; one that is over, or
      was resumed three times, does not run. */
  lemma ResumeGoesOn(t: Task)
    requires t.known
    ensures Resumed(t).currentTurn == t.currentTurn && Resumed(t).stepIndex == t.stepIndex
    ensures t.status in {Completed, Cancelled} ==> Resumed(t) == t
    ensures t.status !in {Completed, Cancelled} && t.resumeCount >= 3 ==> Resumed(t) == t.(status := Cancelled)
    ensures t.status !in {Completed, Cancelled} && t.resumeCount < 3 ==>
      && Resumed(t).status == Running && Resumed(t).resumeCount == t.resumeCount + 1
      && (Resumed(t).currentTurn < Resumed(t).maxTurns || t.currentTurn >= 500)
      && (t.currentTurn < t.maxTurns ==> Resumed(t).maxTurns == t.maxTurns)
  {
  }

  // ---- The bound is met ----

  /** Every node sends the task back to the first. */
  function Circling(): nat -> Turn {
    _ => Turn(false, false, None, Some(0))
  }

  lemma {:induction false} CirclingUsesAll(t: Task, nodes: nat)
    requires nodes > 0 && t.status == Running && t.stepIndex == 0
    ensures LoopFrom(t, nodes, Circling()) == t.(currentTurn := Max(t.currentTurn, t.maxTurns),
      status := MaxTurnsReached)
    decreases t.maxTurns - t.currentTurn
  {
    if t.currentTurn < t.maxTurns {
      CirclingUsesAll(OneTurn(t, nodes, Circling()(t.currentTurn)), nodes);
    }
  }

  /** Run and resume in turn, `k` times over, then run. */
  function RunAndResume(nodes: nat, k: nat): seq<Op> {
    if k == 0 then [Run(nodes, Circling())]
    else RunAndResume(nodes, k - 1) + [Resume] + [Run(nodes, Circling())]
  }

  /** All turns are used up after `k` resumes; a limit above the cap falls to the cap at the first resume. */
  predicate Spent(t: Task, m: nat, k: nat) {
    && t.known && t.status == MaxTurnsReached && t.stepIndex == 0
    && t.resumeCount == k && t.currentTurn == Ceiling(m, k)
    && t.maxTurns == if m <= MAX_TASK_TURNS || k == 0 then Ceiling(m, k) else MAX_TASK_TURNS
  }

  lemma SpentAgain(t: Task, m: nat, k: nat)
    requires m >= 1 && k < MAX_RESUME_COUNT && Spent(t, m, k)
    ensures var r := Resumed(t);
      && r.status == Running
      && Spent(r.(currentTurn := Max(r.currentTurn, r.maxTurns), status := MaxTurnsReached), m, k + 1)
  {
    GrownAtLeast(m, k);
    GrownAtLeast(m, k + 1);
    CappedGrowth(Grown(m, k));
  }

  lemma FirstRunSpends(m: nat, nodes: nat)
    requires m >= 1 && nodes > 0
    ensures Spent(Life(NewTask(m, 0), RunAndResume(nodes, 0)), m, 0)
  {
    var start, ops := NewTask(m, 0), RunAndResume(nodes, 0);
    CirclingUsesAll(start.(known := true), nodes);
    assert ops[..0] == [] && Life(start, ops) == Apply(Life(start, []), ops[0]);
    GrownAtLeast(m, 0);
  }

  lemma NextRunSpends(t: Task, m: nat, nodes: nat, k: nat)
    requires m >= 1 && nodes > 0 && k < MAX_RESUME_COUNT && Spent(t, m, k)
    ensures Spent(Apply(Apply(t, Resume), Run(nodes, Circling())), m, k + 1)
  {
    SpentAgain(t, m, k);
    CirclingUsesAll(Resumed(t), nodes);
  }

  lemma {:induction false} CirclingReachesCeiling(m: nat, nodes: nat, k: nat)
    requires m >= 1 && nodes > 0 && k <= MAX_RESUME_COUNT
    ensures Spent(Life(NewTask(m, 0), RunAndResume(nodes, k)), m, k)
  {
    if k == 0 {
      FirstRunSpends(m, nodes);
    } else {
      var start, ops := NewTask(m, 0), RunAndResume(nodes, k - 1);
      CirclingReachesCeiling(m, nodes, k - 1);
      NextRunSpends(Life(start, ops), m, nodes, k - 1);
      LifeSnoc(start, ops, Resume);
      LifeSnoc(start, ops + [Resume], Run(nodes, Circling()));
    }
  }

  lemma LifeSnoc(t: Task, ops: seq<Op>, op: Op)
    ensures Life(t, ops + [op]) == Apply(Life(t, ops), op)
  {
    assert (ops + [op])[..|ops|] == ops;
  }

  lemma CappedGrowth(g: nat)
    ensures Min(MAX_TASK_TURNS, Extended(g)) == Min(MAX_TASK_TURNS, Extended(Min(MAX_TASK_TURNS, g)))
  {
  }

  /** The bound is exact: a task whose node always sends it back uses every turn of it. */
  lemma BoundIsReached(maxTurnsOption: int, nodes: nat)
    requires nodes > 0
    ensures
      var m := TurnLimit(maxTurnsOption);
      exists ops ::
        Life(NewTask(maxTurnsOption, 0), ops).currentTurn
          == Max(m, Min(MAX_TASK_TURNS, Extended(Extended(Extended(m)))))
  {
    var m := TurnLimit(maxTurnsOption);
    assert NewTask(maxTurnsOption, 0) == NewTask(m, 0);
    CirclingReachesCeiling(m, nodes, 3);
    GrownThrice(m);
    assert Life(NewTask(m, 0), RunAndResume(nodes, 3)).currentTurn == Ceiling(m, 3);
  }

  // ---- The end is the end ----

  /** A task that ran to its end runs no more turns, whatever is done to it. */
  lemma {:induction false} CompletedRunsNoMore(t: Task, ops: seq<Op>)
    requires t.status in {Completed, Cancelled}
    ensures Life(t, ops).status in {Completed, Cancelled} && Life(t, ops).currentTurn == t.currentTurn
  {
    if ops != [] {
      CompletedRunsNoMore(t, ops[..|ops| - 1]);
    }
  }

  /** What ends a task from outside: a cancelled one runs no more, whatever follows; one that a dead session left
      running waits for the user or has failed; one that waits too long is cancelled. */
  lemma OutsideEndsIt(t: Task, ops: seq<Op>)
    requires t.known
    ensures Life(Apply(t, Cancel), ops).currentTurn == t.currentTurn && Apply(t, Cancel).status == Cancelled
    ensures t.status == Running ==>
      && Apply(t, Orphan(true)).status == WaitingUserInput && Apply(t, Orphan(false)).status == Failed
    ensures t.status in {WaitingApproval, WaitingUserInput} ==> Apply(t, Expire).status == Cancelled
    ensures t.status !in {Running, WaitingApproval, WaitingUserInput} ==>
      Apply(t, Orphan(true)) == Apply(t, Orphan(false)) == Apply(t, Expire) == t
  {
    CompletedRunsNoMore(Apply(t, Cancel), ops);
  }
}
