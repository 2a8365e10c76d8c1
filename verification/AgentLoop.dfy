/** The agent loop: turns of a model that asks for tools or answers in text. */
module AgentLoop {
  import opened WorkflowNode
  import opened ToolCallGuard

  datatype LoopStatus = Running | Completed | Stopped | Failed | MaxTurnsReached

  datatype Reason = NoReason | Aborted | RepeatedToolCalls | HandlerMissing | Finished | NotContinued | TurnsUsedUp

  /** What happens around one turn: whether the caller aborted, the batch of tool calls asked for (none for a text
      turn), whether the tool handler lets the loop go on, whether messages wait in the mailbox, whether the caller
      wants another turn after a text. */
  datatype Turn<S> = Turn(aborted: bool, batch: Option<S>, proceed: bool, mail: bool, more: bool)

  /** What a turn did: executed a batch, or spoke. */
  datatype Step<S> = Executed(batch: S) | Spoke

  datatype Outcome<S> = Outcome(status: LoopStatus, reason: Reason, steps: seq<Step<S>>)

  /** This batch was executed in both turns before. */
  predicate Repeats<S(==)>(steps: seq<Step<S>>, batch: S) {
    |steps| >= 2 && steps[|steps| - 1] == Executed(batch) && steps[|steps| - 2] == Executed(batch)
  }

  /** One turn, told by what was done so far instead of by counters: the status, and whether to go on. */
  function OneTurn<S(==)>(turn: Turn<S>, handler: bool, steps: seq<Step<S>>): (Outcome<S>, bool) {
    if turn.aborted then (Outcome(Stopped, Aborted, steps), false)
    else
      match turn.batch
      case Some(batch) =>
        if Repeats(steps, batch) then (Outcome(Failed, RepeatedToolCalls, steps), false)
        else if !handler then (Outcome(Failed, HandlerMissing, steps), false)
        else (Outcome(Running, NoReason, steps + [Executed(batch)]), turn.proceed)
      case None =>
        if turn.mail || turn.more then (Outcome(Running, NoReason, steps + [Spoke]), true)
        else (Outcome(Completed, Finished, steps + [Spoke]), false)
  }

  /** The loop from here on. */
  function LoopFrom<S(==)>(env: nat -> Turn<S>, handler: bool, maxTurns: nat, steps: seq<Step<S>>): (o: Outcome<S>)
    ensures o.status != Running
    ensures steps <= o.steps && (|steps| <= maxTurns ==> |o.steps| <= maxTurns)
    decreases maxTurns - |steps|
  {
    if |steps| >= maxTurns then Outcome(MaxTurnsReached, TurnsUsedUp, steps)
    else
      var (o, goOn) := OneTurn(env(|steps|), handler, steps);
      if o.status != Running then o
      else if goOn || |o.steps| >= maxTurns then LoopFrom(env, handler, maxTurns, o.steps)
      else Outcome(Stopped, NotContinued, o.steps)
  }

  /** No batch three times in a row. */
  predicate Varied<S(==)>(steps: seq<Step<S>>) {
    forall i :: 0 <= i < |steps| - 2 && steps[i].Executed? ==> !(steps[i] == steps[i + 1] == steps[i + 2])
  }

  /** Whatever the model asks for, no batch is executed more than twice in a row. */
  lemma {:induction false} NeverThreeInARow<S>(env: nat -> Turn<S>, handler: bool, maxTurns: nat, steps: seq<Step<S>>)
    requires Varied(steps)
    ensures Varied(LoopFrom(env, handler, maxTurns, steps).steps)
    decreases maxTurns - |steps|
  {
    if |steps| < maxTurns && OneTurn(env(|steps|), handler, steps).0.status == Running {
      NeverThreeInARow(env, handler, maxTurns, OneTurn(env(|steps|), handler, steps).0.steps);
    }
  }

  /** The loop fails for repetition only on a third request for what it executed twice in a row. */
  lemma {:induction false} RepetitionIsReal<S>(env: nat -> Turn<S>, handler: bool, maxTurns: nat, steps: seq<Step<S>>)
    ensures var o := LoopFrom(env, handler, maxTurns, steps);
      o.reason == RepeatedToolCalls ==>
        && o.status == Failed && 2 <= |o.steps| < maxTurns
        && var n := |o.steps|;
           && !env(n).aborted && env(n).batch.Some?
           && o.steps[n - 1] == o.steps[n - 2] == Executed(env(n).batch.value)
    decreases maxTurns - |steps|
  {
    if |steps| < maxTurns && OneTurn(env(|steps|), handler, steps).0.status == Running {
      RepetitionIsReal(env, handler, maxTurns, OneTurn(env(|steps|), handler, steps).0.steps);
    }
  }

  // ---- The course of a loop, told from the answers alone ----

  /** What a turn that was taken did. */
  function StepOf<S>(turn: Turn<S>): Step<S> {
    if turn.batch.Some? then Executed(turn.batch.value) else Spoke
  }

  /** After the turn the loop is to go on: its tools were run and their handler agrees, or its text is not the last. */
  predicate GoesOn<S>(turn: Turn<S>) {
    if turn.batch.Some? then turn.proceed else turn.mail || turn.more
  }

  /** Turn `k` was taken as it should be: not aborted, with a handler for its tools, and no batch a third time. */
  predicate Taken<S(==)>(env: nat -> Turn<S>, handler: bool, steps: seq<Step<S>>, k: nat)
    requires k < |steps|
  {
    && !env(k).aborted && steps[k] == StepOf(env(k))
    && (env(k).batch.Some? ==> handler && !Repeats(steps[..k], env(k).batch.value))
    && (k + 1 < |steps| ==> GoesOn(env(k)))
  }

  predicate AllTaken<S(==)>(env: nat -> Turn<S>, handler: bool, steps: seq<Step<S>>) {
    forall k :: 0 <= k < |steps| ==> Taken(env, handler, steps, k)
  }

  /** Why a loop that took these turns took no other, in the order in which the reasons count. */
  function WhyNoMore<S(==)>(env: nat -> Turn<S>, handler: bool, maxTurns: nat, steps: seq<Step<S>>)
    : (LoopStatus, Reason)
  {
    var n := |steps|;
    if n > 0 && !GoesOn(env(n - 1)) && env(n - 1).batch.None? then (Completed, Finished)
    else if n >= maxTurns then (MaxTurnsReached, TurnsUsedUp)
    else if n > 0 && !GoesOn(env(n - 1)) then (Stopped, NotContinued)
    else if env(n).aborted then (Stopped, Aborted)
    else if env(n).batch.Some? && Repeats(steps, env(n).batch.value) then (Failed, RepeatedToolCalls)
    else if env(n).batch.Some? && !handler then (Failed, HandlerMissing)
    else (Running, NoReason)
  }

  lemma TakenOneMore<S>(env: nat -> Turn<S>, handler: bool, steps: seq<Step<S>>)
    requires AllTaken(env, handler, steps) && !env(|steps|).aborted && (steps != [] ==> GoesOn(env(|steps| - 1)))
    requires env(|steps|).batch.Some? ==> handler && !Repeats(steps, env(|steps|).batch.value)
    ensures AllTaken(env, handler, steps + [StepOf(env(|steps|))])
  {
    var more := steps + [StepOf(env(|steps|))];
    forall k | 0 <= k < |more|
      ensures Taken(env, handler, more, k)
    {
      assert more[..k] == steps[..k];
      if k < |steps| {
        assert Taken(env, handler, steps, k);
      } else {
        assert steps[..k] == steps;
      }
    }
  }

  lemma {:induction false} LoopTakesCourseFrom<S>(env: nat -> Turn<S>, handler: bool, maxTurns: nat,
                                                  steps: seq<Step<S>>)
    requires AllTaken(env, handler, steps) && |steps| <= maxTurns
    requires steps != [] ==>
      GoesOn(env(|steps| - 1)) || (|steps| == maxTurns && env(maxTurns - 1).batch.Some?)
    ensures
      var o := LoopFrom(env, handler, maxTurns, steps);
      AllTaken(env, handler, o.steps) && (o.status, o.reason) == WhyNoMore(env, handler, maxTurns, o.steps)
    decreases maxTurns - |steps|
  {
    if |steps| < maxTurns {
      var turn := env(|steps|);
      var (o, goOn) := OneTurn(turn, handler, steps);
      if !turn.aborted && (turn.batch.Some? ==> handler && !Repeats(steps, turn.batch.value)) {
        TakenOneMore(env, handler, steps);
        if o.status == Running && (goOn || |o.steps| >= maxTurns) {
          LoopTakesCourseFrom(env, handler, maxTurns, o.steps);
        }
      }
    }
  }

  /** Every loop takes its turns one by one as the answers go, and ends for the first reason there is. */
  lemma LoopTakesCourse<S>(env: nat -> Turn<S>, handler: bool, maxTurnsOption: int)
    ensures
      var maxTurns := TurnLimit(maxTurnsOption);
      var o := LoopFrom(env, handler, maxTurns, []);
      AllTaken(env, handler, o.steps) && (o.status, o.reason) == WhyNoMore(env, handler, maxTurns, o.steps)
  {
    LoopTakesCourseFrom(env, handler, TurnLimit(maxTurnsOption), []);
  }

  /** The batches executed since the last text. */
  function Recent<S>(steps: seq<Step<S>>): seq<S> {
    if steps == [] || steps[|steps| - 1].Spoke? then []
    else Recent(steps[..|steps| - 1]) + [steps[|steps| - 1].batch]
  }

  lemma RecentRepeats<S>(steps: seq<Step<S>>, batch: S)
    ensures TailAgrees(Recent(steps) + [batch], 3) <==> Repeats(steps, batch)
  {
    var n := |steps|;
    var r := Recent(steps);
    if n >= 2 {
      assert steps[..n - 1][n - 2] == steps[n - 2];
    }
    if n >= 2 && steps[n - 1].Executed? && steps[n - 2].Executed? {
      assert r == Recent(steps[..n - 1][..n - 2]) + [steps[n - 2].batch] + [steps[n - 1].batch];
      var m := |r| + 1;
      assert (r + [batch])[m - 2] == steps[n - 1].batch && (r + [batch])[m - 3] == steps[n - 2].batch;
    } else if n >= 1 && steps[n - 1].Executed? {
      assert Recent(steps[..n - 1]) == [];
    }
  }

  /** One turn, with the guard counting. */
  method TakeTurn<S(==)>(turn: Turn<S>, handler: bool, guard: ConsecutiveToolCallGuard<S>, ghost steps0: seq<Step<S>>)
    returns (status: LoopStatus, reason: Reason, goOn: bool, ghost steps: seq<Step<S>>)
    requires guard.Valid() && guard.maxRepeatedRounds == 2 && guard.seen == Recent(steps0)
    modifies guard
    ensures guard.Valid() && (status == Running ==> guard.seen == Recent(steps))
    ensures (Outcome(status, reason, steps), goOn) == OneTurn(turn, handler, steps0)
  {
    steps := steps0;
    if turn.aborted {
      return Stopped, Aborted, false, steps;
    }
    if turn.batch.Some? {
      RecentRepeats(steps, turn.batch.value);
      var blocked := guard.Observe(turn.batch);
      if blocked {
        return Failed, RepeatedToolCalls, false, steps;
      }
      if !handler {
        return Failed, HandlerMissing, false, steps;
      }
      steps := steps + [Executed(turn.batch.value)];
      assert steps[..|steps0|] == steps0;
      return Running, NoReason, turn.proceed, steps;
    }
    guard.Reset();
    steps := steps + [Spoke];
    if turn.mail {
      return Running, NoReason, true, steps;
    }
    if !turn.more {
      return Completed, Finished, false, steps;
    }
    return Running, NoReason, true, steps;
  }

  /** How a loop ends that has come so far. */
  function Rest<S(==)>(env: nat -> Turn<S>, handler: bool, maxTurns: nat, o: Outcome<S>, goOn: bool): Outcome<S> {
    if o.status != Running then o
    else if goOn || |o.steps| >= maxTurns then LoopFrom(env, handler, maxTurns, o.steps)
    else Outcome(Stopped, NotContinued, o.steps)
  }

  lemma LoopUnfolds<S>(env: nat -> Turn<S>, handler: bool, maxTurns: nat, steps: seq<Step<S>>, o: Outcome<S>,
                       goOn: bool)
    requires |steps| < maxTurns && (o, goOn) == OneTurn(env(|steps|), handler, steps)
    ensures LoopFrom(env, handler, maxTurns, steps) == Rest(env, handler, maxTurns, o, goOn)
    ensures o.status == Running ==> |o.steps| == |steps| + 1
  {
  }

  /** An option of zero means the default of thirty turns. */
  function TurnLimit(option: int): (m: nat)
    ensures m >= 1 && (option >= 1 ==> m == option) && (option == 0 ==> m == 30)
  {
    if option == 0 then 30 else if option >= 1 then option else 1
  }

  method RunAgentLoop<S(==)>(env: nat -> Turn<S>, handler: bool, maxTurnsOption: int)
    returns (status: LoopStatus, reason: Reason, currentTurn: nat, ghost steps: seq<Step<S>>)
    ensures
      var o := LoopFrom(env, handler, TurnLimit(maxTurnsOption), []);
      status == o.status && reason == o.reason && currentTurn == |o.steps| + if o.status == Failed then 1 else 0
    ensures currentTurn <= TurnLimit(maxTurnsOption)
    ensures steps == LoopFrom(env, handler, TurnLimit(maxTurnsOption), []).steps
  {
    var maxTurns := TurnLimit(maxTurnsOption);
    var guard := new ConsecutiveToolCallGuard<S>(2);
    status, reason, currentTurn, steps := Running, NoReason, 0, [];
    var checkShouldContinue := true;
    ghost var all := LoopFrom(env, handler, maxTurns, []);
    while currentTurn < maxTurns && checkShouldContinue && status == Running
      invariant guard.Valid() && guard.maxRepeatedRounds == 2 && fresh(guard)
      invariant currentTurn <= maxTurns
      invariant currentTurn == |steps| + if status == Failed then 1 else 0
      invariant status == Running ==> guard.seen == Recent(steps)
      invariant all == Rest(env, handler, maxTurns, Outcome(status, reason, steps), checkShouldContinue)
      decreases if status == Running then maxTurns - currentTurn + 1 else 0
    {
      var turn := env(currentTurn);
      ghost var before := steps;
      status, reason, checkShouldContinue, steps := TakeTurn(turn, handler, guard, steps);
      LoopUnfolds(env, handler, maxTurns, before, Outcome(status, reason, steps), checkShouldContinue);
      if !turn.aborted {
        currentTurn := currentTurn + 1;
      }
    }
    if status == Running && currentTurn >= maxTurns {
      status, reason, checkShouldContinue := MaxTurnsReached, TurnsUsedUp, false;
    }
    if status == Running && !checkShouldContinue {
      status, reason := Stopped, NotContinued;
    }
  }
}
