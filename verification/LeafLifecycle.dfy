/** The state of a step is told by its last attempt alone, and a step that succeeded is over. */
module LeafLifecycle {
  import opened Outcomes
  import opened LeafStep
  import opened LeafExecution
  import opened LeafSafety
  import opened LeafTheorems

  /** Attempts follow one another by retries, and the last one decides the state of the step. */
  ghost predicate Lifecycle(plan: Plan, d: Durable) {
    var all, n := d.step.attempts, |d.step.attempts|;
    (forall i :: 0 <= i < n - 1 ==> all[i].state == FailedRetryable)
    && if n == 0 then d.step.state == Ready && d.step.active.None?
       else
         var last := all[n - 1];
         (d.step.active == if IsOpen(last.state) then Some(last.id) else None)
         && match last.state
            case Claimed => d.step.state == Active
            case InFlight => d.step.state == Active
            case Ambiguous => d.step.state == InDoubt
            case Succeeded => d.step.state == Completed
            case FailedTerminal => d.step.state == Failed
            case CancelledBeforeEffect => d.step.state == StepState.Cancelled
            case FailedRetryable => d.step.state == Ready && n < plan.maxAttempts <= 100
  }

  lemma LastIsFound(d: Durable)
    requires UniqueIds(d.step.attempts) && d.step.attempts != []
    ensures var last := d.step.attempts[|d.step.attempts| - 1];
            Find(d.step.attempts, last.id) == Some(last)
            && forall i :: 0 <= i < |d.step.attempts| - 1 ==> d.step.attempts[i].id != last.id
  {
    var last := d.step.attempts[|d.step.attempts| - 1];
    assert last in d.step.attempts;
  }

  /** Whether a failed attempt may be followed by another: written out, at the time of the failure. */
  predicate MayRetry(plan: Plan, d: Durable) {
    d.run == Running && d.now < plan.deadline && |d.step.attempts| < plan.maxAttempts && plan.maxAttempts <= 100
  }

  lemma TargetIsLast(plan: Plan, d: Durable, input: Input, parentAllows: bool)
    requires UniqueIds(d.step.attempts) && Lifecycle(plan, d)
    requires Transact(plan, d, input, parentAllows).0 != d
    ensures d.step.attempts != [] && input.attempt == d.step.attempts[|d.step.attempts| - 1].id
    ensures IsOpen(d.step.attempts[|d.step.attempts| - 1].state)
  {
    if d.step.attempts != [] { LastIsFound(d); }
  }

  /** What a command leaves of the step whose open attempt it names. */
  lemma CommandKeepsLifecycle(plan: Plan, d: Durable, last: Attempt, c: Command)
    requires Find(d.step.attempts, last.id) == Some(last) && IsOpen(last.state) && d.step.active == Some(last.id)
    requires d.step.state == if last.state == LeafStep.Ambiguous then InDoubt else Active
    requires PlanTransition(d.step, last.id, c, RetryAuthorized(plan, d)).Some?
    ensures var step' := PlanTransition(d.step, last.id, c, RetryAuthorized(plan, d)).value;
            var next := NextAttempt(last, c, RetryAuthorized(plan, d));
            next.id == last.id
            && step'.active == (if IsOpen(next.state) then Some(next.id) else None)
            && match next.state
               case Claimed => false
               case InFlight => step'.state == Active
               case Ambiguous => step'.state == InDoubt
               case Succeeded => step'.state == Completed
               case FailedTerminal => step'.state == Failed
               case CancelledBeforeEffect => step'.state == StepState.Cancelled
               case FailedRetryable => step'.state == Ready && MayRetry(plan, d)
  {
  }

  lemma TransactionKeepsLifecycle(plan: Plan, d: Durable, input: Input, parentAllows: bool)
    requires UniqueIds(d.step.attempts) && Lifecycle(plan, d)
    ensures Lifecycle(plan, Transact(plan, d, input, parentAllows).0)
  {
    var d' := Transact(plan, d, input, parentAllows).0;
    if d' != d {
      TargetIsLast(plan, d, input, parentAllows);
      LastIsFound(d);
      AppliedShape(plan, d, input, parentAllows);
      var last := d.step.attempts[|d.step.attempts| - 1];
      CommandKeepsLifecycle(plan, d, last, input.command);
      assert d'.step.attempts[|d.step.attempts| - 1] == NextAttempt(last, input.command, RetryAuthorized(plan, d));
    }
  }

  lemma ClaimKeepsLifecycle(plan: Plan, d: Durable, id: AttemptId, reserved: real, unit: string)
    requires Lifecycle(plan, d)
    ensures Lifecycle(plan, ClaimAttempt(d, id, reserved, unit))
  {
    var d' := ClaimAttempt(d, id, reserved, unit);
    if d' != d {
      assert forall i :: 0 <= i < |d.step.attempts| ==> d'.step.attempts[i] == d.step.attempts[i];
    }
  }

  lemma StepKeepsLifecycle(plan: Plan, w: World, e: Event)
    requires Safe(plan, w) && Lifecycle(plan, w.durable)
    ensures Lifecycle(plan, Step(plan, w, e).durable)
  {
    match e
    case Transaction(k, parentAllows) =>
      if k in w.workers && w.workers[k].pc.Submit? {
        TransactionKeepsLifecycle(plan, w.durable, w.workers[k].pc.input, parentAllows);
      }
    case Claim(id, reserved, unit) => ClaimKeepsLifecycle(plan, w.durable, id, reserved, unit);
    case _ => assert Step(plan, w, e).durable.step == w.durable.step;
  }

  lemma {:induction false} RunKeepsLifecycle(plan: Plan, w: World, events: seq<Event>)
    requires Safe(plan, w) && Lifecycle(plan, w.durable)
    ensures Safe(plan, Run(plan, w, events)) && Lifecycle(plan, Run(plan, w, events).durable)
    decreases |events|
  {
    if events != [] {
      StepKeepsSafe(plan, w, events[0]);
      StepKeepsLifecycle(plan, w, events[0]);
      RunKeepsLifecycle(plan, Step(plan, w, events[0]), events[1..]);
    }
  }

  lemma LastDecides(plan: Plan, d: Durable)
    requires Lifecycle(plan, d)
    ensures (d.step.state == Completed <==> exists a <- d.step.attempts :: a.state == Succeeded)
    ensures (d.step.state == Failed <==> exists a <- d.step.attempts :: a.state == FailedTerminal)
    ensures (d.step.state == StepState.Cancelled <==> exists a <- d.step.attempts :: a.state == CancelledBeforeEffect)
    ensures d.step.state != Retryable
  {
    if d.step.attempts != [] {
      var last := d.step.attempts[|d.step.attempts| - 1];
      assert last in d.step.attempts;
      forall a | a in d.step.attempts ensures a == last || a.state == FailedRetryable {}
    }
  }

  /**
   * In every run: all attempts but the last failed retryably, and the step is what its last attempt makes it. It is
   * completed exactly when some attempt succeeded, and ready again only with attempts left.
   */
  lemma StateFollowsLastAttempt(plan: Plan, events: seq<Event>)
    ensures var d := Run(plan, Initial, events).durable;
            Lifecycle(plan, d)
            && (d.step.state == Completed <==> exists a <- d.step.attempts :: a.state == Succeeded)
            && (d.step.state == Failed <==> exists a <- d.step.attempts :: a.state == FailedTerminal)
            && (d.step.state == StepState.Cancelled <==> exists a <- d.step.attempts :: a.state == CancelledBeforeEffect)
            && d.step.state != Retryable
  {
    RunKeepsLifecycle(plan, Initial, events);
    LastDecides(plan, Run(plan, Initial, events).durable);
  }

  // ----- Retries -----

  predicate RecordsFailure(c: Command) {
    c.RecordFailure? || c.RecordNotStarted? || (c.ResolveAmbiguity? && c.outcome != ToSucceeded)
  }

  predicate AsksRetry(c: Command) {
    (c.RecordFailure? && c.retryable) || (c.RecordNotStarted? && c.retryable)
    || (c.ResolveAmbiguity? && c.outcome == ToFailedRetryable)
  }

  /**
   * A recorded failure is retried exactly when the command asks for it, the run is running, the deadline is open and
   * attempts are left; otherwise it ends the attempt and the step.
   */
  lemma FailureIsRetriedIff(plan: Plan, d: Durable, input: Input, parentAllows: bool)
    requires UniqueIds(d.step.attempts) && Lifecycle(plan, d) && RecordsFailure(input.command)
    requires Transact(plan, d, input, parentAllows).0 != d
    ensures var d' := Transact(plan, d, input, parentAllows).0;
            var after := Find(d'.step.attempts, input.attempt);
            after.Some?
            && if AsksRetry(input.command) && d.run == Running && d.now < plan.deadline
                  && |d.step.attempts| < plan.maxAttempts <= 100
               then after.value.state == FailedRetryable && d'.step.state == Ready
               else after.value.state == FailedTerminal && d'.step.state == Failed
  {
    TargetIsLast(plan, d, input, parentAllows);
    LastIsFound(d);
    FoundAfter(plan, d, input, parentAllows, input.attempt);
    AppliedShape(plan, d, input, parentAllows);
    CommandKeepsLifecycle(plan, d, d.step.attempts[|d.step.attempts| - 1], input.command);
  }

  /** This attempt has just become retryable. */
  predicate BecomesRetryable(d: Durable, d': Durable, id: AttemptId) {
    var after := Find(d'.step.attempts, id);
    after.Some? && after.value.state == FailedRetryable && Find(d.step.attempts, id) != after
  }

  lemma RetryTransaction(plan: Plan, d: Durable, input: Input, parentAllows: bool, id: AttemptId)
    requires UniqueIds(d.step.attempts) && Lifecycle(plan, d)
    requires BecomesRetryable(d, Transact(plan, d, input, parentAllows).0, id)
    ensures MayRetry(plan, d)
  {
    FoundAfter(plan, d, input, parentAllows, id);
    TargetIsLast(plan, d, input, parentAllows);
    LastIsFound(d);
    CommandKeepsLifecycle(plan, d, d.step.attempts[|d.step.attempts| - 1], input.command);
  }

  lemma ClaimIsNotRetryable(d: Durable, id: AttemptId, reserved: real, unit: string, other: AttemptId)
    ensures !BecomesRetryable(d, ClaimAttempt(d, id, reserved, unit), other)
  {
    FindAppended(d.step.attempts, Attempt(id, reserved, unit, Claimed, false, None), other);
  }

  /** In every run an attempt becomes retryable only while it may be retried. */
  lemma RetryNeedsAuthority(plan: Plan, events: seq<Event>, e: Event, id: AttemptId)
    requires var w := Run(plan, Initial, events); BecomesRetryable(w.durable, Step(plan, w, e).durable, id)
    ensures MayRetry(plan, Run(plan, Initial, events).durable)
  {
    RunKeepsLifecycle(plan, Initial, events);
    RetryStep(plan, Run(plan, Initial, events), e, id);
  }

  lemma RetryStep(plan: Plan, w: World, e: Event, id: AttemptId)
    requires UniqueIds(w.durable.step.attempts) && Lifecycle(plan, w.durable)
    requires BecomesRetryable(w.durable, Step(plan, w, e).durable, id)
    ensures MayRetry(plan, w.durable)
  {
    match e
    case Transaction(k, parentAllows) => RetryTransaction(plan, w.durable, w.workers[k].pc.input, parentAllows, id);
    case Claim(claimed, reserved, unit) => ClaimIsNotRetryable(w.durable, claimed, reserved, unit, id);
    case _ =>
  }

  // ----- A step that succeeded is over -----

  ghost predicate NobodyMayExecute(w: World) {
    forall k, id :: !MayExecute(w, k, id)
  }

  /** A step that is neither ready nor has an open attempt. */
  predicate Over(d: Durable) {
    d.step.state == Completed || d.step.state == Failed || d.step.state == StepState.Cancelled
  }

  lemma OverStaysOver(plan: Plan, w: World, e: Event)
    requires Safe(plan, w) && Lifecycle(plan, w.durable) && Over(w.durable)
    ensures Step(plan, w, e).durable.step == w.durable.step && Step(plan, w, e).durable.ledger == w.durable.ledger
  {
    if e.Transaction? && e.worker in w.workers && w.workers[e.worker].pc.Submit? {
      var input := w.workers[e.worker].pc.input;
      if Transact(plan, w.durable, input, e.parentAllows).0 != w.durable {
        TargetIsLast(plan, w.durable, input, e.parentAllows);
      }
    }
  }

  lemma NoPermissionWhenOver(plan: Plan, w: World, e: Event)
    requires Safe(plan, w) && Lifecycle(plan, w.durable) && Over(w.durable) && NobodyMayExecute(w)
    ensures NobodyMayExecute(Step(plan, w, e))
    ensures Step(plan, w, e).history.executions == w.history.executions
  {
    forall k, id ensures !MayExecute(Step(plan, w, e), k, id) {
      WorkerStaysUnpermitted(plan, w, e, k, id);
    }
    if e.RunEffect? && e.worker in w.workers {
      assert !MayExecute(w, e.worker, w.workers[e.worker].attempt);
    }
  }

  lemma OthersStayUnpermitted(plan: Plan, w: World, e: Event, k: nat, id: AttemptId)
    requires !MayExecute(w, k, id)
    requires !(e.Transaction? && e.worker == k) && !(e.AskEffect? && e.worker == k)
    ensures !MayExecute(Step(plan, w, e), k, id)
  {
  }

  lemma WorkerStaysUnpermitted(plan: Plan, w: World, e: Event, k: nat, id: AttemptId)
    requires Safe(plan, w) && Lifecycle(plan, w.durable) && Over(w.durable) && !MayExecute(w, k, id)
    ensures !MayExecute(Step(plan, w, e), k, id)
  {
    if e.Transaction? && e.worker == k {
      if k in w.workers && w.workers[k].pc.Submit? { OverGrantsNothing(plan, w, k, e.parentAllows); }
    } else if e.AskEffect? && e.worker == k {
      if k in w.workers && w.workers[k].pc.LookUp? { LookupStaysUnpermitted(plan, w.workers[k], e.lookup); }
    } else {
      OthersStayUnpermitted(plan, w, e, k, id);
    }
  }

  lemma OverGrantsNothing(plan: Plan, w: World, k: nat, parentAllows: bool)
    requires Safe(plan, w) && Lifecycle(plan, w.durable) && Over(w.durable)
    requires k in w.workers && w.workers[k].pc.Submit?
    ensures !Step(plan, w, Transaction(k, parentAllows)).workers[k].pc.Execute?
  {
    var input := w.workers[k].pc.input;
    TransactionBacked(plan, w, k, parentAllows);
    if Transact(plan, w.durable, input, parentAllows).0 != w.durable {
      TargetIsLast(plan, w.durable, input, parentAllows);
    }
  }

  lemma {:induction false} OverIsForever(plan: Plan, w: World, events: seq<Event>)
    requires Safe(plan, w) && Lifecycle(plan, w.durable) && Over(w.durable)
    ensures Run(plan, w, events).durable.step == w.durable.step
    ensures NobodyMayExecute(w) ==> Run(plan, w, events).history.executions == w.history.executions
    decreases |events|
  {
    if events != [] {
      OverStaysOver(plan, w, events[0]);
      StepKeepsSafe(plan, w, events[0]);
      StepKeepsLifecycle(plan, w, events[0]);
      if NobodyMayExecute(w) { NoPermissionWhenOver(plan, w, events[0]); }
      OverIsForever(plan, Step(plan, w, events[0]), events[1..]);
    }
  }

  /**
   * Once an attempt has succeeded no later event adds an attempt to the step or changes it, and none executes an
   * effect, unless the worker that was permitted has still not run its own.
   */
  lemma SuccessEndsTheStep(plan: Plan, events: seq<Event>, a: Attempt, later: seq<Event>)
    requires a in Run(plan, Initial, events).durable.step.attempts && a.state == Succeeded
    ensures var w := Run(plan, Initial, events);
            var t := Run(plan, w, later);
            w.durable.step.state == Completed && t.durable.step == w.durable.step
            && (NobodyMayExecute(w) ==> t.history.executions == w.history.executions)
  {
    RunKeepsLifecycle(plan, Initial, events);
    StateFollowsLastAttempt(plan, events);
    OverIsForever(plan, Run(plan, Initial, events), later);
  }

  lemma PermittedExecutes(plan: Plan, w: World, k: nat, id: AttemptId)
    requires MayExecute(w, k, id)
    ensures Run(plan, w, [RunEffect(k, None)]).history.executions != w.history.executions
  {
    var later := [RunEffect(k, None)];
    assert later[1..] == [];
    assert Run(plan, w, later) == Run(plan, Step(plan, w, later[0]), []);
    assert |Run(plan, w, later).history.executions| == |w.history.executions| + 1;
  }

  /** The permitted worker is the only exception: while there is one, its effect still runs. */
  lemma ExecutesAgainIff(plan: Plan, events: seq<Event>)
    requires Over(Run(plan, Initial, events).durable)
    ensures var w := Run(plan, Initial, events);
            NobodyMayExecute(w) <==> forall later :: Run(plan, w, later).history.executions == w.history.executions
  {
    RunKeepsLifecycle(plan, Initial, events);
    var w := Run(plan, Initial, events);
    if NobodyMayExecute(w) {
      forall later ensures Run(plan, w, later).history.executions == w.history.executions {
        OverIsForever(plan, w, later);
      }
    } else {
      var k, id :| MayExecute(w, k, id);
      PermittedExecutes(plan, w, k, id);
    }
  }
}
