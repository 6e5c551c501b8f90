/** The attempt the outbox reads is the attempt the step aggregate writes. */
module LeafBridge {
  import opened Outcomes
  import opened LeafStep
  import LeafSafety
  import LeafExecution
  import LeafTheorems
  import Outbox = LeafOutbox
  import OutboxSafety = LeafOutboxSafety

  function StatusOf(a: Attempt): Outbox.AttemptStatus {
    match a.state
    case Claimed => Outbox.Waiting
    case InFlight => Outbox.InProgress
    case Ambiguous => Outbox.InProgress
    case _ => Outbox.Finished(a.effectStarted, a.state == Succeeded)
  }

  /** A transaction moves the attempt the way the outbox assumes it may move, or not at all. */
  lemma AttemptMovesAsAssumed(plan: Plan, h: LeafExecution.History, d: Durable, input: Input, parentAllows: bool,
                              a: Attempt)
    requires LeafSafety.DurableSafe(plan, h, d) && Find(d.step.attempts, a.id) == Some(a)
    ensures var next := Find(Transact(plan, d, input, parentAllows).0.step.attempts, a.id);
            next.Some? && (StatusOf(next.value) == StatusOf(a) || OutboxSafety.Moves(StatusOf(a), StatusOf(next.value)))
  {
    if !IsOpen(a.state) {
      LeafTheorems.TerminalKeptByTransaction(plan, d, input, parentAllows, a);
    } else if Transact(plan, d, input, parentAllows).0 != d {
      OpenAttemptMoves(plan, h, d, input, parentAllows, a);
    }
  }

  lemma OpenAttemptMoves(plan: Plan, h: LeafExecution.History, d: Durable, input: Input, parentAllows: bool, a: Attempt)
    requires LeafSafety.DurableSafe(plan, h, d) && Find(d.step.attempts, a.id) == Some(a) && IsOpen(a.state)
    requires Transact(plan, d, input, parentAllows).0 != d
    ensures var next := Find(Transact(plan, d, input, parentAllows).0.step.attempts, a.id);
            next.Some? && (StatusOf(next.value) == StatusOf(a) || OutboxSafety.Moves(StatusOf(a), StatusOf(next.value)))
  {
    LeafSafety.FoundAfter(plan, d, input, parentAllows, a.id);
    var retry := RetryAuthorized(plan, d);
    if input.attempt == a.id {
      OpenMoves(d.step, a, input.command, retry);
    }
  }

  lemma OpenMoves(step: StepRun, a: Attempt, c: Command, retry: bool)
    requires Find(step.attempts, a.id) == Some(a) && IsOpen(a.state)
    requires a.effectStarted <==> a.state != Claimed
    requires PlanTransition(step, a.id, c, retry).Some?
    ensures var next := LeafSafety.NextAttempt(a, c, retry);
            StatusOf(next) == StatusOf(a) || OutboxSafety.Moves(StatusOf(a), StatusOf(next))
  {
  }

  /** An attempt closed before its effect began is never executed, in any later run. */
  lemma ClosedBeforeStartNeverRuns(plan: Plan, w: LeafExecution.World, events: seq<LeafExecution.Event>, a: Attempt)
    requires LeafSafety.Safe(plan, w) && Find(w.durable.step.attempts, a.id) == Some(a)
    requires StatusOf(a) == Outbox.Finished(false, false)
    ensures var later := LeafExecution.Run(plan, w, events);
            forall outcome :: LeafExecution.Execution(a.id, outcome) !in later.history.executions
  {
    assert !LeafSafety.Started(w.durable, a.id);
    assert forall x <- w.history.executions :: LeafSafety.Started(w.durable, x.attempt);
    forall k ensures !LeafSafety.MayExecute(w, k, a.id) {}
    assert LeafTheorems.Barred(w, a.id);
    var later := LeafExecution.Run(plan, w, events);
    forall outcome ensures LeafExecution.Execution(a.id, outcome) !in later.history.executions {
      if LeafExecution.Execution(a.id, outcome) in later.history.executions {
        LeafTheorems.LaterEntriesOnlyLookUp(plan, w, events, a.id, outcome);
      }
    }
  }
}
