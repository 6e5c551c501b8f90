/** Exactly which command changes a step, by the state of its last attempt. */
module LeafCommands {
  import opened Outcomes
  import opened Amounts
  import opened LeafStep
  import opened LeafExecution
  import opened LeafSafety
  import opened LeafLifecycle

  /** A charge in the unit of the attempt and within its reservation, or a release. */
  predicate Covers(a: Attempt, s: Settlement) {
    s.Release? || (s.unit == a.unit && !Blank(s.unit) && 0.0 <= s.amount <= a.reserved)
  }

  /** An output is the artifact of its value, for this attempt, and only a unique sink has one. */
  predicate IsOutputOf(plan: Plan, id: AttemptId, output: Option<Output>) {
    output.Some? ==>
      plan.uniqueSink && output.value.artifact.attempt == id && IsArtifactOf(plan, output.value.artifact, output.value.value)
  }

  /** What a new command asks of the attempt it names, of the run and of the clock. */
  predicate Asks(plan: Plan, d: Durable, a: Attempt, c: Command, parentAllows: bool) {
    match c
    case StartEffect => a.state == Claimed && d.run == Running && d.now < plan.deadline && plan.admitted && parentAllows
    case RecordSucceeded(s, output) => a.state == InFlight && s.Settle? && Covers(a, s) && IsOutputOf(plan, a.id, output)
    case RecordFailure(_, s) => a.state == InFlight && Covers(a, s)
    case RecordNotStarted(_) => a.state == Claimed
    case AuthorizeRetry => false
    case MarkAmbiguous => a.state == InFlight && parentAllows
    case ResolveAmbiguity(outcome, proof, s, output) =>
      a.state == Ambiguous && !Blank(proof) && Covers(a, s)
      && if outcome == ToSucceeded then s.Settle? && IsOutputOf(plan, a.id, output) else output.None?
    case CancelBeforeEffect => a.state == Claimed && d.run == Cancelling
  }

  predicate IsLast(attempts: seq<Attempt>, a: Attempt) {
    attempts != [] && attempts[|attempts| - 1] == a
  }

  /** The last attempt is the one its commands can change, and its money is reserved while it is open. */
  ghost predicate LastIs(plan: Plan, d: Durable, a: Attempt) {
    Lifecycle(plan, d) && UniqueIds(d.step.attempts) && IsLast(d.step.attempts, a)
    && IsAmount(a.reserved) && a.id in d.ledger && (IsOpen(a.state) ==> d.ledger[a.id] == Reserved)
  }

  lemma CoveredSettles(a: Attempt, s: Settlement)
    requires IsAmount(a.reserved)
    ensures Covers(a, s) ==>
              SettlementMatches(a, s) && (s.Settle? ==> AtMost(s.amount, a.reserved) && IsAmount(s.amount) && !Blank(s.unit))
    ensures SettlementMatches(a, s) && (s.Settle? ==> !Blank(s.unit)) ==> Covers(a, s)
  {
    if s.Settle? && IsAmount(s.amount) { SettlementIsExact(a, s); }
  }

  lemma AskedIsPlanned(plan: Plan, d: Durable, a: Attempt, c: Command, parentAllows: bool, retry: bool)
    requires LastIs(plan, d, a) && Asks(plan, d, a, c, parentAllows)
    ensures PlanTransition(d.step, a.id, c, retry).Some?
  {
    LastIsFound(d);
    if SettlementOf(c).Some? { CoveredSettles(a, SettlementOf(c).value); }
  }

  lemma PlannedAsks(plan: Plan, d: Durable, a: Attempt, c: Command, retry: bool)
    requires LastIs(plan, d, a) && PlanTransition(d.step, a.id, c, retry).Some?
    ensures !c.AuthorizeRetry? && IsOpen(a.state)
    ensures SettlementOf(c).Some? ==> SettlementMatches(a, SettlementOf(c).value)
  {
    LastIsFound(d);
  }

  lemma AskedIsAdmitted(plan: Plan, d: Durable, a: Attempt, c: Command, parentAllows: bool)
    requires LastIs(plan, d, a) && Asks(plan, d, a, c, parentAllows)
    ensures WellFormedInput(plan, c) && ContextAllows(plan, d, a, c) && !c.AuthorizeRetry?
    ensures c.StartEffect? ==> WindowFailure(plan, d).None?
    ensures c.StartEffect? || c.MarkAmbiguous? ==> parentAllows
    ensures SettlementOf(c).Some? ==> SettleReservation(d.ledger[a.id], SettlementOf(c).value).Some?
  {
    if SettlementOf(c).Some? { CoveredSettles(a, SettlementOf(c).value); }
  }

  /** A planned command that passes every check is written under its key. */
  lemma AdmittedApplies(plan: Plan, d: Durable, input: Input, a: Attempt, parentAllows: bool)
    requires Find(d.step.attempts, input.attempt) == Some(a) && a.id in d.ledger
    requires input.key !in d.journal && input.version == d.step.version
    requires WellFormedInput(plan, input.command) && ContextAllows(plan, d, a, input.command) && !input.command.AuthorizeRetry?
    requires input.command.StartEffect? ==> WindowFailure(plan, d).None?
    requires input.command.StartEffect? || input.command.MarkAmbiguous? ==> parentAllows
    requires SettlementOf(input.command).Some? ==> SettleReservation(d.ledger[a.id], SettlementOf(input.command).value).Some?
    requires PlanTransition(d.step, input.attempt, input.command, RetryAuthorized(plan, d)).Some?
    ensures input.key in Transact(plan, d, input, parentAllows).0.journal
  {
  }

  lemma AskedApplies(plan: Plan, d: Durable, input: Input, a: Attempt, parentAllows: bool)
    requires LastIs(plan, d, a) && input.attempt == a.id && input.key !in d.journal && input.version == d.step.version
    requires Asks(plan, d, a, input.command, parentAllows)
    ensures Transact(plan, d, input, parentAllows).0 != d
  {
    LastIsFound(d);
    AskedIsPlanned(plan, d, a, input.command, parentAllows, RetryAuthorized(plan, d));
    AskedIsAdmitted(plan, d, a, input.command, parentAllows);
    AdmittedApplies(plan, d, input, a, parentAllows);
  }

  lemma AppliedAsks(plan: Plan, d: Durable, input: Input, a: Attempt, parentAllows: bool)
    requires LastIs(plan, d, a) && input.attempt == a.id && Transact(plan, d, input, parentAllows).0 != d
    ensures Asks(plan, d, a, input.command, parentAllows)
  {
    var c := input.command;
    LastIsFound(d);
    PlannedAsks(plan, d, a, c, RetryAuthorized(plan, d));
    if SettlementOf(c).Some? { CoveredSettles(a, SettlementOf(c).value); }
  }

  /**
   * In every run a new command changes the step exactly when it names the last attempt and the stored version, and
   * asks what that attempt, the run and the clock allow.
   */
  lemma CommandAppliesIff(plan: Plan, events: seq<Event>, input: Input, parentAllows: bool)
    requires input.key !in Run(plan, Initial, events).durable.journal
    ensures var d := Run(plan, Initial, events).durable;
            Transact(plan, d, input, parentAllows).0 != d
            <==> d.step.attempts != [] && input.version == d.step.version
                 && var last := d.step.attempts[|d.step.attempts| - 1];
                    input.attempt == last.id && Asks(plan, d, last, input.command, parentAllows)
  {
    RunKeepsLifecycle(plan, Initial, events);
    var d := Run(plan, Initial, events).durable;
    if Transact(plan, d, input, parentAllows).0 != d { TargetIsLast(plan, d, input, parentAllows); }
    if d.step.attempts != [] {
      var last := d.step.attempts[|d.step.attempts| - 1];
      LastIsReserved(plan, events);
      if Transact(plan, d, input, parentAllows).0 != d {
        AppliedAsks(plan, d, input, last, parentAllows);
      } else if input.attempt == last.id && input.version == d.step.version && Asks(plan, d, last, input.command, parentAllows) {
        AskedApplies(plan, d, input, last, parentAllows);
      }
    }
  }

  lemma LastIsReserved(plan: Plan, events: seq<Event>)
    requires Run(plan, Initial, events).durable.step.attempts != []
    ensures var d := Run(plan, Initial, events).durable;
            LastIs(plan, d, d.step.attempts[|d.step.attempts| - 1])
  {
    RunKeepsLifecycle(plan, Initial, events);
    var w := Run(plan, Initial, events);
    var n := |w.durable.step.attempts| - 1;
    assert AttemptSafe(plan, w.history, w.durable, w.durable.step.attempts[n]);
  }
}
