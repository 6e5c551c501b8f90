/** What the leaf protocol promises over every interleaving of deliveries, recoveries and crashes. */
module LeafTheorems {
  import opened Outcomes
  import opened Amounts
  import opened LeafStep
  import opened LeafExecution
  import opened LeafSafety

  /** The effect of an attempt runs at most once, and only after its start was recorded. */
  lemma AtMostOneEffect(plan: Plan, events: seq<Event>, i: nat, j: nat)
    requires i < |Run(plan, Initial, events).history.executions|
    requires j < |Run(plan, Initial, events).history.executions|
    requires i != j
    ensures var w := Run(plan, Initial, events);
            w.history.executions[i].attempt != w.history.executions[j].attempt
            && Started(w.durable, w.history.executions[i].attempt)
  {
    RunKeepsSafe(plan, Initial, events);
    if i < j {
      assert Run(plan, Initial, events).history.executions[i].attempt
          != Run(plan, Initial, events).history.executions[j].attempt;
    } else {
      assert Run(plan, Initial, events).history.executions[j].attempt
          != Run(plan, Initial, events).history.executions[i].attempt;
    }
  }

  /** When no call of the effect came back with an outcome, a conclusion rests on a lookup with a proof. */
  lemma FailClosed(plan: Plan, events: seq<Event>, a: Attempt)
    requires a in Run(plan, Initial, events).durable.step.attempts
    requires a.effectStarted && !IsOpen(a.state)
    requires forall o :: Execution(a.id, Some(o)) !in Run(plan, Initial, events).history.executions
    ensures exists o :: LookedUp(Run(plan, Initial, events).history, a.id, o)
                        && (a.state == Succeeded ==> o.EffectSucceeded?)
                        && (a.state == FailedRetryable ==> o.EffectFailed? && o.retryable)
  {
    RunKeepsSafe(plan, Initial, events);
    var w := Run(plan, Initial, events);
    var i :| 0 <= i < |w.durable.step.attempts| && w.durable.step.attempts[i] == a;
    assert AttemptSafe(plan, w.history, w.durable, w.durable.step.attempts[i]);
    forall o | Reported(w.history, a.id, o) ensures LookedUp(w.history, a.id, o) {}
  }

  /** A sink succeeds only with the artifact of a reported value that the output contract accepted. */
  lemma SinkCarriesItsValue(plan: Plan, events: seq<Event>, a: Attempt)
    requires a in Run(plan, Initial, events).durable.step.attempts
    requires plan.uniqueSink && a.state == Succeeded
    ensures a.output.Some? && a.output.value.attempt == a.id
    ensures exists value, s :: Reported(Run(plan, Initial, events).history, a.id, EffectSucceeded(value, s))
                               && value in Run(plan, Initial, events).history.accepted
                               && IsArtifactOf(plan, a.output.value, value)
  {
    RunKeepsSafe(plan, Initial, events);
    var w := Run(plan, Initial, events);
    var i :| 0 <= i < |w.durable.step.attempts| && w.durable.step.attempts[i] == a;
    assert AttemptSafe(plan, w.history, w.durable, w.durable.step.attempts[i]);
  }

  /** One open attempt per step, its money still reserved; every closed one has settled, within its reservation. */
  lemma MoneyFollowsState(plan: Plan, events: seq<Event>, a: Attempt)
    requires a in Run(plan, Initial, events).durable.step.attempts
    ensures var d := Run(plan, Initial, events).durable;
            a.id in d.ledger
            && (IsOpen(a.state) <==> d.ledger[a.id] == Reserved)
            && (IsOpen(a.state) ==> d.step.active == Some(a.id))
            && (d.ledger[a.id].Settled? ==> 0.0 <= d.ledger[a.id].amount <= a.reserved && a.effectStarted)
            && (a.state == Succeeded ==> d.ledger[a.id].Settled?)
  {
    RunKeepsSafe(plan, Initial, events);
    var w := Run(plan, Initial, events);
    var i :| 0 <= i < |w.durable.step.attempts| && w.durable.step.attempts[i] == a;
    assert AttemptSafe(plan, w.history, w.durable, w.durable.step.attempts[i]);
  }

  // ----- Conclusions and starts are permanent -----

  lemma OnlyRetryFollowsTerminal(step: StepRun, a: Attempt, c: Command, retry: bool)
    requires Find(step.attempts, a.id) == Some(a) && !IsOpen(a.state)
    requires PlanTransition(step, a.id, c, retry).Some?
    ensures NextAttempt(a, c, retry) == a
  {
  }

  lemma TerminalKeptByTransaction(plan: Plan, d: Durable, input: Input, parentAllows: bool, a: Attempt)
    requires UniqueIds(d.step.attempts) && Find(d.step.attempts, a.id) == Some(a) && !IsOpen(a.state)
    ensures Find(Transact(plan, d, input, parentAllows).0.step.attempts, a.id) == Some(a)
  {
    if Transact(plan, d, input, parentAllows).0 != d {
      FoundAfter(plan, d, input, parentAllows, a.id);
      if input.attempt == a.id {
        OnlyRetryFollowsTerminal(d.step, a, input.command, RetryAuthorized(plan, d));
      }
    }
  }

  lemma TerminalKeptByStep(plan: Plan, w: World, e: Event, a: Attempt)
    requires UniqueIds(w.durable.step.attempts)
    requires Find(w.durable.step.attempts, a.id) == Some(a) && !IsOpen(a.state)
    ensures Find(Step(plan, w, e).durable.step.attempts, a.id) == Some(a)
  {
    match e
    case Transaction(k, parentAllows) =>
      if k in w.workers && w.workers[k].pc.Submit? {
        TerminalKeptByTransaction(plan, w.durable, w.workers[k].pc.input, parentAllows, a);
      }
    case Claim(id, reserved, unit) =>
      FindAppended(w.durable.step.attempts, Attempt(id, reserved, unit, Claimed, false, None), a.id);
    case _ =>
  }

  /** A concluded attempt never changes again, whatever is delivered, replayed or recovered later. */
  lemma {:induction false} TerminalIsForever(plan: Plan, w: World, events: seq<Event>, a: Attempt)
    requires Safe(plan, w) && Find(w.durable.step.attempts, a.id) == Some(a) && !IsOpen(a.state)
    ensures Find(Run(plan, w, events).durable.step.attempts, a.id) == Some(a)
    decreases |events|
  {
    if events != [] {
      TerminalKeptByStep(plan, w, events[0], a);
      StepKeepsSafe(plan, w, events[0]);
      TerminalIsForever(plan, Step(plan, w, events[0]), events[1..], a);
    }
  }

  ghost predicate NoPermission(w: World, id: AttemptId) {
    forall k :: !MayExecute(w, k, id)
  }

  /** Nobody may run this effect any more: it was started by someone gone, or it closed without starting. */
  ghost predicate Barred(w: World, id: AttemptId) {
    NoPermission(w, id) && StartedOrClosed(w.durable, id)
  }

  ghost predicate StartedOrClosed(d: Durable, id: AttemptId) {
    var a := Find(d.step.attempts, id);
    a.Some? && (a.value.effectStarted || !IsOpen(a.value.state))
  }

  lemma StartedOrClosedStays(plan: Plan, w: World, e: Event, id: AttemptId)
    requires UniqueIds(w.durable.step.attempts) && StartedOrClosed(w.durable, id)
    ensures StartedOrClosed(Step(plan, w, e).durable, id)
  {
    var a := Find(w.durable.step.attempts, id).value;
    if !IsOpen(a.state) {
      TerminalKeptByStep(plan, w, e, a);
    } else if e.Transaction? && e.worker in w.workers && w.workers[e.worker].pc.Submit? {
      TransactionKeepsStarts(plan, w.durable, w.workers[e.worker].pc.input, e.parentAllows, id);
    } else if e.Claim? {
      FindAppended(w.durable.step.attempts, Attempt(e.attempt, e.reserved, e.unit, Claimed, false, None), id);
    }
  }

  /** A grant takes an attempt that was neither started nor closed. */
  lemma NoGrantWhenBarred(plan: Plan, w: World, k: nat, parentAllows: bool, id: AttemptId)
    requires Safe(plan, w) && StartedOrClosed(w.durable, id)
    requires k in w.workers && w.workers[k].pc.Submit? && w.workers[k].attempt == id
    ensures !Step(plan, w, Transaction(k, parentAllows)).workers[k].pc.Execute?
  {
    TransactionBacked(plan, w, k, parentAllows);
    var a := Find(w.durable.step.attempts, id).value;
    if !IsOpen(a.state) {
      TerminalKeptByTransaction(plan, w.durable, w.workers[k].pc.input, parentAllows, a);
    }
  }

  lemma NoPermissionStep(plan: Plan, w: World, e: Event, id: AttemptId, l: nat)
    requires Safe(plan, w) && Barred(w, id)
    ensures !MayExecute(Step(plan, w, e), l, id)
  {
    assert !MayExecute(w, l, id);
    if e.Transaction? && l == e.worker && l in w.workers && w.workers[l].pc.Submit? && w.workers[l].attempt == id {
      NoGrantWhenBarred(plan, w, l, e.parentAllows, id);
    } else if e.AskEffect? && e.worker in w.workers && w.workers[e.worker].pc.LookUp? {
      LookupStaysUnpermitted(plan, w.workers[e.worker], e.lookup);
    }
  }

  lemma LookupStaysUnpermitted(plan: Plan, it: Worker, lookup: Lookup)
    requires it.pc.LookUp?
    ensures !AfterLookup(it.attempt, it.startKey, it.pc.version, it.pc.inFlight, lookup, plan).Execute?
  {
  }

  lemma BarredStep(plan: Plan, w: World, e: Event, id: AttemptId)
    requires Safe(plan, w) && Barred(w, id)
    ensures Barred(Step(plan, w, e), id)
    ensures forall o :: Execution(id, o) in Step(plan, w, e).history.executions
                    ==> Execution(id, o) in w.history.executions
  {
    StartedOrClosedStays(plan, w, e, id);
    forall l ensures !MayExecute(Step(plan, w, e), l, id) {
      NoPermissionStep(plan, w, e, id, l);
    }
    if e.RunEffect? {
      assert !MayExecute(w, e.worker, id);
    }
  }

  /** After the permitted worker is gone, or after a close without start, no later entry executes: it only looks up. */
  lemma {:induction false} LaterEntriesOnlyLookUp(plan: Plan, w: World, events: seq<Event>, id: AttemptId,
                                                  outcome: Option<Outcome>)
    requires Safe(plan, w) && Barred(w, id)
    requires Execution(id, outcome) in Run(plan, w, events).history.executions
    ensures Execution(id, outcome) in w.history.executions
    decreases |events|
  {
    if events != [] {
      StepKeepsSafe(plan, w, events[0]);
      BarredStep(plan, w, events[0], id);
      LaterEntriesOnlyLookUp(plan, Step(plan, w, events[0]), events[1..], id, outcome);
    }
  }

  // ----- Settlements are exact -----

  ghost predicate InFlightNow(d: Durable, a: Attempt) {
    Find(d.step.attempts, a.id) == Some(a) && a.state == InFlight && IsAmount(a.reserved)
    && d.step.state == Active && d.step.active == Some(a.id)
    && a.id in d.ledger && d.ledger[a.id] == Reserved
  }

  ghost predicate InDoubtNow(d: Durable, a: Attempt) {
    Find(d.step.attempts, a.id) == Some(a) && a.state == Ambiguous && IsAmount(a.reserved)
    && d.step.state == InDoubt && d.step.active == Some(a.id)
    && a.id in d.ledger && d.ledger[a.id] == Reserved
  }

  /** An output is an artifact of the attempt, and only the sink of the workflow has one. */
  ghost predicate OutputFits(plan: Plan, a: Attempt, output: Option<Output>) {
    output.Some? ==>
      plan.uniqueSink && output.value.artifact.attempt == a.id
      && IsArtifactOf(plan, output.value.artifact, output.value.value)
  }

  /** A conclusion of the attempt as it stands: of one in flight, or with a proof of one in doubt. */
  ghost predicate Conclusive(plan: Plan, d: Durable, a: Attempt, c: Command) {
    match c
    case RecordSucceeded(s, output) => InFlightNow(d, a) && s.Settle? && OutputFits(plan, a, output)
    case RecordFailure(_, _) => InFlightNow(d, a)
    case ResolveAmbiguity(outcome, proof, s, output) =>
      InDoubtNow(d, a) && !Blank(proof) && OutputFits(plan, a, output)
      && (outcome == ToSucceeded ==> s.Settle?) && (outcome != ToSucceeded ==> output.None?)
    case _ => false
  }

  /**
   * A usage is recorded, with a success, a failure or a resolved ambiguity, exactly when it is at most the
   * reservation. The first check of the transaction also lets through an excess within rounding, but the
   * aggregate then refuses it.
   */
  lemma UsageRecordedIffWithinReservation(plan: Plan, d: Durable, input: Input, a: Attempt, parentAllows: bool)
    requires input.attempt == a.id && input.version == d.step.version && input.key !in d.journal
    requires Conclusive(plan, d, a, input.command)
    requires var s := SettlementOf(input.command).value;
             s.Settle? && s.unit == a.unit && !Blank(a.unit) && IsAmount(s.amount)
    ensures Transact(plan, d, input, parentAllows).1.Applied?
       <==> SettlementOf(input.command).value.amount <= a.reserved
  {
    SettlementIsExact(a, SettlementOf(input.command).value);
  }

  /** An excess of one unit in the last place passes the first check and is still refused. */
  lemma ExcessWithinRoundingIsRefused(plan: Plan, d: Durable, a: Attempt, key: string, parentAllows: bool)
    requires InFlightNow(d, a) && a.reserved == 1.0 && a.unit == "usd" && key !in d.journal
    ensures var c := RecordFailure(false, Settle(1.0 + EPSILON, "usd", "usage"));
            ContextAllows(plan, d, a, c)
            && Transact(plan, d, Input(a.id, key, d.step.version, c), parentAllows) == (d, Rejected(NotAllowed))
  {
  }

  // ----- Recovery concludes -----

  ghost predicate Chargeable(a: Attempt, s: Settlement) {
    s.Settle? ==> s.unit == a.unit && !Blank(s.unit) && IsAmount(s.amount) && s.amount <= a.reserved
  }

  lemma MarkApplies(plan: Plan, d: Durable, a: Attempt, key: string)
    requires UniqueIds(d.step.attempts) && InFlightNow(d, a) && key !in d.journal
    ensures var input := Input(a.id, key, d.step.version, MarkAmbiguous);
            var (d', answer) := Transact(plan, d, input, true);
            answer == Applied(NotApplicable, d'.step)
            && Find(d'.step.attempts, a.id) == Some(a.(state := Ambiguous))
            && d'.step.state == InDoubt && d'.step.active == Some(a.id) && UniqueIds(d'.step.attempts)
            && d'.ledger == d.ledger && d'.journal == d.journal[key := Journaled(a.id, MarkAmbiguous)]
            && d'.run == d.run && d'.now == d.now && |d'.step.attempts| == |d.step.attempts|
  {
    FindReplaced(d.step.attempts, a.(state := Ambiguous), a.id);
  }

  /** What a settlement makes of the reservation. */
  function Charge(s: Settlement): Reservation {
    match s case Release => Released case Settle(amount, _, entry) => LeafStep.Settled(amount, entry)
  }

  /** The state of a step that a concluded attempt, or one in doubt, is the last of. */
  function StepAfter(s: AttemptState): StepState {
    match s
    case Claimed => Active
    case InFlight => Active
    case Ambiguous => InDoubt
    case Succeeded => Completed
    case FailedRetryable => Ready
    case FailedTerminal => Failed
    case CancelledBeforeEffect => StepState.Cancelled
  }

  lemma ConclusionIsPlanned(plan: Plan, d: Durable, a: Attempt, c: Command, retry: bool)
    requires Conclusive(plan, d, a, c) && Chargeable(a, SettlementOf(c).value)
    ensures var next := PlanTransition(d.step, a.id, c, retry);
            next.Some? && next.value.state == StepAfter(NextAttempt(a, c, retry).state)
  {
  }

  lemma ConclusionCommits(plan: Plan, d: Durable, a: Attempt, key: string, c: Command)
    requires key !in d.journal && Conclusive(plan, d, a, c) && Chargeable(a, SettlementOf(c).value)
    ensures var next := PlanTransition(d.step, a.id, c, RetryAuthorized(plan, d));
            next.Some?
            && Transact(plan, d, Input(a.id, key, d.step.version, c), true)
               == (d.(step := next.value, journal := d.journal[key := Journaled(a.id, c)],
                      ledger := d.ledger[a.id := Charge(SettlementOf(c).value)]), Applied(NotApplicable, next.value))
  {
    ConclusionIsPlanned(plan, d, a, c, RetryAuthorized(plan, d));
    var input := Input(a.id, key, d.step.version, c);
    assert Transact(plan, d, input, true) == Fresh(plan, d, input, a, true);
  }

  lemma NextKeepsId(a: Attempt, c: Command, retry: bool)
    ensures NextAttempt(a, c, retry).id == a.id
  {
  }

  /** A conclusion that charges within the reservation is applied: step, attempt, output and money together. */
  lemma ConclusionApplies(plan: Plan, d: Durable, a: Attempt, key: string, c: Command)
    requires UniqueIds(d.step.attempts) && key !in d.journal
    requires Conclusive(plan, d, a, c) && Chargeable(a, SettlementOf(c).value)
    ensures var (d', answer) := Transact(plan, d, Input(a.id, key, d.step.version, c), true);
            answer.Applied? && Find(d'.step.attempts, a.id) == Some(NextAttempt(a, c, RetryAuthorized(plan, d)))
            && d'.step.state == StepAfter(NextAttempt(a, c, RetryAuthorized(plan, d)).state)
            && a.id in d'.ledger && d'.ledger[a.id] == Charge(SettlementOf(c).value)
  {
    var retry := RetryAuthorized(plan, d);
    ConclusionCommits(plan, d, a, key, c);
    ConclusionIsPlanned(plan, d, a, c, retry);
    PlanReplaces(d.step, a, c, retry);
    NextKeepsId(a, c, retry);
    FindReplaced(d.step.attempts, NextAttempt(a, c, retry), a.id);
  }

  lemma DistinctKeys(startKey: string, proof: string)
    ensures CommandKey(startKey, "resolve:" + proof) != CommandKey(startKey, "ambiguous")
  {
    var at := |"leaf:" + startKey + ":"|;
    assert CommandKey(startKey, "resolve:" + proof)[at] == 'r';
    assert CommandKey(startKey, "ambiguous")[at] == 'a';
  }

  /** A delivery that finds the start recorded gets no permission: it looks the effect up. */
  lemma RedeliveryLooksUp(plan: Plan, w: World, k: nat, a: Attempt, startKey: string)
    requires k !in w.workers && startKey != "" && InFlightNow(w.durable, a)
    requires CommandKey(startKey, "start-effect") in w.durable.journal
    requires w.durable.journal[CommandKey(startKey, "start-effect")] == Journaled(a.id, StartEffect)
    ensures var w2 := Step(plan, Step(plan, w, Deliver(k, a.id, startKey)), Transaction(k, true));
            w2 == w.(workers := w.workers[k := Worker(a.id, startKey, LookUp(w.durable.step.version, true))])
  {
    var w1 := Step(plan, w, Deliver(k, a.id, startKey));
    var start := Input(a.id, CommandKey(startKey, "start-effect"), w.durable.step.version, StartEffect);
    assert w1.workers[k].pc == Submit(start, AfterStart(InFlight));
    assert Transact(plan, w.durable, start, true) == (w.durable, Applied(ReplayOnly, w.durable.step));
  }
}
