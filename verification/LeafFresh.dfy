/** The first delivery of an attempt, step by step: start, execute, record. */
module LeafFresh {
  import opened Outcomes
  import opened Amounts
  import opened LeafStep
  import opened LeafExecution
  import opened LeafSafety
  import opened LeafTheorems
  import opened LeafLifecycle
  import opened LeafConclusions

  ghost predicate ClaimedNow(d: Durable, a: Attempt) {
    UniqueIds(d.step.attempts) && Find(d.step.attempts, a.id) == Some(a) && a.state == Claimed && IsAmount(a.reserved)
    && d.step.state == Active && d.step.active == Some(a.id) && a.id in d.ledger && d.ledger[a.id] == Reserved
  }

  /** A new effect may begin: the run is running, the deadline open and the plan admitted. */
  predicate InWindow(plan: Plan, d: Durable) {
    d.run == Running && d.now < plan.deadline && plan.admitted
  }

  function StartedAttempt(a: Attempt): Attempt {
    a.(state := InFlight, effectStarted := true)
  }

  lemma StartApplies(plan: Plan, d: Durable, a: Attempt, key: string)
    requires ClaimedNow(d, a) && InWindow(plan, d) && key !in d.journal
    ensures var (d', answer) := Transact(plan, d, Input(a.id, key, d.step.version, StartEffect), true);
            answer == Applied(Granted, d'.step) && InFlightNow(d', StartedAttempt(a)) && UniqueIds(d'.step.attempts)
            && d'.journal == d.journal[key := Journaled(a.id, StartEffect)]
            && d'.run == d.run && d'.now == d.now && |d'.step.attempts| == |d.step.attempts|
  {
    FindReplaced(d.step.attempts, StartedAttempt(a), a.id);
  }

  function StartInput(a: Attempt, startKey: string, version: nat): Input {
    Input(a.id, CommandKey(startKey, "start-effect"), version, StartEffect)
  }

  lemma SubmittedStarts(plan: Plan, w: World, k: nat, a: Attempt, startKey: string)
    requires k in w.workers && ClaimedNow(w.durable, a) && InWindow(plan, w.durable)
    requires w.workers[k] == Worker(a.id, startKey, Submit(StartInput(a, startKey, w.durable.step.version),
                                                           AfterStart(Claimed)))
    requires CommandKey(startKey, "start-effect") !in w.durable.journal
    ensures var w' := Step(plan, w, Transaction(k, true));
            w'.durable == Transact(plan, w.durable, StartInput(a, startKey, w.durable.step.version), true).0
            && w'.workers == w.workers[k := Worker(a.id, startKey, Execute(w'.durable.step.version))]
            && w'.history == w.history
  {
    StartApplies(plan, w.durable, a, CommandKey(startKey, "start-effect"));
  }

  lemma DeliveryStarts(plan: Plan, w: World, k: nat, a: Attempt, startKey: string)
    requires k !in w.workers && startKey != "" && ClaimedNow(w.durable, a) && InWindow(plan, w.durable)
    requires CommandKey(startKey, "start-effect") !in w.durable.journal
    ensures var w2 := Step(plan, Step(plan, w, Deliver(k, a.id, startKey)), Transaction(k, true));
            w2.durable == Transact(plan, w.durable, StartInput(a, startKey, w.durable.step.version), true).0
            && w2.workers == w.workers[k := Worker(a.id, startKey, Execute(w2.durable.step.version))]
            && w2.history == w.history
  {
    SubmittedStarts(plan, Step(plan, w, Deliver(k, a.id, startKey)), k, a, startKey);
  }

  /**
   * A first delivery inside the window executes the effect once and records exactly the outcome it returned,
   * with its settlement; at a sink the validator decides between success, failure and doubt.
   */
  lemma FirstDeliveryRecordsOutcome(plan: Plan, w: World, k: nat, a: Attempt, startKey: string, o: Outcome,
                                    verdict: Verdict)
    requires k !in w.workers && startKey != "" && ClaimedNow(w.durable, a) && InWindow(plan, w.durable)
    requires Acceptable(a, o)
    requires CommandKey(startKey, "start-effect") !in w.durable.journal
    requires CommandKey(startKey, FreshName(FreshCommand(plan, a.id, o, verdict))) !in w.durable.journal
    ensures var w2 := Step(plan, Step(plan, w, Deliver(k, a.id, startKey)), Transaction(k, true));
            var w4 := Step(plan, Step(plan, w2, RunEffect(k, Some(o))), AskValidator(k, verdict));
            var w5 := Step(plan, w4, Transaction(k, true));
            Reflects(plan, w5.durable, StartedAttempt(a), o, verdict, MayRetry(plan, w.durable))
            && w5.history.executions == w.history.executions + [Execution(a.id, Some(o))]
            && k in w5.workers && w5.workers[k].pc == Done
  {
    DeliveryStarts(plan, w, k, a, startKey);
    StartApplies(plan, w.durable, a, CommandKey(startKey, "start-effect"));
    var w2 := Step(plan, Step(plan, w, Deliver(k, a.id, startKey)), Transaction(k, true));
    OutcomeIsSubmitted(plan, w2, k, StartedAttempt(a), startKey, o, verdict);
    var w4 := Step(plan, Step(plan, w2, RunEffect(k, Some(o))), AskValidator(k, verdict));
    SubmittedIsRecorded(plan, w4, k, StartedAttempt(a), startKey, o, verdict);
  }

  lemma UnknownIsMarked(plan: Plan, w: World, k: nat, a: Attempt, startKey: string)
    requires k in w.workers && w.workers[k] == Worker(a.id, startKey, Execute(w.durable.step.version))
    requires UniqueIds(w.durable.step.attempts) && InFlightNow(w.durable, a)
    requires CommandKey(startKey, "ambiguous") !in w.durable.journal
    ensures var w' := Step(plan, Step(plan, w, RunEffect(k, None)), Transaction(k, true));
            InDoubtNow(w'.durable, a.(state := Ambiguous))
            && w'.history.executions == w.history.executions + [Execution(a.id, None)]
  {
    var w1 := Step(plan, w, RunEffect(k, None));
    assert w1.workers[k].pc == MarkThen(a.id, startKey, w.durable.step.version, None);
    MarkApplies(plan, w.durable, a, CommandKey(startKey, "ambiguous"));
  }

  /** An unknown outcome leaves the attempt ambiguous and its money reserved. */
  lemma UnknownOutcomeBecomesAmbiguous(plan: Plan, w: World, k: nat, a: Attempt, startKey: string)
    requires k !in w.workers && startKey != "" && ClaimedNow(w.durable, a) && InWindow(plan, w.durable)
    requires CommandKey(startKey, "start-effect") !in w.durable.journal
    requires CommandKey(startKey, "ambiguous") !in w.durable.journal
    ensures var w2 := Step(plan, Step(plan, w, Deliver(k, a.id, startKey)), Transaction(k, true));
            var w4 := Step(plan, Step(plan, w2, RunEffect(k, None)), Transaction(k, true));
            InDoubtNow(w4.durable, StartedAttempt(a).(state := Ambiguous))
            && w4.history.executions == w.history.executions + [Execution(a.id, None)]
  {
    DeliveryStarts(plan, w, k, a, startKey);
    StartApplies(plan, w.durable, a, CommandKey(startKey, "start-effect"));
    var w2 := Step(plan, Step(plan, w, Deliver(k, a.id, startKey)), Transaction(k, true));
    UnknownIsMarked(plan, w2, k, StartedAttempt(a), startKey);
  }

  // ----- A delivery that may not start -----

  lemma RefusedStart(plan: Plan, d: Durable, a: Attempt, key: string)
    requires ClaimedNow(d, a) && WindowFailure(plan, d).Some? && key !in d.journal
    ensures Transact(plan, d, Input(a.id, key, d.step.version, StartEffect), true)
         == (d, Rejected(WindowFailure(plan, d).value))
  {
  }

  /** How a claimed attempt is closed when its effect may not begin. */
  function ClosingCommand(d: Durable): Command {
    if d.run == Cancelling then CancelBeforeEffect else RecordNotStarted(false)
  }

  function ClosingName(d: Durable): string {
    if d.run == Cancelling then "cancel-before-effect" else "not-started"
  }

  function ClosedState(d: Durable): AttemptState {
    if d.run == Cancelling then CancelledBeforeEffect else FailedTerminal
  }

  lemma CloseApplies(plan: Plan, d: Durable, a: Attempt, key: string)
    requires ClaimedNow(d, a) && key !in d.journal
    ensures var d' := Transact(plan, d, Input(a.id, key, d.step.version, ClosingCommand(d)), true).0;
            Find(d'.step.attempts, a.id) == Some(a.(state := ClosedState(d)))
            && a.id in d'.ledger && d'.ledger[a.id] == Released
  {
    var c, retry := ClosingCommand(d), RetryAuthorized(plan, d);
    assert Transact(plan, d, Input(a.id, key, d.step.version, c), true)
        == Fresh(plan, d, Input(a.id, key, d.step.version, c), a, true);
    PlanReplaces(d.step, a, c, retry);
    FindReplaced(d.step.attempts, NextAttempt(a, c, retry), a.id);
  }

  lemma LateDeliveryIsRefused(plan: Plan, w: World, k: nat, a: Attempt, startKey: string)
    requires k !in w.workers && startKey != "" && ClaimedNow(w.durable, a)
    requires w.durable.run == Cancelling || (w.durable.run == Running && w.durable.now >= plan.deadline)
    requires CommandKey(startKey, "start-effect") !in w.durable.journal
    ensures var w2 := Step(plan, Step(plan, w, Deliver(k, a.id, startKey)), Transaction(k, true));
            w2 == w.(workers := w.workers[k :=
                       Worker(a.id, startKey, Record(a.id, startKey, w.durable.step.version, ClosingName(w.durable),
                                                     ClosingCommand(w.durable)))])
  {
    RefusedStart(plan, w.durable, a, CommandKey(startKey, "start-effect"));
  }

  lemma SubmittedCloses(plan: Plan, w: World, k: nat, a: Attempt, startKey: string)
    requires k in w.workers && ClaimedNow(w.durable, a)
    requires w.workers[k] == Worker(a.id, startKey, Record(a.id, startKey, w.durable.step.version,
                                                           ClosingName(w.durable), ClosingCommand(w.durable)))
    requires CommandKey(startKey, ClosingName(w.durable)) !in w.durable.journal
    ensures var w' := Step(plan, w, Transaction(k, true));
            Find(w'.durable.step.attempts, a.id) == Some(a.(state := ClosedState(w.durable)))
            && a.id in w'.durable.ledger && w'.durable.ledger[a.id] == Released
            && w'.history == w.history && w'.workers[k].pc == Done
  {
    CloseApplies(plan, w.durable, a, CommandKey(startKey, ClosingName(w.durable)));
  }

  /** Past the deadline, or while the run stops, a claimed attempt is closed with its money released, unexecuted. */
  lemma LateDeliveryCloses(plan: Plan, w: World, k: nat, a: Attempt, startKey: string)
    requires k !in w.workers && startKey != "" && ClaimedNow(w.durable, a)
    requires w.durable.run == Cancelling || (w.durable.run == Running && w.durable.now >= plan.deadline)
    requires CommandKey(startKey, "start-effect") !in w.durable.journal
    requires CommandKey(startKey, ClosingName(w.durable)) !in w.durable.journal
    ensures var w2 := Step(plan, Step(plan, w, Deliver(k, a.id, startKey)), Transaction(k, true));
            var w3 := Step(plan, w2, Transaction(k, true));
            Find(w3.durable.step.attempts, a.id) == Some(a.(state := ClosedState(w.durable)))
            && a.id in w3.durable.ledger && w3.durable.ledger[a.id] == Released
            && w3.history == w.history && w3.workers[k].pc == Done
  {
    LateDeliveryIsRefused(plan, w, k, a, startKey);
    var w2 := Step(plan, Step(plan, w, Deliver(k, a.id, startKey)), Transaction(k, true));
    SubmittedCloses(plan, w2, k, a, startKey);
  }

  /** Inside the window, a delivery that the plan or the parent does not allow leaves everything as it was. */
  lemma DeniedDeliveryChangesNothing(plan: Plan, w: World, k: nat, a: Attempt, startKey: string, parentAllows: bool)
    requires k !in w.workers && startKey != "" && ClaimedNow(w.durable, a)
    requires w.durable.run == Running && w.durable.now < plan.deadline && !(plan.admitted && parentAllows)
    requires CommandKey(startKey, "start-effect") !in w.durable.journal
    ensures var w2 := Step(plan, Step(plan, w, Deliver(k, a.id, startKey)), Transaction(k, parentAllows));
            w2 == w.(workers := w.workers[k := Worker(a.id, startKey, Done)])
  {
    var w1 := Step(plan, w, Deliver(k, a.id, startKey));
    assert w1.workers[k].pc == Submit(StartInput(a, startKey, w.durable.step.version), AfterStart(Claimed));
    StartGrantedIff(plan, w.durable, a, CommandKey(startKey, "start-effect"), parentAllows);
  }

  // ----- What a transaction accepts -----

  /** A claimed attempt starts exactly inside the window and with the parent's consent, and then it is permitted. */
  lemma StartGrantedIff(plan: Plan, d: Durable, a: Attempt, key: string, parentAllows: bool)
    requires ClaimedNow(d, a) && key !in d.journal
    ensures var (d', answer) := Transact(plan, d, Input(a.id, key, d.step.version, StartEffect), parentAllows);
            (answer.Applied? <==>
               d.run == Running && d.now < plan.deadline && plan.admitted && parentAllows)
            && (answer.Applied? ==> answer.permission == Granted && Find(d'.step.attempts, a.id) == Some(StartedAttempt(a)))
            && (answer.Rejected? ==>
                  d' == d
                  && answer.code == (if d.run != Running then RunNotRunning
                                     else if d.now >= plan.deadline then DeadlineElapsed else NotAllowed))
  {
    if InWindow(plan, d) && parentAllows {
      StartApplies(plan, d, a, key);
    }
  }

  /** A command key is used once: the same command again changes nothing and permits nothing, another is refused. */
  lemma KnownKeyChangesNothing(plan: Plan, d: Durable, input: Input, parentAllows: bool)
    requires input.key in d.journal
    ensures var (d', answer) := Transact(plan, d, input, parentAllows);
            d' == d
            && (answer.Applied? ==>
                  d.journal[input.key] == Journaled(input.attempt, input.command) && answer.step == d.step
                  && answer.permission != Granted)
            && ((d.journal[input.key] == Journaled(input.attempt, input.command)
                 && WellFormedInput(plan, input.command) && Find(d.step.attempts, input.attempt).Some?)
                ==> answer.Applied?)
  {
  }

  /** A command on another version of the step than the stored one changes nothing. */
  lemma StaleVersionIsRefused(plan: Plan, d: Durable, input: Input, parentAllows: bool)
    requires input.key !in d.journal && input.version != d.step.version
    ensures Transact(plan, d, input, parentAllows).0 == d && Transact(plan, d, input, parentAllows).1.Rejected?
  {
  }

  // ----- The report that an effect never began -----

  function NotStartedCommand(d: Durable, retryable: bool): Command {
    if d.run == Cancelling then CancelBeforeEffect else RecordNotStarted(retryable)
  }

  function NotStartedName(d: Durable): string {
    if d.run == Cancelling then "cancel-before-effect" else "not-started"
  }

  lemma NotStartedApplies(plan: Plan, d: Durable, a: Attempt, key: string, retryable: bool)
    requires ClaimedNow(d, a) && key !in d.journal
    ensures var c := NotStartedCommand(d, retryable);
            var (d', answer) := Transact(plan, d, Input(a.id, key, d.step.version, c), true);
            answer.Applied? && Find(d'.step.attempts, a.id) == Some(NextAttempt(a, c, RetryAuthorized(plan, d)))
            && d'.step.state == StepAfter(NextAttempt(a, c, RetryAuthorized(plan, d)).state)
            && a.id in d'.ledger && d'.ledger[a.id] == Released
  {
    var c, retry := NotStartedCommand(d, retryable), RetryAuthorized(plan, d);
    assert Transact(plan, d, Input(a.id, key, d.step.version, c), true)
        == Fresh(plan, d, Input(a.id, key, d.step.version, c), a, true);
    PlanReplaces(d.step, a, c, retry);
    FindReplaced(d.step.attempts, NextAttempt(a, c, retry), a.id);
  }

  lemma NotStartedNext(plan: Plan, d: Durable, a: Attempt, retryable: bool)
    ensures NextAttempt(a, NotStartedCommand(d, retryable), RetryAuthorized(plan, d))
         == a.(state := if d.run == Cancelling then CancelledBeforeEffect
                        else if retryable && MayRetry(plan, d) then FailedRetryable else FailedTerminal)
  {
  }

  /**
   * A claimed attempt reported as not started is closed unexecuted with its money released: cancelled while the run
   * is being cancelled, else failed, and ready for another attempt exactly when the report and the plan allow it.
   */
  lemma NotStartedReportCloses(plan: Plan, w: World, k: nat, a: Attempt, startKey: string, retryable: bool)
    requires k !in w.workers && ClaimedNow(w.durable, a)
    requires CommandKey(startKey, NotStartedName(w.durable)) !in w.durable.journal
    ensures var w2 := Step(plan, Step(plan, w, DeliverNotStarted(k, a.id, startKey, retryable)), Transaction(k, true));
            var state := if w.durable.run == Cancelling then CancelledBeforeEffect
                         else if retryable && MayRetry(plan, w.durable) then FailedRetryable else FailedTerminal;
            Find(w2.durable.step.attempts, a.id) == Some(a.(state := state))
            && w2.durable.step.state == StepAfter(state)
            && a.id in w2.durable.ledger && w2.durable.ledger[a.id] == Released
            && w2.history == w.history && k in w2.workers && w2.workers[k].pc == Done
  {
    var c := NotStartedCommand(w.durable, retryable);
    var w1 := Step(plan, w, DeliverNotStarted(k, a.id, startKey, retryable));
    assert w1.workers[k] == Worker(a.id, startKey, Record(a.id, startKey, w.durable.step.version,
                                                          NotStartedName(w.durable), c));
    NotStartedNext(plan, w.durable, a, retryable);
    NotStartedApplies(plan, w.durable, a, CommandKey(startKey, NotStartedName(w.durable)), retryable);
    LastTransaction(plan, w1, k, a.id, startKey, NotStartedName(w.durable), c);
  }
}
