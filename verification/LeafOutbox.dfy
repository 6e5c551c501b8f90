/**
 * The leaf outbox: one message, its execution binding, and the dispatcher that moves it by
 * claim-fenced updates. Another dispatcher, a lease expiry or a crash may come between two updates.
 */
module LeafOutbox {
  import opened Outcomes

  /** How far the attempt of the message has come, as the step aggregate records it. */
  datatype AttemptStatus = Waiting | InProgress | Finished(effectStarted: bool, succeeded: bool)

  datatype BindingState =
    | NotStarted
    | Starting
    | Started
    | ReconciliationRequired
    | ReconciliationExhausted
    | Rejected
    | Withdrawn

  /** `Available` is a message that is pending or waiting for its retry time. */
  datatype MessageState = Available | Claimed | Dispatched | DeadLetter | Cancelled

  /** Claims are numbered: the number of the latest claim is also its token. */
  datatype Row = Row(
    message: MessageState,
    claims: nat,
    binding: BindingState,
    adapter: Option<string>,
    attempt: AttemptStatus)

  datatype StartAnswer = Accepted | AlreadyStarted | StartUnknown | DefinitelyRejected(retryable: bool)

  datatype FindAnswer = Found | NotFound | FindUnknown

  datatype CycleResult =
    | WasDispatched
    | WasDeadLettered
    | WasRejected
    | RetryScheduled
    | ReconciliationScheduled
    | ClaimLost

  /** What a claim statement does: `Faulted` is an error of the database, with nothing written. */
  datatype ClaimAnswer = Granted | NothingDue | Faulted

  /** How a cycle ends: without a claim, with the error of the claim statement, or with a result. */
  datatype CycleEnd = Idle | ClaimFault | Ended(result: CycleResult)

  /** The next port call of a dispatcher. */
  datatype Pc =
    | MarkStarting
    | Start
    | Find
    | RecordStarted
    | CloseUnavailable
    | CloseThenReject
    | RecordRejected
    | ResetPending
    | MarkReconciliation
    | MarkDeadLetter
    | Done(result: CycleResult)

  /** A dispatcher at work on the claim numbered `claim`. */
  datatype Dispatcher = Dispatcher(claim: nat, adapterKey: string, pc: Pc)

  /** What the orchestrator, the lookup and the closing of the attempt answer when they are asked. */
  datatype Answers = Answers(start: StartAnswer, find: FindAnswer, closes: bool)

  const Posted: Row := Row(Available, 0, NotStarted, None, Waiting)

  // ----- Updates of the stored row, each fenced by the claim -----

  predicate Holds(row: Row, claim: nat) {
    row.message == Claimed && row.claims == claim
  }

  predicate Open(row: Row) {
    row.binding == Starting || row.binding == ReconciliationRequired
  }

  /** The effect of the attempt has begun, whatever the binding says. */
  predicate EffectBegan(a: AttemptStatus) {
    a.InProgress? || (a.Finished? && a.effectStarted)
  }

  /** The check constraint of the binding table: every update that breaks it is an error. */
  predicate BindingCheck(row: Row) {
    match row.binding
    case NotStarted => row.adapter.None?
    case Rejected => true
    case Withdrawn => true
    case _ => row.adapter.Some?
  }

  /** Whether an overdue claim must be reconciled before anything else. */
  predicate MustReconcile(row: Row) {
    (row.message == Claimed && row.binding == Starting) || (row.binding == NotStarted && EffectBegan(row.attempt))
  }

  /** A message the claim statement would pick when it is due. */
  predicate Candidate(row: Row) {
    (row.message == Available || row.message == Claimed)
    && row.binding != ReconciliationExhausted && row.binding != Rejected && row.binding != Withdrawn
  }

  /** `available`: the message may be taken now, or its claim has run out. */
  function ClaimNext(row: Row, available: bool): (Row, ClaimAnswer) {
    if !available || !Candidate(row) then (row, NothingDue)
    else if row.binding == NotStarted && row.attempt.Finished? && !row.attempt.effectStarted then
      (row.(message := Cancelled, binding := Withdrawn), NothingDue)
    else if MustReconcile(row) then
      var next := row.(message := Claimed, claims := row.claims + 1, binding := ReconciliationRequired);
      if BindingCheck(next) then (next, Granted) else (row, Faulted)
    else if row.attempt == Waiting || Open(row) then
      (row.(message := Claimed, claims := row.claims + 1), Granted)
    else (row, NothingDue)
  }

  /** A message goes back to pending, or was never marked, and its effect begins all the same. */
  predicate BegunWhilePending(row: Row) {
    Candidate(row) && row.binding == NotStarted && EffectBegan(row.attempt)
  }

  /** The claim statement fails exactly on a pending binding whose attempt has begun. */
  lemma ClaimFaultsIff(row: Row, available: bool)
    requires BindingCheck(row)
    ensures ClaimNext(row, available).1 == Faulted <==> available && BegunWhilePending(row)
    ensures ClaimNext(row, available).1 == Faulted ==> ClaimNext(row, available).0 == row
    ensures BindingCheck(ClaimNext(row, available).0)
  {
  }

  function MarkStartingAs(row: Row, claim: nat, adapterKey: string): (Row, bool) {
    if Holds(row, claim) && row.binding == NotStarted && row.attempt == Waiting
    then (row.(binding := Starting, adapter := Some(adapterKey)), true) else (row, false)
  }

  function RecordStartedBy(row: Row, claim: nat, adapterKey: string): (Row, bool) {
    if Holds(row, claim) && Open(row) && row.adapter == Some(adapterKey)
    then (row.(message := Dispatched, binding := Started), true) else (row, false)
  }

  function Reset(row: Row, claim: nat): (Row, bool) {
    if Holds(row, claim) && Open(row) && row.attempt == Waiting
    then (row.(message := Available, binding := NotStarted, adapter := None), true) else (row, false)
  }

  function RequireReconciliation(row: Row, claim: nat): (Row, bool) {
    if Holds(row, claim) && Open(row)
    then (row.(message := Available, binding := ReconciliationRequired), true) else (row, false)
  }

  function Reject(row: Row, claim: nat): (Row, bool) {
    if Holds(row, claim) && (row.binding == NotStarted || Open(row))
    then (row.(message := DeadLetter, binding := Rejected), true) else (row, false)
  }

  function Bury(row: Row, claim: nat): (Row, bool) {
    if Holds(row, claim) && row.binding != Started && row.binding != Withdrawn && row.binding != Rejected
    then (row.(message := DeadLetter,
               binding := if Open(row) then ReconciliationExhausted else Rejected), true)
    else (row, false)
  }

  /** Closing the attempt as not started: refused once the effect began or succeeded. */
  function CloseAttempt(row: Row, closes: bool): (Row, bool) {
    match row.attempt
    case Waiting => if closes then (row.(attempt := Finished(false, false)), true) else (row, false)
    case InProgress => (row, false)
    case Finished(_, succeeded) => (row, !succeeded)
  }

  // ----- The dispatcher between two port calls -----

  function ScheduleReconciliation(claim: nat, maxAttempts: nat): Pc {
    if claim >= maxAttempts then MarkDeadLetter else MarkReconciliation
  }

  function RetryLater(claim: nat, maxAttempts: nat): Pc {
    if claim >= maxAttempts then CloseThenReject else ResetPending
  }

  /** What a dispatcher does with a fresh claim of this row. */
  function AfterClaim(row: Row, adapterKey: string, effectAvailable: bool): Pc {
    if row.binding == NotStarted then
      if effectAvailable then MarkStarting else CloseUnavailable
    else if row.binding == ReconciliationExhausted then MarkDeadLetter
    else if row.adapter.Some? && row.adapter.value != adapterKey then MarkDeadLetter
    else Find
  }

  function AfterStart(claim: nat, maxAttempts: nat, answer: StartAnswer): Pc {
    match answer
    case Accepted => RecordStarted
    case AlreadyStarted => RecordStarted
    case StartUnknown => ScheduleReconciliation(claim, maxAttempts)
    case DefinitelyRejected(retryable) => if retryable then RetryLater(claim, maxAttempts) else CloseThenReject
  }

  function AfterFind(claim: nat, maxAttempts: nat, answer: FindAnswer): Pc {
    match answer
    case Found => RecordStarted
    case NotFound => RetryLater(claim, maxAttempts)
    case FindUnknown => ScheduleReconciliation(claim, maxAttempts)
  }

  function Report(update: (Row, bool), result: CycleResult): (Row, Pc) {
    (update.0, Done(if update.1 then result else ClaimLost))
  }

  /** One port call and the code after it. */
  function Act(row: Row, it: Dispatcher, maxAttempts: nat, answers: Answers): (Row, Pc) {
    match it.pc
    case MarkStarting =>
      var (next, applied) := MarkStartingAs(row, it.claim, it.adapterKey);
      (next, if applied then Start else Done(ClaimLost))
    case Start => (row, AfterStart(it.claim, maxAttempts, answers.start))
    case Find => (row, AfterFind(it.claim, maxAttempts, answers.find))
    case RecordStarted => Report(RecordStartedBy(row, it.claim, it.adapterKey), WasDispatched)
    case CloseUnavailable =>
      var (next, closed) := CloseAttempt(row, answers.closes);
      (next, if closed then MarkDeadLetter else ScheduleReconciliation(it.claim, maxAttempts))
    case CloseThenReject =>
      var (next, closed) := CloseAttempt(row, answers.closes);
      (next, if closed then RecordRejected else ScheduleReconciliation(it.claim, maxAttempts))
    case RecordRejected => Report(Reject(row, it.claim), WasRejected)
    case ResetPending => Report(Reset(row, it.claim), RetryScheduled)
    case MarkReconciliation => Report(RequireReconciliation(row, it.claim), ReconciliationScheduled)
    case MarkDeadLetter => Report(Bury(row, it.claim), WasDeadLettered)
    case Done(_) => (row, it.pc)
  }

  // ----- A cycle nobody interrupts -----

  function CallsLeft(pc: Pc): nat {
    match pc
    case MarkStarting => 4
    case Start => 3
    case Find => 3
    case CloseUnavailable => 2
    case CloseThenReject => 2
    case Done(_) => 0
    case _ => 1
  }

  function Finish(row: Row, it: Dispatcher, maxAttempts: nat, answers: Answers): (Row, CycleResult)
    decreases CallsLeft(it.pc)
  {
    if it.pc.Done? then (row, it.pc.result)
    else
      var (next, pc) := Act(row, it, maxAttempts, answers);
      Finish(next, it.(pc := pc), maxAttempts, answers)
  }

  /** One more port call of a cycle, then the rest of it. */
  lemma NextCall(row: Row, it: Dispatcher, maxAttempts: nat, answers: Answers)
    requires !it.pc.Done?
    ensures var (next, following) := Act(row, it, maxAttempts, answers);
            Finish(row, it, maxAttempts, answers) == Finish(next, it.(pc := following), maxAttempts, answers)
            && (following.Done? ==> Finish(row, it, maxAttempts, answers) == (next, following.result))
  {
  }

  /** One uninterrupted cycle: the claim and everything after it. */
  function Cycle(row: Row, adapterKey: string, effectAvailable: bool, maxAttempts: nat, answers: Answers)
    : (Row, CycleEnd)
  {
    var (claimed, answer) := ClaimNext(row, true);
    match answer
    case NothingDue => (claimed, Idle)
    case Faulted => (claimed, ClaimFault)
    case Granted =>
      var it := Dispatcher(claimed.claims, adapterKey, AfterClaim(claimed, adapterKey, effectAvailable));
      var (next, result) := Finish(claimed, it, maxAttempts, answers);
      (next, Ended(result))
  }

  predicate Settled(row: Row) {
    row.message != Available && row.message != Claimed
  }

  predicate Reachable(row: Row) {
    BindingCheck(row)
    && (row.message == Available || row.message == Claimed ==> row.binding == NotStarted || Open(row))
    && (row.message == Available ==> row.binding != Starting)
  }

  /** A dispatcher on its last attempt, with every update it may still make sure to apply. */
  predicate WillSettle(row: Row, it: Dispatcher, answers: Answers) {
    match it.pc
    case MarkStarting => row.binding == NotStarted && row.attempt == Waiting
    case Start => row.binding == Starting && row.adapter == Some(it.adapterKey)
    case Find => Open(row) && row.adapter == Some(it.adapterKey)
    case RecordStarted => Open(row) && row.adapter == Some(it.adapterKey)
    case ResetPending => false
    case MarkReconciliation => false
    case Done(_) => false
    case _ => row.binding == NotStarted || Open(row)
  }

  lemma {:induction false} FinishSettles(row: Row, it: Dispatcher, maxAttempts: nat, answers: Answers)
    requires Holds(row, it.claim) && it.claim >= maxAttempts && WillSettle(row, it, answers)
    ensures Settled(Finish(row, it, maxAttempts, answers).0)
    decreases CallsLeft(it.pc)
  {
    var (next, pc) := Act(row, it, maxAttempts, answers);
    if !pc.Done? {
      FinishSettles(next, it.(pc := pc), maxAttempts, answers);
    }
  }

  /**
   * An uninterrupted cycle on the last allowed claim, or later, settles the message,
   * unless the binding is still pending while the effect has begun: then the claim itself fails.
   */
  lemma LastCycleSettlesIff(row: Row, adapterKey: string, effectAvailable: bool, maxAttempts: nat, answers: Answers)
    requires Reachable(row) && row.claims + 1 >= maxAttempts
    ensures Settled(Cycle(row, adapterKey, effectAvailable, maxAttempts, answers).0) <==> !BegunWhilePending(row)
  {
    ClaimFaultsIff(row, true);
    var (claimed, answer) := ClaimNext(row, true);
    if answer == Granted {
      var it := Dispatcher(claimed.claims, adapterKey, AfterClaim(claimed, adapterKey, effectAvailable));
      FinishSettles(claimed, it, maxAttempts, answers);
    }
  }
}
