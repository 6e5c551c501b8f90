/**
 * A step run, its attempts and the durable transition every caller goes through:
 * a command journal, an aggregate version and the cost reservation of each attempt.
 */
module LeafStep {
  import opened Outcomes
  import opened Amounts
  import opened JsonText
  import opened JsonCanonical
  import CanonicalHash
  import Utf8

  type AttemptId = string

  /** A normalized JSON value. */
  type Content = v: Value | Regular(v) witness Null

  datatype AttemptState =
    | Claimed
    | InFlight
    | Ambiguous
    | Succeeded
    | FailedRetryable
    | FailedTerminal
    | CancelledBeforeEffect

  datatype StepState = Ready | Active | InDoubt | Retryable | Completed | Failed | Cancelled

  datatype Artifact = Artifact(attempt: AttemptId, contentHash: Text, sizeBytes: nat)

  datatype Output = Output(artifact: Artifact, value: Content)

  datatype Attempt = Attempt(
    id: AttemptId,
    reserved: real,
    unit: string,
    state: AttemptState,
    effectStarted: bool,
    output: Option<Artifact>)

  datatype StepRun = StepRun(
    state: StepState,
    version: nat,
    active: Option<AttemptId>,
    attempts: seq<Attempt>)

  datatype Settlement = Release | Settle(amount: real, unit: string, entry: string)

  datatype Reservation = Reserved | Released | Settled(amount: real, entry: string)

  datatype Resolution = ToSucceeded | ToFailedRetryable | ToFailedTerminal

  datatype Command =
    | StartEffect
    | RecordSucceeded(settlement: Settlement, output: Option<Output>)
    | RecordFailure(retryable: bool, settlement: Settlement)
    | RecordNotStarted(retryable: bool)
    | AuthorizeRetry
    | MarkAmbiguous
    | ResolveAmbiguity(outcome: Resolution, proof: string, settlement: Settlement, output: Option<Output>)
    | CancelBeforeEffect

  datatype Input = Input(attempt: AttemptId, key: string, version: nat, command: Command)

  datatype Journaled = Journaled(attempt: AttemptId, command: Command)

  datatype RunState = Running | Cancelling | Closed

  /** What is fixed for the life of the step. */
  datatype Plan = Plan(
    maxAttempts: nat,
    deadline: int,
    admitted: bool,
    uniqueSink: bool,
    digest: Utf8.Bytes -> Utf8.Bytes)

  datatype Durable = Durable(
    step: StepRun,
    journal: map<string, Journaled>,
    ledger: map<AttemptId, Reservation>,
    run: RunState,
    now: int)

  datatype Rejection = DeadlineElapsed | RunNotRunning | NotAllowed

  datatype Permission = Granted | ReplayOnly | NotApplicable

  datatype Answer = Applied(permission: Permission, step: StepRun) | Rejected(code: Rejection)

  // ----- The aggregate -----

  predicate IsOpen(s: AttemptState) {
    s == Claimed || s == InFlight || s == Ambiguous
  }

  predicate UniqueIds(attempts: seq<Attempt>) {
    forall i, j :: 0 <= i < j < |attempts| ==> attempts[i].id != attempts[j].id
  }

  function Find(attempts: seq<Attempt>, id: AttemptId): (r: Option<Attempt>)
    ensures r.Some? ==> r.value in attempts && r.value.id == id
    ensures r.None? ==> forall a <- attempts :: a.id != id
  {
    if attempts == [] then None
    else if attempts[0].id == id then Some(attempts[0])
    else Find(attempts[1..], id)
  }

  function Replace(attempts: seq<Attempt>, next: Attempt): (r: seq<Attempt>)
    ensures |r| == |attempts|
    ensures forall i :: 0 <= i < |r| ==> r[i] == if attempts[i].id == next.id then next else attempts[i]
  {
    seq(|attempts|, i requires 0 <= i < |attempts| => if attempts[i].id == next.id then next else attempts[i])
  }

  predicate SettlementMatches(a: Attempt, s: Settlement) {
    s.Release? || (s.unit == a.unit && IsAmount(s.amount) && IsAmount(a.reserved - s.amount)
                   && AmountsEqual(s.amount + (a.reserved - s.amount), a.reserved))
  }

  function FailedState(retry: bool): AttemptState {
    if retry then FailedRetryable else FailedTerminal
  }

  /** The state-changing part of a step command: the next aggregate, or nothing when it is not allowed. */
  function PlanTransition(step: StepRun, id: AttemptId, c: Command, retryAuthorized: bool): Option<StepRun> {
    var found := Find(step.attempts, id);
    if found.None? then None
    else
      var a := found.value;
      var activeIn := (s: AttemptState) => step.active == Some(id) && a.state == s;
      var settle := (next: Attempt, state: StepState, active: Option<AttemptId>) =>
        Some(StepRun(state, step.version + 1, active, Replace(step.attempts, next)));
      match c
      case StartEffect =>
        if step.state == Active && activeIn(Claimed)
        then settle(a.(state := InFlight, effectStarted := true), Active, Some(id)) else None
      case RecordSucceeded(s, output) =>
        if step.state == Active && activeIn(InFlight) && s.Settle? && SettlementMatches(a, s)
        then settle(a.(state := Succeeded, output := Reference(output)), Completed, None) else None
      case RecordFailure(retryable, s) =>
        if step.state == Active && activeIn(InFlight) && SettlementMatches(a, s)
        then
          var retry := retryable && retryAuthorized;
          settle(a.(state := FailedState(retry)), if retry then Ready else Failed, None)
        else None
      case RecordNotStarted(retryable) =>
        if step.state == Active && activeIn(Claimed)
        then
          var retry := retryable && retryAuthorized;
          settle(a.(state := FailedState(retry)), if retry then Ready else Failed, None)
        else None
      case AuthorizeRetry =>
        if step.state == Retryable && step.active.None? && step.attempts[|step.attempts| - 1] == a
           && a.state == FailedRetryable
        then Some(step.(state := if retryAuthorized then Ready else Failed, version := step.version + 1))
        else None
      case MarkAmbiguous =>
        if step.state == Active && activeIn(InFlight)
        then settle(a.(state := Ambiguous), InDoubt, Some(id)) else None
      case ResolveAmbiguity(outcome, proof, s, output) =>
        if step.state == InDoubt && activeIn(Ambiguous) && !Blank(proof) && SettlementMatches(a, s)
           && (outcome == ToSucceeded ==> s.Settle?) && (outcome != ToSucceeded ==> output.None?)
        then
          var retry := outcome == ToFailedRetryable && retryAuthorized;
          if outcome == ToSucceeded
          then settle(a.(state := Succeeded, output := Reference(output)), Completed, None)
          else settle(a.(state := FailedState(retry)), if retry then Ready else Failed, None)
        else None
      case CancelBeforeEffect =>
        if step.state == Active && activeIn(Claimed)
        then settle(a.(state := CancelledBeforeEffect), Cancelled, None) else None
  }

  function Reference(output: Option<Output>): Option<Artifact> {
    if output.Some? then Some(output.value.artifact) else None
  }

  // ----- The transaction -----

  function SettlementOf(c: Command): Option<Settlement> {
    match c
    case RecordSucceeded(s, _) => Some(s)
    case RecordFailure(_, s) => Some(s)
    case RecordNotStarted(_) => Some(Release)
    case ResolveAmbiguity(_, _, s, _) => Some(s)
    case CancelBeforeEffect => Some(Release)
    case _ => None
  }

  function OutputOf(c: Command): Option<Output> {
    match c
    case RecordSucceeded(_, output) => output
    case ResolveAmbiguity(_, _, _, output) => output
    case _ => None
  }

  /** The artifact carries the hash and the byte size of the value it stands for. */
  predicate IsArtifactOf(plan: Plan, a: Artifact, value: Content) {
    CanonicalHash.CanonicalContentHash(value, plan.digest) == Ok(a.contentHash)
    && CanonicalHash.CanonicalContentByteSize(value) == Ok(a.sizeBytes)
  }

  predicate WellFormedInput(plan: Plan, c: Command) {
    var s, output := SettlementOf(c), OutputOf(c);
    (s.Some? && s.value.Settle? ==> !Blank(s.value.unit) && IsAmount(s.value.amount))
    && (c.ResolveAmbiguity? && c.outcome == ToSucceeded ==> c.settlement.Settle?)
    && (output.Some? ==> IsArtifactOf(plan, output.value.artifact, output.value.value))
    && (c.ResolveAmbiguity? && c.outcome != ToSucceeded ==> c.output.None?)
  }

  predicate ContextAllows(plan: Plan, d: Durable, a: Attempt, c: Command) {
    var s, output := SettlementOf(c), OutputOf(c);
    (c.CancelBeforeEffect? ==> d.run == Cancelling)
    && (output.Some? ==> plan.uniqueSink && output.value.artifact.attempt == a.id)
    && (s.Some? && s.value.Settle? ==> AtMost(s.value.amount, a.reserved))
  }

  /** Why a new effect may not begin, in the order the conditions are checked. */
  function WindowFailure(plan: Plan, d: Durable): Option<Rejection> {
    if d.run != Running then Some(RunNotRunning)
    else if d.now >= plan.deadline then Some(DeadlineElapsed)
    else if !plan.admitted then Some(NotAllowed)
    else None
  }

  /** The cost ledger: a reservation settles once, and repeating the same settlement is harmless. */
  function SettleReservation(r: Reservation, s: Settlement): Option<Reservation> {
    match s
    case Release => if r == Reserved || r == Released then Some(Released) else None
    case Settle(amount, _, entry) =>
      if r == Reserved || r == Settled(amount, entry) then Some(Settled(amount, entry)) else None
  }

  function RetryAuthorized(plan: Plan, d: Durable): bool {
    d.run == Running && d.now < plan.deadline
    && 1 <= plan.maxAttempts <= 100 && |d.step.attempts| < plan.maxAttempts
  }

  /** A command that is not in the journal; `parentAllows` is the answer of the parent projection. */
  function Fresh(plan: Plan, d: Durable, input: Input, a: Attempt, parentAllows: bool): (Durable, Answer) {
    var c := input.command;
    var retry := RetryAuthorized(plan, d);
    var window := WindowFailure(plan, d);
    if !ContextAllows(plan, d, a, c) then (d, Rejected(NotAllowed))
    else if (c.StartEffect? || (c.AuthorizeRetry? && retry)) && window.Some? then (d, Rejected(window.value))
    else if input.version != d.step.version then (d, Rejected(NotAllowed))
    else
      var next := PlanTransition(d.step, input.attempt, c, retry);
      if next.None? || ((c.StartEffect? || c.MarkAmbiguous?) && !parentAllows) then (d, Rejected(NotAllowed))
      else
        var s := SettlementOf(c);
        var settled := if s.None? then None
                       else if a.id in d.ledger then SettleReservation(d.ledger[a.id], s.value) else None;
        if s.Some? && settled.None? then (d, Rejected(NotAllowed))
        else
          (d.(step := next.value,
              journal := d.journal[input.key := Journaled(input.attempt, c)],
              ledger := if s.None? then d.ledger else d.ledger[a.id := settled.value]),
           Applied(if c.StartEffect? then Granted else NotApplicable, next.value))
  }

  function Transact(plan: Plan, d: Durable, input: Input, parentAllows: bool): (Durable, Answer) {
    var found := Find(d.step.attempts, input.attempt);
    if !WellFormedInput(plan, input.command) || found.None? then (d, Rejected(NotAllowed))
    else if input.key in d.journal then
      if d.journal[input.key] == Journaled(input.attempt, input.command)
      then (d, Applied(if input.command.StartEffect? then ReplayOnly else NotApplicable, d.step))
      else (d, Rejected(NotAllowed))
    else Fresh(plan, d, input, found.value, parentAllows)
  }

  /** A new attempt with a fresh identifier and its reservation. */
  function ClaimAttempt(d: Durable, id: AttemptId, reserved: real, unit: string): Durable {
    if d.step.state != Ready || d.step.active.Some? || Blank(unit) || !IsAmount(reserved)
       || Find(d.step.attempts, id).Some? || id in d.ledger then d
    else
      d.(step := StepRun(Active, d.step.version + 1, Some(id),
                         d.step.attempts + [Attempt(id, reserved, unit, Claimed, false, None)]),
         ledger := d.ledger[id := Reserved])
  }

  const Created: Durable := Durable(StepRun(Ready, 0, None, []), map[], map[], Running, 0)
}
