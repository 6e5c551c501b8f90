/**
 * The leaf callback: load, cross the durable start threshold, run the effect or only look it up,
 * and record what is known. Each port call is one step, so a worker may stop between any two.
 */
module LeafExecution {
  import opened Outcomes
  import opened Amounts
  import opened LeafStep
  import CanonicalHash

  datatype Outcome =
    | EffectSucceeded(value: Content, settlement: Settlement)
    | EffectFailed(retryable: bool, settlement: Settlement)

  datatype Lookup = FoundOutcome(proof: string, outcome: Outcome) | NotFound | LookupUnknown

  /** The answer of the output validator; a blank version makes the answer unusable. */
  datatype Verdict = Accepts(version: string) | Refuses | Unavailable

  datatype Followup = AfterStart(loaded: AttemptState) | AfterMark(finding: Option<Lookup>) | AfterLast

  /** What a worker does next. */
  datatype Pc =
    | Submit(input: Input, next: Followup)
    | Execute(version: nat)
    | LookUp(version: nat, inFlight: bool)
    | Validate(version: nat, value: Content, settlement: Settlement, proof: Option<string>)
    | Done

  datatype Worker = Worker(attempt: AttemptId, startKey: string, pc: Pc)

  datatype Execution = Execution(attempt: AttemptId, outcome: Option<Outcome>)

  datatype Finding = Finding(attempt: AttemptId, proof: string, outcome: Outcome)

  /** What the effect, the lookups and the validator have said so far. */
  datatype History = History(executions: seq<Execution>, findings: seq<Finding>, accepted: seq<Content>,
                             refused: seq<Content>)

  datatype World = World(durable: Durable, workers: map<nat, Worker>, history: History)

  datatype Event =
    | Deliver(worker: nat, attempt: AttemptId, startKey: string)
    | DeliverNotStarted(worker: nat, attempt: AttemptId, startKey: string, retryable: bool)
    | Transaction(worker: nat, parentAllows: bool)
    | RunEffect(worker: nat, outcome: Option<Outcome>)
    | AskEffect(worker: nat, lookup: Lookup)
    | AskValidator(worker: nat, verdict: Verdict)
    | Crash(worker: nat)
    | Claim(attempt: AttemptId, reserved: real, unit: string)
    | RunChanges(run: RunState)
    | Tick(now: int)

  function CommandKey(startKey: string, command: string): string {
    "leaf:" + startKey + ":" + command
  }

  predicate Terminal(s: AttemptState) {
    !IsOpen(s)
  }

  // ----- The code between two port calls -----

  function AfterLoad(d: Durable, id: AttemptId, startKey: string): Pc {
    var found := Find(d.step.attempts, id);
    if startKey == "" || found.None? then Done
    else
      var a, version := found.value, d.step.version;
      if a.state == FailedRetryable && d.step.state == Retryable then
        Submit(Input(id, CommandKey(startKey, "authorize-retry"), version, AuthorizeRetry), AfterLast)
      else if Terminal(a.state) then Done
      else if a.state == Ambiguous then LookUp(version, false)
      else Submit(Input(id, CommandKey(startKey, "start-effect"), version, StartEffect), AfterStart(a.state))
  }

  /** The dispatcher's report that the effect of an attempt never began. */
  function AfterLoadNotStarted(d: Durable, id: AttemptId, startKey: string, retryable: bool): Pc {
    var found := Find(d.step.attempts, id);
    if found.None? then Done
    else
      var a, version := found.value, d.step.version;
      if a.state == FailedTerminal || a.state == CancelledBeforeEffect then Done
      else if a.state == FailedRetryable then
        if d.step.state != Retryable then Done
        else Submit(Input(id, CommandKey(startKey, "authorize-retry"), version, AuthorizeRetry), AfterLast)
      else if d.run == Cancelling then
        Submit(Input(id, CommandKey(startKey, "cancel-before-effect"), version, CancelBeforeEffect), AfterLast)
      else
        Submit(Input(id, CommandKey(startKey, "not-started"), version, RecordNotStarted(retryable)), AfterLast)
  }

  function AfterThreshold(id: AttemptId, step: StepRun): Pc {
    var found := Find(step.attempts, id);
    if found.None? || (Terminal(found.value.state) && found.value.state != Ambiguous) then Done
    else LookUp(step.version, found.value.state == InFlight)
  }

  function AfterTransaction(id: AttemptId, startKey: string, input: Input, next: Followup, answer: Answer,
                            plan: Plan): Pc {
    match next
    case AfterLast => Done
    case AfterStart(loaded) =>
      if answer.Applied? then
        if answer.permission == Granted then Execute(answer.step.version) else AfterThreshold(id, answer.step)
      else if loaded == Claimed && answer.code == DeadlineElapsed then
        Submit(Input(id, CommandKey(startKey, "not-started"), input.version, RecordNotStarted(false)), AfterLast)
      else if loaded == Claimed && answer.code == RunNotRunning then
        Submit(Input(id, CommandKey(startKey, "cancel-before-effect"), input.version, CancelBeforeEffect), AfterLast)
      else Done
    case AfterMark(finding) =>
      if answer.Rejected? || finding.None? then Done
      else AfterAmbiguous(id, startKey, answer.step.version, finding.value, plan)
  }

  function MarkThen(id: AttemptId, startKey: string, version: nat, finding: Option<Lookup>): Pc {
    Submit(Input(id, CommandKey(startKey, "ambiguous"), version, MarkAmbiguous), AfterMark(finding))
  }

  function ResolveWith(id: AttemptId, startKey: string, version: nat, proof: string, outcome: Resolution,
                       settlement: Settlement, output: Option<Output>): Pc {
    Submit(Input(id, CommandKey(startKey, "resolve:" + proof), version,
                 ResolveAmbiguity(outcome, proof, settlement, output)), AfterLast)
  }

  function AfterAmbiguous(id: AttemptId, startKey: string, version: nat, lookup: Lookup, plan: Plan): Pc {
    match lookup
    case FoundOutcome(proof, EffectSucceeded(value, settlement)) =>
      if plan.uniqueSink then Validate(version, value, settlement, Some(proof))
      else ResolveWith(id, startKey, version, proof, ToSucceeded, settlement, None)
    case FoundOutcome(proof, EffectFailed(retryable, settlement)) =>
      ResolveWith(id, startKey, version, proof, if retryable then ToFailedRetryable else ToFailedTerminal,
                  settlement, None)
    case _ => Done
  }

  function AfterLookup(id: AttemptId, startKey: string, version: nat, inFlight: bool, lookup: Lookup, plan: Plan): Pc {
    if inFlight then MarkThen(id, startKey, version, Some(lookup))
    else AfterAmbiguous(id, startKey, version, lookup, plan)
  }

  function Record(id: AttemptId, startKey: string, version: nat, name: string, c: Command): Pc {
    Submit(Input(id, CommandKey(startKey, name), version, c), AfterLast)
  }

  /** `None` is an unknown outcome: the effect said so, or the call failed. */
  function AfterEffect(id: AttemptId, startKey: string, version: nat, outcome: Option<Outcome>, plan: Plan): Pc {
    match outcome
    case None => MarkThen(id, startKey, version, None)
    case Some(EffectFailed(retryable, settlement)) =>
      Record(id, startKey, version, "failed", RecordFailure(retryable, settlement))
    case Some(EffectSucceeded(value, settlement)) =>
      if plan.uniqueSink then Validate(version, value, settlement, None)
      else Record(id, startKey, version, "succeeded", RecordSucceeded(settlement, None))
  }

  datatype Prepared = Usable(output: Output) | Unacceptable | Unprepared

  function PrepareSinkOutput(plan: Plan, id: AttemptId, value: Content, verdict: Verdict): (p: Prepared)
    ensures p.Usable? ==> IsArtifactOf(plan, p.output.artifact, value) && p.output.value == value
                          && p.output.artifact.attempt == id && verdict.Accepts?
    ensures p == Unacceptable <==> verdict == Refuses
  {
    match verdict
    case Refuses => Unacceptable
    case Unavailable => Unprepared
    case Accepts(version) =>
      if Blank(version) then Unprepared
      else
        var hash := CanonicalHash.CanonicalContentHash(value, plan.digest);
        var size := CanonicalHash.CanonicalContentByteSize(value);
        if hash.Err? || size.Err? then Unprepared
        else Usable(Output(Artifact(id, hash.value, size.value), value))
  }

  function AfterValidation(id: AttemptId, startKey: string, version: nat, settlement: Settlement,
                           proof: Option<string>, prepared: Prepared): Pc {
    match proof
    case None =>
      (match prepared
       case Usable(output) => Record(id, startKey, version, "succeeded", RecordSucceeded(settlement, Some(output)))
       case Unacceptable => Record(id, startKey, version, "failed", RecordFailure(false, settlement))
       case Unprepared => MarkThen(id, startKey, version, None))
    case Some(proofId) =>
      (match prepared
       case Usable(output) =>
         ResolveWith(id, startKey, version, proofId, ToSucceeded, settlement, Some(output))
       case Unacceptable =>
         ResolveWith(id, startKey, version, proofId, ToFailedTerminal, settlement, None)
       case Unprepared => Done)
  }

  // ----- One step of the world -----

  function Advance(w: World, k: nat, pc: Pc): World
    requires k in w.workers
  {
    w.(workers := w.workers[k := w.workers[k].(pc := pc)])
  }

  /** Every interleaving of deliveries, recoveries, crashes and claims is a sequence of events. */
  function Step(plan: Plan, w: World, e: Event): World {
    match e
    case Deliver(k, id, startKey) =>
      if k in w.workers then w
      else w.(workers := w.workers[k := Worker(id, startKey, AfterLoad(w.durable, id, startKey))])
    case DeliverNotStarted(k, id, startKey, retryable) =>
      if k in w.workers then w
      else w.(workers := w.workers[k := Worker(id, startKey, AfterLoadNotStarted(w.durable, id, startKey, retryable))])
    case Transaction(k, parentAllows) =>
      if k !in w.workers || !w.workers[k].pc.Submit? then w
      else
        var it := w.workers[k];
        var (d, answer) := Transact(plan, w.durable, it.pc.input, parentAllows);
        Advance(w.(durable := d), k, AfterTransaction(it.attempt, it.startKey, it.pc.input, it.pc.next, answer, plan))
    case RunEffect(k, outcome) =>
      if k !in w.workers || !w.workers[k].pc.Execute? then w
      else
        var it := w.workers[k];
        var log := w.history.executions + [Execution(it.attempt, outcome)];
        Advance(w.(history := w.history.(executions := log)), k,
                AfterEffect(it.attempt, it.startKey, it.pc.version, outcome, plan))
    case AskEffect(k, lookup) =>
      if k !in w.workers || !w.workers[k].pc.LookUp? then w
      else
        var it := w.workers[k];
        var log := if lookup.FoundOutcome?
                   then w.history.findings + [Finding(it.attempt, lookup.proof, lookup.outcome)]
                   else w.history.findings;
        Advance(w.(history := w.history.(findings := log)), k,
                AfterLookup(it.attempt, it.startKey, it.pc.version, it.pc.inFlight, lookup, plan))
    case AskValidator(k, verdict) =>
      if k !in w.workers || !w.workers[k].pc.Validate? then w
      else
        var it := w.workers[k];
        var prepared := PrepareSinkOutput(plan, it.attempt, it.pc.value, verdict);
        var accepted := if verdict.Accepts? then w.history.accepted + [it.pc.value] else w.history.accepted;
        var refused := if verdict == Refuses then w.history.refused + [it.pc.value] else w.history.refused;
        Advance(w.(history := w.history.(accepted := accepted, refused := refused)), k,
                AfterValidation(it.attempt, it.startKey, it.pc.version, it.pc.settlement, it.pc.proof, prepared))
    case Crash(k) => w.(workers := w.workers - {k})
    case Claim(id, reserved, unit) => w.(durable := ClaimAttempt(w.durable, id, reserved, unit))
    case RunChanges(run) => w.(durable := w.durable.(run := run))
    case Tick(now) => w.(durable := w.durable.(now := now))
  }

  const Initial: World := World(Created, map[], History([], [], [], []))

  function Run(plan: Plan, w: World, events: seq<Event>): World
    decreases |events|
  {
    if events == [] then w else Run(plan, Step(plan, w, events[0]), events[1..])
  }
}
