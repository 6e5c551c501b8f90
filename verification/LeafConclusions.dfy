/** What a reported outcome leaves of an attempt, at a sink and elsewhere, on the first delivery and in recovery. */
module LeafConclusions {
  import opened Outcomes
  import opened Amounts
  import opened LeafStep
  import opened LeafExecution
  import opened LeafSafety
  import opened LeafTheorems
  import opened LeafLifecycle

  /** A sink succeeds with a usable output, fails on a refused value, and stays in doubt without a verdict. */
  function ExpectedState(plan: Plan, id: AttemptId, o: Outcome, verdict: Verdict, retry: bool): AttemptState {
    if o.EffectFailed? then FailedState(o.retryable && retry)
    else if !plan.uniqueSink then Succeeded
    else
      match PrepareSinkOutput(plan, id, o.value, verdict)
      case Usable(_) => Succeeded
      case Unacceptable => FailedTerminal
      case Unprepared => Ambiguous
  }

  function SinkArtifact(plan: Plan, id: AttemptId, o: Outcome, verdict: Verdict): Option<Artifact> {
    if o.EffectFailed? || !plan.uniqueSink then None
    else
      var prepared := PrepareSinkOutput(plan, id, o.value, verdict);
      if prepared.Usable? then Some(prepared.output.artifact) else None
  }

  /** Attempt and step are as the outcome and the verdict say, with the money settled, or still reserved while in doubt. */
  ghost predicate Reflects(plan: Plan, d: Durable, a: Attempt, o: Outcome, verdict: Verdict, retry: bool) {
    var state := ExpectedState(plan, a.id, o, verdict, retry);
    Find(d.step.attempts, a.id)
    == Some(a.(state := state,
               output := if state == Succeeded then SinkArtifact(plan, a.id, o, verdict) else a.output))
    && d.step.state == StepAfter(state)
    && a.id in d.ledger && d.ledger[a.id] == if state == Ambiguous then Reserved else Charge(o.settlement)
  }

  /** An outcome the step aggregate can charge. */
  ghost predicate Acceptable(a: Attempt, o: Outcome) {
    Chargeable(a, o.settlement) && (o.EffectSucceeded? ==> o.settlement.Settle?)
  }

  // ----- An executed effect -----

  function FreshCommand(plan: Plan, id: AttemptId, o: Outcome, verdict: Verdict): Command {
    match o
    case EffectFailed(retryable, s) => RecordFailure(retryable, s)
    case EffectSucceeded(value, s) =>
      if !plan.uniqueSink then RecordSucceeded(s, None)
      else
        match PrepareSinkOutput(plan, id, value, verdict)
        case Usable(output) => RecordSucceeded(s, Some(output))
        case Unacceptable => RecordFailure(false, s)
        case Unprepared => MarkAmbiguous
  }

  function FreshName(c: Command): string {
    if c.RecordSucceeded? then "succeeded" else if c.RecordFailure? then "failed" else "ambiguous"
  }

  /** The effect and, at a sink, the validator have answered; the next call submits what they said. */
  lemma OutcomeIsSubmitted(plan: Plan, w: World, k: nat, a: Attempt, startKey: string, o: Outcome, verdict: Verdict)
    requires k in w.workers && w.workers[k] == Worker(a.id, startKey, Execute(w.durable.step.version))
    ensures var w2 := Step(plan, Step(plan, w, RunEffect(k, Some(o))), AskValidator(k, verdict));
            var c := FreshCommand(plan, a.id, o, verdict);
            w2.durable == w.durable && k in w2.workers
            && w2.history.executions == w.history.executions + [Execution(a.id, Some(o))]
            && w2.workers[k] == Worker(a.id, startKey,
                                       Submit(Input(a.id, CommandKey(startKey, FreshName(c)), w.durable.step.version, c),
                                              if c.MarkAmbiguous? then AfterMark(None) else AfterLast))
  {
  }

  lemma SubmittedIsRecorded(plan: Plan, w: World, k: nat, a: Attempt, startKey: string, o: Outcome, verdict: Verdict)
    requires UniqueIds(w.durable.step.attempts) && InFlightNow(w.durable, a) && Acceptable(a, o) && k in w.workers
    requires var c := FreshCommand(plan, a.id, o, verdict);
             CommandKey(startKey, FreshName(c)) !in w.durable.journal
             && w.workers[k] == Worker(a.id, startKey,
                                       Submit(Input(a.id, CommandKey(startKey, FreshName(c)), w.durable.step.version, c),
                                              if c.MarkAmbiguous? then AfterMark(None) else AfterLast))
    ensures var w' := Step(plan, w, Transaction(k, true));
            Reflects(plan, w'.durable, a, o, verdict, MayRetry(plan, w.durable))
            && w'.history == w.history && k in w'.workers && w'.workers[k].pc == Done
  {
    if FreshCommand(plan, a.id, o, verdict).MarkAmbiguous? {
      DoubtIsMarked(plan, w, k, a, startKey, o, verdict);
    } else {
      ConclusionIsRecorded(plan, w, k, a, startKey, o, verdict);
    }
  }

  lemma DoubtIsMarked(plan: Plan, w: World, k: nat, a: Attempt, startKey: string, o: Outcome, verdict: Verdict)
    requires UniqueIds(w.durable.step.attempts) && InFlightNow(w.durable, a) && k in w.workers
    requires FreshCommand(plan, a.id, o, verdict) == MarkAmbiguous && CommandKey(startKey, "ambiguous") !in w.durable.journal
    requires w.workers[k] == Worker(a.id, startKey, MarkThen(a.id, startKey, w.durable.step.version, None))
    ensures var w' := Step(plan, w, Transaction(k, true));
            Reflects(plan, w'.durable, a, o, verdict, MayRetry(plan, w.durable))
            && w'.history == w.history && k in w'.workers && w'.workers[k].pc == Done
  {
    MarkApplies(plan, w.durable, a, CommandKey(startKey, "ambiguous"));
  }

  /** The transaction of a worker that is done afterwards. */
  lemma LastTransaction(plan: Plan, w: World, k: nat, id: AttemptId, startKey: string, name: string, c: Command)
    requires k in w.workers
    requires w.workers[k] == Worker(id, startKey, Record(id, startKey, w.durable.step.version, name, c))
    ensures var w' := Step(plan, w, Transaction(k, true));
            w'.durable
            == Transact(plan, w.durable, Input(id, CommandKey(startKey, name), w.durable.step.version, c), true).0
            && w'.history == w.history && k in w'.workers && w'.workers[k].pc == Done
  {
  }

  lemma ConclusionIsRecorded(plan: Plan, w: World, k: nat, a: Attempt, startKey: string, o: Outcome, verdict: Verdict)
    requires UniqueIds(w.durable.step.attempts) && InFlightNow(w.durable, a) && Acceptable(a, o) && k in w.workers
    requires var c := FreshCommand(plan, a.id, o, verdict);
             !c.MarkAmbiguous? && CommandKey(startKey, FreshName(c)) !in w.durable.journal
             && w.workers[k] == Worker(a.id, startKey,
                                       Record(a.id, startKey, w.durable.step.version, FreshName(c), c))
    ensures var w' := Step(plan, w, Transaction(k, true));
            Reflects(plan, w'.durable, a, o, verdict, MayRetry(plan, w.durable))
            && w'.history == w.history && k in w'.workers && w'.workers[k].pc == Done
  {
    var c := FreshCommand(plan, a.id, o, verdict);
    LastTransaction(plan, w, k, a.id, startKey, FreshName(c), c);
    ConclusionApplies(plan, w.durable, a, CommandKey(startKey, FreshName(c)), c);
    ConclusionReflects(plan, a, o, verdict, RetryAuthorized(plan, w.durable));
  }

  lemma ConclusionReflects(plan: Plan, a: Attempt, o: Outcome, verdict: Verdict, retry: bool)
    requires !FreshCommand(plan, a.id, o, verdict).MarkAmbiguous?
    ensures var c, state := FreshCommand(plan, a.id, o, verdict), ExpectedState(plan, a.id, o, verdict, retry);
            NextAttempt(a, c, retry)
            == a.(state := state, output := if state == Succeeded then SinkArtifact(plan, a.id, o, verdict) else a.output)
            && SettlementOf(c) == Some(o.settlement) && state != Ambiguous
  {
  }

  // ----- A looked-up effect -----

  function ResolveCommand(plan: Plan, id: AttemptId, o: Outcome, verdict: Verdict, proof: string): Option<Command> {
    match o
    case EffectFailed(retryable, s) =>
      Some(ResolveAmbiguity(if retryable then ToFailedRetryable else ToFailedTerminal, proof, s, None))
    case EffectSucceeded(value, s) =>
      if !plan.uniqueSink then Some(ResolveAmbiguity(ToSucceeded, proof, s, None))
      else
        match PrepareSinkOutput(plan, id, value, verdict)
        case Usable(output) => Some(ResolveAmbiguity(ToSucceeded, proof, s, Some(output)))
        case Unacceptable => Some(ResolveAmbiguity(ToFailedTerminal, proof, s, None))
        case Unprepared => None
  }

  /** What a lookup found of an attempt in doubt is recorded exactly. */
  lemma FoundIsResolved(plan: Plan, w: World, k: nat, a: Attempt, startKey: string, proof: string, o: Outcome,
                        verdict: Verdict)
    requires UniqueIds(w.durable.step.attempts) && InDoubtNow(w.durable, a) && Acceptable(a, o) && !Blank(proof)
    requires k in w.workers
    requires w.workers[k] == Worker(a.id, startKey, AfterAmbiguous(a.id, startKey, w.durable.step.version,
                                                                   FoundOutcome(proof, o), plan))
    requires CommandKey(startKey, "resolve:" + proof) !in w.durable.journal
    ensures var w' := Step(plan, Step(plan, w, AskValidator(k, verdict)), Transaction(k, true));
            Reflects(plan, w'.durable, a, o, verdict, MayRetry(plan, w.durable))
            && w'.history.executions == w.history.executions && k in w'.workers && w'.workers[k].pc == Done
  {
    var w1 := Step(plan, w, AskValidator(k, verdict));
    var c := ResolveCommand(plan, a.id, o, verdict, proof);
    assert w1.durable == w.durable;
    if c.None? {
      assert w1.workers[k].pc == Done;
    } else {
      assert w1.workers[k].pc == Record(a.id, startKey, w.durable.step.version, "resolve:" + proof, c.value);
      LastTransaction(plan, w1, k, a.id, startKey, "resolve:" + proof, c.value);
      ConclusionApplies(plan, w.durable, a, CommandKey(startKey, "resolve:" + proof), c.value);
      ResolutionReflects(plan, a, o, verdict, proof, RetryAuthorized(plan, w.durable));
    }
  }

  lemma ResolutionReflects(plan: Plan, a: Attempt, o: Outcome, verdict: Verdict, proof: string, retry: bool)
    requires ResolveCommand(plan, a.id, o, verdict, proof).Some?
    ensures var c, state := ResolveCommand(plan, a.id, o, verdict, proof).value, ExpectedState(plan, a.id, o, verdict, retry);
            NextAttempt(a, c, retry)
            == a.(state := state, output := if state == Succeeded then SinkArtifact(plan, a.id, o, verdict) else a.output)
            && SettlementOf(c) == Some(o.settlement) && state != Ambiguous
  {
  }

  lemma FoundIsMarked(plan: Plan, w: World, k: nat, a: Attempt, startKey: string, proof: string, o: Outcome)
    requires UniqueIds(w.durable.step.attempts) && InFlightNow(w.durable, a)
    requires k in w.workers && w.workers[k] == Worker(a.id, startKey, LookUp(w.durable.step.version, true))
    requires CommandKey(startKey, "ambiguous") !in w.durable.journal
    ensures var w2 := Step(plan, Step(plan, w, AskEffect(k, FoundOutcome(proof, o))), Transaction(k, true));
            InDoubtNow(w2.durable, a.(state := Ambiguous)) && UniqueIds(w2.durable.step.attempts)
            && RetryAuthorized(plan, w2.durable) == RetryAuthorized(plan, w.durable)
            && w2.durable.journal == w.durable.journal[CommandKey(startKey, "ambiguous") := Journaled(a.id, LeafStep.MarkAmbiguous)]
            && k in w2.workers
            && w2.workers[k] == Worker(a.id, startKey, AfterAmbiguous(a.id, startKey, w2.durable.step.version,
                                                                      FoundOutcome(proof, o), plan))
            && w2.history.executions == w.history.executions
  {
    MarkApplies(plan, w.durable, a, CommandKey(startKey, "ambiguous"));
  }

  /**
   * A recovery delivery of an attempt left in flight finds its start recorded, looks the effect up, marks the
   * attempt ambiguous and records exactly what the lookup found and the validator said, without executing.
   */
  lemma RecoveryConcludes(plan: Plan, w: World, k: nat, a: Attempt, startKey: string, proof: string, o: Outcome,
                          verdict: Verdict)
    requires UniqueIds(w.durable.step.attempts) && k !in w.workers && startKey != ""
    requires InFlightNow(w.durable, a) && Acceptable(a, o) && !Blank(proof)
    requires CommandKey(startKey, "start-effect") in w.durable.journal
    requires w.durable.journal[CommandKey(startKey, "start-effect")] == Journaled(a.id, StartEffect)
    requires CommandKey(startKey, "ambiguous") !in w.durable.journal
    requires CommandKey(startKey, "resolve:" + proof) !in w.durable.journal
    ensures var w2 := Step(plan, Step(plan, w, Deliver(k, a.id, startKey)), Transaction(k, true));
            var w4 := Step(plan, Step(plan, w2, AskEffect(k, FoundOutcome(proof, o))), Transaction(k, true));
            var w6 := Step(plan, Step(plan, w4, AskValidator(k, verdict)), Transaction(k, true));
            Reflects(plan, w6.durable, a, o, verdict, MayRetry(plan, w.durable))
            && w6.history.executions == w.history.executions && k in w6.workers && w6.workers[k].pc == Done
  {
    RedeliveryLooksUp(plan, w, k, a, startKey);
    var w2 := Step(plan, Step(plan, w, Deliver(k, a.id, startKey)), Transaction(k, true));
    FoundIsMarked(plan, w2, k, a, startKey, proof, o);
    var w4 := Step(plan, Step(plan, w2, AskEffect(k, FoundOutcome(proof, o))), Transaction(k, true));
    DistinctKeys(startKey, proof);
    FoundIsResolved(plan, w4, k, a.(state := Ambiguous), startKey, proof, o, verdict);
  }

  /** A recovery delivery of an attempt already in doubt does the same from its lookup on. */
  lemma AmbiguousRecoveryConcludes(plan: Plan, w: World, k: nat, a: Attempt, startKey: string, proof: string,
                                   o: Outcome, verdict: Verdict)
    requires UniqueIds(w.durable.step.attempts) && k !in w.workers && startKey != ""
    requires InDoubtNow(w.durable, a) && Acceptable(a, o) && !Blank(proof)
    requires CommandKey(startKey, "resolve:" + proof) !in w.durable.journal
    ensures var w2 := Step(plan, Step(plan, w, Deliver(k, a.id, startKey)), AskEffect(k, FoundOutcome(proof, o)));
            var w4 := Step(plan, Step(plan, w2, AskValidator(k, verdict)), Transaction(k, true));
            Reflects(plan, w4.durable, a, o, verdict, MayRetry(plan, w.durable))
            && w4.history.executions == w.history.executions && k in w4.workers && w4.workers[k].pc == Done
  {
    var w2 := Step(plan, Step(plan, w, Deliver(k, a.id, startKey)), AskEffect(k, FoundOutcome(proof, o)));
    FoundIsResolved(plan, w2, k, a, startKey, proof, o, verdict);
  }
}
