/** A doubt the parent does not admit: the attempt stays in flight, and not even a lookup that finds it is recorded. */
module LeafDoubt {
  import opened Outcomes
  import opened LeafStep
  import opened LeafExecution
  import LeafFresh
  import LeafTheorems

  /** What a worker may be at that cannot conclude an attempt in flight. */
  predicate Harmless(id: AttemptId, pc: Pc) {
    match pc
    case Submit(input, next) =>
      input.attempt == id && !input.command.RecordSucceeded? && !input.command.RecordFailure?
      && (next.AfterStart? ==> input.command.StartEffect?)
    case Validate(_, _, _, proof) => proof.Some?
    case Execute(_) => false
    case _ => true
  }

  /** A worker on the attempt is harmless, and any other submits commands of its own attempt. */
  predicate Fits(id: AttemptId, it: Worker) {
    if it.attempt == id then Harmless(id, it.pc) else it.pc.Submit? ==> it.pc.input.attempt == it.attempt
  }

  /** The attempt is in flight, and nobody is left who could still run its effect or knows its outcome. */
  ghost predicate Unwitnessed(w: World, a: Attempt) {
    Find(w.durable.step.attempts, a.id) == Some(a) && a.state == InFlight
    && w.durable.step.state == Active && w.durable.step.active == Some(a.id)
    && forall k :: k in w.workers ==> Fits(a.id, w.workers[k])
  }

  /** Without the parent's consent no command but the record of an outcome moves a step with an attempt in flight. */
  lemma NothingApplies(plan: Plan, d: Durable, a: Attempt, input: Input)
    requires Find(d.step.attempts, a.id) == Some(a) && a.state == InFlight
    requires d.step.state == Active && d.step.active == Some(a.id)
    requires input.attempt == a.id ==> !input.command.RecordSucceeded? && !input.command.RecordFailure?
    ensures Transact(plan, d, input, false).0 == d
    ensures Transact(plan, d, input, false).1.Applied? ==>
              Transact(plan, d, input, false).1.permission != Granted
              && Transact(plan, d, input, false).1.step == d.step
  {
  }

  lemma TransactionIsHarmless(plan: Plan, w: World, k: nat, a: Attempt)
    requires Unwitnessed(w, a) && k in w.workers && w.workers[k].pc.Submit?
    ensures var w' := Step(plan, w, Transaction(k, false));
            w'.durable == w.durable && Unwitnessed(w', a)
  {
    var it := w.workers[k];
    NothingApplies(plan, w.durable, a, it.pc.input);
    var answer := Transact(plan, w.durable, it.pc.input, false).1;
    var pc := AfterTransaction(it.attempt, it.startKey, it.pc.input, it.pc.next, answer, plan);
    assert pc.Submit? ==> pc.input.attempt == it.attempt;
  }

  lemma ArrivalIsHarmless(plan: Plan, w: World, e: Event, a: Attempt)
    requires Unwitnessed(w, a) && (e.Deliver? || e.DeliverNotStarted?)
    ensures Step(plan, w, e).durable == w.durable && Unwitnessed(Step(plan, w, e), a)
  {
  }

  lemma LookupFits(plan: Plan, id: AttemptId, it: Worker, lookup: Lookup)
    requires Fits(id, it) && it.pc.LookUp?
    ensures Fits(id, it.(pc := AfterLookup(it.attempt, it.startKey, it.pc.version, it.pc.inFlight, lookup, plan)))
  {
  }

  lemma VerdictFits(plan: Plan, id: AttemptId, it: Worker, verdict: Verdict)
    requires Fits(id, it) && it.pc.Validate?
    ensures Fits(id, it.(pc := AfterValidation(it.attempt, it.startKey, it.pc.version, it.pc.settlement, it.pc.proof,
                                               PrepareSinkOutput(plan, it.attempt, it.pc.value, verdict))))
  {
  }

  lemma OutcomeFits(plan: Plan, id: AttemptId, it: Worker, outcome: Option<Outcome>)
    requires Fits(id, it) && it.pc.Execute?
    ensures Fits(id, it.(pc := AfterEffect(it.attempt, it.startKey, it.pc.version, outcome, plan)))
  {
  }

  lemma AnswerIsHarmless(plan: Plan, w: World, e: Event, a: Attempt)
    requires Unwitnessed(w, a) && (e.RunEffect? || e.AskEffect? || e.AskValidator?)
    ensures Step(plan, w, e).durable == w.durable && Unwitnessed(Step(plan, w, e), a)
  {
    if e.worker in w.workers {
      var it := w.workers[e.worker];
      match e
      case RunEffect(_, outcome) => if it.pc.Execute? { OutcomeFits(plan, a.id, it, outcome); }
      case AskEffect(_, lookup) => if it.pc.LookUp? { LookupFits(plan, a.id, it, lookup); }
      case AskValidator(_, verdict) => if it.pc.Validate? { VerdictFits(plan, a.id, it, verdict); }
    }
  }

  lemma StepIsHarmless(plan: Plan, w: World, e: Event, a: Attempt)
    requires Unwitnessed(w, a) && (e.Transaction? ==> !e.parentAllows)
    ensures var w' := Step(plan, w, e);
            w'.durable.step == w.durable.step && w'.durable.ledger == w.durable.ledger && Unwitnessed(w', a)
  {
    match e
    case Transaction(k, _) => if k in w.workers && w.workers[k].pc.Submit? { TransactionIsHarmless(plan, w, k, a); }
    case Deliver(_, _, _) => ArrivalIsHarmless(plan, w, e, a);
    case DeliverNotStarted(_, _, _, _) => ArrivalIsHarmless(plan, w, e, a);
    case RunEffect(_, _) => AnswerIsHarmless(plan, w, e, a);
    case AskEffect(_, _) => AnswerIsHarmless(plan, w, e, a);
    case AskValidator(_, _) => AnswerIsHarmless(plan, w, e, a);
    case _ =>
  }

  /**
   * An attempt in flight whose permitted worker is gone, under a parent that does not admit its doubt, stays in
   * flight in every run with its money reserved: the mark that each recovery must make first is refused, also when
   * the lookup found the effect.
   */
  lemma {:induction false} DeniedDoubtIsForever(plan: Plan, w: World, events: seq<Event>, a: Attempt)
    requires Unwitnessed(w, a)
    requires forall e <- events :: e.Transaction? ==> !e.parentAllows
    ensures var w' := Run(plan, w, events);
            w'.durable.step == w.durable.step && w'.durable.ledger == w.durable.ledger && Unwitnessed(w', a)
    decreases |events|
  {
    if events != [] {
      StepIsHarmless(plan, w, events[0], a);
      DeniedDoubtIsForever(plan, Step(plan, w, events[0]), events[1..], a);
    }
  }

  lemma LosesItsOutcome(plan: Plan, w: World, k: nat, a: Attempt, startKey: string, version: nat)
    requires w.workers == map[k := Worker(a.id, startKey, Execute(version))] && LeafTheorems.InFlightNow(w.durable, a)
    ensures var w' := Step(plan, w, RunEffect(k, None));
            w'.durable == w.durable && Unwitnessed(w', a)
  {
    var next := Worker(a.id, startKey, MarkThen(a.id, startKey, version, None));
    assert Fits(a.id, next);
    assert Step(plan, w, RunEffect(k, None)).workers == map[k := next];
  }

  /** A first delivery, alone, whose effect answers with an unknown outcome. */
  lemma UnknownOutcomeIsUnwitnessed(plan: Plan, w: World, k: nat, a: Attempt, startKey: string)
    requires w.workers == map[] && startKey != "" && LeafFresh.ClaimedNow(w.durable, a)
    requires LeafFresh.InWindow(plan, w.durable) && CommandKey(startKey, "start-effect") !in w.durable.journal
    ensures var w2 := Step(plan, Step(plan, w, Deliver(k, a.id, startKey)), Transaction(k, true));
            var w3 := Step(plan, w2, RunEffect(k, None));
            Unwitnessed(w3, LeafFresh.StartedAttempt(a)) && a.id in w3.durable.ledger && w3.durable.ledger[a.id] == Reserved
  {
    LeafFresh.DeliveryStarts(plan, w, k, a, startKey);
    LeafFresh.StartApplies(plan, w.durable, a, CommandKey(startKey, "start-effect"));
    var w2 := Step(plan, Step(plan, w, Deliver(k, a.id, startKey)), Transaction(k, true));
    LosesItsOutcome(plan, w2, k, LeafFresh.StartedAttempt(a), startKey, w2.durable.step.version);
  }

  /** It stays in flight with its money reserved, whatever is delivered, looked up or found later. */
  lemma UnknownOutcomeIsForever(plan: Plan, w: World, k: nat, a: Attempt, startKey: string, later: seq<Event>)
    requires w.workers == map[] && startKey != "" && LeafFresh.ClaimedNow(w.durable, a)
    requires LeafFresh.InWindow(plan, w.durable) && CommandKey(startKey, "start-effect") !in w.durable.journal
    requires forall e <- later :: e.Transaction? ==> !e.parentAllows
    ensures var w2 := Step(plan, Step(plan, w, Deliver(k, a.id, startKey)), Transaction(k, true));
            var d := Run(plan, Step(plan, w2, RunEffect(k, None)), later).durable;
            Find(d.step.attempts, a.id) == Some(LeafFresh.StartedAttempt(a))
            && a.id in d.ledger && d.ledger[a.id] == Reserved
  {
    UnknownOutcomeIsUnwitnessed(plan, w, k, a, startKey);
    var w2 := Step(plan, Step(plan, w, Deliver(k, a.id, startKey)), Transaction(k, true));
    DeniedDoubtIsForever(plan, Step(plan, w2, RunEffect(k, None)), later, LeafFresh.StartedAttempt(a));
  }
}
