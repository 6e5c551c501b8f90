/** Safety of the leaf effect over every run: at most one execution, and no outcome without a report. */
module LeafSafety {
  import opened Outcomes
  import opened Amounts
  import opened LeafStep
  import opened LeafExecution

  // ----- What the outside world has said -----

  ghost predicate Executed(h: History, id: AttemptId, outcome: Outcome) {
    Execution(id, Some(outcome)) in h.executions
  }

  ghost predicate LookedUp(h: History, id: AttemptId, outcome: Outcome) {
    exists proof :: !Blank(proof) && Finding(id, proof, outcome) in h.findings
  }

  ghost predicate Reported(h: History, id: AttemptId, outcome: Outcome) {
    Executed(h, id, outcome) || LookedUp(h, id, outcome)
  }

  /** A sink result is the artifact of an accepted value; any other node has no artifact. */
  ghost predicate SinkOutput(plan: Plan, h: History, id: AttemptId, value: Content, output: Option<Artifact>) {
    if plan.uniqueSink
    then output.Some? && output.value.attempt == id && IsArtifactOf(plan, output.value, value) && value in h.accepted
    else output.None?
  }

  ghost predicate Grows(h: History, later: History) {
    (forall e :: e in h.executions ==> e in later.executions)
    && (forall f :: f in h.findings ==> f in later.findings)
    && (forall v :: v in h.accepted ==> v in later.accepted)
    && (forall v :: v in h.refused ==> v in later.refused)
  }

  // ----- Evidence behind every recorded state -----

  ghost predicate Charged(a: Attempt, s: Settlement, r: Reservation) {
    match s
    case Release => r == Released
    case Settle(amount, unit, entry) => r == Settled(amount, entry) && unit == a.unit && 0.0 <= amount <= a.reserved
  }

  ghost predicate SuccessReported(plan: Plan, h: History, a: Attempt, r: Reservation) {
    exists value, s :: Reported(h, a.id, EffectSucceeded(value, s)) && s.Settle? && Charged(a, s, r)
                       && SinkOutput(plan, h, a.id, value, a.output)
  }

  ghost predicate RetryReported(h: History, a: Attempt, r: Reservation) {
    exists s :: Reported(h, a.id, EffectFailed(true, s)) && Charged(a, s, r)
  }

  /** The effect failed, or it succeeded at a sink with a value outside the output contract. */
  ghost predicate FailureReported(plan: Plan, h: History, a: Attempt, r: Reservation) {
    (exists retryable, s :: Reported(h, a.id, EffectFailed(retryable, s)) && Charged(a, s, r))
    || (plan.uniqueSink
        && exists value, s :: Reported(h, a.id, EffectSucceeded(value, s)) && Charged(a, s, r) && value in h.refused)
  }

  ghost predicate Evidence(plan: Plan, h: History, a: Attempt, r: Reservation) {
    (a.state != Succeeded ==> a.output.None?)
    && match a.state
       case Claimed => r == Reserved && !a.effectStarted
       case InFlight => r == Reserved && a.effectStarted
       case Ambiguous => r == Reserved && a.effectStarted
       case CancelledBeforeEffect => r == Released && !a.effectStarted
       case Succeeded => a.effectStarted && SuccessReported(plan, h, a, r)
       case FailedRetryable => if a.effectStarted then RetryReported(h, a, r) else r == Released
       case FailedTerminal => if a.effectStarted then FailureReported(plan, h, a, r) else r == Released
  }

  /** A conclusion about to be recorded is backed by a report. */
  ghost predicate Justified(plan: Plan, h: History, id: AttemptId, c: Command) {
    match c
    case RecordSucceeded(s, output) =>
      exists value :: Executed(h, id, EffectSucceeded(value, s)) && SinkOutput(plan, h, id, value, Reference(output))
    case RecordFailure(retryable, s) =>
      Executed(h, id, EffectFailed(retryable, s))
      || (plan.uniqueSink && !retryable
          && exists value :: Executed(h, id, EffectSucceeded(value, s)) && value in h.refused)
    case ResolveAmbiguity(ToSucceeded, proof, s, output) =>
      exists value :: Finding(id, proof, EffectSucceeded(value, s)) in h.findings
                      && SinkOutput(plan, h, id, value, Reference(output))
    case ResolveAmbiguity(outcome, proof, s, _) =>
      Finding(id, proof, EffectFailed(outcome == ToFailedRetryable, s)) in h.findings
      || (plan.uniqueSink && outcome == ToFailedTerminal
          && exists value :: Finding(id, proof, EffectSucceeded(value, s)) in h.findings && value in h.refused)
    case _ => true
  }

  ghost predicate PcBacked(plan: Plan, h: History, id: AttemptId, pc: Pc) {
    match pc
    case Submit(input, next) =>
      input.attempt == id && Justified(plan, h, id, input.command)
      && (next.AfterStart? <==> input.command.StartEffect?)
      && (next.AfterMark? && next.finding.Some? && next.finding.value.FoundOutcome? ==>
            Finding(id, next.finding.value.proof, next.finding.value.outcome) in h.findings)
    case Validate(_, value, s, proof) =>
      plan.uniqueSink
      && (match proof
          case None => Executed(h, id, EffectSucceeded(value, s))
          case Some(p) => Finding(id, p, EffectSucceeded(value, s)) in h.findings)
    case _ => true
  }

  lemma PcGrows(plan: Plan, h: History, later: History, id: AttemptId, pc: Pc)
    requires Grows(h, later) && PcBacked(plan, h, id, pc)
    ensures PcBacked(plan, later, id, pc)
  {
    forall o | Executed(h, id, o) ensures Executed(later, id, o) {}
  }

  // ----- One transition -----

  /** What a command leaves of the attempt it names. */
  function NextAttempt(a: Attempt, c: Command, retryAuthorized: bool): Attempt {
    match c
    case StartEffect => a.(state := InFlight, effectStarted := true)
    case RecordSucceeded(_, output) => a.(state := Succeeded, output := Reference(output))
    case RecordFailure(retryable, _) => a.(state := FailedState(retryable && retryAuthorized))
    case RecordNotStarted(retryable) => a.(state := FailedState(retryable && retryAuthorized))
    case AuthorizeRetry => a
    case MarkAmbiguous => a.(state := Ambiguous)
    case ResolveAmbiguity(outcome, _, _, output) =>
      if outcome == ToSucceeded then a.(state := Succeeded, output := Reference(output))
      else a.(state := FailedState(outcome == ToFailedRetryable && retryAuthorized))
    case CancelBeforeEffect => a.(state := CancelledBeforeEffect)
  }

  lemma ReplacedByItself(attempts: seq<Attempt>, a: Attempt)
    requires UniqueIds(attempts) && a in attempts
    ensures Replace(attempts, a) == attempts
  {
  }

  lemma PlanReplaces(step: StepRun, a: Attempt, c: Command, retryAuthorized: bool)
    requires UniqueIds(step.attempts) && Find(step.attempts, a.id) == Some(a)
    requires PlanTransition(step, a.id, c, retryAuthorized).Some?
    ensures var next := PlanTransition(step, a.id, c, retryAuthorized).value;
            next.attempts == Replace(step.attempts, NextAttempt(a, c, retryAuthorized))
            && next.version == step.version + 1
  {
    if c.AuthorizeRetry? {
      ReplacedByItself(step.attempts, a);
    }
  }

  /** A settlement the kernel accepts never exceeds the reservation, not even by rounding. */
  lemma SettlementIsExact(a: Attempt, s: Settlement)
    requires s.Settle? && IsAmount(s.amount) && IsAmount(a.reserved)
    ensures SettlementMatches(a, s) <==> s.unit == a.unit && s.amount <= a.reserved
  {
  }

  lemma SuccessWitness(plan: Plan, h: History, a: Attempt, r: Reservation, value: Content, s: Settlement)
    requires Reported(h, a.id, EffectSucceeded(value, s)) && s.Settle? && Charged(a, s, r)
    requires SinkOutput(plan, h, a.id, value, a.output)
    ensures SuccessReported(plan, h, a, r)
  {
  }

  /** The command's effect on the target attempt and its reservation keeps the evidence. */
  lemma CommandKeepsEvidence(plan: Plan, h: History, step: StepRun, a: Attempt, c: Command, retry: bool,
                             r: Reservation)
    requires Find(step.attempts, a.id) == Some(a) && IsAmount(a.reserved)
    requires Evidence(plan, h, a, r) && Justified(plan, h, a.id, c) && WellFormedInput(plan, c)
    requires PlanTransition(step, a.id, c, retry).Some?
    requires SettlementOf(c).Some? ==> SettleReservation(r, SettlementOf(c).value).Some?
    ensures Evidence(plan, h, NextAttempt(a, c, retry),
                     if SettlementOf(c).Some? then SettleReservation(r, SettlementOf(c).value).value else r)
  {
    var s := SettlementOf(c);
    var after := if s.Some? then SettleReservation(r, s.value).value else r;
    var next := NextAttempt(a, c, retry);
    if s.Some? {
      if s.value.Settle? { SettlementIsExact(a, s.value); }
      assert Charged(next, s.value, after);
    }
    match c
    case RecordSucceeded(t, output) =>
      var value :| Executed(h, a.id, EffectSucceeded(value, t)) && SinkOutput(plan, h, a.id, value, Reference(output));
      SuccessWitness(plan, h, next, after, value, t);
    case RecordFailure(retryable, t) =>
      assert Executed(h, a.id, EffectFailed(retryable, t)) ==> Reported(h, a.id, EffectFailed(retryable, t));
    case ResolveAmbiguity(outcome, proof, t, output) =>
      if outcome == ToSucceeded {
        var value :| Finding(a.id, proof, EffectSucceeded(value, t)) in h.findings
                     && SinkOutput(plan, h, a.id, value, Reference(output));
        SuccessWitness(plan, h, next, after, value, t);
      } else if !(Finding(a.id, proof, EffectFailed(outcome == ToFailedRetryable, t)) in h.findings) {
        var value :| Finding(a.id, proof, EffectSucceeded(value, t)) in h.findings && value in h.refused;
        assert Reported(h, a.id, EffectSucceeded(value, t));
      } else {
        assert Reported(h, a.id, EffectFailed(outcome == ToFailedRetryable, t));
      }
    case _ =>
  }

  // ----- The whole world -----

  ghost predicate AttemptSafe(plan: Plan, h: History, d: Durable, a: Attempt) {
    IsAmount(a.reserved) && a.id in d.ledger && Evidence(plan, h, a, d.ledger[a.id])
    && (IsOpen(a.state) ==> d.step.active == Some(a.id))
  }

  /** Attempts are distinct, at most one is open, and each is backed by evidence. */
  ghost predicate DurableSafe(plan: Plan, h: History, d: Durable) {
    UniqueIds(d.step.attempts)
    && (d.step.active.Some? <==> d.step.state == Active || d.step.state == InDoubt)
    && (forall i :: 0 <= i < |d.step.attempts| ==>
          AttemptSafe(plan, h, d, d.step.attempts[i]))
  }

  predicate Started(d: Durable, id: AttemptId) {
    var a := Find(d.step.attempts, id);
    a.Some? && a.value.effectStarted
  }

  /** Executions are of distinct attempts whose start was recorded first. */
  ghost predicate ExecutionsSafe(h: History, d: Durable) {
    (forall i, j :: 0 <= i < j < |h.executions| ==> h.executions[i].attempt != h.executions[j].attempt)
    && (forall i :: 0 <= i < |h.executions| ==> Started(d, h.executions[i].attempt))
  }

  predicate MayExecute(w: World, k: nat, id: AttemptId) {
    k in w.workers && w.workers[k].attempt == id && w.workers[k].pc.Execute?
  }

  /** Permission to execute is held by one worker, for a started attempt that was not executed yet. */
  ghost predicate PermissionsSafe(w: World) {
    (forall k, id :: MayExecute(w, k, id) ==>
       Started(w.durable, id) && forall i :: 0 <= i < |w.history.executions| ==> w.history.executions[i].attempt != id)
    && (forall k, l, id :: MayExecute(w, k, id) && MayExecute(w, l, id) ==> k == l)
  }

  ghost predicate WorkersSafe(plan: Plan, w: World) {
    forall k :: k in w.workers ==> PcBacked(plan, w.history, w.workers[k].attempt, w.workers[k].pc)
  }

  ghost predicate Safe(plan: Plan, w: World) {
    DurableSafe(plan, w.history, w.durable) && ExecutionsSafe(w.history, w.durable)
    && PermissionsSafe(w) && WorkersSafe(plan, w)
  }

  // ----- A transaction -----

  lemma {:induction false} FindReplaced(attempts: seq<Attempt>, next: Attempt, id: AttemptId)
    ensures var before, after := Find(attempts, id), Find(Replace(attempts, next), id);
            (id != next.id ==> after == before)
            && (id == next.id ==> after == if before.Some? then Some(next) else None)
  {
    if attempts != [] {
      FindReplaced(attempts[1..], next, id);
      assert Replace(attempts, next)[1..] == Replace(attempts[1..], next);
    }
  }

  /** The ledger once the settlement of a command is applied to the attempt's reservation. */
  function LedgerAfter(ledger: map<AttemptId, Reservation>, id: AttemptId, c: Command): map<AttemptId, Reservation> {
    var s := SettlementOf(c);
    if s.None? || id !in ledger || SettleReservation(ledger[id], s.value).None? then ledger
    else ledger[id := SettleReservation(ledger[id], s.value).value]
  }

  /** What a transaction that is not a replay changes. */
  lemma AppliedShape(plan: Plan, d: Durable, input: Input, parentAllows: bool)
    requires UniqueIds(d.step.attempts)
    requires Transact(plan, d, input, parentAllows).0 != d
    ensures var d' := Transact(plan, d, input, parentAllows).0;
            var found := Find(d.step.attempts, input.attempt);
            var retry := RetryAuthorized(plan, d);
            found.Some? && WellFormedInput(plan, input.command)
            && PlanTransition(d.step, input.attempt, input.command, retry) == Some(d'.step)
            && d'.step.attempts == Replace(d.step.attempts, NextAttempt(found.value, input.command, retry))
            && d'.ledger == LedgerAfter(d.ledger, input.attempt, input.command)
            && (SettlementOf(input.command).Some? ==>
                  input.attempt in d.ledger
                  && SettleReservation(d.ledger[input.attempt], SettlementOf(input.command).value).Some?)
            && d'.run == d.run && d'.now == d.now
  {
    PlanReplaces(d.step, Find(d.step.attempts, input.attempt).value, input.command, RetryAuthorized(plan, d));
  }

  lemma PlanActive(step: StepRun, a: Attempt, c: Command, retry: bool)
    requires Find(step.attempts, a.id) == Some(a)
    requires step.active.Some? <==> step.state == Active || step.state == InDoubt
    requires IsOpen(a.state) ==> step.active == Some(a.id)
    requires PlanTransition(step, a.id, c, retry).Some?
    ensures var step' := PlanTransition(step, a.id, c, retry).value;
            (step'.active.Some? <==> step'.state == Active || step'.state == InDoubt)
            && (step'.active.Some? ==> step'.active == Some(a.id))
            && (IsOpen(NextAttempt(a, c, retry).state) ==> step'.active == Some(a.id))
            && (step.active.Some? ==> step.active == Some(a.id))
            && NextAttempt(a, c, retry).id == a.id && NextAttempt(a, c, retry).reserved == a.reserved
  {
  }

  lemma TargetStaysSafe(plan: Plan, h: History, d: Durable, input: Input, parentAllows: bool, a: Attempt)
    requires DurableSafe(plan, h, d) && Justified(plan, h, input.attempt, input.command)
    requires Find(d.step.attempts, input.attempt) == Some(a)
    requires Transact(plan, d, input, parentAllows).0 != d
    ensures AttemptSafe(plan, h, Transact(plan, d, input, parentAllows).0,
                        NextAttempt(a, input.command, RetryAuthorized(plan, d)))
  {
    var d' := Transact(plan, d, input, parentAllows).0;
    var retry := RetryAuthorized(plan, d);
    AppliedShape(plan, d, input, parentAllows);
    var i :| 0 <= i < |d.step.attempts| && d.step.attempts[i] == a;
    assert AttemptSafe(plan, h, d, d.step.attempts[i]);
    PlanActive(d.step, a, input.command, retry);
    CommandKeepsEvidence(plan, h, d.step, a, input.command, retry, d.ledger[a.id]);
  }

  lemma OtherStaysSafe(plan: Plan, h: History, d: Durable, input: Input, parentAllows: bool, a: Attempt, b: Attempt)
    requires DurableSafe(plan, h, d)
    requires Find(d.step.attempts, input.attempt) == Some(a) && AttemptSafe(plan, h, d, a)
    requires AttemptSafe(plan, h, d, b) && b.id != a.id
    requires Transact(plan, d, input, parentAllows).0 != d
    ensures AttemptSafe(plan, h, Transact(plan, d, input, parentAllows).0, b)
  {
    AppliedShape(plan, d, input, parentAllows);
    PlanActive(d.step, a, input.command, RetryAuthorized(plan, d));
  }

  lemma EachStaysSafe(plan: Plan, h: History, d: Durable, input: Input, parentAllows: bool, i: nat)
    requires DurableSafe(plan, h, d) && Justified(plan, h, input.attempt, input.command)
    requires i < |d.step.attempts|
    requires Transact(plan, d, input, parentAllows).0 != d
    ensures var d' := Transact(plan, d, input, parentAllows).0;
            |d'.step.attempts| == |d.step.attempts|
            && d'.step.attempts[i].id == d.step.attempts[i].id
            && AttemptSafe(plan, h, d', d'.step.attempts[i])
  {
    AppliedShape(plan, d, input, parentAllows);
    var a := Find(d.step.attempts, input.attempt).value;
    var b := d.step.attempts[i];
    assert AttemptSafe(plan, h, d, b);
    var at :| 0 <= at < |d.step.attempts| && d.step.attempts[at] == a;
    assert AttemptSafe(plan, h, d, d.step.attempts[at]);
    PlanActive(d.step, a, input.command, RetryAuthorized(plan, d));
    if b.id == a.id {
      TargetStaysSafe(plan, h, d, input, parentAllows, a);
    } else {
      OtherStaysSafe(plan, h, d, input, parentAllows, a, b);
    }
  }

  lemma ActiveStaysConsistent(plan: Plan, h: History, d: Durable, input: Input, parentAllows: bool)
    requires DurableSafe(plan, h, d)
    requires Transact(plan, d, input, parentAllows).0 != d
    ensures var step := Transact(plan, d, input, parentAllows).0.step;
            step.active.Some? <==> step.state == Active || step.state == InDoubt
  {
    AppliedShape(plan, d, input, parentAllows);
    var a := Find(d.step.attempts, input.attempt).value;
    var at :| 0 <= at < |d.step.attempts| && d.step.attempts[at] == a;
    assert AttemptSafe(plan, h, d, d.step.attempts[at]);
    PlanActive(d.step, a, input.command, RetryAuthorized(plan, d));
  }

  lemma TransactionKeepsDurable(plan: Plan, h: History, d: Durable, input: Input, parentAllows: bool)
    requires DurableSafe(plan, h, d) && Justified(plan, h, input.attempt, input.command)
    ensures DurableSafe(plan, h, Transact(plan, d, input, parentAllows).0)
  {
    var d' := Transact(plan, d, input, parentAllows).0;
    if d' != d {
      AppliedShape(plan, d, input, parentAllows);
      ActiveStaysConsistent(plan, h, d, input, parentAllows);
      forall i | 0 <= i < |d.step.attempts|
        ensures d'.step.attempts[i].id == d.step.attempts[i].id
        ensures AttemptSafe(plan, h, d', d'.step.attempts[i])
      {
        EachStaysSafe(plan, h, d, input, parentAllows, i);
      }
    }
  }

  lemma AppliedAttempts(plan: Plan, d: Durable, input: Input, parentAllows: bool)
    requires UniqueIds(d.step.attempts)
    requires Transact(plan, d, input, parentAllows).0 != d
    ensures var found := Find(d.step.attempts, input.attempt);
            found.Some?
            && PlanTransition(d.step, input.attempt, input.command, RetryAuthorized(plan, d)).Some?
            && Transact(plan, d, input, parentAllows).0.step.attempts
               == Replace(d.step.attempts, NextAttempt(found.value, input.command, RetryAuthorized(plan, d)))
  {
    AppliedShape(plan, d, input, parentAllows);
  }

  /** A transaction leaves the command's target as the command says, and every other attempt as it was. */
  lemma FoundAfter(plan: Plan, d: Durable, input: Input, parentAllows: bool, id: AttemptId)
    requires UniqueIds(d.step.attempts)
    requires Transact(plan, d, input, parentAllows).0 != d
    ensures var target := Find(d.step.attempts, input.attempt);
            target.Some?
            && PlanTransition(d.step, input.attempt, input.command, RetryAuthorized(plan, d)).Some?
            && Find(Transact(plan, d, input, parentAllows).0.step.attempts, id)
               == if id == input.attempt
                  then Some(NextAttempt(target.value, input.command, RetryAuthorized(plan, d)))
                  else Find(d.step.attempts, id)
  {
    AppliedAttempts(plan, d, input, parentAllows);
    var next := NextAttempt(Find(d.step.attempts, input.attempt).value, input.command, RetryAuthorized(plan, d));
    assert next.id == input.attempt;
    FindReplaced(d.step.attempts, next, id);
  }

  /** A transaction never takes back the start of an effect, and grants a start once. */
  lemma TransactionKeepsStarts(plan: Plan, d: Durable, input: Input, parentAllows: bool, id: AttemptId)
    requires UniqueIds(d.step.attempts)
    ensures Started(d, id) ==> Started(Transact(plan, d, input, parentAllows).0, id)
  {
    if Transact(plan, d, input, parentAllows).0 != d {
      FoundAfter(plan, d, input, parentAllows, id);
    }
  }

  lemma GrantIsFresh(plan: Plan, h: History, d: Durable, input: Input, parentAllows: bool)
    requires DurableSafe(plan, h, d)
    ensures var (d', answer) := Transact(plan, d, input, parentAllows);
            answer.Applied? && answer.permission == Granted ==>
              input.command.StartEffect? && input.key !in d.journal && input.key in d'.journal
              && !Started(d, input.attempt) && Started(d', input.attempt)
              && d.run == Running && d.now < plan.deadline
  {
    var (d', answer) := Transact(plan, d, input, parentAllows);
    if answer.Applied? && answer.permission == Granted {
      assert d' != d;
      AppliedShape(plan, d, input, parentAllows);
      var a := Find(d.step.attempts, input.attempt).value;
      FindReplaced(d.step.attempts, NextAttempt(a, input.command, RetryAuthorized(plan, d)), input.attempt);
    }
  }

  lemma {:induction false} FindAppended(attempts: seq<Attempt>, last: Attempt, id: AttemptId)
    ensures Find(attempts, id).Some? ==> Find(attempts + [last], id) == Find(attempts, id)
  {
    if attempts != [] {
      FindAppended(attempts[1..], last, id);
      assert (attempts + [last])[1..] == attempts[1..] + [last];
    }
  }

  lemma ClaimKeepsDurable(plan: Plan, h: History, d: Durable, id: AttemptId, reserved: real, unit: string)
    requires DurableSafe(plan, h, d)
    ensures var d' := ClaimAttempt(d, id, reserved, unit);
            DurableSafe(plan, h, d') && forall x :: Started(d, x) ==> Started(d', x)
  {
    var d' := ClaimAttempt(d, id, reserved, unit);
    if d' != d {
      var last := Attempt(id, reserved, unit, Claimed, false, None);
      forall i | 0 <= i < |d'.step.attempts| ensures AttemptSafe(plan, h, d', d'.step.attempts[i]) {
        if i < |d.step.attempts| {
          assert AttemptSafe(plan, h, d, d.step.attempts[i]);
        }
      }
      forall x | Started(d, x) ensures Started(d', x) {
        FindAppended(d.step.attempts, last, x);
      }
    }
  }

  // ----- Each kind of step -----

  lemma HistoryKeepsSafe(plan: Plan, w: World, later: History)
    requires Safe(plan, w) && Grows(w.history, later)
    ensures DurableSafe(plan, later, w.durable) && WorkersSafe(plan, w.(history := later))
  {
    forall i | 0 <= i < |w.durable.step.attempts|
      ensures AttemptSafe(plan, later, w.durable, w.durable.step.attempts[i])
    {
      var a := w.durable.step.attempts[i];
      assert AttemptSafe(plan, w.history, w.durable, a);
    }
    forall k | k in w.workers ensures PcBacked(plan, later, w.workers[k].attempt, w.workers[k].pc) {
      PcGrows(plan, w.history, later, w.workers[k].attempt, w.workers[k].pc);
    }
  }

  lemma AfterTransactionBacked(plan: Plan, h: History, it: Worker, answer: Answer)
    requires it.pc.Submit? && PcBacked(plan, h, it.attempt, it.pc)
    ensures var pc := AfterTransaction(it.attempt, it.startKey, it.pc.input, it.pc.next, answer, plan);
            PcBacked(plan, h, it.attempt, pc)
            && (pc.Execute? ==> answer.Applied? && answer.permission == Granted)
  {
    if it.pc.next.AfterMark? && it.pc.next.finding.Some? && answer.Applied? {
    }
  }

  lemma TransactionBacked(plan: Plan, w: World, k: nat, parentAllows: bool)
    requires Safe(plan, w) && k in w.workers && w.workers[k].pc.Submit?
    ensures var w' := Step(plan, w, Transaction(k, parentAllows));
            PcBacked(plan, w.history, w'.workers[k].attempt, w'.workers[k].pc)
            && (w'.workers[k].pc.Execute? ==>
                  !Started(w.durable, w.workers[k].attempt) && Started(w'.durable, w.workers[k].attempt))
  {
    var it := w.workers[k];
    assert PcBacked(plan, w.history, it.attempt, it.pc);
    var (d', answer) := Transact(plan, w.durable, it.pc.input, parentAllows);
    AfterTransactionBacked(plan, w.history, it, answer);
    GrantIsFresh(plan, w.history, w.durable, it.pc.input, parentAllows);
  }

  lemma TransactionKeepsSafe(plan: Plan, w: World, k: nat, parentAllows: bool)
    requires Safe(plan, w)
    ensures Safe(plan, Step(plan, w, Transaction(k, parentAllows)))
  {
    var w' := Step(plan, w, Transaction(k, parentAllows));
    if k in w.workers && w.workers[k].pc.Submit? {
      var it := w.workers[k];
      assert PcBacked(plan, w.history, it.attempt, it.pc);
      TransactionKeepsDurable(plan, w.history, w.durable, it.pc.input, parentAllows);
      TransactionBacked(plan, w, k, parentAllows);
      forall id | Started(w.durable, id) ensures Started(w'.durable, id) {
        TransactionKeepsStarts(plan, w.durable, it.pc.input, parentAllows, id);
      }
      forall l, id | MayExecute(w', l, id) && l != k ensures MayExecute(w, l, id) {}
      assert WorkersSafe(plan, w');
      assert PermissionsSafe(w');
    }
  }

  lemma EffectKeepsSafe(plan: Plan, w: World, k: nat, outcome: Option<Outcome>)
    requires Safe(plan, w)
    ensures Safe(plan, Step(plan, w, RunEffect(k, outcome)))
  {
    var w' := Step(plan, w, RunEffect(k, outcome));
    if k in w.workers && w.workers[k].pc.Execute? {
      var it := w.workers[k];
      assert MayExecute(w, k, it.attempt);
      HistoryKeepsSafe(plan, w, w'.history);
      var e := Execution(it.attempt, outcome);
      assert w'.history.executions[|w.history.executions|] == e;
      forall l, id | MayExecute(w', l, id) ensures MayExecute(w, l, id) && id != it.attempt {
        assert MayExecute(w, l, id) && l != k;
      }
      forall l | l in w'.workers ensures PcBacked(plan, w'.history, w'.workers[l].attempt, w'.workers[l].pc) {
        assert l != k ==> PcBacked(plan, w'.history, w.workers[l].attempt, w.workers[l].pc);
      }
    }
  }

  lemma LookupKeepsSafe(plan: Plan, w: World, k: nat, lookup: Lookup)
    requires Safe(plan, w)
    ensures Safe(plan, Step(plan, w, AskEffect(k, lookup)))
  {
    var w' := Step(plan, w, AskEffect(k, lookup));
    if k in w.workers && w.workers[k].pc.LookUp? {
      HistoryKeepsSafe(plan, w, w'.history);
      LookedUpIsBacked(plan, w'.history, w.workers[k], lookup);
      forall l, id | MayExecute(w', l, id) ensures MayExecute(w, l, id) {}
      forall l | l in w'.workers ensures PcBacked(plan, w'.history, w'.workers[l].attempt, w'.workers[l].pc) {
        assert l != k ==> PcBacked(plan, w'.history, w.workers[l].attempt, w.workers[l].pc);
      }
    }
  }

  lemma LookedUpIsBacked(plan: Plan, h: History, it: Worker, lookup: Lookup)
    requires it.pc.LookUp?
    requires lookup.FoundOutcome? ==> Finding(it.attempt, lookup.proof, lookup.outcome) in h.findings
    ensures var pc := AfterLookup(it.attempt, it.startKey, it.pc.version, it.pc.inFlight, lookup, plan);
            PcBacked(plan, h, it.attempt, pc) && !pc.Execute?
  {
  }

  lemma ValidationKeepsSafe(plan: Plan, w: World, k: nat, verdict: Verdict)
    requires Safe(plan, w)
    ensures Safe(plan, Step(plan, w, AskValidator(k, verdict)))
  {
    var w' := Step(plan, w, AskValidator(k, verdict));
    if k in w.workers && w.workers[k].pc.Validate? {
      var it := w.workers[k];
      assert PcBacked(plan, w.history, it.attempt, it.pc);
      HistoryKeepsSafe(plan, w, w'.history);
      PcGrows(plan, w.history, w'.history, it.attempt, it.pc);
      ValidatedIsBacked(plan, w'.history, it, verdict);
      forall l, id | MayExecute(w', l, id) ensures MayExecute(w, l, id) {}
      forall l | l in w'.workers ensures PcBacked(plan, w'.history, w'.workers[l].attempt, w'.workers[l].pc) {
        assert l != k ==> PcBacked(plan, w'.history, w.workers[l].attempt, w.workers[l].pc);
      }
    }
  }

  lemma ValidatedIsBacked(plan: Plan, h: History, it: Worker, verdict: Verdict)
    requires it.pc.Validate? && PcBacked(plan, h, it.attempt, it.pc)
    requires verdict.Accepts? ==> it.pc.value in h.accepted
    requires verdict == Refuses ==> it.pc.value in h.refused
    ensures PcBacked(plan, h, it.attempt,
                     AfterValidation(it.attempt, it.startKey, it.pc.version, it.pc.settlement, it.pc.proof,
                                     PrepareSinkOutput(plan, it.attempt, it.pc.value, verdict)))
  {
  }

  lemma StepKeepsSafe(plan: Plan, w: World, e: Event)
    requires Safe(plan, w)
    ensures Safe(plan, Step(plan, w, e))
  {
    match e
    case Transaction(k, parentAllows) => TransactionKeepsSafe(plan, w, k, parentAllows);
    case RunEffect(k, outcome) => EffectKeepsSafe(plan, w, k, outcome);
    case AskEffect(k, lookup) => LookupKeepsSafe(plan, w, k, lookup);
    case AskValidator(k, verdict) => ValidationKeepsSafe(plan, w, k, verdict);
    case Claim(id, reserved, unit) =>
      ClaimKeepsDurable(plan, w.history, w.durable, id, reserved, unit);
      forall l, x | MayExecute(Step(plan, w, e), l, x) ensures MayExecute(w, l, x) {}
    case _ => QuietStepKeepsSafe(plan, w, e);
  }

  lemma QuietStepKeepsSafe(plan: Plan, w: World, e: Event)
    requires Safe(plan, w)
    requires e.Deliver? || e.DeliverNotStarted? || e.Crash? || e.RunChanges? || e.Tick?
    ensures Safe(plan, Step(plan, w, e))
  {
    var w' := Step(plan, w, e);
    assert w'.history == w.history && w'.durable.step == w.durable.step && w'.durable.ledger == w.durable.ledger;
    forall i | 0 <= i < |w'.durable.step.attempts|
      ensures AttemptSafe(plan, w'.history, w'.durable, w'.durable.step.attempts[i])
    {
      assert AttemptSafe(plan, w.history, w.durable, w.durable.step.attempts[i]);
    }
    forall id ensures Started(w'.durable, id) == Started(w.durable, id) {}
    forall l, x | MayExecute(w', l, x) ensures MayExecute(w, l, x) {}
    forall l | l in w'.workers ensures PcBacked(plan, w'.history, w'.workers[l].attempt, w'.workers[l].pc) {
      if l !in w.workers { ArrivalIsBacked(plan, w, e, l); }
    }
  }

  lemma ArrivalIsBacked(plan: Plan, w: World, e: Event, k: nat)
    requires e.Deliver? || e.DeliverNotStarted?
    requires k !in w.workers && k in Step(plan, w, e).workers
    ensures var it := Step(plan, w, e).workers[k];
            PcBacked(plan, w.history, it.attempt, it.pc) && !it.pc.Execute?
  {
  }

  lemma {:induction false} RunKeepsSafe(plan: Plan, w: World, events: seq<Event>)
    requires Safe(plan, w)
    ensures Safe(plan, Run(plan, w, events))
    decreases |events|
  {
    if events != [] {
      StepKeepsSafe(plan, w, events[0]);
      RunKeepsSafe(plan, Step(plan, w, events[0]), events[1..]);
    }
  }
}
