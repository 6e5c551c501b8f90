/** What the answer to a start or to a lookup does to the message, in every run and in one cycle. */
module LeafOutboxAnswers {
  import opened Outcomes
  import opened LeafOutbox
  import opened LeafOutboxSafety

  ghost predicate Unclear(log: seq<Fact>, claim: nat) {
    StartIssued(claim, StartUnknown) in log || LookedUp(claim, FindUnknown) in log
  }

  ghost predicate Retryable(log: seq<Fact>, claim: nat) {
    StartIssued(claim, DefinitelyRejected(true)) in log || LookedUp(claim, NotFound) in log
  }

  ghost predicate Unanswered(log: seq<Fact>, claim: nat) {
    (forall a :: StartIssued(claim, a) !in log) && (forall a :: LookedUp(claim, a) !in log)
  }

  /** Where a dispatcher stands after the answer it got under its claim. */
  ghost predicate AnswerFollowed(w: World, it: Dispatcher, maxAttempts: nat) {
    it.claim <= w.row.claims
    && (it.pc == MarkStarting || it.pc == Start || it.pc == Find ==> Unanswered(w.log, it.claim))
    && (Confirmed(w.log, it.claim) ==> it.pc == RecordStarted || it.pc.Done?)
    && (Unclear(w.log, it.claim) ==>
          it.pc.Done? || it.pc == if it.claim >= maxAttempts then MarkDeadLetter else MarkReconciliation)
    && (Retryable(w.log, it.claim) && it.claim < maxAttempts ==> it.pc == ResetPending || it.pc.Done?)
    && (Holds(w.row, it.claim) && !it.pc.Done? && (!Unanswered(w.log, it.claim) || it.pc == Start || it.pc == Find) ==>
          Open(w.row) && w.row.adapter == Some(it.adapterKey))
  }

  /** The row is dispatched exactly once a start was recorded, under the claim it then had. */
  ghost predicate DispatchRecorded(w: World) {
    (w.row.message == Dispatched <==> RecordedStart(w.row.claims) in w.log)
    && (w.row.message == Dispatched <==> w.row.binding == Started)
  }

  ghost predicate Answered(w: World, maxAttempts: nat) {
    Safe(w) && DispatchRecorded(w) && forall k :: k in w.dispatchers ==> AnswerFollowed(w, w.dispatchers[k], maxAttempts)
  }

  lemma ActorFollows(w: World, it: Dispatcher, maxAttempts: nat, answers: Answers)
    requires AnswerFollowed(w, it, maxAttempts)
    ensures var (row, pc) := Act(w.row, it, maxAttempts, answers);
            AnswerFollowed(World(row, w.dispatchers, w.log + Trace(w.row, it, answers)), it.(pc := pc), maxAttempts)
  {
    var log := w.log + Trace(w.row, it, answers);
    if it.pc == Start {
      assert log[|w.log|] == StartIssued(it.claim, answers.start);
    } else if it.pc == Find {
      assert log[|w.log|] == LookedUp(it.claim, answers.find);
    }
  }

  lemma OthersLog(log: seq<Fact>, trace: seq<Fact>, claim: nat)
    requires forall f <- trace :: f.claim != claim
    ensures Confirmed(log + trace, claim) <==> Confirmed(log, claim)
    ensures Unclear(log + trace, claim) <==> Unclear(log, claim)
    ensures Retryable(log + trace, claim) <==> Retryable(log, claim)
    ensures Unanswered(log + trace, claim) <==> Unanswered(log, claim)
  {
    forall f: Fact | f.claim == claim ensures f in log + trace <==> f in log {
      if f in trace { assert false; }
    }
  }

  lemma BystanderFollows(w: World, it: Dispatcher, other: Dispatcher, maxAttempts: nat, answers: Answers)
    requires AnswerFollowed(w, other, maxAttempts) && it.claim != other.claim
    ensures var (row, pc) := Act(w.row, it, maxAttempts, answers);
            AnswerFollowed(World(row, w.dispatchers, w.log + Trace(w.row, it, answers)), other, maxAttempts)
  {
    var trace := Trace(w.row, it, answers);
    ActShape(w.row, it, maxAttempts, answers);
    assert forall f <- trace :: f.claim == it.claim;
    OthersLog(w.log, trace, other.claim);
    assert Holds(w.row, it.claim) ==> !Holds(w.row, other.claim);
  }

  lemma GoKeepsRecord(w: World, it: Dispatcher, maxAttempts: nat, answers: Answers)
    requires DispatchRecorded(w) && ClaimsBounded(w)
    ensures DispatchRecorded(World(Act(w.row, it, maxAttempts, answers).0, w.dispatchers, w.log + Trace(w.row, it, answers)))
  {
    var trace := Trace(w.row, it, answers);
    var log := w.log + trace;
    if it.pc == RecordStarted && trace != [] {
      assert log[|w.log|] == RecordedStart(it.claim);
    }
  }

  lemma GoKeepsAnswered(w: World, maxAttempts: nat, k: nat, answers: Answers)
    requires Answered(w, maxAttempts) && k in w.dispatchers
    ensures Answered(Step(w, maxAttempts, Go(k, answers)), maxAttempts)
  {
    var it := w.dispatchers[k];
    var w' := Step(w, maxAttempts, Go(k, answers));
    GoKeepsSafe(w, maxAttempts, k, answers);
    GoKeepsRecord(w, it, maxAttempts, answers);
    forall l | l in w'.dispatchers ensures AnswerFollowed(w', w'.dispatchers[l], maxAttempts) {
      if l == k {
        ActorFollows(w, it, maxAttempts, answers);
      } else {
        BystanderFollows(w, it, w.dispatchers[l], maxAttempts, answers);
      }
    }
  }

  lemma StaysFollowed(w: World, w': World, it: Dispatcher, maxAttempts: nat)
    requires AnswerFollowed(w, it, maxAttempts) && w'.log == w.log && w.row.claims <= w'.row.claims
    requires Holds(w'.row, it.claim) ==> w'.row.(attempt := w.row.attempt) == w.row
    ensures AnswerFollowed(w', it, maxAttempts)
  {
  }

  /** A claim takes the next number and touches no row that another dispatcher holds. */
  lemma ClaimShape(row: Row, available: bool)
    ensures var (row', answer) := ClaimNext(row, available);
            (row'.message == Dispatched <==> row.message == Dispatched) && (row'.binding == Started <==> row.binding == Started)
            && (answer == Granted ==> row'.claims == row.claims + 1 && row'.message == Claimed)
            && (answer != Granted ==> row'.claims == row.claims && (row'.message == Claimed ==> row' == row))
  {
  }

  lemma NewClaimIsUnanswered(w: World, claim: nat)
    requires ClaimsBounded(w) && claim > w.row.claims
    ensures Unanswered(w.log, claim) && RecordedStart(claim) !in w.log
    ensures !Confirmed(w.log, claim) && !Unclear(w.log, claim) && !Retryable(w.log, claim)
  {
  }

  lemma TakeKeepsAnswered(w: World, maxAttempts: nat, e: Event)
    requires Answered(w, maxAttempts) && e.Take?
    ensures Answered(Step(w, maxAttempts, e), maxAttempts)
  {
    StepKeepsSafe(w, maxAttempts, e);
    ClaimShape(w.row, e.available);
    NewClaimIsUnanswered(w, w.row.claims + 1);
    var w' := Step(w, maxAttempts, e);
    forall k | k in w'.dispatchers ensures AnswerFollowed(w', w'.dispatchers[k], maxAttempts) {
      if k in w.dispatchers {
        StaysFollowed(w, w', w.dispatchers[k], maxAttempts);
      } else {
        TakerFollows(w, maxAttempts, e);
      }
    }
  }

  lemma TakerFollows(w: World, maxAttempts: nat, e: Event)
    requires Answered(w, maxAttempts) && e.Take? && e.dispatcher !in w.dispatchers
    requires ClaimNext(w.row, e.available).1 == Granted
    ensures var row := ClaimNext(w.row, e.available).0;
            AnswerFollowed(World(row, w.dispatchers, w.log),
                           Dispatcher(row.claims, e.adapterKey, AfterClaim(row, e.adapterKey, e.effectAvailable)), maxAttempts)
  {
    ClaimShape(w.row, e.available);
    NewClaimIsUnanswered(w, w.row.claims + 1);
  }

  lemma StepKeepsAnswered(w: World, maxAttempts: nat, e: Event)
    requires Answered(w, maxAttempts)
    ensures Answered(Step(w, maxAttempts, e), maxAttempts)
  {
    match e
    case Take(_, _, _, _) => TakeKeepsAnswered(w, maxAttempts, e);
    case Go(k, answers) => if k in w.dispatchers { GoKeepsAnswered(w, maxAttempts, k, answers); }
    case _ =>
      StepKeepsSafe(w, maxAttempts, e);
      var w' := Step(w, maxAttempts, e);
      forall k | k in w'.dispatchers ensures AnswerFollowed(w', w'.dispatchers[k], maxAttempts) {
        StaysFollowed(w, w', w.dispatchers[k], maxAttempts);
      }
  }

  lemma {:induction false} RunKeepsAnswered(w: World, maxAttempts: nat, events: seq<Event>)
    requires Answered(w, maxAttempts)
    ensures Answered(Run(w, maxAttempts, events), maxAttempts)
    decreases |events|
  {
    if events != [] {
      StepKeepsAnswered(w, maxAttempts, events[0]);
      RunKeepsAnswered(Step(w, maxAttempts, events[0]), maxAttempts, events[1..]);
    }
  }

  /**
   * In every run the message is dispatched exactly once its start was recorded under its last claim, and that came
   * after a start answered as begun, or a lookup that found it, under the same claim.
   */
  lemma DispatchedMeansStarted(maxAttempts: nat, events: seq<Event>)
    ensures var w := Run(Initial, maxAttempts, events);
            (w.row.message == Dispatched <==> w.row.binding == Started)
            && (w.row.message == Dispatched <==>
                  exists i :: 0 <= i < |w.log| && w.log[i] == RecordedStart(w.row.claims) && Confirmed(w.log[..i], w.row.claims))
  {
    RunKeepsAnswered(Initial, maxAttempts, events);
    var w := Run(Initial, maxAttempts, events);
    if w.row.message == Dispatched {
      var i :| 0 <= i < |w.log| && w.log[i] == RecordedStart(w.row.claims);
      assert Supported(w.log[..i], w.log[i]);
    }
  }

  lemma NextCallObeys(w: World, it: Dispatcher, maxAttempts: nat, answers: Answers)
    requires AnswerFollowed(w, it, maxAttempts) && Holds(w.row, it.claim) && !it.pc.Done?
    ensures var row := Act(w.row, it, maxAttempts, answers).0;
            (Confirmed(w.log, it.claim) ==> row == w.row.(message := Dispatched, binding := Started))
            && (Unclear(w.log, it.claim) && it.claim < maxAttempts ==>
                  row == w.row.(message := Available, binding := ReconciliationRequired))
            && (Unclear(w.log, it.claim) && it.claim >= maxAttempts ==>
                  row == w.row.(message := DeadLetter, binding := ReconciliationExhausted))
            && (Retryable(w.log, it.claim) && it.claim < maxAttempts && w.row.attempt == Waiting ==>
                  row == w.row.(message := Available, binding := NotStarted, adapter := None))
  {
    if Confirmed(w.log, it.claim) {
      assert it.pc == RecordStarted && !Unanswered(w.log, it.claim);
    } else if Unclear(w.log, it.claim) {
      assert !Unanswered(w.log, it.claim);
    }
  }

  /** In every run the next call of a dispatcher that was answered under a live claim does what the answer asks for. */
  lemma AnswerDecides(maxAttempts: nat, events: seq<Event>, k: nat, answers: Answers)
    requires k in Run(Initial, maxAttempts, events).dispatchers
    ensures var w := Run(Initial, maxAttempts, events);
            var row, claim := w.row, w.dispatchers[k].claim;
            var row' := Step(w, maxAttempts, Go(k, answers)).row;
            Holds(row, claim) && !w.dispatchers[k].pc.Done? ==>
              (Confirmed(w.log, claim) ==> row' == row.(message := Dispatched, binding := Started))
              && (Unclear(w.log, claim) && claim < maxAttempts ==>
                    row' == row.(message := Available, binding := ReconciliationRequired))
              && (Unclear(w.log, claim) && claim >= maxAttempts ==>
                    row' == row.(message := DeadLetter, binding := ReconciliationExhausted))
              && (Retryable(w.log, claim) && claim < maxAttempts && row.attempt == Waiting ==>
                    row' == row.(message := Available, binding := NotStarted, adapter := None))
  {
    RunKeepsAnswered(Initial, maxAttempts, events);
    var w := Run(Initial, maxAttempts, events);
    var it := w.dispatchers[k];
    assert AnswerFollowed(w, it, maxAttempts);
    if Holds(w.row, it.claim) && !it.pc.Done? { NextCallObeys(w, it, maxAttempts, answers); }
  }

  /** In every run a message is marked starting exactly under the live claim, while its binding is pending and its attempt waits. */
  lemma MarkedWhileWaiting(maxAttempts: nat, events: seq<Event>, k: nat, answers: Answers)
    requires var w := Run(Initial, maxAttempts, events); k in w.dispatchers && w.dispatchers[k].pc == MarkStarting
    ensures var w := Run(Initial, maxAttempts, events);
            var it, w' := w.dispatchers[k], Step(w, maxAttempts, Go(k, answers));
            if w.row.message == Claimed && w.row.claims == it.claim && w.row.binding == NotStarted && w.row.attempt == Waiting
            then w'.row == Row(Claimed, it.claim, Starting, Some(it.adapterKey), Waiting)
                 && w'.dispatchers[k].pc == Start && w'.log == w.log + [Marked(it.claim)]
            else w'.row == w.row && w'.dispatchers[k].pc == Done(ClaimLost) && w'.log == w.log
  {
  }

  predicate IsUpdate(pc: Pc) {
    pc == MarkStarting || pc == RecordStarted || pc == RecordRejected || pc == ResetPending || pc == MarkReconciliation
    || pc == MarkDeadLetter
  }

  /** A dispatcher that has lost its claim writes nothing to the row: its update is answered as lost. */
  lemma LostClaimWritesNothing(w: World, maxAttempts: nat, k: nat, answers: Answers)
    requires k in w.dispatchers && IsUpdate(w.dispatchers[k].pc)
    requires w.row.message != Claimed || w.row.claims != w.dispatchers[k].claim
    ensures var w' := Step(w, maxAttempts, Go(k, answers));
            w' == w.(dispatchers := w.dispatchers[k := w.dispatchers[k].(pc := Done(ClaimLost))])
  {
    assert Trace(w.row, w.dispatchers[k], answers) == [];
  }

  // ----- What an uninterrupted cycle comes to -----

  /** A message nobody starts: withdrawn with its closed attempt, refused by the claim statement, or settled before. */
  lemma UnclaimedCycle(row: Row, key: string, effectAvailable: bool, maxAttempts: nat, answers: Answers)
    requires Reachable(row) && (Settled(row) || (row.binding == NotStarted && row.attempt != Waiting))
    ensures var end := Cycle(row, key, effectAvailable, maxAttempts, answers);
            if Settled(row) then end == (row, Idle)
            else if EffectBegan(row.attempt) then end == (row, ClaimFault)
            else end == (Row(Cancelled, row.claims, Withdrawn, row.adapter, row.attempt), Idle)
  {
    ClaimFaultsIff(row, true);
  }

  /** What is left to do on a row under its live claim once the answer is known. */
  lemma OpenEnds(row: Row, key: string, maxAttempts: nat, answers: Answers)
    requires Holds(row, row.claims) && Open(row) && row.adapter == Some(key)
    ensures Finish(row, Dispatcher(row.claims, key, RecordStarted), maxAttempts, answers)
         == (row.(message := Dispatched, binding := Started), WasDispatched)
    ensures Finish(row, Dispatcher(row.claims, key, MarkReconciliation), maxAttempts, answers)
         == (row.(message := Available, binding := ReconciliationRequired), ReconciliationScheduled)
    ensures Finish(row, Dispatcher(row.claims, key, MarkDeadLetter), maxAttempts, answers)
         == (row.(message := DeadLetter, binding := ReconciliationExhausted), WasDeadLettered)
    ensures Finish(row, Dispatcher(row.claims, key, RecordRejected), maxAttempts, answers)
         == (row.(message := DeadLetter, binding := Rejected), WasRejected)
    ensures Finish(row, Dispatcher(row.claims, key, ResetPending), maxAttempts, answers)
         == if row.attempt == Waiting then (row.(message := Available, binding := NotStarted, adapter := None), RetryScheduled)
            else (row, ClaimLost)
  {
    NextCall(row, Dispatcher(row.claims, key, RecordStarted), maxAttempts, answers);
    NextCall(row, Dispatcher(row.claims, key, MarkReconciliation), maxAttempts, answers);
    NextCall(row, Dispatcher(row.claims, key, MarkDeadLetter), maxAttempts, answers);
    NextCall(row, Dispatcher(row.claims, key, RecordRejected), maxAttempts, answers);
    NextCall(row, Dispatcher(row.claims, key, ResetPending), maxAttempts, answers);
  }

  /** Closing the attempt succeeds on a waiting one when the step allows it, and on one that failed. */
  predicate Closes(a: AttemptStatus, closes: bool) {
    (a == Waiting && closes) || (a.Finished? && !a.succeeded)
  }

  function AfterClose(a: AttemptStatus): AttemptStatus {
    if a == Waiting then AttemptStatus.Finished(false, false) else a
  }

  lemma CloseEnds(row: Row, key: string, maxAttempts: nat, answers: Answers)
    requires Holds(row, row.claims) && Open(row) && row.adapter == Some(key)
    ensures Finish(row, Dispatcher(row.claims, key, CloseThenReject), maxAttempts, answers)
         == if Closes(row.attempt, answers.closes) then
              (row.(message := DeadLetter, binding := Rejected, attempt := AfterClose(row.attempt)), WasRejected)
            else if row.claims < maxAttempts then
              (row.(message := Available, binding := ReconciliationRequired), ReconciliationScheduled)
            else (row.(message := DeadLetter, binding := ReconciliationExhausted), WasDeadLettered)
  {
    NextCall(row, Dispatcher(row.claims, key, CloseThenReject), maxAttempts, answers);
    OpenEnds(row, key, maxAttempts, answers);
    OpenEnds(row.(attempt := AfterClose(row.attempt)), key, maxAttempts, answers);
  }

  /** A claimed pending message: the answer to the start decides. */
  lemma StartEnds(row: Row, key: string, maxAttempts: nat, answers: Answers)
    requires Holds(row, row.claims) && row.binding == NotStarted && row.attempt == Waiting
    ensures var end, n, start := Finish(row, Dispatcher(row.claims, key, MarkStarting), maxAttempts, answers), row.claims, answers.start;
            var refused := start == DefinitelyRejected(false) || (start == DefinitelyRejected(true) && n >= maxAttempts);
            var unclear := start == StartUnknown || (refused && !answers.closes);
            (start == Accepted || start == AlreadyStarted ==>
               end == (Row(Dispatched, n, Started, Some(key), Waiting), WasDispatched))
            && (unclear && n < maxAttempts ==>
                  end == (Row(Available, n, ReconciliationRequired, Some(key), Waiting), ReconciliationScheduled))
            && (unclear && n >= maxAttempts ==>
                  end == (Row(DeadLetter, n, ReconciliationExhausted, Some(key), Waiting), WasDeadLettered))
            && (start == DefinitelyRejected(true) && n < maxAttempts ==>
                  end == (Row(Available, n, NotStarted, None, Waiting), RetryScheduled))
            && (refused && answers.closes ==>
                  end == (Row(DeadLetter, n, Rejected, Some(key), AttemptStatus.Finished(false, false)), WasRejected))
  {
    var marked := row.(binding := Starting, adapter := Some(key));
    var it := Dispatcher(row.claims, key, MarkStarting);
    NextCall(row, it, maxAttempts, answers);
    NextCall(marked, it.(pc := Start), maxAttempts, answers);
    OpenEnds(marked, key, maxAttempts, answers);
    CloseEnds(marked, key, maxAttempts, answers);
  }

  /** A claimed binding to reconcile, under its own adapter: the lookup decides. */
  lemma FindEnds(row: Row, key: string, maxAttempts: nat, answers: Answers)
    requires Holds(row, row.claims) && Open(row) && row.adapter == Some(key)
    ensures var end, n := Finish(row, Dispatcher(row.claims, key, Find), maxAttempts, answers), row.claims;
            var last := answers.find == NotFound && n >= maxAttempts;
            var closed := Closes(row.attempt, answers.closes);
            var unclear := answers.find == FindUnknown || (last && !closed);
            (answers.find == Found ==> end == (row.(message := Dispatched, binding := Started), WasDispatched))
            && (unclear && n < maxAttempts ==>
                  end == (row.(message := Available, binding := ReconciliationRequired), ReconciliationScheduled))
            && (unclear && n >= maxAttempts ==>
                  end == (row.(message := DeadLetter, binding := ReconciliationExhausted), WasDeadLettered))
            && (answers.find == NotFound && n < maxAttempts ==>
                  end == if row.attempt == Waiting then (row.(message := Available, binding := NotStarted, adapter := None), RetryScheduled)
                         else (row, ClaimLost))
            && (last && closed ==>
                  end == (row.(message := DeadLetter, binding := Rejected, attempt := AfterClose(row.attempt)), WasRejected))
  {
    NextCall(row, Dispatcher(row.claims, key, Find), maxAttempts, answers);
    OpenEnds(row, key, maxAttempts, answers);
    CloseEnds(row, key, maxAttempts, answers);
  }

  /** From the claim on: a pending message with its adapter at hand is started, any other is looked up. */
  lemma ClaimedCycle(row: Row, key: string, effectAvailable: bool, maxAttempts: nat, answers: Answers)
    requires Reachable(row) && !Settled(row)
    requires if row.binding == NotStarted then row.attempt == Waiting && effectAvailable else row.adapter == Some(key)
    ensures var (row', end) := Cycle(row, key, effectAvailable, maxAttempts, answers);
            var pending := row.binding == NotStarted;
            var claimed := row.(message := Claimed, claims := row.claims + 1,
                                binding := if pending then NotStarted else ReconciliationRequired);
            var last := Finish(claimed, Dispatcher(row.claims + 1, key, if pending then MarkStarting else Find), maxAttempts, answers);
            (row', end) == (last.0, Ended(last.1))
  {
  }

  /** A binding of another adapter is buried without a question. */
  lemma ForeignCycle(row: Row, key: string, effectAvailable: bool, maxAttempts: nat, answers: Answers)
    requires Reachable(row) && !Settled(row) && row.binding != NotStarted && row.adapter != Some(key)
    ensures Cycle(row, key, effectAvailable, maxAttempts, answers)
         == (Row(DeadLetter, row.claims + 1, ReconciliationExhausted, row.adapter, row.attempt), Ended(WasDeadLettered))
  {
    var claimed := row.(message := Claimed, claims := row.claims + 1, binding := ReconciliationRequired);
    assert ClaimNext(row, true) == (claimed, Granted);
    NextCall(claimed, Dispatcher(claimed.claims, key, MarkDeadLetter), maxAttempts, answers);
  }

  /** A pending message whose effect adapter is not offered: its attempt is closed, and it is never started. */
  lemma UnavailableCycle(row: Row, key: string, maxAttempts: nat, answers: Answers)
    requires Reachable(row) && !Settled(row) && row.binding == NotStarted && row.attempt == Waiting
    ensures var end, n := Cycle(row, key, false, maxAttempts, answers), row.claims + 1;
            end == if answers.closes then
                     (Row(DeadLetter, n, Rejected, None, AttemptStatus.Finished(false, false)), Ended(WasDeadLettered))
                   else if n < maxAttempts then (Row(Claimed, n, NotStarted, None, Waiting), Ended(ClaimLost))
                   else (Row(DeadLetter, n, Rejected, None, Waiting), Ended(WasDeadLettered))
  {
    var claimed := row.(message := Claimed, claims := row.claims + 1);
    var closed := CloseAttempt(claimed, answers.closes).0;
    assert ClaimNext(row, true) == (claimed, Granted);
    NextCall(claimed, Dispatcher(claimed.claims, key, CloseUnavailable), maxAttempts, answers);
    NextCall(closed, Dispatcher(claimed.claims, key, MarkDeadLetter), maxAttempts, answers);
    NextCall(closed, Dispatcher(claimed.claims, key, MarkReconciliation), maxAttempts, answers);
  }

  /** A start answered as begun for a pending message, a lookup that found it for one to reconcile. */
  predicate Begins(row: Row, key: string, effectAvailable: bool, answers: Answers) {
    if row.binding == NotStarted then
      row.attempt == Waiting && effectAvailable && (answers.start == Accepted || answers.start == AlreadyStarted)
    else row.adapter == Some(key) && answers.find == Found
  }

  /** The question went unanswered: neither begun nor refused. */
  predicate LeavesDoubt(row: Row, key: string, effectAvailable: bool, answers: Answers) {
    if row.binding == NotStarted then row.attempt == Waiting && effectAvailable && answers.start == StartUnknown
    else row.adapter == Some(key) && answers.find == FindUnknown
  }

  /** A cycle dispatches exactly on a confirmed start, and a doubt is kept for reconciliation until the last claim. */
  lemma CycleDispatchesIff(row: Row, key: string, effectAvailable: bool, maxAttempts: nat, answers: Answers)
    requires Reachable(row)
    ensures var (row', end) := Cycle(row, key, effectAvailable, maxAttempts, answers);
            (end == Ended(WasDispatched) <==> !Settled(row) && Begins(row, key, effectAvailable, answers))
            && (end == Ended(WasDispatched) ==> row' == Row(Dispatched, row.claims + 1, Started, Some(key), row.attempt))
            && (!Settled(row) && LeavesDoubt(row, key, effectAvailable, answers) && row.claims + 1 < maxAttempts ==>
                  end == Ended(ReconciliationScheduled)
                  && row' == Row(Available, row.claims + 1, ReconciliationRequired, Some(key), row.attempt))
  {
    if Settled(row) || (row.binding == NotStarted && row.attempt != Waiting) {
      UnclaimedCycle(row, key, effectAvailable, maxAttempts, answers);
    } else if row.binding == NotStarted {
      if effectAvailable {
        ClaimedCycle(row, key, effectAvailable, maxAttempts, answers);
        StartEnds(row.(message := Claimed, claims := row.claims + 1), key, maxAttempts, answers);
      } else {
        UnavailableCycle(row, key, maxAttempts, answers);
      }
    } else if row.adapter == Some(key) {
      ClaimedCycle(row, key, effectAvailable, maxAttempts, answers);
      FindEnds(row.(message := Claimed, claims := row.claims + 1, binding := ReconciliationRequired), key, maxAttempts, answers);
    } else {
      ForeignCycle(row, key, effectAvailable, maxAttempts, answers);
    }
  }
}
