/** What the outbox keeps over every interleaving of dispatchers, lease expiries and crashes. */
module LeafOutboxSafety {
  import opened Outcomes
  import opened LeafOutbox

  /** `begun`: whether the effect of the attempt had begun when its closing was asked. */
  datatype Fact =
    | Marked(claim: nat)
    | StartIssued(claim: nat, start: StartAnswer)
    | LookedUp(claim: nat, find: FindAnswer)
    | ClosedAttempt(claim: nat, begun: bool)
    | CloseRefused(claim: nat)
    | WasReset(claim: nat)
    | RecordedStart(claim: nat)
    | Rejects(claim: nat)
    | Buried(claim: nat)

  datatype World = World(row: Row, dispatchers: map<nat, Dispatcher>, log: seq<Fact>)

  datatype Event =
    | Take(dispatcher: nat, adapterKey: string, effectAvailable: bool, available: bool)
    | Go(dispatcher: nat, answers: Answers)
    | Crash(dispatcher: nat)
    | AttemptMoves(next: AttemptStatus)

  /** What the attempt may do on its own: begin, conclude, or be closed before it began. */
  predicate Moves(now: AttemptStatus, next: AttemptStatus) {
    match now
    case Waiting => next == InProgress || next == AttemptStatus.Finished(false, false)
    case InProgress => next.Finished? && next.effectStarted
    case Finished(_, _) => false
  }

  function CloseFact(row: Row, claim: nat, closes: bool): Fact {
    if CloseAttempt(row, closes).1 then ClosedAttempt(claim, EffectBegan(row.attempt)) else CloseRefused(claim)
  }

  /** The trace a port call leaves. */
  function Trace(row: Row, it: Dispatcher, answers: Answers): seq<Fact> {
    match it.pc
    case MarkStarting => if MarkStartingAs(row, it.claim, it.adapterKey).1 then [Marked(it.claim)] else []
    case Start => [StartIssued(it.claim, answers.start)]
    case Find => [LookedUp(it.claim, answers.find)]
    case RecordStarted => if RecordStartedBy(row, it.claim, it.adapterKey).1 then [RecordedStart(it.claim)] else []
    case CloseUnavailable => [CloseFact(row, it.claim, answers.closes)]
    case CloseThenReject => [CloseFact(row, it.claim, answers.closes)]
    case ResetPending => if Reset(row, it.claim).1 then [WasReset(it.claim)] else []
    case RecordRejected => if Reject(row, it.claim).1 then [Rejects(it.claim)] else []
    case MarkDeadLetter => if Bury(row, it.claim).1 then [Buried(it.claim)] else []
    case _ => []
  }

  function Step(w: World, maxAttempts: nat, e: Event): World {
    match e
    case Take(k, adapterKey, effectAvailable, available) =>
      if k in w.dispatchers then w
      else
        var (row, answer) := ClaimNext(w.row, available);
        if answer != Granted then w.(row := row)
        else
          var it := Dispatcher(row.claims, adapterKey, AfterClaim(row, adapterKey, effectAvailable));
          w.(row := row, dispatchers := w.dispatchers[k := it])
    case Go(k, answers) =>
      if k !in w.dispatchers then w
      else
        var it := w.dispatchers[k];
        var (row, pc) := Act(w.row, it, maxAttempts, answers);
        World(row, w.dispatchers[k := it.(pc := pc)], w.log + Trace(w.row, it, answers))
    case Crash(k) => w.(dispatchers := w.dispatchers - {k})
    case AttemptMoves(next) =>
      if Moves(w.row.attempt, next) then w.(row := w.row.(attempt := next)) else w
  }

  const Initial: World := World(Posted, map[], [])

  function Run(w: World, maxAttempts: nat, events: seq<Event>): World
    decreases |events|
  {
    if events == [] then w else Run(Step(w, maxAttempts, events[0]), maxAttempts, events[1..])
  }

  // ----- Invariants -----

  ghost predicate ClosedUnder(log: seq<Fact>, claim: nat) {
    exists begun :: ClosedAttempt(claim, begun) in log
  }

  /** A start was answered as begun, or a lookup found it. */
  ghost predicate Confirmed(log: seq<Fact>, claim: nat) {
    StartIssued(claim, Accepted) in log || StartIssued(claim, AlreadyStarted) in log || LookedUp(claim, Found) in log
  }

  ghost predicate Supported(log: seq<Fact>, fact: Fact) {
    match fact
    case RecordedStart(c) => Confirmed(log, c)
    case StartIssued(c, _) => Marked(c) in log
    case WasReset(c) => LookedUp(c, NotFound) in log || StartIssued(c, DefinitelyRejected(true)) in log
    case Rejects(c) => ClosedUnder(log, c)
    case _ => true
  }

  /** Every fact is supported by what was logged before it. */
  ghost predicate LogSupported(log: seq<Fact>) {
    forall i :: 0 <= i < |log| ==> Supported(log[..i], log[i])
  }

  ghost predicate ResetBetween(log: seq<Fact>, i: int, j: int) {
    exists r :: i < r < j && 0 <= r < |log| && log[r].WasReset?
  }

  /** A binding is marked again only after it was reset. */
  ghost predicate MarksNeedResets(w: World) {
    (forall i, j :: 0 <= i < j < |w.log| && w.log[i].Marked? && w.log[j].Marked? ==> ResetBetween(w.log, i, j))
    && (w.row.binding == NotStarted ==>
          forall i :: 0 <= i < |w.log| && w.log[i].Marked? ==> ResetBetween(w.log, i, |w.log|))
  }

  ghost predicate DispatcherSafe(w: World, it: Dispatcher) {
    it.claim <= w.row.claims
    && match it.pc
       case MarkStarting => forall a :: StartIssued(it.claim, a) !in w.log
       case Start =>
         Marked(it.claim) in w.log && (Holds(w.row, it.claim) ==> w.row.binding == Starting)
         && forall a :: StartIssued(it.claim, a) !in w.log
       case ResetPending => Supported(w.log, WasReset(it.claim))
       case RecordRejected => ClosedUnder(w.log, it.claim)
       case MarkDeadLetter =>
         Holds(w.row, it.claim) && w.row.binding == NotStarted ==>
           ClosedUnder(w.log, it.claim) || CloseRefused(it.claim) in w.log
       case Find => Holds(w.row, it.claim) ==> Open(w.row)
       case MarkReconciliation => true
       case CloseThenReject => true
       case CloseUnavailable => true
       case RecordStarted => Confirmed(w.log, it.claim)
       case Done(_) => true
  }

  /** A closed attempt did not succeed, and it started its effect exactly if that had begun before the close. */
  ghost predicate ClosesAreFinal(w: World) {
    forall f <- w.log :: f.ClosedAttempt? ==> w.row.attempt == AttemptStatus.Finished(f.begun, false)
  }

  ghost predicate BuriedUnclosed(log: seq<Fact>) {
    exists c :: CloseRefused(c) in log && Buried(c) in log
  }

  ghost predicate RejectionBacked(w: World) {
    w.row.binding == Rejected ==> (exists c :: ClosedUnder(w.log, c)) || BuriedUnclosed(w.log)
  }

  ghost predicate Safe(w: World) {
    Reachable(w.row) && LogSupported(w.log) && MarksNeedResets(w)
    && (forall k :: k in w.dispatchers ==> DispatcherSafe(w, w.dispatchers[k]))
    && (forall k, l :: k in w.dispatchers && l in w.dispatchers && k != l ==>
          w.dispatchers[k].claim != w.dispatchers[l].claim)
    && ClaimsBounded(w) && StartsDistinct(w.log) && ClosesAreFinal(w) && RejectionBacked(w)
  }

  // ----- Each step keeps them -----

  /** What one port call may do to the row. */
  lemma ActShape(row: Row, it: Dispatcher, maxAttempts: nat, answers: Answers)
    ensures var row' := Act(row, it, maxAttempts, answers).0;
            row'.claims == row.claims
            && (row'.attempt == row.attempt || (row.attempt == Waiting && row'.attempt == AttemptStatus.Finished(false, false)))
            && (!Holds(row, it.claim) ==> row'.(attempt := row.attempt) == row)
            && (Reachable(row) ==> Reachable(row'))
            && (Settled(row) ==> row'.(attempt := row.attempt) == row)
  {
  }

  lemma AppendKeepsSupport(log: seq<Fact>, trace: seq<Fact>)
    requires LogSupported(log) && |trace| <= 1 && forall f <- trace :: Supported(log, f)
    ensures LogSupported(log + trace)
  {
    var longer := log + trace;
    forall i | 0 <= i < |longer| ensures Supported(longer[..i], longer[i]) {
      if i < |log| {
        assert longer[..i] == log[..i];
      } else {
        assert longer[..i] == log;
        assert trace[i - |log|] in trace;
      }
    }
  }

  lemma MarksStep(w: World, it: Dispatcher, maxAttempts: nat, answers: Answers)
    requires MarksNeedResets(w)
    ensures MarksNeedResets(World(Act(w.row, it, maxAttempts, answers).0, w.dispatchers,
                                  w.log + Trace(w.row, it, answers)))
  {
    var trace := Trace(w.row, it, answers);
    var log' := w.log + trace;
    var row' := Act(w.row, it, maxAttempts, answers).0;
    forall i, j | 0 <= i < j < |log'| && log'[i].Marked? && log'[j].Marked? ensures ResetBetween(log', i, j) {
      if j < |w.log| {
        assert ResetBetween(w.log, i, j);
        var r :| i < r < j && 0 <= r < |w.log| && w.log[r].WasReset?;
        assert log'[r].WasReset?;
      } else {
        assert w.row.binding == NotStarted;
        assert ResetBetween(w.log, i, |w.log|);
        var r :| i < r < |w.log| && 0 <= r < |w.log| && w.log[r].WasReset?;
        assert log'[r].WasReset?;
      }
    }
    if row'.binding == NotStarted {
      forall i | 0 <= i < |log'| && log'[i].Marked? ensures ResetBetween(log', i, |log'|) {
        if w.row.binding == NotStarted {
          assert ResetBetween(w.log, i, |w.log|);
          var r :| i < r < |w.log| && 0 <= r < |w.log| && w.log[r].WasReset?;
          assert log'[r].WasReset?;
        } else {
          assert log'[|w.log|].WasReset?;
        }
      }
    }
  }

  /** Another dispatcher's step, or its own, leaves every dispatcher safe. */
  lemma BystanderStaysSafe(w: World, it: Dispatcher, other: Dispatcher, maxAttempts: nat, answers: Answers)
    requires DispatcherSafe(w, it) && DispatcherSafe(w, other) && it.claim != other.claim
    ensures DispatcherSafe(World(Act(w.row, it, maxAttempts, answers).0, w.dispatchers,
                                 w.log + Trace(w.row, it, answers)), other)
  {
  }

  lemma ActorStaysSafe(w: World, it: Dispatcher, maxAttempts: nat, answers: Answers)
    requires DispatcherSafe(w, it) && Reachable(w.row)
    ensures var (row', pc) := Act(w.row, it, maxAttempts, answers);
            DispatcherSafe(World(row', w.dispatchers, w.log + Trace(w.row, it, answers)), it.(pc := pc))
  {
    var (row', pc) := Act(w.row, it, maxAttempts, answers);
    var trace := Trace(w.row, it, answers);
    var log' := w.log + trace;
    if it.pc.MarkStarting? && pc == Start {
      assert log'[|w.log|] == Marked(it.claim);
    } else if it.pc == Start {
      assert log'[|w.log|] == StartIssued(it.claim, answers.start);
    } else if it.pc == Find {
      assert log'[|w.log|] == LookedUp(it.claim, answers.find);
    } else if it.pc == CloseUnavailable || it.pc == CloseThenReject {
      assert log'[|w.log|] == trace[0];
    }
  }

  lemma RejectedIsBacked(w: World, it: Dispatcher, maxAttempts: nat, answers: Answers)
    requires DispatcherSafe(w, it) && Reachable(w.row) && RejectionBacked(w) && ClosesAreFinal(w)
    ensures var w' := World(Act(w.row, it, maxAttempts, answers).0, w.dispatchers, w.log + Trace(w.row, it, answers));
            RejectionBacked(w') && ClosesAreFinal(w')
  {
    var log' := w.log + Trace(w.row, it, answers);
    forall c | ClosedUnder(w.log, c) ensures ClosedUnder(log', c) {
      var begun :| ClosedAttempt(c, begun) in w.log;
      assert ClosedAttempt(c, begun) in log';
    }
  }

  ghost predicate ClaimsBounded(w: World) {
    forall i :: 0 <= i < |w.log| ==> w.log[i].claim <= w.row.claims
  }

  ghost predicate StartsDistinct(log: seq<Fact>) {
    forall i, j :: 0 <= i < j < |log| && log[i].StartIssued? && log[j].StartIssued? ==> log[i].claim != log[j].claim
  }

  lemma LogStaysBounded(w: World, it: Dispatcher, maxAttempts: nat, answers: Answers)
    requires DispatcherSafe(w, it) && ClaimsBounded(w) && StartsDistinct(w.log)
    ensures var w' := World(Act(w.row, it, maxAttempts, answers).0, w.dispatchers, w.log + Trace(w.row, it, answers));
            ClaimsBounded(w') && StartsDistinct(w'.log)
  {
  }

  lemma DispatchersStaySafe(w: World, maxAttempts: nat, k: nat, answers: Answers, l: nat)
    requires Safe(w) && k in w.dispatchers && l in w.dispatchers
    ensures var w' := Step(w, maxAttempts, Go(k, answers));
            l in w'.dispatchers && DispatcherSafe(w', w'.dispatchers[l])
            && w'.dispatchers[l].claim == w.dispatchers[l].claim
  {
    var it := w.dispatchers[k];
    if l == k {
      ActorStaysSafe(w, it, maxAttempts, answers);
    } else {
      BystanderStaysSafe(w, it, w.dispatchers[l], maxAttempts, answers);
    }
  }

  lemma GoKeepsSafe(w: World, maxAttempts: nat, k: nat, answers: Answers)
    requires Safe(w) && k in w.dispatchers
    ensures Safe(Step(w, maxAttempts, Go(k, answers)))
  {
    var it := w.dispatchers[k];
    var w' := Step(w, maxAttempts, Go(k, answers));
    ActShape(w.row, it, maxAttempts, answers);
    AppendKeepsSupport(w.log, Trace(w.row, it, answers));
    MarksStep(w, it, maxAttempts, answers);
    RejectedIsBacked(w, it, maxAttempts, answers);
    LogStaysBounded(w, it, maxAttempts, answers);
    assert w'.dispatchers.Keys == w.dispatchers.Keys;
    forall l | l in w.dispatchers
      ensures DispatcherSafe(w', w'.dispatchers[l]) && w'.dispatchers[l].claim == w.dispatchers[l].claim
    {
      DispatchersStaySafe(w, maxAttempts, k, answers, l);
    }
  }

  lemma TakeKeepsSafe(w: World, maxAttempts: nat, e: Event)
    requires Safe(w) && e.Take?
    ensures Safe(Step(w, maxAttempts, e))
  {
    var w' := Step(w, maxAttempts, e);
    forall k | k in w'.dispatchers ensures DispatcherSafe(w', w'.dispatchers[k]) {
      if k in w.dispatchers {
        assert DispatcherSafe(w, w.dispatchers[k]);
      } else {
        assert forall f <- w.log :: f.claim <= w.row.claims;
      }
    }
  }

  lemma StepKeepsSafe(w: World, maxAttempts: nat, e: Event)
    requires Safe(w)
    ensures Safe(Step(w, maxAttempts, e))
  {
    match e
    case Take(_, _, _, _) => TakeKeepsSafe(w, maxAttempts, e);
    case Go(k, answers) => if k in w.dispatchers { GoKeepsSafe(w, maxAttempts, k, answers); }
    case Crash(_) =>
    case AttemptMoves(next) =>
      var w' := Step(w, maxAttempts, e);
      forall k | k in w'.dispatchers ensures DispatcherSafe(w', w'.dispatchers[k]) {
        assert DispatcherSafe(w, w.dispatchers[k]);
      }
  }

  lemma {:induction false} RunKeepsSafe(w: World, maxAttempts: nat, events: seq<Event>)
    requires Safe(w)
    ensures Safe(Run(w, maxAttempts, events))
    decreases |events|
  {
    if events != [] {
      StepKeepsSafe(w, maxAttempts, events[0]);
      RunKeepsSafe(Step(w, maxAttempts, events[0]), maxAttempts, events[1..]);
    }
  }

  lemma {:induction false} RunAppend(w: World, maxAttempts: nat, events: seq<Event>, later: seq<Event>)
    ensures Run(w, maxAttempts, events + later) == Run(Run(w, maxAttempts, events), maxAttempts, later)
    decreases |events|
  {
    if events == [] {
      assert events + later == later;
    } else {
      assert (events + later)[1..] == events[1..] + later;
      RunAppend(Step(w, maxAttempts, events[0]), maxAttempts, events[1..], later);
    }
  }

  lemma RunTwo(w: World, maxAttempts: nat, a: Event, b: Event)
    ensures Run(w, maxAttempts, [a, b]) == Step(Step(w, maxAttempts, a), maxAttempts, b)
  {
    assert [a, b][1..] == [b] && [b][1..] == [];
    assert Run(w, maxAttempts, [a, b]) == Run(Step(w, maxAttempts, a), maxAttempts, [b]);
    assert Run(Step(w, maxAttempts, a), maxAttempts, [b]) == Run(Step(Step(w, maxAttempts, a), maxAttempts, b), maxAttempts, []);
  }

  /** The first dispatcher has marked the message and is about to start it. */
  function AboutToStart(key: string): World {
    World(Row(Claimed, 1, Starting, Some(key), Waiting), map[0 := Dispatcher(1, key, Start)], [Marked(1)])
  }

  lemma TakenAndMarked(maxAttempts: nat, key: string, answers: Answers)
    ensures Run(Initial, maxAttempts, [Take(0, key, true, true), Go(0, answers)]) == AboutToStart(key)
  {
    RunTwo(Initial, maxAttempts, Take(0, key, true, true), Go(0, answers));
    assert Step(Initial, maxAttempts, Take(0, key, true, true))
        == World(Row(Claimed, 1, NotStarted, None, Waiting), map[0 := Dispatcher(1, key, MarkStarting)], []);
  }

  // ----- What the log says about every run -----

  /** A start call follows the durable mark made under the same claim, and no claim issues two. */
  lemma StartsFollowTheirMark(maxAttempts: nat, events: seq<Event>, i: nat)
    requires i < |Run(Initial, maxAttempts, events).log| && Run(Initial, maxAttempts, events).log[i].StartIssued?
    ensures var log := Run(Initial, maxAttempts, events).log;
            Marked(log[i].claim) in log[..i]
            && forall j :: 0 <= j < |log| && j != i && log[j].StartIssued? ==> log[j].claim != log[i].claim
  {
    RunKeepsSafe(Initial, maxAttempts, events);
    var log := Run(Initial, maxAttempts, events).log;
    assert Supported(log[..i], log[i]);
    assert StartsDistinct(log);
  }

  /**
   * Between two "starting" marks the message went back to pending, and that took a lookup that found
   * nothing or a definite retryable rejection under the same claim.
   */
  lemma RestartNeedsProof(maxAttempts: nat, events: seq<Event>, i: nat, j: nat)
    requires i < j < |Run(Initial, maxAttempts, events).log|
    requires Run(Initial, maxAttempts, events).log[i].Marked? && Run(Initial, maxAttempts, events).log[j].Marked?
    ensures var log := Run(Initial, maxAttempts, events).log;
            exists r :: i < r < j && log[r].WasReset?
                        && (LookedUp(log[r].claim, NotFound) in log[..r]
                            || StartIssued(log[r].claim, DefinitelyRejected(true)) in log[..r])
  {
    RunKeepsSafe(Initial, maxAttempts, events);
    var log := Run(Initial, maxAttempts, events).log;
    assert ResetBetween(log, i, j);
    var r :| i < r < j && 0 <= r < |log| && log[r].WasReset?;
    assert Supported(log[..r], log[r]);
  }

  /**
   * A message is recorded rejected only after its attempt was closed under the same claim. The close also
   * answers success for an attempt that failed after its effect began, so the attempt never started its
   * effect exactly when the effect had not begun at the time the close was asked.
   */
  lemma RejectedUnstartedIff(maxAttempts: nat, events: seq<Event>, i: nat)
    requires i < |Run(Initial, maxAttempts, events).log| && Run(Initial, maxAttempts, events).log[i].Rejects?
    ensures var w := Run(Initial, maxAttempts, events);
            w.row.attempt.Finished? && !w.row.attempt.succeeded
            && exists begun :: ClosedAttempt(w.log[i].claim, begun) in w.log[..i]
                               && (w.row.attempt.effectStarted <==> begun)
  {
    RunKeepsSafe(Initial, maxAttempts, events);
    var w := Run(Initial, maxAttempts, events);
    assert Supported(w.log[..i], w.log[i]);
    var begun :| ClosedAttempt(w.log[i].claim, begun) in w.log[..i];
    assert ClosedAttempt(w.log[i].claim, begun) in w.log;
  }

  /** Unless it was buried after a refused close, a rejected binding has such a closed attempt. */
  lemma RejectionClosesTheAttempt(maxAttempts: nat, events: seq<Event>)
    requires Run(Initial, maxAttempts, events).row.binding == Rejected
    ensures var w := Run(Initial, maxAttempts, events);
            BuriedUnclosed(w.log)
            || (w.row.attempt.Finished? && !w.row.attempt.succeeded
                && exists f <- w.log :: f.ClosedAttempt? && (w.row.attempt.effectStarted <==> f.begun))
  {
    RunKeepsSafe(Initial, maxAttempts, events);
    var w := Run(Initial, maxAttempts, events);
    if !BuriedUnclosed(w.log) {
      var c :| ClosedUnder(w.log, c);
      var begun :| ClosedAttempt(c, begun) in w.log;
      assert ClosedAttempt(c, begun).begun == begun;
    }
  }

  /** The orchestrator rejects a start whose effect began and failed meanwhile: the message ends rejected. */
  lemma StartedAttemptIsRejected(maxAttempts: nat, key: string)
    ensures var no := Answers(DefinitelyRejected(false), NotFound, false);
            var w := Run(Initial, maxAttempts, [Take(0, key, true, true), Go(0, no)]
                                               + [AttemptMoves(InProgress), AttemptMoves(AttemptStatus.Finished(true, false))]
                                               + [Go(0, no), Go(0, no)] + [Go(0, no)]);
            w.row == Row(DeadLetter, 1, Rejected, Some(key), AttemptStatus.Finished(true, false))
            && w.log == [Marked(1), StartIssued(1, DefinitelyRejected(false)), ClosedAttempt(1, true), Rejects(1)]
  {
    var no := Answers(DefinitelyRejected(false), NotFound, false);
    var failed := AttemptStatus.Finished(true, false);
    var first, moves := [Take(0, key, true, true), Go(0, no)], [AttemptMoves(InProgress), AttemptMoves(failed)];
    TakenAndMarked(maxAttempts, key, no);
    RunAppend(Initial, maxAttempts, first, moves);
    RunTwo(AboutToStart(key), maxAttempts, AttemptMoves(InProgress), AttemptMoves(failed));
    RunAppend(Initial, maxAttempts, first + moves, [Go(0, no), Go(0, no)]);
    RunAppend(Initial, maxAttempts, first + moves + [Go(0, no), Go(0, no)], [Go(0, no)]);
    RejectedFrom(maxAttempts, key, no);
  }

  lemma RejectedFrom(maxAttempts: nat, key: string, no: Answers)
    requires no.start == DefinitelyRejected(false)
    ensures var failed := AttemptStatus.Finished(true, false);
            var started := AboutToStart(key).(row := AboutToStart(key).row.(attempt := failed));
            Run(Run(started, maxAttempts, [Go(0, no), Go(0, no)]), maxAttempts, [Go(0, no)])
            == World(Row(DeadLetter, 1, Rejected, Some(key), failed), map[0 := Dispatcher(1, key, Done(WasRejected))],
                     [Marked(1), StartIssued(1, DefinitelyRejected(false)), ClosedAttempt(1, true), Rejects(1)])
  {
    var failed := AttemptStatus.Finished(true, false);
    var w0 := AboutToStart(key).(row := AboutToStart(key).row.(attempt := failed));
    RunTwo(w0, maxAttempts, Go(0, no), Go(0, no));
    var w1 := Step(w0, maxAttempts, Go(0, no));
    assert w1 == World(w0.row, map[0 := Dispatcher(1, key, CloseThenReject)], [Marked(1), StartIssued(1, no.start)]);
    var w2 := Step(w1, maxAttempts, Go(0, no));
    assert w2 == World(w0.row, map[0 := Dispatcher(1, key, RecordRejected)],
                       [Marked(1), StartIssued(1, no.start), ClosedAttempt(1, true)]);
    assert [Go(0, no)][1..] == [];
    assert Run(w2, maxAttempts, [Go(0, no)]) == Run(Step(w2, maxAttempts, Go(0, no)), maxAttempts, []);
  }

  // ----- Uninterrupted cycles -----

  lemma {:induction false} FinishKeepsReachable(row: Row, it: Dispatcher, maxAttempts: nat, answers: Answers)
    requires Reachable(row)
    ensures var row' := Finish(row, it, maxAttempts, answers).0;
            Reachable(row') && row'.claims == row.claims && (Settled(row) ==> Settled(row'))
    decreases CallsLeft(it.pc)
  {
    if !it.pc.Done? {
      ActShape(row, it, maxAttempts, answers);
      var (next, pc) := Act(row, it, maxAttempts, answers);
      FinishKeepsReachable(next, it.(pc := pc), maxAttempts, answers);
    }
  }

  lemma CycleKeepsReachable(row: Row, adapterKey: string, effectAvailable: bool, maxAttempts: nat, answers: Answers)
    requires Reachable(row)
    ensures var (row', end) := Cycle(row, adapterKey, effectAvailable, maxAttempts, answers);
            Reachable(row') && (Settled(row) ==> Settled(row'))
            && (end.Ended? ==> row'.claims == row.claims + 1)
            && (end.Idle? ==> Settled(row'))
            && (end.ClaimFault? <==> BegunWhilePending(row)) && (end.ClaimFault? ==> row' == row)
  {
    ClaimFaultsIff(row, true);
    var (claimed, answer) := ClaimNext(row, true);
    if answer == Granted {
      var it := Dispatcher(claimed.claims, adapterKey, AfterClaim(claimed, adapterKey, effectAvailable));
      FinishKeepsReachable(claimed, it, maxAttempts, answers);
    }
  }

  /** One cycle and how far the attempt came before it. */
  datatype Round = Round(attempt: AttemptStatus, adapterKey: string, effectAvailable: bool, answers: Answers)

  function Before(row: Row, r: Round): Row {
    if Moves(row.attempt, r.attempt) then row.(attempt := r.attempt) else row
  }

  function Rounds(row: Row, maxAttempts: nat, rounds: seq<Round>): Row
    decreases |rounds|
  {
    if rounds == [] then row
    else
      var r := rounds[0];
      Rounds(Cycle(Before(row, r), r.adapterKey, r.effectAvailable, maxAttempts, r.answers).0, maxAttempts, rounds[1..])
  }

  /** No claim of these rounds meets a pending binding whose attempt has begun. */
  predicate NoClaimFaults(row: Row, maxAttempts: nat, rounds: seq<Round>)
    decreases |rounds|
  {
    rounds == []
    || (!BegunWhilePending(Before(row, rounds[0]))
        && NoClaimFaults(Cycle(Before(row, rounds[0]), rounds[0].adapterKey, rounds[0].effectAvailable, maxAttempts,
                               rounds[0].answers).0, maxAttempts, rounds[1..]))
  }

  /** Once begun while pending, no later round settles the message or even claims it. */
  lemma {:induction false} FaultingRoundsStay(row: Row, maxAttempts: nat, rounds: seq<Round>)
    requires BindingCheck(row) && BegunWhilePending(row)
    ensures var after := Rounds(row, maxAttempts, rounds);
            BegunWhilePending(after) && after.claims == row.claims && !Settled(after)
    decreases |rounds|
  {
    if rounds != [] {
      ClaimFaultsIff(Before(row, rounds[0]), true);
      FaultingRoundsStay(Before(row, rounds[0]), maxAttempts, rounds[1..]);
    }
  }

  /** A message settles within `maxAttempts` rounds exactly when none of them meets a begun attempt behind a pending binding. */
  lemma {:induction false} SettlesWithinMaxAttempts(row: Row, maxAttempts: nat, rounds: seq<Round>)
    requires Reachable(row)
    requires (|rounds| > 0 && row.claims + |rounds| >= maxAttempts) || Settled(row)
    ensures Settled(Rounds(row, maxAttempts, rounds)) <==> NoClaimFaults(row, maxAttempts, rounds)
    decreases |rounds|
  {
    if rounds != [] {
      var r := rounds[0];
      var now := Before(row, r);
      var next := Cycle(now, r.adapterKey, r.effectAvailable, maxAttempts, r.answers).0;
      CycleKeepsReachable(now, r.adapterKey, r.effectAvailable, maxAttempts, r.answers);
      if BegunWhilePending(now) {
        FaultingRoundsStay(now, maxAttempts, rounds[1..]);
      } else {
        if now.claims + 1 >= maxAttempts {
          LastCycleSettlesIff(now, r.adapterKey, r.effectAvailable, maxAttempts, r.answers);
        }
        SettlesWithinMaxAttempts(next, maxAttempts, rounds[1..]);
      }
    }
  }

  /** Unclaimed and begun while pending, a message stays so in every interleaving: nothing can settle it. */
  lemma {:induction false} BegunWhilePendingIsForever(w: World, maxAttempts: nat, events: seq<Event>)
    requires BindingCheck(w.row) && BegunWhilePending(w.row) && w.row.message == Available
    ensures var row := Run(w, maxAttempts, events).row;
            BegunWhilePending(row) && row == w.row.(attempt := row.attempt)
    decreases |events|
  {
    if events != [] {
      match events[0] {
        case Take(_, _, _, available) => ClaimFaultsIff(w.row, available);
        case Go(k, answers) => if k in w.dispatchers { ActShape(w.row, w.dispatchers[k], maxAttempts, answers); }
        case _ =>
      }
      BegunWhilePendingIsForever(Step(w, maxAttempts, events[0]), maxAttempts, events[1..]);
    }
  }

  /** A reset after a retryable rejection, and then the effect begins: no later event settles the message. */
  lemma ResetThenBegunNeverSettles(maxAttempts: nat, key: string, later: seq<Event>)
    requires maxAttempts > 1
    ensures var no := Answers(DefinitelyRejected(true), NotFound, false);
            var w := Run(Initial, maxAttempts, [Take(0, key, true, true), Go(0, no)] + [Go(0, no), Go(0, no)]
                                               + [AttemptMoves(InProgress)]);
            w.row == Row(Available, 1, NotStarted, None, InProgress)
            && ClaimNext(w.row, true) == (w.row, Faulted)
            && !Settled(Run(w, maxAttempts, later).row) && Run(w, maxAttempts, later).row.claims == 1
  {
    var no := Answers(DefinitelyRejected(true), NotFound, false);
    var first := [Take(0, key, true, true), Go(0, no)];
    TakenAndMarked(maxAttempts, key, no);
    RunAppend(Initial, maxAttempts, first, [Go(0, no), Go(0, no)]);
    RunAppend(Initial, maxAttempts, first + [Go(0, no), Go(0, no)], [AttemptMoves(InProgress)]);
    ResetFrom(maxAttempts, key, no);
    var w := Run(Initial, maxAttempts, first + [Go(0, no), Go(0, no)] + [AttemptMoves(InProgress)]);
    BegunWhilePendingIsForever(w, maxAttempts, later);
  }

  lemma ResetFrom(maxAttempts: nat, key: string, no: Answers)
    requires maxAttempts > 1 && no.start == DefinitelyRejected(true)
    ensures Run(Run(AboutToStart(key), maxAttempts, [Go(0, no), Go(0, no)]), maxAttempts, [AttemptMoves(InProgress)]).row
         == Row(Available, 1, NotStarted, None, InProgress)
  {
    RunTwo(AboutToStart(key), maxAttempts, Go(0, no), Go(0, no));
    var w1 := Step(AboutToStart(key), maxAttempts, Go(0, no));
    assert w1.dispatchers == map[0 := Dispatcher(1, key, ResetPending)] && w1.row == AboutToStart(key).row;
    var w2 := Step(w1, maxAttempts, Go(0, no));
    assert w2.row == Row(Available, 1, NotStarted, None, Waiting);
    var moves := [AttemptMoves(InProgress)];
    assert moves[1..] == [];
    assert Run(w2, maxAttempts, moves) == Run(Step(w2, maxAttempts, moves[0]), maxAttempts, []);
  }

  /**
   * An uninterrupted cycle records a message as rejected while its attempt is still waiting exactly
   * when its effect adapter is unavailable, the close fails, and no claim is left.
   */
  lemma UnclosedBurialIff(row: Row, r: Round, maxAttempts: nat)
    requires Reachable(row) && row.attempt == Waiting && !Settled(row)
    ensures var row' := Cycle(row, r.adapterKey, r.effectAvailable, maxAttempts, r.answers).0;
            row'.binding == Rejected && row'.attempt == Waiting
            <==> row.binding == NotStarted && !r.effectAvailable && !r.answers.closes && row.claims + 1 >= maxAttempts
  {
    var claimed := ClaimNext(row, true).0;
    var it := Dispatcher(claimed.claims, r.adapterKey, AfterClaim(claimed, r.adapterKey, r.effectAvailable));
    BurialIff(claimed, it, maxAttempts, r.answers);
  }

  /** From a new message, as many cycles with an unavailable adapter and a refused close as claims are allowed. */
  lemma {:induction false} RefusedClosesBury(row: Row, maxAttempts: nat, rounds: seq<Round>)
    requires !Settled(row) && row.binding == NotStarted && row.adapter.None? && row.attempt == Waiting
    requires |rounds| > 0 && row.claims + |rounds| == maxAttempts
    requires forall r <- rounds :: r.attempt == Waiting && !r.effectAvailable && !r.answers.closes
    ensures Rounds(row, maxAttempts, rounds) == Row(DeadLetter, maxAttempts, Rejected, None, Waiting)
    decreases |rounds|
  {
    var r := rounds[0];
    assert Before(row, r) == row;
    var claimed := row.(message := Claimed, claims := row.claims + 1);
    var it := Dispatcher(claimed.claims, r.adapterKey, CloseUnavailable);
    assert Act(claimed, it, maxAttempts, r.answers) == (claimed, ScheduleReconciliation(it.claim, maxAttempts));
    if |rounds| == 1 {
      assert rounds[1..] == [];
      assert Finish(claimed, it.(pc := MarkDeadLetter), maxAttempts, r.answers).0
          == Row(DeadLetter, maxAttempts, Rejected, None, Waiting);
    } else {
      assert Finish(claimed, it.(pc := MarkReconciliation), maxAttempts, r.answers).0 == claimed;
      RefusedClosesBury(claimed, maxAttempts, rounds[1..]);
    }
  }

  lemma {:induction false} BurialIff(row: Row, it: Dispatcher, maxAttempts: nat, answers: Answers)
    requires Holds(row, it.claim) && row.attempt == Waiting && (row.binding == NotStarted || Open(row))
    requires it.pc == MarkStarting || it.pc == CloseUnavailable ==> row.binding == NotStarted
    requires it.pc == Start || it.pc == Find || it.pc == CloseThenReject || it.pc == RecordStarted ==> Open(row)
    requires !it.pc.Done? && it.pc != RecordRejected
    requires row.binding == NotStarted ==> it.pc == MarkStarting || it.pc == CloseUnavailable || it.pc == MarkDeadLetter
                                           || it.pc == MarkReconciliation
    ensures var row' := Finish(row, it, maxAttempts, answers).0;
            row'.binding == Rejected && row'.attempt == Waiting
            <==> row.binding == NotStarted
                 && (it.pc == MarkDeadLetter
                     || (it.pc == CloseUnavailable && !answers.closes && it.claim >= maxAttempts))
    decreases CallsLeft(it.pc)
  {
    var (next, pc) := Act(row, it, maxAttempts, answers);
    if pc.Done? {
    } else if next.attempt == Waiting {
      BurialIff(next, it.(pc := pc), maxAttempts, answers);
    } else {
      ClosedStaysClosed(next, it.(pc := pc), maxAttempts, answers);
    }
  }

  lemma {:induction false} ClosedStaysClosed(row: Row, it: Dispatcher, maxAttempts: nat, answers: Answers)
    requires row.attempt != Waiting
    ensures Finish(row, it, maxAttempts, answers).0.attempt != Waiting
    decreases CallsLeft(it.pc)
  {
    if !it.pc.Done? {
      var (next, pc) := Act(row, it, maxAttempts, answers);
      ClosedStaysClosed(next, it.(pc := pc), maxAttempts, answers);
    }
  }
}
