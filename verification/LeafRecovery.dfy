/** The recovery jobs of started attempts: claimed, delivered again, and settled by what the attempt has become. */
module LeafRecovery {
  import opened Outcomes
  import opened LeafStep
  import opened LeafExecution
  import LeafSafety
  import LeafTheorems
  import LeafConclusions

  /** Claims are numbered; the number is the token. */
  datatype JobState = JobDue | JobHeld(token: nat) | JobDone | JobExhausted

  datatype Job = Job(attempt: AttemptId, state: JobState, claims: nat, maxClaims: nat)

  predicate Concluded(d: Durable, id: AttemptId) {
    var a := Find(d.step.attempts, id);
    a.Some? && Terminal(a.value.state)
  }

  predicate StillOpen(d: Durable, id: AttemptId) {
    var a := Find(d.step.attempts, id);
    a.Some? && IsOpen(a.value.state)
  }

  // ----- The stored job -----

  /** `ready`: the next attempt is due, and no claim is live. */
  function ClaimJob(d: Durable, job: Job, ready: bool): (Job, bool) {
    if ready && (job.state.JobDue? || job.state.JobHeld?) && job.claims < job.maxClaims && StillOpen(d, job.attempt)
    then (job.(state := JobHeld(job.claims + 1), claims := job.claims + 1), true) else (job, false)
  }

  /** Completing asks of the claim that it is live, and of the attempt that it has concluded. */
  function CompleteJob(d: Durable, job: Job, token: nat, live: bool): (Job, bool) {
    if job.state == JobHeld(token) && live && Concluded(d, job.attempt)
    then (job.(state := JobDone), true) else (job, false)
  }

  function ReleaseJob(d: Durable, job: Job, token: nat, live: bool): (Job, bool) {
    if job.state == JobHeld(token) && live && StillOpen(d, job.attempt)
    then (job.(state := if job.claims >= job.maxClaims then JobExhausted else JobDue), true) else (job, false)
  }

  /** Jobs of concluded attempts are completed, even exhausted ones; jobs without claims left are exhausted. */
  function ReapJob(d: Durable, job: Job, overdue: bool): Job {
    var idle := job.state.JobDue? || (job.state.JobHeld? && overdue);
    if (idle || job.state.JobExhausted?) && Concluded(d, job.attempt) then job.(state := JobDone)
    else if idle && job.claims >= job.maxClaims && StillOpen(d, job.attempt) then job.(state := JobExhausted)
    else job
  }

  // ----- The recovery loop -----

  datatype Status = Final | Doubtful

  /** What delivering a claimed attempt again gave: a status, a refusal, or no answer in time. */
  datatype Delivered = Answered(status: Status) | Refused | TimedOut

  datatype Reason = ClaimLost | OperationFailed | OutcomeUnknown

  datatype Item = Completed(attempt: AttemptId) | Unresolved(attempt: AttemptId, reason: Reason)

  /** A claimed job, what its delivery gave, and what the store holds when the claim is settled. */
  datatype Turn = Turn(job: Job, token: nat, delivered: Delivered, after: Durable, live: bool)

  /** Only a final delivery completes its job; every other outcome releases it for a later retry. */
  function ItemOf(t: Turn): Item {
    if t.delivered == Answered(Final) then
      if CompleteJob(t.after, t.job, t.token, t.live).1 then Item.Completed(t.job.attempt)
      else Unresolved(t.job.attempt, ClaimLost)
    else
      var reason := if t.delivered == Answered(Doubtful) then OutcomeUnknown else OperationFailed;
      Unresolved(t.job.attempt, if ReleaseJob(t.after, t.job, t.token, t.live).1 then reason else ClaimLost)
  }

  predicate Lost(i: Item) {
    i.Unresolved? && i.reason == ClaimLost
  }

  /** `queue` is what the claims would return, one after another. */
  method ReconcileLeafEffects(queue: seq<Turn>, batchSize: nat) returns (claimed: nat, items: seq<Item>)
    requires batchSize > 0
    ensures claimed == |items| && claimed <= batchSize && claimed <= |queue|
    ensures forall i :: 0 <= i < claimed ==> items[i] == ItemOf(queue[i])
    ensures forall i :: 0 <= i < claimed ==>
              (items[i].Completed? <==>
                 queue[i].delivered == Answered(Final) && queue[i].live && queue[i].job.state == JobHeld(queue[i].token)
                 && Concluded(queue[i].after, queue[i].job.attempt))
    ensures forall i :: 0 <= i < claimed - 1 ==> !Lost(items[i])
    ensures claimed == batchSize || claimed == |queue| || (claimed > 0 && Lost(items[claimed - 1]))
  {
    items := [];
    claimed := 0;
    while claimed < batchSize
      invariant claimed == |items| && claimed <= batchSize && claimed <= |queue|
      invariant forall i :: 0 <= i < claimed ==> items[i] == ItemOf(queue[i]) && !Lost(items[i])
    {
      if claimed == |queue| {
        break;
      }
      var item := ItemOf(queue[claimed]);
      claimed := claimed + 1;
      items := items + [item];
      if Lost(item) {
        break;
      }
    }
  }

  // ----- Every run of a job beside its attempt -----

  datatype RecoveryWorld = RecoveryWorld(leaf: World, job: Job)

  datatype RecoveryEvent =
    | LeafMoves(event: Event)
    | Claims(ready: bool)
    | Completes(token: nat, live: bool)
    | Releases(token: nat, live: bool)
    | Reaps(overdue: bool)

  function Move(plan: Plan, w: RecoveryWorld, e: RecoveryEvent): RecoveryWorld {
    match e
    case LeafMoves(event) => w.(leaf := Step(plan, w.leaf, event))
    case Claims(ready) => w.(job := ClaimJob(w.leaf.durable, w.job, ready).0)
    case Completes(token, live) => w.(job := CompleteJob(w.leaf.durable, w.job, token, live).0)
    case Releases(token, live) => w.(job := ReleaseJob(w.leaf.durable, w.job, token, live).0)
    case Reaps(overdue) => w.(job := ReapJob(w.leaf.durable, w.job, overdue))
  }

  function Moves(plan: Plan, w: RecoveryWorld, events: seq<RecoveryEvent>): RecoveryWorld
    decreases |events|
  {
    if events == [] then w else Moves(plan, Move(plan, w, events[0]), events[1..])
  }

  ghost predicate RecoverySafe(plan: Plan, w: RecoveryWorld) {
    LeafSafety.Safe(plan, w.leaf) && w.job.claims <= w.job.maxClaims
    && match w.job.state
       case JobDue => true
       case JobHeld(token) => token == w.job.claims
       case JobDone => Concluded(w.leaf.durable, w.job.attempt)
       case JobExhausted => w.job.claims == w.job.maxClaims
  }

  lemma MoveKeeps(plan: Plan, w: RecoveryWorld, e: RecoveryEvent)
    requires RecoverySafe(plan, w)
    ensures var w' := Move(plan, w, e);
            RecoverySafe(plan, w') && w'.job.attempt == w.job.attempt && w'.job.maxClaims == w.job.maxClaims
            && w.job.claims <= w'.job.claims
            && (Concluded(w.leaf.durable, w.job.attempt) ==>
                  Find(w'.leaf.durable.step.attempts, w.job.attempt) == Find(w.leaf.durable.step.attempts, w.job.attempt))
            && (w.job.state.JobDone? ==> w'.job == w.job)
  {
    if e.LeafMoves? {
      LeafSafety.StepKeepsSafe(plan, w.leaf, e.event);
      if Concluded(w.leaf.durable, w.job.attempt) {
        LeafTheorems.TerminalKeptByStep(plan, w.leaf, e.event, Find(w.leaf.durable.step.attempts, w.job.attempt).value);
      }
    }
  }

  /**
   * In every run: a completed job has a concluded attempt, and neither changes again; a job is claimed at most
   * the allowed number of times, and exhausted only after all of them.
   */
  lemma {:induction false} CompletedMeansConcluded(plan: Plan, w: RecoveryWorld, events: seq<RecoveryEvent>)
    requires RecoverySafe(plan, w)
    ensures var w' := Moves(plan, w, events);
            RecoverySafe(plan, w') && w'.job.attempt == w.job.attempt && w'.job.maxClaims == w.job.maxClaims
            && (w'.job.state.JobDone? ==> Concluded(w'.leaf.durable, w.job.attempt))
            && (Concluded(w.leaf.durable, w.job.attempt) ==>
                  Find(w'.leaf.durable.step.attempts, w.job.attempt) == Find(w.leaf.durable.step.attempts, w.job.attempt))
            && (w.job.state.JobDone? ==> w'.job == w.job)
    decreases |events|
  {
    if events != [] {
      MoveKeeps(plan, w, events[0]);
      CompletedMeansConcluded(plan, Move(plan, w, events[0]), events[1..]);
    }
  }

  lemma {:induction false} ExhaustedIsNotClaimed(plan: Plan, w: RecoveryWorld, events: seq<RecoveryEvent>)
    requires w.job.state.JobExhausted?
    ensures var job := Moves(plan, w, events).job;
            job.claims == w.job.claims && (job.state.JobExhausted? || job.state.JobDone?)
    decreases |events|
  {
    if events != [] {
      var next := Move(plan, w, events[0]);
      if next.job.state.JobExhausted? {
        ExhaustedIsNotClaimed(plan, next, events[1..]);
      } else {
        DoneStays(plan, next, events[1..]);
      }
    }
  }

  lemma {:induction false} DoneStays(plan: Plan, w: RecoveryWorld, events: seq<RecoveryEvent>)
    requires w.job.state.JobDone?
    ensures Moves(plan, w, events).job == w.job
    decreases |events|
  {
    if events != [] { DoneStays(plan, Move(plan, w, events[0]), events[1..]); }
  }

  /**
   * A released job is claimed again as long as claims are left; released on its last claim it is exhausted, and
   * then it is never claimed again: only the conclusion of its attempt can still complete it.
   */
  lemma RetriedUntilLastClaim(plan: Plan, w: RecoveryWorld, token: nat, later: seq<RecoveryEvent>)
    requires RecoverySafe(plan, w) && w.job.state == JobHeld(token) && StillOpen(w.leaf.durable, w.job.attempt)
    ensures var released := Move(plan, w, Releases(token, true));
            if w.job.claims < w.job.maxClaims then
              Move(plan, released, Claims(true)).job
              == w.job.(state := JobHeld(w.job.claims + 1), claims := w.job.claims + 1)
            else
              released.job == w.job.(state := JobExhausted)
              && Moves(plan, released, later).job.claims == w.job.maxClaims
              && (Moves(plan, released, later).job.state == JobExhausted || Moves(plan, released, later).job.state == JobDone)
  {
    var released := Move(plan, w, Releases(token, true));
    if w.job.claims >= w.job.maxClaims { ExhaustedIsNotClaimed(plan, released, later); }
  }

  /** Once the attempt has concluded, whatever happens in between, the next reap of an idle job completes it. */
  lemma ConcludedIsReaped(plan: Plan, w: RecoveryWorld, events: seq<RecoveryEvent>)
    requires RecoverySafe(plan, w) && Concluded(w.leaf.durable, w.job.attempt)
    ensures Move(plan, Moves(plan, w, events), Reaps(true)).job.state == JobDone
  {
    CompletedMeansConcluded(plan, w, events);
  }

  /**
   * Delivering the attempt of a held job, with the effect found: the live claim then completes the job exactly
   * when the outcome could be recorded; a sink without a verdict stays in doubt and its job can only be released.
   */
  lemma RecoveredJobCompletesIff(plan: Plan, w: World, job: Job, k: nat, a: Attempt, startKey: string, proof: string,
                                 o: Outcome, verdict: Verdict)
    requires UniqueIds(w.durable.step.attempts) && k !in w.workers && startKey != ""
    requires LeafTheorems.InFlightNow(w.durable, a) && LeafConclusions.Acceptable(a, o) && !Blank(proof)
    requires CommandKey(startKey, "start-effect") in w.durable.journal
    requires w.durable.journal[CommandKey(startKey, "start-effect")] == Journaled(a.id, StartEffect)
    requires CommandKey(startKey, "ambiguous") !in w.durable.journal
    requires CommandKey(startKey, "resolve:" + proof) !in w.durable.journal
    requires job.attempt == a.id && job.state.JobHeld?
    ensures var w2 := Step(plan, Step(plan, w, Deliver(k, a.id, startKey)), Transaction(k, true));
            var w4 := Step(plan, Step(plan, w2, AskEffect(k, FoundOutcome(proof, o))), Transaction(k, true));
            var d := Step(plan, Step(plan, w4, AskValidator(k, verdict)), Transaction(k, true)).durable;
            var unprepared := plan.uniqueSink && o.EffectSucceeded?
                              && PrepareSinkOutput(plan, a.id, o.value, verdict) == Unprepared;
            (CompleteJob(d, job, job.state.token, true).1 <==> !unprepared)
            && (ReleaseJob(d, job, job.state.token, true).1 <==> unprepared)
  {
    LeafConclusions.RecoveryConcludes(plan, w, k, a, startKey, proof, o, verdict);
  }
}
