/** The generation transactions as they run: stored fields read, checked and rewritten step by step. */
module GenerationStore {
  import opened Outcomes
  import opened Amounts
  import opened Generation
  import opened GenerationPaging
  import GenerationTheorems
  import GenerationLanding
  import GenerationGuards

  datatype Scheduled = WasPending | WasTerminal | WasCheckpointed | WasAuthorized | WasBlocked | Faulted

  /** What one scheduler cycle on a claimed generation does: a checkpoint, then the next authorization. */
  function Cycle(plan: Plan, s: Store, proof: RunProof, open: bool, runAccepted: bool): (Store, Scheduled) {
    var (next, status) := GenerationPaging.Checkpoint(plan, s, proof);
    match status
    case StillPending => (next, WasPending)
    case IsAmbiguous => (next, WasTerminal)
    case IsCancelled => (next, WasTerminal)
    case IsFailed => (next, WasTerminal)
    case NoPage => (next, Faulted)
    case Refused => (next, Faulted)
    case Aborted => (next, Faulted)
    case _ =>
      if !HasMore(next) then (next, WasCheckpointed)
      else
        var (authorized, answer) := GenerationPaging.Authorize(plan, next, open, runAccepted);
        (authorized, StatusOf(answer))
  }

  function StatusOf(answer: Authorization): Scheduled {
    match answer
    case Authorized(_) => WasAuthorized
    case Replayed(_) => WasAuthorized
    case NotPlanned => WasTerminal
    case DeadlineElapsed => WasBlocked
    case LimitExhausted => WasBlocked
    case BudgetExhausted => WasBlocked
    case RunRejected => Faulted
    case ProofInvalid => Faulted
  }

  predicate HasMore(s: Store) {
    var n := ActivePage(s);
    n in s.pages && s.pages[n].state == Committed && s.pages[n].result.Some? && s.pages[n].result.value.artifact.hasMore
  }

  /** The commit of an executing page keeps what every run keeps, and the page rests exactly if its outcome lands. */
  lemma CommitLands(plan: Plan, s: Store, page: Page, proof: RunProof)
    requires GenerationLanding.Sound(plan, s) && GenerationLanding.PageExecutes(s) && page == s.pages[ActivePage(s)]
    requires proof.SucceededRun? && ArtifactParses(proof.artifact) && ProofIsExact(page, proof)
    ensures var s', n := PersistCheckpoint(plan, s, page, proof).0, ActivePage(s);
            GenerationLanding.Sound(plan, s') && ActivePage(s') == n && n in s'.pages
            && (s'.pages[n].state != Executing <==> GenerationLanding.Lands(plan, s, proof))
            && (PersistCheckpoint(plan, s, page, proof).1 == Committing ==>
                  s'.generation.state == ConcludedState(plan, s'.generation, proof))
  {
    assert GenerationPaging.Checkpoint(plan, s, proof) == PersistCheckpoint(plan, s, page, proof);
    GenerationLanding.StepKeepsSound(plan, s, CheckpointActive(proof));
    GenerationLanding.LandsIff(plan, s, proof);
    GenerationTheorems.ActiveStays(plan, s, proof);
    if PersistCheckpoint(plan, s, page, proof).1 == Committing { GenerationTheorems.RunningMeansNextPage(plan, s, proof); }
  }

  /** Running while the page promised more and every limit leaves room, and otherwise completed. */
  function ConcludedState(plan: Plan, g: Aggregate, proof: RunProof): GenerationState
    requires proof.SucceededRun?
  {
    if GenerationTheorems.MoreToFetch(plan, g, proof.artifact) then Running else Completed
  }

  /** What the cycle makes of a commit: the next page authorized, blocked, or nothing left, as the limits say. */
  function ConcludedStatus(plan: Plan, g: Aggregate, proof: RunProof, open: bool, runAccepted: bool): Scheduled
    requires proof.SucceededRun?
  {
    if !proof.artifact.hasMore then WasCheckpointed
    else if g.state != Running then WasTerminal
    else if !open || g.spent >= plan.availableBudget || g.spent >= plan.availableAuthority then WasBlocked
    else if runAccepted then WasAuthorized
    else Faulted
  }

  lemma CycleConcludes(plan: Plan, s: Store, proof: RunProof, open: bool, runAccepted: bool)
    requires GenerationLanding.Sound(plan, s) && GenerationPaging.Checkpoint(plan, s, proof).1 == Committing
    ensures var (s', status) := Cycle(plan, s, proof, open, runAccepted);
            s'.generation.state == ConcludedState(plan, s'.generation, proof)
            && status == ConcludedStatus(plan, s'.generation, proof, open, runAccepted)
  {
    var next := GenerationPaging.Checkpoint(plan, s, proof).0;
    GenerationTheorems.CommitConcludes(plan, s, proof);
    GenerationTheorems.ActiveStays(plan, s, proof);
    GenerationTheorems.StepKeepsSafe(plan, s, CheckpointActive(proof));
    GenerationTheorems.NothingQueued(plan, s, proof);
    assert HasMore(next) <==> proof.artifact.hasMore;
    if next.generation.state == Running {
      GenerationTheorems.NextIsAuthorized(plan, next, open, runAccepted);
    } else if proof.artifact.hasMore {
      CompletedIsTerminal(plan, next, open, runAccepted);
    }
  }

  lemma CompletedIsTerminal(plan: Plan, s: Store, open: bool, runAccepted: bool)
    requires ValidSnapshot(plan, s.generation) && s.generation.state == Completed
    ensures GenerationPaging.Authorize(plan, s, open, runAccepted) == (s, NotPlanned)
  {
  }

  /** A scheduler cycle keeps what every run keeps, and after a stop it creates no run. */
  lemma CycleKeeps(plan: Plan, s: Store, proof: RunProof, open: bool, runAccepted: bool)
    requires GenerationLanding.Sound(plan, s) && IsAmount(plan.hardCap)
    ensures var s' := Cycle(plan, s, proof, open, runAccepted).0;
            GenerationLanding.Sound(plan, s')
            && 0.0 <= s'.generation.spent <= plan.hardCap && |s'.runs| <= plan.maxPages
            && (s.generation.stopRequested ==> s'.runs == s.runs && s'.generation.stopRequested)
  {
    var next, s' := Step(plan, s, CheckpointActive(proof)), Cycle(plan, s, proof, open, runAccepted).0;
    GenerationLanding.StepKeepsSound(plan, s, CheckpointActive(proof));
    if s.generation.stopRequested { GenerationTheorems.StopStep(plan, s, CheckpointActive(proof)); }
    if s' != next {
      assert s' == Step(plan, next, AuthorizeNext(open, runAccepted));
      GenerationLanding.StepKeepsSound(plan, next, AuthorizeNext(open, runAccepted));
      if next.generation.stopRequested { GenerationTheorems.StopStep(plan, next, AuthorizeNext(open, runAccepted)); }
    }
    GenerationTheorems.SpentWithinCap(plan, s');
  }

  /** The de-duplication loop of a checkpoint: it grows the set of seen contents as it goes. */
  method Deduplicate(items: seq<Item>, existing: set<string>) returns (kept: seq<Candidate>)
    ensures kept == FreshItems(items, existing, 0)
  {
    kept := [];
    var seen := existing;
    var i := 0;
    while i < |items|
      invariant 0 <= i <= |items|
      invariant kept + FreshItems(items, seen, i) == FreshItems(items, existing, 0)
    {
      if items[i].contentHash !in seen {
        kept := kept + [Candidate(i + 1, items[i])];
        seen := seen + {items[i].contentHash};
      }
      i := i + 1;
    }
  }

  class Transactions {
    const plan: Plan
    var generation: Aggregate
    var pages: map<nat, Page>
    var runs: seq<nat>
    var cancelledRuns: seq<nat>
    var records: seq<Record>
    var lineage: seq<Lineage>
    /** Accepted cancellation commands: which generation each key stopped. */
    var cancellations: map<string, string>

    constructor (plan: Plan)
      requires IsAmount(plan.budgetLimit) && IsAmount(plan.hardCap)
      ensures this.plan == plan && Valid() && State() == Empty && cancellations == map[]
    {
      this.plan := plan;
      generation := Fresh;
      pages := map[];
      runs, cancelledRuns, records, lineage := [], [], [], [];
      cancellations := map[];
      new;
      GenerationLanding.EmptyIsSound(plan);
    }

    /** Pages in a chain, money within the caps, records accounted for, and a state that fits the active page. */
    ghost predicate Valid()
      reads this
    {
      IsAmount(plan.budgetLimit) && IsAmount(plan.hardCap)
      && GenerationLanding.Sound(plan, State())
    }

    /** What one transaction keeps. */
    lemma Keeps(e: Event)
      requires Valid()
      ensures GenerationLanding.Sound(plan, Step(plan, State(), e))
    {
      GenerationLanding.StepKeepsSound(plan, State(), e);
    }

    ghost function State(): Store
      reads this
    {
      Store(generation, pages, runs, cancelledRuns, records, lineage)
    }

    method InsertPage(sequence: nat, cursor: Option<string>, open: bool, runAccepted: bool)
      returns (answer: Authorization)
      modifies this
      ensures (State(), answer) == PersistFreshPage(plan, old(State()), sequence, cursor, open, runAccepted)
      ensures cancellations == old(cancellations)
    {
      var denied := Denial(plan, generation, open);
      if denied.Some? {
        return denied.value;
      }
      if !runAccepted {
        return RunRejected;
      }
      runs := runs + [sequence];
      var page := Page(sequence, cursor, plan.hardCap - generation.spent, RunCreated, 0.0, "", None);
      if !PageIsWellFormed(page) {
        return ProofInvalid;
      }
      pages := pages[sequence := page];
      return Authorized(sequence);
    }

    method Authorize(open: bool, runAccepted: bool) returns (answer: Authorization)
      requires Valid()
      modifies this
      ensures Valid()
      ensures (State(), answer) == GenerationPaging.Authorize(plan, old(State()), open, runAccepted)
      ensures answer.Authorized? ==> open && runAccepted && GenerationGuards.HasRoom(plan, old(generation))
      ensures cancellations == old(cancellations)
    {
      Keeps(AuthorizeNext(open, runAccepted));
      GenerationGuards.AuthorizedIff(plan, State(), open, runAccepted);
      if !ValidSnapshot(plan, generation) {
        return ProofInvalid;
      }
      if HasTerminated(generation.state) {
        return NotPlanned;
      }
      var next := generation.counters.pages + 1;
      if next in pages {
        return Replayed(next);
      }
      if next == 1 {
        if generation.state != Planned {
          return NotPlanned;
        }
        answer := InsertPage(1, None, open, runAccepted);
        return;
      }
      if generation.state != Running || next - 1 !in pages {
        return NotPlanned;
      }
      var previous := pages[next - 1];
      if previous.state != Committed || previous.result.None? || !previous.result.value.artifact.hasMore
         || previous.result.value.artifact.nextCursor.None? {
        return NotPlanned;
      }
      answer := InsertPage(next, previous.result.value.artifact.nextCursor, open, runAccepted);
    }

    /** The commit of the active page: it comes to rest exactly when the outcome of its run lands. */
    method PersistSuccessful(page: Page, proof: RunProof) returns (status: Checkpointed)
      requires Valid() && GenerationLanding.PageExecutes(State()) && page == pages[generation.counters.pages]
      requires proof.SucceededRun? && ArtifactParses(proof.artifact) && ProofIsExact(page, proof)
      modifies this
      ensures Valid()
      ensures generation.counters.pages in pages
              && (pages[generation.counters.pages].state != Executing
                  <==> GenerationLanding.Lands(plan, old(State()), proof))
      ensures (State(), status) == PersistCheckpoint(plan, old(State()), page, proof)
      ensures status == Committing ==> generation.state == ConcludedState(plan, generation, proof)
      ensures cancellations == old(cancellations)
    {
      CommitLands(plan, State(), page, proof);
      status := WriteCommit(page, proof);
    }

    /** The writes of a commit, in order, undone when the page table refuses its cost. */
    method WriteCommit(page: Page, proof: RunProof) returns (status: Checkpointed)
      requires proof.SucceededRun?
      modifies this
      ensures (State(), status) == PersistCheckpoint(plan, old(State()), page, proof)
      ensures cancellations == old(cancellations)
    {
      var before := (generation, records, lineage);
      var kept := Deduplicate(proof.artifact.items, StoredHashes(records));
      var duplicates := |proof.artifact.items| - |kept|;
      var checkpoint := CheckpointProgress(plan, generation,
                          Progress(page.sequence, |kept|, duplicates, proof.usage, proof.provider));
      if checkpoint.None? {
        return Refused;
      }
      var writes := NewRecords(kept, page.sequence, generation.counters.accepted);
      if !Insertable(records, writes) {
        return Aborted;
      }
      records := records + writes;
      lineage := lineage + NewLineage(writes);
      var result := PageResult(|kept|, duplicates, proof.usage, proof.artifact);
      if !Committable(page, result) {
        return Refused;
      }
      var next := checkpoint.value;
      var generationValue := Some(next);
      if next.state == Stopping {
        generationValue := CancelAfterStop(plan, next);
      } else if !proof.artifact.hasMore || CapsReached(plan, next) {
        generationValue := Complete(plan, next);
      }
      if generationValue.None? {
        return Refused;
      }
      generation := generationValue.value;
      if !CostFits(page, proof.usage) {
        generation, records, lineage := before.0, before.1, before.2;
        return Aborted;
      }
      pages := pages[page.sequence := page.(state := Committed, result := Some(result))];
      return if next.state == Stopping then IsCancelled else Committing;
    }

    method Checkpoint(proof: RunProof) returns (status: Checkpointed)
      requires Valid()
      modifies this
      ensures Valid()
      ensures GenerationLanding.PageExecutes(old(State())) ==>
                (GenerationLanding.PageExecutes(State()) <==> !GenerationLanding.Lands(plan, old(State()), proof))
      ensures status == Committing ==> proof.SucceededRun? && generation.state == ConcludedState(plan, generation, proof)
      ensures (State(), status) == GenerationPaging.Checkpoint(plan, old(State()), proof)
      ensures cancellations == old(cancellations)
    {
      Keeps(CheckpointActive(proof));
      GenerationTheorems.ActiveStays(plan, State(), proof);
      if GenerationLanding.PageExecutes(State()) { GenerationLanding.LandsIff(plan, State(), proof); }
      if !ValidSnapshot(plan, generation) || generation.counters.pages !in pages {
        return NoPage;
      }
      var page := pages[generation.counters.pages];
      if page.state == PageAmbiguous {
        return IsAmbiguous;
      }
      if page.state == PageFailed {
        return IsFailed;
      }
      match proof {
        case PendingRun => return if page.state == Committed then Refused else StillPending;
        case AmbiguousRun =>
          if page.state == Committed {
            return Refused;
          }
          ghost var before := State();
          if page.sequence !in pages || pages[page.sequence].state != Executing {
            return Refused;
          }
          var marked := Generation.MarkAmbiguous(plan, generation);
          if marked.None? {
            return Refused;
          }
          generation := marked.value;
          pages := pages[page.sequence := pages[page.sequence].(state := PageAmbiguous)];
          assert State().pages[page.sequence].state != before.pages[page.sequence].state;
          return IsAmbiguous;
        case FailedRun =>
          var stopping := generation.state == Stopping;
          var failed := if stopping then CancelAfterStop(plan, generation) else Fail(plan, generation);
          if failed.None? || page.state != Executing {
            return Refused;
          }
          generation := failed.value;
          pages := pages[page.sequence := page.(state := PageFailed)];
          return if stopping then IsCancelled else IsFailed;
        case SucceededRun(_, _, _, _) =>
          if !ArtifactParses(proof.artifact) || !ProofIsExact(page, proof) {
            return Refused;
          }
          if page.state == Committed {
            return if CommittedMatches(Store(generation, pages, runs, cancelledRuns, records, lineage), page, proof)
                   then Unchanged else Refused;
          }
          if page.state != Executing {
            return Refused;
          }
          status := PersistSuccessful(page, proof);
      }
    }

    /** A cancellation command with its key; a key seen before changes nothing, whatever it asks. */
    method Cancel(key: string, generationId: string, runCancels: bool) returns (answer: Option<Cancellation>)
      requires Valid()
      modifies this
      ensures Valid()
      ensures key in old(cancellations) ==>
                State() == old(State()) && cancellations == old(cancellations)
                && answer == if old(cancellations)[key] == generationId then Some(AlreadyStopped) else None
      ensures key !in old(cancellations) ==>
                answer.Some? && (State(), answer.value) == GenerationPaging.Cancel(plan, old(State()), runCancels)
                && cancellations == if answer.value == CannotStop then old(cancellations)
                                    else old(cancellations)[key := generationId]
    {
      Keeps(RequestCancel(runCancels));
      if key in cancellations {
        return if cancellations[key] == generationId then Some(AlreadyStopped) else None;
      }
      var g := generation;
      if g.stopRequested && (g.state == Stopping || g.state == Cancelled || g.state == Ambiguous) {
        cancellations := cancellations[key := generationId];
        return Some(AlreadyStopped);
      }
      if g.state == Ambiguous || g.state == Completed || g.state == Failed {
        return Some(CannotStop);
      }
      var stopped := RequestStop(plan, g);
      if stopped.None? {
        return Some(CannotStop);
      }
      var active := if g.counters.pages == 0 then 1 else g.counters.pages;
      if active in pages && pages[active].state == RunCreated {
        if !runCancels {
          return Some(CannotStop);
        }
        cancelledRuns := cancelledRuns + [active];
      }
      generation := stopped.value;
      cancellations := cancellations[key := generationId];
      return Some(StopRecorded);
    }

    /** One cycle of the scheduler on this generation. */
    method Schedule(proof: RunProof, open: bool, runAccepted: bool) returns (status: Scheduled)
      requires Valid()
      modifies this
      ensures Valid()
      ensures 0.0 <= generation.spent <= plan.hardCap
      ensures |runs| <= plan.maxPages
      ensures old(generation).stopRequested ==> runs == old(runs) && generation.stopRequested
      ensures (State(), status) == Cycle(plan, old(State()), proof, open, runAccepted)
      ensures GenerationPaging.Checkpoint(plan, old(State()), proof).1 == Committing ==>
                generation.state == ConcludedState(plan, generation, proof)
                && status == ConcludedStatus(plan, generation, proof, open, runAccepted)
    {
      CycleKeeps(plan, State(), proof, open, runAccepted);
      if GenerationPaging.Checkpoint(plan, State(), proof).1 == Committing {
        CycleConcludes(plan, State(), proof, open, runAccepted);
      }
      var checkpointed := Checkpoint(proof);
      match checkpointed {
        case StillPending => return WasPending;
        case IsAmbiguous => return WasTerminal;
        case IsCancelled => return WasTerminal;
        case IsFailed => return WasTerminal;
        case NoPage => return Faulted;
        case Refused => return Faulted;
        case Aborted => return Faulted;
        case _ =>
      }
      var n := generation.counters.pages;
      if n !in pages || pages[n].state != Committed || pages[n].result.None?
         || !pages[n].result.value.artifact.hasMore {
        return WasCheckpointed;
      }
      var answer := Authorize(open, runAccepted);
      return StatusOf(answer);
    }
  }
}
