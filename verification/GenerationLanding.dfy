/** When a page that executes comes to rest: exactly when the outcome of its run can be projected. */
module GenerationLanding {
  import opened Outcomes
  import opened Amounts
  import opened Generation
  import opened GenerationPaging
  import opened GenerationSafety
  import opened GenerationTheorems
  import opened GenerationEndings

  // ----- What the counters and the provider lock say of the active page -----

  /** Pages before the active one are behind the provider lock; the active one is once it is committed. */
  ghost predicate Locked(s: Store) {
    var n, g := ActivePage(s), s.generation;
    g.counters.calls == n
    && (n == 0 ==> g.lastPage.None? && g.lockedProvider.None?)
    && (n >= 1 && n in s.pages ==>
          BoundedText(s.pages[n].provider, 255)
          && if s.pages[n].state == Committed then g.lastPage == Some(n) && g.lockedProvider.Some?
             else if n == 1 then g.lastPage.None? && g.lockedProvider.None?
             else g.lastPage == Some(n - 1) && g.lockedProvider.Some?)
  }

  /** Everything that holds in every run and that the landing of a page rests on. */
  ghost predicate Sound(plan: Plan, s: Store) {
    Safe(plan, s) && Concluding(plan, s) && Locked(s)
  }

  lemma CheckpointKeepsLocked(plan: Plan, s: Store, proof: RunProof)
    requires Sound(plan, s)
    ensures Locked(Checkpoint(plan, s, proof).0)
  {
    var n := ActivePage(s);
    if n in s.pages { assert PageInPlace(s, n); }
    CheckpointTouches(plan, s, proof);
  }

  lemma StartKeepsLocked(plan: Plan, s: Store, sequence: nat, amount: real, provider: string, open: bool)
    requires Sound(plan, s)
    ensures Locked(StartEffect(plan, s, sequence, amount, provider, open))
  {
    var n := ActivePage(s);
    StartTakes(plan, s, sequence, amount, provider, open);
    StartIsNamed(plan, s, sequence, amount, provider, open);
    if n + 1 in s.pages && n >= 1 { QueuedMeansCommitted(s); }
  }

  lemma LockedStep(plan: Plan, s: Store, e: Event)
    requires Sound(plan, s)
    ensures Locked(Step(plan, s, e))
  {
    match e
    case AuthorizeNext(open, runAccepted) =>
      if ActivePage(s) in s.pages { assert PageInPlace(s, ActivePage(s)); }
      AuthorizeAdds(plan, s, open, runAccepted);
    case Start(sequence, amount, provider, open) => StartKeepsLocked(plan, s, sequence, amount, provider, open);
    case CheckpointActive(proof) => CheckpointKeepsLocked(plan, s, proof);
    case LoseOutcome(sequence) => if sequence in s.pages { assert PageInPlace(s, sequence); }
    case RequestCancel(_) =>
  }

  lemma StepKeepsSound(plan: Plan, s: Store, e: Event)
    requires Sound(plan, s)
    ensures Sound(plan, Step(plan, s, e))
  {
    StepKeepsSafe(plan, s, e);
    ConcludingStep(plan, s, e);
    LockedStep(plan, s, e);
  }

  lemma StartIsNamed(plan: Plan, s: Store, sequence: nat, amount: real, provider: string, open: bool)
    ensures StartEffect(plan, s, sequence, amount, provider, open) != s ==> BoundedText(provider, 255)
  {
  }

  lemma {:induction false} RunKeepsSound(plan: Plan, s: Store, events: seq<Event>)
    requires Sound(plan, s)
    ensures Sound(plan, Run(plan, s, events))
    decreases |events|
  {
    if events != [] {
      StepKeepsSound(plan, s, events[0]);
      RunKeepsSound(plan, Step(plan, s, events[0]), events[1..]);
    }
  }

  lemma EmptyIsSound(plan: Plan)
    requires IsAmount(plan.budgetLimit)
    ensures Sound(plan, Empty)
  {
    EmptyIsSafe(plan);
  }

  // ----- What can land -----

  predicate PageExecutes(s: Store) {
    ActivePage(s) in s.pages && s.pages[ActivePage(s)].state == Executing
  }

  /** The items of a page whose contents are not stored yet. */
  function Kept(s: Store, proof: RunProof): seq<Candidate>
    requires proof.SucceededRun?
  {
    FreshItems(proof.artifact.items, StoredHashes(s.records), 0)
  }

  /** The counters stay within the plan, and the page is of the provider the generation is locked to. */
  predicate FitsGeneration(plan: Plan, s: Store, proof: RunProof)
    requires proof.SucceededRun?
  {
    var g := s.generation;
    g.counters.returned + |proof.artifact.items| <= plan.maxResults
    && g.counters.accepted + |Kept(s, proof)| <= plan.maxAccepted
    && (g.lockedProvider.None? || g.lockedProvider == Some(proof.provider))
  }

  /** No new item carries the identity of a stored record, and no stored record was left uncounted. */
  predicate IdentitiesAreNew(s: Store, proof: RunProof)
    requires proof.SucceededRun?
  {
    (Kept(s, proof) == [] || CountsRecords(s))
    && forall c, r :: c in Kept(s, proof) && r in s.records ==> r.recordId != c.item.recordId
  }

  /** What a caller can check of the outcome of a run before the checkpoint of its page. */
  predicate Lands(plan: Plan, s: Store, proof: RunProof)
    requires PageExecutes(s)
  {
    match proof
    case PendingRun => false
    case AmbiguousRun => ActivePage(s) == 1
    case FailedRun => true
    case SucceededRun(artifact, usage, provider, exact) =>
      var page := s.pages[ActivePage(s)];
      exact && provider == page.provider && 0.0 <= usage <= page.reserved && EndsOrContinues(artifact)
      && (forall i, j :: 0 <= i < j < |artifact.items| ==> artifact.items[i].recordId != artifact.items[j].recordId)
      && FitsGeneration(plan, s, proof) && IdentitiesAreNew(s, proof)
  }

  /** Either more follows at a cursor of at most 255 code points, or the source is complete. */
  predicate EndsOrContinues(a: Artifact) {
    if a.hasMore then a.nextCursor.Some? && !Blank(a.nextCursor.value) && |a.nextCursor.value| <= 255 && !a.sourceCompleted
    else a.nextCursor.None? && a.sourceCompleted
  }

  lemma AdmittedLandsIff(plan: Plan, s: Store, proof: RunProof)
    requires PageExecutes(s) && proof.SucceededRun?
    ensures Lands(plan, s, proof) <==>
              ArtifactParses(proof.artifact) && ProofIsExact(s.pages[ActivePage(s)], proof)
              && FitsGeneration(plan, s, proof) && CursorFits(proof.artifact) && IdentitiesAreNew(s, proof)
              && CostFits(s.pages[ActivePage(s)], proof.usage)
  {
  }

  lemma LessIsAtMost(value: real, less: real, limit: real)
    requires 0.0 <= less <= value && 0.0 <= limit && AtMost(value, limit)
    ensures AtMost(less, limit)
  {
  }

  /** A checkpoint of the active page progresses exactly within the limits and under the lock. */
  lemma ProgressesIff(plan: Plan, s: Store, proof: RunProof)
    requires Sound(plan, s) && PageExecutes(s) && proof.SucceededRun?
    requires ProofIsExact(s.pages[ActivePage(s)], proof) && CostFits(s.pages[ActivePage(s)], proof.usage)
    ensures var kept := |Kept(s, proof)|;
            CheckpointProgress(plan, s.generation, Progress(ActivePage(s), kept, |proof.artifact.items| - kept,
                                                           proof.usage, proof.provider)).Some?
            <==> FitsGeneration(plan, s, proof)
  {
    var n, g := ActivePage(s), s.generation;
    assert PageInPlace(s, n);
    LessIsAtMost(g.reserved + g.spent, g.spent + proof.usage, plan.budgetLimit);
  }

  /** The records a checkpoint would add collide with no stored one exactly when identities and ordinals are new. */
  lemma InsertableIff(s: Store, proof: RunProof)
    requires RecordsSafe(s) && proof.SucceededRun?
    ensures Insertable(s.records, NewRecords(Kept(s, proof), ActivePage(s), s.generation.counters.accepted))
       <==> IdentitiesAreNew(s, proof)
  {
    var kept, accepted := Kept(s, proof), s.generation.counters.accepted;
    var added := NewRecords(kept, ActivePage(s), accepted);
    if Insertable(s.records, added) {
      if kept != [] { NoGap(s.records, added, accepted); }
      forall c, r | c in kept && r in s.records ensures r.recordId != c.item.recordId {
        var j :| 0 <= j < |kept| && kept[j] == c;
        var i :| 0 <= i < |s.records| && s.records[i] == r;
        assert added[j].recordId == c.item.recordId;
      }
    }
    if IdentitiesAreNew(s, proof) {
      forall i, j | 0 <= i < |s.records| && 0 <= j < |added|
        ensures s.records[i].recordId != added[j].recordId && s.records[i].ordinal != added[j].ordinal
      {
        assert kept[j] in kept && s.records[i] in s.records;
      }
    }
  }

  /** A checkpoint that progresses commits exactly with a fitting cursor, new identities and a fitting cost. */
  lemma ProgressedCommitsIff(plan: Plan, s: Store, page: Page, proof: RunProof)
    requires proof.SucceededRun? && ArtifactParses(proof.artifact) && page.state == Executing
    requires page.sequence == ActivePage(s) && IsAmount(proof.usage) && AtMost(proof.usage, page.reserved)
    requires s.generation.state == Running || s.generation.state == Stopping
    requires RecordsSafe(s)
    requires var kept := |Kept(s, proof)|;
             CheckpointProgress(plan, s.generation, Progress(page.sequence, kept, |proof.artifact.items| - kept,
                                                            proof.usage, proof.provider)).Some?
    ensures var (s', status) := PersistCheckpoint(plan, s, page, proof);
            if CursorFits(proof.artifact) && IdentitiesAreNew(s, proof) && CostFits(page, proof.usage) then
              page.sequence in s'.pages && s'.pages[page.sequence].state == Committed
              && (status == Committing || status == IsCancelled)
            else s'.pages == s.pages && s'.generation == s.generation && s'.runs == s.runs
                 && (CursorFits(proof.artifact) ==> s' == s)
  {
    var kept := |Kept(s, proof)|;
    InsertableIff(s, proof);
    ConcludesAfterProgress(plan, s.generation, Progress(page.sequence, kept, |proof.artifact.items| - kept, proof.usage,
                                                        proof.provider));
  }

  /** What the checkpoint of an admitted success comes to. */
  lemma SuccessLandsIff(plan: Plan, s: Store, proof: RunProof)
    requires Sound(plan, s) && PageExecutes(s) && proof.SucceededRun?
    requires ArtifactParses(proof.artifact) && ProofIsExact(s.pages[ActivePage(s)], proof)
    ensures var (s', status) := PersistCheckpoint(plan, s, s.pages[ActivePage(s)], proof);
            if Lands(plan, s, proof) then
              ActivePage(s) in s'.pages && s'.pages[ActivePage(s)].state == Committed
              && (status == Committing || status == IsCancelled)
            else s'.pages == s.pages && s'.generation == s.generation && s'.runs == s.runs
                 && (CursorFits(proof.artifact) ==> s' == s)
  {
    var n := ActivePage(s);
    assert PageInPlace(s, n);
    var kept := |Kept(s, proof)|;
    AdmittedLandsIff(plan, s, proof);
    if CostFits(s.pages[n], proof.usage) {
      ProgressesIff(plan, s, proof);
    }
    if CheckpointProgress(plan, s.generation, Progress(n, kept, |proof.artifact.items| - kept, proof.usage,
                                                       proof.provider)).Some? {
      ProgressedCommitsIff(plan, s, s.pages[n], proof);
    }
  }

  lemma FailureLands(plan: Plan, s: Store)
    requires Sound(plan, s) && PageExecutes(s)
    ensures ActivePage(s) in ProjectFailure(plan, s, s.pages[ActivePage(s)]).0.pages
    ensures ProjectFailure(plan, s, s.pages[ActivePage(s)]).0.pages[ActivePage(s)].state == PageFailed
  {
    var g := s.generation;
    assert PageInPlace(s, ActivePage(s));
    LessIsAtMost(g.reserved + g.spent, g.spent, plan.budgetLimit);
  }

  /** Only the first page can be marked ambiguous: a later one leaves a snapshot the aggregate refuses. */
  lemma DoubtLandsIff(plan: Plan, s: Store)
    requires Sound(plan, s) && PageExecutes(s)
    ensures var n := ActivePage(s);
            var s' := MarkPageAmbiguous(plan, s, n);
            if n == 1 then s'.pages[n].state == PageAmbiguous else s' == s
  {
    assert PageInPlace(s, ActivePage(s));
  }

  /**
   * A page that executes comes to rest at a checkpoint exactly when the outcome of its run lands: a failure
   * always, an ambiguity only on the first page, and a success exactly when its artifact and usage are those of the
   * page, within the limits of the plan and under the provider lock, with a cursor that fits and with identities
   * that are new. Otherwise the page and the generation are as before.
   */
  lemma LandsIff(plan: Plan, s: Store, proof: RunProof)
    requires Sound(plan, s) && PageExecutes(s)
    ensures var s', n := Checkpoint(plan, s, proof).0, ActivePage(s);
            n in s'.pages && (s'.pages[n].state != Executing <==> Lands(plan, s, proof))
            && (!Lands(plan, s, proof) ==>
                  s'.pages == s.pages && s'.generation == s.generation && s'.runs == s.runs
                  && (s' == s || (proof.SucceededRun? && !CursorFits(proof.artifact))))
  {
    var n := ActivePage(s);
    assert PageInPlace(s, n);
    CheckpointTouches(plan, s, proof);
    match proof
    case PendingRun =>
    case FailedRun => FailureLands(plan, s);
    case AmbiguousRun => DoubtLandsIff(plan, s);
    case SucceededRun(artifact, _, _, _) =>
      if ArtifactParses(artifact) && ProofIsExact(s.pages[n], proof) { SuccessLandsIff(plan, s, proof); }
  }

  /** With a cost that fits, a checkpoint is rolled back exactly for a repeated identity or ordinal. */
  lemma AbortsIff(plan: Plan, s: Store, proof: RunProof)
    requires Sound(plan, s) && PageExecutes(s) && proof.SucceededRun?
    requires CostFits(s.pages[ActivePage(s)], proof.usage)
    ensures Checkpoint(plan, s, proof).1 == Aborted
       <==> ArtifactParses(proof.artifact) && ProofIsExact(s.pages[ActivePage(s)], proof)
            && FitsGeneration(plan, s, proof) && !IdentitiesAreNew(s, proof)
  {
    assert PageInPlace(s, ActivePage(s));
    InsertableIff(s, proof);
    if ProofIsExact(s.pages[ActivePage(s)], proof) {
      ProgressesIff(plan, s, proof);
    }
  }

  // ----- What does not land never does -----

  /** The run of page `n` has this outcome and no other: checkpoints read it, or read the run while it is pending. */
  predicate OnlyOutcome(e: Event, proof: RunProof, n: nat) {
    (e.CheckpointActive? ==> e.proof == PendingRun || e.proof == proof) && (e.LoseOutcome? ==> n != 1)
  }

  lemma StuckStep(plan: Plan, s: Store, e: Event, proof: RunProof)
    requires Sound(plan, s) && PageExecutes(s) && !Lands(plan, s, proof) && OnlyOutcome(e, proof, ActivePage(s))
    ensures var s' := Step(plan, s, e);
            PageExecutes(s') && ActivePage(s') == ActivePage(s) && s'.pages == s.pages && s'.runs == s.runs
            && !Lands(plan, s', proof)
  {
    var n := ActivePage(s);
    assert PageInPlace(s, n);
    if n + 1 in s.pages { QueuedMeansCommitted(s); }
    match e
    case AuthorizeNext(open, runAccepted) => AuthorizeAdds(plan, s, open, runAccepted);
    case Start(sequence, amount, provider, open) => StartTakes(plan, s, sequence, amount, provider, open);
    case CheckpointActive(read) => LandsIff(plan, s, read);
    case LoseOutcome(sequence) =>
      if sequence in s.pages { assert PageInPlace(s, sequence); }
      DoubtLandsIff(plan, s);
    case RequestCancel(_) =>
  }

  /**
   * When the outcome of its run does not land, a page executes forever and the generation never ends: not by any
   * later checkpoint, authorization or start, and not by a stop.
   */
  lemma {:induction false} NeverEndsUnlessLands(plan: Plan, s: Store, events: seq<Event>, proof: RunProof)
    requires Sound(plan, s) && PageExecutes(s) && !Lands(plan, s, proof)
    requires forall e <- events :: OnlyOutcome(e, proof, ActivePage(s))
    ensures var s' := Run(plan, s, events);
            PageExecutes(s') && ActivePage(s') == ActivePage(s) && s'.pages == s.pages && s'.runs == s.runs
            && !Lands(plan, s', proof) && (s'.generation.state == Running || s'.generation.state == Stopping)
    decreases |events|
  {
    if events != [] {
      StuckStep(plan, s, events[0], proof);
      StepKeepsSound(plan, s, events[0]);
      NeverEndsUnlessLands(plan, Step(plan, s, events[0]), events[1..], proof);
    }
  }

  /**
   * A later page that lists the identity of a stored record with new content: the content passes the comparison
   * of hashes, the insertion breaks the key of the records, and the generation never ends.
   */
  lemma RepeatedIdentityNeverEnds(plan: Plan, s: Store, events: seq<Event>, proof: RunProof, k: nat, r: Record)
    requires Sound(plan, s) && PageExecutes(s) && proof.SucceededRun? && k < |proof.artifact.items|
    requires var item := proof.artifact.items[k];
             r in s.records && r.recordId == item.recordId && item.contentHash !in StoredHashes(s.records)
             && forall j :: 0 <= j < k ==> proof.artifact.items[j].contentHash != item.contentHash
    requires forall e <- events :: OnlyOutcome(e, proof, ActivePage(s))
    ensures var s' := Run(plan, s, events);
            PageExecutes(s') && ActivePage(s') == ActivePage(s) && s'.pages == s.pages && s'.runs == s.runs
            && (s'.generation.state == Running || s'.generation.state == Stopping)
  {
    FreshExactly(proof.artifact.items, StoredHashes(s.records), 0, k);
    assert Candidate(k + 1, proof.artifact.items[k]) in Kept(s, proof);
    NeverEndsUnlessLands(plan, s, events, proof);
  }

  // ----- Turns: page after page, each with the outcome of its run -----

  /** What a page is started with: its reservation and provider, the window, and the acceptance of its run. */
  datatype Offer = Offer(amount: real, provider: string, open: bool, runAccepted: bool)

  /** The next page authorized and started, unless one executes or the generation is over. */
  function Begin(plan: Plan, s: Store, o: Offer): Store {
    var queued := Step(plan, s, AuthorizeNext(o.open, o.runAccepted));
    Step(plan, queued, Start(ActivePage(queued) + 1, o.amount, o.provider, o.open))
  }

  /** A turn: the next page begins, and its checkpoint reads the outcome of its run. */
  function Turn(plan: Plan, s: Store, o: Offer, outcome: nat -> RunProof): Store {
    var begun := Begin(plan, s, o);
    Step(plan, begun, CheckpointActive(outcome(ActivePage(begun))))
  }

  function Turns(plan: Plan, s: Store, offers: seq<Offer>, outcome: nat -> RunProof): Store
    decreases |offers|
  {
    if offers == [] then s else Turns(plan, Turn(plan, s, offers[0], outcome), offers[1..], outcome)
  }

  /** The window is open and the page can be paid for, from the cap, the budget and the authority. */
  predicate Startable(plan: Plan, g: Aggregate, o: Offer) {
    o.open && o.runAccepted && BudgetLeaves(plan, g) && 0.0 < o.amount <= plan.hardCap - g.spent && o.amount <= plan.budgetLimit - g.spent
    && BoundedText(o.provider, 255)
  }

  predicate EachStartable(plan: Plan, s: Store, offers: seq<Offer>, outcome: nat -> RunProof)
    decreases |offers|
  {
    offers == []
    || ((HasTerminated(s.generation.state) || PageExecutes(s) || Startable(plan, s.generation, offers[0]))
        && EachStartable(plan, Turn(plan, s, offers[0], outcome), offers[1..], outcome))
  }

  /** Every page that a turn begins has an outcome that lands. */
  predicate EachLands(plan: Plan, s: Store, offers: seq<Offer>, outcome: nat -> RunProof)
    decreases |offers|
  {
    offers == [] || HasTerminated(s.generation.state)
    || (var begun := Begin(plan, s, offers[0]);
        PageExecutes(begun) && Lands(plan, begun, outcome(ActivePage(begun)))
        && EachLands(plan, Turn(plan, s, offers[0], outcome), offers[1..], outcome))
  }

  /** How many pages have come to rest. */
  function Rested(s: Store): nat {
    if PageExecutes(s) && ActivePage(s) > 0 then ActivePage(s) - 1 else ActivePage(s)
  }

  lemma TerminatedStays(plan: Plan, s: Store, o: Offer, outcome: nat -> RunProof)
    requires Sound(plan, s) && HasTerminated(s.generation.state)
    ensures Turn(plan, s, o, outcome) == s
  {
    var n := ActivePage(s);
    if n in s.pages { assert PageInPlace(s, n); }
    StartTakes(plan, s, n + 1, o.amount, o.provider, o.open);
  }

  lemma ExecutingBegins(plan: Plan, s: Store, o: Offer)
    requires Sound(plan, s) && PageExecutes(s)
    ensures Begin(plan, s, o) == s
  {
    var n := ActivePage(s);
    assert PageInPlace(s, n);
    if n + 1 in s.pages { QueuedMeansCommitted(s); }
    AuthorizeAdds(plan, s, o.open, o.runAccepted);
    StartTakes(plan, s, n + 1, o.amount, o.provider, o.open);
  }

  /** A generation that is neither over nor executing has its next page queued. */
  lemma NextIsQueued(plan: Plan, s: Store, o: Offer)
    requires Sound(plan, s) && !HasTerminated(s.generation.state) && !PageExecutes(s)
    requires Startable(plan, s.generation, o) && LimitsLeave(plan, NoProgress)
    ensures var s' := Step(plan, s, AuthorizeNext(o.open, o.runAccepted));
            var next := ActivePage(s) + 1;
            s'.generation == s.generation && LimitsLeave(plan, s.generation.counters)
            && next in s'.pages && s'.pages[next].state == RunCreated
            && s'.pages[next].budget == plan.hardCap - s.generation.spent
  {
    var n := ActivePage(s);
    if n in s.pages { assert PageInPlace(s, n); }
    if n + 1 in s.pages { assert PageInPlace(s, n + 1); }
    AuthorizeAdds(plan, s, o.open, o.runAccepted);
  }

  lemma QueuedStarts(plan: Plan, s: Store, o: Offer)
    requires Sound(plan, s) && (s.generation.state == Planned || s.generation.state == Running) && !PageExecutes(s)
    requires Startable(plan, s.generation, o) && LimitsLeave(plan, s.generation.counters)
    requires var next := ActivePage(s) + 1;
             next in s.pages && s.pages[next].state == RunCreated
             && s.pages[next].budget == plan.hardCap - s.generation.spent
    ensures var s' := Step(plan, s, Start(ActivePage(s) + 1, o.amount, o.provider, o.open));
            PageExecutes(s') && ActivePage(s') == ActivePage(s) + 1
  {
    var n, g := ActivePage(s), s.generation;
    if n in s.pages { assert PageInPlace(s, n); }
    assert g.reserved == 0.0;
  }

  lemma TwoStepsKeepSound(plan: Plan, s: Store, next: Store, last: Store, a: Event, b: Event)
    requires Sound(plan, s) && next == Step(plan, s, a) && last == Step(plan, next, b)
    ensures Sound(plan, next) && Sound(plan, last)
  {
    StepKeepsSound(plan, s, a);
    StepKeepsSound(plan, next, b);
  }

  lemma BeginKeepsSound(plan: Plan, s: Store, o: Offer)
    requires Sound(plan, s)
    ensures Sound(plan, Step(plan, s, AuthorizeNext(o.open, o.runAccepted))) && Sound(plan, Begin(plan, s, o))
  {
    var queued := Step(plan, s, AuthorizeNext(o.open, o.runAccepted));
    TwoStepsKeepSound(plan, s, queued, Begin(plan, s, o), AuthorizeNext(o.open, o.runAccepted),
                      Start(ActivePage(queued) + 1, o.amount, o.provider, o.open));
  }

  lemma AuthorizeKeepsActive(plan: Plan, s: Store, o: Offer)
    requires Sound(plan, s) && !PageExecutes(s)
    ensures var s' := Step(plan, s, AuthorizeNext(o.open, o.runAccepted));
            !PageExecutes(s') && s'.generation == s.generation
  {
    if ActivePage(s) in s.pages { assert PageInPlace(s, ActivePage(s)); }
    AuthorizeAdds(plan, s, o.open, o.runAccepted);
  }

  lemma NextBegins(plan: Plan, s: Store, o: Offer, queued: Store)
    requires Sound(plan, s) && !HasTerminated(s.generation.state) && LimitsLeave(plan, NoProgress)
    requires !PageExecutes(s) && Startable(plan, s.generation, o)
    requires queued == Step(plan, s, AuthorizeNext(o.open, o.runAccepted)) && Sound(plan, queued)
    ensures var s' := Step(plan, queued, Start(ActivePage(queued) + 1, o.amount, o.provider, o.open));
            PageExecutes(s') && ActivePage(s') == ActivePage(s) + 1
  {
    NextIsQueued(plan, s, o);
    AuthorizeKeepsActive(plan, s, o);
    OpenState(plan, s);
    QueuedStarts(plan, queued, o);
  }

  lemma OpenState(plan: Plan, s: Store)
    requires Sound(plan, s) && !HasTerminated(s.generation.state) && !PageExecutes(s)
    ensures s.generation.state == Planned || s.generation.state == Running
  {
  }

  lemma BeginsNext(plan: Plan, s: Store, o: Offer, queued: Store, begun: Store)
    requires Sound(plan, s) && !HasTerminated(s.generation.state) && LimitsLeave(plan, NoProgress)
    requires !PageExecutes(s) && Startable(plan, s.generation, o)
    requires queued == Step(plan, s, AuthorizeNext(o.open, o.runAccepted)) && Sound(plan, queued)
    requires begun == Step(plan, queued, Start(ActivePage(queued) + 1, o.amount, o.provider, o.open))
    ensures PageExecutes(begun) && ActivePage(begun) == Rested(s) + 1
  {
    NextBegins(plan, s, o, queued);
  }

  lemma StartableBegins(plan: Plan, s: Store, o: Offer)
    requires Sound(plan, s) && !HasTerminated(s.generation.state) && LimitsLeave(plan, NoProgress)
    requires !PageExecutes(s) && Startable(plan, s.generation, o)
    requires Sound(plan, Step(plan, s, AuthorizeNext(o.open, o.runAccepted)))
    ensures PageExecutes(Begin(plan, s, o)) && ActivePage(Begin(plan, s, o)) == Rested(s) + 1
  {
    BeginsNext(plan, s, o, Step(plan, s, AuthorizeNext(o.open, o.runAccepted)), Begin(plan, s, o));
  }

  lemma ExecutingBeginsItself(plan: Plan, s: Store, o: Offer)
    requires Sound(plan, s) && PageExecutes(s)
    ensures PageExecutes(Begin(plan, s, o)) && ActivePage(Begin(plan, s, o)) == Rested(s) + 1
  {
    ExecutingBegins(plan, s, o);
    assert PageInPlace(s, ActivePage(s));
  }

  lemma BeginsIfStartable(plan: Plan, s: Store, o: Offer)
    requires Sound(plan, s) && !HasTerminated(s.generation.state) && LimitsLeave(plan, NoProgress)
    requires PageExecutes(s) || Startable(plan, s.generation, o)
    ensures Sound(plan, Begin(plan, s, o)) && PageExecutes(Begin(plan, s, o))
    ensures ActivePage(Begin(plan, s, o)) == Rested(s) + 1
  {
    BeginKeepsSound(plan, s, o);
    if PageExecutes(s) {
      ExecutingBeginsItself(plan, s, o);
    } else {
      StartableBegins(plan, s, o);
    }
  }

  /** A turn whose outcome lands puts one more page to rest; the generation is over or its next page has room. */
  lemma TurnRests(plan: Plan, s: Store, o: Offer, outcome: nat -> RunProof)
    requires Sound(plan, s) && !HasTerminated(s.generation.state) && LimitsLeave(plan, NoProgress)
    requires PageExecutes(s) || Startable(plan, s.generation, o)
    requires PageExecutes(Begin(plan, s, o))
             && Lands(plan, Begin(plan, s, o), outcome(ActivePage(Begin(plan, s, o))))
    ensures var s' := Turn(plan, s, o, outcome);
            Sound(plan, s') && !PageExecutes(s') && Rested(s') == Rested(s) + 1
  {
    BeginsIfStartable(plan, s, o);
    var begun := Begin(plan, s, o);
    var read := outcome(ActivePage(begun));
    LandsIff(plan, begun, read);
    StepKeepsSound(plan, begun, CheckpointActive(read));
    assert PageInPlace(begun, ActivePage(begun));
    CheckpointTouches(plan, begun, read);
  }

  lemma {:induction false} StuckTurns(plan: Plan, s: Store, offers: seq<Offer>, outcome: nat -> RunProof)
    requires Sound(plan, s) && PageExecutes(s) && !Lands(plan, s, outcome(ActivePage(s)))
    ensures !HasTerminated(Turns(plan, s, offers, outcome).generation.state)
    decreases |offers|
  {
    if offers != [] {
      ExecutingBegins(plan, s, offers[0]);
      StuckStep(plan, s, CheckpointActive(outcome(ActivePage(s))), outcome(ActivePage(s)));
      StepKeepsSound(plan, s, CheckpointActive(outcome(ActivePage(s))));
      StuckTurns(plan, Turn(plan, s, offers[0], outcome), offers[1..], outcome);
    }
  }

  lemma {:induction false} OverStays(plan: Plan, s: Store, offers: seq<Offer>, outcome: nat -> RunProof)
    requires Sound(plan, s) && HasTerminated(s.generation.state)
    ensures Turns(plan, s, offers, outcome) == s
    decreases |offers|
  {
    if offers != [] {
      TerminatedStays(plan, s, offers[0], outcome);
      OverStays(plan, s, offers[1..], outcome);
    }
  }

  /** With no page left to rest, the generation is over. */
  lemma AllRestedIsOver(plan: Plan, s: Store)
    requires Sound(plan, s) && LimitsLeave(plan, NoProgress) && Rested(s) >= plan.maxPages
    ensures HasTerminated(s.generation.state)
  {
    if ActivePage(s) in s.pages { assert PageInPlace(s, ActivePage(s)); }
  }

  /**
   * A generation whose pages can each be started ends within `maxPages` turns if and only if the outcome of every page
   * that begins lands: otherwise the first page whose outcome does not land executes forever.
   */
  lemma {:induction false} EndsWithinMaxPagesIff(plan: Plan, s: Store, offers: seq<Offer>, outcome: nat -> RunProof)
    requires Sound(plan, s) && LimitsLeave(plan, NoProgress) && EachStartable(plan, s, offers, outcome)
    requires Rested(s) + |offers| >= plan.maxPages
    ensures HasTerminated(Turns(plan, s, offers, outcome).generation.state) <==> EachLands(plan, s, offers, outcome)
    decreases |offers|
  {
    if HasTerminated(s.generation.state) {
      OverStays(plan, s, offers, outcome);
    } else if offers == [] {
      AllRestedIsOver(plan, s);
    } else {
      BeginsIfStartable(plan, s, offers[0]);
      var begun := Begin(plan, s, offers[0]);
      var read := outcome(ActivePage(begun));
      if Lands(plan, begun, read) {
        TurnRests(plan, s, offers[0], outcome);
        EndsWithinMaxPagesIff(plan, Turn(plan, s, offers[0], outcome), offers[1..], outcome);
      } else {
        StuckStep(plan, begun, CheckpointActive(read), read);
        StepKeepsSound(plan, begun, CheckpointActive(read));
        StuckTurns(plan, Turn(plan, s, offers[0], outcome), offers[1..], outcome);
      }
    }
  }

  /** A plan without room for a first page never begins one: its generation stays planned, or is cancelled. */
  lemma {:induction false} NoRoomNeverBegins(plan: Plan, s: Store, events: seq<Event>)
    requires Sound(plan, s) && ActivePage(s) == 0 && s.runs == [] && !LimitsLeave(plan, NoProgress)
    ensures var s' := Run(plan, s, events);
            s'.runs == [] && s'.pages == map[] && (s'.generation.state == Planned || s'.generation.state == Cancelled)
    decreases |events|
  {
    assert s.pages == map[];
    if events != [] {
      AuthorizeAdds(plan, s, true, true);
      StepKeepsSound(plan, s, events[0]);
      NoRoomNeverBegins(plan, Step(plan, s, events[0]), events[1..]);
    }
  }
}
