/** Money, records, chain and stop: what holds in every run of a generation. */
module GenerationTheorems {
  import opened Outcomes
  import opened Amounts
  import opened Generation
  import opened GenerationPaging
  import opened GenerationSafety

  // ----- Money -----

  /** What the active page leaves of the hard cap. */
  ghost predicate ActiveMoney(plan: Plan, g: Aggregate, p: Page) {
    p.reserved > 0.0
    && match p.state
       case RunCreated => false
       case Executing => g.reserved == p.reserved && g.spent + p.reserved <= plan.hardCap
       case PageAmbiguous => g.spent + p.reserved <= plan.hardCap
       case PageFailed => g.spent + p.reserved <= plan.hardCap
       case Committed =>
         g.reserved == 0.0 && g.lastPage == Some(p.sequence) && p.result.Some? && IsAmount(p.result.value.cost)
         && CostFits(p, p.result.value.cost)
         && g.spent - p.result.value.cost + p.reserved <= plan.hardCap
  }

  ghost predicate MoneySafe(plan: Plan, s: Store) {
    var n := ActivePage(s);
    s.generation.spent >= 0.0
    && (n == 0 ==> s.generation.spent == 0.0 && s.generation.reserved == 0.0)
    && (n >= 1 && n in s.pages ==> ActiveMoney(plan, s.generation, s.pages[n]))
    && (n + 1 in s.pages ==> s.pages[n + 1].budget == plan.hardCap - s.generation.spent)
  }

  lemma CheckpointMoney(plan: Plan, s: Store, proof: RunProof)
    requires Chained(s) && MoneySafe(plan, s)
    ensures MoneySafe(plan, Checkpoint(plan, s, proof).0)
  {
    var n := ActivePage(s);
    if n in s.pages {
      assert PageInPlace(s, n);
      CheckpointTouches(plan, s, proof);
      if n + 1 in s.pages {
        assert PageInPlace(s, n + 1);
        assert s.pages[n].state == Committed;
      }
    }
  }

  lemma StartMoney(plan: Plan, s: Store, sequence: nat, amount: real, provider: string, open: bool)
    requires Chained(s) && MoneySafe(plan, s)
    ensures MoneySafe(plan, StartEffect(plan, s, sequence, amount, provider, open))
  {
    var s' := StartEffect(plan, s, sequence, amount, provider, open);
    StartTakes(plan, s, sequence, amount, provider, open);
    if s' != s {
      assert PageInPlace(s, sequence);
      assert sequence + 1 !in s.pages;
    }
  }

  lemma AuthorizeMoney(plan: Plan, s: Store, open: bool, runAccepted: bool)
    requires Chained(s) && MoneySafe(plan, s)
    ensures MoneySafe(plan, Authorize(plan, s, open, runAccepted).0)
  {
  }

  lemma MoneyStep(plan: Plan, s: Store, e: Event)
    requires Chained(s) && MoneySafe(plan, s)
    ensures MoneySafe(plan, Step(plan, s, e))
  {
    match e
    case AuthorizeNext(open, runAccepted) => AuthorizeMoney(plan, s, open, runAccepted);
    case Start(sequence, amount, provider, open) => StartMoney(plan, s, sequence, amount, provider, open);
    case LoseOutcome(sequence) =>
      if sequence in s.pages { assert PageInPlace(s, sequence); }
    case CheckpointActive(proof) => CheckpointMoney(plan, s, proof);
    case RequestCancel(runCancels) =>
  }

  // ----- Records -----

  /** Ordinals run from 1 without a gap, contents and identities are distinct, and each record has its lineage. */
  ghost predicate Accounted(s: Store) {
    (forall i :: 0 <= i < |s.records| ==> s.records[i].ordinal == i + 1)
    && (forall i, j :: 0 <= i < j < |s.records| ==>
          s.records[i].contentHash != s.records[j].contentHash && s.records[i].recordId != s.records[j].recordId)
    && s.lineage == NewLineage(s.records)
  }

  /** The generation counts exactly the stored records. */
  predicate CountsRecords(s: Store) {
    s.generation.counters.accepted == |s.records|
  }

  /** Candidates taken from the page in order, all with contents not seen before and not repeated. */
  ghost predicate AllNew(kept: seq<Candidate>, items: seq<Item>, seen: set<string>, at: nat) {
    (forall i :: 0 <= i < |kept| ==>
       at < kept[i].position <= |items| && kept[i].item == items[kept[i].position - 1]
       && kept[i].item.contentHash !in seen)
    && (forall i, j :: 0 <= i < j < |kept| ==>
          kept[i].position < kept[j].position && kept[i].item.contentHash != kept[j].item.contentHash)
  }

  lemma {:induction false} FreshAreNew(items: seq<Item>, seen: set<string>, at: nat)
    requires at <= |items|
    ensures AllNew(FreshItems(items, seen, at), items, seen, at)
    decreases |items| - at
  {
    if at < |items| {
      if items[at].contentHash in seen {
        FreshAreNew(items, seen, at + 1);
        assert FreshItems(items, seen, at) == FreshItems(items, seen, at + 1);
      } else {
        var more := seen + {items[at].contentHash};
        FreshAreNew(items, more, at + 1);
      }
    }
  }

  /** An item is kept exactly when its content is neither stored nor earlier in the page: first occurrences win. */
  lemma {:induction false} FreshExactly(items: seq<Item>, seen: set<string>, at: nat, k: nat)
    requires at <= k < |items|
    ensures Candidate(k + 1, items[k]) in FreshItems(items, seen, at)
       <==> items[k].contentHash !in seen && forall j :: at <= j < k ==> items[j].contentHash != items[k].contentHash
    decreases |items| - at
  {
    var rest := if items[at].contentHash in seen then seen else seen + {items[at].contentHash};
    FreshAreNew(items, rest, at + 1);
    if at < k {
      FreshExactly(items, rest, at + 1, k);
    }
  }

  lemma AppendAccounts(s: Store, items: seq<Item>, page: nat, accepted: nat)
    requires Accounted(s) && DistinctRecordIds(items)
    requires var added := NewRecords(FreshItems(items, StoredHashes(s.records), 0), page, accepted);
             Insertable(s.records, added) && accepted <= |s.records|
    ensures var added := NewRecords(FreshItems(items, StoredHashes(s.records), 0), page, accepted);
            Accounted(s.(records := s.records + added, lineage := s.lineage + NewLineage(added)))
            && (added == [] || accepted == |s.records|)
  {
    var kept := FreshItems(items, StoredHashes(s.records), 0);
    var added := NewRecords(kept, page, accepted);
    FreshAreNew(items, StoredHashes(s.records), 0);
    if added != [] {
      NoGap(s.records, added, accepted);
    }
    var all := s.records + added;
    forall i | 0 <= i < |s.records| ensures s.records[i].contentHash in StoredHashes(s.records) {}
    AddedAreDistinct(s.records, kept, items, added);
    assert s.lineage + NewLineage(added) == NewLineage(all);
  }

  function Ordinals(records: seq<Record>): set<nat> {
    set r <- records :: r.ordinal
  }

  lemma OrdinalIn(stored: seq<Record>, k: nat)
    requires k < |stored| && forall i :: 0 <= i < |stored| ==> stored[i].ordinal == i + 1
    ensures k + 1 in Ordinals(stored)
  {
    assert stored[k] in stored;
  }

  /** An insertion that keeps ordinals unique continues where the stored ones end. */
  lemma NoGap(stored: seq<Record>, added: seq<Record>, accepted: nat)
    requires forall i :: 0 <= i < |stored| ==> stored[i].ordinal == i + 1
    requires added != [] && added[0].ordinal == accepted + 1 && Insertable(stored, added) && accepted <= |stored|
    ensures accepted == |stored|
  {
    assert added[0].ordinal !in Ordinals(stored);
    if accepted < |stored| {
      OrdinalIn(stored, accepted);
    }
  }

  lemma AddedAreDistinct(stored: seq<Record>, kept: seq<Candidate>, items: seq<Item>, added: seq<Record>)
    requires AllNew(kept, items, StoredHashes(stored), 0) && DistinctRecordIds(items)
    requires |added| == |kept| && Insertable(stored, added)
    requires forall i :: 0 <= i < |kept| ==>
               added[i].contentHash == kept[i].item.contentHash && added[i].recordId == kept[i].item.recordId
    requires forall i, j :: 0 <= i < j < |stored| ==>
               stored[i].contentHash != stored[j].contentHash && stored[i].recordId != stored[j].recordId
    ensures var all := stored + added;
            forall i, j :: 0 <= i < j < |all| ==>
              all[i].contentHash != all[j].contentHash && all[i].recordId != all[j].recordId
  {
  }

  /** A checkpoint never uncounts a record, and keeps ordinals, contents and lineage in order. */
  ghost predicate RecordsSafe(s: Store) {
    Accounted(s) && s.generation.counters.accepted <= |s.records|
  }

  lemma PersistRecords(plan: Plan, s: Store, page: Page, proof: RunProof)
    requires proof.SucceededRun? && DistinctRecordIds(proof.artifact.items) && RecordsSafe(s)
    ensures RecordsSafe(PersistCheckpoint(plan, s, page, proof).0)
  {
    var kept := FreshItems(proof.artifact.items, StoredHashes(s.records), 0);
    var accepted := s.generation.counters.accepted;
    if Insertable(s.records, NewRecords(kept, page.sequence, accepted)) {
      AppendAccounts(s, proof.artifact.items, page.sequence, accepted);
    }
  }

  /** A checkpoint that succeeds writes as a commit does, or not at all. */
  predicate MayCommit(s: Store, e: Event) {
    e.CheckpointActive? && ActivePage(s) in s.pages && e.proof.SucceededRun? && ArtifactParses(e.proof.artifact)
  }

  lemma RecordsUntouched(plan: Plan, s: Store, e: Event)
    requires !MayCommit(s, e)
    ensures Step(plan, s, e).records == s.records && Step(plan, s, e).lineage == s.lineage
  {
  }

  lemma CommitOrNothing(plan: Plan, s: Store, e: Event)
    requires MayCommit(s, e)
    ensures var s' := Step(plan, s, e); s' == s || s' == PersistCheckpoint(plan, s, s.pages[ActivePage(s)], e.proof).0
  {
  }

  lemma RecordsStep(plan: Plan, s: Store, e: Event)
    requires RecordsSafe(s)
    ensures RecordsSafe(Step(plan, s, e))
  {
    if MayCommit(s, e) {
      CommitOrNothing(plan, s, e);
      PersistRecords(plan, s, s.pages[ActivePage(s)], e.proof);
    } else {
      RecordsUntouched(plan, s, e);
    }
  }

  // ----- Every run -----

  ghost predicate Safe(plan: Plan, s: Store) {
    SnapshotSafe(plan, s) && Chained(s) && MoneySafe(plan, s) && RecordsSafe(s)
    && |s.runs| <= plan.maxPages
  }

  ghost predicate SnapshotSafe(plan: Plan, s: Store) {
    ValidSnapshot(plan, s.generation)
    && (s.generation.state == Planned <==> ActivePage(s) == 0 && !s.generation.stopRequested)
  }

  lemma CheckpointSnapshot(plan: Plan, s: Store, proof: RunProof)
    requires SnapshotSafe(plan, s)
    ensures SnapshotSafe(plan, Checkpoint(plan, s, proof).0)
  {
  }

  lemma SnapshotStep(plan: Plan, s: Store, e: Event)
    requires SnapshotSafe(plan, s)
    ensures SnapshotSafe(plan, Step(plan, s, e))
  {
    if e.CheckpointActive? {
      CheckpointSnapshot(plan, s, e.proof);
    }
  }

  lemma StepKeepsSafe(plan: Plan, s: Store, e: Event)
    requires Safe(plan, s)
    ensures Safe(plan, Step(plan, s, e))
  {
    SnapshotStep(plan, s, e);
    ChainStep(plan, s, e);
    MoneyStep(plan, s, e);
    RecordsStep(plan, s, e);
    if e.AuthorizeNext? {
      if ActivePage(s) in s.pages { assert PageInPlace(s, ActivePage(s)); }
      AuthorizeAdds(plan, s, e.open, e.runAccepted);
    }
  }

  lemma {:induction false} RunKeepsSafe(plan: Plan, s: Store, events: seq<Event>)
    requires Safe(plan, s)
    ensures Safe(plan, Run(plan, s, events))
    decreases |events|
  {
    if events != [] {
      StepKeepsSafe(plan, s, events[0]);
      RunKeepsSafe(plan, Step(plan, s, events[0]), events[1..]);
    }
  }

  lemma EmptyIsSafe(plan: Plan)
    requires IsAmount(plan.budgetLimit)
    ensures Safe(plan, Empty)
  {
  }

  lemma SpentWithinCap(plan: Plan, s: Store)
    requires Safe(plan, s) && IsAmount(plan.hardCap)
    ensures 0.0 <= s.generation.spent <= plan.hardCap
    ensures forall q :: q in s.pages && s.pages[q].state == Committed ==>
              s.pages[q].result.Some? && s.pages[q].result.value.cost <= s.pages[q].reserved
  {
    forall q | q in s.pages && s.pages[q].state == Committed
      ensures s.pages[q].result.Some? && s.pages[q].result.value.cost <= s.pages[q].reserved
    {
      assert PageInPlace(s, q);
    }
    if ActivePage(s) >= 1 {
      assert PageInPlace(s, ActivePage(s));
    }
  }

  /**
   * Over any number of pages the spend stays within the hard cap, and each committed page within its reservation:
   * the rounding that the code allows is refused by the ledger and by the page table.
   */
  lemma SpendBound(plan: Plan, events: seq<Event>)
    requires IsAmount(plan.budgetLimit) && IsAmount(plan.hardCap)
    ensures var s := Run(plan, Empty, events);
            0.0 <= s.generation.spent <= plan.hardCap
            && (forall q :: q in s.pages && s.pages[q].state == Committed ==>
                  s.pages[q].result.Some? && s.pages[q].result.value.cost <= s.pages[q].reserved)
  {
    EmptyIsSafe(plan);
    RunKeepsSafe(plan, Empty, events);
    SpentWithinCap(plan, Run(plan, Empty, events));
  }

  /** Whatever the effect of the active page costs within its reservation, the total stays within the same bound. */
  lemma UnrecordedUsageIsCovered(plan: Plan, events: seq<Event>, usage: real)
    requires IsAmount(plan.budgetLimit)
    requires var s := Run(plan, Empty, events);
             ActivePage(s) in s.pages && s.pages[ActivePage(s)].state != Committed && IsAmount(usage)
             && AtMost(usage, s.pages[ActivePage(s)].reserved)
    ensures var s := Run(plan, Empty, events);
            s.generation.spent + usage <= plan.hardCap + Tolerance(usage, s.pages[ActivePage(s)].reserved)
  {
    EmptyIsSafe(plan);
    RunKeepsSafe(plan, Empty, events);
    assert PageInPlace(Run(plan, Empty, events), ActivePage(Run(plan, Empty, events)));
  }

  /** One page and one run per sequence, each after its committed predecessor's cursor, and at most `maxPages`. */
  lemma PagesAreChained(plan: Plan, events: seq<Event>, q: nat)
    requires IsAmount(plan.budgetLimit) && q in Run(plan, Empty, events).pages
    ensures var s := Run(plan, Empty, events);
            1 <= q <= plan.maxPages && q <= |s.runs| && s.runs[q - 1] == q
            && (forall i :: 0 <= i < |s.runs| && s.runs[i] == q ==> i == q - 1)
            && Follows(s.pages, q, s.pages[q].inputCursor)
  {
    EmptyIsSafe(plan);
    RunKeepsSafe(plan, Empty, events);
    assert PageInPlace(Run(plan, Empty, events), q);
  }

  /** Accepted records carry ordinals 1 to n, distinct contents and one lineage row each. */
  lemma RecordsAreAccounted(plan: Plan, events: seq<Event>)
    requires IsAmount(plan.budgetLimit)
    ensures var s := Run(plan, Empty, events);
            Accounted(s) && |s.lineage| == |s.records| && s.generation.counters.accepted <= |s.records|
            && s.generation.counters.returned
               == s.generation.counters.accepted + s.generation.counters.duplicates
  {
    EmptyIsSafe(plan);
    RunKeepsSafe(plan, Empty, events);
  }

  // ----- Records that are written but never counted -----

  predicate CursorFits(a: Artifact) {
    a.hasMore ==> a.nextCursor.Some? && |a.nextCursor.value| <= 255
  }

  lemma ConcludesAfterProgress(plan: Plan, g: Aggregate, p: Progress)
    requires CheckpointProgress(plan, g, p).Some?
    ensures var next := CheckpointProgress(plan, g, p).value;
            (next.state == Stopping ==> CancelAfterStop(plan, next).Some?)
            && (next.state == Running ==> Complete(plan, next).Some?)
            && next.counters.accepted == g.counters.accepted + p.accepted
  {
  }

  lemma WritingCheckpoint(plan: Plan, s: Store, proof: RunProof)
    requires proof.SucceededRun? && Checkpoint(plan, s, proof).0.records != s.records
    ensures ActivePage(s) in s.pages && s.pages[ActivePage(s)].state == Executing && ArtifactParses(proof.artifact)
    ensures ProofIsExact(s.pages[ActivePage(s)], proof)
    ensures Checkpoint(plan, s, proof) == PersistCheckpoint(plan, s, s.pages[ActivePage(s)], proof)
  {
  }

  /**
   * The parser asks only for a cursor that is not blank, but a page commits only a cursor of at most 255
   * code points, and by then its records are written: they stay uncounted exactly when the cursor is longer.
   */
  lemma RecordsCountedIff(plan: Plan, s: Store, proof: RunProof)
    requires CountsRecords(s) && proof.SucceededRun?
    requires Checkpoint(plan, s, proof).0.records != s.records
    ensures CountsRecords(Checkpoint(plan, s, proof).0) <==> CursorFits(proof.artifact)
  {
    WritingCheckpoint(plan, s, proof);
    var page := s.pages[ActivePage(s)];
    var kept := FreshItems(proof.artifact.items, StoredHashes(s.records), 0);
    var progress := Progress(page.sequence, |kept|, |proof.artifact.items| - |kept|, proof.usage, proof.provider);
    ConcludesAfterProgress(plan, s.generation, progress);
  }

  lemma CountsStep(plan: Plan, s: Store, e: Event)
    requires CountsRecords(s)
    requires e.CheckpointActive? && e.proof.SucceededRun? ==> CursorFits(e.proof.artifact)
    ensures CountsRecords(Step(plan, s, e))
  {
    if e.CheckpointActive? && e.proof.SucceededRun? {
      if Checkpoint(plan, s, e.proof).0.records != s.records {
        RecordsCountedIff(plan, s, e.proof);
      } else {
        NoRecordsNoCount(plan, s, e.proof);
      }
    }
  }

  lemma NoRecordsNoCount(plan: Plan, s: Store, proof: RunProof)
    requires proof.SucceededRun? && Checkpoint(plan, s, proof).0.records == s.records
    ensures Checkpoint(plan, s, proof).0.generation.counters.accepted == s.generation.counters.accepted
  {
    if ActivePage(s) in s.pages {
      var page := s.pages[ActivePage(s)];
      var kept := FreshItems(proof.artifact.items, StoredHashes(s.records), 0);
      var added := NewRecords(kept, page.sequence, s.generation.counters.accepted);
      assert |s.records + added| == |s.records| + |kept|;
    }
  }

  /** When every cursor fits, the generation counts exactly the records it stores, in every run. */
  lemma {:induction false} CountsInEveryRun(plan: Plan, s: Store, events: seq<Event>)
    requires CountsRecords(s)
    requires forall i :: 0 <= i < |events| && events[i].CheckpointActive? && events[i].proof.SucceededRun?
                         ==> CursorFits(events[i].proof.artifact)
    ensures CountsRecords(Run(plan, s, events))
    decreases |events|
  {
    if events != [] {
      CountsStep(plan, s, events[0]);
      CountsInEveryRun(plan, Step(plan, s, events[0]), events[1..]);
    }
  }

  // ----- Checkpoints repeat and hand over -----

  /** Checkpointing a committed page again writes nothing, whatever the proof says. */
  lemma RecheckpointWritesNothing(plan: Plan, s: Store, proof: RunProof)
    requires ActivePage(s) in s.pages && s.pages[ActivePage(s)].state == Committed
    ensures Checkpoint(plan, s, proof).0 == s
    ensures proof.SucceededRun? && Checkpoint(plan, s, proof).1 == Unchanged ==>
              s.pages[ActivePage(s)].result.Some?
              && s.pages[ActivePage(s)].result.value.artifact == proof.artifact
              && s.pages[ActivePage(s)].result.value.cost == proof.usage
  {
  }

  lemma ActiveStays(plan: Plan, s: Store, proof: RunProof)
    requires Chained(s)
    ensures ActivePage(Checkpoint(plan, s, proof).0) == ActivePage(s)
  {
    if ActivePage(s) in s.pages { assert PageInPlace(s, ActivePage(s)); }
    CheckpointTouches(plan, s, proof);
  }

  lemma QueuedMeansCommitted(s: Store)
    requires Chained(s) && ActivePage(s) >= 1 && ActivePage(s) + 1 in s.pages
    ensures ActivePage(s) in s.pages && s.pages[ActivePage(s)].state == Committed
  {
    assert PageInPlace(s, ActivePage(s) + 1);
  }

  lemma NothingQueued(plan: Plan, s: Store, proof: RunProof)
    requires Chained(s) && Checkpoint(plan, s, proof).1 == Committing
    ensures ActivePage(s) + 1 !in s.pages
  {
    assert s.pages[ActivePage(s)].state == Executing;
    if ActivePage(s) + 1 in s.pages {
      QueuedMeansCommitted(s);
    }
  }

  /** The page promised more, and every counter and the money are below their limits. */
  predicate MoreToFetch(plan: Plan, g: Aggregate, artifact: Artifact) {
    artifact.hasMore && g.counters.pages < plan.maxPages && g.counters.calls < plan.maxCalls
    && g.counters.returned < plan.maxResults && g.counters.accepted < plan.maxAccepted && g.spent < plan.hardCap
  }

  /**
   * A committed page leaves the generation running exactly when it promised more and every limit leaves room, with its
   * cost spent and nothing reserved; then, inside the window and the outer budgets, the next page is authorized.
   */
  lemma RunningMeansNextPage(plan: Plan, s: Store, proof: RunProof)
    requires Safe(plan, s)
    requires Checkpoint(plan, s, proof).1 == Committing
    ensures var s' := Checkpoint(plan, s, proof).0;
            var g := s'.generation;
            g.state == (if MoreToFetch(plan, g, proof.artifact) then Running else Completed)
            && g.spent == s.generation.spent + proof.usage && g.reserved == 0.0
            && g.counters.pages == s.generation.counters.pages && g.counters.calls == s.generation.counters.calls
            && (g.state == Running ==>
                  Authorize(plan, s', true, true).1
                  == if g.spent < plan.availableBudget && g.spent < plan.availableAuthority
                     then Authorized(g.counters.pages + 1) else BudgetExhausted)
  {
    assert PageInPlace(s, ActivePage(s));
    CheckpointTouches(plan, s, proof);
    StepKeepsSafe(plan, s, CheckpointActive(proof));
    NothingQueued(plan, s, proof);
    CommitConcludes(plan, s, proof);
    if MoreToFetch(plan, Checkpoint(plan, s, proof).0.generation, proof.artifact) {
      NextIsAuthorized(plan, Checkpoint(plan, s, proof).0, true, true);
    }
  }

  lemma CommitConcludes(plan: Plan, s: Store, proof: RunProof)
    requires Safe(plan, s) && Checkpoint(plan, s, proof).1 == Committing
    ensures var s', n := Checkpoint(plan, s, proof).0, ActivePage(s);
            var g := s'.generation;
            g.state == (if MoreToFetch(plan, g, proof.artifact) then Running else Completed)
            && g.spent == s.generation.spent + proof.usage && g.reserved == 0.0
            && g.counters.pages == s.generation.counters.pages && g.counters.calls == s.generation.counters.calls
            && n in s'.pages && s'.pages[n].state == Committed && s'.pages[n].result.Some?
            && s'.pages[n].result.value.artifact == proof.artifact
  {
    assert PageInPlace(s, ActivePage(s));
  }

  lemma NextIsAuthorized(plan: Plan, s: Store, open: bool, runAccepted: bool)
    requires Safe(plan, s) && s.generation.state == Running && ActivePage(s) + 1 !in s.pages
    requires ActivePage(s) in s.pages && s.pages[ActivePage(s)].state == Committed && s.pages[ActivePage(s)].result.Some?
    requires var a := s.pages[ActivePage(s)].result.value.artifact;
             a.nextCursor.Some? && BoundedText(a.nextCursor.value, 255) && MoreToFetch(plan, s.generation, a)
    ensures var g := s.generation;
            Authorize(plan, s, open, runAccepted).1
            == if !open then DeadlineElapsed
               else if g.spent >= plan.availableBudget || g.spent >= plan.availableAuthority then BudgetExhausted
               else if runAccepted then Authorized(g.counters.pages + 1) else RunRejected
    ensures Authorize(plan, s, open, runAccepted).0.generation == s.generation
  {
    assert PageInPlace(s, ActivePage(s));
  }

  /** Committing the same proof again is answered as unchanged and changes nothing. */
  lemma RepeatIsUnchanged(plan: Plan, s: Store, proof: RunProof)
    requires Safe(plan, s) && Checkpoint(plan, s, proof).1 == Committing
    ensures var s' := Checkpoint(plan, s, proof).0; Checkpoint(plan, s', proof) == (s', Unchanged)
  {
    var n := ActivePage(s);
    assert PageInPlace(s, n);
    CheckpointTouches(plan, s, proof);
    StepKeepsSafe(plan, s, CheckpointActive(proof));
  }

  lemma CommittedStep(plan: Plan, s: Store, e: Event, q: nat)
    requires Chained(s) && q in s.pages && s.pages[q].state == Committed
    ensures q in Step(plan, s, e).pages && Step(plan, s, e).pages[q] == s.pages[q]
  {
    var n := ActivePage(s);
    if n in s.pages { assert PageInPlace(s, n); }
    match e
    case AuthorizeNext(open, runAccepted) => AuthorizeAdds(plan, s, open, runAccepted);
    case Start(sequence, amount, provider, open) => StartTakes(plan, s, sequence, amount, provider, open);
    case CheckpointActive(proof) => CheckpointTouches(plan, s, proof);
    case _ =>
  }

  /**
   * A committed page never changes, in any run. Checkpointing it again at any later time writes nothing, and
   * answers unchanged only for the artifact and the cost it was committed with.
   */
  lemma {:induction false} CommittedIsForever(plan: Plan, s: Store, events: seq<Event>, q: nat, proof: RunProof)
    requires Chained(s) && q in s.pages && s.pages[q].state == Committed
    ensures var t := Run(plan, s, events);
            q in t.pages && t.pages[q] == s.pages[q]
            && (ActivePage(t) == q ==>
                  Checkpoint(plan, t, proof).0 == t
                  && (proof.SucceededRun? && Checkpoint(plan, t, proof).1 == Unchanged ==>
                        s.pages[q].result.Some? && s.pages[q].result.value.artifact == proof.artifact
                        && s.pages[q].result.value.cost == proof.usage))
    decreases |events|
  {
    if events == [] {
      if ActivePage(s) == q { RecheckpointWritesNothing(plan, s, proof); }
    } else {
      ChainStep(plan, s, events[0]);
      CommittedStep(plan, s, events[0], q);
      CommittedIsForever(plan, Step(plan, s, events[0]), events[1..], q, proof);
    }
  }

  // ----- Stop -----

  ghost predicate Stopped(s: Store) {
    s.generation.stopRequested
  }

  lemma StopStep(plan: Plan, s: Store, e: Event)
    requires Safe(plan, s) && Stopped(s)
    ensures var s' := Step(plan, s, e);
            Stopped(s') && s'.pages.Keys == s.pages.Keys && s'.runs == s.runs && s'.cancelledRuns == s.cancelledRuns
            && (s'.generation.state == s.generation.state
                || (s.generation.state == Stopping
                    && (s'.generation.state == Cancelled || s'.generation.state == Ambiguous)))
            && (forall q :: q in s.pages && s.pages[q].state == RunCreated ==> s'.pages[q] == s.pages[q])
  {
    var n := ActivePage(s);
    if n in s.pages { assert PageInPlace(s, n); }
    match e
    case AuthorizeNext(open, runAccepted) => AuthorizeAdds(plan, s, open, runAccepted);
    case Start(sequence, amount, provider, open) => StartTakes(plan, s, sequence, amount, provider, open);
    case CheckpointActive(proof) => CheckpointTouches(plan, s, proof);
    case _ =>
  }

  /**
   * After a stop no page and no run is created, a queued page never starts, and the generation
   * can only end cancelled or ambiguous.
   */
  lemma {:induction false} StopIsFinal(plan: Plan, s: Store, events: seq<Event>)
    requires Safe(plan, s) && Stopped(s)
    ensures var s' := Run(plan, s, events);
            Stopped(s') && s'.pages.Keys == s.pages.Keys && s'.runs == s.runs && s'.cancelledRuns == s.cancelledRuns
            && (s'.generation.state == s.generation.state
                || (s.generation.state == Stopping
                    && (s'.generation.state == Cancelled || s'.generation.state == Ambiguous)))
            && (forall q :: q in s.pages && s.pages[q].state == RunCreated ==> s'.pages[q] == s.pages[q])
    decreases |events|
  {
    if events != [] {
      StepKeepsSafe(plan, s, events[0]);
      StopStep(plan, s, events[0]);
      StopIsFinal(plan, Step(plan, s, events[0]), events[1..]);
    }
  }

  /** A recorded stop ends the generation at once exactly when no effect is in flight; repeating it changes nothing. */
  lemma CancelStops(plan: Plan, s: Store, runCancels: bool, again: bool)
    requires Safe(plan, s) && Cancel(plan, s, runCancels).1 == StopRecorded
    ensures var s' := Cancel(plan, s, runCancels).0;
            Stopped(s') && (s'.generation.state == Cancelled <==> NoEffectInFlight(s.generation))
            && (s'.generation.state == Stopping <==> !NoEffectInFlight(s.generation))
            && Cancel(plan, s', again) == (s', AlreadyStopped)
  {
  }

  /**
   * A recorded stop ends the generation at once exactly when no effect is in flight. From then on no page or run
   * is created, only cancelled or ambiguous can follow, and repeating the stop at any time changes nothing.
   */
  lemma CancelIsFinal(plan: Plan, s: Store, runCancels: bool, later: seq<Event>, again: bool)
    requires Safe(plan, s) && Cancel(plan, s, runCancels).1 == StopRecorded
    ensures var s' := Cancel(plan, s, runCancels).0;
            var t := Run(plan, s', later);
            s'.generation.state == (if NoEffectInFlight(s.generation) then Cancelled else Stopping)
            && t.pages.Keys == s.pages.Keys && t.runs == s.runs && Cancel(plan, t, again) == (t, AlreadyStopped)
            && (t.generation.state == s'.generation.state
                || (s'.generation.state == Stopping
                    && (t.generation.state == Cancelled || t.generation.state == Ambiguous)))
  {
    CancelStops(plan, s, runCancels, again);
    StepKeepsSafe(plan, s, RequestCancel(runCancels));
    StopIsFinal(plan, Cancel(plan, s, runCancels).0, later);
  }

  /**
   * The cancel looks for an unstarted page only at the number of started pages: it cancels the run of
   * page 1 when nothing has started, and never the run of a page queued later.
   */
  lemma OnlyFirstRunIsCancelled(plan: Plan, s: Store, runCancels: bool)
    requires Safe(plan, s)
    ensures var s' := Cancel(plan, s, runCancels).0;
            s'.cancelledRuns != s.cancelledRuns <==>
              Cancel(plan, s, runCancels).1 == StopRecorded && ActivePage(s) == 0 && 1 in s.pages
  {
    var n := ActivePage(s);
    if n in s.pages { assert PageInPlace(s, n); }
    if n == 0 && 1 in s.pages { assert PageInPlace(s, 1); }
  }
}
