/** A generation's counters and spend are the sums over its committed pages. */
module GenerationTotals {
  import opened Outcomes
  import opened Amounts
  import opened Generation
  import opened GenerationPaging
  import opened GenerationSafety
  import opened GenerationTheorems

  function ResultOf(pages: map<nat, Page>, q: nat): Option<PageResult> {
    if q in pages && pages[q].state == Committed then pages[q].result else None
  }

  function CostUpTo(pages: map<nat, Page>, n: nat): real {
    if n == 0 then 0.0
    else CostUpTo(pages, n - 1) + match ResultOf(pages, n) case None => 0.0 case Some(r) => r.cost
  }

  function AcceptedUpTo(pages: map<nat, Page>, n: nat): nat {
    if n == 0 then 0
    else AcceptedUpTo(pages, n - 1) + match ResultOf(pages, n) case None => 0 case Some(r) => r.accepted
  }

  function ReturnedUpTo(pages: map<nat, Page>, n: nat): nat {
    if n == 0 then 0
    else ReturnedUpTo(pages, n - 1) + match ResultOf(pages, n) case None => 0 case Some(r) => |r.artifact.items|
  }

  ghost predicate Totalled(s: Store) {
    var n, g := ActivePage(s), s.generation;
    g.spent == CostUpTo(s.pages, n) && g.counters.accepted == AcceptedUpTo(s.pages, n)
    && g.counters.returned == ReturnedUpTo(s.pages, n)
  }

  lemma {:induction false} OtherPagesKeepSums(pages: map<nat, Page>, k: nat, page: Page, n: nat)
    requires n < k
    ensures CostUpTo(pages[k := page], n) == CostUpTo(pages, n)
    ensures AcceptedUpTo(pages[k := page], n) == AcceptedUpTo(pages, n)
    ensures ReturnedUpTo(pages[k := page], n) == ReturnedUpTo(pages, n)
  {
    if n > 0 {
      OtherPagesKeepSums(pages, k, page, n - 1);
    }
  }

  /** What a commit adds to the aggregate is what it records on the page. */
  lemma CommitAdds(plan: Plan, s: Store, page: Page, proof: RunProof)
    requires proof.SucceededRun? && page.sequence == ActivePage(s)
    ensures var (s', status) := PersistCheckpoint(plan, s, page, proof);
            var n := page.sequence;
            (status == Committing || status == IsCancelled ==>
               n in s'.pages && s'.pages == s.pages[n := s'.pages[n]] && s'.pages[n].state == Committed
               && s'.pages[n].result.Some? && s'.pages[n].result.value.artifact == proof.artifact
               && s'.generation.spent == s.generation.spent + s'.pages[n].result.value.cost
               && s'.pages[n].result.value.cost == proof.usage
               && s'.generation.counters.accepted == s.generation.counters.accepted + s'.pages[n].result.value.accepted
               && s'.generation.counters.returned == s.generation.counters.returned + |proof.artifact.items|
               && s'.generation.counters.pages == n)
            && (status != Committing && status != IsCancelled ==> s'.generation == s.generation && s'.pages == s.pages)
  {
  }

  /** A checkpoint that does not commit adds nothing to the counters, and commits no page. */
  lemma OtherwiseNothing(plan: Plan, s: Store, proof: RunProof)
    requires ActivePage(s) in s.pages ==> PageInPlace(s, ActivePage(s))
    requires Checkpoint(plan, s, proof).1 != Committing
             && !(Checkpoint(plan, s, proof).1 == IsCancelled && proof.SucceededRun?)
    ensures var s', n := Checkpoint(plan, s, proof).0, ActivePage(s);
            s'.generation.counters == s.generation.counters && s'.generation.spent == s.generation.spent
            && (s'.pages == s.pages
                || (n in s.pages && s.pages[n].state == Executing && n in s'.pages && s'.pages[n].state != Committed
                    && s'.pages == s.pages[n := s'.pages[n]]))
  {
  }

  lemma SumsAfterUpdate(s: Store, s': Store)
    requires Totalled(s) && ActivePage(s) > 0 && ActivePage(s) in s.pages && ActivePage(s') == ActivePage(s)
    requires s.pages[ActivePage(s)].state == Executing
    requires ActivePage(s) in s'.pages && s'.pages == s.pages[ActivePage(s) := s'.pages[ActivePage(s)]]
    requires var r := ResultOf(s'.pages, ActivePage(s));
             s'.generation.spent == s.generation.spent + (match r case None => 0.0 case Some(x) => x.cost)
             && s'.generation.counters.accepted
                == s.generation.counters.accepted + (match r case None => 0 case Some(x) => x.accepted)
             && s'.generation.counters.returned
                == s.generation.counters.returned + (match r case None => 0 case Some(x) => |x.artifact.items|)
    ensures Totalled(s')
  {
    var n := ActivePage(s);
    OtherPagesKeepSums(s.pages, n, s'.pages[n], n - 1);
  }

  lemma CheckpointTotals(plan: Plan, s: Store, proof: RunProof)
    requires Chained(s) && Totalled(s)
    ensures Totalled(Checkpoint(plan, s, proof).0)
  {
    var n := ActivePage(s);
    var (s', status) := Checkpoint(plan, s, proof);
    if n in s.pages {
      assert PageInPlace(s, n) && n > 0;
    }
    if status == Committing || (status == IsCancelled && proof.SucceededRun?) {
      assert s.pages[n].state == Executing;
      CommitAdds(plan, s, s.pages[n], proof);
      SumsAfterUpdate(s, s');
    } else {
      OtherwiseNothing(plan, s, proof);
      if s'.pages != s.pages {
        SumsAfterUpdate(s, s');
      }
    }
  }

  lemma AuthorizeTotals(plan: Plan, s: Store, open: bool, runAccepted: bool)
    requires Chained(s) && Totalled(s)
    ensures Totalled(Authorize(plan, s, open, runAccepted).0)
  {
    var n := ActivePage(s);
    if n in s.pages { assert PageInPlace(s, n); }
    AuthorizeAdds(plan, s, open, runAccepted);
    var s' := Authorize(plan, s, open, runAccepted).0;
    if s' != s {
      OtherPagesKeepSums(s.pages, n + 1, s'.pages[n + 1], n);
    }
  }

  lemma StartTotals(plan: Plan, s: Store, sequence: nat, amount: real, provider: string, open: bool)
    requires Totalled(s)
    ensures Totalled(StartEffect(plan, s, sequence, amount, provider, open))
  {
    var s' := StartEffect(plan, s, sequence, amount, provider, open);
    StartTakes(plan, s, sequence, amount, provider, open);
    if s' != s {
      OtherPagesKeepSums(s.pages, sequence, s'.pages[sequence], sequence - 1);
      assert ResultOf(s'.pages, sequence).None?;
    }
  }

  lemma LoseTotals(plan: Plan, s: Store, sequence: nat)
    requires Chained(s) && Totalled(s)
    ensures Totalled(MarkPageAmbiguous(plan, s, sequence))
  {
    var s' := MarkPageAmbiguous(plan, s, sequence);
    if s' != s {
      assert PageInPlace(s, sequence);
      SumsAfterUpdate(s, s');
    }
  }

  lemma TotalsStep(plan: Plan, s: Store, e: Event)
    requires Chained(s) && Totalled(s)
    ensures Totalled(Step(plan, s, e))
  {
    match e
    case AuthorizeNext(open, runAccepted) => AuthorizeTotals(plan, s, open, runAccepted);
    case Start(sequence, amount, provider, open) => StartTotals(plan, s, sequence, amount, provider, open);
    case LoseOutcome(sequence) => LoseTotals(plan, s, sequence);
    case CheckpointActive(proof) => CheckpointTotals(plan, s, proof);
    case RequestCancel(runCancels) =>
  }

  /**
   * In every run the spend is the sum of the committed pages' usage, and accepted and returned are
   * the sums of what those pages accepted and returned.
   */
  lemma {:induction false} CountersAreSums(plan: Plan, s: Store, events: seq<Event>)
    requires Chained(s) && Totalled(s)
    ensures Totalled(Run(plan, s, events))
    decreases |events|
  {
    if events != [] {
      ChainStep(plan, s, events[0]);
      TotalsStep(plan, s, events[0]);
      CountersAreSums(plan, Step(plan, s, events[0]), events[1..]);
    }
  }

  /** Which item of a page a record came from. */
  predicate RecordsItem(r: Record, item: Item, position: nat) {
    r.position == position && r.contentHash == item.contentHash && r.recordId == item.recordId
  }

  lemma KeptIffRecorded(kept: seq<Candidate>, items: seq<Item>, seen: set<string>, added: seq<Record>, k: nat)
    requires AllNew(kept, items, seen, 0) && k < |items| && |added| == |kept|
    requires forall i :: 0 <= i < |kept| ==> RecordsItem(added[i], kept[i].item, kept[i].position)
    ensures Candidate(k + 1, items[k]) in kept
       <==> exists i :: 0 <= i < |added| && RecordsItem(added[i], items[k], k + 1)
  {
  }

  /** The records of a committing checkpoint are the first occurrences of the page, numbered on from the last. */
  lemma CommitStoresFirstOccurrences(plan: Plan, s: Store, proof: RunProof, k: nat)
    requires CountsRecords(s) && proof.SucceededRun? && k < |proof.artifact.items|
    requires Checkpoint(plan, s, proof).1 == Committing
    ensures var s' := Checkpoint(plan, s, proof).0;
            var item := proof.artifact.items[k];
            s.records <= s'.records && |s'.records| == s'.generation.counters.accepted
            && ((exists i :: 0 <= i < |s'.records[|s.records|..]| && RecordsItem(s'.records[|s.records|..][i], item, k + 1))
                <==> item.contentHash !in StoredHashes(s.records)
                     && forall j :: 0 <= j < k ==> proof.artifact.items[j].contentHash != item.contentHash)
  {
    var items, seen := proof.artifact.items, StoredHashes(s.records);
    var kept := FreshItems(items, seen, 0);
    CommitAppends(plan, s, proof);
    var added := NewRecords(kept, s.pages[ActivePage(s)].sequence, |s.records|);
    assert Checkpoint(plan, s, proof).0.records[|s.records|..] == added;
    FreshExactly(items, seen, 0, k);
    FreshAreNew(items, seen, 0);
    KeptIffRecorded(kept, items, seen, added, k);
  }

  lemma CommitAppends(plan: Plan, s: Store, proof: RunProof)
    requires CountsRecords(s) && proof.SucceededRun? && Checkpoint(plan, s, proof).1 == Committing
    ensures var s' := Checkpoint(plan, s, proof).0;
            var kept := FreshItems(proof.artifact.items, StoredHashes(s.records), 0);
            s'.records == s.records + NewRecords(kept, s.pages[ActivePage(s)].sequence, |s.records|)
            && |s'.records| == s'.generation.counters.accepted
  {
  }
}
