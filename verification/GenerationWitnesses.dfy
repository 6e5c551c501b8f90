/** Runs from nothing that end as one would not expect: stranded records, a repeated identity, a late doubt, a stop. */
module GenerationWitnesses {
  import opened Outcomes
  import opened Amounts
  import opened Generation
  import opened GenerationPaging
  import opened GenerationSafety
  import opened GenerationTheorems
  import opened GenerationEndings
  import opened GenerationLanding

  /** A plan with room for a second page. */
  predicate Roomy(plan: Plan) {
    plan.maxPages >= 2 && plan.maxCalls >= 2 && plan.maxResults >= 2 && plan.maxAccepted >= 2
    && plan.hardCap >= 10.0 && plan.budgetLimit >= 10.0 && plan.availableBudget >= 10.0
    && plan.availableAuthority >= 10.0
  }

  const OneItem := Item("content", "record")

  /** One item, and more to come after this cursor. */
  function PageWithCursor(cursor: string): Artifact {
    Artifact([OneItem], true, Some(cursor), false)
  }

  /** The first page, authorized. */
  function Queued(plan: Plan): Store {
    Store(Fresh, map[1 := Page(1, None, plan.hardCap, RunCreated, 0.0, "", None)], [1], [], [], [])
  }

  /** The first page, started. */
  function Started(plan: Plan, provider: string): Store {
    Store(Aggregate(Running, 1.0, 0.0, Counters(0, 1, 0, 1, 0), None, None, false),
          map[1 := Page(1, None, plan.hardCap, Executing, 1.0, provider, None)], [1], [], [], [])
  }

  lemma FirstPageQueues(plan: Plan)
    requires Roomy(plan)
    ensures Step(plan, Empty, AuthorizeNext(true, true)) == Queued(plan)
  {
  }

  lemma FirstPageStarts(plan: Plan, provider: string)
    requires Roomy(plan) && BoundedText(provider, 255)
    ensures Step(plan, Queued(plan), Start(1, 1.0, provider, true)) == Started(plan, provider)
  {
    assert AuthorizeEffect(plan, Fresh, 1, 1.0, true) == Some(Started(plan, provider).generation);
  }

  lemma OneItemIsFresh()
    ensures StoredHashes([]) == {} && FreshItems([OneItem], {}, 0) == [Candidate(1, OneItem)]
  {
    assert FreshItems([OneItem], {} + {"content"}, 1) == [];
  }

  const OneRecord := [Record(1, 1, 1, "content", "record")]

  /** What the counters become if the page commits. */
  lemma ProgressOfOnePage(plan: Plan, provider: string, items: nat, cost: real)
    requires Roomy(plan) && BoundedText(provider, 255) && items <= 1 && 0.0 <= cost <= 2.0 && AtMost(cost, 1.0)
    ensures CheckpointProgress(plan, Started(plan, provider).generation, Progress(1, items, 0, cost, provider))
         == Some(Aggregate(Running, 0.0, cost, Counters(items, 1, 0, 1, items), Some(1), Some(provider), false))
  {
    var g := Started(plan, provider).generation;
    assert ValidSnapshot(plan, g) && g.lockedProvider.None?;
    var next := Aggregate(Running, 0.0, cost, Counters(items, 1, 0, 1, items), Some(1), Some(provider), false);
    assert ValidSnapshot(plan, next);
    assert next == g.(reserved := 0.0, spent := g.spent + cost, counters := next.counters, lastPage := Some(1),
                      lockedProvider := Some(provider));
  }

  /** What a checkpoint of the started page comes to, once its proof is admitted. */
  lemma StartedCheckpoint(plan: Plan, provider: string, proof: RunProof)
    requires Roomy(plan) && BoundedText(provider, 255) && proof.SucceededRun? && ArtifactParses(proof.artifact)
    requires ProofIsExact(Started(plan, provider).pages[1], proof)
    ensures Checkpoint(plan, Started(plan, provider), proof)
         == PersistCheckpoint(plan, Started(plan, provider), Started(plan, provider).pages[1], proof)
  {
    assert ValidSnapshot(plan, Started(plan, provider).generation);
  }

  lemma OverlongIsRefused(plan: Plan, provider: string, cursor: string)
    requires Roomy(plan) && BoundedText(provider, 255) && !Blank(cursor) && |cursor| > 255
    ensures Checkpoint(plan, Started(plan, provider), SucceededRun(PageWithCursor(cursor), 1.0, provider, true))
         == (Started(plan, provider).(records := OneRecord, lineage := NewLineage(OneRecord)), Refused)
  {
    var proof := SucceededRun(PageWithCursor(cursor), 1.0, provider, true);
    StartedCheckpoint(plan, provider, proof);
    OneItemIsFresh();
    ProgressOfOnePage(plan, provider, 1, 1.0);
    assert NewRecords([Candidate(1, OneItem)], 1, 0) == OneRecord;
    assert [] + OneRecord == OneRecord;
    assert [] + NewLineage(OneRecord) == NewLineage(OneRecord);
  }

  /** A run through known stores. */
  lemma RunThrough(plan: Plan, s: Store, a: Event, b: Event, c: Event, s1: Store, s2: Store, s3: Store)
    requires Step(plan, s, a) == s1 && Step(plan, s1, b) == s2 && Step(plan, s2, c) == s3
    ensures Run(plan, s, [a, b, c]) == s3
  {
    assert [a, b, c][1..] == [b, c] && [b, c][1..] == [c] && [c][1..] == [];
    assert Run(plan, s, [a, b, c]) == Run(plan, s1, [b, c]) == Run(plan, s2, [c]) == Run(plan, s3, []);
  }

  /** A cursor of more than 255 code points: the record is stored, not counted, and the generation never ends. */
  lemma OverlongCursorStrandsRecords(plan: Plan, provider: string, cursor: string, later: seq<Event>)
    requires Roomy(plan) && BoundedText(provider, 255) && !Blank(cursor) && |cursor| > 255
    requires forall e <- later :: OnlyOverlong(e)
    ensures var s := Run(plan, Empty, [AuthorizeNext(true, true), Start(1, 1.0, provider, true),
                                           CheckpointActive(SucceededRun(PageWithCursor(cursor), 1.0, provider, true))]);
            s.records == OneRecord && s.generation.counters.accepted == 0
            && (Run(plan, s, later).generation.state == Running
                || Run(plan, s, later).generation.state == Stopping)
  {
    var a, b := AuthorizeNext(true, true), Start(1, 1.0, provider, true);
    var c := CheckpointActive(SucceededRun(PageWithCursor(cursor), 1.0, provider, true));
    FirstPageQueues(plan);
    FirstPageStarts(plan, provider);
    OverlongIsRefused(plan, provider, cursor);
    var s := Started(plan, provider).(records := OneRecord, lineage := NewLineage(OneRecord));
    RunThrough(plan, Empty, a, b, c, Queued(plan), Started(plan, provider), s);
    EmptyIsSafe(plan);
    RunKeepsSafe(plan, Empty, [a, b, c]);
    RunConcludes(plan, Empty, [a, b, c]);
    OverlongCursorNeverEnds(plan, Run(plan, Empty, [a, b, c]), later);
  }

  /** The first page, committed with more to come. */
  function FirstCommitted(plan: Plan, provider: string, cursor: string): Store {
    Store(Aggregate(Running, 0.0, 1.0, Counters(1, 1, 0, 1, 1), Some(1), Some(provider), false),
          map[1 := Page(1, None, plan.hardCap, Committed, 1.0, provider, Some(PageResult(1, 0, 1.0, PageWithCursor(cursor))))],
          [1], [], OneRecord, NewLineage(OneRecord))
  }

  lemma FirstPageCommits(plan: Plan, provider: string, cursor: string)
    requires Roomy(plan) && BoundedText(provider, 255) && BoundedText(cursor, 255)
    ensures Checkpoint(plan, Started(plan, provider), SucceededRun(PageWithCursor(cursor), 1.0, provider, true))
         == (FirstCommitted(plan, provider, cursor), Committing)
  {
    StartedCheckpoint(plan, provider, SucceededRun(PageWithCursor(cursor), 1.0, provider, true));
    OneItemIsFresh();
    ProgressOfOnePage(plan, provider, 1, 1.0);
    assert NewRecords([Candidate(1, OneItem)], 1, 0) == OneRecord;
    assert [] + OneRecord == OneRecord;
    assert [] + NewLineage(OneRecord) == NewLineage(OneRecord);
    var g := FirstCommitted(plan, provider, cursor).generation;
    assert LimitsLeave(plan, g.counters) && !CapsReached(plan, g);
    assert Committable(Started(plan, provider).pages[1], PageResult(1, 0, 1.0, PageWithCursor(cursor)));
    assert Started(plan, provider).pages[1 := FirstCommitted(plan, provider, cursor).pages[1]] == FirstCommitted(plan, provider, cursor).pages;
  }

  /** The second page, queued behind the first. */
  function SecondQueued(plan: Plan, provider: string, cursor: string): Store {
    var s := FirstCommitted(plan, provider, cursor);
    s.(runs := [1, 2], pages := s.pages[2 := Page(2, Some(cursor), plan.hardCap - 1.0, RunCreated, 0.0, "", None)])
  }

  lemma SecondPageQueues(plan: Plan, provider: string, cursor: string)
    requires Roomy(plan) && BoundedText(provider, 255) && BoundedText(cursor, 255)
    ensures Step(plan, FirstCommitted(plan, provider, cursor), AuthorizeNext(true, true)) == SecondQueued(plan, provider, cursor)
  {
    assert [1] + [2] == [1, 2];
  }

  lemma StopIsImmediate(plan: Plan, provider: string, cursor: string)
    requires Roomy(plan) && BoundedText(provider, 255)
    ensures var s := SecondQueued(plan, provider, cursor);
            Step(plan, s, RequestCancel(true))
            == s.(generation := s.generation.(state := Cancelled, stopRequested := true))
  {
  }

  lemma FirstPageRuns(plan: Plan, provider: string, cursor: string)
    requires Roomy(plan) && BoundedText(provider, 255) && BoundedText(cursor, 255)
    ensures Run(plan, Empty, [AuthorizeNext(true, true), Start(1, 1.0, provider, true),
                                  CheckpointActive(SucceededRun(PageWithCursor(cursor), 1.0, provider, true))])
         == FirstCommitted(plan, provider, cursor)
  {
    FirstPageQueues(plan);
    FirstPageStarts(plan, provider);
    FirstPageCommits(plan, provider, cursor);
    var a, b := AuthorizeNext(true, true), Start(1, 1.0, provider, true);
    var c := CheckpointActive(SucceededRun(PageWithCursor(cursor), 1.0, provider, true));
    RunThrough(plan, Empty, a, b, c, Queued(plan), Started(plan, provider), FirstCommitted(plan, provider, cursor));
  }

  /** The second page queued and the generation stopped. */
  function StoppedWithQueue(plan: Plan, provider: string, cursor: string): Store {
    var s := SecondQueued(plan, provider, cursor);
    s.(generation := s.generation.(state := Cancelled, stopRequested := true))
  }

  lemma QueueThenStop(plan: Plan, provider: string, cursor: string)
    requires Roomy(plan) && BoundedText(provider, 255) && BoundedText(cursor, 255)
    ensures Run(plan, FirstCommitted(plan, provider, cursor), [AuthorizeNext(true, true), RequestCancel(true)])
         == StoppedWithQueue(plan, provider, cursor)
  {
    var a, c := AuthorizeNext(true, true), RequestCancel(true);
    SecondPageQueues(plan, provider, cursor);
    StopIsImmediate(plan, provider, cursor);
    assert [a, c][1..] == [c] && [c][1..] == [];
    var s := FirstCommitted(plan, provider, cursor);
    assert Run(plan, s, [a, c]) == Run(plan, Step(plan, s, a), [c]);
    assert Run(plan, SecondQueued(plan, provider, cursor), [c])
        == Run(plan, Step(plan, SecondQueued(plan, provider, cursor), c), []);
  }

  /** Page 2 is queued when the stop comes: the generation is cancelled, and the run of page 2 is left as it is. */
  lemma StopLeavesQueuedRun(plan: Plan, provider: string, cursor: string, later: seq<Event>)
    requires Roomy(plan) && BoundedText(provider, 255) && BoundedText(cursor, 255)
    ensures var commit := CheckpointActive(SucceededRun(PageWithCursor(cursor), 1.0, provider, true));
            var s := Run(plan, Empty, [AuthorizeNext(true, true), Start(1, 1.0, provider, true), commit]);
            var stopped := Run(plan, s, [AuthorizeNext(true, true), RequestCancel(true)]);
            var t := Run(plan, stopped, later);
            stopped.generation.state == Cancelled && t.runs == [1, 2] && t.cancelledRuns == []
            && 2 in t.pages && t.pages[2].state == RunCreated
  {
    FirstPageRuns(plan, provider, cursor);
    QueueThenStop(plan, provider, cursor);
    EmptyIsSafe(plan);
    RunKeepsSafe(plan, Empty, [AuthorizeNext(true, true), Start(1, 1.0, provider, true),
                                   CheckpointActive(SucceededRun(PageWithCursor(cursor), 1.0, provider, true))]);
    RunKeepsSafe(plan, FirstCommitted(plan, provider, cursor), [AuthorizeNext(true, true), RequestCancel(true)]);
    StopIsFinal(plan, StoppedWithQueue(plan, provider, cursor), later);
  }

  // ----- The second page at work -----

  function SecondStarted(plan: Plan, provider: string, cursor: string): Store {
    var s := SecondQueued(plan, provider, cursor);
    s.(generation := Aggregate(Running, 1.0, 1.0, Counters(1, 2, 0, 2, 1), Some(1), Some(provider), false),
       pages := s.pages[2 := Page(2, Some(cursor), plan.hardCap - 1.0, Executing, 1.0, provider, None)])
  }

  lemma SecondPageStarts(plan: Plan, provider: string, cursor: string)
    requires Roomy(plan) && BoundedText(provider, 255) && BoundedText(cursor, 255)
    ensures Step(plan, SecondQueued(plan, provider, cursor), Start(2, 1.0, provider, true))
         == SecondStarted(plan, provider, cursor)
  {
    var s := SecondQueued(plan, provider, cursor);
    assert AuthorizeEffect(plan, s.generation, 2, 1.0, true) == Some(SecondStarted(plan, provider, cursor).generation);
  }

  /** The events that bring a generation to its second page. */
  function ToSecondPage(provider: string, cursor: string): seq<Event> {
    [AuthorizeNext(true, true), Start(1, 1.0, provider, true),
     CheckpointActive(SucceededRun(PageWithCursor(cursor), 1.0, provider, true))]
  }

  lemma SecondPageRuns(plan: Plan, provider: string, cursor: string)
    requires Roomy(plan) && BoundedText(provider, 255) && BoundedText(cursor, 255)
    ensures var s := Run(plan, Run(plan, Empty, ToSecondPage(provider, cursor)),
                         [AuthorizeNext(true, true), Start(2, 1.0, provider, true)]);
            s == SecondStarted(plan, provider, cursor) && Sound(plan, s) && PageExecutes(s)
  {
    var a, b := AuthorizeNext(true, true), Start(2, 1.0, provider, true);
    FirstPageRuns(plan, provider, cursor);
    SecondPageQueues(plan, provider, cursor);
    SecondPageStarts(plan, provider, cursor);
    var s := FirstCommitted(plan, provider, cursor);
    assert [a, b][1..] == [b] && [b][1..] == [];
    assert Run(plan, s, [a, b]) == Run(plan, SecondQueued(plan, provider, cursor), [b])
        == Run(plan, SecondStarted(plan, provider, cursor), []);
    EmptyIsSound(plan);
    RunKeepsSound(plan, Empty, ToSecondPage(provider, cursor));
    RunKeepsSound(plan, s, [a, b]);
  }

  /** The record of the first page listed again on the second with other content: the generation never ends. */
  lemma RelistedRecordNeverEnds(plan: Plan, provider: string, cursor: string, proof: RunProof, later: seq<Event>)
    requires Roomy(plan) && BoundedText(provider, 255) && BoundedText(cursor, 255)
    requires proof.SucceededRun? && proof.artifact.items == [Item("other content", "record")]
    requires forall e <- later :: OnlyOutcome(e, proof, 2)
    ensures var s := Run(plan, Run(plan, Empty, ToSecondPage(provider, cursor)),
                         [AuthorizeNext(true, true), Start(2, 1.0, provider, true)]);
            var t := Run(plan, s, later);
            t.pages == s.pages && 2 in t.pages && t.pages[2].state == Executing
            && (t.generation.state == Running || t.generation.state == Stopping)
  {
    SecondPageRuns(plan, provider, cursor);
    var s := SecondStarted(plan, provider, cursor);
    assert s.records == OneRecord && OneRecord[0] in s.records;
    assert "other content"[0] != "content"[0];
    forall r | r in s.records ensures r == OneRecord[0] {}
    RepeatedIdentityNeverEnds(plan, s, later, proof, 0, OneRecord[0]);
  }

  /** The second page loses its outcome: it cannot be marked ambiguous, and the generation never ends. */
  lemma LateDoubtNeverEnds(plan: Plan, provider: string, cursor: string, later: seq<Event>)
    requires Roomy(plan) && BoundedText(provider, 255) && BoundedText(cursor, 255)
    requires forall e <- later :: OnlyOutcome(e, AmbiguousRun, 2)
    ensures var s := Run(plan, Run(plan, Empty, ToSecondPage(provider, cursor)),
                         [AuthorizeNext(true, true), Start(2, 1.0, provider, true)]);
            var t := Run(plan, s, later);
            MarkPageAmbiguous(plan, s, 2) == s && t.pages == s.pages && 2 in t.pages && t.pages[2].state == Executing
            && (t.generation.state == Running || t.generation.state == Stopping)
  {
    SecondPageRuns(plan, provider, cursor);
    var s := SecondStarted(plan, provider, cursor);
    DoubtLandsIff(plan, s);
    NeverEndsUnlessLands(plan, s, later, AmbiguousRun);
  }
}
