/** What every run of a generation keeps: the page chain, the money and the record account. */
module GenerationSafety {
  import opened Outcomes
  import opened Amounts
  import opened Generation
  import opened GenerationPaging

  // ----- The page chain -----

  /** Pages 1..n have started, each after the one before committed with more; at most page n + 1 is queued. */
  ghost predicate Chained(s: Store) {
    Numbered(s) && ActivePage(s) <= |s.runs| <= ActivePage(s) + 1
    && forall q {:trigger PageInPlace(s, q)} :: q in s.pages ==> PageInPlace(s, q)
  }

  /** One run and one page for each number from 1. */
  ghost predicate Numbered(s: Store) {
    (forall q :: q in s.pages <==> 1 <= q <= |s.runs|) && (forall i :: 0 <= i < |s.runs| ==> s.runs[i] == i + 1)
  }

  ghost predicate PageInPlace(s: Store, q: nat)
    requires q in s.pages
  {
    var n, p := ActivePage(s), s.pages[q];
    p.sequence == q
    && (q < n ==> p.state == Committed) && (q == n ==> p.state != RunCreated) && (q == n + 1 ==> p.state == RunCreated)
    && (p.state == Committed ==>
          p.result.Some? && Committable(p.(state := Executing), p.result.value) && CostFits(p, p.result.value.cost))
    && Follows(s.pages, q, p.inputCursor)
  }

  /** The cursor of page q is the next cursor of the committed page before it, which promised more. */
  ghost predicate Follows(pages: map<nat, Page>, q: nat, cursor: Option<string>) {
    (q <= 1 ==> cursor.None?)
    && (q >= 2 ==>
          q - 1 in pages && pages[q - 1].state == Committed && pages[q - 1].result.Some?
          && pages[q - 1].result.value.artifact.hasMore && cursor.Some?
          && pages[q - 1].result.value.artifact.nextCursor == cursor)
  }

  /** Appending a queued page whose cursor comes from the committed page before it. */
  lemma QueueKeepsChain(s: Store, s': Store, page: Page)
    requires Chained(s) && |s.runs| == ActivePage(s)
    requires var next := ActivePage(s) + 1;
             s' == s.(runs := s.runs + [next], pages := s.pages[next := page])
             && page.sequence == next && page.state == RunCreated
             && Follows(s.pages, next, page.inputCursor)
    ensures Chained(s')
  {
    var next := ActivePage(s) + 1;
    assert next !in s.pages;
    forall q | q in s'.pages ensures PageInPlace(s', q) {
      if q != next {
        assert PageInPlace(s, q);
      }
    }
  }

  /** What an authorization that is not a replay or a refusal adds: one page and one run. */
  lemma AuthorizeAdds(plan: Plan, s: Store, open: bool, runAccepted: bool)
    requires ActivePage(s) in s.pages ==> PageInPlace(s, ActivePage(s))
    ensures var (s', answer) := Authorize(plan, s, open, runAccepted);
            var next := ActivePage(s) + 1;
            if answer.Authorized? then
              next !in s.pages && next in s'.pages
              && s' == s.(runs := s.runs + [next], pages := s.pages[next := s'.pages[next]])
              && s'.pages[next] == Page(next, s'.pages[next].inputCursor, plan.hardCap - s.generation.spent,
                                        RunCreated, 0.0, "", None)
              && Follows(s.pages, next, s'.pages[next].inputCursor)
              && Denial(plan, s.generation, open).None?
              && (s.generation.state == Planned || s.generation.state == Running)
            else s' == s
  {
  }

  lemma AuthorizeKeepsChain(plan: Plan, s: Store, open: bool, runAccepted: bool)
    requires Chained(s)
    ensures Chained(Authorize(plan, s, open, runAccepted).0)
  {
    if ActivePage(s) in s.pages {
      assert PageInPlace(s, ActivePage(s));
    }
    AuthorizeAdds(plan, s, open, runAccepted);
    var (s', answer) := Authorize(plan, s, open, runAccepted);
    if answer.Authorized? {
      QueueKeepsChain(s, s', s'.pages[ActivePage(s) + 1]);
    }
  }

  /** A start that is not denied takes the queued page and charges its reservation. */
  lemma StartTakes(plan: Plan, s: Store, sequence: nat, amount: real, provider: string, open: bool)
    ensures var s' := StartEffect(plan, s, sequence, amount, provider, open);
            s' != s ==>
              sequence == ActivePage(s) + 1 && sequence in s.pages && s.pages[sequence].state == RunCreated
              && (s.generation.state == Planned || s.generation.state == Running)
              && 0.0 < amount <= s.pages[sequence].budget
              && s' == s.(generation := s.generation.(state := Running, reserved := s.generation.reserved + amount,
                            counters := s.generation.counters.(calls := s.generation.counters.calls + 1, pages := sequence)),
                          pages := s.pages[sequence := s.pages[sequence].(state := Executing, reserved := amount,
                                                                           provider := provider)])
  {
  }

  lemma StartKeepsChain(plan: Plan, s: Store, sequence: nat, amount: real, provider: string, open: bool)
    requires Chained(s)
    ensures Chained(StartEffect(plan, s, sequence, amount, provider, open))
  {
    var s' := StartEffect(plan, s, sequence, amount, provider, open);
    StartTakes(plan, s, sequence, amount, provider, open);
    if s' != s {
      assert PageInPlace(s, sequence);
      forall q | q in s'.pages ensures PageInPlace(s', q) {
        assert PageInPlace(s, q);
      }
    }
  }

  /** Replacing the active page by a later state of itself. */
  lemma ActiveUpdateKeepsChain(s: Store, s': Store, page: Page)
    requires Chained(s) && ActivePage(s) in s.pages && s.pages[ActivePage(s)].state == Executing
    requires s'.runs == s.runs && s'.generation.counters.pages == s.generation.counters.pages
    requires s'.pages == s.pages[ActivePage(s) := page]
    requires page.sequence == ActivePage(s) && page.inputCursor == s.pages[ActivePage(s)].inputCursor
    requires page.state != RunCreated
    requires page.state == Committed ==>
               page.result.Some? && Committable(page.(state := Executing), page.result.value)
               && CostFits(page, page.result.value.cost)
    ensures Chained(s')
  {
    forall q | q in s'.pages ensures PageInPlace(s', q) {
      assert PageInPlace(s, q);
    }
  }

  /** A checkpoint moves at most the active page, out of executing. */
  lemma CheckpointTouches(plan: Plan, s: Store, proof: RunProof)
    requires ActivePage(s) in s.pages ==> PageInPlace(s, ActivePage(s))
    ensures var s' := Checkpoint(plan, s, proof).0;
            var n := ActivePage(s);
            s'.runs == s.runs && s'.cancelledRuns == s.cancelledRuns
            && s'.generation.counters.pages == n
            && (s'.pages == s.pages
                || (n in s.pages && s.pages[n].state == Executing && n in s'.pages
                    && s'.pages == s.pages[n := s'.pages[n]]
                    && s'.pages[n].sequence == n && s'.pages[n].inputCursor == s.pages[n].inputCursor
                    && s'.pages[n].state != RunCreated
                    && (s'.pages[n].state == Committed ==>
                          s'.pages[n].result.Some? && Committable(s.pages[n], s'.pages[n].result.value)
                          && CostFits(s'.pages[n], s'.pages[n].result.value.cost)
                          && s'.pages[n].reserved == s.pages[n].reserved)))
  {
  }

  lemma CheckpointKeepsChain(plan: Plan, s: Store, proof: RunProof)
    requires Chained(s)
    ensures Chained(Checkpoint(plan, s, proof).0)
  {
    var s' := Checkpoint(plan, s, proof).0;
    if ActivePage(s) in s.pages {
      assert PageInPlace(s, ActivePage(s));
    }
    CheckpointTouches(plan, s, proof);
    if s'.pages != s.pages {
      ActiveUpdateKeepsChain(s, s', s'.pages[ActivePage(s)]);
    } else {
      forall q | q in s'.pages ensures PageInPlace(s', q) { assert PageInPlace(s, q); }
    }
  }

  lemma LoseKeepsChain(plan: Plan, s: Store, sequence: nat)
    requires Chained(s)
    ensures Chained(MarkPageAmbiguous(plan, s, sequence))
  {
    var s' := MarkPageAmbiguous(plan, s, sequence);
    if s' != s {
      assert PageInPlace(s, sequence);
      ActiveUpdateKeepsChain(s, s', s'.pages[sequence]);
    }
  }

  lemma CancelKeepsChain(plan: Plan, s: Store, runCancels: bool)
    requires Chained(s)
    ensures Chained(Cancel(plan, s, runCancels).0)
  {
    var s' := Cancel(plan, s, runCancels).0;
    assert s'.pages == s.pages && s'.runs == s.runs && ActivePage(s') == ActivePage(s);
    forall q | q in s'.pages ensures PageInPlace(s', q) { assert PageInPlace(s, q); }
  }

  lemma ChainStep(plan: Plan, s: Store, e: Event)
    requires Chained(s)
    ensures Chained(Step(plan, s, e))
  {
    match e
    case AuthorizeNext(open, runAccepted) => AuthorizeKeepsChain(plan, s, open, runAccepted);
    case Start(sequence, amount, provider, open) => StartKeepsChain(plan, s, sequence, amount, provider, open);
    case LoseOutcome(sequence) => LoseKeepsChain(plan, s, sequence);
    case CheckpointActive(proof) => CheckpointKeepsChain(plan, s, proof);
    case RequestCancel(runCancels) => CancelKeepsChain(plan, s, runCancels);
  }
}
