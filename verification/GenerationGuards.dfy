/** Exactly when a page of a generation is authorized, and when its effect may begin. */
module GenerationGuards {
  import opened Outcomes
  import opened Amounts
  import opened Generation
  import opened GenerationPaging
  import GenerationSafety
  import GenerationTheorems

  /** Every counter is below its limit and the money below each of the three bounds. */
  predicate HasRoom(plan: Plan, g: Aggregate) {
    g.counters.pages < plan.maxPages && g.counters.calls < plan.maxCalls && g.counters.returned < plan.maxResults
    && g.counters.accepted < plan.maxAccepted
    && g.spent < plan.hardCap && g.spent < plan.availableBudget && g.spent < plan.availableAuthority
  }

  /** Where the next page continues: at the start of a planned generation, or at the cursor the last page left. */
  predicate Continues(s: Store, cursor: Option<string>) {
    var n := s.generation.counters.pages;
    if n == 0 then s.generation.state == Planned && cursor.None?
    else
      s.generation.state == Running && n in s.pages && s.pages[n].state == Committed && s.pages[n].result.Some?
      && s.pages[n].result.value.artifact.hasMore && s.pages[n].result.value.artifact.nextCursor == cursor
      && cursor.Some? && BoundedText(cursor.value, 4096)
  }

  /** A page is authorized exactly inside the window, with room under every limit and a place to continue. */
  lemma AuthorizedIff(plan: Plan, s: Store, open: bool, runAccepted: bool)
    ensures var (s', answer) := Authorize(plan, s, open, runAccepted);
            var g, next := s.generation, s.generation.counters.pages + 1;
            (answer.Authorized? <==>
               open && runAccepted && ValidSnapshot(plan, g) && next !in s.pages && HasRoom(plan, g)
               && exists cursor :: Continues(s, cursor))
            && (answer.Authorized? ==>
                  answer == Authorized(next) && s'.runs == s.runs + [next] && s'.pages.Keys == s.pages.Keys + {next}
                  && s'.pages == s.pages[next := s'.pages[next]] && Continues(s, s'.pages[next].inputCursor)
                  && s'.pages[next] == Page(next, s'.pages[next].inputCursor, plan.hardCap - g.spent, RunCreated, 0.0, "", None))
            && (!answer.Authorized? ==> s'.pages == s.pages)
            && s' == s.(runs := s'.runs, pages := s'.pages)
  {
    var n := s.generation.counters.pages;
    if n == 0 {
      if s.generation.state == Planned { assert Continues(s, None); }
    } else if n in s.pages && s.pages[n].result.Some? {
      var cursor := s.pages[n].result.value.artifact.nextCursor;
      assert forall other :: Continues(s, other) ==> other == cursor;
      assert Authorize(plan, s, open, runAccepted).1.Authorized? ==> Continues(s, cursor);
    }
  }

  /** After a deadline, and without room, the answer names the first reason. */
  lemma RefusalNamesReason(plan: Plan, s: Store, open: bool, runAccepted: bool)
    requires ValidSnapshot(plan, s.generation) && s.generation.counters.pages + 1 !in s.pages
    requires exists cursor :: Continues(s, cursor)
    ensures var answer := Authorize(plan, s, open, runAccepted).1;
            (answer == DeadlineElapsed <==> !open)
            && (answer == RunRejected <==> open && HasRoom(plan, s.generation) && !runAccepted)
            && (answer == LimitExhausted || answer == BudgetExhausted <==> open && !HasRoom(plan, s.generation))
  {
  }

  /** The effect of a page begins exactly inside the window, next in turn, within its budget and every bound. */
  lemma StartedIff(plan: Plan, s: Store, sequence: nat, amount: real, provider: string, open: bool)
    ensures var s' := StartEffect(plan, s, sequence, amount, provider, open);
            var g := s.generation;
            var counted := g.counters.(calls := g.counters.calls + 1, pages := g.counters.pages + 1);
            var begun := g.(state := Running, reserved := g.reserved + amount, counters := counted);
            (s' != s <==>
               open && sequence in s.pages && s.pages[sequence].state == RunCreated && 0.0 < amount <= s.pages[sequence].budget
               && BoundedText(provider, 255) && ValidSnapshot(plan, g) && sequence == g.counters.pages + 1
               && (if sequence == 1 then g.state == Planned else g.state == Running)
               && g.counters.pages < plan.maxPages && g.counters.calls < plan.maxCalls
               && g.counters.returned < plan.maxResults && g.counters.accepted < plan.maxAccepted
               && AtMost(g.spent + amount, plan.hardCap) && AtMost(amount, plan.budgetLimit - g.reserved - g.spent)
               && ValidSnapshot(plan, begun))
            && (s' != s ==>
                  s' == s.(generation := begun,
                           pages := s.pages[sequence := s.pages[sequence].(state := Executing, reserved := amount,
                                                                          provider := provider)]))
  {
    var s' := StartEffect(plan, s, sequence, amount, provider, open);
    if sequence in s.pages && s'.generation != s.generation { assert s' != s; }
  }

  /** A page whose run has not succeeded: it waits, or ends with its reservation released, or keeps it in doubt. */
  lemma UnsuccessfulCheckpoint(plan: Plan, s: Store, proof: RunProof)
    requires GenerationTheorems.Safe(plan, s) && !proof.SucceededRun?
    requires ActivePage(s) in s.pages && s.pages[ActivePage(s)].state == Executing
    requires s.generation.state == Running || s.generation.state == Stopping
    ensures var (s', answer) := Checkpoint(plan, s, proof);
            var g, n, stopping := s.generation, ActivePage(s), s.generation.state == Stopping;
            match proof
            case PendingRun => (s', answer) == (s, StillPending)
            case FailedRun =>
              answer == (if stopping then IsCancelled else IsFailed)
              && s' == s.(generation := g.(state := if stopping then Cancelled else Failed, reserved := 0.0),
                          pages := s.pages[n := s.pages[n].(state := PageFailed)])
            case AmbiguousRun =>
              if answer == IsAmbiguous then
                s' == s.(generation := g.(state := GenerationState.Ambiguous),
                         pages := s.pages[n := s.pages[n].(state := PageAmbiguous)])
              else (s', answer) == (s, Refused)
  {
    assert GenerationSafety.PageInPlace(s, ActivePage(s));
  }
}
