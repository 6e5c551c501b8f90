/** How a generation ends once its last page rests, and why after an over-long cursor it never does. */
module GenerationEndings {
  import opened Outcomes
  import opened Amounts
  import opened Generation
  import opened GenerationPaging
  import opened GenerationSafety
  import opened GenerationTheorems

  // ----- Within its pages -----

  /** The generation runs on only while its page executes, or after a commit that promised more and left room. */
  ghost predicate Concluding(plan: Plan, s: Store) {
    var n, g := ActivePage(s), s.generation;
    if n !in s.pages then n == 0 && (g.state == Planned || g.state == Cancelled)
    else
      match s.pages[n].state
      case RunCreated => false
      case Executing => g.state == Running || g.state == Stopping
      case PageFailed => g.state == Failed || g.state == Cancelled
      case PageAmbiguous => g.state == Ambiguous
      case Committed =>
        HasTerminated(g.state)
        || (g.state == Running && LimitsLeave(plan, g.counters) && g.spent < plan.hardCap
            && s.pages[n].result.Some? && s.pages[n].result.value.artifact.hasMore)
  }

  lemma CheckpointConcludes(plan: Plan, s: Store, proof: RunProof)
    requires Safe(plan, s) && Concluding(plan, s)
    ensures Concluding(plan, Checkpoint(plan, s, proof).0)
  {
    var n := ActivePage(s);
    if n in s.pages { assert PageInPlace(s, n); }
    CheckpointTouches(plan, s, proof);
  }

  lemma ConcludingStep(plan: Plan, s: Store, e: Event)
    requires Safe(plan, s) && Concluding(plan, s)
    ensures Concluding(plan, Step(plan, s, e))
  {
    var n := ActivePage(s);
    if n in s.pages { assert PageInPlace(s, n); }
    match e
    case AuthorizeNext(open, runAccepted) => AuthorizeAdds(plan, s, open, runAccepted);
    case Start(sequence, amount, provider, open) => StartTakes(plan, s, sequence, amount, provider, open);
    case CheckpointActive(proof) => CheckpointConcludes(plan, s, proof);
    case LoseOutcome(sequence) =>
      if sequence in s.pages { assert PageInPlace(s, sequence); }
    case RequestCancel(runCancels) => CancelConcludes(plan, s, runCancels);
  }

  lemma CancelConcludes(plan: Plan, s: Store, runCancels: bool)
    requires Safe(plan, s) && Concluding(plan, s)
    ensures Concluding(plan, Cancel(plan, s, runCancels).0)
  {
    var n := ActivePage(s);
    if n in s.pages {
      assert PageInPlace(s, n);
      assert s.pages[n].state == Executing ==> !NoEffectInFlight(s.generation);
      assert s.pages[n].state == Committed ==> NoEffectInFlight(s.generation);
    }
  }

  lemma {:induction false} RunConcludes(plan: Plan, s: Store, events: seq<Event>)
    requires Safe(plan, s) && Concluding(plan, s)
    ensures Concluding(plan, Run(plan, s, events))
    decreases |events|
  {
    if events != [] {
      ConcludingStep(plan, s, events[0]);
      StepKeepsSafe(plan, s, events[0]);
      RunConcludes(plan, Step(plan, s, events[0]), events[1..]);
    }
  }

  /**
   * In every run at most `maxPages` pages start, and once the last of them is no longer executing the
   * generation has ended; before that, a page that concluded without an end left room for the next.
   */
  lemma LastPageAtRestEnds(plan: Plan, events: seq<Event>)
    requires IsAmount(plan.budgetLimit)
    ensures var s := Run(plan, Empty, events);
            var n := ActivePage(s);
            n <= plan.maxPages
            && (n >= 1 ==>
                  n in s.pages
                  && (s.pages[n].state != Executing ==>
                        HasTerminated(s.generation.state)
                        || (s.generation.state == Running && n < plan.maxPages && s.generation.spent < plan.hardCap)))
  {
    EmptyIsSafe(plan);
    RunKeepsSafe(plan, Empty, events);
    RunConcludes(plan, Empty, events);
  }

  // ----- Never -----

  /** The page run has succeeded with a page whose next cursor cannot be committed. */
  predicate OnlyOverlong(e: Event) {
    !e.LoseOutcome?
    && (e.CheckpointActive? ==> e.proof.PendingRun? || (e.proof.SucceededRun? && !CursorFits(e.proof.artifact)))
  }

  lemma OverlongStep(plan: Plan, s: Store, e: Event)
    requires Safe(plan, s) && Concluding(plan, s) && OnlyOverlong(e)
    requires ActivePage(s) in s.pages && s.pages[ActivePage(s)].state == Executing
    ensures var s' := Step(plan, s, e);
            ActivePage(s') == ActivePage(s) && ActivePage(s) in s'.pages
            && s'.pages[ActivePage(s)] == s.pages[ActivePage(s)]
  {
    var n := ActivePage(s);
    assert PageInPlace(s, n);
    match e
    case AuthorizeNext(open, runAccepted) => AuthorizeAdds(plan, s, open, runAccepted);
    case Start(sequence, amount, provider, open) =>
      StartTakes(plan, s, sequence, amount, provider, open);
      if n + 1 in s.pages { QueuedMeansCommitted(s); }
    case CheckpointActive(proof) => CheckpointTouches(plan, s, proof);
    case _ =>
  }

  /**
   * A page whose artifact names an over-long cursor is refused by every later checkpoint: whatever else is
   * tried, a stop included, the page keeps executing and the generation never ends.
   */
  lemma {:induction false} OverlongCursorNeverEnds(plan: Plan, s: Store, events: seq<Event>)
    requires Safe(plan, s) && Concluding(plan, s)
    requires ActivePage(s) in s.pages && s.pages[ActivePage(s)].state == Executing
    requires forall e <- events :: OnlyOverlong(e)
    ensures var s' := Run(plan, s, events);
            ActivePage(s') == ActivePage(s) && ActivePage(s) in s'.pages
            && s'.pages[ActivePage(s)] == s.pages[ActivePage(s)]
            && (s'.generation.state == Running || s'.generation.state == Stopping)
    decreases |events|
  {
    if events != [] {
      OverlongStep(plan, s, events[0]);
      ConcludingStep(plan, s, events[0]);
      StepKeepsSafe(plan, s, events[0]);
      OverlongCursorNeverEnds(plan, Step(plan, s, events[0]), events[1..]);
    }
  }
}
