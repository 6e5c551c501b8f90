/** A dataset generation: its counters, its money and the transitions of its aggregate. */
module Generation {
  import opened Outcomes
  import opened Amounts

  datatype GenerationState = Planned | Running | Stopping | Completed | Failed | Cancelled | Ambiguous

  datatype Counters = Counters(accepted: nat, calls: nat, duplicates: nat, pages: nat, returned: nat)

  const NoProgress := Counters(0, 0, 0, 0, 0)

  datatype Aggregate = Aggregate(
    state: GenerationState,
    reserved: real,
    spent: real,
    counters: Counters,
    lastPage: Option<nat>,
    lockedProvider: Option<string>,
    stopRequested: bool)

  /** The immutable plan: cardinality limits, the hard cap and what the budget and the authority leave. */
  datatype Plan = Plan(
    maxPages: nat,
    maxCalls: nat,
    maxResults: nat,
    maxAccepted: nat,
    hardCap: real,
    budgetLimit: real,
    availableBudget: real,
    availableAuthority: real)

  const Fresh := Aggregate(Planned, 0.0, 0.0, NoProgress, None, None, false)

  /** Not blank, and at most `maximum` code points. */
  predicate BoundedText(s: string, maximum: nat) {
    !Blank(s) && |s| <= maximum
  }

  // ----- Snapshot validation -----

  predicate FitsPlan(plan: Plan, c: Counters) {
    c.pages <= plan.maxPages && c.calls <= plan.maxCalls && c.returned <= plan.maxResults
    && c.accepted <= plan.maxAccepted
  }

  predicate StopIsValid(g: Aggregate) {
    if g.stopRequested
    then g.state == Stopping || g.state == Cancelled || g.state == Ambiguous
    else g.state != Stopping && g.state != Cancelled
  }

  predicate PagesAreBound(g: Aggregate) {
    match g.lockedProvider
    case None => g.lastPage.None? && g.counters.pages <= 1
    case Some(provider) =>
      g.counters.pages > 0 && BoundedText(provider, 255)
      && (g.lastPage == Some(g.counters.pages)
          || ((g.state == Running || g.state == Stopping || g.state == Failed || g.state == Cancelled)
              && g.lastPage == Some(g.counters.pages - 1)))
  }

  predicate ValidSnapshot(plan: Plan, g: Aggregate) {
    FitsPlan(plan, g.counters)
    && g.counters.returned == g.counters.accepted + g.counters.duplicates
    && g.counters.calls >= g.counters.pages
    && IsAmount(g.reserved) && IsAmount(g.spent) && AtMost(g.reserved + g.spent, plan.budgetLimit)
    && StopIsValid(g) && PagesAreBound(g)
    && (g.state == Planned ==> g.counters == NoProgress && g.reserved == 0.0 && g.spent == 0.0)
  }

  function Validated(plan: Plan, g: Aggregate): Option<Aggregate> {
    if ValidSnapshot(plan, g) then Some(g) else None
  }

  // ----- Transitions -----

  predicate LimitsLeave(plan: Plan, c: Counters) {
    c.pages < plan.maxPages && c.calls < plan.maxCalls && c.returned < plan.maxResults && c.accepted < plan.maxAccepted
  }

  /** Crossing the effect threshold of a page; `open`: neither deadline has passed. */
  function AuthorizeEffect(plan: Plan, g: Aggregate, sequence: nat, amount: real, open: bool): Option<Aggregate> {
    if ValidSnapshot(plan, g) && (g.state == Planned || g.state == Running) && sequence == g.counters.pages + 1
       && (sequence == 1 <==> g.state == Planned) && open && IsAmount(amount)
       && AtMost(g.spent + amount, plan.hardCap) && AtMost(amount, plan.budgetLimit - g.reserved - g.spent)
       && LimitsLeave(plan, g.counters)
    then
      Validated(plan, g.(state := Running, reserved := g.reserved + amount,
                         counters := g.counters.(calls := g.counters.calls + 1, pages := g.counters.pages + 1)))
    else None
  }

  datatype Progress = Progress(sequence: nat, accepted: nat, duplicates: nat, cost: real, provider: string)

  function CheckpointProgress(plan: Plan, g: Aggregate, p: Progress): Option<Aggregate> {
    if ValidSnapshot(plan, g) && (g.state == Running || g.state == Stopping)
       && g.counters.pages == p.sequence && g.counters.calls == p.sequence && p.sequence >= 1
       && (g.lastPage == Some(p.sequence - 1) || (p.sequence == 1 && g.lastPage.None?))
       && (g.lockedProvider.None? || g.lockedProvider == Some(p.provider)) && BoundedText(p.provider, 255)
       && IsAmount(p.cost) && AtMost(p.cost, g.reserved)
    then
      Validated(plan, g.(reserved := 0.0, spent := g.spent + p.cost,
                         counters := g.counters.(accepted := g.counters.accepted + p.accepted,
                                                 duplicates := g.counters.duplicates + p.duplicates,
                                                 returned := g.counters.returned + p.accepted + p.duplicates),
                         lastPage := Some(p.sequence), lockedProvider := Some(p.provider)))
    else None
  }

  function Complete(plan: Plan, g: Aggregate): Option<Aggregate> {
    if ValidSnapshot(plan, g) && g.state == Running && g.reserved == 0.0 && g.lastPage == Some(g.counters.pages)
    then Validated(plan, g.(state := Completed)) else None
  }

  function Fail(plan: Plan, g: Aggregate): Option<Aggregate> {
    if ValidSnapshot(plan, g) && g.state == Running
    then Validated(plan, g.(state := Failed, reserved := 0.0)) else None
  }

  function MarkAmbiguous(plan: Plan, g: Aggregate): Option<Aggregate> {
    if ValidSnapshot(plan, g) && (g.state == Running || g.state == Stopping)
    then Validated(plan, g.(state := Ambiguous)) else None
  }

  predicate NoEffectInFlight(g: Aggregate) {
    g.state == Planned || (g.reserved == 0.0 && g.lastPage == Some(g.counters.pages))
  }

  function RequestStop(plan: Plan, g: Aggregate): Option<Aggregate> {
    if !ValidSnapshot(plan, g) || g.state == Ambiguous || g.state == Completed || g.state == Failed then None
    else if g.state == Cancelled || g.state == Stopping then Some(g)
    else Validated(plan, g.(state := if NoEffectInFlight(g) then Cancelled else Stopping, stopRequested := true))
  }

  function CancelAfterStop(plan: Plan, g: Aggregate): Option<Aggregate> {
    if ValidSnapshot(plan, g) && g.state == Stopping
    then Validated(plan, g.(state := Cancelled, reserved := 0.0)) else None
  }
}
