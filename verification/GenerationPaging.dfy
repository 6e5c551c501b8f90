/** Pages of a generation: authorization, the effect threshold, checkpoints and cancellation. */
module GenerationPaging {
  import opened Outcomes
  import opened Amounts
  import opened Generation

  datatype PageState = RunCreated | Executing | Committed | PageFailed | PageAmbiguous

  datatype Item = Item(contentHash: string, recordId: string)

  datatype Artifact = Artifact(items: seq<Item>, hasMore: bool, nextCursor: Option<string>, sourceCompleted: bool)

  /** What a commit adds to a page; the artifact stands for its content hash. */
  datatype PageResult = PageResult(accepted: nat, duplicates: nat, cost: real, artifact: Artifact)

  datatype Page = Page(
    sequence: nat,
    inputCursor: Option<string>,
    budget: real,
    state: PageState,
    reserved: real,
    provider: string,
    result: Option<PageResult>)

  datatype Record = Record(ordinal: nat, page: nat, position: nat, contentHash: string, recordId: string)

  datatype Lineage = Lineage(ordinal: nat, page: nat, position: nat, recordId: string)

  /** Everything one generation has in durable storage; `runs` lists the page of every created run. */
  datatype Store = Store(
    generation: Aggregate,
    pages: map<nat, Page>,
    runs: seq<nat>,
    cancelledRuns: seq<nat>,
    records: seq<Record>,
    lineage: seq<Lineage>)

  const Empty := Store(Fresh, map[], [], [], [], [])

  // ----- Authorization of the next page -----

  datatype Authorization =
    | Authorized(page: nat)
    | Replayed(page: nat)
    | NotPlanned
    | DeadlineElapsed
    | LimitExhausted
    | BudgetExhausted
    | RunRejected
    | ProofInvalid

  predicate HasTerminated(s: GenerationState) {
    s == Completed || s == Failed || s == Cancelled || s == Ambiguous
  }

  predicate BudgetLeaves(plan: Plan, g: Aggregate) {
    g.spent < plan.hardCap && g.spent < plan.availableBudget && g.spent < plan.availableAuthority
  }

  function Denial(plan: Plan, g: Aggregate, open: bool): Option<Authorization> {
    if !open then Some(DeadlineElapsed)
    else if !LimitsLeave(plan, g.counters) then Some(LimitExhausted)
    else if !BudgetLeaves(plan, g) then Some(BudgetExhausted)
    else None
  }

  predicate PageIsWellFormed(p: Page) {
    p.sequence >= 1
    && (p.sequence == 1 <==> p.inputCursor.None?)
    && (p.inputCursor.Some? ==> BoundedText(p.inputCursor.value, 4096))
  }

  /** A fresh page and its run, which may reserve at most what the hard cap leaves. */
  function PersistFreshPage(plan: Plan, s: Store, sequence: nat, cursor: Option<string>, open: bool, runAccepted: bool)
    : (Store, Authorization)
  {
    var denied := Denial(plan, s.generation, open);
    var page := Page(sequence, cursor, plan.hardCap - s.generation.spent, RunCreated, 0.0, "", None);
    if denied.Some? then (s, denied.value)
    else if !runAccepted then (s, RunRejected)
    else if !PageIsWellFormed(page) then (s.(runs := s.runs + [sequence]), ProofInvalid)
    else (s.(runs := s.runs + [sequence], pages := s.pages[sequence := page]), Authorized(sequence))
  }

  /** `open`: no deadline or quote has elapsed; `runAccepted`: the page run could be prepared and created. */
  function Authorize(plan: Plan, s: Store, open: bool, runAccepted: bool): (Store, Authorization) {
    var g := s.generation;
    var next := g.counters.pages + 1;
    if !ValidSnapshot(plan, g) then (s, ProofInvalid)
    else if HasTerminated(g.state) then (s, NotPlanned)
    else if next in s.pages then (s, Replayed(next))
    else if next == 1 then
      if g.state == Planned then PersistFreshPage(plan, s, 1, None, open, runAccepted) else (s, NotPlanned)
    else if g.state != Running || next - 1 !in s.pages then (s, NotPlanned)
    else
      var previous := s.pages[next - 1];
      if previous.state != Committed || previous.result.None? || !previous.result.value.artifact.hasMore
         || previous.result.value.artifact.nextCursor.None?
      then (s, NotPlanned)
      else PersistFreshPage(plan, s, next, previous.result.value.artifact.nextCursor, open, runAccepted)
  }

  // ----- The effect of a page -----

  /** The parent projection of a start: the page run routes within its own budget, and reserves something. */
  function StartEffect(plan: Plan, s: Store, sequence: nat, amount: real, provider: string, open: bool): Store {
    if sequence !in s.pages || s.pages[sequence].state != RunCreated || amount > s.pages[sequence].budget
       || amount <= 0.0 || !BoundedText(provider, 255)
    then s
    else
      match AuthorizeEffect(plan, s.generation, sequence, amount, open)
      case None => s
      case Some(g) =>
        s.(generation := g,
           pages := s.pages[sequence := s.pages[sequence].(state := Executing, reserved := amount, provider := provider)])
  }

  function MarkPageAmbiguous(plan: Plan, s: Store, sequence: nat): Store {
    if sequence !in s.pages || s.pages[sequence].state != Executing then s
    else
      match Generation.MarkAmbiguous(plan, s.generation)
      case None => s
      case Some(g) => s.(generation := g, pages := s.pages[sequence := s.pages[sequence].(state := PageAmbiguous)])
  }

  // ----- Checkpoints -----

  datatype RunProof =
    | PendingRun
    | AmbiguousRun
    | FailedRun
    | SucceededRun(artifact: Artifact, usage: real, provider: string, exact: bool)

  datatype Checkpointed =
    | NoPage
    | StillPending
    | IsAmbiguous
    | IsFailed
    | IsCancelled
    | Unchanged
    | Committing
    | Refused
    | Aborted

  predicate DistinctRecordIds(items: seq<Item>) {
    forall i, j :: 0 <= i < j < |items| ==> items[i].recordId != items[j].recordId
  }

  /** The parser of a page artifact; it asks of a cursor only that it is not blank. */
  predicate ArtifactParses(a: Artifact) {
    (a.hasMore ==> a.nextCursor.Some? && !Blank(a.nextCursor.value) && !a.sourceCompleted)
    && (!a.hasMore ==> a.nextCursor.None? && a.sourceCompleted)
    && DistinctRecordIds(a.items)
  }

  /** `exact` stands for the identities of run, route, artifact and manifest that must all agree. */
  predicate ProofIsExact(p: Page, proof: RunProof)
    requires proof.SucceededRun?
  {
    p.state != RunCreated && proof.exact && proof.provider == p.provider && IsAmount(proof.usage)
    && AtMost(proof.usage, p.reserved)
  }

  datatype Candidate = Candidate(position: nat, item: Item)

  /** The items of a page whose content was not seen before, each with its position. */
  function FreshItems(items: seq<Item>, seen: set<string>, at: nat): (r: seq<Candidate>)
    requires at <= |items|
    ensures |r| <= |items| - at
    decreases |items| - at
  {
    if at == |items| then []
    else if items[at].contentHash in seen then FreshItems(items, seen, at + 1)
    else [Candidate(at + 1, items[at])] + FreshItems(items, seen + {items[at].contentHash}, at + 1)
  }

  function StoredHashes(records: seq<Record>): set<string> {
    set r <- records :: r.contentHash
  }

  function NewRecords(kept: seq<Candidate>, page: nat, accepted: nat): (r: seq<Record>)
    ensures |r| == |kept|
    ensures forall i :: 0 <= i < |r| ==>
              r[i] == Record(accepted + i + 1, page, kept[i].position, kept[i].item.contentHash, kept[i].item.recordId)
  {
    seq(|kept|, i requires 0 <= i < |kept| =>
      Record(accepted + i + 1, page, kept[i].position, kept[i].item.contentHash, kept[i].item.recordId))
  }

  function NewLineage(records: seq<Record>): (r: seq<Lineage>)
    ensures |r| == |records|
    ensures forall i :: 0 <= i < |r| ==>
              r[i] == Lineage(records[i].ordinal, records[i].page, records[i].position, records[i].recordId)
  {
    seq(|records|, i requires 0 <= i < |records| =>
      Lineage(records[i].ordinal, records[i].page, records[i].position, records[i].recordId))
  }

  /** The unique keys of stored records: the record identity and the ordinal. */
  predicate Insertable(stored: seq<Record>, added: seq<Record>) {
    (forall i, j :: 0 <= i < |stored| && 0 <= j < |added| ==>
       stored[i].recordId != added[j].recordId && stored[i].ordinal != added[j].ordinal)
  }

  /** Committing a page asks for a cursor of at most 255 code points. */
  predicate Committable(p: Page, r: PageResult) {
    p.state == Executing
    && (if r.artifact.hasMore
        then r.artifact.nextCursor.Some? && BoundedText(r.artifact.nextCursor.value, 255) && !r.artifact.sourceCompleted
        else r.artifact.nextCursor.None? && r.artifact.sourceCompleted)
    && IsAmount(r.cost) && AtMost(r.cost, p.reserved)
  }

  /** The check of the page table: without the rounding the code allows, and with the whole transaction at stake. */
  predicate CostFits(p: Page, cost: real) {
    cost <= p.reserved
  }

  predicate CapsReached(plan: Plan, g: Aggregate) {
    !LimitsLeave(plan, g.counters) || g.spent >= plan.hardCap
  }

  function ActivePage(s: Store): nat {
    s.generation.counters.pages
  }

  function PersistCheckpoint(plan: Plan, s: Store, page: Page, proof: RunProof): (Store, Checkpointed)
    requires proof.SucceededRun?
  {
    var items := proof.artifact.items;
    var kept := FreshItems(items, StoredHashes(s.records), 0);
    var duplicates := |items| - |kept|;
    var progress := Progress(page.sequence, |kept|, duplicates, proof.usage, proof.provider);
    match CheckpointProgress(plan, s.generation, progress)
    case None => (s, Refused)
    case Some(next) =>
      var added := NewRecords(kept, page.sequence, s.generation.counters.accepted);
      if !Insertable(s.records, added) then (s, Aborted)
      else
        var written := s.(records := s.records + added, lineage := s.lineage + NewLineage(added));
        var result := PageResult(|kept|, duplicates, proof.usage, proof.artifact);
        if !Committable(page, result) then (written, Refused)
        else
          var stopping := next.state == Stopping;
          var concluded := if stopping then CancelAfterStop(plan, next)
                           else if !proof.artifact.hasMore || CapsReached(plan, next) then Complete(plan, next)
                           else Some(next);
          match concluded
          case None => (written, Refused)
          case Some(g) =>
            if !CostFits(page, proof.usage) then (s, Aborted)
            else
              (written.(generation := g,
                        pages := written.pages[page.sequence := page.(state := Committed, result := Some(result))]),
               if stopping then IsCancelled else Committing)
  }

  predicate CommittedMatches(s: Store, page: Page, proof: RunProof)
    requires proof.SucceededRun?
  {
    page.result.Some? && page.result.value.artifact == proof.artifact && page.result.value.cost == proof.usage
    && page.result.value.accepted + page.result.value.duplicates == |proof.artifact.items|
    && (s.generation.state == Running || s.generation.state == Completed || s.generation.state == Cancelled)
    && s.generation.lastPage == Some(page.sequence) && s.generation.counters.pages == page.sequence
    && s.generation.reserved == 0.0 && s.generation.lockedProvider == Some(proof.provider)
  }

  function ProjectFailure(plan: Plan, s: Store, page: Page): (Store, Checkpointed) {
    var stopping := s.generation.state == Stopping;
    match if stopping then CancelAfterStop(plan, s.generation) else Fail(plan, s.generation)
    case None => (s, Refused)
    case Some(g) =>
      if page.state != Executing then (s, Refused)
      else
        (s.(generation := g, pages := s.pages[page.sequence := page.(state := PageFailed)]),
         if stopping then IsCancelled else IsFailed)
  }

  function Checkpoint(plan: Plan, s: Store, proof: RunProof): (Store, Checkpointed) {
    if !ValidSnapshot(plan, s.generation) || ActivePage(s) !in s.pages then (s, NoPage)
    else
      var page := s.pages[ActivePage(s)];
      if page.state == PageAmbiguous then (s, IsAmbiguous)
      else if page.state == PageFailed then (s, IsFailed)
      else
        match proof
        case PendingRun => (s, if page.state == Committed then Refused else StillPending)
        case AmbiguousRun =>
          if page.state == Committed then (s, Refused)
          else
            var marked := MarkPageAmbiguous(plan, s, page.sequence);
            (marked, if marked == s then Refused else IsAmbiguous)
        case FailedRun => ProjectFailure(plan, s, page)
        case SucceededRun(_, _, _, _) =>
          if !ArtifactParses(proof.artifact) || !ProofIsExact(page, proof) then (s, Refused)
          else if page.state == Committed then (s, if CommittedMatches(s, page, proof) then Unchanged else Refused)
          else if page.state == Executing then PersistCheckpoint(plan, s, page, proof)
          else (s, Refused)
  }

  // ----- Cancellation -----

  datatype Cancellation = StopRecorded | AlreadyStopped | CannotStop

  /** `runCancels`: the run of a page that has not started could be cancelled. */
  function Cancel(plan: Plan, s: Store, runCancels: bool): (Store, Cancellation) {
    var g := s.generation;
    if g.stopRequested && (g.state == Stopping || g.state == Cancelled || g.state == Ambiguous)
    then (s, AlreadyStopped)
    else if g.state == Ambiguous || g.state == Completed || g.state == Failed then (s, CannotStop)
    else
      match RequestStop(plan, g)
      case None => (s, CannotStop)
      case Some(stopped) =>
        var active := if g.counters.pages == 0 then 1 else g.counters.pages;
        if active in s.pages && s.pages[active].state == RunCreated then
          if runCancels then (s.(generation := stopped, cancelledRuns := s.cancelledRuns + [active]), StopRecorded)
          else (s, CannotStop)
        else (s.(generation := stopped), StopRecorded)
  }

  // ----- Runs -----

  datatype Event =
    | AuthorizeNext(open: bool, runAccepted: bool)
    | Start(sequence: nat, amount: real, provider: string, open: bool)
    | LoseOutcome(sequence: nat)
    | CheckpointActive(proof: RunProof)
    | RequestCancel(runCancels: bool)

  function Step(plan: Plan, s: Store, e: Event): Store {
    match e
    case AuthorizeNext(open, runAccepted) => Authorize(plan, s, open, runAccepted).0
    case Start(sequence, amount, provider, open) => StartEffect(plan, s, sequence, amount, provider, open)
    case LoseOutcome(sequence) => MarkPageAmbiguous(plan, s, sequence)
    case CheckpointActive(proof) => Checkpoint(plan, s, proof).0
    case RequestCancel(runCancels) => Cancel(plan, s, runCancels).0
  }

  function Run(plan: Plan, s: Store, events: seq<Event>): Store
    decreases |events|
  {
    if events == [] then s else Run(plan, Step(plan, s, events[0]), events[1..])
  }
}
