/** Running a compiled play, one durable checkpoint at a time. */
module PlayRunner {
  import opened Outcomes
  import opened PlayCompiler

  datatype StageState = Pending | Running | Completed | Failed

  datatype Stage = Stage(operation: Operation, ordinal: nat, state: StageState, reserved: real, spent: real, calls: nat)

  datatype RunState = IsQueued | IsRunning | IsPaused | IsCompleted | IsFailed | IsCancelled

  /** The error of a run that stopped: all that matters of it here is whether it was marked retryable. */
  datatype Failure = Failure(retryable: bool)

  datatype Execution = Execution(
    reserved: real,
    spent: real,
    unit: string,
    calls: nat,
    provenance: seq<string>,
    stages: seq<Stage>,
    result: Option<nat>,
    error: Option<Failure>)

  datatype SnapshotState = Working | Done | Broken | Stopped | Unclear

  /** What a child generation reports of itself, with an error or without. */
  datatype Snapshot = Snapshot(state: SnapshotState, reserved: real, spent: real, calls: nat, provenance: seq<string>,
                               error: Option<Failure>)

  /** What the outside answers: a snapshot or none, a projected workbook or none. */
  datatype Outside = Outside(snapshot: Option<Snapshot>, workbook: Option<(nat, seq<string>)>)

  datatype Progress = Progress(state: RunState, execution: Execution)

  const MAX_PROVENANCE := 256

  function Reserved(stages: seq<Stage>): real {
    if stages == [] then 0.0 else Reserved(stages[..|stages| - 1]) + stages[|stages| - 1].reserved
  }

  function Spent(stages: seq<Stage>): real {
    if stages == [] then 0.0 else Spent(stages[..|stages| - 1]) + stages[|stages| - 1].spent
  }

  function Calls(stages: seq<Stage>): nat {
    if stages == [] then 0 else Calls(stages[..|stages| - 1]) + stages[|stages| - 1].calls
  }

  /** New entries of a list, first occurrences only, after the known ones. */
  function Union(known: seq<string>, added: seq<string>): (r: seq<string>)
    ensures known <= r
    decreases |added|
  {
    if added == [] then known
    else Union(if added[0] in known then known else known + [added[0]], added[1..])
  }

  function Bounded(list: seq<string>): seq<string> {
    if |list| <= MAX_PROVENANCE then list else list[..MAX_PROVENANCE]
  }

  function AggregateExecution(e: Execution, stages: seq<Stage>, provenance: seq<string>): Execution {
    e.(reserved := Reserved(stages), spent := Spent(stages), calls := Calls(stages),
       provenance := Bounded(Union(e.provenance, provenance)), stages := stages)
  }

  function SnapshotStage(current: Stage, s: Snapshot): Stage {
    Stage(current.operation, current.ordinal,
          match s.state case Done => Completed case Working => Running case _ => Failed,
          s.reserved, s.spent, s.calls)
  }

  function ReplaceStage(stages: seq<Stage>, replacement: Stage): (r: seq<Stage>)
    ensures |r| == |stages|
    ensures forall i :: 0 <= i < |r| ==>
              r[i] == if stages[i].ordinal == replacement.ordinal then replacement else stages[i]
  {
    seq(|stages|, i requires 0 <= i < |stages| =>
      if stages[i].ordinal == replacement.ordinal then replacement else stages[i])
  }

  function FailureState(s: SnapshotState): RunState {
    match s case Stopped => IsCancelled case Unclear => IsPaused case _ => IsFailed
  }

  function Current(stages: seq<Stage>): Option<Stage> {
    if stages == [] then None
    else if stages[0].state != Completed then Some(stages[0])
    else Current(stages[1..])
  }

  predicate ExceedsCaps(e: Execution, d: Definition) {
    e.calls > d.maxProviderCalls || e.unit != d.budgetUnit || e.reserved > d.budgetLimit || e.spent > d.budgetLimit
  }

  function ProjectWorkbook(state: RunState, current: Stage, e: Execution, o: Outside): Progress {
    match o.workbook
    case None => Progress(IsPaused, e.(error := Some(Failure(true))))
    case Some((result, provenance)) =>
      Progress(IsCompleted,
               AggregateExecution(e.(result := Some(result)),
                                  ReplaceStage(e.stages, current.(state := Completed)), provenance))
  }

  /** A stage that could not be started or inspected is reported with what it had cost before. */
  function Captured(current: Stage, o: Outside): Snapshot {
    match o.snapshot
    case Some(s) => s
    case None => Snapshot(Unclear, current.reserved, current.spent, current.calls, [], Some(Failure(true)))
  }

  function AdvanceGeneration(d: Definition, state: RunState, current: Stage, e: Execution, o: Outside): Progress {
    var s := Captured(current, o);
    var next := AggregateExecution(e, ReplaceStage(e.stages, SnapshotStage(current, s)), s.provenance);
    if ExceedsCaps(next, d) then Progress(IsFailed, next.(error := Some(Failure(false))))
    else if s.state == Broken || s.state == Stopped || s.state == Unclear then
      Progress(FailureState(s.state), next.(error := if s.error.Some? then s.error else Some(Failure(s.state == Unclear))))
    else Progress(if state == IsQueued then IsRunning else state, next)
  }

  function Advance(d: Definition, state: RunState, e: Execution, now: int, o: Outside): Progress {
    if now >= d.deadline then Progress(IsFailed, e.(error := Some(Failure(false))))
    else
      match Current(e.stages)
      case None => Progress(IsFailed, e.(error := Some(Failure(false))))
      case Some(current) =>
        if current.operation == WorkbooksProject && current.state == Pending
        then ProjectWorkbook(state, current, e, o)
        else AdvanceGeneration(d, state, current, e, o)
  }

  function InitialStages(ops: seq<Operation>): (r: seq<Stage>)
    ensures |r| == |ops|
    ensures forall i :: 0 <= i < |r| ==> r[i] == Stage(ops[i], i + 1, Pending, 0.0, 0.0, 0)
  {
    seq(|ops|, i requires 0 <= i < |ops| => Stage(ops[i], i + 1, Pending, 0.0, 0.0, 0))
  }

  function InitialExecution(d: Definition): Execution {
    Execution(0.0, 0.0, d.budgetUnit, 0, [], InitialStages(Compile(d).stages), None, None)
  }

  // ----- The stored run -----

  /** Claims are numbered; the number is the token. An update clears the claim. */
  datatype Stored = Stored(state: RunState, execution: Execution, revision: nat, claims: nat, claimed: bool)

  /** A worker that holds a claim, with the run it read. */
  datatype Worker = Worker(token: nat, state: RunState, execution: Execution, revision: nat, now: int)

  datatype World = World(stored: Stored, workers: map<nat, Worker>)

  datatype Event = ClaimRun(worker: nat, now: int, free: bool) | Checkpoint(worker: nat, outside: Outside) | Vanish(worker: nat)

  /** `free`: no claim is live. Only a queued or running play is ever claimed. */
  function Step(d: Definition, w: World, e: Event): World {
    match e
    case ClaimRun(k, now, free) =>
      if k in w.workers || !free || (w.stored.state != IsQueued && w.stored.state != IsRunning) then w
      else
        var stored := w.stored.(claims := w.stored.claims + 1, claimed := true);
        World(stored, w.workers[k := Worker(stored.claims, stored.state, stored.execution, stored.revision, now)])
    case Checkpoint(k, outside) =>
      if k !in w.workers then w
      else
        var it := w.workers[k];
        var progress := Advance(d, it.state, it.execution, it.now, outside);
        var workers := w.workers - {k};
        if w.stored.claimed && w.stored.claims == it.token && w.stored.revision == it.revision
        then World(w.stored.(state := progress.state, execution := progress.execution,
                             revision := w.stored.revision + 1, claimed := false), workers)
        else w.(workers := workers)
    case Vanish(k) => w.(workers := w.workers - {k})
  }

  function Start(d: Definition): World {
    World(Stored(IsQueued, InitialExecution(d), 1, 0, false), map[])
  }

  function Run(d: Definition, w: World, events: seq<Event>): World
    decreases |events|
  {
    if events == [] then w else Run(d, Step(d, w, events[0]), events[1..])
  }

  // ----- What every reachable run satisfies -----

  /** Completed stages first, then at most one that is running or failed, then pending ones. */
  predicate InOrder(stages: seq<Stage>) {
    (forall i, j :: 0 <= i < j < |stages| && stages[j].state != Pending ==> stages[i].state == Completed)
  }

  predicate Compiled(d: Definition, stages: seq<Stage>) {
    |stages| == |Compile(d).stages|
    && forall i :: 0 <= i < |stages| ==> stages[i].operation == Compile(d).stages[i] && stages[i].ordinal == i + 1
  }

  predicate Totalled(e: Execution) {
    e.reserved == Reserved(e.stages) && e.spent == Spent(e.stages) && e.calls == Calls(e.stages)
  }

  predicate DistinctEntries(list: seq<string>) {
    forall i, j :: 0 <= i < j < |list| ==> list[i] != list[j]
  }

  predicate Sound(d: Definition, state: RunState, e: Execution) {
    Compiled(d, e.stages) && InOrder(e.stages) && Totalled(e)
    && |e.provenance| <= MAX_PROVENANCE && DistinctEntries(e.provenance)
    && (state != IsFailed ==> !ExceedsCaps(e, d))
    && (state == IsCompleted ==> e.result.Some? && forall i :: 0 <= i < |e.stages| ==> e.stages[i].state == Completed)
    && (state != IsFailed && state != IsCompleted ==>
          e.stages != [] && e.stages[|e.stages| - 1].state == Pending)
    && (state == IsQueued || state == IsRunning || state == IsCompleted <==> e.error.None?)
    && (state == IsQueued || state == IsRunning ==> forall i :: 0 <= i < |e.stages| ==> e.stages[i].state != Failed)
  }

  // ----- The scheduler's cycle over the stored run -----

  /** A cycle nobody interrupts: claim, advance, write back. */
  function Cycle(d: Definition, s: Stored, now: int, free: bool, o: Outside): (Stored, bool) {
    if !free || (s.state != IsQueued && s.state != IsRunning) then (s, false)
    else
      var p := Advance(d, s.state, s.execution, now, o);
      (Stored(p.state, p.execution, s.revision + 1, s.claims + 1, false), true)
  }
}
