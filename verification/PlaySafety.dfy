/** What every reachable play run satisfies, whatever its workers, claims and child generations do. */
module PlaySafety {
  import opened Outcomes
  import opened PlayCompiler
  import opened PlayRunner

  // ----- Sums and provenance -----

  lemma {:induction false} FreshSums(stages: seq<Stage>)
    requires forall i :: 0 <= i < |stages| ==> stages[i].reserved == 0.0 && stages[i].spent == 0.0 && stages[i].calls == 0
    ensures Reserved(stages) == 0.0 && Spent(stages) == 0.0 && Calls(stages) == 0
  {
    if stages != [] {
      FreshSums(stages[..|stages| - 1]);
    }
  }

  lemma {:induction false} UnionIsDistinct(known: seq<string>, added: seq<string>)
    requires DistinctEntries(known)
    ensures DistinctEntries(Union(known, added))
    decreases |added|
  {
    if added != [] {
      UnionIsDistinct(if added[0] in known then known else known + [added[0]], added[1..]);
    }
  }

  /** Provenance only grows at its end: what was recorded stays, in place. */
  lemma ProvenanceGrows(e: Execution, stages: seq<Stage>, provenance: seq<string>)
    requires |e.provenance| <= MAX_PROVENANCE && DistinctEntries(e.provenance)
    ensures var next := AggregateExecution(e, stages, provenance);
            e.provenance <= next.provenance && |next.provenance| <= MAX_PROVENANCE && DistinctEntries(next.provenance)
  {
    UnionIsDistinct(e.provenance, provenance);
  }

  // ----- The current stage -----

  lemma {:induction false} CurrentIsFirstOpen(stages: seq<Stage>) returns (i: nat)
    requires exists j :: 0 <= j < |stages| && stages[j].state != Completed
    ensures i < |stages| && Current(stages) == Some(stages[i]) && stages[i].state != Completed
    ensures forall j :: 0 <= j < i ==> stages[j].state == Completed
  {
    i := 0;
    if stages[0].state == Completed {
      var open :| 0 <= open < |stages| && stages[open].state != Completed;
      assert stages[1..][open - 1] == stages[open];
      var k := CurrentIsFirstOpen(stages[1..]);
      i := k + 1;
      forall j | 0 <= j < i ensures stages[j].state == Completed {
        if j > 0 { assert stages[1..][j - 1] == stages[j]; }
      }
    }
  }

  /** The current stage, its place, and what is true around it. */
  ghost predicate CurrentAt(stages: seq<Stage>, i: nat, current: Stage) {
    i < |stages| && stages[i] == current && current.state != Completed
    && (forall j :: 0 <= j < i ==> stages[j].state == Completed)
    && (forall j :: i < j < |stages| ==> stages[j].state == Pending)
  }

  lemma CurrentStage(d: Definition, state: RunState, e: Execution) returns (i: nat, current: Stage)
    requires Sound(d, state, e) && (state == IsQueued || state == IsRunning)
    ensures Current(e.stages) == Some(current) && CurrentAt(e.stages, i, current)
    ensures current.operation == WorkbooksProject <==> i == |e.stages| - 1
    ensures current.operation == WorkbooksProject ==> current.state == Pending
  {
    i := CurrentIsFirstOpen(e.stages);
    current := e.stages[i];
    assert forall j :: i < j < |e.stages| && e.stages[j].state != Pending ==> e.stages[i].state == StageState.Completed;
    StagesAreDistinct(d, 0, |e.stages| - 1);
    if i < |e.stages| - 1 {
      StagesAreDistinct(d, i, |e.stages| - 1);
    }
  }

  /** Which branch of the advance the current stage takes. */
  lemma AdvanceTakes(d: Definition, state: RunState, e: Execution, now: int, o: Outside, current: Stage)
    requires now < d.deadline && Current(e.stages) == Some(current)
    requires current.operation == WorkbooksProject ==> current.state == Pending
    ensures Advance(d, state, e, now, o)
         == if current.operation == WorkbooksProject then ProjectWorkbook(state, current, e, o)
            else AdvanceGeneration(d, state, current, e, o)
  {
  }

  /** Replacing the current stage touches it alone, and keeps stages compiled and in order. */
  lemma ReplaceCurrent(d: Definition, stages: seq<Stage>, i: nat, current: Stage, next: Stage)
    requires Compiled(d, stages) && InOrder(stages) && CurrentAt(stages, i, current)
    requires next.ordinal == current.ordinal && next.operation == current.operation
    ensures var r := ReplaceStage(stages, next);
            r == stages[i := next] && Compiled(d, r) && InOrder(r)
  {
  }

  // ----- One checkpoint -----

  lemma WorkbookKeepsSound(d: Definition, state: RunState, e: Execution, i: nat, current: Stage, o: Outside)
    requires Sound(d, state, e) && (state == IsQueued || state == IsRunning)
    requires CurrentAt(e.stages, i, current) && i == |e.stages| - 1
    ensures var p := ProjectWorkbook(state, current, e, o);
            Sound(d, p.state, p.execution) && (p.state == IsCompleted || p.state == IsPaused)
            && e.provenance <= p.execution.provenance
            && (p.execution.stages == e.stages || p.execution.stages == e.stages[i := current.(state := StageState.Completed)])
  {
    var next := current.(state := StageState.Completed);
    ReplaceCurrent(d, e.stages, i, current, next);
    if o.workbook.Some? {
      SumsMove(e.stages, i, next);
      ProvenanceGrows(e.(result := Some(o.workbook.value.0)), ReplaceStage(e.stages, next), o.workbook.value.1);
    }
  }

  /** Every part of soundness but the one that depends on the run's state. */
  ghost predicate ExecutionSound(d: Definition, e: Execution) {
    Compiled(d, e.stages) && InOrder(e.stages) && Totalled(e)
    && |e.provenance| <= MAX_PROVENANCE && DistinctEntries(e.provenance)
    && e.stages != [] && e.stages[|e.stages| - 1].state == Pending
  }

  lemma AggregateKeepsSound(d: Definition, e: Execution, i: nat, current: Stage, s: Snapshot)
    requires ExecutionSound(d, e) && CurrentAt(e.stages, i, current) && i < |e.stages| - 1
    ensures var next := AggregateExecution(e, ReplaceStage(e.stages, SnapshotStage(current, s)), s.provenance);
            ExecutionSound(d, next) && e.provenance <= next.provenance && next.unit == e.unit
            && next.stages == e.stages[i := SnapshotStage(current, s)]
  {
    ReplaceCurrent(d, e.stages, i, current, SnapshotStage(current, s));
    ProvenanceGrows(e, ReplaceStage(e.stages, SnapshotStage(current, s)), s.provenance);
  }

  predicate NoneFailed(stages: seq<Stage>) {
    forall i :: 0 <= i < |stages| ==> stages[i].state != Failed
  }

  /** How a sound execution is sound in the state its checkpoint gives it. */
  lemma SoundInState(d: Definition, state: RunState, next: Execution)
    requires ExecutionSound(d, next) && state != IsCompleted
    requires ExceedsCaps(next, d) ==> state == IsFailed
    requires state == IsQueued || state == IsRunning <==> next.error.None?
    requires state == IsQueued || state == IsRunning ==> NoneFailed(next.stages)
    ensures Sound(d, state, next)
  {
  }

  lemma ErrorKeepsSound(d: Definition, e: Execution, error: Option<Failure>)
    requires ExecutionSound(d, e)
    ensures ExecutionSound(d, e.(error := error)) && ExceedsCaps(e.(error := error), d) == ExceedsCaps(e, d)
  {
  }

  lemma GenerationKeepsSound(d: Definition, state: RunState, e: Execution, i: nat, current: Stage, o: Outside)
    requires ExecutionSound(d, e) && NoneFailed(e.stages) && e.error.None? && (state == IsQueued || state == IsRunning)
    requires CurrentAt(e.stages, i, current) && i < |e.stages| - 1
    ensures var p := AdvanceGeneration(d, state, current, e, o);
            Sound(d, p.state, p.execution) && p.state != IsQueued && p.state != IsCompleted
            && e.provenance <= p.execution.provenance
            && p.execution.stages == e.stages[i := SnapshotStage(current, Captured(current, o))]
  {
    var s := Captured(current, o);
    AggregateKeepsSound(d, e, i, current, s);
    var p := AdvanceGeneration(d, state, current, e, o);
    var next := AggregateExecution(e, ReplaceStage(e.stages, SnapshotStage(current, s)), s.provenance);
    ErrorKeepsSound(d, next, p.execution.error);
    assert p.execution == next.(error := p.execution.error);
    if s.state == Done || s.state == Working {
      assert NoneFailed(next.stages);
    }
    SoundInState(d, p.state, p.execution);
  }

  lemma AdvanceKeepsSound(d: Definition, state: RunState, e: Execution, now: int, o: Outside)
    requires Sound(d, state, e) && (state == IsQueued || state == IsRunning)
    ensures var p := Advance(d, state, e, now, o);
            Sound(d, p.state, p.execution) && p.state != IsQueued
            && e.provenance <= p.execution.provenance
            && (forall i :: 0 <= i < |e.stages| && e.stages[i].state == Completed ==> p.execution.stages[i] == e.stages[i])
  {
    if now < d.deadline {
      var i, current := CurrentStage(d, state, e);
      AdvanceTakes(d, state, e, now, o, current);
      if current.operation == WorkbooksProject {
        WorkbookKeepsSound(d, state, e, i, current, o);
      } else {
        GenerationKeepsSound(d, state, e, i, current, o);
      }
    }
  }

  /** Replacing one stage moves every total by its difference. */
  lemma {:induction false} SumsMove(stages: seq<Stage>, i: nat, next: Stage)
    requires i < |stages|
    ensures var r := stages[i := next];
            Reserved(r) == Reserved(stages) - stages[i].reserved + next.reserved
            && Spent(r) == Spent(stages) - stages[i].spent + next.spent
            && Calls(r) == Calls(stages) - stages[i].calls + next.calls
    decreases |stages|
  {
    var n := |stages| - 1;
    var r := stages[i := next];
    if i < n {
      SumsMove(stages[..n], i, next);
      assert r[..n] == stages[..n][i := next];
    } else {
      assert r[..n] == stages[..n];
    }
  }

  // ----- Every run -----

  /** A worker that could still write has read exactly what is stored. */
  ghost predicate WorldSafe(d: Definition, w: World) {
    Sound(d, w.stored.state, w.stored.execution)
    && (w.stored.claimed ==> w.stored.state == IsQueued || w.stored.state == IsRunning)
    && forall k :: k in w.workers ==>
         w.workers[k].token <= w.stored.claims
         && (w.stored.claimed && w.workers[k].token == w.stored.claims && w.workers[k].revision == w.stored.revision ==>
               w.workers[k].state == w.stored.state && w.workers[k].execution == w.stored.execution)
  }

  /** What a later state keeps of an earlier one. */
  ghost predicate Continues(w: World, later: World) {
    w.stored.revision <= later.stored.revision
    && w.stored.execution.provenance <= later.stored.execution.provenance
    && |later.stored.execution.stages| == |w.stored.execution.stages|
    && (forall i :: 0 <= i < |w.stored.execution.stages| && w.stored.execution.stages[i].state == StageState.Completed
                    ==> later.stored.execution.stages[i] == w.stored.execution.stages[i])
    && (w.stored.state != IsQueued && w.stored.state != IsRunning ==>
          later.stored.state == w.stored.state && later.stored.execution == w.stored.execution)
  }

  lemma StepKeepsSafe(d: Definition, w: World, e: Event)
    requires WorldSafe(d, w)
    ensures WorldSafe(d, Step(d, w, e)) && Continues(w, Step(d, w, e))
  {
    if e.Checkpoint? && e.worker in w.workers {
      var it := w.workers[e.worker];
      if w.stored.claimed && w.stored.claims == it.token && w.stored.revision == it.revision {
        AdvanceKeepsSound(d, it.state, it.execution, it.now, e.outside);
      }
    }
  }

  lemma StartIsSafe(d: Definition)
    requires d.budgetLimit >= 0.0
    ensures WorldSafe(d, Start(d))
  {
    FreshSums(InitialStages(Compile(d).stages));
  }

  /**
   * In every reachable run the stages are completed ones, then at most one begun, then pending; totals are the sums
   * over stages; caps hold unless the run failed; and a run that is over stays as it is.
   */
  lemma {:induction false} RunIsSound(d: Definition, w: World, events: seq<Event>)
    requires WorldSafe(d, w)
    ensures WorldSafe(d, Run(d, w, events)) && Continues(w, Run(d, w, events))
    decreases |events|
  {
    if events != [] {
      StepKeepsSafe(d, w, events[0]);
      RunIsSound(d, Step(d, w, events[0]), events[1..]);
    }
  }

  /** A completed play has a result, all its compiled stages completed, and stayed within its approved caps. */
  lemma CompletedMeansEveryStage(d: Definition, events: seq<Event>)
    requires d.budgetLimit >= 0.0
    requires Run(d, Start(d), events).stored.state == IsCompleted
    ensures var e := Run(d, Start(d), events).stored.execution;
            e.result.Some? && |e.stages| == |Compile(d).stages|
            && (forall i :: 0 <= i < |e.stages| ==>
                  e.stages[i].operation == Compile(d).stages[i] && e.stages[i].state == StageState.Completed)
            && Calls(e.stages) <= d.maxProviderCalls && Spent(e.stages) <= d.budgetLimit
            && Reserved(e.stages) <= d.budgetLimit
  {
    StartIsSafe(d);
    RunIsSound(d, Start(d), events);
  }

  /** A run that is paused, whatever its error says of a retry, is never claimed again and never changes. */
  lemma PausedIsForever(d: Definition, w: World, events: seq<Event>)
    requires WorldSafe(d, w) && w.stored.state == IsPaused
    ensures Run(d, w, events).stored.state == IsPaused && Run(d, w, events).stored.execution == w.stored.execution
    ensures forall k, now, free :: k !in w.workers ==> Step(d, w, ClaimRun(k, now, free)) == w
  {
    RunIsSound(d, w, events);
  }

  /** The first stage cannot be started: the run pauses with an error marked retryable, and that is the end of it. */
  lemma RetryablePauseIsForever(d: Definition, now: int, later: seq<Event>)
    requires d.budgetLimit >= 0.0 && now < d.deadline
    ensures var w := Run(d, Start(d), [ClaimRun(0, now, true), Checkpoint(0, Outside(None, None))]);
            w.stored.state == IsPaused && w.stored.execution.error == Some(Failure(true))
            && Run(d, w, later).stored.state == IsPaused && Run(d, w, later).stored.claims == 1
  {
    var claim, write := ClaimRun(0, now, true), Checkpoint(0, Outside(None, None));
    assert [claim, write][1..] == [write] && [write][1..] == [];
    var w0 := Start(d);
    var w1, w2 := Step(d, w0, claim), Step(d, Step(d, w0, claim), write);
    assert Run(d, w0, [claim, write]) == Run(d, w1, [write]) == Run(d, w2, []);
    StartIsSafe(d);
    StepKeepsSafe(d, w0, claim);
    StepKeepsSafe(d, w1, write);
    FirstStageUnavailable(d, now);
    PausedKeepsClaims(d, w2, later);
    PausedIsForever(d, w2, later);
  }

  lemma FirstStageUnavailable(d: Definition, now: int)
    requires d.budgetLimit >= 0.0 && now < d.deadline
    ensures var p := Advance(d, IsQueued, InitialExecution(d), now, Outside(None, None));
            p.state == IsPaused && p.execution.error == Some(Failure(true))
  {
    var e := InitialExecution(d);
    StartIsSafe(d);
    var i, current := CurrentStage(d, IsQueued, e);
    AdvanceTakes(d, IsQueued, e, now, Outside(None, None), current);
    var next := ReplaceStage(e.stages, SnapshotStage(current, Captured(current, Outside(None, None))));
    FreshSums(next);
  }

  lemma {:induction false} PausedKeepsClaims(d: Definition, w: World, events: seq<Event>)
    requires w.stored.state == IsPaused && !w.stored.claimed
    ensures Run(d, w, events).stored == w.stored
    decreases |events|
  {
    if events != [] {
      PausedKeepsClaims(d, Step(d, w, events[0]), events[1..]);
    }
  }

  // ----- One checkpoint moves one stage -----

  function FirstOpen(stages: seq<Stage>): nat {
    if stages == [] || stages[0].state != StageState.Completed then 0 else 1 + FirstOpen(stages[1..])
  }

  lemma {:induction false} FirstOpenIs(stages: seq<Stage>, i: nat)
    requires i < |stages| && stages[i].state != StageState.Completed
    requires forall j :: 0 <= j < i ==> stages[j].state == StageState.Completed
    ensures FirstOpen(stages) == i
  {
    if i > 0 {
      FirstOpenIs(stages[1..], i - 1);
    }
  }

  /** The stage a checkpoint stores: what its child generation reported, or what it had with no report. */
  predicate StageReports(before: Stage, after: Stage, o: Outside) {
    after.operation == before.operation && after.ordinal == before.ordinal
    && match o.snapshot
       case None => after == before.(state := StageState.Failed)
       case Some(s) =>
         after.reserved == s.reserved && after.spent == s.spent && after.calls == s.calls
         && (s.state == Done <==> after.state == StageState.Completed)
         && (s.state == Working <==> after.state == StageState.Running)
         && (s.state == Broken || s.state == Stopped || s.state == Unclear <==> after.state == StageState.Failed)
  }

  /** Each total moves by the difference of one stage. */
  predicate TotalsMove(e: Execution, next: Execution, before: Stage, after: Stage) {
    next.reserved == e.reserved - before.reserved + after.reserved
    && next.spent == e.spent - before.spent + after.spent
    && next.calls == e.calls - before.calls + after.calls
  }

  /** Every new source is listed unless the list is full, and nothing else is. */
  predicate SourcesAdded(known: seq<string>, added: seq<string>, list: seq<string>) {
    (forall x <- list :: x in known || x in added) && (|list| == MAX_PROVENANCE || forall x <- added :: x in list)
  }

  /** The state and the error a report leads to. */
  predicate StateFollows(d: Definition, p: Progress, o: Outside) {
    var e := p.execution;
    var exceeded := e.calls > d.maxProviderCalls || e.unit != d.budgetUnit || e.reserved > d.budgetLimit || e.spent > d.budgetLimit;
    if exceeded then p.state == IsFailed && e.error == Some(Failure(false))
    else
      match o.snapshot
      case None => p.state == IsPaused && e.error == Some(Failure(true))
      case Some(s) =>
        (s.state == Working || s.state == Done ==> p.state == IsRunning && e.error == None)
        && (s.state == Stopped ==> p.state == IsCancelled) && (s.state == Broken ==> p.state == IsFailed)
        && (s.state == Unclear ==> p.state == IsPaused)
        && (s.state == Stopped || s.state == Broken || s.state == Unclear ==>
              e.error == if s.error.Some? then s.error else Some(Failure(s.state == Unclear)))
  }

  /** A checkpoint of a child generation. */
  predicate GenerationRecorded(d: Definition, e: Execution, p: Progress, i: nat, o: Outside)
    requires i < |e.stages| == |p.execution.stages|
  {
    StageReports(e.stages[i], p.execution.stages[i], o) && TotalsMove(e, p.execution, e.stages[i], p.execution.stages[i])
    && StateFollows(d, p, o) && p.execution.unit == e.unit && p.execution.result == e.result
    && SourcesAdded(e.provenance, if o.snapshot.Some? then o.snapshot.value.provenance else [], p.execution.provenance)
  }

  /** A checkpoint of the workbook: its projection completes the run, without one the run pauses as it was. */
  predicate WorkbookRecorded(e: Execution, p: Progress, i: nat, o: Outside)
    requires i < |e.stages| == |p.execution.stages|
  {
    match o.workbook
    case None => p == Progress(IsPaused, e.(error := Some(Failure(true))))
    case Some((result, provenance)) =>
      p.state == IsCompleted && p.execution.result == Some(result) && p.execution.error == None
      && p.execution.stages[i] == e.stages[i].(state := StageState.Completed)
      && TotalsMove(e, p.execution, e.stages[i], e.stages[i]) && p.execution.unit == e.unit
      && SourcesAdded(e.provenance, provenance, p.execution.provenance)
  }

  /** All that a checkpoint does. */
  predicate Recorded(d: Definition, e: Execution, p: Progress, now: int, o: Outside) {
    var i := FirstOpen(e.stages);
    if now >= d.deadline then p == Progress(IsFailed, e.(error := Some(Failure(false))))
    else
      i < |e.stages| == |p.execution.stages|
      && (forall j :: 0 <= j < |e.stages| && j != i ==> p.execution.stages[j] == e.stages[j])
      && (if i < |e.stages| - 1 then GenerationRecorded(d, e, p, i, o) else WorkbookRecorded(e, p, i, o))
  }

  lemma {:induction false} UnionHolds(known: seq<string>, added: seq<string>)
    ensures forall x :: x in Union(known, added) <==> x in known || x in added
    decreases |added|
  {
    if added != [] {
      UnionHolds(if added[0] in known then known else known + [added[0]], added[1..]);
    }
  }

  lemma BoundedSources(known: seq<string>, added: seq<string>)
    ensures SourcesAdded(known, added, Bounded(Union(known, added)))
  {
    UnionHolds(known, added);
  }

  lemma ReportDecidesState(d: Definition, state: RunState, e: Execution, current: Stage, o: Outside)
    requires (state == IsQueued || state == IsRunning) && e.error == None
    ensures StateFollows(d, AdvanceGeneration(d, state, current, e, o), o)
  {
  }

  lemma GenerationIsRecorded(d: Definition, state: RunState, e: Execution, i: nat, current: Stage, o: Outside)
    requires Sound(d, state, e) && (state == IsQueued || state == IsRunning) && CurrentAt(e.stages, i, current)
    requires i < |e.stages| - 1
    ensures var p := AdvanceGeneration(d, state, current, e, o);
            p.execution.stages == e.stages[i := p.execution.stages[i]] && GenerationRecorded(d, e, p, i, o)
  {
    var s := Captured(current, o);
    ReportDecidesState(d, state, e, current, o);
    ReplaceCurrent(d, e.stages, i, current, SnapshotStage(current, s));
    SumsMove(e.stages, i, SnapshotStage(current, s));
    BoundedSources(e.provenance, s.provenance);
  }

  lemma WorkbookIsRecorded(d: Definition, state: RunState, e: Execution, i: nat, current: Stage, o: Outside)
    requires Sound(d, state, e) && (state == IsQueued || state == IsRunning) && CurrentAt(e.stages, i, current)
    ensures var p := ProjectWorkbook(state, current, e, o);
            p.execution.stages == e.stages[i := p.execution.stages[i]] && WorkbookRecorded(e, p, i, o)
  {
    var next := current.(state := StageState.Completed);
    ReplaceCurrent(d, e.stages, i, current, next);
    SumsMove(e.stages, i, next);
    if o.workbook.Some? { BoundedSources(e.provenance, o.workbook.value.1); }
  }

  /**
   * A checkpoint changes the first open stage and no other, stores there exactly what was reported, moves each total by
   * that one stage, and gives the run the state and the error that follow; past the deadline it only fails the run.
   */
  lemma OneStagePerCheckpoint(d: Definition, state: RunState, e: Execution, now: int, o: Outside)
    requires Sound(d, state, e) && (state == IsQueued || state == IsRunning)
    ensures var p := Advance(d, state, e, now, o);
            Recorded(d, e, p, now, o)
            && (now < d.deadline ==> (p.state == IsCompleted <==> FirstOpen(e.stages) == |e.stages| - 1 && o.workbook.Some?))
  {
    if now < d.deadline {
      var i, current := CurrentStage(d, state, e);
      FirstOpenIs(e.stages, i);
      AdvanceTakes(d, state, e, now, o, current);
      if current.operation == WorkbooksProject {
        WorkbookIsRecorded(d, state, e, i, current, o);
      } else {
        GenerationIsRecorded(d, state, e, i, current, o);
      }
    }
  }

  /** A cycle nobody interrupts is a claim followed by its checkpoint. */
  lemma CycleIsClaimThenCheckpoint(d: Definition, w: World, k: nat, now: int, free: bool, o: Outside)
    requires k !in w.workers
    ensures var w' := Step(d, Step(d, w, ClaimRun(k, now, free)), Checkpoint(k, o));
            (w'.stored, w'.stored != w.stored) == Cycle(d, w.stored, now, free, o) && w'.workers == w.workers
  {
  }
}
