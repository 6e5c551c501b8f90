/** The stored play run and the scheduler cycle that moves it. */
module PlayStore {
  import opened Outcomes
  import opened PlayCompiler
  import opened PlayRunner
  import opened PlaySafety

  /** What the scheduler writes back is sound, keeps what was completed, and is what was reported. */
  lemma CheckpointKeeps(d: Definition, state: RunState, e: Execution, now: int, o: Outside, p: Progress)
    requires Sound(d, state, e) && (state == IsQueued || state == IsRunning) && p == Advance(d, state, e, now, o)
    ensures Sound(d, p.state, p.execution) && Recorded(d, e, p, now, o) && e.provenance <= p.execution.provenance
    ensures forall i :: 0 <= i < |e.stages| && e.stages[i].state == Completed
                        ==> i < |p.execution.stages| && p.execution.stages[i] == e.stages[i]
    ensures p.state != IsFailed ==> p.execution.calls <= d.maxProviderCalls && p.execution.spent <= d.budgetLimit
  {
    AdvanceKeepsSound(d, state, e, now, o);
    OneStagePerCheckpoint(d, state, e, now, o);
  }

  class PlayRuns {
    var state: RunState
    var execution: Execution
    var revision: nat
    var claims: nat
    var claimed: bool

    const d: Definition

    /** Stages in order, totals that are sums, caps kept unless the run failed. */
    predicate Valid()
      reads this
    {
      Sound(d, state, execution)
    }

    constructor (d: Definition)
      requires d.budgetLimit >= 0.0
      ensures this.d == d && Valid() && Row() == Start(d).stored
    {
      this.d := d;
      state, execution := IsQueued, InitialExecution(d);
      revision, claims, claimed := 1, 0, false;
      new;
      StartIsSafe(d);
    }

    function Row(): Stored
      reads this
    {
      Stored(state, execution, revision, claims, claimed)
    }

    method ClaimNext(free: bool) returns (token: Option<nat>)
      modifies this
      ensures token.Some? <==> free && (old(state) == IsQueued || old(state) == IsRunning)
      ensures Row() == if token.Some? then old(Row()).(claims := old(claims) + 1, claimed := true) else old(Row())
      ensures token.Some? ==> token.value == claims
    {
      if !free || (state != IsQueued && state != IsRunning) {
        return None;
      }
      claims, claimed := claims + 1, true;
      return Some(claims);
    }

    /** Compare-and-set on the revision and the claim token. */
    method Update(token: nat, expected: nat, p: Progress) returns (updated: bool)
      modifies this
      ensures updated <==> old(claimed) && old(claims) == token && old(revision) == expected
      ensures Row() == if updated then Stored(p.state, p.execution, expected + 1, token, false) else old(Row())
    {
      if !claimed || claims != token || revision != expected {
        return false;
      }
      state, execution, revision, claimed := p.state, p.execution, revision + 1, false;
      return true;
    }

    /** One scheduler cycle: what is written back is sound, and continues what was there. */
    method AdvanceNext(now: int, free: bool, o: Outside) returns (updated: bool)
      requires Valid()
      modifies this
      ensures Valid()
      ensures (Row(), updated) == Cycle(d, old(Row()), now, free, o)
      ensures old(execution).provenance <= execution.provenance
      ensures forall i :: 0 <= i < |old(execution).stages| && old(execution).stages[i].state == Completed
                          ==> i < |execution.stages| && execution.stages[i] == old(execution).stages[i]
      ensures updated <==> free && (old(state) == IsQueued || old(state) == IsRunning)
      ensures updated ==> Recorded(d, old(execution), Progress(state, execution), now, o)
      ensures state != IsFailed ==> execution.calls <= d.maxProviderCalls && execution.spent <= d.budgetLimit
    {
      var token := ClaimNext(free);
      if token.None? {
        return false;
      }
      var read := revision;
      var progress := Advance(d, state, execution, now, o);
      CheckpointKeeps(d, state, execution, now, o, progress);
      updated := Update(token.value, read, progress);
      assert Progress(state, execution) == progress;
    }
  }
}
