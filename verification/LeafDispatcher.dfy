/** The dispatcher as the program runs it: a stored row updated in place, one port call after another. */
module LeafDispatcher {
  import opened Outcomes
  import opened LeafOutbox
  import LeafOutboxSafety
  import LeafOutboxAnswers

  /** The stored message and binding behind the outbox port. */
  class StoredRow {
    var row: Row

    /** What the binding check and the updates guarantee of every stored row. */
    ghost predicate Valid()
      reads this
    {
      Reachable(row)
    }

    constructor ()
      ensures Valid() && row == Posted
    {
      row := Posted;
    }

    method Claim(available: bool) returns (answer: ClaimAnswer)
      requires Valid()
      modifies this
      ensures Valid() && (row, answer) == ClaimNext(old(row), available)
      ensures answer == Faulted <==> available && BegunWhilePending(old(row))
    {
      ClaimFaultsIff(row, available);
      var next := ClaimNext(row, available);
      row := next.0;
      answer := next.1;
    }

    method Update(next: (Row, bool)) returns (applied: bool)
      modifies this
      ensures (row, applied) == next
    {
      row := next.0;
      applied := next.1;
    }
  }

  predicate IsKey(s: string) {
    s != "" && !IsWhite(s[0]) && !IsWhite(s[|s| - 1])
  }

  predicate Distinct(keys: seq<string>) {
    forall i, j :: 0 <= i < j < |keys| ==> keys[i] != keys[j]
  }

  /** The effect adapters a dispatcher offers; refused unless they are distinct, trimmed and at least one. */
  method EffectKeys(keys: seq<string>) returns (r: Option<set<string>>)
    ensures r.Some? <==> keys != [] && Distinct(keys) && forall k <- keys :: IsKey(k)
    ensures r.Some? ==> r.value == set k | k in keys
  {
    var offered: set<string> := {};
    var i := 0;
    while i < |keys|
      invariant 0 <= i <= |keys|
      invariant offered == set k | k in keys[..i]
      invariant Distinct(keys[..i]) && forall k <- keys[..i] :: IsKey(k)
    {
      if !IsKey(keys[i]) || keys[i] in offered {
        assert keys[i] in keys;
        return None;
      }
      offered := offered + {keys[i]};
      assert keys[..i + 1] == keys[..i] + [keys[i]];
      i := i + 1;
    }
    assert keys[..i] == keys;
    assert keys != [] ==> keys[0] in offered;
    return if offered == {} then None else Some(offered);
  }

  class DispatchNextLeafOutbox {
    const adapterKey: string
    const maxAttempts: nat
    const available: set<string>
    const stored: StoredRow

    constructor (adapterKey: string, maxAttempts: nat, available: set<string>, stored: StoredRow)
      ensures this.adapterKey == adapterKey && this.maxAttempts == maxAttempts
      ensures this.available == available && this.stored == stored
    {
      this.adapterKey := adapterKey;
      this.maxAttempts := maxAttempts;
      this.available := available;
      this.stored := stored;
    }

    ghost function At(claim: nat, pc: Pc): Dispatcher {
      Dispatcher(claim, adapterKey, pc)
    }

    method Schedule(claim: nat, answers: Answers) returns (result: CycleResult)
      modifies stored
      ensures (stored.row, result)
           == Finish(old(stored.row), At(claim, ScheduleReconciliation(claim, maxAttempts)), maxAttempts, answers)
    {
      if claim >= maxAttempts {
        var buried := stored.Update(Bury(stored.row, claim));
        return if buried then WasDeadLettered else ClaimLost;
      }
      var scheduled := stored.Update(RequireReconciliation(stored.row, claim));
      return if scheduled then ReconciliationScheduled else ClaimLost;
    }

    method CloseAndReject(claim: nat, answers: Answers) returns (result: CycleResult)
      modifies stored
      ensures (stored.row, result) == Finish(old(stored.row), At(claim, CloseThenReject), maxAttempts, answers)
    {
      NextCall(stored.row, At(claim, CloseThenReject), maxAttempts, answers);
      var closed := stored.Update(CloseAttempt(stored.row, answers.closes));
      if !closed {
        result := Schedule(claim, answers);
        return;
      }
      NextCall(stored.row, At(claim, RecordRejected), maxAttempts, answers);
      var rejected := stored.Update(Reject(stored.row, claim));
      return if rejected then WasRejected else ClaimLost;
    }

    method ReturnToPending(claim: nat, answers: Answers) returns (result: CycleResult)
      modifies stored
      ensures (stored.row, result) == Finish(old(stored.row), At(claim, RetryLater(claim, maxAttempts)), maxAttempts, answers)
    {
      if claim >= maxAttempts {
        result := CloseAndReject(claim, answers);
        return;
      }
      var reset := stored.Update(Reset(stored.row, claim));
      return if reset then RetryScheduled else ClaimLost;
    }

    method Reconcile(claim: nat, answers: Answers) returns (result: CycleResult)
      modifies stored
      ensures (stored.row, result) == Finish(old(stored.row), At(claim, Find), maxAttempts, answers)
      ensures Holds(old(stored.row), claim) && Open(old(stored.row)) && old(stored.row).adapter == Some(adapterKey) ==>
                (result == WasDispatched <==> answers.find == Found)
                && (answers.find == Found ==> stored.row == old(stored.row).(message := Dispatched, binding := Started))
                && (answers.find == FindUnknown && claim < maxAttempts ==>
                      stored.row == old(stored.row).(message := Available, binding := ReconciliationRequired))
    {
      ghost var before := stored.row;
      if Holds(before, claim) && Open(before) && before.adapter == Some(adapterKey) {
        LeafOutboxAnswers.FindEnds(before, adapterKey, maxAttempts, answers);
      }
      NextCall(stored.row, At(claim, Find), maxAttempts, answers);
      NextCall(stored.row, At(claim, RecordStarted), maxAttempts, answers);
      match answers.find {
        case Found =>
          var started := stored.Update(RecordStartedBy(stored.row, claim, adapterKey));
          result := if started then WasDispatched else ClaimLost;
        case NotFound => result := ReturnToPending(claim, answers);
        case FindUnknown => result := Schedule(claim, answers);
      }
    }

    method DispatchPending(claim: nat, answers: Answers) returns (result: CycleResult)
      modifies stored
      ensures (stored.row, result) == Finish(old(stored.row), At(claim, MarkStarting), maxAttempts, answers)
      ensures Holds(old(stored.row), claim) && old(stored.row).binding == NotStarted && old(stored.row).attempt == Waiting ==>
                (result == WasDispatched <==> answers.start == Accepted || answers.start == AlreadyStarted)
                && (result == WasDispatched ==> stored.row == Row(Dispatched, claim, Started, Some(adapterKey), Waiting))
                && (answers.start == StartUnknown && claim < maxAttempts ==>
                      stored.row == Row(Available, claim, ReconciliationRequired, Some(adapterKey), Waiting))
    {
      ghost var before := stored.row;
      if Holds(before, claim) && before.binding == NotStarted && before.attempt == Waiting {
        LeafOutboxAnswers.StartEnds(before, adapterKey, maxAttempts, answers);
      }
      NextCall(stored.row, At(claim, MarkStarting), maxAttempts, answers);
      var starting := stored.Update(MarkStartingAs(stored.row, claim, adapterKey));
      if !starting {
        return ClaimLost;
      }
      NextCall(stored.row, At(claim, Start), maxAttempts, answers);
      NextCall(stored.row, At(claim, RecordStarted), maxAttempts, answers);
      match answers.start {
        case Accepted =>
          var started := stored.Update(RecordStartedBy(stored.row, claim, adapterKey));
          result := if started then WasDispatched else ClaimLost;
        case AlreadyStarted =>
          var started := stored.Update(RecordStartedBy(stored.row, claim, adapterKey));
          result := if started then WasDispatched else ClaimLost;
        case StartUnknown => result := Schedule(claim, answers);
        case DefinitelyRejected(true) => result := ReturnToPending(claim, answers);
        case DefinitelyRejected(false) => result := CloseAndReject(claim, answers);
      }
    }

    /**
     * One cycle nobody interrupts. Under the last claim it settles the message, unless the claim
     * statement fails on a pending binding whose effect has begun.
     */
    method DispatchNext(effectAdapterKey: string, answers: Answers) returns (result: CycleEnd)
      requires stored.Valid()
      modifies stored
      ensures stored.Valid()
      ensures (stored.row, result)
           == Cycle(old(stored.row), adapterKey, effectAdapterKey in available, maxAttempts, answers)
      ensures old(stored.row).claims + 1 >= maxAttempts ==>
                (Settled(stored.row) <==> !BegunWhilePending(old(stored.row)))
      ensures result == Ended(WasDispatched) <==>
                !Settled(old(stored.row))
                && LeafOutboxAnswers.Begins(old(stored.row), adapterKey, effectAdapterKey in available, answers)
      ensures result == Ended(WasDispatched) ==>
                stored.row == old(stored.row).(message := Dispatched, claims := old(stored.row).claims + 1,
                                               binding := Started, adapter := Some(adapterKey))
      ensures !Settled(old(stored.row)) && old(stored.row).claims + 1 < maxAttempts
              && LeafOutboxAnswers.LeavesDoubt(old(stored.row), adapterKey, effectAdapterKey in available, answers) ==>
                result == Ended(ReconciliationScheduled)
                && stored.row == old(stored.row).(message := Available, claims := old(stored.row).claims + 1,
                                                  binding := ReconciliationRequired, adapter := Some(adapterKey))
    {
      ghost var before := stored.row;
      if before.claims + 1 >= maxAttempts {
        LastCycleSettlesIff(before, adapterKey, effectAdapterKey in available, maxAttempts, answers);
      }
      LeafOutboxAnswers.CycleDispatchesIff(before, adapterKey, effectAdapterKey in available, maxAttempts, answers);
      LeafOutboxSafety.CycleKeepsReachable(before, adapterKey, effectAdapterKey in available, maxAttempts, answers);
      var answer := stored.Claim(true);
      if answer != Granted {
        return if answer == Faulted then ClaimFault else Idle;
      }
      var last := DispatchClaimed(effectAdapterKey in available, answers);
      return Ended(last);
    }

    /** What a claimed message is put through. */
    method DispatchClaimed(effectAvailable: bool, answers: Answers) returns (last: CycleResult)
      modifies stored
      ensures var row := old(stored.row);
              (stored.row, last)
              == Finish(row, At(row.claims, AfterClaim(row, adapterKey, effectAvailable)), maxAttempts, answers)
    {
      var claim := stored.row.claims;
      if stored.row.binding == NotStarted && !effectAvailable {
        NextCall(stored.row, At(claim, CloseUnavailable), maxAttempts, answers);
        var closed := stored.Update(CloseAttempt(stored.row, answers.closes));
        NextCall(stored.row, At(claim, MarkDeadLetter), maxAttempts, answers);
        if !closed {
          last := Schedule(claim, answers);
        } else {
          var buried := stored.Update(Bury(stored.row, claim));
          last := if buried then WasDeadLettered else ClaimLost;
        }
      } else if stored.row.binding == ReconciliationExhausted {
        NextCall(stored.row, At(claim, MarkDeadLetter), maxAttempts, answers);
        var buried := stored.Update(Bury(stored.row, claim));
        last := if buried then WasDeadLettered else ClaimLost;
      } else if stored.row.binding != NotStarted {
        if stored.row.adapter.Some? && stored.row.adapter.value != adapterKey {
          NextCall(stored.row, At(claim, MarkDeadLetter), maxAttempts, answers);
          var buried := stored.Update(Bury(stored.row, claim));
          last := if buried then WasDeadLettered else ClaimLost;
        } else {
          last := Reconcile(claim, answers);
        }
      } else {
        last := DispatchPending(claim, answers);
      }
    }
  }
}
