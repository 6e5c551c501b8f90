/** The version of a step counts what was written to it, so no two writers can build on the same version. */
module LeafVersions {
  import opened Outcomes
  import opened Amounts
  import opened LeafStep
  import opened LeafExecution
  import opened LeafSafety

  /** One version for each journaled command and each claimed attempt. */
  ghost predicate Counted(d: Durable) {
    d.step.version == |d.journal| + |d.step.attempts|
  }

  lemma PlanCounts(step: StepRun, id: AttemptId, c: Command, retry: bool)
    ensures var next := PlanTransition(step, id, c, retry);
            next.Some? ==> next.value.version == step.version + 1 && |next.value.attempts| == |step.attempts|
  {
  }

  /** A transaction that writes anything adds exactly one command to the journal and one to the version. */
  lemma TransactionCounts(plan: Plan, d: Durable, input: Input, parentAllows: bool)
    ensures var d' := Transact(plan, d, input, parentAllows).0;
            d' != d ==>
              input.version == d.step.version && d'.step.version == d.step.version + 1
              && input.key !in d.journal && d'.journal == d.journal[input.key := Journaled(input.attempt, input.command)]
              && |d'.journal| == |d.journal| + 1 && |d'.step.attempts| == |d.step.attempts|
  {
    PlanCounts(d.step, input.attempt, input.command, RetryAuthorized(plan, d));
  }

  /** An attempt is claimed exactly on a ready step with a fresh identifier, and it reserves what was asked. */
  lemma ClaimedIff(d: Durable, id: AttemptId, reserved: real, unit: string)
    ensures var d' := ClaimAttempt(d, id, reserved, unit);
            (d' != d <==>
               d.step.state == Ready && d.step.active.None? && !Blank(unit) && reserved >= 0.0
               && (forall a <- d.step.attempts :: a.id != id) && id !in d.ledger)
            && (d' != d ==>
                  d'.step.state == Active && d'.step.active == Some(id) && d'.step.version == d.step.version + 1
                  && d'.step.attempts == d.step.attempts + [Attempt(id, reserved, unit, Claimed, false, None)]
                  && d'.ledger == d.ledger[id := Reserved] && d'.journal == d.journal)
  {
    if a :| a in d.step.attempts && a.id == id {
      assert Find(d.step.attempts, id).Some?;
    }
  }

  lemma StepCounts(plan: Plan, w: World, e: Event)
    requires Counted(w.durable)
    ensures var d' := Step(plan, w, e).durable;
            Counted(d') && w.durable.step.version <= d'.step.version && |w.durable.journal| <= |d'.journal|
            && (d'.step != w.durable.step ==> w.durable.step.version < d'.step.version)
  {
    match e
    case Transaction(k, parentAllows) =>
      if k in w.workers && w.workers[k].pc.Submit? {
        TransactionCounts(plan, w.durable, w.workers[k].pc.input, parentAllows);
      }
    case _ =>
  }

  /** In every run the version of the step is the number of its commands and attempts, and it never goes back. */
  lemma {:induction false} VersionCounts(plan: Plan, w: World, events: seq<Event>)
    requires Counted(w.durable)
    ensures Counted(Run(plan, w, events).durable)
    ensures w.durable.step.version <= Run(plan, w, events).durable.step.version
    decreases |events|
  {
    if events != [] {
      StepCounts(plan, w, events[0]);
      VersionCounts(plan, Step(plan, w, events[0]), events[1..]);
    }
  }

  /** After a write on some version, another command on that version is refused, whatever happens in between. */
  lemma OneWriterPerVersion(plan: Plan, events: seq<Event>, k: nat, parentAllows: bool, later: seq<Event>, other: Input)
    requires var w := Run(plan, Initial, events);
             k in w.workers && w.workers[k].pc.Submit? && w.workers[k].pc.input.version == other.version
             && Step(plan, w, Transaction(k, parentAllows)).durable != w.durable
    ensures var t := Run(plan, Step(plan, Run(plan, Initial, events), Transaction(k, parentAllows)), later).durable;
            forall allows :: Transact(plan, t, other, allows).0 == t
                             && (other.key !in t.journal ==> Transact(plan, t, other, allows).1.Rejected?)
  {
    VersionCounts(plan, Initial, events);
    var w := Run(plan, Initial, events);
    TransactionCounts(plan, w.durable, w.workers[k].pc.input, parentAllows);
    StepCounts(plan, w, Transaction(k, parentAllows));
    VersionCounts(plan, Step(plan, w, Transaction(k, parentAllows)), later);
    var t := Run(plan, Step(plan, w, Transaction(k, parentAllows)), later).durable;
    forall allows ensures Transact(plan, t, other, allows).0 == t { TransactionCounts(plan, t, other, allows); }
  }
}
