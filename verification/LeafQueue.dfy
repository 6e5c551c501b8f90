/** The outbox as a queue: one statement claims the first due message, whatever stands behind it. */
module LeafQueue {
  import opened Outcomes
  import opened LeafOutbox
  import opened LeafOutboxSafety

  /** The messages in the order in which the claim statement looks at them. */
  type Queue = seq<Row>

  datatype Event =
    | ClaimFirst(due: set<nat>)
    | Works(message: nat, it: Dispatcher, answers: Answers)
    | Moves(message: nat, next: AttemptStatus)
    | Posts

  /** The first due candidate from `i` on. */
  function FirstDue(q: Queue, due: set<nat>, i: nat): (first: nat)
    requires i <= |q|
    ensures i <= first <= |q|
    ensures first < |q| ==> first in due && Candidate(q[first])
    ensures forall j :: i <= j < first ==> !(j in due && Candidate(q[j]))
    decreases |q| - i
  {
    if i == |q| || (i in due && Candidate(q[i])) then i else FirstDue(q, due, i + 1)
  }

  function Step(q: Queue, maxAttempts: nat, e: Event): Queue {
    match e
    case ClaimFirst(due) =>
      var i := FirstDue(q, due, 0);
      if i == |q| then q else q[i := ClaimNext(q[i], true).0]
    case Works(i, it, answers) => if i < |q| then q[i := Act(q[i], it, maxAttempts, answers).0] else q
    case Moves(i, next) =>
      if i < |q| && LeafOutboxSafety.Moves(q[i].attempt, next) then q[i := q[i].(attempt := next)] else q
    case Posts => q + [Posted]
  }

  function Run(q: Queue, maxAttempts: nat, events: seq<Event>): Queue
    decreases |events|
  {
    if events == [] then q else Run(Step(q, maxAttempts, events[0]), maxAttempts, events[1..])
  }

  /** Whenever a claim is tried the message `i` is due, and no candidate before it is. */
  ghost predicate StandsInFront(q: Queue, maxAttempts: nat, events: seq<Event>, i: nat)
    decreases |events|
  {
    events == []
    || ((events[0].ClaimFirst? ==> i <= |q| && FirstDue(q, events[0].due, 0) == i)
        && StandsInFront(Step(q, maxAttempts, events[0]), maxAttempts, events[1..], i))
  }

  lemma StepKeepsTheFront(q: Queue, maxAttempts: nat, e: Event, i: nat)
    requires i < |q| && BindingCheck(q[i]) && BegunWhilePending(q[i]) && q[i].message == Available
    requires e.ClaimFirst? ==> FirstDue(q, e.due, 0) == i
    ensures var after := Step(q, maxAttempts, e);
            |q| <= |after| && after[i] == q[i].(attempt := after[i].attempt) && BegunWhilePending(after[i])
            && forall j :: 0 <= j < |q| ==> after[j].claims == q[j].claims
                                            && (q[j].message == Available ==> after[j].message == Available)
  {
    match e
    case ClaimFirst(_) => ClaimFaultsIff(q[i], true);
    case Works(j, it, answers) => if j < |q| { ActShape(q[j], it, maxAttempts, answers); }
    case _ =>
  }

  /**
   * A message that began while it was pending blocks the queue: while it stands in front, no message is
   * claimed, so every message that waits, and every one posted later, keeps waiting.
   */
  lemma {:induction false} BegunWhilePendingBlocksTheQueue(q: Queue, maxAttempts: nat, events: seq<Event>, i: nat)
    requires i < |q| && BindingCheck(q[i]) && BegunWhilePending(q[i]) && q[i].message == Available
    requires StandsInFront(q, maxAttempts, events, i)
    ensures var after := Run(q, maxAttempts, events);
            |q| <= |after|
            && (forall j :: 0 <= j < |q| ==> after[j].claims == q[j].claims
                                             && (q[j].message == Available ==> after[j].message == Available))
            && (forall j :: |q| <= j < |after| ==> after[j].claims == 0 && after[j].message == Available)
    decreases |events|
  {
    if events != [] {
      StepKeepsTheFront(q, maxAttempts, events[0], i);
      var next := Step(q, maxAttempts, events[0]);
      BegunWhilePendingBlocksTheQueue(next, maxAttempts, events[1..], i);
      assert forall j :: |q| <= j < |next| ==> next[j] == Posted;
    }
  }
}
