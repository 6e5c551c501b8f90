/** When a cancelling run may settle: an exact proof that every attempt and every reservation is closed. */
module DagCancellation {
  import opened Outcomes
  import opened Amounts

  datatype AttemptState =
    | Prepared | Claimed | InFlight | Ambiguous
    | Succeeded | FailedRetryable | FailedTerminal | CancelledBeforeEffect

  datatype StepState =
    | Pending | Ready | Active | Waiting | Retryable | InDoubt | Cancelling | Completed | Failed | Cancelled | Skipped

  datatype Attempt = Attempt(
    id: string, stepRunId: string, reservationId: string, operationKey: string, unit: string, reserved: real,
    state: AttemptState)

  datatype StepRun = StepRun(id: string, active: Option<string>, state: StepState, attempts: seq<Attempt>)

  datatype Disposition = Reserved | Released | Settled(settled: real, released: real)

  datatype Reservation = Reservation(
    id: string, attemptId: string, runId: string, stepRunId: string, operationKey: string, unit: string,
    amount: real, disposition: Disposition)

  datatype Cost = Cost(unit: string, reserved: real, spent: real)

  datatype Context = Context(
    runId: string, steps: seq<StepRun>, reservations: seq<Reservation>, cost: Cost, budgetUnit: string, budgetSpent: real)

  datatype Proof = Proof(attempt: Attempt, stepRunId: string)

  datatype Violation = LedgerProofMissing

  function StepProofs(attempts: seq<Attempt>, stepRunId: string): (r: seq<Proof>)
    ensures |r| == |attempts|
    ensures forall i :: 0 <= i < |r| ==> r[i] == Proof(attempts[i], stepRunId)
  {
    seq(|attempts|, i requires 0 <= i < |attempts| => Proof(attempts[i], stepRunId))
  }

  /** Every attempt of every step, with the step that lists it. */
  function Proofs(steps: seq<StepRun>): seq<Proof> {
    if steps == [] then [] else StepProofs(steps[0].attempts, steps[0].id) + Proofs(steps[1..])
  }

  lemma {:induction false} ProofsCover(steps: seq<StepRun>, p: Proof)
    ensures p in Proofs(steps) <==> exists i :: 0 <= i < |steps| && p.attempt in steps[i].attempts && p.stepRunId == steps[i].id
  {
    if steps != [] {
      ProofsCover(steps[1..], p);
      var first := StepProofs(steps[0].attempts, steps[0].id);
      if p.attempt in steps[0].attempts && p.stepRunId == steps[0].id {
        var j :| 0 <= j < |first| && steps[0].attempts[j] == p.attempt;
        assert first[j] == p;
      }
      if i :| 0 <= i < |steps| && p.attempt in steps[i].attempts && p.stepRunId == steps[i].id && i > 0 {
        assert steps[1..][i - 1] == steps[i];
      }
      if i :| 0 <= i < |steps[1..]| && p.attempt in steps[1..][i].attempts && p.stepRunId == steps[1..][i].id {
        assert steps[i + 1] == steps[1..][i];
      }
    }
  }

  predicate Matches(c: Context, p: Proof, r: Reservation) {
    r.runId == c.runId && r.stepRunId == p.stepRunId && r.attemptId == p.attempt.id
    && r.id == p.attempt.reservationId && r.operationKey == p.attempt.operationKey
    && r.unit == p.attempt.unit && AmountsEqual(r.amount, p.attempt.reserved)
  }

  predicate ReceiptValid(r: Reservation) {
    IsAmount(r.amount)
    && (r.disposition.Settled? ==>
          IsAmount(r.disposition.released) && IsAmount(r.disposition.settled)
          && AmountsEqual(r.amount, r.disposition.released + r.disposition.settled))
  }

  function ByAttempt(rs: seq<Reservation>): (m: map<string, Reservation>)
    ensures m.Keys == Members(AttemptKeys(rs))
    ensures forall k <- m.Keys :: m[k] in rs && m[k].attemptId == k
  {
    if rs == [] then map[]
    else
      var front, last := rs[..|rs| - 1], rs[|rs| - 1];
      assert AttemptKeys(rs) == AttemptKeys(front) + [last.attemptId];
      ByAttempt(front)[last.attemptId := last]
  }

  function Members(keys: seq<string>): set<string> {
    set k <- keys
  }

  function ProofKeys(ps: seq<Proof>): (keys: seq<string>)
    ensures |keys| == |ps| && forall i :: 0 <= i < |ps| ==> keys[i] == ps[i].attempt.id
  {
    seq(|ps|, i requires 0 <= i < |ps| => ps[i].attempt.id)
  }

  function ReservationKeys(rs: seq<Reservation>): (keys: seq<string>)
    ensures |keys| == |rs| && forall i :: 0 <= i < |rs| ==> keys[i] == rs[i].id
  {
    seq(|rs|, i requires 0 <= i < |rs| => rs[i].id)
  }

  function AttemptKeys(rs: seq<Reservation>): (keys: seq<string>)
    ensures |keys| == |rs| && forall i :: 0 <= i < |rs| ==> keys[i] == rs[i].attemptId
  {
    seq(|rs|, i requires 0 <= i < |rs| => rs[i].attemptId)
  }

  /** The identity test: it compares the sizes of three sets and looks each attempt's reservation up. */
  predicate IdentityExact(c: Context) {
    var ps, rs := Proofs(c.steps), c.reservations;
    var byAttempt := ByAttempt(rs);
    |Members(ProofKeys(ps))| == |ps| && |Members(ReservationKeys(rs))| == |rs| && |byAttempt| == |rs| && |rs| == |ps|
    && forall p <- ps ::
         p.attempt.stepRunId == p.stepRunId && p.attempt.id in byAttempt
         && Matches(c, p, byAttempt[p.attempt.id]) && ReceiptValid(byAttempt[p.attempt.id])
  }

  function ReservedTotal(rs: seq<Reservation>): real {
    if rs == [] then 0.0
    else ReservedTotal(rs[..|rs| - 1]) + if rs[|rs| - 1].disposition == Reserved then rs[|rs| - 1].amount else 0.0
  }

  function SpentTotal(start: real, rs: seq<Reservation>): real {
    if rs == [] then start
    else
      SpentTotal(start, rs[..|rs| - 1])
      + if rs[|rs| - 1].disposition.Settled? then rs[|rs| - 1].disposition.settled else 0.0
  }

  predicate CostExact(c: Context) {
    c.cost.unit == c.budgetUnit && (forall r <- c.reservations :: r.unit == c.cost.unit)
    && IsAmount(c.cost.reserved) && IsAmount(c.cost.spent)
    && AmountsEqual(c.cost.reserved, ReservedTotal(c.reservations))
    && AmountsEqual(c.cost.spent, SpentTotal(c.budgetSpent, c.reservations))
  }

  predicate UnresolvedAttempt(s: AttemptState) {
    s == Ambiguous || s == Claimed || s == InFlight || s == Prepared
  }

  predicate UnresolvedStep(s: StepState) {
    s == Active || s == InDoubt || s == Cancelling
  }

  predicate NoneReserved(rs: seq<Reservation>) {
    forall r <- rs :: r.disposition != Reserved
  }

  predicate StepClosed(s: StepRun) {
    s.active.None? && !UnresolvedStep(s.state) && forall a <- s.attempts :: !UnresolvedAttempt(a.state)
  }

  function CanSettle(c: Context): Result<bool, Violation> {
    if !IdentityExact(c) || !CostExact(c) then Err(LedgerProofMissing)
    else
      Ok(AmountsEqual(c.cost.reserved, 0.0) && NoneReserved(c.reservations)
         && forall s <- c.steps :: StepClosed(s))
  }

  // ----- The size test is a bijection -----

  predicate Distinct(keys: seq<string>) {
    forall i, j :: 0 <= i < j < |keys| ==> keys[i] != keys[j]
  }

  /** Every attempt has its own matching reservation, and no reservation is left over. */
  ghost predicate Bijection(c: Context) {
    var ps, rs := Proofs(c.steps), c.reservations;
    Distinct(ProofKeys(ps)) && Distinct(ReservationKeys(rs)) && Distinct(AttemptKeys(rs))
    && (forall p <- ps :: p.attempt.stepRunId == p.stepRunId && HasReservation(c, p))
    && forall r <- rs :: HasAttempt(ps, r)
  }

  ghost predicate HasReservation(c: Context, p: Proof) {
    exists r <- c.reservations :: Matches(c, p, r) && ReceiptValid(r)
  }

  ghost predicate HasAttempt(ps: seq<Proof>, r: Reservation) {
    r.attemptId in ProofKeys(ps)
  }

  lemma {:induction false} DistinctBySize(keys: seq<string>)
    ensures |Members(keys)| <= |keys|
    ensures |Members(keys)| == |keys| <==> Distinct(keys)
  {
    if keys != [] {
      var n := |keys| - 1;
      var front, last := keys[..n], keys[n];
      DistinctBySize(front);
      assert keys == front + [last];
      assert Members(keys) == Members(front) + {last};
      if last in front {
        var i :| 0 <= i < n && front[i] == last;
        assert keys[i] == keys[n];
      } else {
        assert forall i :: 0 <= i < n ==> front[i] in front;
      }
    }
  }

  lemma SubsetOfSameSize(s: set<string>, t: set<string>)
    requires s <= t && |s| == |t|
    ensures s == t
  {
    if x :| x in t && x !in s {
      assert s + {x} <= t;
      SubsetSize(s + {x}, t);
    }
  }

  lemma {:induction false} SubsetSize(s: set<string>, t: set<string>)
    requires s <= t
    ensures |s| <= |t|
  {
    if x :| x in s {
      SubsetSize(s - {x}, t - {x});
    }
  }

  lemma SameAttemptSameRow(rs: seq<Reservation>, i: nat, j: nat)
    requires Distinct(AttemptKeys(rs)) && i < |rs| && j < |rs| && rs[i].attemptId == rs[j].attemptId
    ensures i == j
  {
    assert AttemptKeys(rs)[i] == AttemptKeys(rs)[j];
  }

  lemma ReservationOf(rs: seq<Reservation>, r: Reservation)
    requires Distinct(AttemptKeys(rs)) && r in rs
    ensures r.attemptId in ByAttempt(rs) && ByAttempt(rs)[r.attemptId] == r
  {
    var i :| 0 <= i < |rs| && rs[i] == r;
    assert AttemptKeys(rs)[i] == r.attemptId;
    assert r.attemptId in ByAttempt(rs).Keys;
    var found := ByAttempt(rs)[r.attemptId];
    var j :| 0 <= j < |rs| && rs[j] == found;
    SameAttemptSameRow(rs, i, j);
  }

  lemma ExactIsBijection(c: Context)
    requires IdentityExact(c)
    ensures Bijection(c)
  {
    var ps, rs := Proofs(c.steps), c.reservations;
    var byAttempt := ByAttempt(rs);
    DistinctBySize(ProofKeys(ps));
    DistinctBySize(ReservationKeys(rs));
    DistinctBySize(AttemptKeys(rs));
    assert |byAttempt| == |byAttempt.Keys|;
    forall k | k in Members(ProofKeys(ps)) ensures k in byAttempt.Keys {
      var i :| 0 <= i < |ps| && ProofKeys(ps)[i] == k;
      assert ps[i] in ps;
    }
    SubsetOfSameSize(Members(ProofKeys(ps)), byAttempt.Keys);
    forall r | r in rs ensures HasAttempt(ps, r) {
      ReservationOf(rs, r);
    }
    forall p | p in ps ensures HasReservation(c, p) {
      assert byAttempt[p.attempt.id] in rs;
    }
  }

  lemma SameKeys(c: Context)
    requires Bijection(c)
    ensures Members(ProofKeys(Proofs(c.steps))) == ByAttempt(c.reservations).Keys
  {
    var ps, rs := Proofs(c.steps), c.reservations;
    forall k | k in Members(ProofKeys(ps)) ensures k in ByAttempt(rs).Keys {
      var i :| 0 <= i < |ps| && ProofKeys(ps)[i] == k;
      PairedReservation(c, ps[i]);
    }
    forall k | k in ByAttempt(rs).Keys ensures k in Members(ProofKeys(ps)) {
      assert HasAttempt(ps, ByAttempt(rs)[k]);
    }
  }

  lemma PairedReservation(c: Context, p: Proof)
    requires Bijection(c) && p in Proofs(c.steps)
    ensures p.attempt.id in ByAttempt(c.reservations)
    ensures Matches(c, p, ByAttempt(c.reservations)[p.attempt.id])
            && ReceiptValid(ByAttempt(c.reservations)[p.attempt.id])
  {
    assert HasReservation(c, p);
    var r :| r in c.reservations && Matches(c, p, r) && ReceiptValid(r);
    ReservationOf(c.reservations, r);
  }

  lemma BijectionIsExact(c: Context)
    requires Bijection(c)
    ensures IdentityExact(c)
  {
    var ps, rs := Proofs(c.steps), c.reservations;
    DistinctBySize(ProofKeys(ps));
    DistinctBySize(ReservationKeys(rs));
    DistinctBySize(AttemptKeys(rs));
    SameKeys(c);
    assert |ByAttempt(rs)| == |ByAttempt(rs).Keys|;
    forall p | p in ps
      ensures p.attempt.id in ByAttempt(rs) && Matches(c, p, ByAttempt(rs)[p.attempt.id])
              && ReceiptValid(ByAttempt(rs)[p.attempt.id])
    {
      PairedReservation(c, p);
    }
  }

  /** The comparison of set sizes holds exactly when attempts and reservations are in bijection. */
  lemma IdentityIffBijection(c: Context)
    ensures IdentityExact(c) <==> Bijection(c)
  {
    if IdentityExact(c) { ExactIsBijection(c); }
    if Bijection(c) { BijectionIsExact(c); }
  }

  // ----- Money -----

  function AmountTotal(rs: seq<Reservation>): real {
    if rs == [] then 0.0 else AmountTotal(rs[..|rs| - 1]) + rs[|rs| - 1].amount
  }

  function ReleasedBy(r: Reservation): real {
    match r.disposition
    case Reserved => 0.0
    case Released => r.amount
    case Settled(_, released) => released
  }

  function ReleasedTotal(rs: seq<Reservation>): real {
    if rs == [] then 0.0 else ReleasedTotal(rs[..|rs| - 1]) + ReleasedBy(rs[|rs| - 1])
  }

  /** The rounding each settlement receipt may hide. */
  function Slack(rs: seq<Reservation>): real {
    if rs == [] then 0.0
    else
      var r := rs[|rs| - 1];
      Slack(rs[..|rs| - 1])
      + if r.disposition.Settled? then Tolerance(r.amount, r.disposition.released + r.disposition.settled) else 0.0
  }

  lemma {:induction false} MoneyAddsUp(rs: seq<Reservation>, start: real)
    requires forall r <- rs :: ReceiptValid(r)
    ensures Abs(AmountTotal(rs) + start - (ReservedTotal(rs) + ReleasedTotal(rs) + SpentTotal(start, rs))) <= Slack(rs)
  {
    if rs != [] {
      assert rs[|rs| - 1] in rs;
      MoneyAddsUp(rs[..|rs| - 1], start);
    }
  }

  lemma ReceiptOf(c: Context, r: Reservation)
    requires Bijection(c) && r in c.reservations
    ensures ReceiptValid(r)
  {
    var ps := Proofs(c.steps);
    assert HasAttempt(ps, r);
    var i :| 0 <= i < |ps| && ProofKeys(ps)[i] == r.attemptId;
    assert ps[i] in ps && HasReservation(c, ps[i]);
    var own :| own in c.reservations && Matches(c, ps[i], own) && ReceiptValid(own);
    ReservationOf(c.reservations, own);
    ReservationOf(c.reservations, r);
  }

  lemma ReceiptsAddUp(c: Context)
    requires Bijection(c)
    ensures Abs(AmountTotal(c.reservations) + c.budgetSpent
                - (ReservedTotal(c.reservations) + ReleasedTotal(c.reservations)
                   + SpentTotal(c.budgetSpent, c.reservations))) <= Slack(c.reservations)
  {
    forall r | r in c.reservations ensures ReceiptValid(r) {
      ReceiptOf(c, r);
    }
    MoneyAddsUp(c.reservations, c.budgetSpent);
  }

  lemma {:induction false} NothingReserved(rs: seq<Reservation>)
    requires NoneReserved(rs)
    ensures ReservedTotal(rs) == 0.0
  {
    if rs != [] {
      assert rs[|rs| - 1] in rs;
      NothingReserved(rs[..|rs| - 1]);
    }
  }

  /** No attempt of the run is open. */
  predicate AttemptsClosed(c: Context) {
    forall p <- Proofs(c.steps) :: !UnresolvedAttempt(p.attempt.state)
  }

  predicate StepsIdle(c: Context) {
    forall s <- c.steps :: s.active.None? && !UnresolvedStep(s.state)
  }

  lemma ClosedByAttempts(c: Context)
    ensures (forall s <- c.steps :: StepClosed(s)) <==> StepsIdle(c) && AttemptsClosed(c)
  {
    if AttemptsClosed(c) && StepsIdle(c) {
      forall s | s in c.steps ensures StepClosed(s) {
        forall a | a in s.attempts ensures !UnresolvedAttempt(a.state) {
          ProofsCover(c.steps, Proof(a, s.id));
          assert Proof(a, s.id) in Proofs(c.steps);
        }
      }
    }
    if forall s <- c.steps :: StepClosed(s) {
      forall p | p in Proofs(c.steps) ensures !UnresolvedAttempt(p.attempt.state) {
        ProofsCover(c.steps, p);
        var i :| 0 <= i < |c.steps| && p.attempt in c.steps[i].attempts && p.stepRunId == c.steps[i].id;
        assert StepClosed(c.steps[i]);
      }
    }
  }

  /** An attempt of a step that has concluded, and the reservation that is its own. */
  predicate OwnReservation(c: Context, s: StepRun, a: Attempt, r: Reservation) {
    r.attemptId == a.id && r.id == a.reservationId && r.runId == c.runId && r.stepRunId == s.id
    && r.operationKey == a.operationKey && r.unit == a.unit && AmountsEqual(r.amount, a.reserved) && r.amount >= 0.0
    && match r.disposition
       case Reserved => false
       case Released => true
       case Settled(spent, released) => spent >= 0.0 && released >= 0.0 && AmountsEqual(r.amount, released + spent)
  }

  predicate HasConcluded(a: Attempt) {
    a.state == Succeeded || a.state == FailedRetryable || a.state == FailedTerminal || a.state == CancelledBeforeEffect
  }

  predicate IsAtRest(s: StepRun) {
    s.active.None?
    && (s.state == Pending || s.state == Ready || s.state == Waiting || s.state == Retryable || s.state == Completed
        || s.state == StepState.Failed || s.state == Cancelled || s.state == Skipped)
  }

  ghost predicate IsReserved(c: Context, s: StepRun, a: Attempt) {
    exists r <- c.reservations :: OwnReservation(c, s, a, r)
  }

  ghost predicate IsSomeAttempts(c: Context, r: Reservation) {
    exists s <- c.steps :: exists a <- s.attempts :: a.id == r.attemptId
  }

  /** Every attempt has concluded and has a reservation of its own. */
  ghost predicate AttemptsReserved(c: Context) {
    forall s <- c.steps :: forall a <- s.attempts :: a.stepRunId == s.id && HasConcluded(a) && IsReserved(c, s, a)
  }

  /** Every reservation is closed and belongs to some attempt. */
  ghost predicate ReservationsOwned(c: Context) {
    forall r <- c.reservations :: r.disposition != Reserved && IsSomeAttempts(c, r)
  }

  predicate NoneTwice(c: Context) {
    Distinct(ProofKeys(Proofs(c.steps)))
    && forall i, j :: 0 <= i < j < |c.reservations| ==>
         c.reservations[i].id != c.reservations[j].id && c.reservations[i].attemptId != c.reservations[j].attemptId
  }

  /** Every step is at rest, and attempts and closed reservations belong to one another, each once. */
  ghost predicate AllAccountedFor(c: Context) {
    (forall s <- c.steps :: IsAtRest(s)) && AttemptsReserved(c) && ReservationsOwned(c) && NoneTwice(c)
  }

  /** The recorded cost is in the unit of the budget, with nothing reserved and what was settled on top of the rest. */
  predicate CostAgrees(c: Context) {
    c.cost.unit == c.budgetUnit && (forall r <- c.reservations :: r.unit == c.budgetUnit)
    && AmountsEqual(c.cost.reserved, 0.0) && AmountsEqual(c.cost.spent, SpentTotal(c.budgetSpent, c.reservations))
  }

  lemma ProofOfAttempt(c: Context, s: StepRun, a: Attempt)
    requires s in c.steps && a in s.attempts
    ensures Proof(a, s.id) in Proofs(c.steps)
  {
    ProofsCover(c.steps, Proof(a, s.id));
  }

  lemma AttemptOfProof(c: Context, p: Proof) returns (s: StepRun)
    requires p in Proofs(c.steps)
    ensures s in c.steps && p.attempt in s.attempts && p.stepRunId == s.id
  {
    ProofsCover(c.steps, p);
    var i :| 0 <= i < |c.steps| && p.attempt in c.steps[i].attempts && p.stepRunId == c.steps[i].id;
    s := c.steps[i];
  }

  lemma DistinctReservations(c: Context)
    ensures Distinct(ReservationKeys(c.reservations)) && Distinct(AttemptKeys(c.reservations))
            <==> forall i, j :: 0 <= i < j < |c.reservations| ==>
                   c.reservations[i].id != c.reservations[j].id && c.reservations[i].attemptId != c.reservations[j].attemptId
  {
  }

  lemma OwnMatches(c: Context, s: StepRun, p: Proof, r: Reservation)
    requires OwnReservation(c, s, p.attempt, r) && p.stepRunId == s.id
    ensures Matches(c, p, r) && ReceiptValid(r)
  {
  }

  lemma AccountedProof(c: Context, p: Proof)
    requires AttemptsReserved(c) && p in Proofs(c.steps)
    ensures p.attempt.stepRunId == p.stepRunId && HasReservation(c, p) && !UnresolvedAttempt(p.attempt.state)
  {
    var s := AttemptOfProof(c, p);
    assert IsReserved(c, s, p.attempt);
    var r :| r in c.reservations && OwnReservation(c, s, p.attempt, r);
    OwnMatches(c, s, p, r);
  }

  lemma AccountedReservation(c: Context, r: Reservation)
    requires ReservationsOwned(c) && r in c.reservations
    ensures HasAttempt(Proofs(c.steps), r)
  {
    var ps := Proofs(c.steps);
    assert IsSomeAttempts(c, r);
    var s :| s in c.steps && exists a <- s.attempts :: a.id == r.attemptId;
    var a :| a in s.attempts && a.id == r.attemptId;
    ProofOfAttempt(c, s, a);
    var i :| 0 <= i < |ps| && ps[i] == Proof(a, s.id);
    assert ProofKeys(ps)[i] == r.attemptId;
  }

  lemma AccountedIsExact(c: Context)
    requires AllAccountedFor(c)
    ensures Bijection(c) && NoneReserved(c.reservations) && AttemptsClosed(c) && StepsIdle(c)
  {
    var ps := Proofs(c.steps);
    DistinctReservations(c);
    forall p | p in ps ensures p.attempt.stepRunId == p.stepRunId && HasReservation(c, p) && !UnresolvedAttempt(p.attempt.state) {
      AccountedProof(c, p);
    }
    forall r | r in c.reservations ensures HasAttempt(ps, r) {
      AccountedReservation(c, r);
    }
    forall s | s in c.steps ensures s.active.None? && !UnresolvedStep(s.state) { assert IsAtRest(s); }
  }

  lemma ExactReserves(c: Context)
    requires Bijection(c) && NoneReserved(c.reservations) && AttemptsClosed(c)
    ensures AttemptsReserved(c)
  {
    forall s, a | s in c.steps && a in s.attempts ensures a.stepRunId == s.id && HasConcluded(a) && IsReserved(c, s, a) {
      ProofOfAttempt(c, s, a);
      var p := Proof(a, s.id);
      assert HasReservation(c, p);
      var r :| r in c.reservations && Matches(c, p, r) && ReceiptValid(r);
      assert OwnReservation(c, s, a, r);
    }
  }

  lemma ExactOwns(c: Context)
    requires Bijection(c) && NoneReserved(c.reservations)
    ensures ReservationsOwned(c)
  {
    var ps := Proofs(c.steps);
    forall r | r in c.reservations ensures IsSomeAttempts(c, r) {
      assert HasAttempt(ps, r);
      var i :| 0 <= i < |ps| && ProofKeys(ps)[i] == r.attemptId;
      var s := AttemptOfProof(c, ps[i]);
      assert ps[i].attempt in s.attempts && ps[i].attempt.id == r.attemptId;
    }
  }

  lemma ExactIsAccounted(c: Context)
    requires Bijection(c) && NoneReserved(c.reservations) && AttemptsClosed(c) && StepsIdle(c)
    ensures AllAccountedFor(c)
  {
    DistinctReservations(c);
    ExactReserves(c);
    ExactOwns(c);
  }

  lemma SettlesByLedger(c: Context)
    ensures CanSettle(c) == Ok(true)
       <==> Bijection(c) && CostExact(c) && NoneReserved(c.reservations) && AttemptsClosed(c) && StepsIdle(c)
    ensures CanSettle(c).Err? <==> !(Bijection(c) && CostExact(c))
  {
    IdentityIffBijection(c);
    ClosedByAttempts(c);
    if NoneReserved(c.reservations) {
      NothingReserved(c.reservations);
    }
  }

  lemma CostAgreesIff(c: Context)
    requires NoneReserved(c.reservations)
    ensures CostExact(c) <==> CostAgrees(c)
  {
    NothingReserved(c.reservations);
  }

  /**
   * A cancelling run may settle exactly when every step is at rest, every attempt has concluded and pairs with one
   * closed reservation of its own, no reservation is left over, and the recorded cost agrees with them.
   */
  lemma SettlesIff(c: Context)
    ensures CanSettle(c) == Ok(true) <==> AllAccountedFor(c) && CostAgrees(c)
    ensures CanSettle(c).Err? <==> !(Bijection(c) && CostExact(c))
  {
    SettlesByLedger(c);
    if AllAccountedFor(c) {
      AccountedIsExact(c);
      CostAgreesIff(c);
    }
    if CanSettle(c) == Ok(true) {
      ExactIsAccounted(c);
      CostAgreesIff(c);
    }
  }

  /**
   * When a cancelling run may settle, its attempts and reservations pair up, and what was reserved
   * equals what was released and spent, up to the rounding of the receipts.
   */
  lemma SettlementAccountsForMoney(c: Context)
    requires Bijection(c) && CostExact(c) && NoneReserved(c.reservations)
    ensures ReservedTotal(c.reservations) == 0.0
    ensures Abs(AmountTotal(c.reservations) - (ReleasedTotal(c.reservations)
                + (SpentTotal(c.budgetSpent, c.reservations) - c.budgetSpent))) <= Slack(c.reservations)
    ensures AmountsEqual(c.cost.spent, SpentTotal(c.budgetSpent, c.reservations))
  {
    NothingReserved(c.reservations);
    ReceiptsAddUp(c);
  }
}
