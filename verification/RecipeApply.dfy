/** Applying a recipe to every record of its graph, one transaction per cell. */
module RecipeApply {
  import opened Outcomes
  import opened RecipeCells
  import opened RecipeCellsSafety

  datatype Counts = Counts(active: nat, bound: nat, cached: nat, createdRun: nat, total: nat)

  function Count(c: Counts, a: Answer): Counts
    requires Applied(a)
  {
    match a
    case IsActive(_) => c.(active := c.active + 1)
    case IsBound(_) => c.(bound := c.bound + 1)
    case IsCached(_) => c.(cached := c.cached + 1)
    case IsCreated(_) => c.(createdRun := c.createdRun + 1)
  }

  /** The cells before the first refusal stay applied; `offers[i]` is what the i-th cell meets. */
  function ApplyFrom(inputs: Inputs, s: Store, application: string, records: seq<string>, offers: seq<Offer>, at: nat,
                     counts: Counts): (Store, Result<Counts, Answer>)
    requires |offers| == |records| && at <= |records|
    decreases |records| - at
  {
    if at == |records| then (s, Ok(counts))
    else
      var (next, answer) := ApplyCell(inputs, s, CellKey(application, records[at]), offers[at]);
      if !Applied(answer) then (next, Err(answer))
      else ApplyFrom(inputs, next, application, records, offers, at + 1, Count(counts, answer))
  }

  function Apply(inputs: Inputs, s: Store, application: string, records: seq<string>, offers: seq<Offer>)
    : (Store, Result<Counts, Answer>)
    requires |offers| == |records|
  {
    ApplyFrom(inputs, s, application, records, offers, 0, Counts(0, 0, 0, 0, |records|))
  }

  class RecipeTables {
    const inputs: Inputs
    var bindings: map<CellKey, Bound>
    var cache: map<string, Slot>
    var cells: map<CellId, CellState>
    var runs: seq<CellId>

    /** Bindings, cache slots, cells and runs name each other, over inputs whose slots are exact. */
    ghost predicate Valid()
      reads this
    {
      SlotsAreExact(inputs) && Safe(inputs, Stored())
    }

    constructor (inputs: Inputs)
      requires SlotsAreExact(inputs)
      ensures this.inputs == inputs && Valid() && Stored() == Empty
    {
      this.inputs := inputs;
      bindings, cache, cells := map[], map[], map[];
      runs := [];
    }

    function Stored(): Store
      reads this
    {
      Store(bindings, cache, cells, runs)
    }

    method Commit(next: Store)
      modifies this
      ensures Stored() == next
    {
      bindings, cache, cells, runs := next.bindings, next.cache, next.cells, next.runs;
    }

    /** One transaction: preparation, quote and creation, with everything undone when creation surprises. */
    method ApplyOne(key: CellKey, o: Offer) returns (answer: Answer)
      requires Valid()
      modifies this
      ensures Valid()
      ensures (Stored(), answer) == ApplyCell(inputs, old(Stored()), key, o)
      ensures Extends(old(Stored()), Stored()) && (Applied(answer) ==> key in bindings)
      ensures answer.IsCreated? ==> o.quoteAccepted && o.runAccepted
      ensures !answer.IsCreated? ==> runs == old(runs)
    {
      CellCreatedIff(inputs, Stored(), key, o);
      CellExtends(inputs, Stored(), key, o);
      var before := Stored();
      var prepared := Prepare(inputs, before, key, o.prepared);
      Commit(prepared.0);
      if prepared.1 != IsReady {
        return prepared.1;
      }
      if !o.quoteAccepted {
        return QuoteRejected;
      }
      var created := Create(inputs, Stored(), key, inputs[key], o.created, o.runAccepted);
      Commit(created.0);
      if !created.1.IsCreated? {
        Commit(before);
        return match created.1
               case IsBound(_) => Invariant
               case IsCached(_) => Invariant
               case IsActive(_) => Invariant
               case Aborted => Aborted
               case _ => RunRejected;
      }
      return created.1;
    }

    /** Applying every record of the application: after a success every one of them is bound. */
    method ApplyCells(application: string, records: seq<string>, offers: seq<Offer>)
      returns (result: Result<Counts, Answer>)
      requires Valid() && |offers| == |records|
      modifies this
      ensures Valid() && Extends(old(Stored()), Stored())
      ensures result.Ok? ==>
                BoundFrom(Stored(), application, records, 0)
                && Sum(result.value) == |records| && |runs| == |old(runs)| + result.value.createdRun
      ensures forall i :: |old(runs)| <= i < |runs| ==> OfferedFor(runs[i], application, records, offers)
      ensures (Stored(), result) == Apply(inputs, old(Stored()), application, records, offers)
    {
      ghost var before := Stored();
      RunsWereOffered(inputs, before, application, records, offers, 0, Counts(0, 0, 0, 0, |records|));
      ApplyBindsEverything(inputs, before, application, records, offers);
      result := ApplyEach(application, records, offers);
    }

    /** The loop over the records. */
    method ApplyEach(application: string, records: seq<string>, offers: seq<Offer>)
      returns (result: Result<Counts, Answer>)
      requires Valid() && |offers| == |records|
      modifies this
      ensures Valid() && (Stored(), result) == Apply(inputs, old(Stored()), application, records, offers)
    {
      var counts := Counts(0, 0, 0, 0, |records|);
      var i := 0;
      while i < |records|
        invariant 0 <= i <= |records| && Valid()
        invariant ApplyFrom(inputs, Stored(), application, records, offers, i, counts)
               == Apply(inputs, old(Stored()), application, records, offers)
      {
        var answer := ApplyOne(CellKey(application, records[i]), offers[i]);
        if !Applied(answer) {
          return Err(answer);
        }
        counts := Count(counts, answer);
        i := i + 1;
      }
      return Ok(counts);
    }
  }

  // ----- What an application leaves -----

  function Sum(c: Counts): nat {
    c.active + c.bound + c.cached + c.createdRun
  }

  /** Bindings stay, and runs are added only for cells that were not bound. */
  ghost predicate Extends(s: Store, later: Store) {
    (forall b :: b in s.bindings ==> b in later.bindings && later.bindings[b] == s.bindings[b])
    && s.runs <= later.runs && (forall i :: |s.runs| <= i < |later.runs| ==> later.runs[i].key !in s.bindings)
  }

  lemma ExtendsOn(s: Store, next: Store, last: Store)
    requires Extends(s, next) && Extends(next, last)
    ensures Extends(s, last)
  {
    forall i | |s.runs| <= i < |last.runs| ensures last.runs[i].key !in s.bindings {
      assert i < |next.runs| ==> last.runs[i] == next.runs[i];
    }
  }

  lemma CellExtends(inputs: Inputs, s: Store, key: CellKey, o: Offer)
    requires Safe(inputs, s) && SlotsAreExact(inputs)
    ensures var (s', answer) := ApplyCell(inputs, s, key, o);
            Safe(inputs, s') && Extends(s, s') && (Applied(answer) ==> key in s'.bindings)
  {
    ApplyIsSafe(inputs, s, key, o);
  }

  ghost predicate BoundFrom(s: Store, application: string, records: seq<string>, at: nat) {
    forall i :: at <= i < |records| ==> CellKey(application, records[i]) in s.bindings
  }

  /** Every cell up to the refusal is bound, and runs are created only for cells that were not. */
  lemma {:induction false} ApplyFromBinds(inputs: Inputs, s: Store, application: string, records: seq<string>,
                                          offers: seq<Offer>, at: nat, counts: Counts)
    requires Safe(inputs, s) && SlotsAreExact(inputs) && |offers| == |records| && at <= |records|
    ensures var (s', result) := ApplyFrom(inputs, s, application, records, offers, at, counts);
            Safe(inputs, s') && Extends(s, s') && (result.Ok? ==> BoundFrom(s', application, records, at))
    decreases |records| - at
  {
    if at < |records| {
      var key := CellKey(application, records[at]);
      var (next, answer) := ApplyCell(inputs, s, key, offers[at]);
      CellExtends(inputs, s, key, offers[at]);
      if Applied(answer) {
        ApplyFromBinds(inputs, next, application, records, offers, at + 1, Count(counts, answer));
        ExtendsOn(s, next, ApplyFrom(inputs, s, application, records, offers, at, counts).0);
      }
    }
  }

  /** The counts add up, and the created ones are the new runs. */
  lemma {:induction false} ApplyFromCounts(inputs: Inputs, s: Store, application: string, records: seq<string>,
                                           offers: seq<Offer>, at: nat, counts: Counts)
    requires Safe(inputs, s) && SlotsAreExact(inputs) && |offers| == |records| && at <= |records|
    ensures var (s', result) := ApplyFrom(inputs, s, application, records, offers, at, counts);
            result.Ok? ==>
              Sum(result.value) == Sum(counts) + |records| - at && result.value.total == counts.total
              && |s'.runs| - |s.runs| == result.value.createdRun - counts.createdRun
    decreases |records| - at
  {
    if at < |records| {
      var key := CellKey(application, records[at]);
      var (next, answer) := ApplyCell(inputs, s, key, offers[at]);
      CellExtends(inputs, s, key, offers[at]);
      if Applied(answer) {
        CreatedCounts(inputs, s, key, offers[at], counts);
        ApplyFromCounts(inputs, next, application, records, offers, at + 1, Count(counts, answer));
      }
    }
  }

  lemma CreatedCounts(inputs: Inputs, s: Store, key: CellKey, o: Offer, counts: Counts)
    requires Safe(inputs, s) && SlotsAreExact(inputs) && Applied(ApplyCell(inputs, s, key, o).1)
    ensures var (s', answer) := ApplyCell(inputs, s, key, o);
            |s'.runs| - |s.runs| == Count(counts, answer).createdRun - counts.createdRun
  {
    PrepareIsSafe(inputs, s, key, o.prepared);
    if Prepare(inputs, s, key, o.prepared).1 == IsReady {
      CreateAnswers(inputs, s, key, o.created, o.runAccepted);
    }
  }

  /** A successful application binds every cell, and its counts say which of them are new runs. */
  lemma ApplyBindsEverything(inputs: Inputs, s: Store, application: string, records: seq<string>, offers: seq<Offer>)
    requires Safe(inputs, s) && SlotsAreExact(inputs) && |offers| == |records|
    ensures var (s', result) := Apply(inputs, s, application, records, offers);
            Safe(inputs, s') && Extends(s, s')
            && (result.Ok? ==>
                  BoundFrom(s', application, records, 0)
                  && Sum(result.value) == result.value.total == |records|
                  && |s'.runs| == |s.runs| + result.value.createdRun)
  {
    ApplyFromBinds(inputs, s, application, records, offers, 0, Counts(0, 0, 0, 0, |records|));
    ApplyFromCounts(inputs, s, application, records, offers, 0, Counts(0, 0, 0, 0, |records|));
  }

  lemma {:induction false} BoundIsReported(inputs: Inputs, s: Store, application: string, records: seq<string>,
                                           offers: seq<Offer>, at: nat, counts: Counts)
    requires |offers| == |records| && at <= |records|
    requires forall i :: at <= i < |records| ==> CellKey(application, records[i]) in s.bindings
    ensures ApplyFrom(inputs, s, application, records, offers, at, counts)
         == (s, Ok(counts.(bound := counts.bound + |records| - at)))
    decreases |records| - at
  {
    if at < |records| {
      BoundIsReported(inputs, s, application, records, offers, at + 1, counts.(bound := counts.bound + 1));
    }
  }

  /** A run of this cell was offered with an accepted quote and an accepted plan. */
  ghost predicate OfferedFor(run: CellId, application: string, records: seq<string>, offers: seq<Offer>)
    requires |offers| == |records|
  {
    exists i :: 0 <= i < |records| && run.key == CellKey(application, records[i]) && offers[i].quoteAccepted && offers[i].runAccepted
  }

  /** Every run an application creates was offered with both acceptances, whether or not the application succeeds. */
  lemma {:induction false} RunsWereOffered(inputs: Inputs, s: Store, application: string, records: seq<string>,
                                           offers: seq<Offer>, at: nat, counts: Counts)
    requires Safe(inputs, s) && SlotsAreExact(inputs) && |offers| == |records| && at <= |records|
    ensures var s' := ApplyFrom(inputs, s, application, records, offers, at, counts).0;
            s.runs <= s'.runs && forall i :: |s.runs| <= i < |s'.runs| ==> OfferedFor(s'.runs[i], application, records, offers)
    decreases |records| - at
  {
    if at < |records| {
      var key := CellKey(application, records[at]);
      var (next, answer) := ApplyCell(inputs, s, key, offers[at]);
      CellExtends(inputs, s, key, offers[at]);
      CellCreatedIff(inputs, s, key, offers[at]);
      if answer.IsCreated? { assert OfferedFor(answer.cell, application, records, offers); }
      if Applied(answer) {
        RunsWereOffered(inputs, next, application, records, offers, at + 1, Count(counts, answer));
        var s' := ApplyFrom(inputs, next, application, records, offers, at + 1, Count(counts, answer)).0;
        forall i | |s.runs| <= i < |s'.runs| ensures OfferedFor(s'.runs[i], application, records, offers) {
          assert i < |next.runs| ==> s'.runs[i] == next.runs[i];
        }
      }
    }
  }

  /** Applying again after a success changes nothing and reports every cell as bound, whatever it is offered. */
  lemma ApplyingAgainReportsBound(inputs: Inputs, s: Store, application: string, records: seq<string>,
                                  offers: seq<Offer>, events: seq<Event>, again: seq<Offer>)
    requires Safe(inputs, s) && SlotsAreExact(inputs) && |offers| == |records| == |again|
    requires Apply(inputs, s, application, records, offers).1.Ok?
    ensures var later := Run(inputs, Apply(inputs, s, application, records, offers).0, events);
            Apply(inputs, later, application, records, again)
            == (later, Ok(Counts(0, |records|, 0, 0, |records|)))
  {
    ApplyFromBinds(inputs, s, application, records, offers, 0, Counts(0, 0, 0, 0, |records|));
    var s' := Apply(inputs, s, application, records, offers).0;
    BindingsAreForever(inputs, s', events);
    BoundIsReported(inputs, Run(inputs, s', events), application, records, again, 0, Counts(0, 0, 0, 0, |records|));
  }
}
