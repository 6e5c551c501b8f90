/** Reading a ready generation page by page: each page is checked, and the walk misses and repeats nothing. */
module PageWalk {
  import opened Outcomes

  /** A listed record; `projects`: it belongs to the generation and maps to a candidate. */
  datatype Entry = Entry(ordinal: nat, projects: bool)

  datatype Listed = Listed(items: seq<Entry>, hasMore: bool)

  datatype Success = Success(ordinals: seq<nat>, hasMore: bool, nextAfterOrdinal: Option<nat>)

  datatype Failure = RequestInvalid | NotReady | RecordInvalid

  function Min(a: int, b: int): int {
    if a < b then a else b
  }

  predicate RequestIsValid(after: int, limit: int, maxPageSize: nat) {
    after >= 0 && 1 <= limit <= maxPageSize
  }

  predicate PageIsConsistent(count: nat, page: Listed, after: nat, limit: nat) {
    |page.items| == Min(limit, count - after) && page.hasMore == (count - after > limit)
  }

  function Ordinals(after: nat, until: nat): (r: seq<nat>)
    requires after <= until
    ensures |r| == until - after && forall i :: 0 <= i < |r| ==> r[i] == after + i + 1
  {
    seq(until - after, i requires 0 <= i < until - after => after + i + 1)
  }

  /** The page a consistent store shows after an ordinal. */
  function PageAfter(count: nat, after: nat, limit: nat): Success
    requires after <= count && 1 <= limit
  {
    var until := Min(after + limit, count);
    Success(Ordinals(after, until), count - after > limit, if count - after > limit then Some(until) else None)
  }

  /** A listed page is accepted exactly when it is the whole page it should be, each record in its place. */
  method ReadPage(count: nat, after: int, limit: int, maxPageSize: nat, page: Listed)
    returns (result: Result<Success, Failure>)
    ensures result.Ok? <==>
              0 <= after <= count && 1 <= limit <= maxPageSize
              && |page.items| == (if count - after < limit then count - after else limit)
              && (page.hasMore <==> after + limit < count)
              && forall i :: 0 <= i < |page.items| ==> page.items[i] == Entry(after + i + 1, true)
    ensures result.Ok? ==> result.value == PageAfter(count, after, limit)
    ensures result.Err? ==> (result.error == RequestInvalid <==> after < 0 || after > count || limit < 1 || limit > maxPageSize)
  {
    if !RequestIsValid(after, limit, maxPageSize) || after > count {
      return Err(RequestInvalid);
    }
    if !PageIsConsistent(count, page, after, limit) {
      return Err(NotReady);
    }
    var previous := after;
    var ordinals: seq<nat> := [];
    var i := 0;
    while i < |page.items|
      invariant 0 <= i <= |page.items| && previous == after + i && |ordinals| == i
      invariant forall k :: 0 <= k < i ==> page.items[k] == Entry(after + k + 1, true) && ordinals[k] == after + k + 1
    {
      var entry := page.items[i];
      if !entry.projects || entry.ordinal != previous + 1 || entry.ordinal > count {
        return Err(RecordInvalid);
      }
      previous := entry.ordinal;
      ordinals := ordinals + [entry.ordinal];
      i := i + 1;
    }
    if page.hasMore && previous == after {
      return Err(RecordInvalid);
    }
    return Ok(Success(ordinals, page.hasMore, if page.hasMore then Some(previous) else None));
  }

  // ----- The walk -----

  /** What a reader sees who follows the next ordinal, asking for `limits(k)` records on the k-th page. */
  function Walk(count: nat, after: nat, limits: nat -> nat, k: nat): seq<seq<nat>>
    requires after <= count && forall j :: limits(j) >= 1
    decreases count - after
  {
    var page := PageAfter(count, after, limits(k));
    if page.nextAfterOrdinal.None? then [page.ordinals]
    else [page.ordinals] + Walk(count, page.nextAfterOrdinal.value, limits, k + 1)
  }

  function Flatten(pages: seq<seq<nat>>): seq<nat> {
    if pages == [] then [] else pages[0] + Flatten(pages[1..])
  }

  /** With any positive limits the walk ends and visits every later ordinal once, in order. */
  lemma {:induction false} WalkVisitsEachOnce(count: nat, after: nat, limits: nat -> nat, k: nat)
    requires after <= count && forall j :: limits(j) >= 1
    ensures Flatten(Walk(count, after, limits, k)) == Ordinals(after, count)
    decreases count - after
  {
    var page := PageAfter(count, after, limits(k));
    if page.nextAfterOrdinal.Some? {
      var next := page.nextAfterOrdinal.value;
      WalkVisitsEachOnce(count, next, limits, k + 1);
      assert Ordinals(after, next) + Ordinals(next, count) == Ordinals(after, count);
    } else {
      assert Flatten([page.ordinals]) == page.ordinals + [];
    }
  }

  /** With one limit, the pages are as many as the records divided by the limit, rounded up. */
  lemma {:induction false} WalkTakesCeilingPages(count: nat, after: nat, limit: nat, k: nat)
    requires after < count && limit >= 1
    ensures var pages := |Walk(count, after, (_: nat) => limit, k)|;
            (pages - 1) * limit < count - after <= pages * limit
    decreases count - after
  {
    var pages := Walk(count, after, (_: nat) => limit, k);
    if count - after > limit {
      WalkTakesCeilingPages(count, after + limit, limit, k + 1);
      var later := |Walk(count, after + limit, (_: nat) => limit, k + 1)|;
      assert |pages| == later + 1;
      assert later * limit == (later - 1) * limit + limit;
      assert (later + 1) * limit == later * limit + limit;
    } else {
      assert |pages| == 1;
    }
  }
}
