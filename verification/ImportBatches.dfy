/** Greedy batches of a dataset import, within an item limit and a byte limit. */
module ImportBatches {
  import JsonText

  /** A bounded import item: its number, the bytes of its canonical text, and whether it ends the import. */
  datatype Item = Item(number: nat, bytes: nat, content: JsonText.Text, terminal: bool)

  datatype Limits = Limits(maxItems: nat, maxBytes: nat)

  type Batch = seq<Item>

  predicate LimitsAreValid(l: Limits) {
    1 <= l.maxItems && 1 <= l.maxBytes
  }

  function Bytes(items: seq<Item>): nat {
    if items == [] then 0 else Bytes(items[..|items| - 1]) + items[|items| - 1].bytes
  }

  predicate Within(l: Limits, batch: Batch) {
    1 <= |batch| <= l.maxItems && Bytes(batch) <= l.maxBytes
  }

  function Concat(batches: seq<Batch>): seq<Item> {
    if batches == [] then [] else batches[0] + Concat(batches[1..])
  }

  // ----- The greedy split -----

  /** Where the batch that already holds items[from..to] ends. */
  function Reach(l: Limits, items: seq<Item>, from: nat, to: nat): (end: nat)
    requires from < to <= |items|
    ensures to <= end <= |items|
    decreases |items| - to
  {
    if to == |items| || to - from >= l.maxItems || Bytes(items[from..to]) + items[to].bytes > l.maxBytes then to
    else Reach(l, items, from, to + 1)
  }

  function Greedy(l: Limits, items: seq<Item>, from: nat): seq<Batch>
    requires from <= |items|
    decreases |items| - from
  {
    if from == |items| then []
    else
      var end := Reach(l, items, from, from + 1);
      [items[from..end]] + Greedy(l, items, end)
  }

  /** The items consumed: everything up to and including the first that ends the import. */
  function Consumed(items: seq<Item>): (r: seq<Item>)
    ensures r <= items
  {
    if items == [] then []
    else if items[0].terminal then [items[0]]
    else [items[0]] + Consumed(items[1..])
  }

  // ----- What the split is -----

  lemma {:induction false} BytesOfConcat(a: seq<Item>, b: seq<Item>)
    ensures Bytes(a + b) == Bytes(a) + Bytes(b)
  {
    if b == [] {
      assert a + b == a;
    } else {
      BytesOfConcat(a, b[..|b| - 1]);
      assert (a + b)[..|a + b| - 1] == a + b[..|b| - 1];
    }
  }

  lemma {:induction false} ReachFits(l: Limits, items: seq<Item>, from: nat, to: nat)
    requires from < to <= |items| && Within(l, items[from..to])
    ensures Within(l, items[from..Reach(l, items, from, to)])
    decreases |items| - to
  {
    if Reach(l, items, from, to) != to {
      assert items[from..to + 1][..to - from] == items[from..to];
      ReachFits(l, items, from, to + 1);
    }
  }

  /** No batch starting here and within the limits reaches further. */
  lemma {:induction false} ReachIsFarthest(l: Limits, items: seq<Item>, from: nat, to: nat, end: nat)
    requires from < to <= end <= |items| && Within(l, items[from..end])
    ensures end <= Reach(l, items, from, to)
    decreases |items| - to
  {
    if to < end {
      assert items[from..end] == items[from..to + 1] + items[to + 1..end];
      BytesOfConcat(items[from..to + 1], items[to + 1..end]);
      assert items[from..to + 1][..to - from] == items[from..to];
      ReachIsFarthest(l, items, from, to + 1, end);
    }
  }

  predicate EachFits(l: Limits, items: seq<Item>) {
    forall i :: 0 <= i < |items| ==> items[i].bytes <= l.maxBytes
  }

  /** The greedy batches concatenate to the items, are not empty and keep both limits. */
  lemma GreedySplits(l: Limits, items: seq<Item>, from: nat)
    requires LimitsAreValid(l) && EachFits(l, items) && from <= |items|
    ensures Concat(Greedy(l, items, from)) == items[from..]
    ensures forall b <- Greedy(l, items, from) :: 1 <= |b| <= l.maxItems && Bytes(b) <= l.maxBytes
  {
    GreedyIsWithin(l, items, from);
  }

  lemma {:induction false} GreedyIsWithin(l: Limits, items: seq<Item>, from: nat)
    requires LimitsAreValid(l) && EachFits(l, items) && from <= |items|
    ensures Concat(Greedy(l, items, from)) == items[from..]
    ensures forall b <- Greedy(l, items, from) :: Within(l, b)
    decreases |items| - from
  {
    if from < |items| {
      var end := Reach(l, items, from, from + 1);
      assert Bytes(items[from..from + 1]) == items[from].bytes by {
        assert items[from..from + 1] == [items[from]];
        assert [items[from]][..0] == [];
      }
      ReachFits(l, items, from, from + 1);
      GreedyIsWithin(l, items, end);
      assert items[from..] == items[from..end] + items[end..];
    }
  }

  lemma SuffixFits(l: Limits, items: seq<Item>, from: nat, mid: nat, end: nat)
    requires from <= mid < end <= |items| && Within(l, items[from..end])
    ensures Within(l, items[mid..end])
  {
    assert items[from..end] == items[from..mid] + items[mid..end];
    BytesOfConcat(items[from..mid], items[mid..end]);
  }

  /** Starting no earlier than another split within the limits, greedy batching needs no more batches. */
  lemma {:induction false} GreedyStaysAhead(l: Limits, items: seq<Item>, from: nat, other: seq<Batch>, start: nat)
    requires start <= from <= |items| && LimitsAreValid(l)
    requires Concat(other) == items[start..] && forall b <- other :: Within(l, b)
    ensures |Greedy(l, items, from)| <= |other|
    decreases |other|
  {
    if from < |items| {
      assert other != [];
      var first := other[0];
      var stop := start + |first|;
      assert items[start..stop] == first by {
        assert first <= items[start..];
      }
      assert Concat(other[1..]) == items[stop..];
      var end := Reach(l, items, from, from + 1);
      if from < stop {
        SuffixFits(l, items, start, from, stop);
        ReachIsFarthest(l, items, from, from + 1, stop);
      }
      GreedyStaysAhead(l, items, end, other[1..], stop);
    }
  }

  /** No other split of the items within both limits uses fewer batches. */
  lemma GreedyIsOptimal(l: Limits, items: seq<Item>, other: seq<Batch>)
    requires LimitsAreValid(l) && Concat(other) == items && forall b <- other :: Within(l, b)
    ensures |Greedy(l, items, 0)| <= |other|
  {
    assert items[0..] == items;
    GreedyStaysAhead(l, items, 0, other, 0);
  }
}
