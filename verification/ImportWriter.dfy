/** The batch writer and the consuming loop of an import, over the stored batches they append to. */
module ImportWriter {
  import opened Outcomes
  import opened ImportBatches

  // ----- The stored batches -----

  /** A batch already stored must repeat exactly; a new one must come next and within the limits. */
  function Append(stored: seq<Batch>, l: Limits, running: bool, sequence: nat, batch: Batch): Option<seq<Batch>> {
    if sequence < 1 || !Within(l, batch) then None
    else if sequence <= |stored| then (if stored[sequence - 1] == batch then Some(stored) else None)
    else if !running || sequence != |stored| + 1 || batch[0].number != |Concat(stored)| + 1 then None
    else Some(stored + [batch])
  }

  class ImportTable {
    const limits: Limits
    const running: bool
    var batches: seq<Batch>

    constructor (limits: Limits, running: bool, batches: seq<Batch>)
      ensures this.limits == limits && this.running == running && this.batches == batches
    {
      this.limits, this.running, this.batches := limits, running, batches;
    }

    method AppendBatch(sequence: nat, batch: Batch) returns (ok: bool)
      modifies this
      ensures ok <==> Append(old(batches), limits, running, sequence, batch).Some?
      ensures batches == if ok then Append(old(batches), limits, running, sequence, batch).value else old(batches)
    {
      var next := Append(batches, limits, running, sequence, batch);
      if next.Some? {
        batches := next.value;
      }
      return next.Some?;
    }

    /** Everything a running import has stored is taken back. */
    method Reset() returns (ok: bool)
      modifies this
      ensures ok <==> running
      ensures batches == if ok then [] else old(batches)
    {
      if running {
        batches := [];
      }
      return running;
    }
  }

  // ----- The writer -----

  /** What the table holds once `done` was written over `stored`. */
  function Merged(stored: seq<Batch>, done: seq<Batch>): seq<Batch> {
    if |done| <= |stored| then stored else done
  }

  predicate Agrees(stored: seq<Batch>, done: seq<Batch>) {
    forall k :: 0 <= k < |stored| && k < |done| ==> stored[k] == done[k]
  }

  class BatchWriter {
    const limits: Limits
    const table: ImportTable
    var batchBytes: nat
    var batchItems: seq<Item>
    var batchSequence: nat

    constructor (limits: Limits, table: ImportTable)
      ensures this.limits == limits && this.table == table
      ensures batchBytes == 0 && batchItems == [] && batchSequence == 0
    {
      this.limits, this.table := limits, table;
      batchBytes, batchItems, batchSequence := 0, [], 0;
    }

    /** The writer has written the batches `done` and holds the items after them, in a table that held `stored`. */
    ghost predicate Holds(stored: seq<Batch>, done: seq<Batch>, held: seq<Item>)
      reads this, table
    {
      batchItems == held && batchBytes == Bytes(held) && batchSequence == |done|
      && table.batches == Merged(stored, done) && Agrees(stored, done)
      && (held != [] ==> Within(limits, held))
    }

    /** Nothing stored stands in the way: the held items are the next ones of a running import. */
    ghost predicate Appendable(stored: seq<Batch>, done: seq<Batch>, held: seq<Item>)
      requires held != []
    {
      |done| >= |stored| && table.running && held[0].number == |Concat(done)| + 1
    }

    method Flush(ghost stored: seq<Batch>, ghost done: seq<Batch>) returns (ok: bool)
      requires Holds(stored, done, batchItems) && table.limits == limits
      modifies this, table
      ensures old(batchItems) == [] ==> ok && Holds(stored, done, [])
      ensures old(batchItems) != [] && ok ==> Holds(stored, done + [old(batchItems)], [])
      ensures old(batchItems) != [] && Appendable(stored, done, old(batchItems)) ==> ok
      ensures ok || table.batches == old(table.batches)
    {
      if batchItems == [] {
        return true;
      }
      batchSequence := batchSequence + 1;
      ok := table.AppendBatch(batchSequence, batchItems);
      batchItems := [];
      batchBytes := 0;
      assert |done| >= |stored| ==> Merged(stored, done) == done;
    }

    method Add(candidate: Item, ghost stored: seq<Batch>, ghost done: seq<Batch>) returns (ok: bool)
      requires Holds(stored, done, batchItems) && table.limits == limits
      requires LimitsAreValid(limits) && candidate.bytes <= limits.maxBytes
      modifies this, table
      ensures var full := |old(batchItems)| > 0 && (|old(batchItems)| >= limits.maxItems
                          || Bytes(old(batchItems)) + candidate.bytes > limits.maxBytes);
              (ok ==> if full then Holds(stored, done + [old(batchItems)], [candidate])
                      else Holds(stored, done, old(batchItems) + [candidate]))
              && (!full ==> ok)
              && (full && Appendable(stored, done, old(batchItems)) ==> ok)
    {
      var full := |batchItems| > 0 && (|batchItems| >= limits.maxItems || batchBytes + candidate.bytes > limits.maxBytes);
      ghost var held := batchItems;
      if full {
        ok := Flush(stored, done);
        if !ok {
          return;
        }
        held := [];
      }
      assert (held + [candidate])[..|held|] == held;
      assert Bytes(held + [candidate]) == Bytes(held) + candidate.bytes;
      batchItems := batchItems + [candidate];
      batchBytes := batchBytes + candidate.bytes;
      ok := true;
    }
  }

  lemma {:induction false} ConcatSnoc(batches: seq<Batch>, last: Batch)
    ensures Concat(batches + [last]) == Concat(batches) + last
  {
    if batches == [] {
      assert [last][1..] == [];
      assert batches + [last] == [last];
    } else {
      ConcatSnoc(batches[1..], last);
      assert (batches + [last])[1..] == batches[1..] + [last];
    }
  }

  /** The batches the import is expected to write, with those of the items from `start` still to come. */
  ghost predicate Halfway(l: Limits, items: seq<Item>, done: seq<Batch>, start: nat, i: nat) {
    start <= i <= |items| && |Concat(done)| == start
    && Greedy(l, items, 0) == done + Greedy(l, items, start)
    && (start < i ==> i <= Reach(l, items, start, start + 1) && Reach(l, items, start, start + 1) == Reach(l, items, start, i))
    && (start == i ==> i == 0)
  }

  lemma HalfwayStarts(l: Limits, items: seq<Item>)
    ensures Halfway(l, items, [], 0, 0) && items[0..0] == []
  {
    assert Greedy(l, items, 0) == [] + Greedy(l, items, 0);
  }

  predicate IsFull(l: Limits, items: seq<Item>, start: nat, i: nat)
    requires start <= i < |items|
  {
    start < i && (i - start >= l.maxItems || Bytes(items[start..i]) + items[i].bytes > l.maxBytes)
  }

  lemma HalfwayFull(l: Limits, items: seq<Item>, done: seq<Batch>, start: nat, i: nat)
    requires Halfway(l, items, done, start, i) && i < |items| && IsFull(l, items, start, i)
    ensures Halfway(l, items, done + [items[start..i]], i, i + 1)
  {
    var batch := items[start..i];
    assert Reach(l, items, start, start + 1) == i;
    assert Greedy(l, items, start) == [batch] + Greedy(l, items, i);
    ConcatSnoc(done, batch);
    assert done + ([batch] + Greedy(l, items, i)) == done + [batch] + Greedy(l, items, i);
  }

  lemma HalfwayEnds(l: Limits, items: seq<Item>, done: seq<Batch>, start: nat)
    requires Halfway(l, items, done, start, |items|)
    ensures Greedy(l, items, 0) == if start == |items| then done else done + [items[start..]]
  {
    if start < |items| {
      assert items[start..|items|] == items[start..];
      assert Reach(l, items, start, start + 1) == |items|;
      assert Greedy(l, items, |items|) == [];
      assert Greedy(l, items, start) == [items[start..]] + [];
    } else {
      assert Greedy(l, items, start) == [];
    }
  }

  /** Adds the next consumed item and keeps track of which batches are done. */
  method AddNext(writer: BatchWriter, item: Item, ghost stored: seq<Batch>, ghost items: seq<Item>,
                 ghost done: seq<Batch>, ghost start: nat, ghost i: nat)
    returns (ok: bool, ghost done': seq<Batch>, ghost start': nat)
    requires writer.table.limits == writer.limits && LimitsAreValid(writer.limits) && item.bytes <= writer.limits.maxBytes
    requires Halfway(writer.limits, items, done, start, i) && i < |items| && items[i] == item
    requires writer.Holds(stored, done, items[start..i])
    requires start < |items| && items[start].number == start + 1
    modifies writer, writer.table
    ensures ok ==> Halfway(writer.limits, items, done', start', i + 1) && writer.Holds(stored, done', items[start'..i + 1])
    ensures stored == [] && writer.table.running ==> ok
  {
    ghost var full := IsFull(writer.limits, items, start, i);
    if full {
      HalfwayFull(writer.limits, items, done, start, i);
    }
    HeldItems(items, start, i);
    ok := writer.Add(item, stored, done);
    done', start' := if full then done + [items[start..i]] else done, if full then i else start;
  }

  /** How the writing of an import ends; a divergent replay and a foreign source are refused. */
  datatype Imported = Written | Diverged | WasReset | ResetRefused

  /**
   * The consuming loop, the comparison of the source with its declared hash, and the final flush, which a terminal
   * item has before the comparison and any other import after it. What is written are the greedy batches of the
   * consumed items, in order and numbered from 1, over what was stored; a foreign source takes everything back.
   * Into an empty running import writing never fails.
   */
  method ConsumeImport(l: Limits, table: ImportTable, decoded: seq<Item>, sourceMatches: bool)
    returns (outcome: Imported, count: nat, terminal: bool)
    requires LimitsAreValid(l) && EachFits(l, decoded) && table.limits == l
    requires forall i :: 0 <= i < |decoded| ==> decoded[i].number == i + 1
    modifies table
    ensures var expected := Greedy(l, Consumed(decoded), 0);
            outcome == Written ==>
              sourceMatches
              && table.batches == Merged(old(table.batches), expected) && Agrees(old(table.batches), expected)
              && count == |Consumed(decoded)|
              && (terminal <==> Consumed(decoded) != [] && Consumed(decoded)[count - 1].terminal)
    ensures outcome == WasReset ==> !sourceMatches && table.batches == []
    ensures outcome == ResetRefused ==> !sourceMatches && !table.running
    ensures old(table.batches) == [] && table.running ==> outcome == if sourceMatches then Written else WasReset
  {
    var writer := new BatchWriter(l, table);
    ghost var stored := table.batches;
    HalfwayStarts(l, Consumed(decoded));
    ConsumedPrefix(decoded);
    ghost var done, start;
    var ok;
    ok, count, terminal, done, start := ConsumeItems(writer, decoded, stored, Consumed(decoded));
    if ok && terminal {
      ok := FlushLast(writer, stored, Consumed(decoded), done, start);
    }
    if !ok {
      return Diverged, count, terminal;
    }
    if !sourceMatches {
      var taken := table.Reset();
      return if taken then WasReset else ResetRefused, count, terminal;
    }
    if !terminal {
      ok := FlushLast(writer, stored, Consumed(decoded), done, start);
    }
    outcome := if ok then Written else Diverged;
  }

  /** The items up to and including the first terminal one. */
  ghost predicate UpToTerminal(decoded: seq<Item>, items: seq<Item>) {
    items <= decoded && (forall i :: 0 <= i < |items| - 1 ==> !items[i].terminal)
    && (|items| < |decoded| ==> items != [] && items[|items| - 1].terminal)
  }

  /** The consuming loop: every item up to and including the first terminal one goes through the writer. */
  method ConsumeItems(writer: BatchWriter, decoded: seq<Item>, ghost stored: seq<Batch>, ghost items: seq<Item>)
    returns (ok: bool, count: nat, terminal: bool, ghost done: seq<Batch>, ghost start: nat)
    requires writer.table.limits == writer.limits && LimitsAreValid(writer.limits) && EachFits(writer.limits, decoded)
    requires forall i :: 0 <= i < |decoded| ==> decoded[i].number == i + 1
    requires UpToTerminal(decoded, items)
    requires Halfway(writer.limits, items, [], 0, 0) && writer.Holds(stored, [], [])
    modifies writer, writer.table
    ensures ok ==> count == |items| && Halfway(writer.limits, items, done, start, count)
                   && writer.Holds(stored, done, items[start..count])
                   && (terminal <==> count > 0 && items[count - 1].terminal)
    ensures stored == [] && writer.table.running ==> ok
  {
    ok, count, terminal, done, start := true, 0, false, [], 0;
    while count < |decoded| && !terminal
      invariant 0 <= count <= |items|
      invariant terminal <==> count > 0 && items[count - 1].terminal
      invariant Halfway(writer.limits, items, done, start, count)
      invariant ok && writer.Holds(stored, done, items[start..count])
    {
      var item := decoded[count];
      assert item == items[count];
      ok, done, start := AddNext(writer, item, stored, items, done, start, count);
      if !ok {
        return;
      }
      count := count + 1;
      terminal := item.terminal;
    }
  }

  /** The flush after the last consumed item completes the greedy batches. */
  method FlushLast(writer: BatchWriter, ghost stored: seq<Batch>, ghost items: seq<Item>, ghost done: seq<Batch>,
                   ghost start: nat)
    returns (ok: bool)
    requires writer.table.limits == writer.limits && Halfway(writer.limits, items, done, start, |items|)
    requires writer.Holds(stored, done, items[start..|items|])
    requires forall i :: 0 <= i < |items| ==> items[i].number == i + 1
    modifies writer, writer.table
    ensures var expected := Greedy(writer.limits, items, 0);
            ok ==> writer.table.batches == Merged(stored, expected) && Agrees(stored, expected)
    ensures stored == [] && writer.table.running ==> ok
  {
    HalfwayEnds(writer.limits, items, done, start);
    assert items[start..|items|] == items[start..];
    ok := writer.Flush(stored, done);
  }

  lemma HeldItems(items: seq<Item>, start: nat, count: nat)
    requires start <= count < |items|
    ensures items[start..count + 1] == items[start..count] + [items[count]]
    ensures items[count..count + 1] == [items[count]]
    ensures start < count ==> items[start..count][0] == items[start]
  {
  }

  /** Consumption stops right after the first terminal item. */
  lemma {:induction false} ConsumedPrefix(items: seq<Item>)
    ensures UpToTerminal(items, Consumed(items))
  {
    if items != [] && !items[0].terminal {
      ConsumedPrefix(items[1..]);
    }
  }
}
