/** The source of an import, hashed as it is read, and the decision at its end. */
module ImportSource {
  import opened Outcomes

  type Chunk = seq<int>

  function Join(chunks: seq<Chunk>): seq<int> {
    if chunks == [] then [] else Join(chunks[..|chunks| - 1]) + chunks[|chunks| - 1]
  }

  /** `hashed` is what the digest has been fed; the hash exists only once the source has ended. */
  class ObservedSource {
    const source: seq<Chunk>
    var position: nat
    var hashed: seq<int>
    var cancelled: bool
    var completed: bool

    ghost predicate Valid()
      reads this
    {
      position <= |source| && hashed == Join(source[..position]) && (completed ==> position == |source|)
    }

    constructor (source: seq<Chunk>)
      ensures Valid() && this.source == source && position == 0 && !cancelled && !completed
    {
      this.source := source;
      position, hashed, cancelled, completed := 0, [], false, false;
    }

    method Next() returns (chunk: Option<Chunk>)
      requires Valid()
      modifies this
      ensures Valid() && cancelled == old(cancelled)
      ensures old(cancelled || completed) ==> chunk.None? && position == old(position) && completed == old(completed)
      ensures !old(cancelled || completed) ==>
                if old(position) < |source|
                then chunk == Some(source[old(position)]) && position == old(position) + 1 && !completed
                else chunk.None? && completed && position == old(position)
    {
      if cancelled || completed {
        return None;
      }
      if position == |source| {
        completed := true;
        return None;
      }
      chunk := Some(source[position]);
      hashed := hashed + source[position];
      assert source[..position + 1][..position] == source[..position];
      position := position + 1;
    }

    method Cancel()
      requires Valid()
      modifies this
      ensures Valid() && position == old(position) && completed == old(completed)
      ensures cancelled <==> old(cancelled) || !old(completed)
    {
      if !cancelled && !completed {
        cancelled := true;
      }
    }

    /** Reads to the end unless the source was cancelled. */
    method Drain()
      requires Valid()
      modifies this
      ensures Valid() && cancelled == old(cancelled)
      ensures completed <==> old(completed) || !old(cancelled)
    {
      var more := true;
      while more
        invariant Valid() && cancelled == old(cancelled)
        invariant old(completed) ==> completed
        invariant cancelled ==> completed == old(completed)
        invariant !more ==> cancelled || completed
        decreases more, |source| - position
      {
        var chunk := Next();
        more := chunk.Some?;
      }
    }

    function ContentHash(): Option<seq<int>>
      reads this
    {
      if completed then Some(hashed) else None
    }
  }

  datatype Finish = Completed | FailedOnIssue | SourceMismatch

  /**
   * The end of a consumed import: it is accepted, as completed or as failed on its terminal issue,
   * exactly when the whole source was read and is the declared one.
   */
  method FinishConsumedImport(observed: ObservedSource, declared: seq<int>, terminalIssue: bool)
    returns (finish: Finish)
    requires observed.Valid()
    modifies observed
    ensures observed.Valid()
    ensures finish != SourceMismatch <==>
              (old(observed.completed) || (terminalIssue && !old(observed.cancelled)))
              && Join(observed.source) == declared
    ensures finish == FailedOnIssue <==> terminalIssue && finish != SourceMismatch
  {
    if terminalIssue {
      observed.Drain();
    }
    assert observed.source[..|observed.source|] == observed.source;
    if observed.ContentHash() != Some(declared) {
      return SourceMismatch;
    }
    return if terminalIssue then FailedOnIssue else Completed;
  }
}
