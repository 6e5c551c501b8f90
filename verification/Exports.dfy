/** The two-pass export: a preflight that proves the content, and a second pass that delivers it checked. */
module Exports {
  import opened Outcomes

  type Bytes = seq<int>

  /** What a codec stream yields; `Malformed` is an event without bytes. */
  datatype Event = Chunk(bytes: Bytes) | CodecError(tooLarge: bool) | Malformed

  /** A stream that ends, or throws after its last event. */
  datatype Stream = Stream(events: seq<Event>, throws: bool)

  datatype Refusal = TooLarge | CodecInvalid

  // ----- Content -----

  predicate AllChunks(events: seq<Event>) {
    forall i :: 0 <= i < |events| ==> events[i].Chunk?
  }

  function Content(events: seq<Event>): Bytes
    requires AllChunks(events)
  {
    if events == [] then [] else Content(events[..|events| - 1]) + events[|events| - 1].bytes
  }

  function Join(chunks: seq<Bytes>): Bytes {
    if chunks == [] then [] else Join(chunks[..|chunks| - 1]) + chunks[|chunks| - 1]
  }

  /** The non-empty chunks, in order. */
  function Solid(events: seq<Event>): seq<Bytes>
    requires AllChunks(events)
  {
    if events == [] then []
    else
      var last := events[|events| - 1].bytes;
      Solid(events[..|events| - 1]) + if last == [] then [] else [last]
  }

  /** A stream the preflight accepts: only chunks, to its end, within the limit. */
  predicate Sound(s: Stream, maxBytes: nat) {
    AllChunks(s.events) && !s.throws && |Content(s.events)| <= maxBytes
  }

  lemma ContentStep(events: seq<Event>, i: nat)
    requires i < |events| && AllChunks(events[..i + 1])
    ensures AllChunks(events[..i]) && Content(events[..i + 1]) == Content(events[..i]) + events[i].bytes
    ensures Solid(events[..i + 1]) == Solid(events[..i]) + if events[i].bytes == [] then [] else [events[i].bytes]
  {
    assert events[..i + 1][..i] == events[..i];
    assert events[..i + 1][i] == events[i];
    assert forall k :: 0 <= k < i ==> events[..i][k] == events[..i + 1][k];
  }

  lemma {:induction false} ContentGrows(events: seq<Event>, i: nat)
    requires i <= |events| && AllChunks(events)
    ensures AllChunks(events[..i]) && |Content(events[..i])| <= |Content(events)|
    decreases |events| - i
  {
    if i == |events| {
      assert events[..i] == events;
    } else {
      assert AllChunks(events[..i + 1]);
      ContentStep(events, i);
      ContentGrows(events, i + 1);
    }
  }

  // ----- First pass -----

  /** The preflight loop: the whole content, or why there is none. The content stands for its hash and length. */
  method PreflightEncodedContent(s: Stream, maxBytes: nat) returns (proof: Result<Bytes, Refusal>)
    ensures proof.Ok? <==> Sound(s, maxBytes)
    ensures proof.Ok? ==> proof.value == Content(s.events)
  {
    var content: Bytes := [];
    var i := 0;
    while i < |s.events|
      invariant 0 <= i <= |s.events|
      invariant AllChunks(s.events[..i]) && content == Content(s.events[..i]) && |content| <= maxBytes
    {
      match s.events[i] {
        case CodecError(tooLarge) =>
          return Err(if tooLarge then TooLarge else CodecInvalid);
        case Malformed => return Err(CodecInvalid);
        case Chunk(bytes) =>
          assert AllChunks(s.events[..i + 1]);
          ContentStep(s.events, i);
          if |bytes| > maxBytes - |content| {
            if AllChunks(s.events) { ContentGrows(s.events, i + 1); }
            return Err(TooLarge);
          }
          content := content + bytes;
      }
      i := i + 1;
    }
    assert s.events[..i] == s.events;
    return if s.throws then Err(CodecInvalid) else Ok(content);
  }

  // ----- Second pass of a recipe application export -----

  function AllButLast(chunks: seq<Bytes>): seq<Bytes> {
    if chunks == [] then [] else chunks[..|chunks| - 1]
  }

  lemma {:induction false} JoinSolid(events: seq<Event>)
    requires AllChunks(events)
    ensures Join(Solid(events)) == Content(events)
  {
    if events != [] {
      var front, last := events[..|events| - 1], events[|events| - 1].bytes;
      JoinSolid(front);
      if last != [] {
        assert (Solid(front) + [last])[..|Solid(front)|] == Solid(front);
      } else {
        assert Solid(events) == Solid(front);
      }
    }
  }

  /**
   * The verified delivery holds each chunk back until the next non-empty one arrives. It finishes exactly when
   * the stream is sound and its content is the expected one; aborted after `seen` events, it has delivered the
   * non-empty chunks seen, in order, all but the last.
   */
  method VerifiedEncodedEvents(s: Stream, maxBytes: nat, expected: Bytes)
    returns (delivered: seq<Bytes>, finished: bool, ghost seen: nat)
    ensures finished <==> Sound(s, maxBytes) && Content(s.events) == expected
    ensures finished ==> delivered == Solid(s.events) && Join(delivered) == expected
    ensures seen <= |s.events| && AllChunks(s.events[..seen])
    ensures !finished ==> delivered == AllButLast(Solid(s.events[..seen]))
  {
    var content: Bytes := [];
    var pending: Option<Bytes> := None;
    delivered, finished, seen := [], false, 0;
    var i := 0;
    while i < |s.events|
      invariant 0 <= i <= |s.events| && seen == i
      invariant AllChunks(s.events[..i]) && content == Content(s.events[..i]) && |content| <= maxBytes
      invariant Solid(s.events[..i]) == delivered + if pending.Some? then [pending.value] else []
      invariant delivered != [] ==> pending.Some?
    {
      match s.events[i] {
        case CodecError(_) => return;
        case Malformed => return;
        case Chunk(bytes) =>
          assert AllChunks(s.events[..i + 1]);
          ContentStep(s.events, i);
          if |bytes| > maxBytes - |content| {
            if AllChunks(s.events) { ContentGrows(s.events, i + 1); }
            return;
          }
          content := content + bytes;
          if bytes != [] {
            if pending.Some? {
              delivered := delivered + [pending.value];
            }
            pending := Some(bytes);
          }
      }
      i := i + 1;
      seen := i;
    }
    assert s.events[..i] == s.events;
    if s.throws || content != expected {
      return;
    }
    JoinSolid(s.events);
    finished := true;
    if pending.Some? {
      delivered := delivered + [pending.value];
    }
  }

  // ----- Second pass of a dataset export -----

  /** What the dataset export has yielded and what it still holds after these chunks. */
  function Yielded(events: seq<Event>): (seq<Bytes>, Option<Bytes>)
    requires AllChunks(events)
  {
    if events == [] then ([], None)
    else
      var (before, pending) := Yielded(events[..|events| - 1]);
      var bytes := events[|events| - 1].bytes;
      (if pending.Some? then before + [pending.value] else before, if bytes == [] then pending else Some(bytes))
  }

  function DatasetDelivery(events: seq<Event>): seq<Bytes>
    requires AllChunks(events)
  {
    var (before, pending) := Yielded(events);
    if pending.Some? then before + [pending.value] else before
  }

  /** The same loop with the yield before the test: a zero-length chunk yields the held chunk and keeps it. */
  method VerifiedDatasetEvents(s: Stream, maxBytes: nat, expected: Bytes)
    returns (delivered: seq<Bytes>, finished: bool)
    ensures finished <==> Sound(s, maxBytes) && Content(s.events) == expected
    ensures finished ==> delivered == DatasetDelivery(s.events)
  {
    var content: Bytes := [];
    var pending: Option<Bytes> := None;
    delivered, finished := [], false;
    var i := 0;
    while i < |s.events|
      invariant 0 <= i <= |s.events|
      invariant AllChunks(s.events[..i]) && content == Content(s.events[..i]) && |content| <= maxBytes
      invariant Yielded(s.events[..i]) == (delivered, pending)
    {
      match s.events[i] {
        case CodecError(_) => return;
        case Malformed => return;
        case Chunk(bytes) =>
          assert AllChunks(s.events[..i + 1]);
          ContentStep(s.events, i);
          assert s.events[..i + 1][..i] == s.events[..i];
          if |bytes| > maxBytes - |content| {
            if AllChunks(s.events) { ContentGrows(s.events, i + 1); }
            return;
          }
          content := content + bytes;
          if pending.Some? {
            delivered := delivered + [pending.value];
          }
          if |bytes| > 0 {
            pending := Some(bytes);
          }
      }
      i := i + 1;
    }
    assert s.events[..i] == s.events;
    if s.throws || content != expected {
      return;
    }
    finished := true;
    if pending.Some? {
      delivered := delivered + [pending.value];
    }
  }

  /** Some zero-length chunk comes after a non-empty one. */
  predicate EmptyAfterSolid(events: seq<Event>)
    requires AllChunks(events)
  {
    exists i, j :: 0 <= i < j < |events| && events[i].bytes != [] && events[j].bytes == []
  }

  lemma {:induction false} JoinSnoc(chunks: seq<Bytes>, last: Bytes)
    ensures Join(chunks + [last]) == Join(chunks) + last
  {
    assert (chunks + [last])[..|chunks|] == chunks;
  }

  /** One more chunk delivers itself, or the held chunk once more when it is empty. */
  lemma DeliveryStep(front: seq<Event>, last: Event)
    requires AllChunks(front) && last.Chunk?
    ensures AllChunks(front + [last])
    ensures var pending, held := Yielded(front).1, Yielded(front + [last]).1;
            held == (if last.bytes == [] then pending else Some(last.bytes))
            && DatasetDelivery(front + [last])
               == DatasetDelivery(front) + if held.Some? then [held.value] else []
  {
    assert (front + [last])[..|front|] == front;
  }

  /** The delivery is at least the content, and exactly it while no zero-length chunk followed a non-empty one. */
  lemma {:induction false} DeliveryLength(events: seq<Event>)
    requires AllChunks(events)
    ensures var (before, pending) := Yielded(events);
            (pending.Some? <==> exists i :: 0 <= i < |events| && events[i].bytes != [])
            && (pending.Some? ==> pending.value != [])
            && |Join(DatasetDelivery(events))| >= |Content(events)|
            && (EmptyAfterSolid(events) ==> |Join(DatasetDelivery(events))| > |Content(events)|)
            && (!EmptyAfterSolid(events) ==> DatasetDelivery(events) == Solid(events))
  {
    if events != [] {
      var front, last := events[..|events| - 1], events[|events| - 1];
      assert events == front + [last];
      DeliveryLength(front);
      DeliveryStep(front, last);
      EmptyAfterSnoc(front, last, events);
      var held := Yielded(events).1;
      if held.Some? {
        JoinSnoc(DatasetDelivery(front), held.value);
      }
    }
  }

  lemma EmptyAfterSnoc(front: seq<Event>, last: Event, events: seq<Event>)
    requires last.Chunk? && events == front + [last] && AllChunks(events) && AllChunks(front)
    ensures EmptyAfterSolid(events)
       <==> EmptyAfterSolid(front) || (last.bytes == [] && exists i :: 0 <= i < |front| && front[i].bytes != [])
  {
    if EmptyAfterSolid(front) {
      var i, j :| 0 <= i < j < |front| && front[i].bytes != [] && front[j].bytes == [];
      assert events[i].bytes != [] && events[j].bytes == [];
    }
    if last.bytes == [] && exists i :: 0 <= i < |front| && front[i].bytes != [] {
      var i :| 0 <= i < |front| && front[i].bytes != [];
      assert events[i].bytes != [] && events[|front|].bytes == [];
    }
    if EmptyAfterSolid(events) {
      var i, j :| 0 <= i < j < |events| && events[i].bytes != [] && events[j].bytes == [];
      assert front[i].bytes != [];
      if j < |front| { assert front[j].bytes == []; }
    }
  }

  /**
   * A finished dataset export delivers the checked content exactly when no zero-length chunk follows a
   * non-empty one; otherwise it delivers more bytes than it declared.
   */
  lemma DatasetDeliveryIsExactIff(events: seq<Event>)
    requires AllChunks(events)
    ensures Join(DatasetDelivery(events)) == Content(events) <==> !EmptyAfterSolid(events)
  {
    DeliveryLength(events);
    JoinSolid(events);
  }

  /** One zero-length chunk between two others delivers the first of them twice. */
  lemma HeldChunkIsDeliveredTwice(a: Bytes, b: Bytes)
    requires a != [] && b != []
    ensures var events := [Chunk(a), Chunk([]), Chunk(b)];
            DatasetDelivery(events) == [a, a, b] && Solid(events) == [a, b]
  {
    var events := [Chunk(a), Chunk([]), Chunk(b)];
    assert events[..2] == [Chunk(a), Chunk([])];
    assert events[..2][..1] == [Chunk(a)];
    assert [Chunk(a)][..0] == [];
    assert Yielded(events[..2][..1]) == ([], Some(a));
    assert [] + [a] == [a] && events[..2][1].bytes == [];
    assert Yielded(events[..2]) == ([a], Some(a));
    assert Solid([Chunk(a)]) == [a];
    assert Solid(events[..2]) == [a];
  }
}
