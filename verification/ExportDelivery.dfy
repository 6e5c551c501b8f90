/** A whole recipe application export: the projection proven, its encoding measured, then delivered checked. */
module ExportDelivery {
  import opened Outcomes
  import Projection = ExportProjection
  import Encoding = Exports

  type Hash = Projection.Row -> string

  /** A codec turns the records it is given into a stream of its own. */
  type Codec = seq<Projection.Exported> -> Encoding.Stream

  datatype Refusal = ProjectionRefused(projection: Projection.Refusal) | EncodingRefused(encoding: Encoding.Refusal)

  /** What one pass over the projection reads: its rows, and whether it failed after them. */
  datatype Pass = Pass(rows: seq<Projection.Row>, throws: bool)

  /** The records of an application: each row of the projection with its cell value overlaid. */
  function Records(rows: seq<Projection.Row>, fields: seq<string>): (r: seq<Projection.Exported>)
    requires forall i :: 0 <= i < |rows| ==> rows[i].value.Some?
    ensures |r| == |rows| && forall i :: 0 <= i < |r| ==> r[i] == Projection.ExportOf(rows[i], fields)
  {
    seq(|rows|, i requires 0 <= i < |rows| => Projection.ExportOf(rows[i], fields))
  }

  /** The stream the export reads: an abort of the records is an abort of the stream. */
  function Encoded(codec: Codec, records: seq<Projection.Exported>, finished: bool): Encoding.Stream {
    Encoding.Stream(codec(records).events, codec(records).throws || !finished)
  }

  predicate Proves(proofs: seq<Projection.Proof>, rows: seq<Projection.Row>, hash: Hash) {
    |proofs| == |rows| && forall i :: 0 <= i < |rows| ==> proofs[i] == Projection.ProofOf(rows[i], hash)
  }

  /** A pass over the records finishes exactly when it reads the proven rows again. */
  lemma FinishesIff(first: seq<Projection.Row>, again: Pass, m: Projection.Metadata, proofs: seq<Projection.Proof>,
                    hash: Hash)
    requires Projection.Injective(hash) && Projection.Covers(first, m) && Proves(proofs, first, hash)
    ensures !again.throws && again.rows == first
       <==> !again.throws && |again.rows| == |proofs|
            && forall i :: 0 <= i < |again.rows| ==> Projection.StillProven(again.rows[i], proofs[i], m, hash)
  {
    if |again.rows| == |proofs|
       && forall i :: 0 <= i < |again.rows| ==> Projection.StillProven(again.rows[i], proofs[i], m, hash) {
      Projection.SecondPassSawTheSameRows(first, again.rows, m, proofs, hash);
    }
  }

  /** The preflight of an export: the rows are proven, read again, encoded and measured. */
  method Preflight(first: Pass, second: Pass, m: Projection.Metadata, fields: seq<string>, hash: Hash, codec: Codec,
                   maxBytes: nat)
    returns (proofs: seq<Projection.Proof>, content: Result<Encoding.Bytes, Refusal>)
    requires Projection.Injective(hash)
    ensures content.Ok? ==> Projection.Covers(first.rows, m) && Proves(proofs, first.rows, hash)
    ensures content.Ok?
       <==> Projection.Covers(first.rows, m) && !first.throws && second == first
            && Encoding.Sound(codec(Records(first.rows, fields)), maxBytes)
    ensures content.Ok? ==> content.value == Encoding.Content(codec(Records(first.rows, fields)).events)
  {
    proofs := [];
    var proved := Projection.PreflightProjection(first.rows, first.throws, m, hash);
    if proved.Err? {
      return proofs, Err(ProjectionRefused(proved.error));
    }
    proofs := proved.value;
    FinishesIff(first.rows, second, m, proofs, hash);
    var records, finished := Projection.ExactOverlaidRecords(second.rows, second.throws, m, fields, proofs, hash);
    assert finished ==> records == Records(first.rows, fields);
    var measured := Encoding.PreflightEncodedContent(Encoded(codec, records, finished), maxBytes);
    content := if measured.Ok? then Ok(measured.value) else Err(EncodingRefused(measured.error));
  }

  /**
   * An export whose preflight succeeded finishes its delivery exactly when the projection still is the proven one;
   * the bytes sent are then the measured content of exactly the application's records, in order and overlaid.
   * Aborted, it has sent the non-empty chunks seen, all but the last.
   */
  method ExportApplication(first: Pass, second: Pass, third: Pass, m: Projection.Metadata, fields: seq<string>,
                           hash: Hash, codec: Codec, maxBytes: nat)
    returns (content: Result<Encoding.Bytes, Refusal>, delivered: seq<Encoding.Bytes>, finished: bool,
             ghost read: seq<Projection.Exported>)
    requires Projection.Injective(hash)
    ensures content.Err? ==> delivered == [] && !finished
    ensures content.Ok? ==>
              Projection.Covers(first.rows, m) && (finished <==> third == first)
              && Encoding.Sound(codec(Records(first.rows, fields)), maxBytes)
              && content.value == Encoding.Content(codec(Records(first.rows, fields)).events)
    ensures finished ==>
              content.Ok? && Encoding.Join(delivered) == content.value
              && |third.rows| == |m.recordIds|
              && forall i :: 0 <= i < |third.rows| ==>
                   third.rows[i].value.Some?
                   && Records(first.rows, fields)[i] == Projection.ExportOf(third.rows[i], fields)
                   && Records(first.rows, fields)[i].recordId == m.recordIds[i]
    ensures |read| <= |third.rows|
    ensures forall i :: 0 <= i < |read| ==>
              third.rows[i].value.Some? && read[i] == Projection.ExportOf(third.rows[i], fields)
    ensures content.Ok? && !finished ==>
              exists seen: nat :: seen <= |codec(read).events| && Encoding.AllChunks(codec(read).events[..seen])
                                  && delivered == Encoding.AllButLast(Encoding.Solid(codec(read).events[..seen]))
  {
    delivered, finished, read := [], false, [];
    var proofs;
    proofs, content := Preflight(first, second, m, fields, hash, codec, maxBytes);
    if content.Err? {
      return;
    }
    FinishesIff(first.rows, third, m, proofs, hash);
    var records, complete := Projection.ExactOverlaidRecords(third.rows, third.throws, m, fields, proofs, hash);
    assert complete ==> records == Records(first.rows, fields);
    read := records;
    ghost var seen: nat;
    delivered, finished, seen := Encoding.VerifiedEncodedEvents(Encoded(codec, records, complete), maxBytes, content.value);
  }
}
