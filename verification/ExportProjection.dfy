/** The rows of a recipe application export: proven once, then overlaid only if they are still the same. */
module ExportProjection {
  import opened Outcomes

  datatype FieldValue = FieldValue(fieldId: string, value: int)

  datatype Row = Row(
    application: string,
    recordId: string,
    recipe: string,
    fieldId: string,
    cellRecordId: string,
    cellResultId: string,
    runId: string,
    value: Option<int>,
    valid: bool,
    values: seq<FieldValue>)

  datatype Metadata = Metadata(application: string, recipe: string, targetFieldId: string, recordIds: seq<string>)

  datatype Proof = Proof(recordId: string, cellResultId: string, runId: string, hash: string)

  datatype Exported = Exported(recordId: string, values: seq<FieldValue>)

  datatype Refusal = Duplicate | CountMismatch | IdentityMismatch | Invalid | Incomplete

  predicate HasExactIdentity(row: Row, m: Metadata, recordId: string) {
    row.application == m.application && row.recordId == recordId && row.cellRecordId == recordId
    && row.recipe == m.recipe && row.fieldId == m.targetFieldId
  }

  function ProofOf(row: Row, hash: Row -> string): Proof {
    Proof(row.recordId, row.cellResultId, row.runId, hash(row))
  }

  predicate Distinct(keys: seq<string>) {
    forall i, j :: 0 <= i < j < |keys| ==> keys[i] != keys[j]
  }

  /** The projection covers the application: each row is its record's, succeeded, with identities of its own. */
  ghost predicate Covers(rows: seq<Row>, m: Metadata) {
    Distinct(m.recordIds) && |rows| == |m.recordIds|
    && (forall i :: 0 <= i < |rows| ==>
          rows[i].application == m.application && rows[i].recipe == m.recipe && rows[i].fieldId == m.targetFieldId
          && rows[i].recordId == m.recordIds[i] == rows[i].cellRecordId && rows[i].valid && rows[i].value.Some?)
    && (forall i, j :: 0 <= i < j < |rows| ==>
          rows[i].cellResultId != rows[j].cellResultId && rows[i].runId != rows[j].runId)
  }

  method IsDistinct(keys: seq<string>) returns (ok: bool)
    ensures ok <==> Distinct(keys)
  {
    var seen: set<string> := {};
    var i := 0;
    while i < |keys|
      invariant 0 <= i <= |keys|
      invariant seen == set k | k in keys[..i]
      invariant Distinct(keys[..i])
    {
      if keys[i] in seen {
        var j :| 0 <= j < i && keys[..i][j] == keys[i];
        assert keys[j] == keys[i];
        return false;
      }
      seen := seen + {keys[i]};
      assert keys[..i + 1] == keys[..i] + [keys[i]];
      i := i + 1;
    }
    assert keys[..i] == keys;
    return true;
  }

  /** The preflight over the projected rows; `throws`: the stream failed after its last row. */
  method PreflightProjection(rows: seq<Row>, throws: bool, m: Metadata, hash: Row -> string)
    returns (proofs: Result<seq<Proof>, Refusal>)
    ensures proofs.Ok? <==> Covers(rows, m) && !throws
    ensures proofs.Ok? ==> |proofs.value| == |rows|
    ensures proofs.Ok? ==> forall i :: 0 <= i < |rows| ==> proofs.value[i] == ProofOf(rows[i], hash)
  {
    var distinct := IsDistinct(m.recordIds);
    if !distinct {
      return Err(Duplicate);
    }
    var proved: seq<Proof> := [];
    var records: set<string>, cells: set<string>, runs: set<string> := {}, {}, {};
    var i := 0;
    while i < |rows|
      invariant 0 <= i <= |rows| && |proved| == i <= |m.recordIds|
      invariant forall k :: 0 <= k < i ==> proved[k] == ProofOf(rows[k], hash)
      invariant forall k :: 0 <= k < i ==>
                  HasExactIdentity(rows[k], m, m.recordIds[k]) && rows[k].valid && rows[k].value.Some?
      invariant forall k, l :: 0 <= k < l < i ==>
                  rows[k].cellResultId != rows[l].cellResultId && rows[k].runId != rows[l].runId
      invariant records == (set k | 0 <= k < i :: rows[k].recordId)
      invariant cells == (set k | 0 <= k < i :: rows[k].cellResultId)
      invariant runs == (set k | 0 <= k < i :: rows[k].runId)
    {
      var row := rows[i];
      if row.recordId in records || row.cellResultId in cells || row.runId in runs {
        return Err(Duplicate);
      }
      if i >= |m.recordIds| {
        return Err(CountMismatch);
      }
      if !HasExactIdentity(row, m, m.recordIds[i]) {
        return Err(IdentityMismatch);
      }
      if !row.valid {
        return Err(Invalid);
      }
      if row.value.None? {
        return Err(Incomplete);
      }
      records, cells, runs := records + {row.recordId}, cells + {row.cellResultId}, runs + {row.runId};
      proved := proved + [ProofOf(row, hash)];
      i := i + 1;
    }
    if throws {
      return Err(Invalid);
    }
    return if |proved| != |m.recordIds| then Err(CountMismatch) else Ok(proved);
  }

  // ----- The overlay -----

  function BaseValue(values: seq<FieldValue>, fieldId: string): Option<FieldValue> {
    if values == [] then None
    else if values[0].fieldId == fieldId then Some(values[0])
    else BaseValue(values[1..], fieldId)
  }

  /** The selected fields in order, the target replaced by the cell's value, absent base values left out. */
  function Overlay(fields: seq<string>, values: seq<FieldValue>, target: string, value: int): seq<FieldValue> {
    if fields == [] then [] else OverlayField(fields[0], values, target, value) + Overlay(fields[1..], values, target, value)
  }

  function OverlayField(field: string, values: seq<FieldValue>, target: string, value: int): seq<FieldValue> {
    if field == target then [FieldValue(target, value)]
    else match BaseValue(values, field) case None => [] case Some(base) => [base]
  }

  function ExportOf(row: Row, fields: seq<string>): Exported
    requires row.value.Some?
  {
    Exported(row.recordId, Overlay(fields, row.values, row.fieldId, row.value.value))
  }

  predicate SameProof(row: Row, proof: Proof, hash: Row -> string) {
    row.recordId == proof.recordId && row.cellResultId == proof.cellResultId && row.runId == proof.runId
    && hash(row) == proof.hash
  }

  predicate StillProven(row: Row, proof: Proof, m: Metadata, hash: Row -> string) {
    HasExactIdentity(row, m, proof.recordId) && row.value.Some? && SameProof(row, proof, hash)
  }

  /** The second pass over the rows: it stops at the first row that is not the one proven. */
  method ExactOverlaidRecords(rows: seq<Row>, throws: bool, m: Metadata, fields: seq<string>, proofs: seq<Proof>,
                              hash: Row -> string)
    returns (records: seq<Exported>, finished: bool)
    ensures finished <==> !throws && |rows| == |proofs|
                          && forall i :: 0 <= i < |rows| ==> StillProven(rows[i], proofs[i], m, hash)
    ensures |records| <= |rows| && (finished ==> |records| == |rows|)
    ensures forall i :: 0 <= i < |records| ==> rows[i].value.Some? && rows[i].fieldId == m.targetFieldId
                                               && records[i] == ExportOf(rows[i], fields)
  {
    records, finished := [], false;
    var i := 0;
    while i < |rows|
      invariant 0 <= i <= |rows| && |records| == i <= |proofs|
      invariant forall k :: 0 <= k < i ==> StillProven(rows[k], proofs[k], m, hash)
      invariant forall k :: 0 <= k < i ==> records[k] == ExportOf(rows[k], fields)
    {
      if i >= |proofs| || !StillProven(rows[i], proofs[i], m, hash) {
        return;
      }
      records := records + [ExportOf(rows[i], fields)];
      i := i + 1;
    }
    finished := !throws && i == |proofs|;
  }

  ghost predicate Injective(hash: Row -> string) {
    forall a, b :: hash(a) == hash(b) ==> a == b
  }

  /** Two passes that both finish saw the same rows: the application's records, in order. */
  lemma SecondPassSawTheSameRows(first: seq<Row>, second: seq<Row>, m: Metadata, proofs: seq<Proof>,
                                 hash: Row -> string)
    requires Injective(hash) && Covers(first, m) && |proofs| == |first|
    requires forall i :: 0 <= i < |first| ==> proofs[i] == ProofOf(first[i], hash)
    requires |second| == |proofs|
    requires forall i :: 0 <= i < |second| ==> StillProven(second[i], proofs[i], m, hash)
    ensures second == first
    ensures forall i :: 0 <= i < |second| ==> second[i].recordId == m.recordIds[i]
  {
    forall i | 0 <= i < |first| ensures second[i] == first[i] {
      assert StillProven(second[i], proofs[i], m, hash);
    }
  }

  /** The overlay holds the cell's value for the target field and the record's own value for every other one. */
  lemma {:induction false} OverlayValue(fields: seq<string>, values: seq<FieldValue>, target: string, value: int,
                                        v: FieldValue)
    ensures v in Overlay(fields, values, target, value)
       <==> if v.fieldId == target then v.fieldId in fields && v.value == value
            else v.fieldId in fields && BaseValue(values, v.fieldId) == Some(v)
  {
    if fields != [] {
      OverlayValue(fields[1..], values, target, value, v);
      assert fields == [fields[0]] + fields[1..];
      BaseValueField(values, fields[0]);
    }
  }

  lemma Regroup(x: seq<FieldValue>, y: seq<FieldValue>, z: seq<FieldValue>)
    ensures x + (y + z) == x + y + z
  {
  }

  /** The values stand in the order of the selected fields, each field contributing its own. */
  lemma {:induction false} OverlayFollowsFields(front: seq<string>, back: seq<string>, values: seq<FieldValue>,
                                                target: string, value: int)
    ensures Overlay(front + back, values, target, value)
         == Overlay(front, values, target, value) + Overlay(back, values, target, value)
  {
    if front == [] {
      assert front + back == back;
    } else {
      OverlayFollowsFields(front[1..], back, values, target, value);
      assert (front + back)[1..] == front[1..] + back && (front + back)[0] == front[0];
      Regroup(OverlayField(front[0], values, target, value), Overlay(front[1..], values, target, value),
              Overlay(back, values, target, value));
    }
  }

  lemma {:induction false} BaseValueField(values: seq<FieldValue>, fieldId: string)
    ensures BaseValue(values, fieldId).Some? ==> BaseValue(values, fieldId).value.fieldId == fieldId
  {
    if values != [] {
      BaseValueField(values[1..], fieldId);
    }
  }
}
