/**
 The records of a produce or fetch message: a byte string holding record batches one
 after the other, each announcing its own length.
 */
module RecordBlob {
  import opened Wire

  /** The bytes of a batch that follow its length: everything else is inside `payload`. */
  datatype Batch = Batch(baseOffset: int, batchLength: int, payload: bytes) {

    predicate Typed() {
      FitsSigned(baseOffset, 8) && FitsSigned(batchLength, 4) && |payload| >= FIXED_BATCH_LENGTH
    }

    /** A batch that announces the length it has. */
    predicate WellFormed() {
      Typed() && batchLength == |payload|
    }
  }

  const FIXED_BATCH_LENGTH := 49

  function PutBatch(batch: Batch): (b: bytes)
    requires batch.Typed()
    ensures |b| == 12 + |batch.payload|
  {
    PutSigned(batch.baseOffset, 8) + PutSigned(batch.batchLength, 4) + batch.payload
  }

  predicate AllTyped(batches: seq<Batch>) {
    forall i {:trigger batches[i]} :: 0 <= i < |batches| ==> batches[i].Typed()
  }

  predicate AllWellFormed(batches: seq<Batch>) {
    forall i {:trigger batches[i]} :: 0 <= i < |batches| ==> batches[i].WellFormed()
  }

  function PutBatches(batches: seq<Batch>): (b: bytes)
    requires AllTyped(batches)
    ensures |b| >= 12 * |batches|
  {
    if batches == [] then [] else PutBatch(batches[0]) + PutBatches(batches[1..])
  }

  /** Batches written member by member: the fixed fields of each, but not its record data. */
  function PutBare(batches: seq<Batch>): bytes
    requires AllTyped(batches)
  {
    if batches == [] then [] else PutFixed(batches[0]) + PutBare(batches[1..])
  }

  function PutFixed(batch: Batch): bytes
    requires batch.Typed()
  {
    PutSigned(batch.baseOffset, 8) + PutSigned(batch.batchLength, 4) + batch.payload[..FIXED_BATCH_LENGTH]
  }

  /** Split one batch off the front of the blob. */
  function NextBatch(b: bytes): (p: Parsed<Batch>)
    ensures p.Parsed? ==> |p.rest| < |b|
  {
    if |b| < 12 then Failed(EndOfInput)
    else
      var length := GetSigned(b[8..12]);
      if length < 0 then Failed(Panics)
      else if length > |b| - 12 then Failed(Overflow)
      else if length < FIXED_BATCH_LENGTH then Failed(Overflow)
      else Parsed(Batch(GetSigned(b[..8]), length, b[12..12 + length]), b[12 + length..])
  }

  function SplitBatches(b: bytes): Result<seq<Batch>>
    decreases |b|
  {
    if b == [] then Ok([])
    else
      var first := NextBatch(b);
      if first.Failed? then Err(first.error)
      else
        var others := SplitBatches(first.rest);
        if others.Err? then others else Ok([first.value] + others.value)
  }

  lemma NextBatchIsFront(b: bytes)
    requires NextBatch(b).Parsed?
    ensures NextBatch(b).value.WellFormed()
    ensures PutBatch(NextBatch(b).value) + NextBatch(b).rest == b
  {
    var p := NextBatch(b);
    SignedCanonical(b[..8]);
    SignedCanonical(b[8..12]);
    assert b == b[..8] + b[8..12] + b[12..12 + p.value.batchLength] + p.rest;
  }

  lemma PutThenNext(batch: Batch, rest: bytes)
    requires batch.WellFormed()
    ensures NextBatch(PutBatch(batch) + rest) == Parsed(batch, rest)
  {
    var b := PutBatch(batch) + rest;
    assert b[..8] == PutSigned(batch.baseOffset, 8);
    assert b[8..12] == PutSigned(batch.batchLength, 4);
    SignedRoundTrip(batch.baseOffset, 8);
    SignedRoundTrip(batch.batchLength, 4);
    assert b[12..12 + |batch.payload|] == batch.payload;
    assert b[12 + |batch.payload|..] == rest;
  }

  /** A successful split gives well formed batches that concatenate to the blob, byte for byte. */
  lemma {:induction false} SplitIsExact(b: bytes)
    requires SplitBatches(b).Ok?
    ensures var batches := SplitBatches(b).value;
      AllWellFormed(batches) && PutBatches(batches) == b
    decreases |b|
  {
    if b != [] {
      var first := NextBatch(b);
      NextBatchIsFront(b);
      SplitIsExact(first.rest);
      var batches := SplitBatches(b).value;
      assert batches[1..] == SplitBatches(first.rest).value;
    }
  }

  /** Splitting a concatenation of well formed batches returns those batches. */
  lemma {:induction false} SplitOfConcatenation(batches: seq<Batch>)
    requires AllWellFormed(batches)
    ensures SplitBatches(PutBatches(batches)) == Ok(batches)
  {
    if batches != [] {
      PutThenNext(batches[0], PutBatches(batches[1..]));
      SplitOfConcatenation(batches[1..]);
      assert [batches[0]] + batches[1..] == batches;
    }
  }

  function Prepend(batches: seq<Batch>, others: Result<seq<Batch>>): Result<seq<Batch>> {
    if others.Err? then others else Ok(batches + others.value)
  }

  /** The accessor over a blob that is consumed batch by batch. */
  class BatchReader {
    var encoded: bytes

    constructor (encoded: bytes)
      ensures this.encoded == encoded
    {
      this.encoded := encoded;
    }

    /** One step: a batch taken off the front, nothing at the end, or a failure. */
    method NextElement() returns (r: Result<Option<Batch>>)
      modifies this
      ensures old(encoded) == [] ==> r == Ok(None) && encoded == []
      ensures old(encoded) != [] && NextBatch(old(encoded)).Failed? ==> r == Err(NextBatch(old(encoded)).error)
      ensures old(encoded) != [] && NextBatch(old(encoded)).Parsed? ==>
        r == Ok(Some(NextBatch(old(encoded)).value)) && encoded == NextBatch(old(encoded)).rest
    {
      if encoded == [] {
        return Ok(None);
      }
      if |encoded| < 12 {
        return Err(EndOfInput);
      }
      var baseOffset := GetSigned(encoded[..8]);
      var batchLength := GetSigned(encoded[8..12]);
      encoded := encoded[12..];
      if batchLength < 0 {
        return Err(Panics);
      }
      if batchLength > |encoded| {
        return Err(Overflow);
      }
      var payload := encoded[..batchLength];
      encoded := encoded[batchLength..];
      assert payload == old(encoded)[12..12 + batchLength] && encoded == old(encoded)[12 + batchLength..];
      if batchLength < FIXED_BATCH_LENGTH {
        return Err(Overflow);
      }
      return Ok(Some(Batch(baseOffset, batchLength, payload)));
    }

    /** Drain the blob, as a visitor collecting a vector does. */
    method Collect() returns (r: Result<seq<Batch>>)
      modifies this
      ensures r == SplitBatches(old(encoded))
    {
      var batches: seq<Batch> := [];
      ghost var whole := SplitBatches(encoded);
      assert whole.Ok? ==> batches + whole.value == whole.value;
      while true
        invariant SplitBatches(old(encoded)) == Prepend(batches, SplitBatches(encoded))
        decreases |encoded|
      {
        var next := NextElement();
        if next.Err? {
          return Err(next.error);
        }
        if next.value.None? {
          assert batches + [] == batches;
          return Ok(batches);
        }
        ghost var others := SplitBatches(encoded);
        assert others.Ok? ==>
          batches + ([next.value.value] + others.value) == batches + [next.value.value] + others.value;
        batches := batches + [next.value.value];
      }
    }
  }
}
