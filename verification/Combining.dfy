/**
 Merging the record batches that several producers sent for one partition into one
 batch: records are appended, their offset and timestamp deltas rewritten.
 */
module Combining {
  import opened Wire
  import opened RecordBlob

  const TWO_32 := 0x1_0000_0000
  const TWO_64 := 0x1_0000_0000_0000_0000

  type i32 = x: int | -0x8000_0000 <= x < 0x8000_0000
  type i64 = x: int | -0x8000_0000_0000_0000 <= x < 0x8000_0000_0000_0000

  /** Two's complement arithmetic keeps the low 32 or 64 bits of a sum. */
  function Wrap32(x: int): (r: i32)
    ensures -0x8000_0000 <= x < 0x8000_0000 ==> r == x
    ensures (r - x) % TWO_32 == 0
  {
    (x + 0x8000_0000) % TWO_32 - 0x8000_0000
  }

  function Wrap64(x: int): (r: i64)
    ensures -0x8000_0000_0000_0000 <= x < 0x8000_0000_0000_0000 ==> r == x
    ensures (r - x) % TWO_64 == 0
  {
    (x + 0x8000_0000_0000_0000) % TWO_64 - 0x8000_0000_0000_0000
  }

  /** What the producer put in a record, which merging must not touch. */
  datatype Body = Body(attributes: int, key: Option<bytes>, value: Option<bytes>, headers: seq<(bytes, bytes)>)

  datatype Record = Record(body: Body, timestampDelta: i64, offsetDelta: i32)

  /** An inflated batch. `others` are the header fields merging takes from the first batch. */
  datatype Inflated = Inflated(
    others: seq<int>,
    lastOffsetDelta: i32,
    baseTimestamp: i64,
    maxTimestamp: i64,
    records: seq<Record>)

  /** The two library calls, either of which may fail. */
  datatype Codec = Codec(inflate: Batch -> Result<Inflated>, deflate: Inflated -> Result<Batch>) {

    /** What was deflated inflates again, up to header fields that deflating works out anew. */
    ghost predicate Lossless() {
      forall batch: Inflated {:trigger deflate(batch)} :: deflate(batch).Ok? ==>
        var again := inflate(deflate(batch).value);
        again.Ok? && again.value.(others := batch.others) == batch
    }
  }

  // ---- the merged batch, in closed form

  function Moved(record: Record, offset: int, time: int): Record {
    Record(record.body, Wrap64(record.timestampDelta + time), Wrap32(record.offsetDelta + offset))
  }

  function MovedAll(records: seq<Record>, offset: int, time: int): (r: seq<Record>)
    ensures |r| == |records|
    ensures forall i :: 0 <= i < |records| ==> r[i] == Moved(records[i], offset, time)
  {
    seq(|records|, i requires 0 <= i < |records| => Moved(records[i], offset, time))
  }

  /** The sum of the last offset deltas. */
  function Lasts(batches: seq<Inflated>): int {
    if batches == [] then 0
    else Lasts(batches[..|batches| - 1]) + batches[|batches| - 1].lastOffsetDelta
  }

  /** Every batch moved by the last offset deltas before it and to the given base timestamp. */
  function Gathered(batches: seq<Inflated>, base: i64): seq<Record> {
    if batches == [] then []
    else
      var before, last := batches[..|batches| - 1], batches[|batches| - 1];
      Gathered(before, base) + MovedAll(last.records, Lasts(before), base - last.baseTimestamp)
  }

  function Latest(batches: seq<Inflated>): i64
    requires batches != []
  {
    var last := batches[|batches| - 1];
    if |batches| == 1 then last.maxTimestamp
    else
      var before := Latest(batches[..|batches| - 1]);
      if before < last.maxTimestamp then last.maxTimestamp else before
  }

  /** The maximum of the max timestamps: one of them, and none is later. */
  lemma {:induction false} LatestIsMaximum(batches: seq<Inflated>)
    requires batches != []
    ensures forall i :: 0 <= i < |batches| ==> batches[i].maxTimestamp <= Latest(batches)
    ensures exists i :: 0 <= i < |batches| && batches[i].maxTimestamp == Latest(batches)
  {
    if |batches| == 1 {
      assert batches[0].maxTimestamp == Latest(batches);
    } else {
      var before := batches[..|batches| - 1];
      LatestIsMaximum(before);
      assert forall i :: 0 <= i < |before| ==> before[i] == batches[i];
      var i :| 0 <= i < |before| && before[i].maxTimestamp == Latest(before);
      assert batches[i].maxTimestamp == Latest(before);
      assert batches[|before|].maxTimestamp <= Latest(batches);
    }
  }

  function Merged(batches: seq<Inflated>): Inflated
    requires batches != []
  {
    Inflated(batches[0].others, Wrap32(Lasts(batches)), batches[0].baseTimestamp, Latest(batches),
             Gathered(batches, batches[0].baseTimestamp))
  }

  /** All the batches inflated, or the first failure. */
  function InflateAll(codec: Codec, batches: seq<Batch>): (r: Result<seq<Inflated>>)
    ensures r.Ok? ==> |r.value| == |batches|
  {
    if batches == [] then Ok([])
    else
      var before := InflateAll(codec, batches[..|batches| - 1]);
      if before.Err? then before
      else
        var last := codec.inflate(batches[|batches| - 1]);
        if last.Err? then Err(last.error) else Ok(before.value + [last.value])
  }

  /** All are inflated exactly if each can be. */
  lemma {:induction false} InflateAllEach(codec: Codec, batches: seq<Batch>)
    ensures InflateAll(codec, batches).Ok? <==> forall i :: 0 <= i < |batches| ==> codec.inflate(batches[i]).Ok?
    ensures InflateAll(codec, batches).Ok? ==>
      forall i :: 0 <= i < |batches| ==> codec.inflate(batches[i]) == Ok(InflateAll(codec, batches).value[i])
  {
    if batches != [] {
      var before := batches[..|batches| - 1];
      InflateAllEach(codec, before);
      assert forall i :: 0 <= i < |before| ==> before[i] == batches[i];
    }
  }

  function Combined(codec: Codec, batches: seq<Batch>): Result<seq<Batch>> {
    if |batches| < 2 then Ok(batches)
    else
      var inflated := InflateAll(codec, batches);
      if inflated.Err? then Err(inflated.error)
      else
        var deflated := codec.deflate(Merged(inflated.value));
        if deflated.Err? then Err(deflated.error) else Ok([deflated.value])
  }

  lemma Wrap32Adds(a: int, b: int)
    ensures Wrap32(Wrap32(a) + b) == Wrap32(a + b)
  {
  }

  lemma Wrap64Adds(a: int, b: int)
    ensures Wrap64(a + Wrap64(b)) == Wrap64(a + b)
  {
  }

  lemma {:induction false} FailureIsFirst(codec: Codec, batches: seq<Batch>, n: nat)
    requires n < |batches| && InflateAll(codec, batches[..n]).Ok? && codec.inflate(batches[n]).Err?
    ensures InflateAll(codec, batches) == Err(codec.inflate(batches[n]).error)
    decreases |batches|
  {
    var front := batches[..|batches| - 1];
    if n == |batches| - 1 {
      assert front == batches[..n];
    } else {
      assert front[..n] == batches[..n];
      FailureIsFirst(codec, front, n);
    }
  }

  lemma {:induction false} InflateOneMore(codec: Codec, batches: seq<Batch>, batch: Batch)
    requires InflateAll(codec, batches).Ok? && codec.inflate(batch).Ok?
    ensures InflateAll(codec, batches + [batch]) == Ok(InflateAll(codec, batches).value + [codec.inflate(batch).value])
  {
    AllButLast(batches, [batch]);
  }

  /** The sink with the records of one more batch, rewritten against its running totals. */
  function Appended(sink: Inflated, batch: Inflated): Inflated {
    Inflated(sink.others, Wrap32(sink.lastOffsetDelta + batch.lastOffsetDelta), sink.baseTimestamp,
             if sink.maxTimestamp < batch.maxTimestamp then batch.maxTimestamp else sink.maxTimestamp,
             sink.records + MovedAll(batch.records, sink.lastOffsetDelta,
               Wrap64(sink.baseTimestamp - batch.baseTimestamp)))
  }

  method AppendTo(sink: Inflated, batch: Inflated) returns (r: Inflated)
    ensures r == Appended(sink, batch)
  {
    var records := sink.records;
    ghost var moved := MovedAll(batch.records, sink.lastOffsetDelta, Wrap64(sink.baseTimestamp - batch.baseTimestamp));
    for i := 0 to |batch.records|
      invariant records == sink.records + moved[..i]
    {
      var record := batch.records[i];
      Grow(moved, i);
      Associate(sink.records, moved[..i], [moved[i]]);
      records := records + [Record(record.body,
        Wrap64(record.timestampDelta + Wrap64(sink.baseTimestamp - batch.baseTimestamp)),
        Wrap32(record.offsetDelta + sink.lastOffsetDelta))];
    }
    assert moved[..|batch.records|] == moved;
    r := Inflated(sink.others, Wrap32(sink.lastOffsetDelta + batch.lastOffsetDelta), sink.baseTimestamp,
      if sink.maxTimestamp < batch.maxTimestamp then batch.maxTimestamp else sink.maxTimestamp, records);
  }

  /** Totals kept in 32 and 64 bits move a record to where the true totals would. */
  lemma WrappedMove(records: seq<Record>, offset: int, time: int)
    ensures MovedAll(records, Wrap32(offset), Wrap64(time)) == MovedAll(records, offset, time)
  {
    forall i | 0 <= i < |records|
      ensures Moved(records[i], Wrap32(offset), Wrap64(time)) == Moved(records[i], offset, time)
    {
      Wrap32Adds(offset, records[i].offsetDelta);
      Wrap64Adds(records[i].timestampDelta, time);
    }
  }

  /** What one more batch adds to the running sink is what the closed form says. */
  lemma {:induction false} MergedGrows(batches: seq<Inflated>, batch: Inflated)
    requires batches != []
    ensures Merged(batches + [batch]) == Appended(Merged(batches), batch)
  {
    var all := batches + [batch];
    AllButLast(batches, [batch]);
    assert all[0] == batches[0];
    Wrap32Adds(Lasts(batches), batch.lastOffsetDelta);
    WrappedMove(batch.records, Lasts(batches), batches[0].baseTimestamp - batch.baseTimestamp);
    assert Lasts(all) == Lasts(batches) + batch.lastOffsetDelta;
    assert Gathered(all, all[0].baseTimestamp) == Gathered(batches, all[0].baseTimestamp) +
      MovedAll(batch.records, Lasts(batches), all[0].baseTimestamp - batch.baseTimestamp);
  }

  lemma MergedOfOne(batch: Inflated)
    ensures Merged([batch]) == batch
  {
    var moved := MovedAll(batch.records, 0, 0);
    assert forall i :: 0 <= i < |moved| ==> moved[i] == batch.records[i];
    assert moved == batch.records;
    assert [batch][..0] == [];
    assert Gathered([batch], batch.baseTimestamp) == [] + moved;
    assert Lasts([batch]) == batch.lastOffsetDelta;
  }

  /** Batch after batch merged into the first one. */
  method Gather(codec: Codec, batches: seq<Batch>, first: Inflated) returns (r: Result<Inflated>)
    requires batches != [] && codec.inflate(batches[0]) == Ok(first)
    ensures InflateAll(codec, batches).Err? ==> r == Err(InflateAll(codec, batches).error)
    ensures InflateAll(codec, batches).Ok? ==> r == Ok(Merged(InflateAll(codec, batches).value))
  {
    var sink := first;
    ghost var done := [first];
    Grow(batches, 0);
    InflateOneMore(codec, [], batches[0]);
    assert batches[..1] == [] + [batches[0]] && [] + done == done;
    MergedOfOne(first);
    for i := 1 to |batches|
      invariant InflateAll(codec, batches[..i]) == Ok(done) && |done| == i
      invariant sink == Merged(done)
    {
      var next := codec.inflate(batches[i]);
      if next.Err? {
        FailureIsFirst(codec, batches, i);
        return Err(next.error);
      }
      MergedGrows(done, next.value);
      sink := AppendTo(sink, next.value);
      Grow(batches, i);
      InflateOneMore(codec, batches[..i], batches[i]);
      done := done + [next.value];
    }
    assert batches[..|batches|] == batches;
    return Ok(sink);
  }

  /** The merge as it is carried out. */
  method Combine(codec: Codec, batches: seq<Batch>) returns (r: Result<seq<Batch>>)
    ensures r == Combined(codec, batches)
  {
    if |batches| < 2 {
      return Ok(batches);
    }
    var first := codec.inflate(batches[0]);
    if first.Err? {
      FailureIsFirst(codec, batches, 0);
      return Err(first.error);
    }
    var sink := Gather(codec, batches, first.value);
    if sink.Err? {
      return Err(sink.error);
    }
    var deflated := codec.deflate(sink.value);
    if deflated.Err? {
      return Err(deflated.error);
    }
    return Ok([deflated.value]);
  }

  // ---- conservation

  function Bodies(records: seq<Record>): (r: seq<Body>)
    ensures |r| == |records|
  {
    seq(|records|, i requires 0 <= i < |records| => records[i].body)
  }

  function AllBodies(batches: seq<Inflated>): seq<Body> {
    if batches == [] then []
    else AllBodies(batches[..|batches| - 1]) + Bodies(batches[|batches| - 1].records)
  }

  /** Nothing the producers sent is lost, duplicated, reordered or changed. */
  lemma {:induction false} GatheredKeepsBodies(batches: seq<Inflated>, base: i64)
    ensures Bodies(Gathered(batches, base)) == AllBodies(batches)
  {
    if batches != [] {
      var before, last := batches[..|batches| - 1], batches[|batches| - 1];
      GatheredKeepsBodies(before, base);
      var moved := MovedAll(last.records, Lasts(before), base - last.baseTimestamp);
      assert Bodies(moved) == Bodies(last.records);
      assert Bodies(Gathered(before, base) + moved) == Bodies(Gathered(before, base)) + Bodies(moved);
    }
  }

  lemma {:induction false} BodiesOfOne(batch: Inflated)
    ensures AllBodies([batch]) == Bodies(batch.records)
  {
    assert [batch][..0] == [];
  }

  /** Whatever comes out of a successful merge carries the bodies that went in. */
  lemma {:induction false} CombinedKeepsBodies(codec: Codec, batches: seq<Batch>)
    requires codec.Lossless() && InflateAll(codec, batches).Ok? && Combined(codec, batches).Ok?
    ensures InflateAll(codec, Combined(codec, batches).value).Ok?
    ensures AllBodies(InflateAll(codec, Combined(codec, batches).value).value) ==
      AllBodies(InflateAll(codec, batches).value)
  {
    if |batches| >= 2 {
      var inflated := InflateAll(codec, batches).value;
      var merged := Merged(inflated);
      GatheredKeepsBodies(inflated, inflated[0].baseTimestamp);
      var out := Combined(codec, batches).value;
      assert out == [codec.deflate(merged).value];
      var again := codec.inflate(out[0]).value;
      InflateOneMore(codec, [], out[0]);
      BodiesOfOne(again);
    }
  }

  // ---- where each record ends up

  /** The number of records in the batches. */
  function Size(batches: seq<Inflated>): nat {
    if batches == [] then 0 else Size(batches[..|batches| - 1]) + |batches[|batches| - 1].records|
  }

  /** Record `j` of batch `i` comes after every record of the batches before it. */
  lemma {:induction false} GatheredAt(batches: seq<Inflated>, base: i64, i: nat, j: nat)
    requires i < |batches| && j < |batches[i].records|
    ensures Size(batches[..i]) + j < |Gathered(batches, base)| == Size(batches)
    ensures Gathered(batches, base)[Size(batches[..i]) + j] ==
      Moved(batches[i].records[j], Lasts(batches[..i]), base - batches[i].baseTimestamp)
  {
    var before, last := batches[..|batches| - 1], batches[|batches| - 1];
    var moved := MovedAll(last.records, Lasts(before), base - last.baseTimestamp);
    GatheredSize(before, base);
    assert Gathered(batches, base) == Gathered(before, base) + moved;
    if i < |batches| - 1 {
      GatheredAt(before, base, i, j);
      assert before[..i] == batches[..i];
    }
  }

  lemma {:induction false} GatheredSize(batches: seq<Inflated>, base: i64)
    ensures |Gathered(batches, base)| == Size(batches)
  {
    if batches != [] {
      GatheredSize(batches[..|batches| - 1], base);
    }
  }

  predicate FitsI64(x: int) {
    -0x8000_0000_0000_0000 <= x < 0x8000_0000_0000_0000
  }

  /** The distance is half the range, and the delta overflows with it. */
  predicate HalfTurn(delta: i64, distance: int) {
    || (distance == 0x8000_0000_0000_0000 && delta >= 0)
    || (distance == -0x8000_0000_0000_0000 && delta < 0)
  }

  /** The time a record of the batch was created. */
  function Timestamp(base: i64, record: Record): int {
    base + record.timestampDelta
  }

  /**
   A record's timestamp moves by twice the distance between the first base timestamp and
   its own batch's, exactly while the new delta fits and modulo two to the 64th otherwise.
   So it is kept if and only if the two base timestamps agree, or lie two to the 63rd apart
   and the wrap takes the new delta back by twice that.
   */
  lemma TimestampsMoveTwice(batches: seq<Inflated>, i: nat, j: nat)
    requires i < |batches| && j < |batches[i].records|
    ensures Size(batches[..i]) + j < |Merged(batches).records|
    ensures
      var was := batches[i].records[j];
      var now := Merged(batches).records[Size(batches[..i]) + j];
      var distance := batches[0].baseTimestamp - batches[i].baseTimestamp;
      var move := Timestamp(Merged(batches).baseTimestamp, now) - Timestamp(batches[i].baseTimestamp, was);
      && (move - 2 * distance) % TWO_64 == 0
      && (FitsI64(was.timestampDelta + distance) ==> move == 2 * distance)
      && (move == 0 <==> distance == 0 || HalfTurn(was.timestampDelta, distance))
  {
    GatheredAt(batches, batches[0].baseTimestamp, i, j);
    MoveOfDelta(batches[i].records[j].timestampDelta, batches[0].baseTimestamp - batches[i].baseTimestamp);
  }

  lemma MoveOfDelta(delta: i64, distance: int)
    requires -TWO_64 < distance < TWO_64
    ensures
      var move := distance + Wrap64(delta + distance) - delta;
      && (move - 2 * distance) % TWO_64 == 0
      && (FitsI64(delta + distance) ==> move == 2 * distance)
      && (move == 0 <==> distance == 0 || HalfTurn(delta, distance))
  {
  }

  /**
   The merged batch ends no earlier than any of the batches and as one of them does; everything
   else in its header but the last offset delta is that of the first.
   */
  lemma MergedHeader(batches: seq<Inflated>)
    requires batches != []
    ensures forall i :: 0 <= i < |batches| ==> batches[i].maxTimestamp <= Merged(batches).maxTimestamp
    ensures exists i :: 0 <= i < |batches| && batches[i].maxTimestamp == Merged(batches).maxTimestamp
    ensures Merged(batches).others == batches[0].others && Merged(batches).baseTimestamp == batches[0].baseTimestamp
    ensures |Merged(batches).records| == Size(batches)
    ensures 0 <= Lasts(batches) < 0x8000_0000 ==> Merged(batches).lastOffsetDelta == Lasts(batches)
  {
    LatestIsMaximum(batches);
    GatheredSize(batches, batches[0].baseTimestamp);
  }

  /** The totals of last offset deltas and of records are sums: those of one batch are its own. */
  lemma {:induction false} TotalsAdd(a: seq<Inflated>, b: seq<Inflated>)
    ensures Lasts(a + b) == Lasts(a) + Lasts(b) && Size(a + b) == Size(a) + Size(b)
    ensures |a| == 1 ==> Lasts(a) == a[0].lastOffsetDelta && Size(a) == |a[0].records|
  {
    if b == [] {
      assert a + b == a;
    } else {
      AllButLast(a, b);
      TotalsAdd(a, b[..|b| - 1]);
    }
  }

  /** What the producer put in a record is found in the merged batch, where its record went. */
  lemma BodyStays(batches: seq<Inflated>, i: nat, j: nat)
    requires i < |batches| && j < |batches[i].records|
    ensures Size(batches[..i]) + j < |Merged(batches).records|
    ensures Merged(batches).records[Size(batches[..i]) + j].body == batches[i].records[j].body
  {
    GatheredAt(batches, batches[0].baseTimestamp, i, j);
  }

  /** The offset delta of a record is shifted by the last offset deltas of the batches before its own. */
  lemma OffsetsShift(batches: seq<Inflated>, i: nat, j: nat)
    requires i < |batches| && j < |batches[i].records|
    ensures Size(batches[..i]) + j < |Merged(batches).records|
    ensures Merged(batches).records[Size(batches[..i]) + j].offsetDelta ==
      Wrap32(batches[i].records[j].offsetDelta + Lasts(batches[..i]))
  {
    GatheredAt(batches, batches[0].baseTimestamp, i, j);
  }

  // ---- order of the offsets

  /** Offset deltas that never fall (or, when strict, always rise) from `low` to at most `high`. */
  predicate Rising(records: seq<Record>, strict: bool, low: int, high: int) {
    && (forall i :: 0 <= i < |records| ==> low <= records[i].offsetDelta <= high)
    && (forall i, j :: 0 <= i < j < |records| ==>
          records[i].offsetDelta <= records[j].offsetDelta &&
            (strict ==> records[i].offsetDelta < records[j].offsetDelta))
  }

  /** Offset deltas that rise from 0 to this one, stopping short of it when strict. */
  predicate RisesTo(records: seq<Record>, strict: bool, last: int) {
    last >= 0 && Rising(records, strict, 0, if strict then last - 1 else last)
  }

  /** A batch whose deltas rise to its last offset delta. */
  predicate Ordered(batch: Inflated, strict: bool) {
    RisesTo(batch.records, strict, batch.lastOffsetDelta)
  }

  predicate AllOrdered(batches: seq<Inflated>, strict: bool) {
    forall i {:trigger Ordered(batches[i], strict)} :: 0 <= i < |batches| ==> Ordered(batches[i], strict)
  }

  lemma RisingJoins(a: seq<Record>, b: seq<Record>, strict: bool, top: int, low: int, high: int)
    requires Rising(a, strict, 0, top) && Rising(b, strict, low, high) && 0 <= low && top <= high
    requires top <= low && (strict ==> top < low)
    ensures Rising(a + b, strict, 0, high)
  {
  }

  lemma MovedRises(records: seq<Record>, strict: bool, high: int, offset: nat, time: int)
    requires Rising(records, strict, 0, high) && high + offset < 0x8000_0000
    ensures Rising(MovedAll(records, offset, time), strict, offset, high + offset)
  {
  }

  /** Records that rise to `lasts`, followed by those of one more ordered batch moved up by it. */
  lemma StepRises(records: seq<Record>, last: Inflated, strict: bool, lasts: nat, time: int, joined: seq<Record>)
    requires RisesTo(records, strict, lasts) && Ordered(last, strict) && lasts + last.lastOffsetDelta < 0x8000_0000
    requires joined == records + MovedAll(last.records, lasts, time)
    ensures RisesTo(joined, strict, lasts + last.lastOffsetDelta)
  {
    var top := if strict then lasts - 1 else lasts;
    var high := if strict then last.lastOffsetDelta - 1 else last.lastOffsetDelta;
    MovedRises(last.records, strict, high, lasts, time);
    RisingJoins(records, MovedAll(last.records, lasts, time), strict, top, lasts, high + lasts);
  }

  lemma GatheredLast(batches: seq<Inflated>, base: i64)
    requires batches != []
    ensures
      var before, last := batches[..|batches| - 1], batches[|batches| - 1];
      && Lasts(batches) == Lasts(before) + last.lastOffsetDelta
      && Gathered(batches, base) ==
         Gathered(before, base) + MovedAll(last.records, Lasts(before), base - last.baseTimestamp)
  {
  }

  lemma OrderedBefore(batches: seq<Inflated>, strict: bool)
    requires batches != [] && AllOrdered(batches, strict)
    ensures Ordered(batches[|batches| - 1], strict) && AllOrdered(batches[..|batches| - 1], strict)
  {
    var before := batches[..|batches| - 1];
    forall i | 0 <= i < |before| ensures Ordered(before[i], strict) {
      assert before[i] == batches[i];
    }
  }

  lemma {:induction false} GatheredRises(batches: seq<Inflated>, base: i64, strict: bool)
    requires AllOrdered(batches, strict) && Lasts(batches) < 0x8000_0000
    ensures RisesTo(Gathered(batches, base), strict, Lasts(batches))
  {
    if batches != [] {
      var before := batches[..|batches| - 1];
      OrderedBefore(batches, strict);
      GatheredRises(before, base, strict);
      GatheredLast(batches, base);
      var last := batches[|batches| - 1];
      StepRises(Gathered(before, base), last, strict, Lasts(before), base - last.baseTimestamp,
        Gathered(batches, base));
    }
  }

  /** The merged batch is in offset order, and ends where its last offset delta says. */
  lemma MergedRises(batches: seq<Inflated>, strict: bool)
    requires batches != [] && AllOrdered(batches, strict) && Lasts(batches) < 0x8000_0000
    ensures Ordered(Merged(batches), strict) && Merged(batches).lastOffsetDelta == Lasts(batches)
  {
    GatheredRises(batches, batches[0].baseTimestamp, strict);
  }

  // ---- exactly when no offset is repeated

  predicate StrictlyRising(records: seq<Record>) {
    forall i, j :: 0 <= i < j < |records| ==> records[i].offsetDelta < records[j].offsetDelta
  }

  /** The last delta of batch `i` and the first of the later batch `k`, where merging puts them. */
  predicate Meet(batches: seq<Inflated>, i: int, k: int) {
    0 <= i < k < |batches| && batches[i].records != [] && batches[k].records != [] ==>
      var last, first := batches[i].records[|batches[i].records| - 1].offsetDelta, batches[k].records[0].offsetDelta;
      Lasts(batches[..i]) + last < Lasts(batches[..k]) + first
  }

  predicate AllMeet(batches: seq<Inflated>) {
    forall i, k :: 0 <= i < k < |batches| ==> Meet(batches, i, k)
  }

  predicate EachStrict(batches: seq<Inflated>) {
    forall i {:trigger StrictlyRising(batches[i].records)} :: 0 <= i < |batches| ==> StrictlyRising(batches[i].records)
  }

  lemma {:induction false} LastsGrow(batches: seq<Inflated>, i: nat)
    requires i <= |batches| && AllOrdered(batches, false)
    ensures 0 <= Lasts(batches[..i]) <= Lasts(batches)
    ensures i < |batches| ==> Lasts(batches[..i]) + batches[i].lastOffsetDelta <= Lasts(batches)
    decreases |batches|
  {
    if batches == [] {
      assert batches[..i] == [];
    } else {
      var before, last := batches[..|batches| - 1], batches[|batches| - 1];
      assert Ordered(last, false);
      assert forall k :: 0 <= k < |before| ==> before[k] == batches[k];
      LastsGrow(before, if i < |batches| then i else 0);
      assert i < |batches| ==> batches[..i] == before[..i];
      assert i == |batches| ==> batches[..i] == batches;
    }
  }

  lemma {:induction false} SizeGrows(batches: seq<Inflated>, i: nat)
    requires i < |batches|
    ensures Size(batches[..i]) + |batches[i].records| <= Size(batches)
    decreases |batches|
  {
    if i == |batches| - 1 {
      assert batches[..i] == batches[..|batches| - 1];
    } else {
      var before := batches[..|batches| - 1];
      SizeGrows(before, i);
      assert before[..i] == batches[..i];
    }
  }

  /** Without overflow a record's delta is its own and the last offset deltas before its batch. */
  lemma {:induction false} DeltaAt(batches: seq<Inflated>, base: i64, i: nat, j: nat)
    requires AllOrdered(batches, false) && Lasts(batches) < 0x8000_0000
    requires i < |batches| && j < |batches[i].records|
    ensures Size(batches[..i]) + j < |Gathered(batches, base)|
    ensures Gathered(batches, base)[Size(batches[..i]) + j].offsetDelta ==
            batches[i].records[j].offsetDelta + Lasts(batches[..i])
  {
    GatheredAt(batches, base, i, j);
    LastsGrow(batches, i);
    assert Ordered(batches[i], false);
  }

  /** Every place in the merged batch belongs to a record of one of the batches. */
  lemma {:induction false} Locate(batches: seq<Inflated>, p: nat) returns (i: nat, j: nat)
    requires p < Size(batches)
    ensures i < |batches| && j < |batches[i].records| && p == Size(batches[..i]) + j
  {
    var before := batches[..|batches| - 1];
    if p < Size(before) {
      i, j := Locate(before, p);
      assert before[..i] == batches[..i];
    } else {
      i, j := |batches| - 1, p - Size(before);
    }
  }

  lemma SizesInOrder(batches: seq<Inflated>, i: nat, k: nat)
    requires i < k <= |batches|
    ensures Size(batches[..i]) + |batches[i].records| <= Size(batches[..k])
  {
    SizeGrows(batches[..k], i);
    assert batches[..k][..i] == batches[..i];
  }

  /** Places in order belong to batches in order. */
  lemma {:induction false} LocatedInOrder(batches: seq<Inflated>, i: nat, j: nat, k: nat, l: nat)
    requires i < |batches| && j < |batches[i].records| && k < |batches| && l < |batches[k].records|
    requires Size(batches[..i]) + j < Size(batches[..k]) + l
    ensures i <= k && (i == k ==> j < l)
  {
    if k < i {
      SizesInOrder(batches, k, i);
    }
  }

  lemma {:induction false} LocatePair(batches: seq<Inflated>, p: nat, q: nat) returns (i: nat, j: nat, k: nat, l: nat)
    requires p < q < Size(batches)
    ensures i <= k < |batches| && j < |batches[i].records| && l < |batches[k].records| && (i == k ==> j < l)
    ensures p == Size(batches[..i]) + j && q == Size(batches[..k]) + l
  {
    i, j := Locate(batches, p);
    k, l := Locate(batches, q);
    LocatedInOrder(batches, i, j, k, l);
  }

  lemma {:induction false} StrictIsNeeded(batches: seq<Inflated>, base: i64)
    requires AllOrdered(batches, false) && Lasts(batches) < 0x8000_0000 && StrictlyRising(Gathered(batches, base))
    ensures EachStrict(batches) && AllMeet(batches)
  {
    forall i | 0 <= i < |batches| ensures StrictlyRising(batches[i].records) {
      forall j, l | 0 <= j < l < |batches[i].records|
        ensures batches[i].records[j].offsetDelta < batches[i].records[l].offsetDelta
      {
        DeltaAt(batches, base, i, j);
        DeltaAt(batches, base, i, l);
      }
    }
    forall i, k | 0 <= i < k < |batches| ensures Meet(batches, i, k) {
      if batches[i].records != [] && batches[k].records != [] {
        DeltaAt(batches, base, i, |batches[i].records| - 1);
        DeltaAt(batches, base, k, 0);
        SizesInOrder(batches, i, k);
      }
    }
  }

  /** Two records of one or of two batches, in the order of their places. */
  lemma {:induction false} StrictPair(batches: seq<Inflated>, i: nat, j: nat, k: nat, l: nat)
    requires AllOrdered(batches, false) && EachStrict(batches) && AllMeet(batches)
    requires i <= k < |batches| && j < |batches[i].records| && l < |batches[k].records| && (i == k ==> j < l)
    ensures batches[i].records[j].offsetDelta + Lasts(batches[..i]) <
            batches[k].records[l].offsetDelta + Lasts(batches[..k])
  {
    assert StrictlyRising(batches[i].records) && StrictlyRising(batches[k].records);
    if i < k {
      assert Meet(batches, i, k);
      assert batches[i].records[j].offsetDelta <= batches[i].records[|batches[i].records| - 1].offsetDelta;
      assert batches[k].records[0].offsetDelta <= batches[k].records[l].offsetDelta;
    }
  }

  lemma {:induction false} StrictIsEnough(batches: seq<Inflated>, base: i64)
    requires AllOrdered(batches, false) && Lasts(batches) < 0x8000_0000 && EachStrict(batches) && AllMeet(batches)
    ensures StrictlyRising(Gathered(batches, base))
  {
    var merged := Gathered(batches, base);
    forall p, q | 0 <= p < q < |merged| ensures merged[p].offsetDelta < merged[q].offsetDelta {
      StrictAt(batches, base, p, q);
    }
  }

  lemma {:induction false} StrictAt(batches: seq<Inflated>, base: i64, p: nat, q: nat)
    requires AllOrdered(batches, false) && Lasts(batches) < 0x8000_0000 && EachStrict(batches) && AllMeet(batches)
    requires p < q < |Gathered(batches, base)|
    ensures Gathered(batches, base)[p].offsetDelta < Gathered(batches, base)[q].offsetDelta
  {
    GatheredSize(batches, base);
    var i, j, k, l := LocatePair(batches, p, q);
    StrictPlaces(batches, base, i, j, k, l);
  }

  lemma {:induction false} StrictPlaces(batches: seq<Inflated>, base: i64, i: nat, j: nat, k: nat, l: nat)
    requires AllOrdered(batches, false) && Lasts(batches) < 0x8000_0000 && EachStrict(batches) && AllMeet(batches)
    requires i <= k < |batches| && j < |batches[i].records| && l < |batches[k].records| && (i == k ==> j < l)
    ensures Size(batches[..i]) + j < |Gathered(batches, base)| && Size(batches[..k]) + l < |Gathered(batches, base)|
    ensures Gathered(batches, base)[Size(batches[..i]) + j].offsetDelta <
            Gathered(batches, base)[Size(batches[..k]) + l].offsetDelta
  {
    DeltaAt(batches, base, i, j);
    DeltaAt(batches, base, k, l);
    StrictPair(batches, i, j, k, l);
  }

  /**
   Batches in offset order merge without repeating an offset if and only if each repeats
   none and wherever two of them meet, the earlier ends below where the later starts.
   */
  lemma StrictIffAllMeet(batches: seq<Inflated>)
    requires batches != [] && AllOrdered(batches, false) && Lasts(batches) < 0x8000_0000
    ensures StrictlyRising(Merged(batches).records) <==> EachStrict(batches) && AllMeet(batches)
  {
    var base := batches[0].baseTimestamp;
    if StrictlyRising(Gathered(batches, base)) {
      StrictIsNeeded(batches, base);
    }
    if EachStrict(batches) && AllMeet(batches) {
      StrictIsEnough(batches, base);
    }
  }

  /** Offset deltas 0, 1, 2 and so on up to the last offset delta, as a producer numbers a batch. */
  predicate Dense(batch: Inflated) {
    && |batch.records| == batch.lastOffsetDelta + 1
    && (forall i :: 0 <= i < |batch.records| ==> batch.records[i].offsetDelta == i)
  }

  predicate AllDense(batches: seq<Inflated>) {
    forall i {:trigger batches[i]} :: 0 <= i < |batches| ==> batches[i].records != [] && Dense(batches[i])
  }

  /** The first record of each later batch repeats the offset of the last record before it. */
  lemma DenseOffsetsRepeat(batches: seq<Inflated>, i: nat)
    requires 0 < i < |batches| && (forall k {:trigger batches[k]} :: 0 <= k < |batches| ==> Dense(batches[k]))
    requires batches[i - 1].records != [] && batches[i].records != []
    ensures 1 <= Size(batches[..i]) < |Merged(batches).records|
    ensures Merged(batches).records[Size(batches[..i])].offsetDelta ==
            Merged(batches).records[Size(batches[..i]) - 1].offsetDelta
  {
    OffsetsShift(batches, i, 0);
    var j := |batches[i - 1].records| - 1;
    OffsetsShift(batches, i - 1, j);
    assert batches[..i][..i - 1] == batches[..i - 1];
    assert Dense(batches[i - 1]) && Dense(batches[i]);
  }

  /** Two or more batches numbered as producers number them never merge without repeating an offset. */
  lemma DenseBatchesCollide(batches: seq<Inflated>)
    requires |batches| >= 2 && AllDense(batches) && Lasts(batches) < 0x8000_0000
    ensures AllOrdered(batches, false) && EachStrict(batches) && !StrictlyRising(Merged(batches).records)
  {
    assert AllOrdered(batches, false) by {
      forall i | 0 <= i < |batches| ensures Ordered(batches[i], false) {
        assert Dense(batches[i]);
      }
    }
    assert EachStrict(batches) by {
      forall i | 0 <= i < |batches| ensures StrictlyRising(batches[i].records) {
        assert Dense(batches[i]);
      }
    }
    assert !Meet(batches, 0, 1) by {
      assert Dense(batches[0]) && Dense(batches[1]);
      assert batches[..1] == [batches[0]] && batches[..1][..0] == [] && batches[..0] == [];
    }
    StrictIffAllMeet(batches);
  }
}
