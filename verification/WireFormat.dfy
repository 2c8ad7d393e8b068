/**
 The bytes themselves, as the section "Protocol Primitive Types" of the Apache Kafka protocol
 guide has them: big-endian integers of fixed width, base 128 varints, lengths and null markers,
 and whole frames byte for byte.
 */
module WireFormat {
  import opened Wire
  import opened Schema
  import opened RecordBlob
  import opened Values
  import opened Encoding
  import opened Decoding
  import opened Frames
  import opened RoundTrip

  // ---- integers, spelled out

  function One(n: int): bytes
    requires -0x80 <= n < 0x80
  {
    [if n < 0 then n + 0x100 else n]
  }

  function Two(n: int): bytes
    requires -0x8000 <= n < 0x8000
  {
    var u := if n < 0 then n + 0x1_0000 else n;
    [u / 0x100, u % 0x100]
  }

  function Four(n: int): bytes
    requires -0x8000_0000 <= n < 0x8000_0000
  {
    var u := if n < 0 then n + 0x1_0000_0000 else n;
    [u / 0x100_0000, u / 0x1_0000 % 0x100, u / 0x100 % 0x100, u % 0x100]
  }

  function Eight(n: int): bytes
    requires -0x8000_0000_0000_0000 <= n < 0x8000_0000_0000_0000
  {
    var u := if n < 0 then n + 0x1_0000_0000_0000_0000 else n;
    [u / 0x100_0000_0000_0000, u / 0x1_0000_0000_0000 % 0x100, u / 0x100_0000_0000 % 0x100,
     u / 0x1_0000_0000 % 0x100, u / 0x100_0000 % 0x100, u / 0x1_0000 % 0x100, u / 0x100 % 0x100, u % 0x100]
  }

  /** The four low digits of a number to base 256. */
  function Digits(u: nat): bytes {
    [u / 0x100_0000 % 0x100, u / 0x1_0000 % 0x100, u / 0x100 % 0x100, u % 0x100]
  }

  lemma LastDigit(u: nat)
    ensures PutUnsigned(u, 1) == [u % 0x100]
  {
    assert PutUnsigned(u / 0x100, 0) == [];
  }

  lemma LastTwoDigits(u: nat)
    ensures PutUnsigned(u, 2) == [u / 0x100 % 0x100, u % 0x100]
  {
    LastDigit(u / 0x100);
  }

  lemma LowDigits(u: nat)
    ensures PutUnsigned(u, 4) == Digits(u)
  {
    var a, b, c := u / 0x100, u / 0x1_0000, u / 0x100_0000;
    assert a / 0x100 == b && b / 0x100 == c;
    LastTwoDigits(b);
    assert PutUnsigned(a, 3) == PutUnsigned(b, 2) + [a % 0x100];
    assert PutUnsigned(u, 4) == PutUnsigned(a, 3) + [u % 0x100];
  }

  lemma HighDigits(u: nat)
    ensures PutUnsigned(u, 8) == Digits(u / 0x1_0000_0000) + Digits(u)
  {
    var a, b, c, d := u / 0x100, u / 0x1_0000, u / 0x100_0000, u / 0x1_0000_0000;
    assert a / 0x100 == b && b / 0x100 == c && c / 0x100 == d;
    LowDigits(d);
    assert PutUnsigned(c, 5) == PutUnsigned(d, 4) + [c % 0x100];
    assert PutUnsigned(b, 6) == PutUnsigned(c, 5) + [b % 0x100];
    assert PutUnsigned(a, 7) == PutUnsigned(b, 6) + [a % 0x100];
    assert PutUnsigned(u, 8) == PutUnsigned(a, 7) + [u % 0x100];
  }

  /** The digits of the upper half, counted from the whole. */
  lemma UpperHalf(u: nat)
    requires u < 0x1_0000_0000_0000_0000
    ensures Digits(u / 0x1_0000_0000) == [u / 0x100_0000_0000_0000, u / 0x1_0000_0000_0000 % 0x100,
      u / 0x100_0000_0000 % 0x100, u / 0x1_0000_0000 % 0x100]
  {
    var d := u / 0x1_0000_0000;
    assert d / 0x100_0000 == u / 0x100_0000_0000_0000;
    assert d / 0x1_0000 == u / 0x1_0000_0000_0000;
    assert d / 0x100 == u / 0x100_0000_0000;
  }

  lemma Powers()
    ensures Pow256(0) == 1 && Pow256(1) == 0x100 && Pow256(2) == 0x1_0000 && Pow256(3) == 0x100_0000
    ensures Pow256(4) == 0x1_0000_0000 && Pow256(5) == 0x100_0000_0000 && Pow256(6) == 0x1_0000_0000_0000
    ensures Pow256(7) == 0x100_0000_0000_0000 && Pow256(8) == 0x1_0000_0000_0000_0000
  {
    Widths();
    assert Pow256(5) == 256 * Pow256(4);
    assert Pow256(6) == 256 * Pow256(5);
    assert Pow256(7) == 256 * Pow256(6);
    assert Pow256(8) == 256 * Pow256(7);
  }

  lemma OneIs(n: int)
    requires -0x80 <= n < 0x80
    ensures FitsSigned(n, 1) && PutSigned(n, 1) == One(n)
  {
    Powers();
    LastDigit(if n < 0 then n + 0x100 else n);
  }

  lemma TwoIs(n: int)
    requires -0x8000 <= n < 0x8000
    ensures FitsSigned(n, 2) && PutSigned(n, 2) == Two(n)
  {
    Powers();
    LastTwoDigits(if n < 0 then n + 0x1_0000 else n);
  }

  lemma FourIs(n: int)
    requires -0x8000_0000 <= n < 0x8000_0000
    ensures FitsSigned(n, 4) && PutSigned(n, 4) == Four(n)
  {
    Powers();
    LowDigits(if n < 0 then n + 0x1_0000_0000 else n);
  }

  lemma EightIs(n: int)
    requires -0x8000_0000_0000_0000 <= n < 0x8000_0000_0000_0000
    ensures FitsSigned(n, 8) && PutSigned(n, 8) == Eight(n)
  {
    Powers();
    HighDigits(if n < 0 then n + 0x1_0000_0000_0000_0000 else n);
    UpperHalf(if n < 0 then n + 0x1_0000_0000_0000_0000 else n);
  }

  // ---- primitives

  /** A 64 bit integer is eight bytes, the most significant first, and every one in range can be sent. */
  lemma Int64Format(n: int)
    ensures PrimTyped(Int64, Num(n)) <==> -0x8000_0000_0000_0000 <= n < 0x8000_0000_0000_0000
    ensures PrimTyped(Int64, Num(n)) ==> PutPrim(Int64, Num(n)) == Eight(n)
  {
    Powers();
    if -0x8000_0000_0000_0000 <= n < 0x8000_0000_0000_0000 {
      EightIs(n);
    }
  }

  lemma Int32Format(n: int)
    ensures PrimTyped(Int32, Num(n)) <==> -0x8000_0000 <= n < 0x8000_0000
    ensures PrimTyped(Int32, Num(n)) ==> PutPrim(Int32, Num(n)) == Four(n)
  {
    Powers();
    if -0x8000_0000 <= n < 0x8000_0000 {
      FourIs(n);
    }
  }

  lemma Int16Format(n: int)
    ensures PrimTyped(Int16, Num(n)) <==> -0x8000 <= n < 0x8000
    ensures PrimTyped(Int16, Num(n)) ==> PutPrim(Int16, Num(n)) == Two(n)
  {
    Powers();
    if -0x8000 <= n < 0x8000 {
      TwoIs(n);
    }
  }

  lemma Int8Format(n: int)
    ensures PrimTyped(Int8, Num(n)) <==> -0x80 <= n < 0x80
    ensures PrimTyped(Int8, Num(n)) ==> PutPrim(Int8, Num(n)) == One(n)
  {
    Powers();
    if -0x80 <= n < 0x80 {
      OneIs(n);
    }
  }

  lemma Uint16Format(n: int)
    ensures PrimTyped(Uint16, Num(n)) <==> 0 <= n < 0x1_0000
    ensures PrimTyped(Uint16, Num(n)) ==> PutPrim(Uint16, Num(n)) == [n / 0x100, n % 0x100]
  {
    Powers();
    if 0 <= n < 0x1_0000 {
      LastTwoDigits(n);
    }
  }

  lemma BoolFormat(n: int)
    ensures PrimTyped(Bool, Num(n)) <==> n == 0 || n == 1
    ensures PrimTyped(Bool, Num(n)) ==> PutPrim(Bool, Num(n)) == [n]
  {
    Powers();
    if 0 <= n <= 1 {
      LastDigit(n);
    }
  }

  /** Uuids and floats are sixteen and eight bytes, sent as they are. */
  lemma RawFormat(raw: bytes)
    ensures PrimTyped(Uuid, Raw(raw)) <==> |raw| == 16
    ensures PrimTyped(Uuid, Raw(raw)) ==> PutPrim(Uuid, Raw(raw)) == raw
    ensures PrimTyped(Float64, Raw(raw)) <==> |raw| == 8
    ensures PrimTyped(Float64, Raw(raw)) ==> PutPrim(Float64, Raw(raw)) == raw
  {
  }

  // ---- varints, spelled out

  /** Groups of seven bits, the least significant first, all but the last marked. */
  function Base128(n: nat): bytes
    requires n < 0x1_0000_0000
  {
    if n < 0x80 then [n]
    else if n < 0x4000 then [n % 0x80 + 0x80, n / 0x80]
    else if n < 0x20_0000 then [n % 0x80 + 0x80, n / 0x80 % 0x80 + 0x80, n / 0x4000]
    else if n < 0x1000_0000 then
      [n % 0x80 + 0x80, n / 0x80 % 0x80 + 0x80, n / 0x4000 % 0x80 + 0x80, n / 0x20_0000]
    else
      [n % 0x80 + 0x80, n / 0x80 % 0x80 + 0x80, n / 0x4000 % 0x80 + 0x80, n / 0x20_0000 % 0x80 + 0x80,
       n / 0x1000_0000]
  }

  lemma Quotients(n: nat)
    ensures n / 0x80 / 0x80 == n / 0x4000 && n / 0x80 / 0x4000 == n / 0x20_0000
    ensures n / 0x80 / 0x20_0000 == n / 0x1000_0000
  {
  }

  lemma Base128Steps(n: nat)
    requires 0x80 <= n < 0x1_0000_0000
    ensures Base128(n) == [n % 0x80 + 0x80] + Base128(n / 0x80)
  {
    Quotients(n);
  }

  lemma {:induction false} VarintFormat(n: nat)
    requires n < 0x1_0000_0000
    ensures PutVarint(n) == Base128(n)
  {
    if n >= 0x80 {
      VarintFormat(n / 0x80);
      Base128Steps(n);
    }
  }

  // ---- texts, byte strings and sequences

  /** A length and the text: two bytes, or a varint of one more in flexible versions. */
  lemma TextFormat(s: Setting, f: FieldMeta, text: bytes)
    requires f.kind.elem.Text? && s.utf8(text)
    ensures ElemTyped(s, f, Str(text))
    ensures !s.flexible && |text| < 0x8000 ==> PutElem(s, f, Str(text)) == Ok(Two(|text|) + text)
    ensures s.flexible && |text| < 0xFFFF_FFFF ==> PutElem(s, f, Str(text)) == Ok(Base128(|text| + 1) + text)
    ensures PutElem(s, f, Str(text)).Ok? <==> |text| < if s.flexible then 0xFFFF_FFFF else 0x8000
  {
    if s.flexible && |text| < 0xFFFF_FFFF {
      VarintFormat(|text| + 1);
    } else if !s.flexible && |text| < 0x8000 {
      TwoIs(|text|);
    }
  }

  lemma BlobFormat(s: Setting, f: FieldMeta, blob: bytes)
    requires f.kind.elem.Blob?
    ensures ElemTyped(s, f, Bin(blob))
    ensures !s.flexible && |blob| < 0x1_0000_0000 ==> PutElem(s, f, Bin(blob)) == Ok(Digits(|blob|) + blob)
    ensures s.flexible && |blob| < 0xFFFF_FFFF ==> PutElem(s, f, Bin(blob)) == Ok(Base128(|blob| + 1) + blob)
    ensures PutElem(s, f, Bin(blob)).Ok? <==> |blob| < if s.flexible then 0xFFFF_FFFF else 0x1_0000_0000
  {
    if s.flexible && |blob| < 0xFFFF_FFFF {
      VarintFormat(|blob| + 1);
    } else {
      LowDigits(|blob|);
    }
  }

  /** A count of four bytes, or a varint of one more in flexible versions, and then the elements. */
  lemma ListFormat(s: Setting, f: FieldMeta, items: seq<Value>)
    requires f.kind.Many? && ItemsTyped(s, f, items)
    requires PutItems(s, f, items).Ok?
    ensures InnerTyped(s, f, List(items))
    ensures !s.flexible && |items| < 0x8000_0000 ==>
      PutInner(s, f, List(items)) == Ok(Four(|items|) + PutItems(s, f, items).value)
    ensures s.flexible && |items| < 0xFFFF_FFFF ==>
      PutInner(s, f, List(items)) == Ok(Base128(|items| + 1) + PutItems(s, f, items).value)
    ensures PutInner(s, f, List(items)).Ok? <==> |items| < if s.flexible then 0xFFFF_FFFF else 0x8000_0000
  {
    if s.flexible && |items| < 0xFFFF_FFFF {
      VarintFormat(|items| + 1);
    } else if !s.flexible && |items| < 0x8000_0000 {
      FourIs(|items|);
    }
  }

  /** The elements one after the other. */
  lemma {:induction false} ItemsFormat(s: Setting, f: FieldMeta, a: seq<Value>, b: seq<Value>)
    requires ItemsTyped(s, f, a) && ItemsTyped(s, f, b)
    ensures ItemsTyped(s, f, a + b) && PutItems(s, f, a + b) == Join(PutItems(s, f, a), PutItems(s, f, b))
    ensures |a| == 1 ==> PutItems(s, f, a) == PutElem(s, f, a[0])
  {
    JoinAssociates(PutItems(s, f, b), Ok([]), Ok([]));
    if a == [] {
      assert a + b == b;
    } else {
      ItemsFormat(s, f, a[1..], b);
      assert (a + b)[0] == a[0] && (a + b)[1..] == a[1..] + b;
      JoinAssociates(PutElem(s, f, a[0]), PutItems(s, f, a[1..]), PutItems(s, f, b));
      if |a| == 1 {
        assert a[1..] == [];
        JoinWithNothing(PutElem(s, f, a[0]));
      }
    }
  }

  lemma JoinWithNothing(a: Result<bytes>)
    ensures Join(a, Ok([])) == a
  {
    if a.Ok? {
      assert a.value + [] == a.value;
    }
  }

  /** What stands for an absent value: it depends on the kind, the version and whether that is flexible. */
  lemma NullFormat(s: Setting, f: FieldMeta)
    ensures f.IsRecords() ==> PutNull(s, f) == if s.flexible then [1] else [0, 0, 0, 0]
    ensures !f.IsRecords() && !f.IsNullable(s.version) ==> PutNull(s, f) == []
    ensures f.IsNullable(s.version) && f.kind.One? && f.fields.Field? && !f.IsRecords() ==> PutNull(s, f) == [255]
    ensures f.IsNullable(s.version) && f.kind.Many? ==>
      PutNull(s, f) == if s.flexible then [0] else [255, 255, 255, 255]
    ensures f.IsNullable(s.version) && f.kind == Kind.One(Text) && f.fields.End? ==>
      PutNull(s, f) == if s.flexible then [0] else [255, 255]
    ensures f.IsNullable(s.version) && f.kind == Kind.One(Blob) && f.fields.End? ==>
      PutNull(s, f) == if s.flexible then [0] else []
  {
    VarintFormat(0);
    VarintFormat(1);
    OneIs(-1);
    TwoIs(-1);
    FourIs(-1);
    LowDigits(0);
  }

  /** A field outside the version is not written, and is read as none where it is optional. */
  lemma OutsideFormat(s: Setting, f: FieldMeta, parent: Option<VersionRange>, v: Value, place: Place, b: bytes)
    requires s.version < f.version.start || f.version.end < s.version
    ensures FieldTyped(s, f, parent, v) ==> PutField(s, f, parent, v) == Ok([])
    ensures f.IsOptional(parent) && !place.Blind? ==> GetField(s, f, parent, place, b) == Parsed(Null, b)
  {
  }

  // ---- tag buffers

  lemma {:induction false} TagsFormat(tags: Tags, tag: Tag)
    requires tag.Typed() && |tag.data| < 0x1_0000_0000
    ensures PutTagList([]) == Ok([])
    ensures PutTagList([tag] + tags) == Join(Ok(Base128(tag.tag) + Base128(|tag.data|) + tag.data), PutTagList(tags))
  {
    VarintFormat(tag.tag);
    VarintFormat(|tag.data|);
    assert ([tag] + tags)[1..] == tags;
  }

  /** Only flexible versions have tag buffers: their number, and then each of them. */
  lemma BufferFormat(s: Setting, tags: Tags)
    requires |tags| < 0x1_0000_0000
    ensures PutTags(s, Some(tags)) == if s.flexible then Join(Ok(Base128(|tags|)), PutTagList(tags)) else Ok([])
    ensures s.flexible ==> PutTags(s, Some([])) == Ok([0])
  {
    VarintFormat(|tags|);
    VarintFormat(0);
    JoinWithNothing(Ok([0]));
  }

  /** More than 128 tags, or more than 128 bytes in one, are not read. */
  lemma TagLimits(s: Setting, tags: Tags, n: nat, rest: bytes)
    requires n < 0x1_0000_0000
    ensures TagsOk(s, Some(tags)) <==>
      s.flexible && |tags| <= 128 && forall i :: 0 <= i < |tags| ==> |tags[i].data| <= 128
    ensures s.flexible && n > 128 ==> GetTags(s, PutVarint(n) + rest) == Failed(TooManyTags)
  {
    VarintRoundTrip(n, rest);
  }

  /** Anything longer than 2 to the 30th is not read. */
  lemma SizeLimit(b: bytes, n: nat)
    ensures TakeSized(b, n) == (if n > 0x4000_0000 then Failed(MaxSizeExceeded) else Take(b, n))
  {
  }

  // ---- reading

  lemma SignedReads(n: int, width: nat, rest: bytes)
    requires FitsSigned(n, width)
    ensures GetLength(PutSigned(n, width) + rest, width) == (if n < 0 then Failed(OutOfRange) else Parsed(n, rest))
    ensures GetNullableSigned(PutSigned(n, width) + rest, width) ==
      (if n == -1 then Parsed(None, rest) else if n < 0 then Failed(OutOfRange) else Parsed(Some(n), rest))
  {
    SignedRoundTrip(n, width);
    TakeFront(PutSigned(n, width), rest);
  }

  /** A length of two or four bytes: -1 is null where that may be, and any other negative one an error. */
  lemma LengthReads(n: int, rest: bytes)
    requires -0x8000 <= n < 0x8000
    ensures GetLength(Two(n) + rest, 2) == (if n < 0 then Failed(OutOfRange) else Parsed(n, rest))
    ensures GetLength(Four(n) + rest, 4) == (if n < 0 then Failed(OutOfRange) else Parsed(n, rest))
    ensures GetNullableSigned(Two(n) + rest, 2) ==
      (if n == -1 then Parsed(None, rest) else if n < 0 then Failed(OutOfRange) else Parsed(Some(n), rest))
    ensures GetNullableSigned(Four(n) + rest, 4) ==
      (if n == -1 then Parsed(None, rest) else if n < 0 then Failed(OutOfRange) else Parsed(Some(n), rest))
  {
    TwoIs(n);
    FourIs(n);
    SignedReads(n, 2, rest);
    SignedReads(n, 4, rest);
  }

  /** A varint length is one more than what follows; 0 is null where that may be, and an error elsewhere. */
  lemma CompactReads(n: nat, rest: bytes)
    requires n < 0x1_0000_0000
    ensures GetCompact(Base128(n) + rest) == (if n == 0 then Failed(Overflow) else Parsed(n - 1, rest))
    ensures GetNullableCompact(Base128(n) + rest) == (if n == 0 then Parsed(None, rest) else Parsed(Some(n - 1), rest))
  {
    VarintFormat(n);
    VarintRoundTrip(n, rest);
  }

  /** Any byte but 0 is true; a structure is absent where a negative byte stands before it; no records are none. */
  lemma FirstByteReads(s: Setting, f: FieldMeta, place: Place, first: byte, rest: bytes)
    ensures GetPrim(Bool, [first] + rest) == Parsed(Num(if first == 0 then 0 else 1), rest)
    ensures GetNullableStruct(s, f, place, [first] + rest) ==
      if first >= 128 then Parsed(Null, rest) else AsJust(GetElem(s, f, place, rest))
    ensures GetRecords(s, (if s.flexible then [1] else [0, 0, 0, 0]) + rest) == Parsed(Null, rest)
  {
    TakeFront([first], rest);
    var none: bytes := if s.flexible then [1] else [0, 0, 0, 0];
    if s.flexible {
      CompactReads(1, rest);
    } else {
      LowDigits(0);
      UnsignedRoundTrip(0, 4);
      Widths();
      TakeFront(none, rest);
    }
  }

  // ---- record batches

  /** A batch is its base offset, its length and as many bytes, at least the 49 of its fixed fields. */
  lemma BatchFormat(batch: Batch)
    ensures batch.WellFormed() <==>
      && -0x8000_0000_0000_0000 <= batch.baseOffset < 0x8000_0000_0000_0000
      && batch.batchLength == |batch.payload| && 49 <= |batch.payload| < 0x8000_0000
    ensures batch.WellFormed() ==> PutBatch(batch) == Eight(batch.baseOffset) + Four(batch.batchLength) + batch.payload
  {
    Powers();
    if batch.WellFormed() {
      EightIs(batch.baseOffset);
      FourIs(batch.batchLength);
    }
  }

  /** A present record frame: the length of all its batches, and then the batches one after the other. */
  lemma {:induction false} RecordsFormat(s: Setting, f: FieldMeta, first: Batch, others: seq<Batch>)
    requires f.IsRecords() && first.Typed() && AllTyped(others)
    requires |PutBatches([first] + others)| < 0xFFFF_FFFF
    ensures InnerTyped(s, f, Frames([first] + others))
    ensures PutBatches([]) == [] && PutBatches([first] + others) == PutBatch(first) + PutBatches(others)
    ensures
      var blob := PutBatches([first] + others);
      PutSome(s, f, Frames([first] + others)) ==
      Ok((if s.flexible then Base128(|blob| + 1) else Digits(|blob|)) + blob)
  {
    var batches := [first] + others;
    assert batches[1..] == others;
    assert ElemTyped(s, f, Frames(batches));
    VarintFormat(|PutBatches(batches)| + 1);
    LowDigits(|PutBatches(batches)|);
  }

  /** A structure of two numbers: its members in order, and the tag buffer that flexible versions end it with. */
  lemma StructFormat(s: Setting, f: FieldMeta, a: int, b: int)
    requires s.Valid() && -0x8000 <= a < 0x8000 && -0x8000_0000 <= b < 0x8000_0000
    requires f.kind.elem.Structure? && f.common && f.fields ==
      Field("a", FieldMeta(VersionRange(0, I16_MAX), None, Kind.One(Fixed(Int16)), false, End),
        Field("b", FieldMeta(VersionRange(0, I16_MAX), None, Kind.One(Fixed(Int32)), false, End), End))
    ensures
      var v := Struct([Num(a), Num(b)], Some([]));
      && ElemTyped(s, f, v)
      && PutElem(s, f, v) == Ok(Two(a) + Four(b) + (if s.flexible then [0] else []))
  {
    Int16Format(a);
    Int32Format(b);
    BufferFormat(s, []);
    var fs, vs := f.fields, [Num(a), Num(b)];
    var short, long := fs.meta, fs.next.meta;
    assert vs[1..] == [Num(b)] && [Num(b)][1..] == [];
    assert InnerTyped(s, short, Num(a)) && PutInner(s, short, Num(a)) == PutElem(s, short, Num(a));
    assert InnerTyped(s, long, Num(b)) && PutInner(s, long, Num(b)) == PutElem(s, long, Num(b));
    assert PutField(s, short, None, Num(a)) == Ok(Two(a));
    assert PutField(s, long, None, Num(b)) == Ok(Four(b));
    assert MembersTyped(s, fs.next, None, [Num(b)]);
    JoinWithNothing(Ok(Four(b)));
    assert PutMembers(s, fs.next, None, [Num(b)]) == Ok(Four(b));
    assert PutMembers(s, fs, None, vs) == Ok(Two(a) + Four(b));
  }

  // ---- headers

  /** The header of a request, with the empty tag buffer it always has. */
  lemma RequestHeaderFormat(h: RequestHeader, flexible: bool)
    requires -0x8000 <= h.apiKey < 0x8000 && -0x8000 <= h.apiVersion < 0x8000
    requires -0x8000_0000 <= h.correlationId < 0x8000_0000 && h.tags == Some([])
    requires h.clientId.Some? ==> |h.clientId.value| < 0x8000
    ensures h.Typed()
    ensures PutRequestHeader(h, flexible) ==
      Ok(Two(h.apiKey) + Two(h.apiVersion) + Four(h.correlationId) +
         (if h.clientId.None? then [255, 255] else Two(|h.clientId.value|) + h.clientId.value) +
         (if flexible then [0] else []))
  {
    TwoIs(h.apiKey);
    TwoIs(h.apiVersion);
    FourIs(h.correlationId);
    if h.clientId.Some? {
      TwoIs(|h.clientId.value|);
    } else {
      TwoIs(-1);
    }
    BufferFormat(Setting(0, flexible, _ => true), []);
    JoinAssociates(Ok(PutHeaderNumbers(h)), PutClientId(h.clientId), PutTags(Setting(0, flexible, _ => true), h.tags));
  }

  /** The header of a response; that of key 18 never has a tag buffer. */
  lemma ResponseHeaderFormat(size: int, correlationId: int, apiKey: int, s: Setting, m: MessageMeta, v: Value)
    requires -0x8000_0000 <= correlationId < 0x8000_0000 && -0x8000_0000 <= size < 0x8000_0000
    requires v.Struct? && MembersTyped(s, m.fields, None, v.members)
    requires PutFrom(s, m.fields, None, v.members, v.tags).Ok?
    ensures
      var h := ResponseHeader(correlationId, Some([]));
      && h.Typed() && FitsSigned(size, 4)
      && PutResponse(size, h, Some(apiKey), s, m, v) ==
         Ok(Four(size) + Four(correlationId) + (if s.flexible && apiKey != 18 then [0] else []) +
            PutFrom(s, m.fields, None, v.members, v.tags).value)
  {
    FourIs(size);
    FourIs(correlationId);
    var flexible := s.flexible && apiKey != 18;
    BufferFormat(Setting(0, flexible, _ => true), []);
    var body := PutFrom(s, m.fields, None, v.members, v.tags).value;
    var tags: bytes := if flexible then [0] else [];
    assert Four(size) + (Four(correlationId) + tags + body) == Four(size) + Four(correlationId) + tags + body;
  }
}
