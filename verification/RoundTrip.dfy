/**
 Exactly which values survive the codec. `MembersOk` says when a value is well formed for
 a version. Well formed values are read back as they were, and leave what follows them
 unread; and no value that is not well formed is.
 */
module RoundTrip {
  import opened Wire
  import opened Schema
  import opened RecordBlob
  import opened Values
  import opened Encoding
  import opened Decoding

  // ---- well formed values

  predicate TextOk(s: Setting, place: Place, text: bytes)
  {
    if s.flexible then |text| <= MESSAGE_MAX_SIZE else !place.Blind? && |text| < I16_LIMIT
  }

  predicate RecordsOk(batches: seq<Batch>)
  {
    batches != [] && AllWellFormed(batches) && AllTyped(batches) && |PutBatches(batches)| <= MESSAGE_MAX_SIZE
  }

  predicate TagOk(tag: Tag)
  {
    |tag.data| <= MAXIMUM_TAGGED_FIELDS
  }

  predicate TagsOk(s: Setting, tags: Option<Tags>)
  {
    if s.flexible then
      tags.Some? && |tags.value| <= MAXIMUM_TAGGED_FIELDS &&
      forall i {:trigger tags.value[i]} :: 0 <= i < |tags.value| ==> TagOk(tags.value[i])
    else tags.None?
  }

  predicate ElemOk(s: Setting, f: FieldMeta, place: Place, v: Value)
    requires ElemTyped(s, f, v)
    decreases f, 0
  {
    match f.kind.elem
    case Fixed(_) => true
    case Text => TextOk(s, place, v.text)
    case Blob => |v.blob| <= MESSAGE_MAX_SIZE
    case Records => false
    case Structure(_) => MembersOk(s, f.fields, f.Inside(), place.Inside(f), v.members) && TagsOk(s, v.tags)
  }

  predicate ItemsOk(s: Setting, f: FieldMeta, place: Place, items: seq<Value>)
    requires ItemsTyped(s, f, items)
    decreases f, 1
  {
    forall i {:trigger items[i]} :: 0 <= i < |items| ==> ElemOk(s, f, place, items[i])
  }

  /**
   A sequence fits its length, and a nullable sequence of texts is empty: the lengths of
   its texts would not be read.
   */
  predicate ListOk(s: Setting, f: FieldMeta, place: Place, items: seq<Value>)
    requires ItemsTyped(s, f, items)
    decreases f, 2
  {
    && (if s.flexible then |items| + 1 < U32_LIMIT else |items| < I32_LIMIT)
    && (f.kind.elem.Text? && f.IsNullable(s.version) ==> items == [])
    && ItemsOk(s, f, place, items)
  }

  /** Null is written in a form that is read as null only for these kinds. */
  predicate NullOk(s: Setting, f: FieldMeta)
  {
    f.IsRecords() || (f.IsNullable(s.version) && (f.IsSequence() || f.IsString() || f.IsStructure()))
  }

  predicate JustOk(s: Setting, f: FieldMeta, place: Place, v: Value)
    requires InnerTyped(s, f, v)
    decreases f, 3
  {
    if place.Blind? then f.kind.One? && ElemOk(s, f, place, v)
    else if f.IsRecords() then assert ElemTyped(s, f, v); RecordsOk(v.batches)
    else if f.IsSequence() then ListOk(s, f, place, v.items)
    else !(f.IsStructure() && f.IsNullable(s.version)) && ElemOk(s, f, place, v)
  }

  predicate FieldOk(s: Setting, f: FieldMeta, parent: Option<VersionRange>, place: Place, v: Value)
    requires FieldTyped(s, f, parent, v)
    decreases f, 4
  {
    if !f.IsOptional(parent) then assert InnerTyped(s, f, v); ElemOk(s, f, place, v)
    else if !f.version.Within(s.version) then !place.Blind? && v.Null?
    else if v.Null? then !place.Blind? && NullOk(s, f)
    else JustOk(s, f, place, v.value)
  }

  predicate MembersOk(s: Setting, fs: Fields, parent: Option<VersionRange>, place: Place, members: seq<Value>)
    requires MembersTyped(s, fs, parent, members)
    decreases fs
  {
    match fs
    case End => true
    case Field(_, meta, next) =>
      FieldOk(s, meta, parent, place, members[0]) && MembersOk(s, next, parent, place, members[1..])
  }

  /** The parent of the fields in hand is itself present in this version. */
  predicate Present(s: Setting, parent: Option<VersionRange>)
  {
    s.Valid() && (parent.Some? ==> parent.value.Within(s.version))
  }

  // ---- written, then read

  lemma CompactRoundTrip(n: nat, rest: bytes)
    requires n + 1 < U32_LIMIT
    ensures GetCompact(PutCompact(n).value + rest) == Parsed(n, rest)
    ensures GetNullableCompact(PutCompact(n).value + rest) == Parsed(Some(n), rest)
  {
    VarintRoundTrip(n + 1, rest);
  }

  lemma SignedLengthRoundTrip(n: nat, width: nat, rest: bytes)
    requires width > 0 && FitsSigned(n, width)
    ensures GetLength(PutSigned(n, width) + rest, width) == Parsed(n, rest)
    ensures GetNullableSigned(PutSigned(n, width) + rest, width) == Parsed(Some(n), rest)
  {
    TakeFront(PutSigned(n, width), rest);
    SignedRoundTrip(n, width);
  }

  lemma BlobLengthRoundTrip(s: Setting, n: nat, rest: bytes)
    requires n <= MESSAGE_MAX_SIZE
    ensures PutBlobLength(s, n).Ok?
    ensures var b := PutBlobLength(s, n).value + rest;
      (if s.flexible then GetCompact(b) else GetUnsignedLength(b)) == Parsed(n, rest)
  {
    if s.flexible {
      CompactRoundTrip(n, rest);
    } else {
      Widths();
      TakeFront(PutUnsigned(n, 4), rest);
      UnsignedRoundTrip(n, 4);
    }
  }

  lemma TextRoundTrip(s: Setting, f: FieldMeta, place: Place, text: bytes, rest: bytes)
    requires s.utf8(text) && TextOk(s, place, text)
    requires place.Blind? || (f.version.Within(s.version) && !f.IsNullable(s.version))
    ensures PutTextLength(s, |text|).Ok?
    ensures GetText(s, f, place, PutTextLength(s, |text|).value + text + rest) == Parsed(Str(text), rest)
  {
    var length := PutTextLength(s, |text|).value;
    assert length + text + rest == length + (text + rest);
    TakeFront(text, rest);
    if s.flexible {
      CompactRoundTrip(|text|, text + rest);
    } else {
      Widths();
      SignedLengthRoundTrip(|text|, 2, text + rest);
    }
  }

  lemma NullableTextRoundTrip(s: Setting, text: bytes, rest: bytes)
    requires s.utf8(text) && TextOk(s, Seen, text)
    ensures PutTextLength(s, |text|).Ok?
    ensures GetNullableText(s, PutTextLength(s, |text|).value + text + rest) == Parsed(Just(Str(text)), rest)
  {
    var length := PutTextLength(s, |text|).value;
    assert length + text + rest == length + (text + rest);
    TakeFront(text, rest);
    if s.flexible {
      CompactRoundTrip(|text|, text + rest);
    } else {
      Widths();
      SignedLengthRoundTrip(|text|, 2, text + rest);
    }
  }

  lemma BlobRoundTrip(s: Setting, blob: bytes, rest: bytes)
    requires |blob| <= MESSAGE_MAX_SIZE
    ensures PutBlobLength(s, |blob|).Ok?
    ensures GetBlob(s, PutBlobLength(s, |blob|).value + blob + rest) == Parsed(Bin(blob), rest)
  {
    BlobLengthRoundTrip(s, |blob|, blob + rest);
    assert PutBlobLength(s, |blob|).value + blob + rest == PutBlobLength(s, |blob|).value + (blob + rest);
    TakeFront(blob, rest);
  }

  lemma RecordsRoundTrip(s: Setting, batches: seq<Batch>, rest: bytes)
    requires AllTyped(batches) && RecordsOk(batches)
    ensures PutBlobLength(s, |PutBatches(batches)|).Ok?
    ensures var blob := PutBatches(batches);
      GetRecords(s, PutBlobLength(s, |blob|).value + blob + rest) == Parsed(Just(Frames(batches)), rest)
  {
    var blob := PutBatches(batches);
    BlobLengthRoundTrip(s, |blob|, blob + rest);
    assert PutBlobLength(s, |blob|).value + blob + rest == PutBlobLength(s, |blob|).value + (blob + rest);
    TakeFront(blob, rest);
    SplitOfConcatenation(batches);
  }

  lemma {:induction false} TagRoundTrip(tag: Tag, rest: bytes)
    requires tag.Typed() && TagOk(tag)
    ensures PutTag(tag).Ok? && GetTag(PutTag(tag).value + rest) == Parsed(tag, rest)
  {
    var number, length := PutVarint(tag.tag), PutVarint(|tag.data|);
    Associate(number + length, tag.data, rest);
    Associate(number, length, tag.data + rest);
    VarintRoundTrip(tag.tag, length + (tag.data + rest));
    VarintRoundTrip(|tag.data|, tag.data + rest);
    TakeFront(tag.data, rest);
  }

  lemma {:induction false} TagListJoins(first: Tag, others: Tags, b: bytes, rest: bytes)
    requires PutTag(first).Ok? && GetTag(PutTag(first).value + (b + rest)) == Parsed(first, b + rest)
    requires PutTagList(others) == Ok(b) && GetTagList(b + rest, |others|) == Parsed(others, rest)
    ensures PutTagList([first] + others) == Ok(PutTag(first).value + b)
    ensures GetTagList(PutTag(first).value + b + rest, |others| + 1) == Parsed([first] + others, rest)
  {
    Associate(PutTag(first).value, b, rest);
    assert ([first] + others)[1..] == others;
  }

  lemma {:induction false} TagListRoundTrip(tags: Tags, rest: bytes)
    requires TagsTyped(tags) && forall i {:trigger tags[i]} :: 0 <= i < |tags| ==> TagOk(tags[i])
    ensures PutTagList(tags).Ok? && GetTagList(PutTagList(tags).value + rest, |tags|) == Parsed(tags, rest)
  {
    if tags == [] {
      assert [] + rest == rest;
    } else {
      var first, others := tags[0], tags[1..];
      TagListRoundTrip(others, rest);
      var b := PutTagList(others).value;
      TagRoundTrip(first, b + rest);
      assert [first] + others == tags;
      TagListJoins(first, others, b, rest);
    }
  }

  lemma {:induction false} TagsRoundTrip(s: Setting, tags: Option<Tags>, rest: bytes)
    requires TagsOk(s, tags) && (tags.Some? ==> TagsTyped(tags.value))
    ensures PutTags(s, tags).Ok? && GetTags(s, PutTags(s, tags).value + rest) == Parsed(tags, rest)
  {
    if s.flexible {
      TagListRoundTrip(tags.value, rest);
      var list := PutTagList(tags.value).value;
      Associate(PutVarint(|tags.value|), list, rest);
      VarintRoundTrip(|tags.value|, list + rest);
    } else {
      assert PutTags(s, tags).value + rest == rest;
    }
  }

  lemma {:induction false} ElemRoundTrip(s: Setting, f: FieldMeta, place: Place, v: Value, rest: bytes)
    requires s.Valid() && f.Proper() && f.version.Within(s.version)
    requires ElemTyped(s, f, v) && ElemOk(s, f, place, v)
    requires f.kind.elem.Text? ==> place.Blind? || !f.IsNullable(s.version)
    ensures PutElem(s, f, v).Ok?
    ensures GetElem(s, f, place, PutElem(s, f, v).value + rest) == Parsed(v, rest)
    decreases f, 0
  {
    match f.kind.elem
    case Fixed(prim) => PrimRoundTrip(prim, v, rest);
    case Text => TextRoundTrip(s, f, place, v.text, rest);
    case Blob => BlobRoundTrip(s, v.blob, rest);
    case Structure(_) =>
      TagsRoundTrip(s, v.tags, rest);
      var tags := PutTags(s, v.tags).value;
      MembersRoundTrip(s, f.fields, f.Inside(), place.Inside(f), v.members, tags + rest);
      Associate(PutMembers(s, f.fields, f.Inside(), v.members).value, tags, rest);
  }

  lemma {:induction false} ItemsRoundTrip(s: Setting, f: FieldMeta, place: Place, items: seq<Value>, rest: bytes)
    requires s.Valid() && f.Proper() && f.version.Within(s.version) && !place.Blind?
    requires ItemsTyped(s, f, items) && ItemsOk(s, f, place, items)
    requires items != [] && f.kind.elem.Text? ==> !f.IsNullable(s.version)
    ensures PutItems(s, f, items).Ok?
    ensures GetItems(s, f, place, PutItems(s, f, items).value + rest, |items|) == Parsed(items, rest)
    decreases f, 1, |items|
  {
    if items != [] {
      ItemsRoundTrip(s, f, place, items[1..], rest);
      var others := PutItems(s, f, items[1..]).value;
      ElemRoundTrip(s, f, place, items[0], others + rest);
      var first := PutElem(s, f, items[0]).value;
      Associate(first, others, rest);
      assert items == [items[0]] + items[1..];
    } else {
      assert PutItems(s, f, items).value + rest == rest;
    }
  }

  lemma ListRoundTrip(s: Setting, f: FieldMeta, place: Place, items: seq<Value>, rest: bytes)
    requires s.Valid() && f.Proper() && f.version.Within(s.version) && f.kind.Many? && !place.Blind?
    requires ItemsTyped(s, f, items) && ListOk(s, f, place, items)
    ensures PutInner(s, f, List(items)).Ok?
    ensures GetList(s, f, place, PutInner(s, f, List(items)).value + rest) == Parsed(Just(List(items)), rest)
    decreases f, 2
  {
    ItemsRoundTrip(s, f, place, items, rest);
    var body := PutItems(s, f, items).value;
    var length := PutListLength(s, |items|).value;
    Associate(length, body, rest);
    if s.flexible {
      CompactRoundTrip(|items|, body + rest);
    } else {
      Widths();
      SignedLengthRoundTrip(|items|, 4, body + rest);
    }
  }

  lemma NullRoundTrip(s: Setting, f: FieldMeta, place: Place, rest: bytes)
    requires f.Proper() && !place.Blind? && f.version.Within(s.version) && NullOk(s, f)
    ensures GetOption(s, f, place, PutNull(s, f) + rest) == Parsed(Null, rest)
  {
    Widths();
    if f.IsRecords() {
      BlobLengthRoundTrip(s, 0, rest);
    } else if f.IsStructure() && !f.IsSequence() {
      TakeFront(PutSigned(-1, 1), rest);
      assert PutSigned(-1, 1) == PutUnsigned(255, 1) == PutUnsigned(0, 0) + [255];
    } else if s.flexible {
      VarintRoundTrip(0, rest);
    } else {
      var width := if f.IsSequence() then 4 else 2;
      TakeFront(PutSigned(-1, width), rest);
      SignedRoundTrip(-1, width);
    }
  }

  lemma {:induction false} JustRoundTrip(s: Setting, f: FieldMeta, place: Place, v: Value, rest: bytes)
    requires s.Valid() && f.Proper() && f.version.Within(s.version)
    requires InnerTyped(s, f, v) && JustOk(s, f, place, v)
    ensures PutSome(s, f, v).Ok?
    ensures GetOption(s, f, place, PutSome(s, f, v).value + rest) == Parsed(Just(v), rest)
    decreases f, 3
  {
    if !place.Blind? && f.IsRecords() {
      RecordsRoundTrip(s, v.batches, rest);
    } else if f.IsSequence() {
      ListRoundTrip(s, f, place, v.items, rest);
    } else if !place.Blind? && f.IsString() {
      SomeIsElem(s, f, v);
      NullableTextRoundTrip(s, v.text, rest);
    } else {
      SomeIsElem(s, f, v);
      ElemRoundTrip(s, f, place, v, rest);
    }
  }

  lemma {:induction false} FieldRoundTrip(s: Setting, f: FieldMeta, parent: Option<VersionRange>, place: Place,
      v: Value, rest: bytes)
    requires f.Proper() && Present(s, parent)
    requires FieldTyped(s, f, parent, v) && FieldOk(s, f, parent, place, v)
    ensures PutField(s, f, parent, v).Ok?
    ensures GetField(s, f, parent, place, PutField(s, f, parent, v).value + rest) == Parsed(v, rest)
    decreases f, 4
  {
    if !f.IsOptional(parent) {
      MandatoryIsPresent(f.version, parent, s.version);
      ElemRoundTrip(s, f, place, v, rest);
    } else if !f.version.Within(s.version) {
      assert PutField(s, f, parent, v).value + rest == rest;
    } else if v.Null? {
      NullRoundTrip(s, f, place, rest);
    } else {
      JustRoundTrip(s, f, place, v.value, rest);
    }
  }

  lemma {:induction false} MembersRoundTrip(
    s: Setting, fs: Fields, parent: Option<VersionRange>, place: Place, members: seq<Value>, rest: bytes)
    requires fs.Proper() && Present(s, parent)
    requires MembersTyped(s, fs, parent, members) && MembersOk(s, fs, parent, place, members)
    ensures PutMembers(s, fs, parent, members).Ok?
    ensures GetMembers(s, fs, parent, place, PutMembers(s, fs, parent, members).value + rest) == Parsed(members, rest)
    decreases fs
  {
    match fs
    case End =>
      assert PutMembers(s, fs, parent, members).value + rest == rest;
    case Field(_, meta, next) =>
      MembersRoundTrip(s, next, parent, place, members[1..], rest);
      var others := PutMembers(s, next, parent, members[1..]).value;
      FieldRoundTrip(s, meta, parent, place, members[0], others + rest);
      var first := PutField(s, meta, parent, members[0]).value;
      Associate(first, others, rest);
      assert members == [members[0]] + members[1..];
  }

  // ---- read, compared with what would have been written

  /** The bytes a read consumed. */
  function Used<T>(b: bytes, p: Parsed<T>): int
    requires p.Parsed?
  {
    |b| - |p.rest|
  }

  lemma CompactCost(b: bytes)
    ensures GetCompact(b).Parsed? ==> Used(b, GetCompact(b)) >= |PutVarint(GetCompact(b).value + 1)|
    ensures GetNullableCompact(b).Parsed? && GetNullableCompact(b).value.Some? ==>
      Used(b, GetNullableCompact(b)) >= |PutVarint(GetNullableCompact(b).value.value + 1)|
  {
    if GetVarint(b).Parsed? {
      VarintShortest(b);
    }
  }

  lemma TextCost(s: Setting, f: FieldMeta, place: Place, b: bytes)
    requires GetText(s, f, place, b).Parsed?
    ensures var p := GetText(s, f, place, b);
      var length := PutTextLength(s, |p.value.text|);
      && p.value.Str?
      && (place.Blind? || !f.IsNullable(s.version))
      && (length.Ok? ==> Used(b, p) >= |length.value| + |p.value.text|)
      && (length.Ok? && Used(b, p) == |length.value| + |p.value.text| ==> TextOk(s, place, p.value.text))
  {
    CompactCost(b);
  }

  lemma NullableTextCost(s: Setting, b: bytes)
    requires GetNullableText(s, b).Parsed? && GetNullableText(s, b).value.Just?
    ensures var p := GetNullableText(s, b);
      p.value.value.Str? &&
      var length := PutTextLength(s, |p.value.value.text|);
      && length.Ok?
      && Used(b, p) >= |length.value| + |p.value.value.text|
      && TextOk(s, Seen, p.value.value.text)
  {
    CompactCost(b);
    Widths();
  }

  lemma BlobCost(s: Setting, b: bytes)
    requires GetBlob(s, b).Parsed?
    ensures var p := GetBlob(s, b);
      p.value.Bin? &&
      var length := PutBlobLength(s, |p.value.blob|);
      && |p.value.blob| <= MESSAGE_MAX_SIZE
      && length.Ok? && Used(b, p) >= |length.value| + |p.value.blob|
  {
    CompactCost(b);
  }

  lemma BlobLengthCost(s: Setting, b: bytes)
    ensures
      var n := if s.flexible then GetCompact(b) else GetUnsignedLength(b);
      n.Parsed? ==>
        && Used(b, n) >= (if s.flexible then 1 else 4)
        && (0 < n.value <= MESSAGE_MAX_SIZE ==>
              PutBlobLength(s, n.value).Ok? && Used(b, n) >= |PutBlobLength(s, n.value).value|)
  {
    CompactCost(b);
  }

  lemma RecordsCost(s: Setting, b: bytes)
    requires GetRecords(s, b).Parsed?
    ensures var p := GetRecords(s, b);
      || (p.value.Null? && Used(b, p) >= if s.flexible then 1 else 4)
      || (&& p.value.Just? && p.value.value.Frames? && RecordsOk(p.value.value.batches)
          && var length := PutBlobLength(s, |PutBatches(p.value.value.batches)|);
             length.Ok? && Used(b, p) >= |length.value| + |PutBatches(p.value.value.batches)|)
  {
    BlobLengthCost(s, b);
    var n := if s.flexible then GetCompact(b) else GetUnsignedLength(b);
    if n.value != 0 {
      SplitIsExact(TakeSized(n.rest, n.value).value);
    }
  }

  lemma TagCost(b: bytes)
    requires GetTag(b).Parsed?
    ensures
      var p := GetTag(b);
      p.value.Typed() && TagOk(p.value) && PutTag(p.value).Ok? && Used(b, p) >= |PutTag(p.value).value|
  {
    VarintShortest(b);
    VarintShortest(GetVarint(b).rest);
  }

  lemma {:induction false} TagListCost(b: bytes, n: nat)
    requires GetTagList(b, n).Parsed?
    ensures var p := GetTagList(b, n);
      && (forall i {:trigger p.value[i]} :: 0 <= i < n ==> TagOk(p.value[i]))
      && PutTagList(p.value).Ok? && Used(b, p) >= |PutTagList(p.value).value|
    decreases n
  {
    if n > 0 {
      TagCost(b);
      TagListCost(GetTag(b).rest, n - 1);
      var tags := GetTagList(b, n).value;
      assert tags[1..] == GetTagList(GetTag(b).rest, n - 1).value;
    }
  }

  lemma TagsCost(s: Setting, b: bytes)
    requires GetTags(s, b).Parsed?
    ensures
      var p := GetTags(s, b);
      TagsOk(s, p.value) && PutTags(s, p.value).Ok? && Used(b, p) >= |PutTags(s, p.value).value|
  {
    if s.flexible {
      VarintShortest(b);
      TagListCost(GetVarint(b).rest, GetVarint(b).value);
    }
  }

  /** Reading without metadata always takes something from the input. */
  lemma {:induction false} BlindTakes(s: Setting, f: FieldMeta, b: bytes)
    requires f.Proper() && f.kind.One? && GetElem(s, f, Blind, b).Parsed?
    ensures Used(b, GetElem(s, f, Blind, b)) >= 1
    decreases f
  {
    if f.kind.elem.Structure? {
      BlindMembersTake(s, f.fields, f.Inside(), b);
      TagsCost(s, GetMembers(s, f.fields, f.Inside(), Blind, b).rest);
    }
  }

  lemma {:induction false} BlindMembersTake(s: Setting, fs: Fields, parent: Option<VersionRange>, b: bytes)
    requires fs.Proper() && GetMembers(s, fs, parent, Blind, b).Parsed?
    ensures Used(b, GetMembers(s, fs, parent, Blind, b)) >= fs.Length()
    decreases fs
  {
    if fs.Field? {
      var first := GetField(s, fs.meta, parent, Blind, b);
      assert fs.meta.IsOptional(parent) ==> first == GetOption(s, fs.meta, Blind, b);
      BlindTakes(s, fs.meta, b);
      BlindMembersTake(s, fs.next, parent, first.rest);
    }
  }

  lemma {:induction false} ElemCost(s: Setting, f: FieldMeta, place: Place, b: bytes)
    requires s.Valid() && f.Proper() && f.version.Within(s.version)
    requires GetElem(s, f, place, b).Parsed?
    requires ElemTyped(s, f, GetElem(s, f, place, b).value) && PutElem(s, f, GetElem(s, f, place, b).value).Ok?
    ensures var p, put := GetElem(s, f, place, b), PutElem(s, f, GetElem(s, f, place, b).value).value;
      && Used(b, p) >= |put|
      && (Used(b, p) == |put| ==> ElemOk(s, f, place, p.value))
      && (f.kind.elem.Text? ==> place.Blind? || !f.IsNullable(s.version))
    decreases f, 0
  {
    match f.kind.elem
    case Fixed(_) =>
    case Text => TextCost(s, f, place, b);
    case Blob => BlobCost(s, b);
    case Structure(_) =>
      MembersCost(s, f.fields, f.Inside(), place.Inside(f), b);
      TagsCost(s, GetMembers(s, f.fields, f.Inside(), place.Inside(f), b).rest);
  }

  lemma {:induction false} ItemsCost(s: Setting, f: FieldMeta, place: Place, b: bytes, n: nat)
    requires s.Valid() && f.Proper() && f.version.Within(s.version)
    requires GetItems(s, f, place, b, n).Parsed?
    requires ItemsTyped(s, f, GetItems(s, f, place, b, n).value)
    requires PutItems(s, f, GetItems(s, f, place, b, n).value).Ok?
    ensures var p, put := GetItems(s, f, place, b, n), PutItems(s, f, GetItems(s, f, place, b, n).value).value;
      && Used(b, p) >= |put|
      && (Used(b, p) == |put| ==> ItemsOk(s, f, place, p.value))
      && (n > 0 && f.kind.elem.Text? ==> place.Blind? || !f.IsNullable(s.version))
    decreases f, 1, n
  {
    if n > 0 {
      var items := GetItems(s, f, place, b, n).value;
      var first := GetElem(s, f, place, b);
      assert items[0] == first.value && items[1..] == GetItems(s, f, place, first.rest, n - 1).value;
      ElemCost(s, f, place, b);
      ItemsCost(s, f, place, first.rest, n - 1);
    }
  }

  /** Is `p` no cheaper than writing the field's value, and as cheap only if that is well formed? */
  ghost predicate OptionCosts(s: Setting, f: FieldMeta, place: Place, b: bytes, p: Parsed<Value>)
    requires p.Parsed?
    requires p.value.Null? || (p.value.Just? && InnerTyped(s, f, p.value.value))
  {
    if p.value.Null? then Used(b, p) >= |PutNull(s, f)| &&
      (Used(b, p) == |PutNull(s, f)| ==> !place.Blind? && NullOk(s, f))
    else
      var put := PutSome(s, f, p.value.value);
      put.Ok? ==> Used(b, p) >= |put.value| && (Used(b, p) == |put.value| ==> JustOk(s, f, place, p.value.value))
  }

  lemma ListCost(s: Setting, f: FieldMeta, place: Place, b: bytes)
    requires s.Valid() && f.Proper() && f.version.Within(s.version) && f.kind.Many? && !place.Blind?
    requires var p := GetList(s, f, place, b);
      p.Parsed? && (p.value.Null? || (p.value.Just? && InnerTyped(s, f, p.value.value)))
    ensures OptionCosts(s, f, place, b, GetList(s, f, place, b))
    decreases f, 2
  {
    CompactCost(b);
    Widths();
    var p := GetList(s, f, place, b);
    if p.value.Just? && PutInner(s, f, p.value.value).Ok? {
      var n := if s.flexible then GetNullableCompact(b) else GetNullableSigned(b, 4);
      ItemsCost(s, f, place, n.rest, n.value.value);
    }
  }

  lemma {:induction false} SomeIsElem(s: Setting, f: FieldMeta, v: Value)
    requires InnerTyped(s, f, v) && f.kind.One? && !f.IsRecords()
    ensures ElemTyped(s, f, v) && PutSome(s, f, v) == PutElem(s, f, v)
  {
    assert PutInner(s, f, v) == PutElem(s, f, v);
  }

  lemma {:induction false} OptionCost(s: Setting, f: FieldMeta, place: Place, b: bytes)
    requires s.Valid() && f.Proper() && f.version.Within(s.version)
    requires var p := GetOption(s, f, place, b);
      p.Parsed? && (p.value.Null? || (p.value.Just? && InnerTyped(s, f, p.value.value)))
    ensures OptionCosts(s, f, place, b, GetOption(s, f, place, b))
    decreases f, 3
  {
    var p := GetOption(s, f, place, b);
    if !place.Blind? && f.IsRecords() {
      RecordsCost(s, b);
    } else if !place.Blind? && f.IsSequence() {
      ListCost(s, f, place, b);
    } else if !place.Blind? && f.IsString() {
      if p.value.Just? {
        NullableTextCost(s, b);
        SomeIsElem(s, f, p.value.value);
      }
      Widths();
    } else if !place.Blind? && f.IsNullable(s.version) && f.IsStructure() {
      if p.value.Just? && PutSome(s, f, p.value.value).Ok? {
        SomeIsElem(s, f, p.value.value);
        ElemCost(s, f, place, b[1..]);
      }
    } else if PutSome(s, f, p.value.value).Ok? {
      SomeIsElem(s, f, p.value.value);
      ElemCost(s, f, place, b);
    }
  }

  lemma {:induction false} FieldCost(s: Setting, f: FieldMeta, parent: Option<VersionRange>, place: Place, b: bytes)
    requires f.Proper() && Present(s, parent)
    requires GetField(s, f, parent, place, b).Parsed?
    requires FieldTyped(s, f, parent, GetField(s, f, parent, place, b).value)
    requires PutField(s, f, parent, GetField(s, f, parent, place, b).value).Ok?
    ensures var p, put := GetField(s, f, parent, place, b),
      PutField(s, f, parent, GetField(s, f, parent, place, b).value).value;
      Used(b, p) >= |put| && (Used(b, p) == |put| ==> FieldOk(s, f, parent, place, p.value))
    decreases f, 4
  {
    if !f.IsOptional(parent) {
      MandatoryIsPresent(f.version, parent, s.version);
      ElemCost(s, f, place, b);
    } else if f.version.Within(s.version) {
      OptionCost(s, f, place, b);
    } else if place.Blind? {
      BlindTakes(s, f, b);
    }
  }

  /**
   Whatever bytes the decoder is given, a successful read takes at least as many as the
   encoder would write for the values it returns, and exactly as many only if those values
   are well formed.
   */
  lemma {:induction false} MembersCost(s: Setting, fs: Fields, parent: Option<VersionRange>, place: Place, b: bytes)
    requires fs.Proper() && Present(s, parent)
    requires GetMembers(s, fs, parent, place, b).Parsed?
    requires MembersTyped(s, fs, parent, GetMembers(s, fs, parent, place, b).value)
    requires PutMembers(s, fs, parent, GetMembers(s, fs, parent, place, b).value).Ok?
    ensures var p, put := GetMembers(s, fs, parent, place, b),
      PutMembers(s, fs, parent, GetMembers(s, fs, parent, place, b).value).value;
      Used(b, p) >= |put| && (Used(b, p) == |put| ==> MembersOk(s, fs, parent, place, p.value))
    decreases fs
  {
    if fs.Field? {
      var members := GetMembers(s, fs, parent, place, b).value;
      var first := GetField(s, fs.meta, parent, place, b);
      assert members[0] == first.value && members[1..] == GetMembers(s, fs.next, parent, place, first.rest).value;
      FieldCost(s, fs.meta, parent, place, b);
      MembersCost(s, fs.next, parent, place, first.rest);
    }
  }

  // ---- the main results

  /** Does every continuation leave this message's values as they were, and itself unread? */
  ghost predicate Survives(s: Setting, fs: Fields, members: seq<Value>, rest: bytes)
    requires MembersTyped(s, fs, None, members)
  {
    && PutMembers(s, fs, None, members).Ok?
    && GetMembers(s, fs, None, Top, PutMembers(s, fs, None, members).value + rest) == Parsed(members, rest)
  }

  /** A message survives the codec, whatever follows it, if and only if it is well formed. */
  lemma SurvivesIffWellFormed(s: Setting, fs: Fields, members: seq<Value>, rest: bytes)
    requires s.Valid() && fs.Proper() && MembersTyped(s, fs, None, members)
    ensures Survives(s, fs, members, rest) <==> MembersOk(s, fs, None, Top, members)
  {
    if MembersOk(s, fs, None, Top, members) {
      MembersRoundTrip(s, fs, None, Top, members, rest);
    }
    if Survives(s, fs, members, rest) {
      MembersCost(s, fs, None, Top, PutMembers(s, fs, None, members).value + rest);
    }
  }

  /** No well formed message starts another: what follows it cannot be mistaken for its end. */
  lemma WellFormedIsPrefixFree(s: Setting, fs: Fields, a: seq<Value>, b: seq<Value>, x: bytes, y: bytes)
    requires s.Valid() && fs.Proper() && MembersTyped(s, fs, None, a) && MembersTyped(s, fs, None, b)
    requires MembersOk(s, fs, None, Top, a) && MembersOk(s, fs, None, Top, b)
    requires PutMembers(s, fs, None, a).Ok? && PutMembers(s, fs, None, b).Ok?
    requires PutMembers(s, fs, None, a).value + x == PutMembers(s, fs, None, b).value + y
    ensures a == b && x == y
  {
    MembersRoundTrip(s, fs, None, Top, a, x);
    MembersRoundTrip(s, fs, None, Top, b, y);
  }

  // ---- values that do not survive

  const ALWAYS := VersionRange(0, I16_MAX)

  /** A nullable structure that is present: no byte says so, but one is read. */
  lemma PresentCursorIsLost(utf8: bytes -> bool, rest: bytes)
    ensures
      var s := Setting(0, true, utf8);
      var index := Field("partition_index", FieldMeta(ALWAYS, None, One(Fixed(Int32)), false, End), End);
      var fs := Field("cursor", FieldMeta(ALWAYS, Some(ALWAYS), One(Structure("Cursor")), false, index), End);
      var members := [Just(Struct([Num(0)], Some([])))];
      MembersTyped(s, fs, None, members) && !Survives(s, fs, members, rest)
  {
    var s := Setting(0, true, utf8);
    var meta := FieldMeta(ALWAYS, None, One(Fixed(Int32)), false, End);
    var index := Field("partition_index", meta, End);
    var f := FieldMeta(ALWAYS, Some(ALWAYS), One(Structure("Cursor")), false, index);
    var fs := Field("cursor", f, End);
    var members := [Just(Struct([Num(0)], Some([])))];
    assert FitsSigned(0, 4);
    assert InnerTyped(s, meta, Num(0));
    assert FieldTyped(s, meta, f.Inside(), Num(0));
    assert MembersTyped(s, index, f.Inside(), [Num(0)]);
    assert ElemTyped(s, f, members[0].value);
    assert InnerTyped(s, f, members[0].value);
    assert !JustOk(s, f, Top, members[0].value);
    SurvivesIffWellFormed(s, fs, members, rest);
  }

  /** A nullable sequence of texts that is not empty: the lengths of the texts are not read. */
  lemma ConfigurationKeysAreLost(utf8: bytes -> bool, key: bytes, flexible: bool, rest: bytes)
    requires utf8(key)
    ensures
      var s := Setting(0, flexible, utf8);
      var fs := Field("configuration_keys", FieldMeta(ALWAYS, Some(ALWAYS), Many(Text), false, End), End);
      var members := [Just(List([Str(key)]))];
      MembersTyped(s, fs, None, members) && !Survives(s, fs, members, rest)
  {
    var s := Setting(0, flexible, utf8);
    var f := FieldMeta(ALWAYS, Some(ALWAYS), Many(Text), false, End);
    var fs := Field("configuration_keys", f, End);
    var members := [Just(List([Str(key)]))];
    assert ItemsTyped(s, f, [Str(key)]);
    assert InnerTyped(s, f, members[0].value);
    assert !ListOk(s, f, Top, [Str(key)]);
    assert !JustOk(s, f, Top, members[0].value);
    SurvivesIffWellFormed(s, fs, members, rest);
  }

  /** A record frame that is not optional: neither its length nor its record data is written, and none is read. */
  lemma UnalignedRecordsAreLost(s: Setting, batches: seq<Batch>, rest: bytes)
    requires s.Valid() && AllTyped(batches)
    ensures
      var fs := Field("unaligned_records", FieldMeta(ALWAYS, None, One(Records), false, End), End);
      var members := [Frames(batches)];
      MembersTyped(s, fs, None, members) && !Survives(s, fs, members, rest)
  {
    var f := FieldMeta(ALWAYS, None, One(Records), false, End);
    var fs := Field("unaligned_records", f, End);
    var members := [Frames(batches)];
    assert InnerTyped(s, f, members[0]);
    assert FieldTyped(s, f, None, members[0]);
    assert MembersTyped(s, End, None, members[1..]);
    SurvivesIffWellFormed(s, fs, members, rest);
  }

  // ---- tag buffers outside flexible versions

  /** The value with its tag buffers left out, as a version without them returns it. */
  function Untagged(v: Value): Value
  {
    match v
    case Just(inner) => Just(Untagged(inner))
    case List(items) => List(UntaggedAll(items))
    case Struct(members, _) => Struct(UntaggedAll(members), None)
    case _ => v
  }

  function UntaggedAll(vs: seq<Value>): (r: seq<Value>)
    ensures |r| == |vs| && forall i :: 0 <= i < |vs| ==> r[i] == Untagged(vs[i])
  {
    if vs == [] then [] else [Untagged(vs[0])] + UntaggedAll(vs[1..])
  }

  lemma {:induction false} UntaggedElem(s: Setting, f: FieldMeta, v: Value)
    requires !s.flexible && ElemTyped(s, f, v)
    ensures ElemTyped(s, f, Untagged(v)) && PutElem(s, f, Untagged(v)) == PutElem(s, f, v)
    decreases f, 0
  {
    match f.kind.elem
    case Fixed(prim) => assert PrimTyped(prim, v);
    case Structure(_) => UntaggedMembers(s, f.fields, f.Inside(), v.members);
    case _ =>
  }

  lemma {:induction false} UntaggedItems(s: Setting, f: FieldMeta, items: seq<Value>)
    requires !s.flexible && ItemsTyped(s, f, items)
    ensures ItemsTyped(s, f, UntaggedAll(items)) && PutItems(s, f, UntaggedAll(items)) == PutItems(s, f, items)
    decreases f, 1, |items|
  {
    if items != [] {
      UntaggedElem(s, f, items[0]);
      UntaggedItems(s, f, items[1..]);
      var all, others := UntaggedAll(items), UntaggedAll(items[1..]);
      assert all[0] == Untagged(items[0]) && all[1..] == others;
      forall i | 0 <= i < |all| ensures ElemTyped(s, f, all[i]) {
        assert i > 0 ==> all[i] == others[i - 1];
      }
    }
  }

  lemma {:induction false} UntaggedInner(s: Setting, f: FieldMeta, v: Value)
    requires !s.flexible && InnerTyped(s, f, v)
    ensures InnerTyped(s, f, Untagged(v)) && PutInner(s, f, Untagged(v)) == PutInner(s, f, v)
    decreases f, 2
  {
    if f.kind.Many? {
      UntaggedItems(s, f, v.items);
    } else {
      UntaggedElem(s, f, v);
    }
  }

  lemma {:induction false} UntaggedSome(s: Setting, f: FieldMeta, v: Value)
    requires !s.flexible && InnerTyped(s, f, v)
    ensures InnerTyped(s, f, Untagged(v)) && PutSome(s, f, Untagged(v)) == PutSome(s, f, v)
    decreases f, 3
  {
    UntaggedInner(s, f, v);
    if f.IsRecords() {
      assert ElemTyped(s, f, v);
    }
  }

  lemma {:induction false} UntaggedField(s: Setting, f: FieldMeta, parent: Option<VersionRange>, v: Value)
    requires !s.flexible && FieldTyped(s, f, parent, v)
    ensures FieldTyped(s, f, parent, Untagged(v)) && PutField(s, f, parent, Untagged(v)) == PutField(s, f, parent, v)
    decreases f, 4
  {
    if !f.IsOptional(parent) {
      UntaggedInner(s, f, v);
    } else if v.Just? {
      UntaggedSome(s, f, v.value);
    }
  }

  /** Outside flexible versions the same bytes are written with tag buffers and without. */
  lemma {:induction false} UntaggedMembers(s: Setting, fs: Fields, parent: Option<VersionRange>, members: seq<Value>)
    requires !s.flexible && MembersTyped(s, fs, parent, members)
    ensures MembersTyped(s, fs, parent, UntaggedAll(members))
    ensures PutMembers(s, fs, parent, UntaggedAll(members)) == PutMembers(s, fs, parent, members)
    decreases fs
  {
    if fs.Field? {
      UntaggedField(s, fs.meta, parent, members[0]);
      UntaggedMembers(s, fs.next, parent, members[1..]);
      assert UntaggedAll(members)[1..] == UntaggedAll(members[1..]);
    }
  }

  /** What a message is read back as: outside flexible versions its tag buffers are gone. */
  function AsRead(s: Setting, members: seq<Value>): (r: seq<Value>)
    ensures |r| == |members|
  {
    if s.flexible then members else UntaggedAll(members)
  }

  lemma AsReadIsWritten(s: Setting, fs: Fields, members: seq<Value>)
    requires MembersTyped(s, fs, None, members)
    ensures MembersTyped(s, fs, None, AsRead(s, members))
    ensures PutMembers(s, fs, None, AsRead(s, members)) == PutMembers(s, fs, None, members)
  {
    if !s.flexible {
      UntaggedMembers(s, fs, None, members);
    }
  }

  /**
   A message comes back, its tag buffers dropped where the version has none, if and only if the
   rest of it is well formed.
   */
  lemma ReturnsIffWellFormed(s: Setting, fs: Fields, members: seq<Value>, rest: bytes)
    requires s.Valid() && fs.Proper() && MembersTyped(s, fs, None, members)
    ensures MembersTyped(s, fs, None, AsRead(s, members))
    ensures
      var put := PutMembers(s, fs, None, members);
      put.Ok? && GetMembers(s, fs, None, Top, put.value + rest) == Parsed(AsRead(s, members), rest) <==>
      MembersOk(s, fs, None, Top, AsRead(s, members))
  {
    AsReadIsWritten(s, fs, members);
    SurvivesIffWellFormed(s, fs, AsRead(s, members), rest);
  }
}
