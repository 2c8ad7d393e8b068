/**
 What the encoder writes for a value: a function of the value, the metadata of its
 fields and the setting.
 */
module Encoding {
  import opened Wire
  import opened Schema
  import opened RecordBlob
  import opened Values

  function Join(a: Result<bytes>, b: Result<bytes>): (r: Result<bytes>)
    ensures r.Ok? <==> a.Ok? && b.Ok?
  {
    if a.Err? then a else if b.Err? then b else Ok(a.value + b.value)
  }

  lemma JoinAssociates(a: Result<bytes>, b: Result<bytes>, c: Result<bytes>)
    ensures Join(Join(a, b), c) == Join(a, Join(b, c))
    ensures Join(Ok([]), a) == a
  {
    if a.Ok? && b.Ok? && c.Ok? {
      assert a.value + b.value + c.value == a.value + (b.value + c.value);
    }
    if a.Ok? {
      assert [] + a.value == a.value;
    }
  }

  /** The length of a present value in a flexible message: one more, as a varint. */
  function PutCompact(n: nat): Result<bytes>
  {
    if n + 1 < U32_LIMIT then Ok(PutVarint(n + 1)) else Err(OutOfRange)
  }

  function PutTextLength(s: Setting, n: nat): Result<bytes>
  {
    if s.flexible then PutCompact(n)
    else if n < I16_LIMIT then Widths(); Ok(PutSigned(n, 2))
    else Err(OutOfRange)
  }

  function PutBlobLength(s: Setting, n: nat): Result<bytes>
  {
    if s.flexible then PutCompact(n)
    else if n < U32_LIMIT then Ok(PutUnsigned(n, 4))
    else Err(OutOfRange)
  }

  function PutListLength(s: Setting, n: nat): Result<bytes>
  {
    if s.flexible then PutCompact(n)
    else if n < I32_LIMIT then Widths(); Ok(PutSigned(n, 4))
    else Err(OutOfRange)
  }

  function PutTag(tag: Tag): Result<bytes>
  {
    if |tag.data| < U32_LIMIT then Ok(PutVarint(tag.tag) + PutVarint(|tag.data|) + tag.data) else Err(OutOfRange)
  }

  function PutTagList(tags: Tags): Result<bytes>
  {
    if tags == [] then Ok([]) else Join(PutTag(tags[0]), PutTagList(tags[1..]))
  }

  /** The tag buffer that ends a structure; only flexible messages carry it. */
  function PutTags(s: Setting, tags: Option<Tags>): Result<bytes>
  {
    if tags.None? || !s.flexible then Ok([])
    else if |tags.value| < U32_LIMIT then Join(Ok(PutVarint(|tags.value|)), PutTagList(tags.value))
    else Err(OutOfRange)
  }

  function PutNull(s: Setting, f: FieldMeta): bytes
  {
    if f.IsRecords() then (if s.flexible then PutVarint(1) else PutUnsigned(0, 4))
    else if f.IsNullable(s.version) then
      if f.IsStructure() && !f.IsSequence() then Widths(); PutSigned(-1, 1)
      else if s.flexible then PutVarint(0)
      else if f.IsSequence() then Widths(); PutSigned(-1, 4)
      else if f.IsString() then Widths(); PutSigned(-1, 2)
      else []
    else []
  }

  function PutElem(s: Setting, f: FieldMeta, v: Value): Result<bytes>
    requires ElemTyped(s, f, v)
    decreases f, 0
  {
    match f.kind.elem
    case Fixed(prim) => Ok(PutPrim(prim, v))
    case Text => Join(PutTextLength(s, |v.text|), Ok(v.text))
    case Blob => Join(PutBlobLength(s, |v.blob|), Ok(v.blob))
    case Records => Ok(PutBare(v.batches))
    case Structure(_) => Join(PutMembers(s, f.fields, f.Inside(), v.members), PutTags(s, v.tags))
  }

  function PutItems(s: Setting, f: FieldMeta, items: seq<Value>): Result<bytes>
    requires ItemsTyped(s, f, items)
    decreases f, 1, |items|
  {
    if items == [] then Ok([]) else Join(PutElem(s, f, items[0]), PutItems(s, f, items[1..]))
  }

  function PutInner(s: Setting, f: FieldMeta, v: Value): Result<bytes>
    requires InnerTyped(s, f, v)
    decreases f, 2
  {
    if f.kind.Many? then Join(PutListLength(s, |v.items|), PutItems(s, f, v.items)) else PutElem(s, f, v)
  }

  /** A present optional value. Only here are record frames written as one byte string. */
  function PutSome(s: Setting, f: FieldMeta, v: Value): Result<bytes>
    requires InnerTyped(s, f, v)
    decreases f, 3
  {
    if f.IsRecords() then
      assert ElemTyped(s, f, v);
      var blob := PutBatches(v.batches);
      Join(PutBlobLength(s, |blob|), Ok(blob))
    else PutInner(s, f, v)
  }

  function PutField(s: Setting, f: FieldMeta, parent: Option<VersionRange>, v: Value): Result<bytes>
    requires FieldTyped(s, f, parent, v)
    decreases f, 4
  {
    if !f.version.Within(s.version) then Ok([])
    else if !f.IsOptional(parent) then PutInner(s, f, v)
    else if v.Null? then Ok(PutNull(s, f))
    else PutSome(s, f, v.value)
  }

  function PutMembers(s: Setting, fs: Fields, parent: Option<VersionRange>, members: seq<Value>): Result<bytes>
    requires MembersTyped(s, fs, parent, members)
    decreases fs
  {
    match fs
    case End => Ok([])
    case Field(_, meta, next) =>
      Join(PutField(s, meta, parent, members[0]), PutMembers(s, next, parent, members[1..]))
  }
}
