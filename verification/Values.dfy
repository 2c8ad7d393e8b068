/**
 The values of the generated structures, what it means for a value to have the type
 generated from a field's metadata, and the setting of one encode or decode.
 */
module Values {
  import opened Wire
  import opened Schema
  import opened RecordBlob

  datatype Tag = Tag(tag: nat, data: bytes) {
    predicate Typed() {
      tag < U32_LIMIT
    }
  }

  type Tags = seq<Tag>

  datatype Value =
    | Num(n: int)                                 // booleans and integers
    | Raw(raw: bytes)                             // uuids and the bits of a float64
    | Str(text: bytes)
    | Bin(blob: bytes)
    | Frames(batches: seq<Batch>)
    | Null
    | Just(value: Value)
    | List(items: seq<Value>)
    | Struct(members: seq<Value>, tags: Option<Tags>)

  /** The API version, whether it is flexible, and which bytes are valid UTF-8. */
  datatype Setting = Setting(version: int, flexible: bool, utf8: bytes -> bool) {
    predicate Valid() {
      0 <= version <= I16_MAX
    }
  }

  function Width(prim: Prim): (w: nat)
    ensures w >= 1
  {
    match prim
    case Bool => 1
    case Int8 => 1
    case Int16 => 2
    case Int32 => 4
    case Int64 => 8
    case Uint16 => 2
    case Float64 => 8
    case Uuid => 16
  }

  predicate PrimTyped(prim: Prim, v: Value)
  {
    match prim
    case Bool => v.Num? && 0 <= v.n <= 1
    case Uint16 => v.Num? && 0 <= v.n < Pow256(2)
    case Float64 => v.Raw? && |v.raw| == 8
    case Uuid => v.Raw? && |v.raw| == 16
    case _ => v.Num? && FitsSigned(v.n, Width(prim))
  }

  predicate TagsTyped(tags: Tags)
  {
    forall i {:trigger tags[i]} :: 0 <= i < |tags| ==> tags[i].Typed()
  }

  /** Has a single element of the field this type? */
  predicate ElemTyped(s: Setting, f: FieldMeta, v: Value)
    decreases f, 0
  {
    match f.kind.elem
    case Fixed(prim) => PrimTyped(prim, v)
    case Text => v.Str? && s.utf8(v.text)
    case Blob => v.Bin?
    case Records => v.Frames? && AllTyped(v.batches)
    case Structure(_) =>
      v.Struct? && MembersTyped(s, f.fields, f.Inside(), v.members) && (v.tags.Some? ==> TagsTyped(v.tags.value))
  }

  predicate ItemsTyped(s: Setting, f: FieldMeta, items: seq<Value>)
    decreases f, 1
  {
    forall i {:trigger items[i]} :: 0 <= i < |items| ==> ElemTyped(s, f, items[i])
  }

  predicate InnerTyped(s: Setting, f: FieldMeta, v: Value)
    decreases f, 2
  {
    if f.kind.Many? then v.List? && ItemsTyped(s, f, v.items) else ElemTyped(s, f, v)
  }

  predicate FieldTyped(s: Setting, f: FieldMeta, parent: Option<VersionRange>, v: Value)
    decreases f, 3
  {
    if f.IsOptional(parent) then v.Null? || (v.Just? && InnerTyped(s, f, v.value)) else InnerTyped(s, f, v)
  }

  predicate MembersTyped(s: Setting, fs: Fields, parent: Option<VersionRange>, members: seq<Value>)
    decreases fs
  {
    match fs
    case End => members == []
    case Field(_, meta, next) =>
      members != [] && FieldTyped(s, meta, parent, members[0]) && MembersTyped(s, next, parent, members[1..])
  }

  // ---- primitives of fixed width

  function PutPrim(prim: Prim, v: Value): (b: bytes)
    requires PrimTyped(prim, v)
    ensures |b| == Width(prim)
  {
    match prim
    case Bool => PutUnsigned(v.n, 1)
    case Uint16 => PutUnsigned(v.n, 2)
    case Float64 => v.raw
    case Uuid => v.raw
    case _ => PutSigned(v.n, Width(prim))
  }

  function GetPrim(prim: Prim, b: bytes): (p: Parsed<Value>)
    ensures p.Parsed? ==> |b| - |p.rest| == Width(prim) && PrimTyped(prim, p.value)
  {
    var taken := Take(b, Width(prim));
    if taken.Failed? then Failed(taken.error)
    else
      var v := match prim
        case Bool => Num(if taken.value[0] != 0 then 1 else 0)
        case Uint16 => Num(GetUnsigned(taken.value))
        case Float64 => Raw(taken.value)
        case Uuid => Raw(taken.value)
        case _ => Num(GetSigned(taken.value));
      Parsed(v, taken.rest)
  }

  lemma PrimRoundTrip(prim: Prim, v: Value, rest: bytes)
    requires PrimTyped(prim, v)
    ensures GetPrim(prim, PutPrim(prim, v) + rest) == Parsed(v, rest)
  {
    TakeFront(PutPrim(prim, v), rest);
    Widths();
    match prim
    case Bool => UnsignedRoundTrip(v.n, 1);
    case Uint16 => UnsignedRoundTrip(v.n, 2);
    case Float64 =>
    case Uuid =>
    case _ => SignedRoundTrip(v.n, Width(prim));
  }
}
