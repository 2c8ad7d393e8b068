/**
 The view of a value that generated code shows to the encoder (its serde image), and the
 shape that generated code asks the decoder for. Neither mentions versions or nullability:
 the codec finds those by name.
 */
module Serde {
  import opened Wire
  import opened Schema
  import opened RecordBlob
  import opened Values

  const TAG_BUFFER := "tag_buffer"
  const HEADER := "HeaderMezzanine"

  // ---- values shown to the encoder

  datatype Image =
    | PrimImage(prim: Prim, value: Value)
    | TextImage(text: bytes)
    | BlobImage(blob: bytes)
    | FramesImage(batches: seq<Batch>)
    | TagsImage(buffer: Tags)
    | NoneImage
    | SomeImage(some: Image)
    | SeqImage(items: seq<Image>)
    | StructImage(name: string, members: MemberImages)

  datatype MemberImages = NoMembers | MemberImage(key: string, image: Image, next: MemberImages)

  predicate AnyTyped(s: Setting, f: FieldMeta, v: Value)
    decreases f, 3
  {
    match v
    case Null => true
    case Just(inner) => !inner.Null? && !inner.Just? && InnerTyped(s, f, inner)
    case List(items) => f.kind.Many? && ItemsTyped(s, f, items)
    case _ => ElemTyped(s, f, v)
  }

  function ImageOf(s: Setting, f: FieldMeta, v: Value): (x: Image)
    requires AnyTyped(s, f, v)
    decreases f, 4, v
  {
    match v
    case Null => NoneImage
    case Just(inner) =>
      InnerTypedIsAny(s, f, inner);
      SomeImage(ImageOf(s, f, inner))
    case List(items) => SeqImage(seq(|items|, i requires 0 <= i < |items| => ElemImage(s, f, items[i])))
    case _ => ElemImage(s, f, v)
  }

  function ElemImage(s: Setting, f: FieldMeta, v: Value): (x: Image)
    requires ElemTyped(s, f, v)
    decreases f, 2
  {
    match f.kind.elem
    case Fixed(prim) => PrimImage(prim, v)
    case Text => TextImage(v.text)
    case Blob => BlobImage(v.blob)
    case Records => FramesImage(v.batches)
    case Structure(name) => StructImage(name, MembersImage(s, f.fields, f.Inside(), v.members, v.tags))
  }

  function TagBufferImage(tags: Option<Tags>): Image
  {
    if tags.None? then NoneImage else SomeImage(TagsImage(tags.value))
  }

  /** The members of a structure in order, its tag buffer last. */
  function MembersImage(s: Setting, fs: Fields, parent: Option<VersionRange>, members: seq<Value>,
      tags: Option<Tags>): (x: MemberImages)
    requires MembersTyped(s, fs, parent, members)
    decreases fs
  {
    match fs
    case End => MemberImage(TAG_BUFFER, TagBufferImage(tags), NoMembers)
    case Field(name, meta, next) =>
      FieldTypedIsAny(s, meta, parent, members[0]);
      MemberImage(name, ImageOf(s, meta, members[0]), MembersImage(s, next, parent, members[1..], tags))
  }

  lemma InnerTypedIsAny(s: Setting, f: FieldMeta, v: Value)
    requires InnerTyped(s, f, v)
    ensures AnyTyped(s, f, v) && !v.Null? && !v.Just?
  {
    if f.kind.One? {
      assert ElemTyped(s, f, v);
      assert f.kind.elem.Fixed? ==> PrimTyped(f.kind.elem.prim, v);
    }
  }

  lemma FieldTypedIsAny(s: Setting, f: FieldMeta, parent: Option<VersionRange>, v: Value)
    requires FieldTyped(s, f, parent, v)
    ensures AnyTyped(s, f, v)
  {
    if !f.IsOptional(parent) {
      InnerTypedIsAny(s, f, v);
    } else if v.Just? {
      InnerTypedIsAny(s, f, v.value);
    }
  }

  // ---- shapes asked of the decoder

  datatype Shape =
    | PrimShape(prim: Prim)
    | TextShape
    | BlobShape
    | FramesShape
    | TagsShape
    | OptionShape(inner: Shape)
    | VecShape(item: Shape)
    | StructShape(name: string, members: MemberShapes)

  datatype MemberShapes = NoShapes | MemberShape(key: string, shape: Shape, next: MemberShapes)

  function ElemShape(f: FieldMeta): Shape
    decreases f, 0
  {
    match f.kind.elem
    case Fixed(prim) => PrimShape(prim)
    case Text => TextShape
    case Blob => BlobShape
    case Records => FramesShape
    case Structure(name) => StructShape(name, MembersShape(f.fields, f.Inside()))
  }

  function InnerShape(f: FieldMeta): Shape
    decreases f, 1
  {
    if f.kind.Many? then VecShape(ElemShape(f)) else ElemShape(f)
  }

  function FieldShape(f: FieldMeta, parent: Option<VersionRange>): Shape
    decreases f, 2
  {
    if f.IsOptional(parent) then OptionShape(InnerShape(f)) else InnerShape(f)
  }

  function MembersShape(fs: Fields, parent: Option<VersionRange>): MemberShapes
    decreases fs
  {
    match fs
    case End => MemberShape(TAG_BUFFER, OptionShape(TagsShape), NoShapes)
    case Field(name, meta, next) => MemberShape(name, FieldShape(meta, parent), MembersShape(next, parent))
  }
}
