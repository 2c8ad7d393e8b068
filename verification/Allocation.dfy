/**
 The number of bytes set aside for a frame before it is encoded, and what is written
 into them.
 */
module Allocation {
  import opened Wire
  import opened Schema
  import opened RecordBlob
  import opened Values
  import opened Encoding
  import opened Frames
  import opened PublicMessages

  /** The room for batches: base offset, length, fixed fields and record data of each. */
  function BatchesRoom(batches: seq<Batch>): nat {
    if batches == [] then 0 else 12 + |batches[0].payload| + BatchesRoom(batches[1..])
  }

  // ---- the room for values without tagged fields

  /** The room for one element: tag buffers are given none. */
  function ElemRoom(s: Setting, f: FieldMeta, v: Value): nat
    requires ElemTyped(s, f, v)
    decreases f, 0
  {
    match f.kind.elem
    case Fixed(prim) => Width(prim)
    case Text => 2 + |v.text|
    case Blob => 4 + |v.blob|
    case Records => 4 + BatchesRoom(v.batches)
    case Structure(_) => MembersRoom(s, f.fields, f.Inside(), v.members)
  }

  function ItemsRoom(s: Setting, f: FieldMeta, items: seq<Value>): nat
    requires ItemsTyped(s, f, items)
    decreases f, 1, |items|
  {
    if items == [] then 0 else ElemRoom(s, f, items[0]) + ItemsRoom(s, f, items[1..])
  }

  function InnerRoom(s: Setting, f: FieldMeta, v: Value): nat
    requires InnerTyped(s, f, v)
    decreases f, 2
  {
    if f.kind.Many? then 4 + ItemsRoom(s, f, v.items) else ElemRoom(s, f, v)
  }

  function FieldRoom(s: Setting, f: FieldMeta, parent: Option<VersionRange>, v: Value): nat
    requires FieldTyped(s, f, parent, v)
    decreases f, 3
  {
    if !f.IsOptional(parent) then InnerRoom(s, f, v)
    else if v.Null? then 4
    else InnerRoom(s, f, v.value)
  }

  function MembersRoom(s: Setting, fs: Fields, parent: Option<VersionRange>, members: seq<Value>): nat
    requires MembersTyped(s, fs, parent, members)
    decreases fs
  {
    match fs
    case End => 0
    case Field(_, meta, next) =>
      FieldRoom(s, meta, parent, members[0]) + MembersRoom(s, next, parent, members[1..])
  }

  function RequestHeaderRoom(h: RequestHeader): nat {
    2 + 2 + 4 + (if h.clientId.Some? then 2 + |h.clientId.value| else 4)
  }

  function RequestRoom(s: Setting, m: MessageMeta, h: RequestHeader, v: Value): nat
    requires v.Struct? && MembersTyped(s, m.fields, None, v.members)
  {
    4 + RequestHeaderRoom(h) + MembersRoom(s, m.fields, None, v.members)
  }

  function ResponseRoom(s: Setting, m: MessageMeta, v: Value): nat
    requires v.Struct? && MembersTyped(s, m.fields, None, v.members)
  {
    4 + 4 + MembersRoom(s, m.fields, None, v.members)
  }

  // ---- the room for public messages

  /** The room for a tagged field: that of its value, or of a length if it is not set. */
  function TagRoom(s: Setting, encode: TagEncoder, t: Tagged): nat
    requires TagSettled(s, encode, t)
    decreases t
  {
    if t.Unset? then 4 else InnerSpace(s, encode, t.meta, t.value)
  }

  function TaggedRoom(s: Setting, encode: TagEncoder, tagged: seq<Tagged>): nat
    requires TaggedSettled(s, encode, tagged)
    decreases tagged
  {
    if tagged == [] then 0 else TagRoom(s, encode, tagged[0]) + TaggedRoom(s, encode, tagged[1..])
  }

  function StructSpace(s: Setting, encode: TagEncoder, fs: Fields, parent: Option<VersionRange>, p: Public): nat
    requires Settled(s, encode, p) && Converted(encode, p).Struct?
    requires MembersTyped(s, fs, parent, Converted(encode, p).members)
    decreases p, 0
  {
    if p.Plain? then MembersRoom(s, fs, parent, p.value.members)
    else MembersSpace(s, encode, fs, parent, p.members) + TaggedRoom(s, encode, p.tagged)
  }

  /** An element that is more than a plain value is a structure. */
  lemma ElemIsStruct(s: Setting, encode: TagEncoder, f: FieldMeta, p: Public)
    requires ElemTyped(s, f, Converted(encode, p)) && !p.Plain?
    ensures p.Record? && f.kind.elem.Structure?
  {}

  function ElemSpace(s: Setting, encode: TagEncoder, f: FieldMeta, p: Public): nat
    requires Settled(s, encode, p) && ElemTyped(s, f, Converted(encode, p))
    decreases p, 1
  {
    if p.Plain? then ElemRoom(s, f, p.value)
    else ElemIsStruct(s, encode, f, p); StructSpace(s, encode, f.fields, f.Inside(), p)
  }

  function InnerSpace(s: Setting, encode: TagEncoder, f: FieldMeta, p: Public): nat
    requires Settled(s, encode, p) && InnerTyped(s, f, Converted(encode, p))
    decreases p, 2
  {
    if p.Plain? then InnerRoom(s, f, p.value)
    else if f.kind.Many? then 4 + ItemsSpace(s, encode, f, p.items)
    else ElemSpace(s, encode, f, p)
  }

  function ItemsSpace(s: Setting, encode: TagEncoder, f: FieldMeta, ps: seq<Public>): nat
    requires AllSettled(s, encode, ps) && ItemsTyped(s, f, ConvertedAll(encode, ps))
    decreases ps
  {
    if ps == [] then 0
    else
      var vs := ConvertedAll(encode, ps);
      assert vs[0] == Converted(encode, ps[0]) && vs[1..] == ConvertedAll(encode, ps[1..]);
      ElemSpace(s, encode, f, ps[0]) + ItemsSpace(s, encode, f, ps[1..])
  }

  function FieldSpace(s: Setting, encode: TagEncoder, f: FieldMeta, parent: Option<VersionRange>, p: Public): nat
    requires Settled(s, encode, p) && FieldTyped(s, f, parent, Converted(encode, p))
    decreases p, 3
  {
    if p.Plain? then FieldRoom(s, f, parent, p.value)
    else if !f.IsOptional(parent) then InnerSpace(s, encode, f, p)
    else if p.Absent? then 4
    else InnerSpace(s, encode, f, p.inner)
  }

  function MembersSpace(s: Setting, encode: TagEncoder, fs: Fields, parent: Option<VersionRange>, ps: seq<Public>): nat
    requires AllSettled(s, encode, ps) && MembersTyped(s, fs, parent, ConvertedAll(encode, ps))
    decreases ps
  {
    match fs
    case End => 0
    case Field(_, meta, next) =>
      assert ConvertedAll(encode, ps)[1..] == ConvertedAll(encode, ps[1..]);
      FieldSpace(s, encode, meta, parent, ps[0]) + MembersSpace(s, encode, next, parent, ps[1..])
  }

  function RequestSpace(s: Setting, encode: TagEncoder, m: MessageMeta, h: RequestHeader, p: Public): nat
    requires Settled(s, encode, p) && Converted(encode, p).Struct?
    requires MembersTyped(s, m.fields, None, Converted(encode, p).members)
  {
    4 + RequestHeaderRoom(h) + StructSpace(s, encode, m.fields, None, p)
  }

  function ResponseSpace(s: Setting, encode: TagEncoder, m: MessageMeta, p: Public): nat
    requires Settled(s, encode, p) && Converted(encode, p).Struct?
    requires MembersTyped(s, m.fields, None, Converted(encode, p).members)
  {
    4 + 4 + StructSpace(s, encode, m.fields, None, p)
  }

  // ---- what is written beyond that room, or short of it

  function VarintWidth(n: nat): nat {
    if n < 128 then 1 else 1 + VarintWidth(n / 128)
  }

  lemma {:induction false} VarintHasWidth(n: nat)
    ensures |PutVarint(n)| == VarintWidth(n)
  {
    if n >= 128 {
      VarintHasWidth(n / 128);
    }
  }

  /** A length that is given `fixed` bytes of room takes a varint in flexible versions. */
  function LengthExcess(s: Setting, n: nat, fixed: nat): int {
    if s.flexible then VarintWidth(n + 1) - fixed else 0
  }

  function TagWidth(tag: Tag): nat {
    VarintWidth(tag.tag) + VarintWidth(|tag.data|) + |tag.data|
  }

  function TagListWidth(tags: Tags): nat {
    if tags == [] then 0 else TagWidth(tags[0]) + TagListWidth(tags[1..])
  }

  /** Tag buffers are given no room of their own. */
  function TagsExcess(s: Setting, tags: Option<Tags>): nat {
    if tags.None? || !s.flexible then 0 else VarintWidth(|tags.value|) + TagListWidth(tags.value)
  }

  function NullWidth(s: Setting, f: FieldMeta): nat {
    if f.IsRecords() then (if s.flexible then 1 else 4)
    else if !f.IsNullable(s.version) then 0
    else if (f.IsStructure() && !f.IsSequence()) || s.flexible then 1
    else if f.IsSequence() then 4
    else if f.IsString() then 2
    else 0
  }

  function ElemExcess(s: Setting, f: FieldMeta, v: Value): int
    requires ElemTyped(s, f, v)
    decreases f, 0
  {
    match f.kind.elem
    case Fixed(_) => 0
    case Text => LengthExcess(s, |v.text|, 2)
    case Blob => LengthExcess(s, |v.blob|, 4)
    case Records => BARE_WIDTH * |v.batches| - 4 - BatchesRoom(v.batches)
    case Structure(_) => MembersExcess(s, f.fields, f.Inside(), v.members) + TagsExcess(s, v.tags)
  }

  function ItemsExcess(s: Setting, f: FieldMeta, items: seq<Value>): int
    requires ItemsTyped(s, f, items)
    decreases f, 1, |items|
  {
    if items == [] then 0 else ElemExcess(s, f, items[0]) + ItemsExcess(s, f, items[1..])
  }

  function InnerExcess(s: Setting, f: FieldMeta, v: Value): int
    requires InnerTyped(s, f, v)
    decreases f, 2
  {
    if f.kind.Many? then LengthExcess(s, |v.items|, 4) + ItemsExcess(s, f, v.items) else ElemExcess(s, f, v)
  }

  /** A present optional record frame is one byte string; a bare one lacks its record data. */
  function SomeExcess(s: Setting, f: FieldMeta, v: Value): int
    requires InnerTyped(s, f, v)
    decreases f, 3
  {
    if f.IsRecords() then
      assert ElemTyped(s, f, v);
      LengthExcess(s, BatchesRoom(v.batches), 4)
    else InnerExcess(s, f, v)
  }

  /** A field outside the version has room and is not written; an absent one has the room of a length. */
  function FieldExcess(s: Setting, f: FieldMeta, parent: Option<VersionRange>, v: Value): int
    requires FieldTyped(s, f, parent, v)
    decreases f, 4
  {
    if !f.version.Within(s.version) then 0 - FieldRoom(s, f, parent, v)
    else if !f.IsOptional(parent) then InnerExcess(s, f, v)
    else if v.Null? then NullWidth(s, f) - 4
    else SomeExcess(s, f, v.value)
  }

  function MembersExcess(s: Setting, fs: Fields, parent: Option<VersionRange>, members: seq<Value>): int
    requires MembersTyped(s, fs, parent, members)
    decreases fs
  {
    match fs
    case End => 0
    case Field(_, meta, next) =>
      FieldExcess(s, meta, parent, members[0]) + MembersExcess(s, next, parent, members[1..])
  }

  function RequestExcess(s: Setting, m: MessageMeta, h: RequestHeader, v: Value): int
    requires v.Struct? && MembersTyped(s, m.fields, None, v.members)
  {
    (if h.clientId.Some? then 0 else -2) + TagsExcess(s, h.tags) +
    MembersExcess(s, m.fields, None, v.members) + TagsExcess(s, v.tags)
  }

  function ResponseExcess(s: Setting, m: MessageMeta, apiKey: Option<int>, h: ResponseHeader, v: Value): int
    requires v.Struct? && MembersTyped(s, m.fields, None, v.members)
  {
    (if apiKey == Some(API_VERSIONS) then 0 else TagsExcess(s, h.tags)) +
    MembersExcess(s, m.fields, None, v.members) + TagsExcess(s, v.tags)
  }

  // ---- room and excess account for every byte

  lemma {:induction false} TagListSize(tags: Tags)
    requires PutTagList(tags).Ok?
    ensures |PutTagList(tags).value| == TagListWidth(tags)
  {
    if tags != [] {
      VarintHasWidth(tags[0].tag);
      VarintHasWidth(|tags[0].data|);
      TagListSize(tags[1..]);
    }
  }

  lemma {:induction false} TagsSize(s: Setting, tags: Option<Tags>)
    requires PutTags(s, tags).Ok?
    ensures |PutTags(s, tags).value| == TagsExcess(s, tags)
  {
    if tags.Some? && s.flexible {
      VarintHasWidth(|tags.value|);
      TagListSize(tags.value);
    }
  }

  const BARE_WIDTH := 12 + FIXED_BATCH_LENGTH

  lemma {:induction false} BatchesSize(batches: seq<Batch>)
    requires AllTyped(batches)
    ensures |PutBatches(batches)| == BatchesRoom(batches)
    ensures |PutBare(batches)| == BARE_WIDTH * |batches| <= BatchesRoom(batches)
  {
    if batches != [] {
      assert batches[0].Typed();
      BatchesSize(batches[1..]);
    }
  }

  lemma {:induction false} ElemSize(s: Setting, f: FieldMeta, v: Value)
    requires ElemTyped(s, f, v) && PutElem(s, f, v).Ok?
    ensures |PutElem(s, f, v).value| == ElemRoom(s, f, v) + ElemExcess(s, f, v)
    decreases f, 0
  {
    match f.kind.elem
    case Fixed(_) =>
    case Text => VarintHasWidth(|v.text| + 1);
    case Blob => VarintHasWidth(|v.blob| + 1);
    case Records => BatchesSize(v.batches);
    case Structure(_) =>
      MembersSize(s, f.fields, f.Inside(), v.members);
      TagsSize(s, v.tags);
  }

  lemma {:induction false} ItemsSize(s: Setting, f: FieldMeta, items: seq<Value>)
    requires ItemsTyped(s, f, items) && PutItems(s, f, items).Ok?
    ensures |PutItems(s, f, items).value| == ItemsRoom(s, f, items) + ItemsExcess(s, f, items)
    decreases f, 1, |items|
  {
    if items != [] {
      ElemSize(s, f, items[0]);
      ItemsSize(s, f, items[1..]);
    }
  }

  lemma {:induction false} InnerSize(s: Setting, f: FieldMeta, v: Value)
    requires InnerTyped(s, f, v) && PutInner(s, f, v).Ok?
    ensures |PutInner(s, f, v).value| == InnerRoom(s, f, v) + InnerExcess(s, f, v)
    decreases f, 2
  {
    if f.kind.Many? {
      VarintHasWidth(|v.items| + 1);
      ItemsSize(s, f, v.items);
    } else {
      ElemSize(s, f, v);
    }
  }

  lemma {:induction false} SomeSize(s: Setting, f: FieldMeta, v: Value)
    requires InnerTyped(s, f, v) && PutSome(s, f, v).Ok?
    ensures |PutSome(s, f, v).value| == InnerRoom(s, f, v) + SomeExcess(s, f, v)
    decreases f, 3
  {
    if f.IsRecords() {
      assert ElemTyped(s, f, v);
      BatchesSize(v.batches);
      VarintHasWidth(BatchesRoom(v.batches) + 1);
    } else {
      InnerSize(s, f, v);
    }
  }

  lemma {:induction false} NullSize(s: Setting, f: FieldMeta)
    ensures |PutNull(s, f)| == NullWidth(s, f)
  {
    VarintHasWidth(0);
    VarintHasWidth(1);
  }

  lemma {:induction false} FieldSize(s: Setting, f: FieldMeta, parent: Option<VersionRange>, v: Value)
    requires FieldTyped(s, f, parent, v) && PutField(s, f, parent, v).Ok?
    ensures |PutField(s, f, parent, v).value| == FieldRoom(s, f, parent, v) + FieldExcess(s, f, parent, v)
    decreases f, 4
  {
    if f.version.Within(s.version) {
      if !f.IsOptional(parent) {
        InnerSize(s, f, v);
      } else if v.Null? {
        NullSize(s, f);
      } else {
        SomeSize(s, f, v.value);
      }
    }
  }

  /** What is written for a structure's members is their room and their excess, byte for byte. */
  lemma {:induction false} MembersSize(s: Setting, fs: Fields, parent: Option<VersionRange>, members: seq<Value>)
    requires MembersTyped(s, fs, parent, members) && PutMembers(s, fs, parent, members).Ok?
    ensures |PutMembers(s, fs, parent, members).value| ==
      MembersRoom(s, fs, parent, members) + MembersExcess(s, fs, parent, members)
    decreases fs
  {
    if fs.Field? {
      FieldSize(s, fs.meta, parent, members[0]);
      MembersSize(s, fs.next, parent, members[1..]);
    }
  }

  lemma {:induction false} RequestSize(size: int, h: RequestHeader, s: Setting, m: MessageMeta, v: Value)
    requires FitsSigned(size, 4) && h.Typed() && v.Struct? && MembersTyped(s, m.fields, None, v.members)
    requires PutRequest(size, h, s, m, v).Ok?
    ensures |PutRequest(size, h, s, m, v).value| == RequestRoom(s, m, h, v) + RequestExcess(s, m, h, v)
  {
    MembersSize(s, m.fields, None, v.members);
    TagsSize(s, v.tags);
    TagsSize(Setting(0, s.flexible, _ => true), h.tags);
  }

  lemma {:induction false} ResponseSize(size: int, h: ResponseHeader, apiKey: Option<int>, s: Setting,
      m: MessageMeta, v: Value)
    requires FitsSigned(size, 4) && h.Typed() && v.Struct? && MembersTyped(s, m.fields, None, v.members)
    requires PutResponse(size, h, apiKey, s, m, v).Ok?
    ensures |PutResponse(size, h, apiKey, s, m, v).value| == ResponseRoom(s, m, v) + ResponseExcess(s, m, apiKey, h, v)
  {
    MembersSize(s, m.fields, None, v.members);
    TagsSize(s, v.tags);
    TagsSize(Setting(0, apiKey != Some(API_VERSIONS) && s.flexible, _ => true), h.tags);
  }

  // ---- tagged fields have room of their own

  /** The room of all tagged fields, at any depth. */
  function Beside(s: Setting, encode: TagEncoder, p: Public): nat
    requires Settled(s, encode, p)
    decreases p
  {
    match p
    case Plain(_) => 0
    case Absent => 0
    case Present(inner) => Beside(s, encode, inner)
    case Several(items) => AllBeside(s, encode, items)
    case Record(members, tagged) => AllBeside(s, encode, members) + TaggedRoom(s, encode, tagged)
  }

  function AllBeside(s: Setting, encode: TagEncoder, ps: seq<Public>): nat
    requires AllSettled(s, encode, ps)
    decreases ps
  {
    if ps == [] then 0 else Beside(s, encode, ps[0]) + AllBeside(s, encode, ps[1..])
  }

  lemma {:induction false} StructSpaceSplits(s: Setting, encode: TagEncoder, fs: Fields, parent: Option<VersionRange>,
      p: Public)
    requires Settled(s, encode, p) && Converted(encode, p).Struct?
    requires MembersTyped(s, fs, parent, Converted(encode, p).members)
    ensures StructSpace(s, encode, fs, parent, p) ==
      MembersRoom(s, fs, parent, Converted(encode, p).members) + Beside(s, encode, p)
    decreases p, 0
  {
    if !p.Plain? {
      MembersSpaceSplits(s, encode, fs, parent, p.members);
    }
  }

  lemma {:induction false} ElemSpaceSplits(s: Setting, encode: TagEncoder, f: FieldMeta, p: Public)
    requires Settled(s, encode, p) && ElemTyped(s, f, Converted(encode, p))
    ensures ElemSpace(s, encode, f, p) == ElemRoom(s, f, Converted(encode, p)) + Beside(s, encode, p)
    decreases p, 1
  {
    if !p.Plain? {
      ElemIsStruct(s, encode, f, p);
      StructSpaceSplits(s, encode, f.fields, f.Inside(), p);
    }
  }

  lemma {:induction false} ItemsSpaceSplits(s: Setting, encode: TagEncoder, f: FieldMeta, ps: seq<Public>)
    requires AllSettled(s, encode, ps) && ItemsTyped(s, f, ConvertedAll(encode, ps))
    ensures ItemsSpace(s, encode, f, ps) == ItemsRoom(s, f, ConvertedAll(encode, ps)) + AllBeside(s, encode, ps)
    decreases ps
  {
    if ps != [] {
      var vs := ConvertedAll(encode, ps);
      assert vs[0] == Converted(encode, ps[0]) && vs[1..] == ConvertedAll(encode, ps[1..]);
      ElemSpaceSplits(s, encode, f, ps[0]);
      ItemsSpaceSplits(s, encode, f, ps[1..]);
    }
  }

  lemma {:induction false} InnerSpaceSplits(s: Setting, encode: TagEncoder, f: FieldMeta, p: Public)
    requires Settled(s, encode, p) && InnerTyped(s, f, Converted(encode, p))
    ensures InnerSpace(s, encode, f, p) == InnerRoom(s, f, Converted(encode, p)) + Beside(s, encode, p)
    decreases p, 2
  {
    if !p.Plain? {
      if f.kind.Many? {
        ItemsSpaceSplits(s, encode, f, p.items);
      } else {
        ElemSpaceSplits(s, encode, f, p);
      }
    }
  }

  lemma {:induction false} FieldSpaceSplits(s: Setting, encode: TagEncoder, f: FieldMeta,
      parent: Option<VersionRange>, p: Public)
    requires Settled(s, encode, p) && FieldTyped(s, f, parent, Converted(encode, p))
    ensures FieldSpace(s, encode, f, parent, p) ==
      FieldRoom(s, f, parent, Converted(encode, p)) + Beside(s, encode, p)
    decreases p, 3
  {
    if !p.Plain? {
      if !f.IsOptional(parent) {
        InnerSpaceSplits(s, encode, f, p);
      } else if p.Present? {
        InnerSpaceSplits(s, encode, f, p.inner);
      }
    }
  }

  /** The room for a structure's members is that of what is written in place and that of the tagged fields within. */
  lemma {:induction false} MembersSpaceSplits(s: Setting, encode: TagEncoder, fs: Fields,
      parent: Option<VersionRange>, ps: seq<Public>)
    requires AllSettled(s, encode, ps) && MembersTyped(s, fs, parent, ConvertedAll(encode, ps))
    ensures MembersSpace(s, encode, fs, parent, ps) ==
      MembersRoom(s, fs, parent, ConvertedAll(encode, ps)) + AllBeside(s, encode, ps)
    decreases ps
  {
    if fs.Field? {
      assert ConvertedAll(encode, ps)[1..] == ConvertedAll(encode, ps[1..]);
      FieldSpaceSplits(s, encode, fs.meta, parent, ps[0]);
      MembersSpaceSplits(s, encode, fs.next, parent, ps[1..]);
    }
  }

  /** What is written for a structure is its room, short of that of tagged fields, and its excess, byte for byte. */
  lemma StructSize(s: Setting, encode: TagEncoder, fs: Fields, parent: Option<VersionRange>, p: Public)
    requires Settled(s, encode, p) && Converted(encode, p).Struct?
    requires MembersTyped(s, fs, parent, Converted(encode, p).members)
    requires PutFrom(s, fs, parent, Converted(encode, p).members, Converted(encode, p).tags).Ok?
    ensures
      var v := Converted(encode, p);
      |PutFrom(s, fs, parent, v.members, v.tags).value| ==
      StructSpace(s, encode, fs, parent, p) +
      (MembersExcess(s, fs, parent, v.members) + TagsExcess(s, v.tags) - Beside(s, encode, p))
  {
    var v := Converted(encode, p);
    StructSpaceSplits(s, encode, fs, parent, p);
    MembersSize(s, fs, parent, v.members);
    TagsSize(s, v.tags);
  }

  /** A request fits the room made for it if and only if the room of its tagged fields holds its excess. */
  lemma RequestFitsIff(size: int, h: RequestHeader, s: Setting, m: MessageMeta, encode: TagEncoder, p: Public)
    requires FitsSigned(size, 4) && h.Typed() && Settled(s, encode, p) && Converted(encode, p).Struct?
    requires MembersTyped(s, m.fields, None, Converted(encode, p).members)
    requires PutRequest(size, h, s, m, Converted(encode, p)).Ok?
    ensures
      var v := Converted(encode, p);
      var written, room := |PutRequest(size, h, s, m, v).value|, RequestSpace(s, encode, m, h, p);
      && written == room + RequestExcess(s, m, h, v) - Beside(s, encode, p)
      && (written <= room <==> RequestExcess(s, m, h, v) <= Beside(s, encode, p))
  {
    StructSpaceSplits(s, encode, m.fields, None, p);
    RequestSize(size, h, s, m, Converted(encode, p));
  }

  lemma ResponseFitsIff(size: int, h: ResponseHeader, apiKey: Option<int>, s: Setting, m: MessageMeta,
      encode: TagEncoder, p: Public)
    requires FitsSigned(size, 4) && h.Typed() && Settled(s, encode, p) && Converted(encode, p).Struct?
    requires MembersTyped(s, m.fields, None, Converted(encode, p).members)
    requires PutResponse(size, h, apiKey, s, m, Converted(encode, p)).Ok?
    ensures
      var v := Converted(encode, p);
      var written, room := |PutResponse(size, h, apiKey, s, m, v).value|, ResponseSpace(s, encode, m, p);
      && written == room + ResponseExcess(s, m, apiKey, h, v) - Beside(s, encode, p)
      && (written <= room <==> ResponseExcess(s, m, apiKey, h, v) <= Beside(s, encode, p))
  {
    StructSpaceSplits(s, encode, m.fields, None, p);
    ResponseSize(size, h, apiKey, s, m, Converted(encode, p));
  }

  // ---- outside flexible versions nothing is in excess

  lemma {:induction false} ElemFits(s: Setting, f: FieldMeta, v: Value)
    requires !s.flexible && ElemTyped(s, f, v)
    ensures ElemExcess(s, f, v) <= 0
    decreases f, 0
  {
    if f.kind.elem.Structure? {
      MembersFit(s, f.fields, f.Inside(), v.members);
    } else if f.kind.elem.Records? {
      BatchesSize(v.batches);
    }
  }

  lemma {:induction false} ItemsFit(s: Setting, f: FieldMeta, items: seq<Value>)
    requires !s.flexible && ItemsTyped(s, f, items)
    ensures ItemsExcess(s, f, items) <= 0
    decreases f, 1, |items|
  {
    if items != [] {
      ElemFits(s, f, items[0]);
      ItemsFit(s, f, items[1..]);
    }
  }

  lemma {:induction false} InnerFits(s: Setting, f: FieldMeta, v: Value)
    requires !s.flexible && InnerTyped(s, f, v)
    ensures InnerExcess(s, f, v) <= 0
    decreases f, 2
  {
    if f.kind.Many? {
      ItemsFit(s, f, v.items);
    } else {
      ElemFits(s, f, v);
    }
  }

  lemma {:induction false} FieldFits(s: Setting, f: FieldMeta, parent: Option<VersionRange>, v: Value)
    requires !s.flexible && FieldTyped(s, f, parent, v)
    ensures FieldExcess(s, f, parent, v) <= 0
    decreases f, 3
  {
    if f.version.Within(s.version) {
      if !f.IsOptional(parent) {
        InnerFits(s, f, v);
      } else if v.Just? && !f.IsRecords() {
        InnerFits(s, f, v.value);
      }
    }
  }

  lemma {:induction false} MembersFit(s: Setting, fs: Fields, parent: Option<VersionRange>, members: seq<Value>)
    requires !s.flexible && MembersTyped(s, fs, parent, members)
    ensures MembersExcess(s, fs, parent, members) <= 0
    decreases fs
  {
    if fs.Field? {
      FieldFits(s, fs.meta, parent, members[0]);
      MembersFit(s, fs.next, parent, members[1..]);
    }
  }

  /** Outside flexible versions every request fits the room made for it. */
  lemma RequestFits(size: int, h: RequestHeader, s: Setting, m: MessageMeta, encode: TagEncoder, p: Public)
    requires FitsSigned(size, 4) && h.Typed() && Settled(s, encode, p) && Converted(encode, p).Struct?
    requires MembersTyped(s, m.fields, None, Converted(encode, p).members)
    requires !s.flexible && PutRequest(size, h, s, m, Converted(encode, p)).Ok?
    ensures |PutRequest(size, h, s, m, Converted(encode, p)).value| <= RequestSpace(s, encode, m, h, p)
  {
    RequestFitsIff(size, h, s, m, encode, p);
    MembersFit(s, m.fields, None, Converted(encode, p).members);
  }

  lemma ResponseFits(size: int, h: ResponseHeader, apiKey: Option<int>, s: Setting, m: MessageMeta,
      encode: TagEncoder, p: Public)
    requires FitsSigned(size, 4) && h.Typed() && Settled(s, encode, p) && Converted(encode, p).Struct?
    requires MembersTyped(s, m.fields, None, Converted(encode, p).members)
    requires !s.flexible && PutResponse(size, h, apiKey, s, m, Converted(encode, p)).Ok?
    ensures |PutResponse(size, h, apiKey, s, m, Converted(encode, p)).value| <= ResponseSpace(s, encode, m, p)
  {
    ResponseFitsIff(size, h, apiKey, s, m, encode, p);
    MembersFit(s, m.fields, None, Converted(encode, p).members);
  }

  /** Nor is there room to spare for numbers, texts, byte strings and sequences of them. */
  lemma RoomIsTight(s: Setting, f: FieldMeta, v: Value)
    requires !s.flexible && InnerTyped(s, f, v) && PutInner(s, f, v).Ok?
    requires f.kind.elem.Fixed? || f.kind.elem.Text? || f.kind.elem.Blob?
    ensures InnerRoom(s, f, v) == |PutInner(s, f, v).value|
  {
    InnerSize(s, f, v);
    if f.kind.Many? {
      ItemsAreTight(s, f, v.items);
    }
  }

  lemma {:induction false} ItemsAreTight(s: Setting, f: FieldMeta, items: seq<Value>)
    requires !s.flexible && ItemsTyped(s, f, items)
    requires f.kind.elem.Fixed? || f.kind.elem.Text? || f.kind.elem.Blob?
    ensures ItemsExcess(s, f, items) == 0
  {
    if items != [] {
      ItemsAreTight(s, f, items[1..]);
    }
  }

  // ---- in flexible versions some frames fit and some do not

  const EVERY := VersionRange(0, I16_MAX)

  /** A request with no fields is too long for its room, by its two empty tag buffers. */
  lemma FlexibleRequestOverflows(utf8: bytes -> bool, encode: TagEncoder, client: bytes, name: string)
    requires |client| < 0x8000
    ensures
      var s := Setting(0, true, utf8);
      var m := MessageMeta(name, EVERY, End);
      var h := RequestHeader(0, 0, 0, Some(client), Some([]));
      var p := Record([], []);
      && h.Typed() && FitsSigned(0, 4) && PutRequest(0, h, s, m, Converted(encode, p)).Ok?
      && RequestExcess(s, m, h, Converted(encode, p)) == 2
      && |PutRequest(0, h, s, m, Converted(encode, p)).value| == RequestSpace(s, encode, m, h, p) + 2
  {
    Widths();
    var s := Setting(0, true, utf8);
    RequestFitsIff(0, RequestHeader(0, 0, 0, Some(client), Some([])), s, MessageMeta(name, EVERY, End), encode,
      Record([], []));
  }

  /** With one empty sequence it fits: the length saves more than the two tag buffers take. */
  lemma FlexibleRequestFits(utf8: bytes -> bool, encode: TagEncoder, client: bytes, name: string, key: string,
      f: FieldMeta)
    requires f.kind == Many(Fixed(Int32)) && f.version == EVERY && f.fields == End && |client| < 0x8000
    ensures
      var s := Setting(0, true, utf8);
      var m := MessageMeta(name, EVERY, Field(key, f, End));
      var h := RequestHeader(0, 0, 0, Some(client), Some([]));
      var p := Record([Present(Several([]))], []);
      && Settled(s, encode, p) && MembersTyped(s, m.fields, None, Converted(encode, p).members)
      && h.Typed() && FitsSigned(0, 4) && PutRequest(0, h, s, m, Converted(encode, p)).Ok?
      && RequestExcess(s, m, h, Converted(encode, p)) == -1
      && |PutRequest(0, h, s, m, Converted(encode, p)).value| == RequestSpace(s, encode, m, h, p) - 1
  {
    Widths();
    var s := Setting(0, true, utf8);
    var m := MessageMeta(name, EVERY, Field(key, f, End));
    var h := RequestHeader(0, 0, 0, Some(client), Some([]));
    var p := Record([Present(Several([]))], []);
    var v := Converted(encode, p);
    assert v.members == [Just(List([]))];
    assert InnerTyped(s, f, List([]));
    assert FieldTyped(s, f, None, v.members[0]);
    assert MembersTyped(s, End, None, v.members[1..]);
    assert InnerExcess(s, f, List([])) == -3;
    assert FieldExcess(s, f, None, v.members[0]) == -3;
    assert MembersExcess(s, End, None, v.members[1..]) == 0;
    assert PutInner(s, f, List([])).Ok?;
    assert PutField(s, f, None, v.members[0]).Ok?;
    assert PutMembers(s, End, None, v.members[1..]).Ok?;
    RequestFitsIff(0, h, s, m, encode, p);
  }
}
