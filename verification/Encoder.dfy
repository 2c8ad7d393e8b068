/**
 The encoder: an object that appends to a buffer while generated code walks a value, and
 that finds the metadata of each field by name in a stack of lookups.
 */
module Encoder {
  import opened Wire
  import opened Schema
  import opened RecordBlob
  import opened Values
  import opened Encoding
  import opened Serde
  import opened Frames

  datatype Container = StructContainer(name: string) | VariantContainer(name: string, variant: string)

  /** What is written for a value, an absent value, or a whole sequence of the field. */
  ghost function PutAny(s: Setting, f: FieldMeta, v: Value): Result<bytes>
    requires AnyTyped(s, f, v)
  {
    match v
    case Null => Ok(PutNull(s, f))
    case Just(inner) => PutSome(s, f, inner)
    case List(_) => PutInner(s, f, v)
    case _ => PutElem(s, f, v)
  }

  lemma PutAnyIsField(s: Setting, f: FieldMeta, parent: Option<VersionRange>, v: Value)
    requires FieldTyped(s, f, parent, v) && AnyTyped(s, f, v) && f.version.Within(s.version)
    ensures PutField(s, f, parent, v) == PutAny(s, f, v)
  {
    if !f.IsOptional(parent) {
      InnerTypedIsAny(s, f, v);
    } else if v.Just? {
      InnerTypedIsAny(s, f, v.value);
    }
  }

  /** Written after what was there, or not written because it cannot be. */
  ghost predicate Appended(before: bytes, after: bytes, r: Result<()>, put: Result<bytes>)
  {
    (r.Ok? <==> put.Ok?) && (r.Ok? ==> after == before + put.value)
  }

  lemma AppendedJoins(before: bytes, middle: bytes, after: bytes, r1: Result<()>, r2: Result<()>, a: Result<bytes>,
      b: Result<bytes>)
    requires Appended(before, middle, r1, a) && (r1.Ok? ==> Appended(middle, after, r2, b))
    ensures Appended(before, after, if r1.Ok? then r2 else r1, Join(a, b))
  {
    if r1.Ok? && r2.Ok? {
      assert before + a.value + b.value == before + (a.value + b.value);
    }
  }

  /** The elements from one on: that element, and those after it. */
  lemma PutItemsSteps(s: Setting, f: FieldMeta, vs: seq<Value>, i: nat)
    requires ItemsTyped(s, f, vs) && i < |vs|
    ensures ItemsTyped(s, f, vs[i..]) && ItemsTyped(s, f, vs[i + 1..])
    ensures ElemTyped(s, f, vs[i]) && AnyTyped(s, f, vs[i]) && PutAny(s, f, vs[i]) == PutElem(s, f, vs[i])
    ensures ImageOf(s, f, vs[i]) == ElemImage(s, f, vs[i])
    ensures PutItems(s, f, vs[i..]) == Join(PutElem(s, f, vs[i]), PutItems(s, f, vs[i + 1..]))
  {
    assert vs[i..][0] == vs[i] && vs[i..][1..] == vs[i + 1..];
  }

  class Encoder {
    var working: bytes
    var containers: seq<Container>
    var field: Option<string>
    const kind: Option<Direction>
    var apiKey: Option<int>
    var apiVersion: Option<int>
    var message: Option<MessageMeta>
    var meta: Option<FieldMeta>
    var parse: seq<Fields>
    const requests: map<int, MessageMeta>

    constructor Request(requests: map<int, MessageMeta>)
      ensures this.requests == requests && kind == Some(Direction.Request)
      ensures working == [] && containers == [] && field == None && apiKey == None && apiVersion == None
      ensures message == None && meta == None && parse == []
    {
      this.requests := requests;
      kind := Some(Direction.Request);
      working, containers, field, apiKey, apiVersion := [], [], None, None, None;
      message, meta, parse := None, None, [];
    }

    constructor Response(responses: map<int, MessageMeta>, apiKey: int, apiVersion: int)
      ensures kind == Some(Direction.Response)
      ensures working == [] && containers == [] && field == None
      ensures this.apiKey == Some(apiKey) && this.apiVersion == Some(apiVersion)
      ensures message == (if apiKey in responses then Some(responses[apiKey]) else None) && meta == None
      ensures parse == if apiKey in responses then [responses[apiKey].fields] else []
    {
      requests := map[];
      kind := Some(Direction.Response);
      working, containers, field := [], [], None;
      this.apiKey, this.apiVersion := Some(apiKey), Some(apiVersion);
      meta := None;
      message := if apiKey in responses then Some(responses[apiKey]) else None;
      parse := if apiKey in responses then [responses[apiKey].fields] else [];
    }

    // ---- what the registers say

    /** The lookup on top of the stack first, then the fields of the message. */
    function FieldMetaOf(name: string): Option<FieldMeta>
      reads this
    {
      if parse != [] && parse[0].Find(name).Some? then parse[0].Find(name)
      else if message.Some? then message.value.fields.Find(name)
      else None
    }

    predicate InHeader()
      reads this
    {
      containers != [] && containers[0].VariantContainer? && containers[0].name == HEADER
    }

    predicate IsFlexible()
      reads this
    {
      IsFlexibleFor(field)
    }

    predicate IsFlexibleFor(name: Option<string>)
      reads this
    {
      if InHeader() && ((kind == Some(Direction.Request) && name == Some(CLIENT_ID)) ||
                        (kind == Some(Direction.Response) && apiKey == Some(API_VERSIONS)))
      then false
      else message.Some? && apiVersion.Some? && message.value.IsFlexible(apiVersion.value)
    }

    predicate IsNullable()
      reads this
    {
      apiVersion.Some? && meta.Some? && meta.value.IsNullable(apiVersion.value)
    }

    predicate IsValid()
      reads this
    {
      apiVersion.Some? && meta.Some? && meta.value.version.Within(apiVersion.value)
    }

    predicate IsSequence()
      reads this
    {
      meta.Some? && meta.value.IsSequence()
    }

    predicate IsStructure()
      reads this
    {
      meta.Some? && meta.value.IsStructure()
    }

    predicate IsString()
      reads this
    {
      (InHeader() && field == Some(CLIENT_ID)) || (meta.Some? && meta.value.IsString())
    }

    predicate IsRecords()
      reads this
    {
      meta.Some? && meta.value.IsRecords()
    }

    predicate IsRequestClientId()
      reads this
    {
      InHeader() && kind == Some(Direction.Request) && field == Some(CLIENT_ID)
    }

    /** The encoder is within the body of a message with these fields, in this setting. */
    ghost predicate InBody(s: Setting, root: Fields)
      reads this
    {
      && !InHeader()
      && apiVersion == Some(s.version)
      && message.Some? && message.value.fields == root
      && s.flexible == message.value.IsFlexible(s.version)
    }

    // ---- primitive writes

    method UnsignedVarint(n: nat)
      modifies this`working
      ensures working == old(working) + PutVarint(n)
    {
      var v := n;
      while v >= 128
        invariant working + PutVarint(v) == old(working) + PutVarint(n)
      {
        working := working + [v % 128 + 128];
        v := v / 128;
      }
      working := working + [v];
    }

    method SerializePrim(prim: Prim, v: Value)
      requires PrimTyped(prim, v)
      modifies this`working, this`apiKey, this`apiVersion, this`message, this`parse
      ensures working == old(working) + PutPrim(prim, v)
      ensures !InHeader() ==> unchanged(this`apiKey, this`apiVersion, this`message, this`parse)
      ensures InHeader() && !prim.Int16? ==> unchanged(this`apiKey, this`apiVersion, this`message, this`parse)
      ensures InHeader() && prim.Int16? && containers[0].variant == "Request" ==>
        if field == Some("api_key") then
          && apiKey == Some(v.n) && apiVersion == old(apiVersion)
          && message == (if v.n in requests then Some(requests[v.n]) else old(message))
          && parse == (if v.n in requests then [requests[v.n].fields] else []) + old(parse)
        else
          && unchanged(this`apiKey, this`message, this`parse)
          && apiVersion == if field == Some("api_version") then Some(v.n) else old(apiVersion)
    {
      if prim.Int16? && InHeader() && containers[0].variant == "Request" {
        if field == Some("api_key") {
          apiKey := Some(v.n);
          if v.n in requests {
            message := Some(requests[v.n]);
            parse := [requests[v.n].fields] + parse;
          }
        } else if field == Some("api_version") {
          apiVersion := Some(v.n);
        }
      }
      working := working + PutPrim(prim, v);
    }

    method PutWidth(n: int, width: nat) returns (r: Result<()>)
      requires width > 0
      modifies this`working
      ensures r.Ok? <==> FitsSigned(n, width)
      ensures r.Ok? ==> working == old(working) + PutSigned(n, width)
    {
      if FitsSigned(n, width) {
        working := working + PutSigned(n, width);
        return Ok(());
      }
      return Err(OutOfRange);
    }

    method PutCompactLength(n: nat) returns (r: Result<()>)
      modifies this`working
      ensures r.Ok? <==> PutCompact(n).Ok?
      ensures r.Ok? ==> working == old(working) + PutCompact(n).value
    {
      if n + 1 >= U32_LIMIT {
        return Err(OutOfRange);
      }
      UnsignedVarint(n + 1);
      return Ok(());
    }

    method SerializeStr(text: bytes) returns (r: Result<()>)
      modifies this`working
      ensures IsRequestClientId() ==>
        && (r.Ok? <==> FitsSigned(|text|, 2))
        && (r.Ok? ==> working == old(working) + PutSigned(|text|, 2) + text)
      ensures !IsRequestClientId() && IsValid() ==>
        var s := Setting(0, IsFlexible(), _ => true);
        && (r.Ok? <==> PutTextLength(s, |text|).Ok?)
        && (r.Ok? ==> working == old(working) + (PutTextLength(s, |text|).value + text))
    {
      Widths();
      if IsRequestClientId() {
        r := PutWidth(|text|, 2);
        if r.Ok? {
          working := working + text;
        }
        return;
      } else if IsValid() {
        if IsFlexible() {
          r := PutCompactLength(|text|);
        } else {
          r := PutWidth(|text|, 2);
        }
        if r.Ok? {
          assert working + text == old(working) + (working[|old(working)|..] + text);
          working := working + text;
        }
        return;
      }
      return Ok(());
    }

    method SerializeBytes(blob: bytes) returns (r: Result<()>)
      modifies this`working
      ensures !IsValid() ==> r.Ok? && working == old(working)
      ensures IsValid() ==>
        var s := Setting(0, IsFlexible(), _ => true);
        && (r.Ok? <==> PutBlobLength(s, |blob|).Ok?)
        && (r.Ok? ==> working == old(working) + (PutBlobLength(s, |blob|).value + blob))
    {
      if IsValid() {
        if IsFlexible() {
          r := PutCompactLength(|blob|);
          if r.Err? {
            return;
          }
        } else {
          if |blob| >= U32_LIMIT {
            return Err(OutOfRange);
          }
          working := working + PutUnsigned(|blob|, 4);
        }
        assert working + blob == old(working) + (working[|old(working)|..] + blob);
        working := working + blob;
      }
      return Ok(());
    }

    method SerializeNone() returns (r: Result<()>)
      modifies this`working
      ensures r.Ok?
      ensures IsRequestClientId() ==> FitsSigned(-1, 2) && working == old(working) + PutSigned(-1, 2)
      ensures !IsRequestClientId() && !IsValid() ==> working == old(working)
      ensures !InHeader() && IsValid() ==>
        working == old(working) + PutNull(Setting(apiVersion.value, IsFlexible(), _ => true), meta.value)
    {
      Widths();
      if IsRequestClientId() {
        r := PutWidth(-1, 2);
        return;
      } else if IsValid() && IsRecords() {
        if IsFlexible() {
          UnsignedVarint(1);
        } else {
          working := working + PutUnsigned(0, 4);
        }
      } else if IsValid() && IsNullable() {
        if IsStructure() && !IsSequence() {
          r := PutWidth(-1, 1);
        } else if IsFlexible() {
          UnsignedVarint(0);
        } else if IsSequence() {
          r := PutWidth(-1, 4);
        } else if IsString() {
          r := PutWidth(-1, 2);
        }
      }
      return Ok(());
    }

    method SerializeSeq(n: nat) returns (r: Result<()>)
      modifies this`working
      ensures !IsValid() ==> r.Ok? && working == old(working)
      ensures IsValid() ==>
        var s := Setting(0, IsFlexible(), _ => true);
        && (r.Ok? <==> PutListLength(s, n).Ok?)
        && (r.Ok? ==> working == old(working) + PutListLength(s, n).value)
    {
      Widths();
      if IsValid() {
        if IsFlexible() {
          r := PutCompactLength(n);
        } else {
          r := PutWidth(n, 4);
        }
        return;
      }
      return Ok(());
    }

    method SerializeTag(tag: Tag) returns (r: Result<()>)
      modifies this`working
      ensures Appended(old(working), working, r, PutTag(tag))
    {
      if |tag.data| >= U32_LIMIT {
        return Err(OutOfRange);
      }
      UnsignedVarint(tag.tag);
      UnsignedVarint(|tag.data|);
      working := working + tag.data;
      ghost var number, length := PutVarint(tag.tag), PutVarint(|tag.data|);
      Associate(old(working), number, length);
      Associate(old(working), number + length, tag.data);
      return Ok(());
    }

    method SerializeTags(tags: Tags) returns (r: Result<()>)
      modifies this`working
      ensures r.Ok? <==> |tags| < U32_LIMIT && PutTagList(tags).Ok?
      ensures r.Ok? ==> working == old(working) + (PutVarint(|tags|) + PutTagList(tags).value)
    {
      if |tags| >= U32_LIMIT {
        return Err(OutOfRange);
      }
      UnsignedVarint(|tags|);
      ghost var start := working;
      var i := 0;
      assert tags[0..] == tags;
      while i < |tags|
        invariant 0 <= i <= |tags|
        invariant Join(Ok(start), PutTagList(tags)) == Join(Ok(working), PutTagList(tags[i..]))
      {
        ghost var here := working;
        assert tags[i..][0] == tags[i] && tags[i..][1..] == tags[i + 1..];
        r := SerializeTag(tags[i]);
        if r.Err? {
          return;
        }
        JoinAssociates(Ok(here), PutTag(tags[i]), PutTagList(tags[i + 1..]));
        i := i + 1;
      }
      assert working + [] == working && tags[|tags|..] == [];
      Associate(old(working), PutVarint(|tags|), PutTagList(tags).value);
      return Ok(());
    }

    // ---- walking a value

    /** Enter a field: its metadata becomes current and its own lookup goes on the stack. */
    method BeginField(key: string) returns (proceed: bool)
      modifies this`field, this`meta, this`parse
      ensures field == Some(key)
      ensures meta == old(FieldMetaOf(key))
      ensures parse == [if meta.Some? then meta.value.fields else End] + old(parse)
      ensures proceed == (meta.None? || (apiVersion.Some? && meta.value.version.Within(apiVersion.value)))
    {
      field := Some(key);
      var fm := FieldMetaOf(key);
      meta := fm;
      if fm.Some? {
        parse := [fm.value.fields] + parse;
        proceed := IsValid();
      } else {
        parse := [End] + parse;
        proceed := true;
      }
    }

    method EndField()
      requires parse != []
      modifies this`meta, this`parse
      ensures parse == old(parse)[1..] && meta == None
    {
      parse := parse[1..];
      meta := None;
    }

    /** Enter a structure. Were a field named like it, its lookup would stay on the stack. */
    method BeginStruct(name: string)
      modifies this`containers, this`meta, this`parse
      ensures containers == [StructContainer(name)] + old(containers)
      ensures old(FieldMetaOf(name)).None? ==> unchanged(this`meta, this`parse)
      ensures old(FieldMetaOf(name)).Some? ==>
        meta == old(FieldMetaOf(name)) && parse == [meta.value.fields] + old(parse)
    {
      containers := [StructContainer(name)] + containers;
      var fm := FieldMetaOf(name);
      if fm.Some? {
        meta := fm;
        parse := [fm.value.fields] + parse;
      }
    }

    method SerializeSome(x: Image, ghost s: Setting, ghost root: Fields, ghost f: FieldMeta, ghost v: Value)
      returns (r: Result<()>)
      requires InBody(s, root) && parse != [] && parse[0] == f.fields && meta == Some(f)
      requires field != Some(TAG_BUFFER)
      requires f.version.Within(s.version) && f.Proper() && ClearField(root, f) && ClearFields(root, root)
      requires InnerTyped(s, f, v) && AnyTyped(s, f, v) && x == ImageOf(s, f, v)
      modifies this`working, this`containers, this`field, this`meta, this`parse, this`apiKey, this`apiVersion
      modifies this`message
      ensures InBody(s, root) && containers == old(containers) && parse == old(parse) && apiKey == old(apiKey)
      ensures message == old(message)
      ensures !f.kind.elem.Structure? && !f.kind.elem.Records? ==> meta == old(meta)
      ensures r.Ok? <==> PutSome(s, f, v).Ok?
      ensures r.Ok? ==> working == old(working) + PutSome(s, f, v).value
      decreases x, 2
    {
      if field == Some(TAG_BUFFER) && !IsFlexible() {
        return Ok(());
      } else if IsRecords() {
        assert ElemTyped(s, f, v);
        var records := PutBatches(x.batches);
        r := SerializeBytes(records);
      } else {
        InnerTypedIsAny(s, f, v);
        r := Serialize(x, s, root, f, v);
      }
    }

    /**
     Walk the image of a value of field f, or of one element of it. The metadata held is
     that of f; it may be gone between the structures of a sequence, whose members are
     found through the lookup left on the stack.
     */
    method Serialize(x: Image, ghost s: Setting, ghost root: Fields, ghost f: FieldMeta, ghost v: Value)
      returns (r: Result<()>)
      requires InBody(s, root) && parse != [] && parse[0] == f.fields
      requires meta == Some(f) || v.Struct?
      requires v.Just? ==> field != Some(TAG_BUFFER)
      requires f.version.Within(s.version) && f.Proper() && ClearField(root, f) && ClearFields(root, root)
      requires AnyTyped(s, f, v) && x == ImageOf(s, f, v)
      modifies this`working, this`containers, this`field, this`meta, this`parse, this`apiKey, this`apiVersion
      modifies this`message
      ensures InBody(s, root) && containers == old(containers) && parse == old(parse) && apiKey == old(apiKey)
      ensures message == old(message)
      ensures !f.kind.elem.Structure? && !f.kind.elem.Records? ==> meta == old(meta)
      ensures r.Ok? <==> PutAny(s, f, v).Ok?
      ensures r.Ok? ==> working == old(working) + PutAny(s, f, v).value
      decreases x, 1
    {
      match x
      case NoneImage =>
        r := SerializeNone();
      case SomeImage(some) =>
        InnerTypedIsAny(s, f, v.value);
        r := SerializeSome(some, s, root, f, v.value);
      case PrimImage(prim, value) =>
        SerializePrim(prim, value);
        r := Ok(());
      case TextImage(text) =>
        r := SerializeStr(text);
      case BlobImage(blob) =>
        r := SerializeBytes(blob);
      case SeqImage(items) =>
        r := SerializeList(items, s, root, f, v.items);
      case StructImage(name, members) =>
        r := SerializeStructure(name, members, s, root, f, v);
      case FramesImage(batches) =>
        SerializeFrame(batches, s, root);
        r := Ok(());
      case TagsImage(_) =>
        assert false;
        r := Err(Panics);
    }

    /**
     A record frame outside an option. Its members have no metadata, so neither the number
     of batches nor any record data is written.
     */
    method SerializeFrame(batches: seq<Batch>, ghost s: Setting, ghost root: Fields)
      requires InBody(s, root) && parse != [] && parse[0] == End && AllTyped(batches)
      requires forall name :: name in BATCH_NAMES ==> root.Find(name).None?
      modifies this`working, this`containers, this`field, this`meta, this`parse
      ensures InBody(s, root) && containers == old(containers) && parse == old(parse)
      ensures working == old(working) + PutBare(batches)
    {
      BeginStruct("Frame");
      var proceed := BeginField("batches");
      var none := SerializeSeq(|batches|);
      SerializeBatches(batches, s, root);
      EndField();
      containers := containers[1..];
    }

    method SerializeBatches(batches: seq<Batch>, ghost s: Setting, ghost root: Fields)
      requires InBody(s, root) && parse != [] && parse[0] == End && AllTyped(batches)
      requires forall name :: name in BATCH_NAMES ==> root.Find(name).None?
      modifies this`working, this`containers, this`field, this`meta, this`parse
      ensures InBody(s, root) && containers == old(containers) && parse == old(parse)
      ensures working == old(working) + PutBare(batches)
    {
      var i := 0;
      assert batches[0..] == batches;
      while i < |batches|
        invariant 0 <= i <= |batches| && parse == old(parse) && InBody(s, root) && containers == old(containers)
        invariant old(working) + PutBare(batches) == working + PutBare(batches[i..])
      {
        assert batches[i..][0] == batches[i] && batches[i..][1..] == batches[i + 1..];
        Associate(working, PutFixed(batches[i]), PutBare(batches[i + 1..]));
        SerializeBatch(batches[i], s, root);
        i := i + 1;
      }
      assert working + [] == working;
    }

    /** The members of fixed width are written as numbers; bytes are not written without metadata. */
    method SerializeBatch(batch: Batch, ghost s: Setting, ghost root: Fields)
      requires InBody(s, root) && parse != [] && parse[0] == End && batch.Typed()
      requires forall name :: name in BATCH_NAMES ==> root.Find(name).None?
      modifies this`working, this`containers, this`field, this`meta, this`parse
      ensures InBody(s, root) && containers == old(containers) && parse == old(parse)
      ensures working == old(working) + PutFixed(batch)
    {
      BeginStruct("Batch");
      working := working + PutFixed(batch);
      var proceed := BeginField("record_data");
      var none := SerializeBytes(batch.payload[FIXED_BATCH_LENGTH..]);
      EndField();
      containers := containers[1..];
    }

    /** A sequence: its length, and its elements. */
    method SerializeList(items: seq<Image>, ghost s: Setting, ghost root: Fields, ghost f: FieldMeta,
        ghost vs: seq<Value>)
      returns (r: Result<()>)
      requires InBody(s, root) && parse != [] && parse[0] == f.fields && meta == Some(f) && f.kind.Many?
      requires f.version.Within(s.version) && f.Proper() && ClearField(root, f) && ClearFields(root, root)
      requires ItemsTyped(s, f, vs) && |items| == |vs|
      requires forall i {:trigger items[i]} :: 0 <= i < |items| ==> items[i] == ElemImage(s, f, vs[i])
      modifies this`working, this`containers, this`field, this`meta, this`parse, this`apiKey, this`apiVersion
      modifies this`message
      ensures InBody(s, root) && containers == old(containers) && parse == old(parse) && apiKey == old(apiKey)
      ensures message == old(message)
      ensures !f.kind.elem.Structure? ==> meta == old(meta)
      ensures Appended(old(working), working, r, Join(PutListLength(s, |vs|), PutItems(s, f, vs)))
      decreases items, 1
    {
      var first := SerializeSeq(|items|);
      ghost var middle := working;
      r := first;
      if first.Ok? {
        r := SerializeItems(items, s, root, f, vs);
      }
      AppendedJoins(old(working), middle, working, first, r, PutListLength(s, |vs|), PutItems(s, f, vs));
    }

    /** A structure: its members are found through the lookup on the stack. */
    method SerializeStructure(name: string, members: MemberImages, ghost s: Setting, ghost root: Fields,
        ghost f: FieldMeta, ghost v: Value)
      returns (r: Result<()>)
      requires InBody(s, root) && parse != [] && parse[0] == f.fields
      requires f.version.Within(s.version) && f.Proper() && ClearField(root, f) && ClearFields(root, root)
      requires f.kind.elem == Structure(name) && ElemTyped(s, f, v)
      requires members == MembersImage(s, f.fields, f.Inside(), v.members, v.tags)
      modifies this`working, this`containers, this`field, this`meta, this`parse, this`apiKey, this`apiVersion
      modifies this`message
      ensures InBody(s, root) && containers == old(containers) && parse == old(parse) && apiKey == old(apiKey)
      ensures message == old(message)
      ensures Appended(old(working), working, r, PutElem(s, f, v))
      decreases members, 2
    {
      BeginStruct(name);
      r := SerializeMembers(members, s, root, f.fields, f.fields, f.Inside(), v.members, v.tags);
      containers := containers[1..];
    }

    method SerializeItems(items: seq<Image>, ghost s: Setting, ghost root: Fields, ghost f: FieldMeta,
        ghost vs: seq<Value>)
      returns (r: Result<()>)
      requires InBody(s, root) && parse != [] && parse[0] == f.fields && meta == Some(f) && f.kind.Many?
      requires f.version.Within(s.version) && f.Proper() && ClearField(root, f) && ClearFields(root, root)
      requires ItemsTyped(s, f, vs) && |items| == |vs|
      requires forall i {:trigger items[i]} :: 0 <= i < |items| ==> items[i] == ElemImage(s, f, vs[i])
      modifies this`working, this`containers, this`field, this`meta, this`parse, this`apiKey, this`apiVersion
      modifies this`message
      ensures InBody(s, root) && containers == old(containers) && parse == old(parse) && apiKey == old(apiKey)
      ensures message == old(message)
      ensures !f.kind.elem.Structure? ==> meta == old(meta)
      ensures r.Ok? <==> PutItems(s, f, vs).Ok?
      ensures r.Ok? ==> working == old(working) + PutItems(s, f, vs).value
      decreases items, 0
    {
      var i := 0;
      assert vs[0..] == vs;
      while i < |items|
        invariant 0 <= i <= |items|
        invariant InBody(s, root) && containers == old(containers) && parse == old(parse) && apiKey == old(apiKey)
        invariant message == old(message)
        invariant meta == Some(f) || f.kind.elem.Structure?
        invariant Join(Ok(old(working)), PutItems(s, f, vs)) == Join(Ok(working), PutItems(s, f, vs[i..]))
      {
        ghost var here := working;
        PutItemsSteps(s, f, vs, i);
        r := Serialize(items[i], s, root, f, vs[i]);
        if r.Err? {
          return;
        }
        JoinAssociates(Ok(here), PutElem(s, f, vs[i]), PutItems(s, f, vs[i + 1..]));
        i := i + 1;
      }
      r := Ok(());
    }

    method SerializeMembers(
      members: MemberImages, ghost s: Setting, ghost root: Fields, ghost all: Fields,
      ghost fs: Fields, ghost parent: Option<VersionRange>, ghost vs: seq<Value>, ghost tags: Option<Tags>)
      returns (r: Result<()>)
      requires InBody(s, root)
      requires forall name: string ::
        FieldMetaOf(name) == (if all.Find(name).Some? then all.Find(name) else root.Find(name))
      requires Resolves(all, fs) && EachClear(root, fs) && ClearFields(root, root) && fs.Proper()
      requires all.Find(TAG_BUFFER).None?
      requires MembersTyped(s, fs, parent, vs) && members == MembersImage(s, fs, parent, vs, tags)
      modifies this`working, this`containers, this`field, this`meta, this`parse, this`apiKey, this`apiVersion
      modifies this`message
      ensures InBody(s, root) && containers == old(containers) && parse == old(parse) && apiKey == old(apiKey)
      ensures message == old(message)
      ensures Appended(old(working), working, r, PutFrom(s, fs, parent, vs, tags))
      decreases members, 1
    {
      if members.next.NoMembers? {
        r := SerializeTagMember(members.key, members.image, tags);
        assert PutMembers(s, fs, parent, vs) == Ok([]);
        JoinAssociates(PutTags(s, tags), Ok([]), Ok([]));
      } else {
        PutFromSteps(s, fs, parent, vs, tags);
        FieldTypedIsAny(s, fs.meta, parent, vs[0]);
        var first := SerializeField(members.key, members.image, s, root, fs.meta, parent, vs[0]);
        ghost var middle := working;
        r := first;
        if first.Ok? {
          r := SerializeMembers(members.next, s, root, all, fs.next, parent, vs[1..], tags);
        }
        AppendedJoins(old(working), middle, working, first, r,
          PutField(s, fs.meta, parent, vs[0]), PutFrom(s, fs.next, parent, vs[1..], tags));
      }
    }

    /** One named member: enter it, write it if this version has it, and leave it. */
    method SerializeField(
      key: string, x: Image, ghost s: Setting, ghost root: Fields, ghost f: FieldMeta,
      ghost parent: Option<VersionRange>, ghost v: Value) returns (r: Result<()>)
      requires InBody(s, root) && FieldMetaOf(key) == Some(f) && key != TAG_BUFFER
      requires f.Proper() && ClearField(root, f) && ClearFields(root, root)
      requires FieldTyped(s, f, parent, v) && AnyTyped(s, f, v) && x == ImageOf(s, f, v)
      modifies this`working, this`containers, this`field, this`meta, this`parse, this`apiKey, this`apiVersion
      modifies this`message
      ensures InBody(s, root) && containers == old(containers) && parse == old(parse) && apiKey == old(apiKey)
      ensures message == old(message)
      ensures Appended(old(working), working, r, PutField(s, f, parent, v))
      decreases x, 3
    {
      r := Ok(());
      var proceed := BeginField(key);
      if proceed {
        PutAnyIsField(s, f, parent, v);
        r := Serialize(x, s, root, f, v);
      }
      EndField();
    }

    /** The tag buffer: no metadata has its name, and only flexible messages write it. */
    method SerializeTagMember(key: string, x: Image, ghost tags: Option<Tags>) returns (r: Result<()>)
      requires FieldMetaOf(key).None? && key == TAG_BUFFER && x == TagBufferImage(tags)
      modifies this`working, this`field, this`meta, this`parse
      ensures parse == old(parse) && field == Some(key) && meta == None
      ensures Appended(old(working), working, r, PutTags(Setting(0, IsFlexible(), _ => true), tags))
    {
      r := Ok(());
      var proceed := BeginField(key);
      if x.NoneImage? {
        r := SerializeNone();
      } else if IsFlexible() {
        r := SerializeTags(x.some.buffer);
      }
      EndField();
    }

    // ---- walking a frame

    /** A member of the frame or of the header whose name no message field has. */
    method SerializePlain(key: string, prim: Prim, v: Value)
      requires FieldMetaOf(key).None? && PrimTyped(prim, v)
      requires prim.Int16? ==> InHeader() && containers[0].variant == "Request"
      modifies this`working, this`field, this`meta, this`parse, this`apiKey, this`apiVersion, this`message
      ensures working == old(working) + PutPrim(prim, v) && field == Some(key) && meta == None
      ensures prim.Int16? && key == "api_key" ==>
        && apiKey == Some(v.n) && apiVersion == old(apiVersion)
        && message == (if v.n in requests then Some(requests[v.n]) else old(message))
        && parse == (if v.n in requests then [End] else []) + old(parse)
      ensures prim.Int16? && key == "api_version" ==>
        unchanged(this`apiKey, this`message, this`parse) && apiVersion == Some(v.n)
      ensures !prim.Int16? ==> unchanged(this`apiKey, this`apiVersion, this`message, this`parse)
    {
      var proceed := BeginField(key);
      SerializePrim(prim, v);
      EndField();
    }

    method SerializeClientId(clientId: Option<bytes>) returns (r: Result<()>)
      requires FieldMetaOf(CLIENT_ID).None? && InHeader() && kind == Some(Direction.Request)
      modifies this`working, this`field, this`meta, this`parse
      ensures parse == old(parse)
      ensures Appended(old(working), working, r, PutClientId(clientId))
    {
      Widths();
      var proceed := BeginField(CLIENT_ID);
      if clientId.None? {
        r := SerializeNone();
      } else {
        r := SerializeStr(clientId.value);
        if r.Ok? {
          assert old(working) + PutSigned(|clientId.value|, 2) + clientId.value ==
            old(working) + (PutSigned(|clientId.value|, 2) + clientId.value);
        }
      }
      EndField();
    }

    /** The numbers of a request header: the first makes the message known, and leaves a stale lookup. */
    method SerializeHeaderNumbers(h: RequestHeader, ghost m: MessageMeta)
      requires h.Typed() && message.None? && parse == [End] && InHeader() && containers[0].variant == "Request"
      requires h.apiKey in requests && requests[h.apiKey] == m && ClearOfFrame(m.fields)
      modifies this`working, this`field, this`meta, this`parse, this`apiKey, this`apiVersion, this`message
      ensures parse == [End, End] && message == Some(m) && apiKey == Some(h.apiKey) && apiVersion == Some(h.apiVersion)
      ensures working == old(working) + PutHeaderNumbers(h)
    {
      SerializePlain("api_key", Int16, Num(h.apiKey));
      SerializePlain("api_version", Int16, Num(h.apiVersion));
      SerializePlain("correlation_id", Int32, Num(h.correlationId));
      ghost var key, version := PutSigned(h.apiKey, 2), PutSigned(h.apiVersion, 2);
      Associate(old(working), key, version);
      Associate(old(working), key + version, PutSigned(h.correlationId, 4));
    }

    /** The header of a request. It tells the encoder which message follows, in which version. */
    method SerializeRequestHeader(h: RequestHeader, ghost m: MessageMeta) returns (r: Result<()>)
      requires h.Typed() && kind == Some(Direction.Request) && message.None? && parse == [End]
      requires h.apiKey in requests && requests[h.apiKey] == m && ClearOfFrame(m.fields)
      modifies this
      ensures containers == old(containers) && parse == [End, End]
      ensures message == Some(m) && apiKey == Some(h.apiKey) && apiVersion == Some(h.apiVersion)
      ensures Appended(old(working), working, r, PutRequestHeader(h, m.IsFlexible(h.apiVersion)))
    {
      containers := [VariantContainer(HEADER, "Request")] + containers;
      SerializeHeaderNumbers(h, m);
      ghost var fixed := working;
      r := SerializeClientId(h.clientId);
      ghost var client, r1 := working, r;
      if r.Ok? {
        r := SerializeTagMember(TAG_BUFFER, TagBufferImage(h.tags), h.tags);
      }
      containers := containers[1..];
      ghost var s := Setting(0, m.IsFlexible(h.apiVersion), _ => true);
      AppendedJoins(fixed, client, working, r1, r, PutClientId(h.clientId), PutTags(s, h.tags));
      AppendedJoins(old(working), fixed, working, Ok(()), r, Ok(PutHeaderNumbers(h)),
        Join(PutClientId(h.clientId), PutTags(s, h.tags)));
    }

    method SerializeResponseHeader(h: ResponseHeader, ghost s: Setting, ghost m: MessageMeta) returns (r: Result<()>)
      requires h.Typed() && kind == Some(Direction.Response) && message == Some(m) && apiVersion == Some(s.version)
      requires parse != [] && parse[0] == End && ClearOfFrame(m.fields)
      modifies this
      ensures containers == old(containers) && parse == old(parse)
      ensures message == Some(m) && apiKey == old(apiKey) && apiVersion == old(apiVersion)
      ensures Appended(old(working), working, r,
        PutResponseHeader(h, apiKey != Some(API_VERSIONS) && m.IsFlexible(s.version)))
    {
      containers := [VariantContainer(HEADER, "Response")] + containers;
      SerializePlain("correlation_id", Int32, Num(h.correlationId));
      ghost var fixed := working;
      r := SerializeTagMember(TAG_BUFFER, TagBufferImage(h.tags), h.tags);
      containers := containers[1..];
      ghost var flexible := apiKey != Some(API_VERSIONS) && m.IsFlexible(s.version);
      AppendedJoins(old(working), fixed, working, Ok(()), r, Ok(PutPrim(Int32, Num(h.correlationId))),
        PutTags(Setting(0, flexible, _ => true), h.tags));
    }

    /** The body of a frame, once the message and its version are known. */
    method SerializeBody(body: Image, ghost s: Setting, ghost m: MessageMeta, ghost v: Value) returns (r: Result<()>)
      requires message == Some(m) && apiVersion == Some(s.version) && s.flexible == m.IsFlexible(s.version)
      requires FieldMetaOf("body").None? && ClearMessage(m) && m.fields.Proper()
      requires v.Struct? && MembersTyped(s, m.fields, None, v.members)
      requires body == StructImage(m.name, MembersImage(s, m.fields, None, v.members, v.tags))
      modifies this
      ensures apiKey == old(apiKey)
      ensures Appended(old(working), working, r, PutFrom(s, m.fields, None, v.members, v.tags))
    {
      var proceed := BeginField("body");
      BeginStruct(body.name);
      r := SerializeMembers(body.members, s, m.fields, m.fields, m.fields, None, v.members, v.tags);
      containers := containers[1..];
      EndField();
    }

    /** A whole request frame, from the state of a new request encoder. */
    method SerializeRequest(size: int, h: RequestHeader, body: Image, ghost s: Setting, ghost m: MessageMeta,
        ghost v: Value)
      returns (r: Result<()>)
      requires FitsSigned(size, 4) && h.Typed()
      requires kind == Some(Direction.Request) && containers == [] && message.None? && parse == [] && working == []
      requires h.apiKey in requests && requests[h.apiKey] == m && s.version == h.apiVersion
      requires s.flexible == m.IsFlexible(s.version)
      requires ClearMessage(m) && m.fields.Proper()
      requires v.Struct? && MembersTyped(s, m.fields, None, v.members)
      requires body == StructImage(m.name, MembersImage(s, m.fields, None, v.members, v.tags))
      modifies this
      ensures Appended([], working, r, PutRequest(size, h, s, m, v))
    {
      BeginStruct("Frame");
      SerializePlain("size", Int32, Num(size));
      var proceed := BeginField("header");
      ghost var sized := working;
      r := SerializeRequestHeader(h, m);
      ghost var header, r1 := working, r;
      EndField();
      if r.Ok? {
        r := SerializeBody(body, s, m, v);
      }
      AppendedJoins(sized, header, working, r1, r, PutRequestHeader(h, s.flexible),
        PutFrom(s, m.fields, None, v.members, v.tags));
      AppendedJoins([], sized, working, Ok(()), r, Ok(PutSigned(size, 4)),
        Join(PutRequestHeader(h, s.flexible), PutFrom(s, m.fields, None, v.members, v.tags)));
    }

    /** A whole response frame, from the state of a new response encoder. */
    method SerializeResponse(size: int, h: ResponseHeader, body: Image, ghost s: Setting, ghost m: MessageMeta,
        ghost v: Value)
      returns (r: Result<()>)
      requires FitsSigned(size, 4) && h.Typed()
      requires kind == Some(Direction.Response) && containers == [] && message == Some(m) && parse == [m.fields]
      requires working == []
      requires apiVersion == Some(s.version) && s.flexible == m.IsFlexible(s.version)
      requires ClearMessage(m) && m.fields.Proper()
      requires v.Struct? && MembersTyped(s, m.fields, None, v.members)
      requires body == StructImage(m.name, MembersImage(s, m.fields, None, v.members, v.tags))
      modifies this
      ensures apiKey == old(apiKey)
      ensures Appended([], working, r, PutResponse(size, h, apiKey, s, m, v))
    {
      BeginStruct("Frame");
      SerializePlain("size", Int32, Num(size));
      var proceed := BeginField("header");
      ghost var sized := working;
      r := SerializeResponseHeader(h, s, m);
      ghost var header, r1 := working, r;
      EndField();
      ghost var flexible := apiKey != Some(API_VERSIONS) && s.flexible;
      if r.Ok? {
        r := SerializeBody(body, s, m, v);
      }
      AppendedJoins(sized, header, working, r1, r, PutResponseHeader(h, flexible),
        PutFrom(s, m.fields, None, v.members, v.tags));
      AppendedJoins([], sized, working, Ok(()), r, Ok(PutSigned(size, 4)),
        Join(PutResponseHeader(h, flexible), PutFrom(s, m.fields, None, v.members, v.tags)));
    }
  }
}
