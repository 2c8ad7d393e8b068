/**
 The decoder: an object that consumes its input while generated code asks for shapes. It
 finds the metadata of each field by name, through a stack of lookups and the table of
 structures, and carries lengths from an option to the value inside it.
 */
module Decoder {
  import opened Wire
  import opened Schema
  import opened RecordBlob
  import opened Values
  import opened Serde
  import opened Decoding
  import opened Tables
  import opened Frames

  datatype Enclosing = InStruct(name: string) | InEnum(name: string)

  /** Read what the specification reads, or fail as it fails. */
  ghost predicate Reads<T>(r: Result<T>, after: bytes, p: Parsed<T>)
  {
    if p.Parsed? then r == Ok(p.value) && after == p.rest else r == Err(p.error)
  }

  ghost function GetFrames(b: bytes, length: Option<nat>): Parsed<Value>
  {
    if length.None? then Failed(WithoutLength)
    else
      var taken := TakeSized(b, length.value);
      if taken.Failed? then Failed(taken.error)
      else
        var batches := SplitBatches(taken.value);
        if batches.Err? then Failed(batches.error) else Parsed(Frames(batches.value), taken.rest)
  }

  /** Whether an optional value is there and, if that is told by a length, the length. */
  ghost function Presence(s: Setting, f: FieldMeta, place: Place, b: bytes): Parsed<Option<Option<nat>>>
  {
    if place.Blind? then Parsed(Some(None), b)
    else if !f.version.Within(s.version) then Parsed(None, b)
    else if f.IsRecords() then
      var n := if s.flexible then GetCompact(b) else GetUnsignedLength(b);
      if n.Failed? then Failed(n.error)
      else Parsed(if n.value == 0 then None else Some(Some(n.value)), n.rest)
    else if f.IsSequence() || f.IsString() then
      var n := if s.flexible then GetNullableCompact(b) else GetNullableSigned(b, if f.IsSequence() then 4 else 2);
      if n.Failed? then Failed(n.error)
      else Parsed(if n.value.None? then None else Some(n.value), n.rest)
    else if f.IsNullable(s.version) && f.IsStructure() then
      var taken := Take(b, 1);
      if taken.Failed? then Failed(taken.error)
      else Parsed(if taken.value[0] >= 128 then None else Some(None), taken.rest)
    else Parsed(Some(None), b)
  }

  lemma PresenceThenValue(s: Setting, f: FieldMeta, place: Place, b: bytes)
    requires f.Proper()
    ensures GetOption(s, f, place, b) ==
      var there := Presence(s, f, place, b);
      if there.Failed? then Failed(there.error)
      else if there.value.None? then Parsed(Null, there.rest)
      else AsJust(Expected(s, f, place, InnerShape(f), there.value.value, there.rest))
  {
    if !place.Blind? && f.IsSequence() {
      assert InnerShape(f) == VecShape(ElemShape(f));
    } else {
      assert InnerShape(f).VecShape? <==> f.kind.Many?;
    }
  }

  lemma FieldShapeFits(f: FieldMeta, parent: Option<VersionRange>)
    ensures ShapeFits(FieldShape(f, parent), f)
    ensures FieldShape(f, parent).OptionShape? <==> f.IsOptional(parent)
    ensures FieldShape(f, parent).VecShape? ==> false
  {
    assert FieldShape(f, parent) == if f.IsOptional(parent) then OptionShape(InnerShape(f)) else InnerShape(f);
    assert f.kind.One? ==> InnerShape(f) == ElemShape(f);
  }

  /** What the specification reads for a shape of field f, once a length is carried or not. */
  ghost function Expected(s: Setting, f: FieldMeta, place: Place, shape: Shape, length: Option<nat>,
      b: bytes): Parsed<Value>
  {
    match shape
    case OptionShape(_) => GetOption(s, f, place, b)
    case TextShape => if length.Some? then GetTextOfLength(s, b, length.value) else GetText(s, f, place, b)
    case VecShape(_) =>
      if length.None? then Failed(WithoutLength)
      else
        var items := GetItems(s, f, place, b, length.value);
        if items.Failed? then Failed(items.error) else Parsed(List(items.value), items.rest)
    case FramesShape => GetFrames(b, length)
    case _ => GetElem(s, f, place, b)
  }

  predicate ShapeFits(shape: Shape, f: FieldMeta)
  {
    match shape
    case OptionShape(inner) => inner == InnerShape(f)
    case VecShape(item) => f.kind.Many? && item == ElemShape(f)
    case _ => shape == ElemShape(f)
  }

  lemma ExpectedIsField(s: Setting, f: FieldMeta, parent: Option<VersionRange>, place: Place, b: bytes)
    ensures Expected(s, f, place, FieldShape(f, parent), None, b) == GetField(s, f, parent, place, b)
  {
    FieldShapeFits(f, parent);
    assert f.kind.One? ==> InnerShape(f) == ElemShape(f);
  }

  ghost function GetFrom(s: Setting, fs: Fields, parent: Option<VersionRange>, place: Place,
      b: bytes): Parsed<(seq<Value>, Option<Tags>)>
  {
    var members := GetMembers(s, fs, parent, place, b);
    if members.Failed? then Failed(members.error)
    else
      var tags := GetTags(s, members.rest);
      if tags.Failed? then Failed(tags.error) else Parsed((members.value, tags.value), tags.rest)
  }

  ghost function Prefixed(items: seq<Value>, p: Parsed<seq<Value>>): Parsed<seq<Value>>
  {
    if p.Failed? then p else Parsed(items + p.value, p.rest)
  }

  lemma PrefixedByNone(p: Parsed<seq<Value>>)
    ensures Prefixed([], p) == p
  {
    if p.Parsed? {
      assert [] + p.value == p.value;
    }
  }

  /** Reading one more item moves it from what is to come to what is there. */
  lemma PrefixedSteps(s: Setting, f: FieldMeta, place: Place, items: seq<Value>, b: bytes, n: nat)
    requires n > 0
    ensures Prefixed(items, GetItems(s, f, place, b, n)) ==
      var first := GetElem(s, f, place, b);
      if first.Failed? then Failed(first.error)
      else Prefixed(items + [first.value], GetItems(s, f, place, first.rest, n - 1))
  {
    var first := GetElem(s, f, place, b);
    if first.Parsed? {
      var others := GetItems(s, f, place, first.rest, n - 1);
      if others.Parsed? {
        assert items + ([first.value] + others.value) == items + [first.value] + others.value;
      }
    }
  }

  lemma ExpectedItem(s: Setting, f: FieldMeta, place: Place, b: bytes)
    requires f.Proper() && f.kind.Many?
    ensures ShapeFits(ElemShape(f), f) && !ElemShape(f).OptionShape? && !ElemShape(f).VecShape?
    ensures !ElemShape(f).FramesShape?
    ensures ElemShape(f).StructShape? <==> f.kind.elem.Structure?
    ensures Expected(s, f, place, ElemShape(f), None, b) == GetElem(s, f, place, b)
  {}

  /** A message whose fields and structures the decoder finds by their names. */
  ghost predicate Sound(m: MessageMeta)
  {
    ClearMessage(m) && Findable(m) && m.fields.Proper()
  }

  ghost predicate AllSound(messages: map<int, MessageMeta>)
  {
    forall k :: k in messages ==> Sound(messages[k])
  }

  lemma SoundIsClear(messages: map<int, MessageMeta>, key: int)
    requires AllSound(messages) && key in messages
    ensures ClearOfFrame(messages[key].fields)
  {
    assert Sound(messages[key]);
  }

  lemma HeaderByNumbers(requests: map<int, MessageMeta>, utf8: bytes -> bool, b: bytes)
    ensures
      var numbers := GetHeaderNumbers(b);
      if numbers.Failed? then GetRequestHeader(requests, utf8, b) == Failed(numbers.error)
      else
        var (key, version, correlation) := numbers.value;
        var tail := GetHeaderTail(FlexibleRequest(requests, key, version), utf8, numbers.rest);
        GetRequestHeader(requests, utf8, b) ==
        if tail.Failed? then Failed(tail.error)
        else Parsed(RequestHeader(key, version, correlation, tail.value.0, tail.value.1), tail.rest)
  {
  }

  class Decoder {
    var input: bytes
    var containers: seq<Enclosing>
    var field: Option<string>
    const kind: Option<Direction>
    var apiKey: Option<int>
    var apiVersion: Option<int>
    var message: Option<MessageMeta>
    var structures: Table
    var meta: Option<FieldMeta>
    var parse: seq<Fields>
    var length: Option<nat>
    var inSeqOfPrimitive: bool
    var inRecords: bool
    const requests: map<int, MessageMeta>
    const utf8: bytes -> bool

    constructor Request(input: bytes, requests: map<int, MessageMeta>, utf8: bytes -> bool)
      ensures this.requests == requests && this.utf8 == utf8 && kind == Some(Direction.Request)
      ensures this.input == input && containers == [] && field == None && apiKey == None && apiVersion == None
      ensures message == None && structures == [] && meta == None && parse == []
      ensures length == None && !inSeqOfPrimitive && !inRecords
    {
      this.requests, this.utf8 := requests, utf8;
      kind := Some(Direction.Request);
      this.input, containers, field, apiKey, apiVersion := input, [], None, None, None;
      message, structures, meta, parse := None, [], None, [];
      length, inSeqOfPrimitive, inRecords := None, false, false;
    }

    constructor Response(input: bytes, responses: map<int, MessageMeta>, apiKey: int, apiVersion: int,
        utf8: bytes -> bool)
      ensures this.utf8 == utf8 && kind == Some(Direction.Response)
      ensures this.input == input && containers == [] && field == None
      ensures this.apiKey == Some(apiKey) && this.apiVersion == Some(apiVersion) && meta == None
      ensures message == if apiKey in responses then Some(responses[apiKey]) else None
      ensures structures == if apiKey in responses then StructuresOf(responses[apiKey].fields) else []
      ensures parse == if apiKey in responses then [responses[apiKey].fields] else []
      ensures length == None && !inSeqOfPrimitive && !inRecords
    {
      this.requests, this.utf8 := map[], utf8;
      kind := Some(Direction.Response);
      this.input, containers, field := input, [], None;
      this.apiKey, this.apiVersion := Some(apiKey), Some(apiVersion);
      message := if apiKey in responses then Some(responses[apiKey]) else None;
      structures := if apiKey in responses then StructuresOf(responses[apiKey].fields) else [];
      meta := None;
      parse := if apiKey in responses then [responses[apiKey].fields] else [];
      length, inSeqOfPrimitive, inRecords := None, false, false;
    }

    // ---- what the registers say

    predicate InHeader()
      reads this
    {
      containers != [] && containers[0].name == HEADER
    }

    predicate IsFlexible()
      reads this
    {
      if InHeader() && ((kind == Some(Direction.Request) && field == Some(CLIENT_ID)) ||
                        (kind == Some(Direction.Response) && apiKey == Some(API_VERSIONS)))
      then false
      else message.Some? && apiVersion.Some? && message.value.IsFlexible(apiVersion.value)
    }

    /** Unlike the encoder, the decoder takes a field without metadata for a valid one. */
    predicate IsValid()
      reads this
    {
      apiVersion.Some? && meta.Some? ==> meta.value.version.Within(apiVersion.value)
    }

    predicate IsNullable()
      reads this
    {
      apiVersion.Some? && meta.Some? && meta.value.IsNullable(apiVersion.value)
    }

    predicate IsSequence()
      reads this
    {
      meta.Some? && meta.value.IsSequence()
    }

    predicate IsStructure()
      reads this
    {
      meta.Some? && meta.value.IsStructure()
    }

    predicate IsRecords()
      reads this
    {
      meta.Some? && meta.value.IsRecords()
    }

    predicate IsString()
      reads this
    {
      (InHeader() && field == Some(CLIENT_ID)) || (meta.Some? && meta.value.IsString())
    }

    /** The decoder is within the body of this message, in this setting, between lengths. */
    ghost predicate InBody(s: Setting, m: MessageMeta)
      reads this
    {
      && !InHeader()
      && apiVersion == Some(s.version)
      && message == Some(m) && structures == StructuresOf(m.fields)
      && s.flexible == m.IsFlexible(s.version)
      && s.utf8 == utf8
    }

    /** The metadata held is that of f, or none where the structure around it was not found. */
    ghost predicate Holds(f: FieldMeta, place: Place)
      reads this
    {
      meta == if place.Blind? then None else Some(f)
    }

    // ---- primitive reads

    method ReadExact(n: nat) returns (r: Result<bytes>)
      modifies this`input
      ensures Reads(r, input, Take(old(input), n))
    {
      if |input| < n {
        return Err(EndOfInput);
      }
      r := Ok(input[..n]);
      input := input[n..];
    }

    /** The varint loop: a register shifted by seven bits per byte. It reads six bytes at most. */
    method UnsignedVarint() returns (r: Result<nat>)
      modifies this`input
      ensures Reads(r, input, GetVarint(old(input)))
    {
      var accumulator: nat, k := 0, 0;
      while true
        invariant 0 <= k <= 5 && accumulator < Shift(1, k) && accumulator < U32_LIMIT
        invariant GetVarintFrom(input, k, accumulator) == GetVarint(old(input))
        decreases 5 - k
      {
        var buf := ReadExact(1);
        if buf.Err? {
          return Err(buf.error);
        }
        if k == 5 {
          return Err(Overflow);
        }
        var shifted := Shift(buf.value[0] % 128, k) % U32_LIMIT;
        ShiftedFits(buf.value[0] % 128, k, accumulator);
        accumulator := accumulator + shifted;
        if buf.value[0] < 128 {
          return Ok(accumulator);
        }
        k := k + 1;
      }
    }

    method CompactLength() returns (r: Result<nat>)
      modifies this`input
      ensures Reads(r, input, GetCompact(old(input)))
    {
      r := UnsignedVarint();
      if r.Ok? {
        if r.value == 0 {
          return Err(Overflow);
        }
        return Ok(r.value - 1);
      }
    }

    method SignedLength(width: nat) returns (r: Result<nat>)
      requires width > 0
      modifies this`input
      ensures Reads(r, input, GetLength(old(input), width))
    {
      var buf := ReadExact(width);
      if buf.Err? {
        return Err(buf.error);
      }
      var n := GetSigned(buf.value);
      if n < 0 {
        return Err(OutOfRange);
      }
      return Ok(n);
    }

    /** A length before which null may stand; it stays in the register if there is one. */
    method NullableLength(width: nat) returns (r: Result<bool>)
      requires width > 0 && length == None
      modifies this`input, this`length
      ensures
        var p := if IsFlexible() then GetNullableCompact(old(input)) else GetNullableSigned(old(input), width);
        if p.Parsed? then r == Ok(p.value.Some?) && length == p.value && input == p.rest
        else r == Err(p.error)
    {
      if IsFlexible() {
        var n := UnsignedVarint();
        if n.Err? {
          return Err(n.error);
        }
        length := if n.value == 0 then None else Some(n.value - 1);
      } else {
        var buf := ReadExact(width);
        if buf.Err? {
          return Err(buf.error);
        }
        var n := GetSigned(buf.value);
        if n < -1 {
          return Err(OutOfRange);
        }
        length := if n == -1 then None else Some(n);
      }
      return Ok(length.Some?);
    }

    /** The length that the registers call for, where none is carried. */
    ghost function LengthHeld(b: bytes): Parsed<nat>
      reads this
    {
      if InHeader() || IsNullable() || !IsValid() then Failed(WithoutLength)
      else if IsFlexible() then GetCompact(b)
      else if IsString() || (inSeqOfPrimitive && meta.Some? && meta.value.kind == Many(Text)) then GetLength(b, 2)
      else GetLength(b, 4)
    }

    method ReadMandatoryNonNullableLength() returns (r: Result<()>)
      requires length == None
      modifies this`input, this`length
      ensures InHeader() || IsNullable() || !IsValid() ==> r == Ok(()) && length == None && input == old(input)
      ensures !(InHeader() || IsNullable() || !IsValid()) ==>
        var p := old(LengthHeld(input));
        if p.Parsed? then r == Ok(()) && length == Some(p.value) && input == p.rest else r == Err(p.error)
    {
      if InHeader() || IsNullable() || !IsValid() {
        return Ok(());
      }
      var n;
      if IsFlexible() {
        n := CompactLength();
      } else if IsString() || (inSeqOfPrimitive && meta.Some? && meta.value.kind == Many(Text)) {
        n := SignedLength(2);
      } else {
        n := SignedLength(4);
      }
      if n.Err? {
        return Err(n.error);
      }
      length := Some(n.value);
      return Ok(());
    }

    method ReadSized(n: nat) returns (r: Result<bytes>)
      modifies this`input
      ensures Reads(r, input, TakeSized(old(input), n))
    {
      if n > MESSAGE_MAX_SIZE {
        return Err(MaxSizeExceeded);
      }
      r := ReadExact(n);
    }

    method ReadText(n: nat) returns (r: Result<Value>)
      modifies this`input
      ensures Reads(r, input, GetTextOfLength(Setting(0, false, utf8), old(input), n))
    {
      var buf := ReadSized(n);
      if buf.Err? {
        return Err(buf.error);
      }
      if !utf8(buf.value) {
        return Err(InvalidUtf8);
      }
      return Ok(Str(buf.value));
    }

    ghost function TextHeld(b: bytes): Parsed<Value>
      reads this
    {
      var n := LengthHeld(b);
      if n.Failed? then Failed(n.error) else GetTextOfLength(Setting(0, false, utf8), n.rest, n.value)
    }

    /** The registers call for the length that the metadata of a text does. */
    lemma HeldIsText(s: Setting, m: MessageMeta, f: FieldMeta, place: Place, b: bytes)
      requires InBody(s, m) && Holds(f, place) && f.kind.elem.Text? && (f.kind.Many? ==> inSeqOfPrimitive)
      ensures TextHeld(b) == GetText(s, f, place, b)
    {
      assert LengthHeld(b) == GetMandatoryLength(s, f, place, b);
    }

    method DeserializeString() returns (r: Result<Value>)
      modifies this`input, this`length
      ensures r.Ok? ==> length == None
      ensures old(length).Some? ==>
        Reads(r, input, GetTextOfLength(Setting(0, false, utf8), old(input), old(length).value))
      ensures old(length).None? ==> Reads(r, input, old(TextHeld(input)))
    {
      if length.None? {
        var read := ReadMandatoryNonNullableLength();
        if read.Err? {
          return Err(read.error);
        }
      }
      if length.None? {
        return Err(WithoutLength);
      }
      var n := length.value;
      length := None;
      r := ReadText(n);
    }

    method UnsignedLength() returns (r: Result<nat>)
      modifies this`input
      ensures Reads(r, input, if IsFlexible() then GetCompact(old(input)) else GetUnsignedLength(old(input)))
    {
      if IsFlexible() {
        r := CompactLength();
      } else {
        var buf := ReadExact(4);
        if buf.Err? {
          return Err(buf.error);
        }
        return Ok(GetUnsigned(buf.value));
      }
    }

    method DeserializeByteBuf() returns (r: Result<Value>)
      modifies this`input
      ensures Reads(r, input, GetBlob(Setting(0, IsFlexible(), utf8), old(input)))
    {
      var n := UnsignedLength();
      if n.Err? {
        return Err(n.error);
      }
      var buf := ReadSized(n.value);
      if buf.Err? {
        return Err(buf.error);
      }
      return Ok(Bin(buf.value));
    }

    method DeserializePrim(prim: Prim) returns (r: Result<Value>)
      modifies this`input, this`apiKey, this`apiVersion, this`message, this`structures, this`parse
      ensures Reads(r, input, GetPrim(prim, old(input)))
      ensures !(InHeader() && containers[0].InStruct?) || !prim.Int16? || r.Err? ==>
        unchanged(this`apiKey, this`apiVersion, this`message, this`structures, this`parse)
      ensures InHeader() && containers[0].InStruct? && prim.Int16? && r.Ok? ==>
        if field == Some("api_key") then
          && apiKey == Some(r.value.n) && apiVersion == old(apiVersion)
          && if r.value.n in requests then
               && message == Some(requests[r.value.n])
               && structures == StructuresOf(requests[r.value.n].fields)
               && parse == [requests[r.value.n].fields] + old(parse)
             else unchanged(this`message, this`structures, this`parse)
        else
          && unchanged(this`apiKey, this`message, this`structures, this`parse)
          && apiVersion == if field == Some("api_version") then Some(r.value.n) else old(apiVersion)
    {
      var buf := ReadExact(Width(prim));
      if buf.Err? {
        return Err(buf.error);
      }
      r := match prim
        case Bool => Ok(Num(if buf.value[0] != 0 then 1 else 0))
        case Uint16 => Ok(Num(GetUnsigned(buf.value)))
        case Float64 => Ok(Raw(buf.value))
        case Uuid => Ok(Raw(buf.value))
        case _ => Ok(Num(GetSigned(buf.value)));
      if prim.Int16? && InHeader() && containers[0].InStruct? {
        if field == Some("api_key") {
          apiKey := Some(r.value.n);
          if r.value.n in requests {
            message := Some(requests[r.value.n]);
            structures := StructuresOf(requests[r.value.n].fields);
            parse := [requests[r.value.n].fields] + parse;
          }
        } else if field == Some("api_version") {
          apiVersion := Some(r.value.n);
        }
      }
    }

    method DeserializeTags() returns (r: Result<Tags>)
      modifies this`input
      ensures
        var n := GetVarint(old(input));
        if n.Failed? then r == Err(n.error)
        else if n.value > MAXIMUM_TAGGED_FIELDS then r == Err(TooManyTags)
        else Reads(r, input, GetTagList(n.rest, n.value))
    {
      var n := UnsignedVarint();
      if n.Err? {
        return Err(n.error);
      }
      if n.value > MAXIMUM_TAGGED_FIELDS {
        return Err(TooManyTags);
      }
      r := DeserializeTagList(n.value);
    }

    method DeserializeTagList(n: nat) returns (r: Result<Tags>)
      modifies this`input
      ensures Reads(r, input, GetTagList(old(input), n))
      decreases n
    {
      if n == 0 {
        return Ok([]);
      }
      var tag := UnsignedVarint();
      if tag.Err? {
        return Err(tag.error);
      }
      var size := UnsignedVarint();
      if size.Err? {
        return Err(size.error);
      }
      if size.value > MAXIMUM_TAGGED_FIELDS {
        return Err(TooManyTags);
      }
      var data := ReadExact(size.value);
      if data.Err? {
        return Err(data.error);
      }
      var others := DeserializeTagList(n - 1);
      if others.Err? {
        return others;
      }
      return Ok([Tag(tag.value, data.value)] + others.value);
    }

    // ---- walking a shape

    /** Turn to the next member of a structure: its metadata becomes current. */
    method NextField(key: string)
      modifies this`field, this`meta
      ensures field == Some(key)
      ensures meta == if parse != [] then parse[0].Find(key) else old(meta)
    {
      field := Some(key);
      if parse != [] {
        meta := parse[0].Find(key);
      }
    }

    /**
     Enter a structure by name: found in the table, or named like a message and taken for
     it, or unknown and without metadata. Before a message is known nothing is looked up.
     */
    method EnterStruct(name: string)
      modifies this`containers, this`meta, this`parse
      ensures containers == [InStruct(name)] + old(containers)
      ensures message.None? ==> unchanged(this`meta, this`parse)
      ensures message.Some? ==>
        var found := Lookup(structures, name);
        if found.Some? then meta == found && parse == [found.value.fields] + old(parse)
        else if IsMessageName(name) then meta == old(meta) && parse == [message.value.fields] + old(parse)
        else meta == None && parse == [End] + old(parse)
    {
      containers := [InStruct(name)] + containers;
      if message.Some? {
        var found := Lookup(structures, name);
        if found.Some? {
          meta := found;
          parse := [found.value.fields] + parse;
        } else if IsMessageName(name) {
          parse := [message.value.fields] + parse;
        } else {
          meta := None;
          parse := [End] + parse;
        }
      }
    }

    method LeaveStruct(name: string)
      requires containers != [] && (message.Some? ==> parse != [])
      modifies this`containers, this`meta, this`parse
      ensures containers == old(containers)[1..]
      ensures parse == if message.Some? then old(parse)[1..] else old(parse)
    {
      containers := containers[1..];
      if message.Some? {
        parse := parse[1..];
        if Lookup(structures, name).Some? {
          meta := None;
        }
      }
    }

    /** The batches in the next bytes of the input. */
    method ReadBatches(size: nat) returns (r: Result<Value>)
      modifies this`input
      ensures Reads(r, input, GetFrames(old(input), Some(size)))
    {
      var buf := ReadSized(size);
      if buf.Err? {
        return Err(buf.error);
      }
      var reader := new BatchReader(buf.value);
      var batches := reader.Collect();
      if batches.Err? {
        return Err(batches.error);
      }
      return Ok(Frames(batches.value));
    }

    method DeserializeFrames() returns (r: Result<Value>)
      requires message.Some?
      modifies this`input, this`length, this`inRecords, this`inSeqOfPrimitive, this`containers, this`meta
      modifies this`parse, this`field
      ensures r.Ok? ==> length == None && !inRecords && containers == old(containers) && parse == old(parse)
      ensures Reads(r, input, GetFrames(old(input), old(length)))
    {
      EnterStruct("Frame");
      NextField("batches");
      if length.None? {
        return Err(WithoutLength);
      }
      var size := length.value;
      length := None;
      r := ReadBatches(size);
      inSeqOfPrimitive, inRecords := false, false;
      LeaveStruct("Frame");
    }

    /** Read what tells whether an optional value is there, and carry its length if that told it. */
    method ReadPresence(ghost s: Setting, ghost m: MessageMeta, ghost f: FieldMeta, ghost place: Place)
      returns (r: Result<bool>)
      requires InBody(s, m) && Holds(f, place) && length == None && !inRecords
      modifies this`input, this`length, this`inRecords
      ensures
        var p := Presence(s, f, place, old(input));
        if p.Failed? then r == Err(p.error)
        else
          && r == Ok(p.value.Some?) && input == p.rest
          && length == (if p.value.Some? then p.value.value else None)
          && (inRecords <==> f.IsRecords() && length.Some?)
    {
      if !IsValid() {
        return Ok(false);
      } else if IsRecords() {
        var n := UnsignedLength();
        if n.Err? {
          return Err(n.error);
        }
        if n.value == 0 {
          return Ok(false);
        }
        length := Some(n.value);
        inRecords := true;
      } else if IsSequence() {
        r := NullableLength(4);
        return;
      } else if IsString() {
        r := NullableLength(2);
        return;
      } else if IsNullable() && IsStructure() {
        var buf := ReadExact(1);
        if buf.Err? {
          return Err(buf.error);
        }
        return Ok(buf.value[0] < 128);
      }
      return Ok(true);
    }

    /** An optional value: read whether it is there, then the value. */
    method DeserializeOption(inner: Shape, ghost s: Setting, ghost m: MessageMeta, ghost f: FieldMeta,
        ghost place: Place)
      returns (r: Result<Value>)
      requires InBody(s, m) && Holds(f, place) && length == None && !inRecords && field != Some(TAG_BUFFER)
      requires f.Proper() && Fits(structures, f, place) && ClearField(m.fields, f) && inner == InnerShape(f)
      modifies this
      ensures r.Ok? ==> Kept(s, m, old(containers), old(parse), old(apiKey))
      ensures Reads(r, input, GetOption(s, f, place, old(input)))
      decreases inner, 4
    {
      PresenceThenValue(s, f, place, input);
      var there := ReadPresence(s, m, f, place);
      if there.Err? {
        return Err(there.error);
      }
      if !there.value {
        return Ok(Null);
      }
      r := Deserialize(inner, s, m, f, place);
      if r.Ok? {
        r := Ok(Just(r.value));
      }
    }

    /** Walk a shape of field f. The metadata held is that of f, and a length is carried at most to it. */
    method Deserialize(shape: Shape, ghost s: Setting, ghost m: MessageMeta, ghost f: FieldMeta, ghost place: Place)
      returns (r: Result<Value>)
      requires InBody(s, m) && (Holds(f, place) || shape.StructShape?)
      requires f.Proper() && Fits(structures, f, place) && ClearField(m.fields, f) && ShapeFits(shape, f)
      requires shape.OptionShape? ==> field != Some(TAG_BUFFER)
      requires length.Some? ==> shape.TextShape? || shape.VecShape? || shape.FramesShape?
      requires inRecords <==> shape.FramesShape? && length.Some?
      requires shape.TextShape? && f.kind.Many? ==> inSeqOfPrimitive && length == None
      requires shape.VecShape? && length.Some? ==> !place.Blind?
      modifies this
      ensures r.Ok? ==> Kept(s, m, old(containers), old(parse), old(apiKey))
      ensures r.Ok? && f.kind.Many? && shape == ElemShape(f) && !shape.StructShape? ==>
        meta == old(meta) && inSeqOfPrimitive == old(inSeqOfPrimitive)
      ensures Reads(r, input, Expected(s, f, place, shape, old(length), old(input)))
      decreases shape, 1
    {
      match shape
      case OptionShape(inner) =>
        r := DeserializeOption(inner, s, m, f, place);
      case VecShape(item) =>
        r := DeserializeSeq(item, s, m, f, place);
      case StructShape(name, members) =>
        r := DeserializeStruct(name, members, s, m, f, place);
      case TagsShape =>
        assert false;
        r := Err(Panics);
      case _ =>
        r := DeserializeSingle(shape, s, m, f, place);
    }

    /** What holds no further members. */
    method DeserializeSingle(shape: Shape, ghost s: Setting, ghost m: MessageMeta, ghost f: FieldMeta,
        ghost place: Place)
      returns (r: Result<Value>)
      requires InBody(s, m) && Holds(f, place) && shape == ElemShape(f)
      requires !shape.StructShape?
      requires length.Some? ==> shape.TextShape? || shape.FramesShape?
      requires inRecords <==> shape.FramesShape? && length.Some?
      requires shape.TextShape? && f.kind.Many? ==> inSeqOfPrimitive && length == None
      modifies this
      ensures r.Ok? ==> Kept(s, m, old(containers), old(parse), old(apiKey))
      ensures r.Ok? && !shape.FramesShape? ==> meta == old(meta) && inSeqOfPrimitive == old(inSeqOfPrimitive)
      ensures Reads(r, input, Expected(s, f, place, shape, old(length), old(input)))
    {
      match shape
      case PrimShape(prim) =>
        r := DeserializePrim(prim);
      case TextShape =>
        r := DeserializeText(s, m, f, place);
      case BlobShape =>
        r := DeserializeByteBuf();
      case FramesShape =>
        r := DeserializeFrames();
    }

    /** A text of field f: its length is carried, or it is the one its metadata calls for. */
    method DeserializeText(ghost s: Setting, ghost m: MessageMeta, ghost f: FieldMeta, ghost place: Place)
      returns (r: Result<Value>)
      requires InBody(s, m) && Holds(f, place) && f.kind.elem.Text?
      requires f.kind.Many? ==> inSeqOfPrimitive && length == None
      modifies this`input, this`length
      ensures r.Ok? ==> length == None
      ensures Reads(r, input, Expected(s, f, place, TextShape, old(length), old(input)))
    {
      HeldIsText(s, m, f, place, input);
      r := DeserializeString();
    }

    method DeserializeStruct(
      name: string, members: MemberShapes, ghost s: Setting, ghost m: MessageMeta, ghost f: FieldMeta,
        ghost place: Place)
      returns (r: Result<Value>)
      requires InBody(s, m) && length == None && !inRecords
      requires f.Proper() && Fits(structures, f, place) && ClearField(m.fields, f)
      requires f.kind.elem == Structure(name) && members == MembersShape(f.fields, f.Inside())
      modifies this
      ensures r.Ok? ==> Kept(s, m, old(containers), old(parse), old(apiKey))
      ensures Reads(r, input, GetElem(s, f, place, old(input)))
      decreases members, 2
    {
      EnterStruct(name);
      var both := VisitMembers(members, s, m, f.fields, f.Inside(), place.Inside(f));
      if both.Err? {
        return Err(both.error);
      }
      LeaveStruct(name);
      return Ok(Struct(both.value.0, both.value.1));
    }

    /** A sequence takes the carried length; without one it would be read until it fails. */
    method DeserializeSeq(item: Shape, ghost s: Setting, ghost m: MessageMeta, ghost f: FieldMeta, ghost place: Place)
      returns (r: Result<Value>)
      requires InBody(s, m) && Holds(f, place) && !inRecords
      requires f.Proper() && Fits(structures, f, place) && ClearField(m.fields, f) && f.kind.Many?
      requires item == ElemShape(f)
      requires length.Some? ==> !place.Blind?
      modifies this
      ensures r.Ok? ==> Kept(s, m, old(containers), old(parse), old(apiKey))
      ensures Reads(r, input, Expected(s, f, place, VecShape(item), old(length), old(input)))
      decreases item, 4
    {
      inSeqOfPrimitive := meta.Some? && meta.value.kind.Many? && !meta.value.kind.elem.Structure?;
      if length.None? {
        return Err(WithoutLength);
      }
      var n := length.value;
      length := None;
      var items := DeserializeItems(n, item, s, m, f, place);
      if items.Err? {
        return Err(items.error);
      }
      inSeqOfPrimitive := false;
      return Ok(List(items.value));
    }

    /** The elements of a sequence of known length. */
    method DeserializeItems(n: nat, item: Shape, ghost s: Setting, ghost m: MessageMeta, ghost f: FieldMeta,
        ghost place: Place)
      returns (r: Result<seq<Value>>)
      requires InBody(s, m) && length == None && !inRecords
      requires f.kind.elem.Structure? || (Holds(f, place) && inSeqOfPrimitive)
      requires f.Proper() && Fits(structures, f, place) && ClearField(m.fields, f) && f.kind.Many?
      requires item == ElemShape(f)
      modifies this
      ensures r.Ok? ==> Kept(s, m, old(containers), old(parse), old(apiKey))
      ensures Reads(r, input, GetItems(s, f, place, old(input), n))
      decreases item, 3
    {
      var items: seq<Value> := [];
      PrefixedByNone(GetItems(s, f, place, input, n));
      while |items| < n
        invariant |items| <= n
        invariant Kept(s, m, old(containers), old(parse), old(apiKey))
        invariant f.kind.elem.Structure? || (Holds(f, place) && inSeqOfPrimitive)
        invariant GetItems(s, f, place, old(input), n) == Prefixed(items, GetItems(s, f, place, input, n - |items|))
      {
        PrefixedSteps(s, f, place, items, input, n - |items|);
        var next := DeserializeItem(item, s, m, f, place);
        if next.Err? {
          return Err(next.error);
        }
        items := items + [next.value];
      }
      assert items + [] == items;
      return Ok(items);
    }

    /** One element of a sequence; after a structure the metadata is gone, and found again by name. */
    method DeserializeItem(item: Shape, ghost s: Setting, ghost m: MessageMeta, ghost f: FieldMeta, ghost place: Place)
      returns (r: Result<Value>)
      requires InBody(s, m) && length == None && !inRecords
      requires f.kind.elem.Structure? || (Holds(f, place) && inSeqOfPrimitive)
      requires f.Proper() && Fits(structures, f, place) && ClearField(m.fields, f) && f.kind.Many?
      requires item == ElemShape(f)
      modifies this
      ensures r.Ok? ==> Kept(s, m, old(containers), old(parse), old(apiKey))
      ensures r.Ok? ==> f.kind.elem.Structure? || (Holds(f, place) && inSeqOfPrimitive)
      ensures Reads(r, input, GetElem(s, f, place, old(input)))
      decreases item, 2
    {
      ExpectedItem(s, f, place, input);
      r := Deserialize(item, s, m, f, place);
    }

    method VisitMembers(
      members: MemberShapes, ghost s: Setting, ghost m: MessageMeta, ghost fs: Fields,
      ghost parent: Option<VersionRange>, ghost place: Place) returns (r: Result<(seq<Value>, Option<Tags>)>)
      requires InBody(s, m) && length == None && !inRecords && parse != []
      requires if place.Blind? then parse[0] == End else Resolves(parse[0], fs) && parse[0].Find(TAG_BUFFER).None?
      requires fs.Proper() && EachFits(structures, fs, place) && EachClear(m.fields, fs) && fs.Find(TAG_BUFFER).None?
      requires members == MembersShape(fs, parent)
      modifies this
      ensures r.Ok? ==> Kept(s, m, old(containers), old(parse), old(apiKey))
      ensures Reads(r, input, GetFrom(s, fs, parent, place, old(input)))
      decreases members, 0
    {
      if members.next.NoShapes? {
        var tags := DeserializeTagMember();
        if tags.Err? {
          return Err(tags.error);
        }
        return Ok(([], tags.value));
      }
      var first := VisitMember(members.key, members.shape, s, m, fs.meta, parent, place);
      if first.Err? {
        return Err(first.error);
      }
      var others := VisitMembers(members.next, s, m, fs.next, parent, place);
      if others.Err? {
        return others;
      }
      return Ok(([first.value] + others.value.0, others.value.1));
    }

    /** One named member: its metadata becomes current, and it is read. */
    method VisitMember(
      key: string, shape: Shape, ghost s: Setting, ghost m: MessageMeta, ghost f: FieldMeta,
      ghost parent: Option<VersionRange>, ghost place: Place) returns (r: Result<Value>)
      requires InBody(s, m) && length == None && !inRecords && parse != [] && key != TAG_BUFFER
      requires parse[0].Find(key) == if place.Blind? then None else Some(f)
      requires f.Proper() && Fits(structures, f, place) && ClearField(m.fields, f) && shape == FieldShape(f, parent)
      modifies this
      ensures r.Ok? ==> Kept(s, m, old(containers), old(parse), old(apiKey))
      ensures Reads(r, input, GetField(s, f, parent, place, old(input)))
      decreases shape, 5
    {
      NextField(key);
      FieldShapeFits(f, parent);
      ExpectedIsField(s, f, parent, place, input);
      r := Deserialize(shape, s, m, f, place);
    }

    /** Everything but the current field is as it was, and no length is carried. */
    ghost predicate Kept(s: Setting, m: MessageMeta, containers: seq<Enclosing>, parse: seq<Fields>,
        apiKey: Option<int>)
      reads this
    {
      && InBody(s, m) && this.containers == containers && this.parse == parse && this.apiKey == apiKey
      && length == None && !inRecords
    }

    // ---- walking a frame

    method DeserializePlain(key: string, prim: Prim) returns (r: Result<int>)
      requires prim.Int16? || prim.Int32?
      requires parse != [] ==> parse[0].Find(key).None?
      modifies this`input, this`field, this`meta, this`apiKey, this`apiVersion, this`message, this`structures
      modifies this`parse
      ensures Reads(r, input, GetNumber(prim, old(input)))
      ensures field == Some(key) && meta == if old(parse) != [] then None else old(meta)
      ensures r.Ok? && prim.Int16? && InHeader() && containers[0].InStruct? && key == "api_key" ==>
        && apiKey == Some(r.value) && apiVersion == old(apiVersion)
        && if r.value in requests then
             && message == Some(requests[r.value])
             && structures == StructuresOf(requests[r.value].fields)
             && parse == [requests[r.value].fields] + old(parse)
           else unchanged(this`message, this`structures, this`parse)
      ensures r.Ok? && prim.Int16? && InHeader() && containers[0].InStruct? && key == "api_version" ==>
        unchanged(this`apiKey, this`message, this`structures, this`parse) && apiVersion == Some(r.value)
      ensures !prim.Int16? ==> unchanged(this`apiKey, this`apiVersion, this`message, this`structures, this`parse)
    {
      NextField(key);
      var v := DeserializePrim(prim);
      if v.Err? {
        return Err(v.error);
      }
      return Ok(v.value.n);
    }

    /** The client id: an optional text whose length is two bytes, whatever the message. */
    method DeserializeClientId() returns (r: Result<Option<bytes>>)
      requires InHeader() && kind == Some(Direction.Request) && length == None && meta == None
      requires parse != [] ==> parse[0].Find(CLIENT_ID).None?
      modifies this`input, this`field, this`meta, this`length
      ensures field == Some(CLIENT_ID) && meta == None && (r.Ok? ==> length == None)
      ensures Reads(r, input, GetClientId(utf8, old(input)))
    {
      NextField(CLIENT_ID);
      var there := NullableLength(2);
      if there.Err? {
        return Err(there.error);
      }
      if !there.value {
        return Ok(None);
      }
      var text := DeserializeString();
      if text.Err? {
        return Err(text.error);
      }
      return Ok(Some(text.value.text));
    }

    method DeserializeTagMember() returns (r: Result<Option<Tags>>)
      requires parse != [] ==> parse[0].Find(TAG_BUFFER).None?
      requires length == None
      modifies this`input, this`field, this`meta, this`length
      ensures field == Some(TAG_BUFFER) && length == None && meta == if parse != [] then None else old(meta)
      ensures Reads(r, input, GetTags(Setting(0, IsFlexible(), utf8), old(input)))
    {
      NextField(TAG_BUFFER);
      if IsFlexible() {
        var tags := DeserializeTags();
        if tags.Err? {
          return Err(tags.error);
        }
        return Ok(Some(tags.value));
      }
      return Ok(None);
    }

    /** The numbers of a request header: the first makes the message known, the second its version. */
    method DeserializeHeaderNumbers() returns (r: Result<(int, int, int)>)
      requires message.None? && parse == [] && meta == None && InHeader() && containers[0].InStruct?
      requires AllSound(requests)
      modifies this`input, this`field, this`meta, this`apiKey, this`apiVersion, this`message, this`structures
      modifies this`parse
      ensures Reads(r, input, GetHeaderNumbers(old(input)))
      ensures meta == None
      ensures r.Ok? ==> Informed(r.value.0, r.value.1)
    {
      var key := DeserializePlain("api_key", Int16);
      if key.Err? {
        return Err(key.error);
      }
      var version := DeserializePlain("api_version", Int16);
      if version.Err? {
        return Err(version.error);
      }
      var correlation := DeserializePlain("correlation_id", Int32);
      if correlation.Err? {
        return Err(correlation.error);
      }
      return Ok((key.value, version.value, correlation.value));
    }

    method DeserializeHeaderTail(ghost key: int, ghost version: int) returns (r: Result<(Option<bytes>, Option<Tags>)>)
      requires Informed(key, version) && kind == Some(Direction.Request) && length == None && meta == None && InHeader()
      requires parse != [] ==> ClearOfFrame(parse[0])
      modifies this`input, this`field, this`meta, this`length
      ensures Reads(r, input, GetHeaderTail(FlexibleRequest(requests, key, version), utf8, old(input)))
      ensures r.Ok? ==> length == None
    {
      var client := DeserializeClientId();
      if client.Err? {
        return Err(client.error);
      }
      var tags := DeserializeTagMember();
      if tags.Err? {
        return Err(tags.error);
      }
      return Ok((client.value, tags.value));
    }

    /** The key and version of a request have been read; the lookup of its message is on the stack. */
    ghost predicate Informed(key: int, version: int)
      reads this
    {
      && apiKey == Some(key) && apiVersion == Some(version)
      && if key in requests then
           && message == Some(requests[key]) && structures == StructuresOf(requests[key].fields)
           && parse == [requests[key].fields]
         else message.None? && parse == []
    }

    /**
     The header of a request. Its first member makes the message known and leaves the
     message's lookup on the stack, where it stays.
     */
    method DeserializeRequestHeader() returns (r: Result<RequestHeader>)
      requires kind == Some(Direction.Request) && message.None? && parse == [] && meta == None && length == None
      requires AllSound(requests)
      modifies this`input, this`field, this`meta, this`length, this`apiKey, this`apiVersion, this`message
      modifies this`structures, this`parse, this`containers
      ensures Reads(r, input, GetRequestHeader(requests, utf8, old(input)))
      ensures r.Ok? ==> Informed(r.value.apiKey, r.value.apiVersion) && containers == old(containers) && length == None
    {
      EnterHeader();
      r := DeserializeRequestMembers();
      if r.Ok? {
        // the message was not known when the header was entered: nothing is popped
        containers := containers[2..];
      }
    }

    method DeserializeRequestMembers() returns (r: Result<RequestHeader>)
      requires kind == Some(Direction.Request) && message.None? && parse == [] && meta == None && length == None
      requires InHeader() && containers[0].InStruct? && AllSound(requests)
      modifies this`input, this`field, this`meta, this`length, this`apiKey, this`apiVersion, this`message
      modifies this`structures, this`parse
      ensures Reads(r, input, GetRequestHeader(requests, utf8, old(input)))
      ensures r.Ok? ==> Informed(r.value.apiKey, r.value.apiVersion) && length == None
    {
      ghost var b, p := input, GetHeaderNumbers(input);
      var numbers := DeserializeHeaderNumbers();
      if numbers.Err? {
        assert p == Failed(numbers.error);
        return Err(numbers.error);
      }
      assert p == Parsed(numbers.value, input);
      var (key, version, correlation) := numbers.value;
      if key in requests {
        SoundIsClear(requests, key);
      }
      r := DeserializeAfterNumbers(key, version, correlation, b);
    }

    method DeserializeAfterNumbers(key: int, version: int, correlation: int, ghost b: bytes)
      returns (r: Result<RequestHeader>)
      requires Informed(key, version) && kind == Some(Direction.Request) && length == None && meta == None && InHeader()
      requires parse != [] ==> ClearOfFrame(parse[0])
      requires GetHeaderNumbers(b) == Parsed((key, version, correlation), input)
      modifies this`input, this`field, this`meta, this`length
      ensures Reads(r, input, GetRequestHeader(requests, utf8, b))
      ensures r.Ok? ==> length == None && r.value.apiKey == key && r.value.apiVersion == version
    {
      HeaderByNumbers(requests, utf8, b);
      var tail := DeserializeHeaderTail(key, version);
      if tail.Err? {
        return Err(tail.error);
      }
      return Ok(RequestHeader(key, version, correlation, tail.value.0, tail.value.1));
    }

    method DeserializeResponseMembers() returns (r: Result<ResponseHeader>)
      requires InHeader() && kind == Some(Direction.Response) && length == None && parse != [] && parse[0] == End
      modifies this`input, this`field, this`meta, this`length, this`apiKey, this`apiVersion, this`message
      modifies this`structures, this`parse
      ensures unchanged(this`apiKey, this`apiVersion, this`message, this`structures, this`parse)
      ensures r.Ok? ==> length == None
      ensures Reads(r, input, GetResponseHeader(
        apiKey != Some(API_VERSIONS) && message.Some? && apiVersion.Some? &&
          message.value.IsFlexible(apiVersion.value), old(input)))
    {
      var correlation := DeserializePlain("correlation_id", Int32);
      if correlation.Err? {
        return Err(correlation.error);
      }
      var tags := DeserializeTagMember();
      if tags.Err? {
        return Err(tags.error);
      }
      return Ok(ResponseHeader(correlation.value, tags.value));
    }

    /** The two containers of a header, and the empty lookup its members are found in. */
    method EnterHeader()
      modifies this`containers, this`meta, this`parse
      ensures InHeader() && containers[0].InStruct? && |containers| >= 2 && containers[2..] == old(containers)
      ensures message.None? ==> unchanged(this`meta, this`parse)
      ensures message.Some? && Lookup(structures, HEADER).None? ==> parse == [End] + old(parse)
    {
      FrameNames();
      containers := [InEnum(HEADER)] + containers;
      EnterStruct(HEADER);
    }

    method LeaveHeader()
      requires |containers| >= 2 && (message.Some? ==> parse != [])
      modifies this`containers, this`meta, this`parse
      ensures containers == old(containers)[2..]
      ensures parse == if message.Some? then old(parse)[1..] else old(parse)
    {
      LeaveStruct(HEADER);
      containers := containers[1..];
    }

    method DeserializeResponseHeader(ghost m: MessageMeta) returns (r: Result<ResponseHeader>)
      requires kind == Some(Direction.Response) && message == Some(m) && length == None && apiVersion.Some?
      requires Lookup(structures, HEADER).None?
      modifies this`input, this`field, this`meta, this`length, this`apiKey, this`apiVersion, this`message
      modifies this`structures, this`parse, this`containers
      ensures unchanged(this`apiKey, this`apiVersion, this`message, this`structures)
      ensures Reads(r, input,
        GetResponseHeader(apiKey != Some(API_VERSIONS) && m.IsFlexible(apiVersion.value), old(input)))
      ensures r.Ok? ==> containers == old(containers) && parse == old(parse) && length == None
    {
      EnterHeader();
      r := DeserializeResponseMembers();
      LeaveHeader();
    }

    /** The body: the structure generated for the message, found by the message's name. */
    method DeserializeBody(ghost s: Setting, ghost m: MessageMeta) returns (r: Result<Value>)
      requires message == Some(m) && structures == StructuresOf(m.fields) && parse != [] && length == None && !inRecords
      requires apiVersion == Some(s.version) && s.flexible == m.IsFlexible(s.version) && s.utf8 == utf8
      requires Sound(m)
      modifies this
      ensures Reads(r, input, GetStruct(s, m.fields, old(input)))
    {
      NextField("body");
      containers := [InEnum("Body")] + containers;
      EnterStruct(message.value.name);
      var both := VisitMembers(MembersShape(message.value.fields, None), s, m, m.fields, None, Top);
      if both.Err? {
        return Err(both.error);
      }
      return Ok(Struct(both.value.0, both.value.1));
    }

    /** A whole request frame, from the state of a new request decoder. */
    method DeserializeRequest() returns (r: Result<RequestFrame>)
      requires kind == Some(Direction.Request) && containers == [] && message.None? && parse == [] && meta == None
      requires length == None && !inRecords
      requires AllSound(requests)
      modifies this
      ensures Reads(r, input, GetRequest(requests, utf8, old(input)))
    {
      EnterStruct("Frame");
      var size := DeserializePlain("size", Int32);
      if size.Err? {
        return Err(size.error);
      }
      r := DeserializeSized(size.value);
    }

    /** What follows the size of a request. */
    method DeserializeSized(size: int) returns (r: Result<RequestFrame>)
      requires kind == Some(Direction.Request) && message.None? && parse == [] && meta == None
      requires length == None && !inRecords && AllSound(requests)
      modifies this
      ensures Reads(r, input, GetSized(requests, utf8, size, old(input)))
    {
      ghost var p := GetRequestHeader(requests, utf8, input);
      assert GetSized(requests, utf8, size, input) ==
        if p.Failed? then Failed(p.error) else GetAnnounced(requests, utf8, size, p.value, p.rest);
      NextField("header");
      var header := DeserializeRequestHeader();
      if header.Err? {
        return Err(header.error);
      }
      r := DeserializeAnnounced(size, header.value);
    }

    /** The header told which message to read, if it is a message at all. */
    method DeserializeAnnounced(size: int, h: RequestHeader) returns (r: Result<RequestFrame>)
      requires Informed(h.apiKey, h.apiVersion) && length == None && !inRecords && AllSound(requests)
      modifies this
      ensures Reads(r, input, GetAnnounced(requests, utf8, size, h, old(input)))
    {
      if message.None? {
        return Err(UnknownMessage);
      }
      ghost var m := message.value;
      assert Sound(m);
      var body := DeserializeBody(Setting(h.apiVersion, m.IsFlexible(h.apiVersion), utf8), m);
      if body.Err? {
        return Err(body.error);
      }
      return Ok(RequestFrame(size, h, body.value));
    }

    /** A whole response frame, from the state of a new response decoder. */
    method DeserializeResponse(ghost s: Setting, ghost m: MessageMeta) returns (r: Result<ResponseFrame>)
      requires kind == Some(Direction.Response) && containers == [] && message == Some(m) && parse == [m.fields]
      requires meta == None
      requires structures == StructuresOf(m.fields) && length == None && !inRecords && apiKey.Some?
      requires apiVersion == Some(s.version) && s.flexible == m.IsFlexible(s.version) && s.utf8 == utf8
      requires Sound(m)
      modifies this
      ensures Reads(r, input, GetResponse(m, old(apiKey).value, s, old(input)))
    {
      EnterStruct("Frame");
      var size := DeserializePlain("size", Int32);
      if size.Err? {
        return Err(size.error);
      }
      r := DeserializeSizedResponse(size.value, s, m);
    }

    /** What follows the size of a response. */
    method DeserializeSizedResponse(size: int, ghost s: Setting, ghost m: MessageMeta)
      returns (r: Result<ResponseFrame>)
      requires kind == Some(Direction.Response) && message == Some(m) && parse != []
      requires structures == StructuresOf(m.fields) && length == None && !inRecords && apiKey.Some?
      requires apiVersion == Some(s.version) && s.flexible == m.IsFlexible(s.version) && s.utf8 == utf8
      requires Sound(m)
      modifies this
      ensures Reads(r, input, GetSizedResponse(m, old(apiKey).value, s, size, old(input)))
    {
      NextField("header");
      var header := DeserializeResponseHeader(m);
      if header.Err? {
        return Err(header.error);
      }
      var body := DeserializeBody(s, m);
      if body.Err? {
        return Err(body.error);
      }
      return Ok(ResponseFrame(size, header.value, body.value));
    }
  }
}
