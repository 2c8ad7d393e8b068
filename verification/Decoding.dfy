/**
 What the decoder reads: a function of the bytes, the metadata of the expected fields
 and the setting.
 */
module Decoding {
  import opened Wire
  import opened Schema
  import opened RecordBlob
  import opened Values

  const MESSAGE_MAX_SIZE := 1024 * 1024 * 1024
  const MAXIMUM_TAGGED_FIELDS := 128

  /**
   How much metadata the decoder holds for a field. The fields of a message are at `Top`.
   A structure is found by name in a table that holds the element structures of sequences
   and the single structures of `Top`; the fields of any other structure are `Blind`.
   */
  datatype Place = Top | Seen | Blind {
    function Inside(f: FieldMeta): Place {
      if f.kind.Many? || Top? then Seen else Blind
    }
  }

  function GetCompact(b: bytes): (p: Parsed<nat>)
    ensures p.Parsed? ==> |p.rest| < |b|
  {
    var n := GetVarint(b);
    if n.Failed? then n
    else if n.value == 0 then Failed(Overflow)
    else Parsed(n.value - 1, n.rest)
  }

  function GetNullableCompact(b: bytes): (p: Parsed<Option<nat>>)
    ensures p.Parsed? ==> |p.rest| < |b|
  {
    var n := GetVarint(b);
    if n.Failed? then Failed(n.error)
    else Parsed(if n.value == 0 then None else Some(n.value - 1), n.rest)
  }

  /** A signed length of this many bytes, -1 standing for null. */
  function GetNullableSigned(b: bytes, width: nat): (p: Parsed<Option<nat>>)
    requires width > 0
    ensures p.Parsed? ==> |b| - |p.rest| == width
  {
    var taken := Take(b, width);
    if taken.Failed? then Failed(taken.error)
    else
      var n := GetSigned(taken.value);
      if n == -1 then Parsed(None, taken.rest)
      else if n < 0 then Failed(OutOfRange)
      else Parsed(Some(n), taken.rest)
  }

  function GetLength(b: bytes, width: nat): (p: Parsed<nat>)
    requires width > 0
    ensures p.Parsed? ==> |b| - |p.rest| == width
  {
    var taken := Take(b, width);
    if taken.Failed? then Failed(taken.error)
    else
      var n := GetSigned(taken.value);
      if n < 0 then Failed(OutOfRange) else Parsed(n, taken.rest)
  }

  function GetUnsignedLength(b: bytes): (p: Parsed<nat>)
    ensures p.Parsed? ==> |b| - |p.rest| == 4
  {
    var taken := Take(b, 4);
    if taken.Failed? then Failed(taken.error) else Parsed(GetUnsigned(taken.value), taken.rest)
  }

  function TakeSized(b: bytes, n: nat): (p: Parsed<bytes>)
    ensures p.Parsed? ==> |p.value| == n && p.value + p.rest == b
  {
    if n > MESSAGE_MAX_SIZE then Failed(MaxSizeExceeded) else Take(b, n)
  }

  function GetTextOfLength(s: Setting, b: bytes, n: nat): (p: Parsed<Value>)
    ensures p.Parsed? ==> p.value.Str? && |p.value.text| == n && p.value.text + p.rest == b
  {
    var taken := TakeSized(b, n);
    if taken.Failed? then Failed(taken.error)
    else if !s.utf8(taken.value) then Failed(InvalidUtf8)
    else Parsed(Str(taken.value), taken.rest)
  }

  /**
   The length of a text that was not read beforehand. It is not read for a nullable field;
   without metadata the text is not known to be one, and its length is taken to be four bytes.
   */
  function GetMandatoryLength(s: Setting, f: FieldMeta, place: Place, b: bytes): (p: Parsed<nat>)
  {
    if !place.Blind? && (f.IsNullable(s.version) || !f.version.Within(s.version)) then Failed(WithoutLength)
    else if s.flexible then GetCompact(b)
    else if place.Blind? then GetLength(b, 4)
    else GetLength(b, 2)
  }

  function GetText(s: Setting, f: FieldMeta, place: Place, b: bytes): (p: Parsed<Value>)
  {
    var n := GetMandatoryLength(s, f, place, b);
    if n.Failed? then Failed(n.error) else GetTextOfLength(s, n.rest, n.value)
  }

  function GetBlob(s: Setting, b: bytes): (p: Parsed<Value>)
  {
    var n := if s.flexible then GetCompact(b) else GetUnsignedLength(b);
    if n.Failed? then Failed(n.error)
    else
      var taken := TakeSized(n.rest, n.value);
      if taken.Failed? then Failed(taken.error) else Parsed(Bin(taken.value), taken.rest)
  }

  /** Record frames: no bytes at all stand for their absence. */
  function GetRecords(s: Setting, b: bytes): (p: Parsed<Value>)
  {
    var n := if s.flexible then GetCompact(b) else GetUnsignedLength(b);
    if n.Failed? then Failed(n.error)
    else if n.value == 0 then Parsed(Null, n.rest)
    else
      var taken := TakeSized(n.rest, n.value);
      if taken.Failed? then Failed(taken.error)
      else
        var batches := SplitBatches(taken.value);
        if batches.Err? then Failed(batches.error) else Parsed(Just(Frames(batches.value)), taken.rest)
  }

  function GetTag(b: bytes): (p: Parsed<Tag>)
    ensures p.Parsed? ==> |p.rest| < |b|
  {
    var tag := GetVarint(b);
    if tag.Failed? then Failed(tag.error)
    else
      var n := GetVarint(tag.rest);
      if n.Failed? then Failed(n.error)
      else if n.value > MAXIMUM_TAGGED_FIELDS then Failed(TooManyTags)
      else
        var data := Take(n.rest, n.value);
        if data.Failed? then Failed(data.error) else Parsed(Tag(tag.value, data.value), data.rest)
  }

  function GetTagList(b: bytes, n: nat): (p: Parsed<Tags>)
    ensures p.Parsed? ==> |p.value| == n
    decreases n
  {
    if n == 0 then Parsed([], b)
    else
      var first := GetTag(b);
      if first.Failed? then Failed(first.error)
      else
        var others := GetTagList(first.rest, n - 1);
        if others.Failed? then others else Parsed([first.value] + others.value, others.rest)
  }

  function GetTags(s: Setting, b: bytes): (p: Parsed<Option<Tags>>)
  {
    if !s.flexible then Parsed(None, b)
    else
      var n := GetVarint(b);
      if n.Failed? then Failed(n.error)
      else if n.value > MAXIMUM_TAGGED_FIELDS then Failed(TooManyTags)
      else
        var tags := GetTagList(n.rest, n.value);
        if tags.Failed? then Failed(tags.error) else Parsed(Some(tags.value), tags.rest)
  }

  function AsJust(p: Parsed<Value>): Parsed<Value>
  {
    if p.Failed? then p else Parsed(Just(p.value), p.rest)
  }

  /** An element that stands on its own: not null, and its length not read yet. */
  function GetElem(s: Setting, f: FieldMeta, place: Place, b: bytes): (p: Parsed<Value>)
    decreases f, 0
  {
    match f.kind.elem
    case Fixed(prim) => GetPrim(prim, b)
    case Text => GetText(s, f, place, b)
    case Blob => GetBlob(s, b)
    case Records => Failed(WithoutLength)
    case Structure(_) =>
      var members := GetMembers(s, f.fields, f.Inside(), place.Inside(f), b);
      if members.Failed? then Failed(members.error)
      else
        var tags := GetTags(s, members.rest);
        if tags.Failed? then Failed(tags.error) else Parsed(Struct(members.value, tags.value), tags.rest)
  }

  function GetItems(s: Setting, f: FieldMeta, place: Place, b: bytes, n: nat): (p: Parsed<seq<Value>>)
    ensures p.Parsed? ==> |p.value| == n
    decreases f, 1, n
  {
    if n == 0 then Parsed([], b)
    else
      var first := GetElem(s, f, place, b);
      if first.Failed? then Failed(first.error)
      else
        var others := GetItems(s, f, place, first.rest, n - 1);
        if others.Failed? then others else Parsed([first.value] + others.value, others.rest)
  }

  function GetList(s: Setting, f: FieldMeta, place: Place, b: bytes): (p: Parsed<Value>)
    decreases f, 2
  {
    var n := if s.flexible then GetNullableCompact(b) else GetNullableSigned(b, 4);
    if n.Failed? then Failed(n.error)
    else if n.value.None? then Parsed(Null, n.rest)
    else
      var items := GetItems(s, f, place, n.rest, n.value.value);
      if items.Failed? then Failed(items.error) else Parsed(Just(List(items.value)), items.rest)
  }

  function GetNullableText(s: Setting, b: bytes): (p: Parsed<Value>)
  {
    var n := if s.flexible then GetNullableCompact(b) else GetNullableSigned(b, 2);
    if n.Failed? then Failed(n.error)
    else if n.value.None? then Parsed(Null, n.rest)
    else AsJust(GetTextOfLength(s, n.rest, n.value.value))
  }

  function GetNullableStruct(s: Setting, f: FieldMeta, place: Place, b: bytes): (p: Parsed<Value>)
    decreases f, 2
  {
    var taken := Take(b, 1);
    if taken.Failed? then Failed(taken.error)
    else if taken.value[0] >= 128 then Parsed(Null, taken.rest)
    else AsJust(GetElem(s, f, place, taken.rest))
  }

  function GetOption(s: Setting, f: FieldMeta, place: Place, b: bytes): (p: Parsed<Value>)
    decreases f, 3
  {
    if place.Blind? then
      // a sequence of unknown length is read until it fails
      if f.kind.Many? || f.IsRecords() then Failed(WithoutLength) else AsJust(GetElem(s, f, place, b))
    else if !f.version.Within(s.version) then Parsed(Null, b)
    else if f.IsRecords() then GetRecords(s, b)
    else if f.IsSequence() then GetList(s, f, place, b)
    else if f.IsString() then GetNullableText(s, b)
    else if f.IsNullable(s.version) && f.IsStructure() then GetNullableStruct(s, f, place, b)
    else AsJust(GetElem(s, f, place, b))
  }

  function GetField(s: Setting, f: FieldMeta, parent: Option<VersionRange>, place: Place, b: bytes): (p: Parsed<Value>)
    decreases f, 4
  {
    if f.IsOptional(parent) then GetOption(s, f, place, b) else GetElem(s, f, place, b)
  }

  function GetMembers(s: Setting, fs: Fields, parent: Option<VersionRange>, place: Place,
      b: bytes): (p: Parsed<seq<Value>>)
    decreases fs
  {
    match fs
    case End => Parsed([], b)
    case Field(_, meta, next) =>
      var first := GetField(s, meta, parent, place, b);
      if first.Failed? then Failed(first.error)
      else
        var others := GetMembers(s, next, parent, place, first.rest);
        if others.Failed? then others else Parsed([first.value] + others.value, others.rest)
  }
}
