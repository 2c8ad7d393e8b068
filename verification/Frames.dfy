/**
 Frames: a size, a header and a body. What is written for one, and the conditions on names
 under which the codec, which finds everything by name, finds the right thing.
 */
module Frames {
  import opened Wire
  import opened Schema
  import opened Values
  import opened Encoding
  import opened Decoding
  import opened Serde

  datatype Direction = Request | Response

  const CLIENT_ID := "client_id"
  const API_VERSIONS := 18

  // ---- names that lead to one field each

  /** Looking up each of these fields by name in `all` finds that field. */
  predicate Resolves(all: Fields, fs: Fields)
  {
    fs.Field? ==> all.Find(fs.name) == Some(fs.meta) && Resolves(all, fs.next)
  }

  /** Field names are distinct within a structure, and structures are not named like fields. */
  predicate ClearFields(root: Fields, fs: Fields)
    decreases fs, 1
  {
    Resolves(fs, fs) && fs.Find(TAG_BUFFER).None? && EachClear(root, fs)
  }

  predicate EachClear(root: Fields, fs: Fields)
    decreases fs, 0
  {
    fs.Field? ==> ClearField(root, fs.meta) && EachClear(root, fs.next)
  }

  predicate ClearField(root: Fields, f: FieldMeta)
    decreases f
  {
    && (f.kind.elem.Structure? ==>
          && root.Find(f.kind.elem.name).None?
          && f.fields.Find(f.kind.elem.name).None?
          && ClearFields(root, f.fields))
    && (f.kind.elem.Records? ==> forall name :: name in BATCH_NAMES ==> root.Find(name).None?)
  }

  /** What a record frame and its batches are named, and their members that the codec looks up. */
  const BATCH_NAMES := {
    "Frame", "batches", "Batch", "base_offset", "batch_length", "partition_leader_epoch", "magic", "crc", "attributes",
    "last_offset_delta", "base_timestamp", "max_timestamp", "producer_id", "producer_epoch", "base_sequence",
    "record_count", "record_data"
  }

  /** What is written for the members of a structure from this one on, and its tag buffer. */
  ghost function PutFrom(s: Setting, fs: Fields, parent: Option<VersionRange>, vs: seq<Value>,
      tags: Option<Tags>): Result<bytes>
    requires MembersTyped(s, fs, parent, vs)
  {
    Join(PutMembers(s, fs, parent, vs), PutTags(s, tags))
  }

  lemma PutFromSteps(s: Setting, fs: Fields, parent: Option<VersionRange>, vs: seq<Value>, tags: Option<Tags>)
    requires fs.Field? && MembersTyped(s, fs, parent, vs)
    ensures PutFrom(s, fs, parent, vs, tags) ==
      Join(PutField(s, fs.meta, parent, vs[0]), PutFrom(s, fs.next, parent, vs[1..], tags))
  {
    var a, b, c := PutField(s, fs.meta, parent, vs[0]), PutMembers(s, fs.next, parent, vs[1..]), PutTags(s, tags);
    assert PutMembers(s, fs, parent, vs) == Join(a, b);
    JoinAssociates(a, b, c);
  }

  // ---- frames

  /** The header of a request, with the tag buffer that flexible versions add. */
  datatype RequestHeader = RequestHeader(apiKey: int, apiVersion: int, correlationId: int, clientId: Option<bytes>,
    tags: Option<Tags>) {
    predicate Typed() {
      && FitsSigned(apiKey, 2) && FitsSigned(apiVersion, 2) && FitsSigned(correlationId, 4)
      && (tags.Some? ==> TagsTyped(tags.value))
    }
  }

  datatype ResponseHeader = ResponseHeader(correlationId: int, tags: Option<Tags>) {
    predicate Typed() {
      FitsSigned(correlationId, 4) && (tags.Some? ==> TagsTyped(tags.value))
    }
  }

  /** No field of the message is named like a member of the frame or of its header. */
  predicate ClearOfFrame(root: Fields)
  {
    && root.Find("size").None? && root.Find("header").None? && root.Find("body").None?
    && root.Find("api_key").None? && root.Find("api_version").None? && root.Find("correlation_id").None?
    && root.Find(CLIENT_ID).None? && root.Find(TAG_BUFFER).None?
  }

  predicate ClearMessage(m: MessageMeta)
  {
    && ClearFields(m.fields, m.fields) && ClearOfFrame(m.fields)
    && m.fields.Find(m.name).None? && m.fields.Find("Frame").None?
  }

  function PutClientId(clientId: Option<bytes>): Result<bytes>
  {
    if clientId.None? then Widths(); Ok(PutSigned(-1, 2))
    else if FitsSigned(|clientId.value|, 2) then Ok(PutSigned(|clientId.value|, 2) + clientId.value)
    else Err(OutOfRange)
  }

  function PutHeaderNumbers(h: RequestHeader): bytes
    requires h.Typed()
  {
    PutSigned(h.apiKey, 2) + PutSigned(h.apiVersion, 2) + PutSigned(h.correlationId, 4)
  }

  function PutRequestHeader(h: RequestHeader, flexible: bool): Result<bytes>
    requires h.Typed()
  {
    Join(Ok(PutHeaderNumbers(h)), Join(PutClientId(h.clientId), PutTags(Setting(0, flexible, _ => true), h.tags)))
  }

  function PutResponseHeader(h: ResponseHeader, flexible: bool): Result<bytes>
    requires h.Typed()
  {
    Join(Ok(PutSigned(h.correlationId, 4)), PutTags(Setting(0, flexible, _ => true), h.tags))
  }

  ghost function PutRequest(size: int, h: RequestHeader, s: Setting, m: MessageMeta, v: Value): Result<bytes>
    requires FitsSigned(size, 4) && h.Typed() && v.Struct? && MembersTyped(s, m.fields, None, v.members)
  {
    Join(Ok(PutSigned(size, 4)), Join(PutRequestHeader(h, s.flexible), PutFrom(s, m.fields, None, v.members, v.tags)))
  }

  ghost function PutResponse(size: int, h: ResponseHeader, apiKey: Option<int>, s: Setting, m: MessageMeta,
      v: Value): Result<bytes>
    requires FitsSigned(size, 4) && h.Typed() && v.Struct? && MembersTyped(s, m.fields, None, v.members)
  {
    Join(Ok(PutSigned(size, 4)),
      Join(PutResponseHeader(h, apiKey != Some(API_VERSIONS) && s.flexible),
        PutFrom(s, m.fields, None, v.members, v.tags)))
  }

  // ---- reading

  datatype RequestFrame = RequestFrame(size: int, header: RequestHeader, body: Value)

  datatype ResponseFrame = ResponseFrame(size: int, header: ResponseHeader, body: Value)

  /** The client id has a two byte length in every version. */
  function GetClientId(utf8: bytes -> bool, b: bytes): Parsed<Option<bytes>>
  {
    var p := GetNullableText(Setting(0, false, utf8), b);
    if p.Failed? then Failed(p.error)
    else Parsed(if p.value.Just? && p.value.value.Str? then Some(p.value.value.text) else None, p.rest)
  }

  function GetStruct(s: Setting, fs: Fields, b: bytes): Parsed<Value>
  {
    var members := GetMembers(s, fs, None, Top, b);
    if members.Failed? then Failed(members.error)
    else
      var tags := GetTags(s, members.rest);
      if tags.Failed? then Failed(tags.error) else Parsed(Struct(members.value, tags.value), tags.rest)
  }

  function GetNumber(prim: Prim, b: bytes): (p: Parsed<int>)
    requires prim.Int16? || prim.Int32?
    ensures p.Parsed? ==> FitsSigned(p.value, Width(prim)) && |b| - |p.rest| == Width(prim)
  {
    var n := GetPrim(prim, b);
    if n.Failed? then Failed(n.error) else Parsed(n.value.n, n.rest)
  }

  /** The message a key stands for decides whether its version is flexible. */
  predicate FlexibleRequest(requests: map<int, MessageMeta>, apiKey: int, version: int)
  {
    apiKey in requests && requests[apiKey].IsFlexible(version)
  }

  function GetHeaderNumbers(b: bytes): Parsed<(int, int, int)>
  {
    var key := GetNumber(Int16, b);
    if key.Failed? then Failed(key.error) else
    var version := GetNumber(Int16, key.rest);
    if version.Failed? then Failed(version.error) else
    var correlation := GetNumber(Int32, version.rest);
    if correlation.Failed? then Failed(correlation.error)
    else Parsed((key.value, version.value, correlation.value), correlation.rest)
  }

  function GetHeaderTail(flexible: bool, utf8: bytes -> bool, b: bytes): Parsed<(Option<bytes>, Option<Tags>)>
  {
    var client := GetClientId(utf8, b);
    if client.Failed? then Failed(client.error) else
    var tags := GetTags(Setting(0, flexible, utf8), client.rest);
    if tags.Failed? then Failed(tags.error) else Parsed((client.value, tags.value), tags.rest)
  }

  function GetRequestHeader(requests: map<int, MessageMeta>, utf8: bytes -> bool, b: bytes): Parsed<RequestHeader>
  {
    var numbers := GetHeaderNumbers(b);
    if numbers.Failed? then Failed(numbers.error) else
    var (key, version, correlation) := numbers.value;
    var tail := GetHeaderTail(FlexibleRequest(requests, key, version), utf8, numbers.rest);
    if tail.Failed? then Failed(tail.error)
    else Parsed(RequestHeader(key, version, correlation, tail.value.0, tail.value.1), tail.rest)
  }

  function GetRequest(requests: map<int, MessageMeta>, utf8: bytes -> bool, b: bytes): Parsed<RequestFrame>
  {
    var size := GetNumber(Int32, b);
    if size.Failed? then Failed(size.error) else GetSized(requests, utf8, size.value, size.rest)
  }

  /** What follows the size of a request: the header, and the body it announces. */
  function GetSized(requests: map<int, MessageMeta>, utf8: bytes -> bool, size: int, b: bytes): Parsed<RequestFrame>
  {
    var header := GetRequestHeader(requests, utf8, b);
    if header.Failed? then Failed(header.error) else GetAnnounced(requests, utf8, size, header.value, header.rest)
  }

  /** The body of the message that the header announces, if there is such a message. */
  function GetAnnounced(requests: map<int, MessageMeta>, utf8: bytes -> bool, size: int, h: RequestHeader,
      b: bytes): Parsed<RequestFrame>
  {
    if h.apiKey !in requests then Failed(UnknownMessage) else
    var m := requests[h.apiKey];
    var body := GetStruct(Setting(h.apiVersion, m.IsFlexible(h.apiVersion), utf8), m.fields, b);
    if body.Failed? then Failed(body.error) else Parsed(RequestFrame(size, h, body.value), body.rest)
  }

  function GetResponseHeader(flexible: bool, b: bytes): Parsed<ResponseHeader>
  {
    var correlation := GetNumber(Int32, b);
    if correlation.Failed? then Failed(correlation.error) else
    var tags := GetTags(Setting(0, flexible, _ => true), correlation.rest);
    if tags.Failed? then Failed(tags.error) else Parsed(ResponseHeader(correlation.value, tags.value), tags.rest)
  }

  function GetResponse(m: MessageMeta, apiKey: int, s: Setting, b: bytes): Parsed<ResponseFrame>
  {
    var size := GetNumber(Int32, b);
    if size.Failed? then Failed(size.error) else GetSizedResponse(m, apiKey, s, size.value, size.rest)
  }

  function GetSizedResponse(m: MessageMeta, apiKey: int, s: Setting, size: int, b: bytes): Parsed<ResponseFrame>
  {
    var header := GetResponseHeader(apiKey != API_VERSIONS && s.flexible, b);
    if header.Failed? then Failed(header.error) else
    var body := GetStruct(s, m.fields, header.rest);
    if body.Failed? then Failed(body.error) else Parsed(ResponseFrame(size, header.value, body.value), body.rest)
  }
}
