/**
 Sending and receiving frames: `Frame::request` and `Frame::response` fit a public message to
 its version, make room for it, encode it and fix its length, and their counterparts decode.
 */
module Sending {
  import opened Wire
  import opened Schema
  import opened Values
  import opened Encoding
  import opened Serde
  import opened Frames
  import opened PublicMessages
  import opened Allocation
  import opened FrameRoundTrip
  import E = Encoder
  import D = Decoder

  /** Overwrite the first four bytes with the number of bytes that follow them. */
  method FixLength(encoded: bytes) returns (r: Result<bytes>)
    ensures r.Ok? <==> 4 <= |encoded| < I32_LIMIT + 4
    ensures r.Ok? ==> |r.value| == |encoded| && r.value[4..] == encoded[4..]
    ensures r.Ok? ==> GetSigned(r.value[..4]) == |r.value| - 4
  {
    Widths();
    if |encoded| < 4 {
      return Err(Panics);
    }
    var body := encoded[4..];
    if |body| >= I32_LIMIT {
      return Err(OutOfRange);
    }
    var size: bytes := PutSigned(|body|, 4);
    SignedRoundTrip(|body|, 4);
    assert (size + body)[..4] == size && (size + body)[4..] == body;
    return Ok(size + body);
  }

  lemma FixedLengthIsSize(encoded: bytes, fixed: bytes)
    requires |encoded| == |fixed| >= 4 && fixed[4..] == encoded[4..]
    requires FitsSigned(|fixed| - 4, 4) && GetSigned(fixed[..4]) == |fixed| - 4
    ensures fixed == PutSigned(|fixed| - 4, 4) + encoded[4..]
  {
    SignedCanonical(fixed[..4]);
    assert fixed == fixed[..4] + fixed[4..];
  }

  // ---- frames with their tag buffers

  method EncodeRequest(requests: map<int, MessageMeta>, h: RequestHeader, v: Value, s: Setting)
    returns (r: Result<bytes>)
    requires D.AllSound(requests) && h.apiKey in requests && h.Typed()
    requires s.version == h.apiVersion && s.flexible == requests[h.apiKey].IsFlexible(s.version)
    requires BodyTyped(s, requests[h.apiKey], v)
    ensures r.Ok? ==> |r.value| >= 4 && FitsSigned(|r.value| - 4, 4)
    ensures r.Ok? ==> PutRequest(|r.value| - 4, h, s, requests[h.apiKey], v) == Ok(r.value)
    ensures r.Err? ==>
      var put := PutRequest(0, h, s, requests[h.apiKey], v);
      put.Ok? ==> |put.value| >= I32_LIMIT + 4
  {
    Widths();
    assert D.Sound(requests[h.apiKey]);
    var m := requests[h.apiKey];
    var encoder := new E.Encoder.Request(requests);
    var image := StructImage(m.name, MembersImage(s, m.fields, None, v.members, v.tags));
    var done := encoder.SerializeRequest(0, h, image, s, m, v);
    if done.Err? {
      return Err(done.error);
    }
    r := FixLength(encoder.working);
    if r.Ok? {
      var encoded := encoder.working;
      FixedLengthIsSize(encoded, r.value);
      ghost var others := Join(PutRequestHeader(h, s.flexible), PutFrom(s, m.fields, None, v.members, v.tags)).value;
      assert encoded == PutSigned(0, 4) + others;
      assert encoded[4..] == others;
    }
  }

  method EncodeResponse(responses: map<int, MessageMeta>, apiKey: int, h: ResponseHeader, v: Value, s: Setting)
    returns (r: Result<bytes>)
    requires D.AllSound(responses) && apiKey in responses && h.Typed()
    requires s.flexible == responses[apiKey].IsFlexible(s.version) && BodyTyped(s, responses[apiKey], v)
    ensures r.Ok? ==> |r.value| >= 4 && FitsSigned(|r.value| - 4, 4)
    ensures r.Ok? ==> PutResponse(|r.value| - 4, h, Some(apiKey), s, responses[apiKey], v) == Ok(r.value)
    ensures r.Err? ==>
      var put := PutResponse(0, h, Some(apiKey), s, responses[apiKey], v);
      put.Ok? ==> |put.value| >= I32_LIMIT + 4
  {
    Widths();
    assert D.Sound(responses[apiKey]);
    var m := responses[apiKey];
    var encoder := new E.Encoder.Response(responses, apiKey, s.version);
    var image := StructImage(m.name, MembersImage(s, m.fields, None, v.members, v.tags));
    var done := encoder.SerializeResponse(0, h, image, s, m, v);
    if done.Err? {
      return Err(done.error);
    }
    r := FixLength(encoder.working);
    if r.Ok? {
      var encoded := encoder.working;
      FixedLengthIsSize(encoded, r.value);
      ghost var others := Join(PutResponseHeader(h, FlexibleHeader(apiKey, s)),
        PutFrom(s, m.fields, None, v.members, v.tags)).value;
      assert encoded == PutSigned(0, 4) + others;
      assert encoded[4..] == others;
    }
  }

  /** Decode a request as `Frame::request_from_bytes` does. */
  method ReceiveRequest(requests: map<int, MessageMeta>, utf8: bytes -> bool, encoded: bytes)
    returns (r: Result<RequestFrame>)
    requires D.AllSound(requests)
    ensures r == var p := GetRequest(requests, utf8, encoded); if p.Failed? then Err(p.error) else Ok(p.value)
  {
    var decoder := new D.Decoder.Request(encoded, requests, utf8);
    r := decoder.DeserializeRequest();
  }

  /** Decode a response as `Frame::response_from_bytes` does. */
  method ReceiveResponse(responses: map<int, MessageMeta>, apiKey: int, s: Setting, encoded: bytes)
    returns (r: Result<ResponseFrame>)
    requires D.AllSound(responses) && apiKey in responses && s.flexible == responses[apiKey].IsFlexible(s.version)
    ensures r ==
      var p := GetResponse(responses[apiKey], apiKey, s, encoded);
      if p.Failed? then Err(p.error) else Ok(p.value)
  {
    assert D.Sound(responses[apiKey]);
    var decoder := new D.Decoder.Response(encoded, responses, apiKey, s.version, s.utf8);
    r := decoder.DeserializeResponse(s, responses[apiKey]);
  }

  // ---- public messages

  predicate PublicTyped(s: Setting, encode: TagEncoder, m: MessageMeta, p: Public) {
    Settled(s, encode, p) && BodyTyped(s, m, Converted(encode, p))
  }

  /** The message that is encoded: fitted to the version, its tagged fields in tag buffers. */
  function Body(s: Setting, encode: TagEncoder, p: Public): Value {
    Converted(encode, IntoVersion(s.version, p))
  }

  lemma BodyIsTyped(s: Setting, encode: TagEncoder, m: MessageMeta, p: Public)
    requires PublicTyped(s, encode, m, p)
    ensures PublicTyped(s, encode, m, IntoVersion(s.version, p))
  {
    IntoVersionKeeps(s, encode, s.version, p);
    if p.Record? {
      TagsOfTyped(s, encode, IntoVersion(s.version, p).tagged);
    }
  }

  /** Headers have no tagged fields; their tag buffers are empty. */
  function Titled(h: RequestHeader): RequestHeader {
    h.(tags := Some([]))
  }

  function TitledResponse(correlationId: int): ResponseHeader {
    ResponseHeader(correlationId, Some([]))
  }

  /**
   Send a request as `Frame::request` does. It needs no more room than was made for it if and only if
   the room of its tagged fields holds its excess, as it does outside flexible versions.
   */
  method SendRequest(requests: map<int, MessageMeta>, encode: TagEncoder, h: RequestHeader, p: Public, s: Setting)
    returns (room: nat, r: Result<bytes>)
    requires D.AllSound(requests) && RequestHeaderTyped(s.utf8, h) && h.apiKey in requests
    requires s.version == h.apiVersion && s.flexible == requests[h.apiKey].IsFlexible(s.version)
    requires PublicTyped(s, encode, requests[h.apiKey], p)
    ensures PublicTyped(s, encode, requests[h.apiKey], IntoVersion(s.version, p))
    ensures room == RequestSpace(s, encode, requests[h.apiKey], h, IntoVersion(s.version, p))
    ensures r.Ok? ==> |r.value| >= 4 && FitsSigned(|r.value| - 4, 4)
    ensures r.Ok? ==> PutRequest(|r.value| - 4, Titled(h), s, requests[h.apiKey], Body(s, encode, p)) == Ok(r.value)
    ensures r.Ok? ==> (|r.value| <= room <==>
        RequestExcess(s, requests[h.apiKey], Titled(h), Body(s, encode, p)) <=
        Beside(s, encode, IntoVersion(s.version, p)))
    ensures r.Ok? && !s.flexible ==> |r.value| <= room
    ensures r.Err? ==>
      var put := PutRequest(0, Titled(h), s, requests[h.apiKey], Body(s, encode, p));
      put.Ok? ==> |put.value| >= I32_LIMIT + 4
  {
    var m := requests[h.apiKey];
    BodyIsTyped(s, encode, m, p);
    var fitted := IntoVersion(s.version, p);
    room := RequestSpace(s, encode, m, h, fitted);
    r := EncodeRequest(requests, Titled(h), Converted(encode, fitted), s);
    if r.Ok? {
      RequestFitsIff(|r.value| - 4, Titled(h), s, m, encode, fitted);
      if !s.flexible {
        RequestFits(|r.value| - 4, Titled(h), s, m, encode, fitted);
      }
    }
  }

  method SendResponse(responses: map<int, MessageMeta>, encode: TagEncoder, apiKey: int, correlationId: int, p: Public,
      s: Setting)
    returns (room: nat, r: Result<bytes>)
    requires D.AllSound(responses) && apiKey in responses && FitsSigned(correlationId, 4)
    requires s.flexible == responses[apiKey].IsFlexible(s.version) && PublicTyped(s, encode, responses[apiKey], p)
    ensures PublicTyped(s, encode, responses[apiKey], IntoVersion(s.version, p))
    ensures room == ResponseSpace(s, encode, responses[apiKey], IntoVersion(s.version, p))
    ensures r.Ok? ==> |r.value| >= 4 && FitsSigned(|r.value| - 4, 4)
    ensures r.Ok? ==>
      PutResponse(|r.value| - 4, TitledResponse(correlationId), Some(apiKey), s, responses[apiKey],
        Body(s, encode, p)) == Ok(r.value)
    ensures r.Ok? ==> (|r.value| <= room <==>
        ResponseExcess(s, responses[apiKey], Some(apiKey), TitledResponse(correlationId), Body(s, encode, p)) <=
        Beside(s, encode, IntoVersion(s.version, p)))
    ensures r.Ok? && !s.flexible ==> |r.value| <= room
    ensures r.Err? ==>
      var put := PutResponse(0, TitledResponse(correlationId), Some(apiKey), s, responses[apiKey], Body(s, encode, p));
      put.Ok? ==> |put.value| >= I32_LIMIT + 4
  {
    var m, h := responses[apiKey], TitledResponse(correlationId);
    BodyIsTyped(s, encode, m, p);
    var fitted := IntoVersion(s.version, p);
    room := ResponseSpace(s, encode, m, fitted);
    r := EncodeResponse(responses, apiKey, h, Converted(encode, fitted), s);
    if r.Ok? {
      ResponseFitsIff(|r.value| - 4, h, Some(apiKey), s, m, encode, fitted);
      if !s.flexible {
        ResponseFits(|r.value| - 4, h, Some(apiKey), s, m, encode, fitted);
      }
    }
  }

  // ---- sent and received

  /**
   A request that was sent is received as it was encoded, its size that of what followed it
   and without the tag buffers its version has none of, if and only if the rest is well formed.
   */
  method SendThenReceive(requests: map<int, MessageMeta>, encode: TagEncoder, h: RequestHeader, p: Public, s: Setting)
    returns (sent: Result<bytes>, received: Result<RequestFrame>)
    requires D.AllSound(requests) && RequestHeaderTyped(s.utf8, h) && h.apiKey in requests && s.Valid()
    requires s.version == h.apiVersion && s.flexible == requests[h.apiKey].IsFlexible(s.version)
    requires PublicTyped(s, encode, requests[h.apiKey], p)
    ensures RequestTyped(requests, Titled(h), s, Body(s, encode, p))
    ensures sent.Ok? ==> (
        received == Ok(RequestAsRead(s, |sent.value| - 4, Titled(h), Body(s, encode, p))) <==>
        RequestOk(requests, Titled(h), s, Body(s, encode, p)))
  {
    assert D.Sound(requests[h.apiKey]);
    BodyIsTyped(s, encode, requests[h.apiKey], p);
    var room;
    room, sent := SendRequest(requests, encode, h, p, s);
    received := Err(EndOfInput);
    if sent.Ok? {
      ReceivedIffWellFormed(requests, Titled(h), s, Body(s, encode, p), sent.value);
      received := ReceiveRequest(requests, s.utf8, sent.value);
    }
  }

  method SendThenReceiveResponse(responses: map<int, MessageMeta>, encode: TagEncoder, apiKey: int, correlationId: int,
      p: Public, s: Setting)
    returns (sent: Result<bytes>, received: Result<ResponseFrame>)
    requires D.AllSound(responses) && apiKey in responses && FitsSigned(correlationId, 4) && s.Valid()
    requires s.flexible == responses[apiKey].IsFlexible(s.version) && PublicTyped(s, encode, responses[apiKey], p)
    ensures ResponseTyped(responses[apiKey], TitledResponse(correlationId), s, Body(s, encode, p))
    ensures sent.Ok? ==> (
        received ==
        Ok(ResponseAsRead(s, apiKey, |sent.value| - 4, TitledResponse(correlationId), Body(s, encode, p))) <==>
        ResponseOk(responses[apiKey], apiKey, TitledResponse(correlationId), s, Body(s, encode, p)))
  {
    assert D.Sound(responses[apiKey]);
    BodyIsTyped(s, encode, responses[apiKey], p);
    var room;
    room, sent := SendResponse(responses, encode, apiKey, correlationId, p, s);
    received := Err(EndOfInput);
    if sent.Ok? {
      ResponseReceivedIffWellFormed(responses[apiKey], apiKey, TitledResponse(correlationId), s, Body(s, encode, p),
        sent.value);
      received := ReceiveResponse(responses, apiKey, s, sent.value);
    }
  }
}
