/**
 Whole frames: exactly which requests and responses survive the codec, and what comes back.
 */
module FrameRoundTrip {
  import opened Wire
  import opened Schema
  import opened Values
  import opened Encoding
  import opened Decoding
  import opened RoundTrip
  import opened Frames

  // ---- bodies

  predicate BodyTyped(s: Setting, m: MessageMeta, v: Value)
  {
    v.Struct? && MembersTyped(s, m.fields, None, v.members) && (v.tags.Some? ==> TagsTyped(v.tags.value))
  }

  predicate BodyOk(s: Setting, m: MessageMeta, v: Value)
    requires BodyTyped(s, m, v)
  {
    MembersOk(s, m.fields, None, Top, v.members) && TagsOk(s, v.tags)
  }

  lemma {:induction false} StructRoundTrip(s: Setting, fs: Fields, members: seq<Value>, tags: Option<Tags>, rest: bytes)
    requires s.Valid() && fs.Proper() && MembersTyped(s, fs, None, members) && (tags.Some? ==> TagsTyped(tags.value))
    requires MembersOk(s, fs, None, Top, members) && TagsOk(s, tags)
    ensures PutFrom(s, fs, None, members, tags).Ok?
    ensures GetStruct(s, fs, PutFrom(s, fs, None, members, tags).value + rest) == Parsed(Struct(members, tags), rest)
  {
    TagsRoundTrip(s, tags, rest);
    var putTags := PutTags(s, tags).value;
    MembersRoundTrip(s, fs, None, Top, members, putTags + rest);
    var putMembers := PutMembers(s, fs, None, members).value;
    Associate(putMembers, putTags, rest);
    StructOfParts(s, fs, putMembers + putTags + rest, members, putTags + rest, tags, rest);
  }

  lemma {:induction false} StructOfParts(s: Setting, fs: Fields, b: bytes, members: seq<Value>, mid: bytes,
      tags: Option<Tags>, rest: bytes)
    requires GetMembers(s, fs, None, Top, b) == Parsed(members, mid) && GetTags(s, mid) == Parsed(tags, rest)
    ensures GetStruct(s, fs, b) == Parsed(Struct(members, tags), rest)
  {
  }

  lemma {:induction false} BodyRoundTrip(s: Setting, m: MessageMeta, v: Value, rest: bytes)
    requires s.Valid() && m.fields.Proper() && BodyTyped(s, m, v) && BodyOk(s, m, v)
    ensures PutFrom(s, m.fields, None, v.members, v.tags).Ok?
    ensures GetStruct(s, m.fields, PutFrom(s, m.fields, None, v.members, v.tags).value + rest) == Parsed(v, rest)
  {
    StructRoundTrip(s, m.fields, v.members, v.tags, rest);
  }

  lemma {:induction false} BodyCost(s: Setting, m: MessageMeta, b: bytes)
    requires s.Valid() && m.fields.Proper() && GetStruct(s, m.fields, b).Parsed?
    requires BodyTyped(s, m, GetStruct(s, m.fields, b).value)
    requires var v := GetStruct(s, m.fields, b).value; PutFrom(s, m.fields, None, v.members, v.tags).Ok?
    ensures var p := GetStruct(s, m.fields, b);
      var put := PutFrom(s, m.fields, None, p.value.members, p.value.tags).value;
      Used(b, p) >= |put| && (Used(b, p) == |put| ==> BodyOk(s, m, p.value))
  {
    MembersCost(s, m.fields, None, Top, b);
    TagsCost(s, GetMembers(s, m.fields, None, Top, b).rest);
  }

  // ---- headers

  predicate RequestHeaderTyped(utf8: bytes -> bool, h: RequestHeader)
  {
    h.Typed() && (h.clientId.Some? ==> utf8(h.clientId.value))
  }

  predicate RequestHeaderOk(h: RequestHeader, flexible: bool)
  {
    (h.clientId.Some? ==> |h.clientId.value| < I16_LIMIT) && TagsOk(Setting(0, flexible, _ => true), h.tags)
  }

  lemma NumberRoundTrip(prim: Prim, n: int, rest: bytes)
    requires (prim.Int16? || prim.Int32?) && FitsSigned(n, Width(prim))
    ensures GetNumber(prim, PutSigned(n, Width(prim)) + rest) == Parsed(n, rest)
  {
    PrimRoundTrip(prim, Num(n), rest);
  }

  lemma ClientIdRoundTrip(utf8: bytes -> bool, clientId: Option<bytes>, rest: bytes)
    requires clientId.Some? ==> utf8(clientId.value) && |clientId.value| < I16_LIMIT
    ensures PutClientId(clientId).Ok?
    ensures GetClientId(utf8, PutClientId(clientId).value + rest) == Parsed(clientId, rest)
  {
    Widths();
    if clientId.Some? {
      NullableTextRoundTrip(Setting(0, false, utf8), clientId.value, rest);
    } else {
      TakeFront(PutSigned(-1, 2), rest);
      SignedRoundTrip(-1, 2);
    }
  }

  lemma ClientIdCost(utf8: bytes -> bool, b: bytes)
    requires GetClientId(utf8, b).Parsed?
    ensures var p := GetClientId(utf8, b);
      PutClientId(p.value).Ok? && Used(b, p) >= |PutClientId(p.value).value| &&
        (p.value.Some? ==> |p.value.value| < I16_LIMIT)
  {
    Widths();
    var s := Setting(0, false, utf8);
    if GetNullableText(s, b).value.Just? {
      NullableTextCost(s, b);
    }
  }

  lemma HeaderNumbersRoundTrip(h: RequestHeader, rest: bytes)
    requires h.Typed()
    ensures GetHeaderNumbers(PutHeaderNumbers(h) + rest) == Parsed((h.apiKey, h.apiVersion, h.correlationId), rest)
  {
    var a, b, c := PutSigned(h.apiKey, 2), PutSigned(h.apiVersion, 2), PutSigned(h.correlationId, 4);
    assert PutHeaderNumbers(h) + rest == a + (b + (c + rest));
    NumberRoundTrip(Int16, h.apiKey, b + (c + rest));
    NumberRoundTrip(Int16, h.apiVersion, c + rest);
    NumberRoundTrip(Int32, h.correlationId, rest);
  }

  /** PutTags and GetTags look at the flexible flag only. */
  lemma TagsIgnoreTheRest(s: Setting, t: Setting, tags: Option<Tags>, b: bytes)
    requires s.flexible == t.flexible
    ensures PutTags(s, tags) == PutTags(t, tags) && GetTags(s, b) == GetTags(t, b)
    ensures TagsOk(s, tags) <==> TagsOk(t, tags)
  {}

  lemma {:induction false} HeaderTailRoundTrip(utf8: bytes -> bool, h: RequestHeader, flexible: bool, rest: bytes)
    requires RequestHeaderTyped(utf8, h) && RequestHeaderOk(h, flexible)
    ensures var put := Join(PutClientId(h.clientId), PutTags(Setting(0, flexible, _ => true), h.tags));
      put.Ok? && GetHeaderTail(flexible, utf8, put.value + rest) == Parsed((h.clientId, h.tags), rest)
  {
    var s := Setting(0, flexible, _ => true);
    TagsRoundTrip(s, h.tags, rest);
    var tags := PutTags(s, h.tags).value;
    ClientIdRoundTrip(utf8, h.clientId, tags + rest);
    var client := PutClientId(h.clientId).value;
    Associate(client, tags, rest);
    TagsIgnoreTheRest(s, Setting(0, flexible, utf8), h.tags, tags + rest);
  }

  lemma {:induction false} RequestHeaderRoundTrip(requests: map<int, MessageMeta>, utf8: bytes -> bool,
      h: RequestHeader, rest: bytes)
    requires RequestHeaderTyped(utf8, h) && RequestHeaderOk(h, FlexibleRequest(requests, h.apiKey, h.apiVersion))
    ensures var put := PutRequestHeader(h, FlexibleRequest(requests, h.apiKey, h.apiVersion));
      put.Ok? && GetRequestHeader(requests, utf8, put.value + rest) == Parsed(h, rest)
  {
    var flexible := FlexibleRequest(requests, h.apiKey, h.apiVersion);
    HeaderTailRoundTrip(utf8, h, flexible, rest);
    var tail := Join(PutClientId(h.clientId), PutTags(Setting(0, flexible, _ => true), h.tags)).value;
    HeaderNumbersRoundTrip(h, tail + rest);
    Associate(PutHeaderNumbers(h), tail, rest);
    HeaderOfParts(requests, utf8, h, PutHeaderNumbers(h) + tail + rest, tail + rest, rest);
  }

  lemma {:induction false} HeaderOfParts(requests: map<int, MessageMeta>, utf8: bytes -> bool, h: RequestHeader,
      b: bytes, mid: bytes, rest: bytes)
    requires GetHeaderNumbers(b) == Parsed((h.apiKey, h.apiVersion, h.correlationId), mid)
    requires GetHeaderTail(FlexibleRequest(requests, h.apiKey, h.apiVersion), utf8, mid) ==
      Parsed((h.clientId, h.tags), rest)
    ensures GetRequestHeader(requests, utf8, b) == Parsed(h, rest)
  {
  }

  lemma RequestHeaderCost(requests: map<int, MessageMeta>, utf8: bytes -> bool, b: bytes)
    requires GetRequestHeader(requests, utf8, b).Parsed? && GetRequestHeader(requests, utf8, b).value.Typed()
    ensures var p := GetRequestHeader(requests, utf8, b);
      var flexible := FlexibleRequest(requests, p.value.apiKey, p.value.apiVersion);
      var put := PutRequestHeader(p.value, flexible);
      RequestHeaderOk(p.value, flexible) && put.Ok? && Used(b, p) >= |put.value|
  {
    var numbers := GetHeaderNumbers(b);
    ClientIdCost(utf8, numbers.rest);
    var p := GetRequestHeader(requests, utf8, b);
    var flexible := FlexibleRequest(requests, p.value.apiKey, p.value.apiVersion);
    var rest := GetClientId(utf8, numbers.rest).rest;
    TagsCost(Setting(0, flexible, utf8), rest);
    TagsIgnoreTheRest(Setting(0, flexible, _ => true), Setting(0, flexible, utf8), p.value.tags, rest);
  }

  // ---- frames

  ghost predicate RequestSurvives(requests: map<int, MessageMeta>, size: int, h: RequestHeader, s: Setting, v: Value,
      rest: bytes)
    requires FitsSigned(size, 4) && h.Typed() && h.apiKey in requests && BodyTyped(s, requests[h.apiKey], v)
  {
    var put := PutRequest(size, h, s, requests[h.apiKey], v);
    put.Ok? && GetRequest(requests, s.utf8, put.value + rest) == Parsed(RequestFrame(size, h, v), rest)
  }

  /** The request's version is that of its message, and everything in it has its generated type. */
  predicate RequestTyped(requests: map<int, MessageMeta>, h: RequestHeader, s: Setting, v: Value)
  {
    && RequestHeaderTyped(s.utf8, h)
    && h.apiKey in requests && requests[h.apiKey].fields.Proper()
    && s.Valid() && s.version == h.apiVersion && s.flexible == requests[h.apiKey].IsFlexible(s.version)
    && BodyTyped(s, requests[h.apiKey], v)
  }

  lemma Reassociate(a: bytes, b: bytes, c: bytes, d: bytes)
    ensures a + (b + c) + d == a + (b + (c + d))
  {}

  lemma {:induction false} RequestRoundTrip(requests: map<int, MessageMeta>, size: int, h: RequestHeader, s: Setting,
      v: Value, rest: bytes)
    requires FitsSigned(size, 4) && RequestTyped(requests, h, s, v)
    requires RequestHeaderOk(h, s.flexible) && BodyOk(s, requests[h.apiKey], v)
    ensures RequestSurvives(requests, size, h, s, v, rest)
  {
    var m := requests[h.apiKey];
    BodyRoundTrip(s, m, v, rest);
    var body := PutFrom(s, m.fields, None, v.members, v.tags).value;
    RequestHeaderRoundTrip(requests, s.utf8, h, body + rest);
    var header := PutRequestHeader(h, s.flexible).value;
    NumberRoundTrip(Int32, size, header + (body + rest));
    Reassociate(PutSigned(size, 4), header, body, rest);
  }

  lemma {:induction false} RequestCost(requests: map<int, MessageMeta>, size: int, h: RequestHeader, s: Setting,
      v: Value, rest: bytes)
    requires FitsSigned(size, 4) && RequestTyped(requests, h, s, v)
    requires RequestSurvives(requests, size, h, s, v, rest)
    ensures RequestHeaderOk(h, s.flexible) && BodyOk(s, requests[h.apiKey], v)
  {
    var m := requests[h.apiKey];
    var b := PutRequest(size, h, s, m, v).value + rest;
    var afterSize := GetNumber(Int32, b).rest;
    RequestHeaderCost(requests, s.utf8, afterSize);
    BodyCost(s, m, GetRequestHeader(requests, s.utf8, afterSize).rest);
  }

  /** A request frame survives the codec if and only if its header and body are well formed. */
  lemma {:induction false} RequestSurvivesIffWellFormed(
    requests: map<int, MessageMeta>, size: int, h: RequestHeader, s: Setting, v: Value, rest: bytes)
    requires FitsSigned(size, 4) && RequestTyped(requests, h, s, v)
    ensures RequestSurvives(requests, size, h, s, v, rest) <==>
      RequestHeaderOk(h, s.flexible) && BodyOk(s, requests[h.apiKey], v)
  {
    if RequestHeaderOk(h, s.flexible) && BodyOk(s, requests[h.apiKey], v) {
      RequestRoundTrip(requests, size, h, s, v, rest);
    } else if RequestSurvives(requests, size, h, s, v, rest) {
      RequestCost(requests, size, h, s, v, rest);
    }
  }

  predicate ResponseHeaderOk(h: ResponseHeader, flexible: bool)
  {
    TagsOk(Setting(0, flexible, _ => true), h.tags)
  }

  lemma ResponseHeaderRoundTrip(h: ResponseHeader, flexible: bool, rest: bytes)
    requires h.Typed() && ResponseHeaderOk(h, flexible)
    ensures PutResponseHeader(h, flexible).Ok?
    ensures GetResponseHeader(flexible, PutResponseHeader(h, flexible).value + rest) == Parsed(h, rest)
  {
    var s := Setting(0, flexible, _ => true);
    TagsRoundTrip(s, h.tags, rest);
    var tags := PutTags(s, h.tags).value;
    NumberRoundTrip(Int32, h.correlationId, tags + rest);
    assert PutSigned(h.correlationId, 4) + tags + rest == PutSigned(h.correlationId, 4) + (tags + rest);
  }

  ghost predicate ResponseSurvives(m: MessageMeta, apiKey: int, size: int, h: ResponseHeader, s: Setting, v: Value,
      rest: bytes)
    requires FitsSigned(size, 4) && h.Typed() && BodyTyped(s, m, v)
  {
    var put := PutResponse(size, h, Some(apiKey), s, m, v);
    put.Ok? && GetResponse(m, apiKey, s, put.value + rest) == Parsed(ResponseFrame(size, h, v), rest)
  }

  lemma {:induction false} ResponseRoundTrip(m: MessageMeta, apiKey: int, size: int, h: ResponseHeader, s: Setting,
      v: Value, rest: bytes)
    requires FitsSigned(size, 4) && h.Typed() && m.fields.Proper() && s.Valid() && BodyTyped(s, m, v)
    requires ResponseHeaderOk(h, apiKey != API_VERSIONS && s.flexible) && BodyOk(s, m, v)
    ensures ResponseSurvives(m, apiKey, size, h, s, v, rest)
  {
    BodyRoundTrip(s, m, v, rest);
    var body := PutFrom(s, m.fields, None, v.members, v.tags).value;
    var flexible := apiKey != API_VERSIONS && s.flexible;
    ResponseHeaderRoundTrip(h, flexible, body + rest);
    var header := PutResponseHeader(h, flexible).value;
    NumberRoundTrip(Int32, size, header + (body + rest));
    Reassociate(PutSigned(size, 4), header, body, rest);
  }

  lemma {:induction false} ResponseCost(m: MessageMeta, apiKey: int, size: int, h: ResponseHeader, s: Setting,
      v: Value, rest: bytes)
    requires FitsSigned(size, 4) && h.Typed() && m.fields.Proper() && s.Valid() && BodyTyped(s, m, v)
    requires ResponseSurvives(m, apiKey, size, h, s, v, rest)
    ensures ResponseHeaderOk(h, apiKey != API_VERSIONS && s.flexible) && BodyOk(s, m, v)
  {
    var flexible := apiKey != API_VERSIONS && s.flexible;
    var b := PutResponse(size, h, Some(apiKey), s, m, v).value + rest;
    var afterSize := GetNumber(Int32, b).rest;
    TagsCost(Setting(0, flexible, _ => true), GetNumber(Int32, afterSize).rest);
    BodyCost(s, m, GetResponseHeader(flexible, afterSize).rest);
  }

  /** The same for a response, whose header is flexible unless it answers ApiVersions. */
  lemma {:induction false} ResponseSurvivesIffWellFormed(
    m: MessageMeta, apiKey: int, size: int, h: ResponseHeader, s: Setting, v: Value, rest: bytes)
    requires FitsSigned(size, 4) && h.Typed() && m.fields.Proper() && s.Valid() && BodyTyped(s, m, v)
    ensures ResponseSurvives(m, apiKey, size, h, s, v, rest) <==>
      ResponseHeaderOk(h, apiKey != API_VERSIONS && s.flexible) && BodyOk(s, m, v)
  {
    if ResponseHeaderOk(h, apiKey != API_VERSIONS && s.flexible) && BodyOk(s, m, v) {
      ResponseRoundTrip(m, apiKey, size, h, s, v, rest);
    } else if ResponseSurvives(m, apiKey, size, h, s, v, rest) {
      ResponseCost(m, apiKey, size, h, s, v, rest);
    }
  }

  // ---- what comes back

  function TagsAsRead(flexible: bool, tags: Option<Tags>): Option<Tags> {
    if flexible then tags else None
  }

  /** The body, the headers as they are read: without tag buffers where the version has none. */
  function BodyAsRead(s: Setting, v: Value): Value
    requires v.Struct?
  {
    Struct(AsRead(s, v.members), TagsAsRead(s.flexible, v.tags))
  }

  function RequestHeaderAsRead(flexible: bool, h: RequestHeader): RequestHeader {
    h.(tags := TagsAsRead(flexible, h.tags))
  }

  function ResponseHeaderAsRead(flexible: bool, h: ResponseHeader): ResponseHeader {
    h.(tags := TagsAsRead(flexible, h.tags))
  }

  lemma BodyAsReadIsWritten(s: Setting, m: MessageMeta, v: Value)
    requires BodyTyped(s, m, v)
    ensures BodyTyped(s, m, BodyAsRead(s, v))
    ensures
      var r := BodyAsRead(s, v);
      PutFrom(s, m.fields, None, r.members, r.tags) == PutFrom(s, m.fields, None, v.members, v.tags)
  {
    AsReadIsWritten(s, m.fields, v.members);
  }

  function RequestAsRead(s: Setting, size: int, h: RequestHeader, v: Value): RequestFrame
    requires v.Struct?
  {
    RequestFrame(size, RequestHeaderAsRead(s.flexible, h), BodyAsRead(s, v))
  }

  /** What comes back of a request is well formed. */
  predicate RequestOk(requests: map<int, MessageMeta>, h: RequestHeader, s: Setting, v: Value)
    requires RequestTyped(requests, h, s, v)
  {
    BodyAsReadIsWritten(s, requests[h.apiKey], v);
    RequestHeaderOk(RequestHeaderAsRead(s.flexible, h), s.flexible) && BodyOk(s, requests[h.apiKey], BodyAsRead(s, v))
  }

  /**
   A request frame, with the tag buffers that are always handed to the encoder, comes back
   without those its version has none of, if and only if what comes back is well formed.
   */
  lemma {:induction false} RequestReturnsIffWellFormed(
    requests: map<int, MessageMeta>, size: int, h: RequestHeader, s: Setting, v: Value, rest: bytes)
    requires FitsSigned(size, 4) && RequestTyped(requests, h, s, v)
    ensures
      var put := PutRequest(size, h, s, requests[h.apiKey], v);
      put.Ok? && GetRequest(requests, s.utf8, put.value + rest) == Parsed(RequestAsRead(s, size, h, v), rest) <==>
      RequestOk(requests, h, s, v)
  {
    BodyAsReadIsWritten(s, requests[h.apiKey], v);
    RequestSurvivesIffWellFormed(requests, size, RequestHeaderAsRead(s.flexible, h), s, BodyAsRead(s, v), rest);
  }

  /** A frame that is read takes at least the bytes that are written for it. */
  lemma {:induction false} RequestTakes(requests: map<int, MessageMeta>, s: Setting, size: int, h: RequestHeader,
      v: Value, b: bytes)
    requires FitsSigned(size, 4) && RequestTyped(requests, h, s, v)
    requires GetRequest(requests, s.utf8, b).Parsed?
    requires GetRequest(requests, s.utf8, b).value == RequestFrame(size, h, v)
    requires PutRequest(size, h, s, requests[h.apiKey], v).Ok?
    ensures Used(b, GetRequest(requests, s.utf8, b)) >= |PutRequest(size, h, s, requests[h.apiKey], v).value|
  {
    var m := requests[h.apiKey];
    var afterSize := GetNumber(Int32, b).rest;
    RequestHeaderCost(requests, s.utf8, afterSize);
    BodyCost(s, m, GetRequestHeader(requests, s.utf8, afterSize).rest);
  }

  /** What is received from exactly the bytes that were sent. */
  lemma {:induction false} ReceivedIffWellFormed(requests: map<int, MessageMeta>, h: RequestHeader, s: Setting,
      v: Value, sent: bytes)
    requires RequestTyped(requests, h, s, v) && |sent| >= 4 && FitsSigned(|sent| - 4, 4)
    requires PutRequest(|sent| - 4, h, s, requests[h.apiKey], v) == Ok(sent)
    ensures
      var got := GetRequest(requests, s.utf8, sent);
      got.Parsed? && got.value == RequestAsRead(s, |sent| - 4, h, v) <==> RequestOk(requests, h, s, v)
  {
    RequestReturnsIffWellFormed(requests, |sent| - 4, h, s, v, []);
    assert sent + [] == sent;
    BodyAsReadIsWritten(s, requests[h.apiKey], v);
    var header, body := RequestHeaderAsRead(s.flexible, h), BodyAsRead(s, v);
    var got := GetRequest(requests, s.utf8, sent);
    if got.Parsed? && got.value == RequestFrame(|sent| - 4, header, body) {
      RequestTakes(requests, s, |sent| - 4, header, body, sent);
      assert got.rest == [];
    }
  }

  // ---- the same for responses

  /** The header of a response is flexible unless it answers an API versions request. */
  predicate FlexibleHeader(apiKey: int, s: Setting) {
    apiKey != API_VERSIONS && s.flexible
  }

  function ResponseAsRead(s: Setting, apiKey: int, size: int, h: ResponseHeader, v: Value): ResponseFrame
    requires v.Struct?
  {
    ResponseFrame(size, ResponseHeaderAsRead(FlexibleHeader(apiKey, s), h), BodyAsRead(s, v))
  }

  predicate ResponseTyped(m: MessageMeta, h: ResponseHeader, s: Setting, v: Value)
  {
    h.Typed() && m.fields.Proper() && s.Valid() && BodyTyped(s, m, v)
  }

  predicate ResponseOk(m: MessageMeta, apiKey: int, h: ResponseHeader, s: Setting, v: Value)
    requires ResponseTyped(m, h, s, v)
  {
    BodyAsReadIsWritten(s, m, v);
    && ResponseHeaderOk(ResponseHeaderAsRead(FlexibleHeader(apiKey, s), h), FlexibleHeader(apiKey, s))
    && BodyOk(s, m, BodyAsRead(s, v))
  }

  /** A response; its header may lack a tag buffer that its body has. */
  lemma {:induction false} ResponseReturnsIffWellFormed(
    m: MessageMeta, apiKey: int, size: int, h: ResponseHeader, s: Setting, v: Value, rest: bytes)
    requires FitsSigned(size, 4) && ResponseTyped(m, h, s, v)
    ensures
      var put := PutResponse(size, h, Some(apiKey), s, m, v);
      put.Ok? && GetResponse(m, apiKey, s, put.value + rest) == Parsed(ResponseAsRead(s, apiKey, size, h, v), rest) <==>
      ResponseOk(m, apiKey, h, s, v)
  {
    BodyAsReadIsWritten(s, m, v);
    ResponseSurvivesIffWellFormed(m, apiKey, size, ResponseHeaderAsRead(FlexibleHeader(apiKey, s), h), s,
      BodyAsRead(s, v), rest);
  }

  lemma {:induction false} ResponseTakes(m: MessageMeta, apiKey: int, s: Setting, size: int, h: ResponseHeader,
      v: Value, b: bytes)
    requires FitsSigned(size, 4) && ResponseTyped(m, h, s, v)
    requires GetResponse(m, apiKey, s, b).Parsed?
    requires GetResponse(m, apiKey, s, b).value == ResponseFrame(size, h, v)
    requires PutResponse(size, h, Some(apiKey), s, m, v).Ok?
    ensures Used(b, GetResponse(m, apiKey, s, b)) >= |PutResponse(size, h, Some(apiKey), s, m, v).value|
  {
    var flexible := FlexibleHeader(apiKey, s);
    var afterSize := GetNumber(Int32, b).rest;
    TagsCost(Setting(0, flexible, _ => true), GetNumber(Int32, afterSize).rest);
    BodyCost(s, m, GetResponseHeader(flexible, afterSize).rest);
  }

  lemma {:induction false} ResponseReceivedIffWellFormed(m: MessageMeta, apiKey: int, h: ResponseHeader, s: Setting,
      v: Value, sent: bytes)
    requires ResponseTyped(m, h, s, v) && |sent| >= 4 && FitsSigned(|sent| - 4, 4)
    requires PutResponse(|sent| - 4, h, Some(apiKey), s, m, v) == Ok(sent)
    ensures
      var got := GetResponse(m, apiKey, s, sent);
      got.Parsed? && got.value == ResponseAsRead(s, apiKey, |sent| - 4, h, v) <==> ResponseOk(m, apiKey, h, s, v)
  {
    ResponseReturnsIffWellFormed(m, apiKey, |sent| - 4, h, s, v, []);
    assert sent + [] == sent;
    BodyAsReadIsWritten(s, m, v);
    var header, body := ResponseHeaderAsRead(FlexibleHeader(apiKey, s), h), BodyAsRead(s, v);
    var got := GetResponse(m, apiKey, s, sent);
    if got.Parsed? && got.value == ResponseFrame(|sent| - 4, header, body) {
      ResponseTakes(m, apiKey, s, |sent| - 4, header, body, sent);
      assert got.rest == [];
    }
  }
}
