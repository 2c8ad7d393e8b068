/**
 The response to an API versions request in a flexible version. Its four tagged fields have
 room even when they are not set, and that room decides how many entries fit.
 */
module ApiVersions {
  import opened Wire
  import opened Schema
  import opened Values
  import opened Encoding
  import opened Frames
  import opened PublicMessages
  import opened Allocation

  const INT16 := FieldMeta(EVERY, None, One(Fixed(Int16)), false, End)
  const VERSION_FIELDS := Field("api_key", INT16, Field("min_version", INT16, Field("max_version", INT16, End)))
  const API_KEYS := FieldMeta(EVERY, None, Many(Structure("ApiVersion")), false, VERSION_FIELDS)
  const THROTTLE := FieldMeta(VersionRange(1, I16_MAX), None, One(Fixed(Int32)), false, End)
  const API_VERSIONS_RESPONSE := MessageMeta("ApiVersionsResponse", VersionRange(3, I16_MAX),
    Field("error_code", INT16, Field("api_keys", API_KEYS, Field("throttle_time_ms", THROTTLE, End))))

  datatype ApiVersion = ApiVersion(key: int, least: int, greatest: int) {
    predicate Typed() {
      FitsSigned(key, 2) && FitsSigned(least, 2) && FitsSigned(greatest, 2)
    }

    function AsRecord(): Public {
      Record([Plain(Num(key)), Plain(Num(least)), Plain(Num(greatest))], [])
    }
  }

  function Records(apis: seq<ApiVersion>): (ps: seq<Public>)
    ensures |ps| == |apis|
  {
    if apis == [] then [] else [apis[0].AsRecord()] + Records(apis[1..])
  }

  predicate ApisTyped(apis: seq<ApiVersion>) {
    apis != [] ==> apis[0].Typed() && ApisTyped(apis[1..])
  }

  const UNSET := [Unset, Unset, Unset, Unset]

  /** The response without an error, with its tagged fields unset. */
  function ApiVersionsBody(apis: seq<ApiVersion>, throttle: int): Public {
    Record([Plain(Num(0)), Present(Several(Records(apis))), Plain(Just(Num(throttle)))], UNSET)
  }

  function Three(x: string, f: FieldMeta, y: string, g: FieldMeta, z: string, h: FieldMeta): Fields {
    Field(x, f, Field(y, g, Field(z, h, End)))
  }

  lemma MembersOfThree(s: Setting, fs: Fields, parent: Option<VersionRange>, f: FieldMeta, g: FieldMeta, h: FieldMeta,
      a: Value, b: Value, c: Value)
    requires exists x, y, z :: fs == Three(x, f, y, g, z, h)
    requires FieldTyped(s, f, parent, a) && FieldTyped(s, g, parent, b) && FieldTyped(s, h, parent, c)
    ensures MembersTyped(s, fs, parent, [a, b, c])
    ensures MembersExcess(s, fs, parent, [a, b, c]) ==
      FieldExcess(s, f, parent, a) + FieldExcess(s, g, parent, b) + FieldExcess(s, h, parent, c)
    ensures PutMembers(s, fs, parent, [a, b, c]).Ok? <==>
      PutField(s, f, parent, a).Ok? && PutField(s, g, parent, b).Ok? && PutField(s, h, parent, c).Ok?
  {
    var last := fs.next.next;
    assert [a, b, c][1..] == [b, c] && [b, c][1..] == [c] && [c][1..] == [];
    assert MembersTyped(s, last, parent, [c]);
    assert MembersTyped(s, fs.next, parent, [b, c]);
    assert MembersExcess(s, last, parent, [c]) == FieldExcess(s, h, parent, c);
    assert MembersExcess(s, fs.next, parent, [b, c]) == FieldExcess(s, g, parent, b) + FieldExcess(s, h, parent, c);
    assert PutMembers(s, last, parent, [c]).Ok? <==> PutField(s, h, parent, c).Ok?;
    assert PutMembers(s, fs.next, parent, [b, c]).Ok? <==>
      PutField(s, g, parent, b).Ok? && PutField(s, h, parent, c).Ok?;
  }

  lemma PublicOfThree(s: Setting, encode: TagEncoder, a: Public, b: Public, c: Public)
    requires Settled(s, encode, a) && Settled(s, encode, b) && Settled(s, encode, c)
    ensures AllSettled(s, encode, [a, b, c])
    ensures AllBeside(s, encode, [a, b, c]) == Beside(s, encode, a) + Beside(s, encode, b) + Beside(s, encode, c)
    ensures ConvertedAll(encode, [a, b, c]) == [Converted(encode, a), Converted(encode, b), Converted(encode, c)]
  {
    assert [a, b, c][1..] == [b, c] && [b, c][1..] == [c] && [c][1..] == [];
    assert AllSettled(s, encode, [c]);
    assert AllSettled(s, encode, [b, c]);
    assert AllBeside(s, encode, [c]) == Beside(s, encode, c);
    assert AllBeside(s, encode, [b, c]) == Beside(s, encode, b) + Beside(s, encode, c);
    assert ConvertedAll(encode, [c]) == [Converted(encode, c)];
    assert ConvertedAll(encode, [b, c]) == [Converted(encode, b), Converted(encode, c)];
  }

  /** A number that every version has is written in its room. */
  lemma NumberFits(s: Setting, parent: Option<VersionRange>, n: int)
    requires s.Valid() && FitsSigned(n, 2) && (parent.Some? ==> parent.value == EVERY)
    ensures FieldTyped(s, INT16, parent, Num(n)) && FieldExcess(s, INT16, parent, Num(n)) == 0
    ensures PutField(s, INT16, parent, Num(n)).Ok?
  {
    assert InnerTyped(s, INT16, Num(n)) && InnerExcess(s, INT16, Num(n)) == 0;
  }

  /** In a flexible version the entry of one API is in excess by its empty tag buffer. */
  lemma ApiVersionExcess(s: Setting, encode: TagEncoder, api: ApiVersion)
    requires s.Valid() && s.flexible && api.Typed()
    ensures Settled(s, encode, api.AsRecord()) && Beside(s, encode, api.AsRecord()) == 0
    ensures
      var v := Converted(encode, api.AsRecord());
      && ElemTyped(s, API_KEYS, v) && ElemExcess(s, API_KEYS, v) == 1 && PutElem(s, API_KEYS, v).Ok?
  {
    NumberFits(s, Some(EVERY), api.key);
    NumberFits(s, Some(EVERY), api.least);
    NumberFits(s, Some(EVERY), api.greatest);
    var members := [Num(api.key), Num(api.least), Num(api.greatest)];
    assert VERSION_FIELDS == Three("api_key", INT16, "min_version", INT16, "max_version", INT16);
    MembersOfThree(s, VERSION_FIELDS, Some(EVERY), INT16, INT16, INT16, members[0], members[1], members[2]);
    PublicOfThree(s, encode, Plain(members[0]), Plain(members[1]), Plain(members[2]));
    assert Converted(encode, api.AsRecord()) == Struct(members, Some([]));
  }

  lemma {:induction false} ApiVersionsExcess(s: Setting, encode: TagEncoder, apis: seq<ApiVersion>)
    requires s.Valid() && s.flexible && ApisTyped(apis)
    ensures AllSettled(s, encode, Records(apis)) && AllBeside(s, encode, Records(apis)) == 0
    ensures
      var vs := ConvertedAll(encode, Records(apis));
      ItemsTyped(s, API_KEYS, vs) && ItemsExcess(s, API_KEYS, vs) == |apis| && PutItems(s, API_KEYS, vs).Ok?
  {
    if apis != [] {
      ApiVersionExcess(s, encode, apis[0]);
      ApiVersionsExcess(s, encode, apis[1..]);
      var ps := Records(apis);
      assert ps[1..] == Records(apis[1..]);
      assert ConvertedAll(encode, ps)[1..] == ConvertedAll(encode, ps[1..]);
    }
  }

  lemma {:induction false} UnsetRoom(s: Setting, encode: TagEncoder)
    ensures TaggedSettled(s, encode, UNSET) && TaggedRoom(s, encode, UNSET) == 16 && TagsOf(encode, UNSET) == []
  {
    assert UNSET[1..] == [Unset, Unset, Unset] && UNSET[1..][1..] == [Unset, Unset];
    assert [Unset, Unset][1..] == [Unset] && [Unset][1..] == [];
    assert TaggedSettled(s, encode, [Unset]) && TaggedSettled(s, encode, [Unset, Unset]);
    assert TaggedSettled(s, encode, UNSET[1..]);
    assert TaggedRoom(s, encode, [Unset]) == 4 && TaggedRoom(s, encode, [Unset, Unset]) == 8;
    assert TaggedRoom(s, encode, UNSET[1..]) == 12;
    assert TagsOf(encode, [Unset]) == [] && TagsOf(encode, [Unset, Unset]) == [] && TagsOf(encode, UNSET[1..]) == [];
  }

  /** The entries together: one byte each, less what their length saves. */
  lemma ApiKeysExcess(s: Setting, encode: TagEncoder, apis: seq<ApiVersion>)
    requires s.Valid() && s.flexible && ApisTyped(apis) && |apis| + 1 < U32_LIMIT
    ensures Settled(s, encode, Present(Several(Records(apis))))
    ensures Beside(s, encode, Present(Several(Records(apis)))) == 0
    ensures
      var v := Converted(encode, Present(Several(Records(apis))));
      && FieldTyped(s, API_KEYS, None, v) && PutField(s, API_KEYS, None, v).Ok?
      && FieldExcess(s, API_KEYS, None, v) == |apis| + VarintWidth(|apis| + 1) - 4
  {
    ApiVersionsExcess(s, encode, apis);
    var p := Several(Records(apis));
    var v := Converted(encode, p);
    assert Settled(s, encode, p) && Beside(s, encode, p) == 0;
    assert InnerTyped(s, API_KEYS, v);
    assert InnerExcess(s, API_KEYS, v) == |apis| + VarintWidth(|apis| + 1) - 4;
    assert PutInner(s, API_KEYS, v).Ok?;
    assert Converted(encode, Present(p)) == Just(v);
  }

  lemma ThrottleFits(s: Setting, throttle: int)
    requires s.Valid() && s.flexible && 1 <= s.version && FitsSigned(throttle, 4)
    ensures FieldTyped(s, THROTTLE, None, Just(Num(throttle)))
    ensures FieldExcess(s, THROTTLE, None, Just(Num(throttle))) == 0
    ensures PutField(s, THROTTLE, None, Just(Num(throttle))).Ok?
  {
    assert InnerTyped(s, THROTTLE, Num(throttle)) && InnerExcess(s, THROTTLE, Num(throttle)) == 0;
    assert PutInner(s, THROTTLE, Num(throttle)).Ok?;
  }

  lemma ApiVersionsBodyExcess(s: Setting, encode: TagEncoder, apis: seq<ApiVersion>, throttle: int)
    requires s.Valid() && s.flexible && 1 <= s.version && FitsSigned(throttle, 4)
    requires ApisTyped(apis) && |apis| + 1 < U32_LIMIT
    ensures
      var p := ApiVersionsBody(apis, throttle);
      var v := Converted(encode, p);
      var fs := API_VERSIONS_RESPONSE.fields;
      && Settled(s, encode, p) && Beside(s, encode, p) == 16
      && v.Struct? && v.tags == Some([]) && MembersTyped(s, fs, None, v.members)
      && PutMembers(s, fs, None, v.members).Ok?
      && MembersExcess(s, fs, None, v.members) == |apis| + VarintWidth(|apis| + 1) - 4
  {
    Widths();
    UnsetRoom(s, encode);
    NumberFits(s, None, 0);
    ApiKeysExcess(s, encode, apis);
    ThrottleFits(s, throttle);
    var keys := Present(Several(Records(apis)));
    PublicOfThree(s, encode, Plain(Num(0)), keys, Plain(Just(Num(throttle))));
    var fs := API_VERSIONS_RESPONSE.fields;
    assert fs == Three("error_code", INT16, "api_keys", API_KEYS, "throttle_time_ms", THROTTLE);
    MembersOfThree(s, fs, None, INT16, API_KEYS, THROTTLE, Num(0), Converted(encode, keys), Just(Num(throttle)));
  }

  /** The response fits the room made for it if and only if it has at most eighteen entries. */
  lemma EighteenApisFit(s: Setting, encode: TagEncoder, correlationId: int, apis: seq<ApiVersion>, throttle: int)
    requires s.Valid() && s.flexible && 1 <= s.version && FitsSigned(throttle, 4) && FitsSigned(correlationId, 4)
    requires ApisTyped(apis) && |apis| + 1 < U32_LIMIT
    ensures
      var m := API_VERSIONS_RESPONSE;
      var p := ApiVersionsBody(apis, throttle);
      var h := ResponseHeader(correlationId, Some([]));
      var v := Converted(encode, p);
      && Settled(s, encode, p) && v.Struct? && MembersTyped(s, m.fields, None, v.members) && FitsSigned(0, 4)
      && PutResponse(0, h, Some(API_VERSIONS), s, m, v).Ok?
      && (|PutResponse(0, h, Some(API_VERSIONS), s, m, v).value| <= ResponseSpace(s, encode, m, p) <==> |apis| <= 18)
  {
    Widths();
    ApiVersionsBodyExcess(s, encode, apis, throttle);
    ResponseFitsIff(0, ResponseHeader(correlationId, Some([])), Some(API_VERSIONS), s, API_VERSIONS_RESPONSE, encode,
      ApiVersionsBody(apis, throttle));
  }
}
