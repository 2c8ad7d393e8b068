/**
 The frame of the heartbeat request, byte for byte, in every version: a message with texts, a number
 and a nullable text that came later.
 */
module HeartbeatFrame {
  import opened Wire
  import opened Schema
  import opened Values
  import opened Encoding
  import opened Frames
  import opened WireFormat

  const EVERY := VersionRange(0, I16_MAX)
  const TEXT := FieldMeta(EVERY, None, Kind.One(Text), false, End)
  const INT32 := FieldMeta(EVERY, None, Kind.One(Fixed(Int32)), false, End)

  const INSTANCE := FieldMeta(VersionRange(3, I16_MAX), Some(VersionRange(3, I16_MAX)), Kind.One(Text), false, End)
  const HEARTBEAT := MessageMeta("HeartbeatRequest", VersionRange(4, I16_MAX),
    Field("group_id", TEXT, Field("generation_id", INT32, Field("member_id", TEXT,
      Field("group_instance_id", INSTANCE, End)))))

  datatype Heartbeat = Heartbeat(group: bytes, generation: int, member: bytes, instance: Option<bytes>) {

    predicate Typed(utf8: bytes -> bool) {
      && utf8(group) && |group| < 0x8000 && utf8(member) && |member| < 0x8000
      && -0x8000_0000 <= generation < 0x8000_0000
      && (instance.Some? ==> utf8(instance.value) && |instance.value| < 0x8000)
    }

    function Members(): seq<Value> {
      [Str(group), Num(generation), Str(member), if instance.None? then Null else Just(Str(instance.value))]
    }
  }

  /** A text after its length. */
  function Sized(s: Setting, text: bytes): bytes
    requires |text| < 0x8000
  {
    (if s.flexible then Base128(|text| + 1) else Two(|text|)) + text
  }

  /** The instance id came with version 3. */
  function InstanceBytes(s: Setting, instance: Option<bytes>): bytes
    requires instance.Some? ==> |instance.value| < 0x8000
  {
    if s.version < 3 then []
    else if instance.Some? then Sized(s, instance.value)
    else if s.flexible then [0]
    else [255, 255]
  }

  lemma TextField(s: Setting, f: FieldMeta, text: bytes)
    requires f == TEXT && s.Valid() && s.utf8(text) && |text| < 0x8000
    ensures FieldTyped(s, f, None, Str(text))
    ensures PutField(s, f, None, Str(text)) == Ok(Sized(s, text))
  {
    TextFormat(s, f, text);
    assert InnerTyped(s, f, Str(text)) && PutInner(s, f, Str(text)) == PutElem(s, f, Str(text));
  }

  lemma NumberField(s: Setting, n: int)
    requires s.Valid() && -0x8000_0000 <= n < 0x8000_0000
    ensures FieldTyped(s, INT32, None, Num(n)) && PutField(s, INT32, None, Num(n)) == Ok(Four(n))
  {
    Int32Format(n);
    assert InnerTyped(s, INT32, Num(n)) && PutInner(s, INT32, Num(n)) == PutElem(s, INT32, Num(n));
  }

  lemma InstanceField(s: Setting, instance: Option<bytes>)
    requires s.Valid() && (instance.Some? ==> s.utf8(instance.value) && |instance.value| < 0x8000)
    ensures
      var v := if instance.None? then Null else Just(Str(instance.value));
      FieldTyped(s, INSTANCE, None, v) && PutField(s, INSTANCE, None, v) == Ok(InstanceBytes(s, instance))
  {
    if instance.Some? {
      TextFormat(s, INSTANCE, instance.value);
      var v := Str(instance.value);
      assert InnerTyped(s, INSTANCE, v) && PutInner(s, INSTANCE, v) == PutElem(s, INSTANCE, v);
      assert PutSome(s, INSTANCE, v) == PutInner(s, INSTANCE, v);
    } else {
      NullFormat(s, INSTANCE);
    }
  }

  lemma MembersOfFour(s: Setting, fs: Fields, vs: seq<Value>)
    requires fs == HEARTBEAT.fields && |vs| == 4
    requires FieldTyped(s, TEXT, None, vs[0]) && FieldTyped(s, INT32, None, vs[1])
    requires FieldTyped(s, TEXT, None, vs[2]) && FieldTyped(s, INSTANCE, None, vs[3])
    ensures MembersTyped(s, fs, None, vs)
    ensures PutMembers(s, fs, None, vs) ==
      Join(PutField(s, TEXT, None, vs[0]), Join(PutField(s, INT32, None, vs[1]),
        Join(PutField(s, TEXT, None, vs[2]), PutField(s, INSTANCE, None, vs[3]))))
  {
    var second, third, fourth := fs.next, fs.next.next, fs.next.next.next;
    var after1, after2, after3 := vs[1..], vs[2..], vs[3..];
    assert after1[1..] == after2 && after2[1..] == after3 && after3[1..] == [];
    assert MembersTyped(s, fourth, None, after3);
    assert MembersTyped(s, third, None, after2);
    assert MembersTyped(s, second, None, after1);
    JoinWithNothing(PutField(s, INSTANCE, None, vs[3]));
    assert PutMembers(s, fourth, None, after3) == Join(PutField(s, INSTANCE, None, vs[3]), Ok([]));
    assert PutMembers(s, third, None, after2) ==
      Join(PutField(s, TEXT, None, vs[2]), PutMembers(s, fourth, None, after3));
    assert PutMembers(s, second, None, after1) ==
      Join(PutField(s, INT32, None, vs[1]), PutMembers(s, third, None, after2));
  }

  lemma HeartbeatBody(s: Setting, beat: Heartbeat)
    requires s.Valid() && beat.Typed(s.utf8)
    ensures MembersTyped(s, HEARTBEAT.fields, None, beat.Members())
    ensures PutFrom(s, HEARTBEAT.fields, None, beat.Members(), Some([])) ==
      Ok(Sized(s, beat.group) + (Four(beat.generation) + (Sized(s, beat.member) + InstanceBytes(s, beat.instance))) +
         (if s.flexible then [0] else []))
  {
    TextField(s, TEXT, beat.group);
    NumberField(s, beat.generation);
    TextField(s, TEXT, beat.member);
    InstanceField(s, beat.instance);
    MembersOfFour(s, HEARTBEAT.fields, beat.Members());
    BufferFormat(s, []);
  }

  /**
   The heartbeat request of every version, byte for byte: size, key, version, correlation id and
   client id, then group, generation and member, the instance id from version 3 and the two tag
   buffers from version 4.
   */
  lemma HeartbeatFormat(s: Setting, size: int, correlationId: int, client: bytes, beat: Heartbeat)
    requires 0 <= s.version < 0x8000 && s.flexible == (s.version >= 4) && beat.Typed(s.utf8)
    requires -0x8000_0000 <= size < 0x8000_0000 && -0x8000_0000 <= correlationId < 0x8000_0000 && |client| < 0x8000
    ensures
      var h := RequestHeader(12, s.version, correlationId, Some(client), Some([]));
      var v := Struct(beat.Members(), Some([]));
      var header := [0, 12] + Two(s.version) + Four(correlationId) + (Two(|client|) + client);
      var body := Sized(s, beat.group) +
        (Four(beat.generation) + (Sized(s, beat.member) + InstanceBytes(s, beat.instance)));
      var tags: bytes := if s.version >= 4 then [0] else [];
      && h.Typed() && FitsSigned(size, 4) && MembersTyped(s, HEARTBEAT.fields, None, v.members)
      && PutRequest(size, h, s, HEARTBEAT, v) == Ok(Four(size) + (header + tags + (body + tags)))
  {
    FourIs(size);
    RequestHeaderFormat(RequestHeader(12, s.version, correlationId, Some(client), Some([])), s.flexible);
    HeartbeatBody(s, beat);
    assert Two(12) == [0, 12];
  }
}
