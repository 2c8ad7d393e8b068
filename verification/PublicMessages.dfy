/**
 Messages as callers hold them. Beside the members that are written in place a structure has
 tagged fields, each of them set or not; before a message is encoded those become tag buffers.
 */
module PublicMessages {
  import opened Wire
  import opened Schema
  import opened Values

  /** How the value of a tagged field is encoded; it may fail. */
  type TagEncoder = (FieldMeta, Value) -> Option<bytes>

  datatype Public =
    | Plain(value: Value)                         // a value without tagged fields
    | Absent
    | Present(inner: Public)
    | Several(items: seq<Public>)
    | Record(members: seq<Public>, tagged: seq<Tagged>)

  datatype Tagged = Unset | Set(tag: nat, meta: FieldMeta, value: Public) {
    predicate Within(version: int) {
      Set? && meta.version.Within(version)
    }
  }

  // ---- conversion

  /** The value that is encoded: every structure has a tag buffer, if only an empty one. */
  function Converted(encode: TagEncoder, p: Public): Value
    decreases p
  {
    match p
    case Plain(v) => v
    case Absent => Null
    case Present(inner) => Just(Converted(encode, inner))
    case Several(items) => List(ConvertedAll(encode, items))
    case Record(members, tagged) => Struct(ConvertedAll(encode, members), Some(TagsOf(encode, tagged)))
  }

  function ConvertedAll(encode: TagEncoder, ps: seq<Public>): (vs: seq<Value>)
    ensures |vs| == |ps|
    decreases ps
  {
    if ps == [] then [] else [Converted(encode, ps[0])] + ConvertedAll(encode, ps[1..])
  }

  /** A tagged field that cannot be encoded is left out. */
  function TagOf(encode: TagEncoder, t: Tagged): Option<Tag>
    decreases t
  {
    if t.Unset? then None
    else
      var data := encode(t.meta, Converted(encode, t.value));
      if data.None? then None else Some(Tag(t.tag, data.value))
  }

  function TagsOf(encode: TagEncoder, tagged: seq<Tagged>): Tags
    decreases tagged
  {
    if tagged == [] then []
    else
      var tag := TagOf(encode, tagged[0]);
      (if tag.None? then [] else [tag.value]) + TagsOf(encode, tagged[1..])
  }

  /** Before that, tagged fields of the message that its version does not have are unset. */
  function IntoVersion(version: int, p: Public): Public {
    if p.Record? then p.(tagged := EachInto(version, p.tagged)) else p
  }

  function EachInto(version: int, tagged: seq<Tagged>): (r: seq<Tagged>)
    ensures |r| == |tagged|
    ensures forall i :: 0 <= i < |r| ==> r[i] == if tagged[i].Within(version) then tagged[i] else Unset
  {
    if tagged == [] then []
    else [if tagged[0].Within(version) then tagged[0] else Unset] + EachInto(version, tagged[1..])
  }

  lemma {:induction false} BufferHolds(encode: TagEncoder, tagged: seq<Tagged>, tag: Tag)
    ensures tag in TagsOf(encode, tagged) <==> exists i :: 0 <= i < |tagged| && TagOf(encode, tagged[i]) == Some(tag)
  {
    if tagged != [] {
      BufferHolds(encode, tagged[1..], tag);
      if i :| 0 <= i < |tagged| && TagOf(encode, tagged[i]) == Some(tag) {
        assert i > 0 ==> tagged[1..][i - 1] == tagged[i];
      }
      if tag in TagsOf(encode, tagged[1..]) {
        var j :| 0 <= j < |tagged| - 1 && TagOf(encode, tagged[1..][j]) == Some(tag);
        assert tagged[1..][j] == tagged[j + 1];
      }
    }
  }

  /** The tag buffer of a message holds exactly the fields that are set, in its version and encodable. */
  lemma {:induction false} BufferIsOfVersion(encode: TagEncoder, version: int, tagged: seq<Tagged>, tag: Tag)
    ensures tag in TagsOf(encode, EachInto(version, tagged)) <==>
      exists i :: 0 <= i < |tagged| && tagged[i].Within(version) && TagOf(encode, tagged[i]) == Some(tag)
  {
    var into := EachInto(version, tagged);
    BufferHolds(encode, into, tag);
    if i :| 0 <= i < |into| && TagOf(encode, into[i]) == Some(tag) {
      assert into[i] == tagged[i] && tagged[i].Within(version);
    }
    if i :| 0 <= i < |tagged| && tagged[i].Within(version) && TagOf(encode, tagged[i]) == Some(tag) {
      assert into[i] == tagged[i];
    }
  }

  // ---- types

  /** Every tagged field that is set, at any depth, has a value of its type. */
  predicate Settled(s: Setting, encode: TagEncoder, p: Public)
    decreases p
  {
    match p
    case Plain(_) => true
    case Absent => true
    case Present(inner) => Settled(s, encode, inner)
    case Several(items) => AllSettled(s, encode, items)
    case Record(members, tagged) => AllSettled(s, encode, members) && TaggedSettled(s, encode, tagged)
  }

  predicate AllSettled(s: Setting, encode: TagEncoder, ps: seq<Public>)
    decreases ps
  {
    ps != [] ==> Settled(s, encode, ps[0]) && AllSettled(s, encode, ps[1..])
  }

  predicate TaggedSettled(s: Setting, encode: TagEncoder, tagged: seq<Tagged>)
    decreases tagged
  {
    tagged != [] ==> TagSettled(s, encode, tagged[0]) && TaggedSettled(s, encode, tagged[1..])
  }

  predicate TagSettled(s: Setting, encode: TagEncoder, t: Tagged)
    decreases t
  {
    t.Set? ==>
      && t.tag < U32_LIMIT && Settled(s, encode, t.value)
      && InnerTyped(s, t.meta, Converted(encode, t.value))
  }

  lemma {:induction false} TagsOfTyped(s: Setting, encode: TagEncoder, tagged: seq<Tagged>)
    requires TaggedSettled(s, encode, tagged)
    ensures TagsTyped(TagsOf(encode, tagged))
  {
    if tagged != [] {
      TagsOfTyped(s, encode, tagged[1..]);
    }
  }

  lemma {:induction false} EachIntoSettled(s: Setting, encode: TagEncoder, version: int, tagged: seq<Tagged>)
    requires TaggedSettled(s, encode, tagged)
    ensures TaggedSettled(s, encode, EachInto(version, tagged))
  {
    if tagged != [] {
      EachIntoSettled(s, encode, version, tagged[1..]);
      assert EachInto(version, tagged)[1..] == EachInto(version, tagged[1..]);
    }
  }

  /** Fitting a message to its version changes nothing but its tag buffer. */
  lemma IntoVersionKeeps(s: Setting, encode: TagEncoder, version: int, p: Public)
    requires Settled(s, encode, p) && Converted(encode, p).Struct?
    ensures Settled(s, encode, IntoVersion(version, p)) && Converted(encode, IntoVersion(version, p)).Struct?
    ensures Converted(encode, IntoVersion(version, p)).members == Converted(encode, p).members
  {
    if p.Record? {
      EachIntoSettled(s, encode, version, p.tagged);
    }
  }
}
