/**
 Converting JSON to Avro under a schema, and Avro back to JSON.
 */
module Avro {
  import opened Wire

  datatype Field = Field(name: string, schema: Schema)

  /** `Other` stands for the schemas, such as unions, that JSON is never converted under. */
  datatype Schema =
    | NullSchema
    | BooleanSchema
    | IntSchema
    | LongSchema
    | StringSchema
    | BytesSchema
    | EnumSchema(symbols: seq<string>)
    | ArraySchema(items: Schema)
    | MapSchema(types: Schema)
    | RecordSchema(fields: seq<Field>)
    | Other

  /** A number is whole, or has a fraction or exponent. */
  datatype Json =
    | JNull
    | JBool(b: bool)
    | JWhole(n: int)
    | JFraction(text: string)
    | JString(s: string)
    | JArray(items: seq<Json>)
    | JObject(members: map<string, Json>)

  datatype Value =
    | Null
    | Boolean(b: bool)
    | Int(n: int)
    | Long(n: int)
    | String(s: string)
    | Bytes(data: bytes)
    | Enum(index: nat, symbol: string)
    | Array(items: seq<Value>)
    | Map(entries: map<string, Value>)
    | Record(fields: seq<(string, Value)>)

  /** The UTF-8 bytes of a text, and the text of bytes, whatever they are. */
  datatype Utf8 = Utf8(encode: string -> bytes, decode: bytes -> string) {

    ghost predicate Faithful() {
      forall s {:trigger encode(s)} :: decode(encode(s)) == s
    }
  }

  predicate IsI32(n: int) {
    -0x8000_0000 <= n < 0x8000_0000
  }

  predicate IsI64(n: int) {
    -0x8000_0000_0000_0000 <= n < 0x8000_0000_0000_0000
  }

  // ---- JSON to Avro

  /** Where a symbol first stands. */
  function Find(symbols: seq<string>, s: string): (r: Option<nat>)
    ensures r.Some? ==> r.value < |symbols| && symbols[r.value] == s && s !in symbols[..r.value]
    ensures r.None? ==> s !in symbols
  {
    if symbols == [] then None
    else if symbols[0] == s then Some(0)
    else
      var others := Find(symbols[1..], s);
      assert others.Some? ==> symbols[..others.value + 1] == [symbols[0]] + symbols[1..][..others.value];
      if others.Some? then Some(others.value + 1) else None
  }

  function FromJson(utf8: Utf8, schema: Schema, json: Json): Option<Value>
    decreases schema, 0
  {
    match (schema, json)
    case (NullSchema, JNull) => Some(Null)
    case (BooleanSchema, JBool(b)) => Some(Boolean(b))
    case (IntSchema, JWhole(n)) => if IsI32(n) then Some(Int(n)) else None
    case (LongSchema, JWhole(n)) => if IsI64(n) then Some(Long(n)) else None
    case (BytesSchema, JString(s)) => Some(Bytes(utf8.encode(s)))
    case (EnumSchema(symbols), JString(s)) =>
      var index := Find(symbols, s);
      if index.Some? then Some(Enum(index.value, s)) else None
    case (StringSchema, JString(s)) => Some(String(s))
    case (ArraySchema(items), JArray(values)) =>
      var converted := FromAll(utf8, items, values);
      if converted.Some? then Some(Array(converted.value)) else None
    case (MapSchema(types), JObject(members)) =>
      if forall k :: k in members ==> FromJson(utf8, types, members[k]).Some?
      then Some(Map(map k | k in members :: FromJson(utf8, types, members[k]).value))
      else None
    case (RecordSchema(fields), JObject(members)) =>
      var converted := FromFields(utf8, schema, |fields|, members);
      if converted.Some? then Some(Record(converted.value)) else None
    case _ => None
  }

  function FromAll(utf8: Utf8, items: Schema, values: seq<Json>): Option<seq<Value>>
    decreases items, 1, |values|
  {
    if values == [] then Some([])
    else
      var before := FromAll(utf8, items, values[..|values| - 1]);
      var last := FromJson(utf8, items, values[|values| - 1]);
      if before.Some? && last.Some? then Some(before.value + [last.value]) else None
  }

  /** The first `n` fields. Each must be a member; members that are no field are passed over. */
  function FromFields(utf8: Utf8, record: Schema, n: nat, members: map<string, Json>): (r: Option<seq<(string, Value)>>)
    requires record.RecordSchema? && n <= |record.fields|
    ensures r.Some? ==> |r.value| == n
    decreases record, 0, n
  {
    if n == 0 then Some([])
    else
      var before, last := FromFields(utf8, record, n - 1, members), record.fields[n - 1];
      if before.None? || last.name !in members then None
      else
        var value := FromJson(utf8, last.schema, members[last.name]);
        if value.Some? then Some(before.value + [(last.name, value.value)]) else None
  }

  // ---- Avro to JSON

  function ToJson(utf8: Utf8, v: Value): Json
    decreases v, 1
  {
    match v
    case Null => JNull
    case Boolean(b) => JBool(b)
    case Int(n) => JWhole(n)
    case Long(n) => JWhole(n)
    case String(s) => JString(s)
    case Bytes(data) => JString(utf8.decode(data))
    case Enum(_, symbol) => JString(symbol)
    case Array(items) => JArray(ToJsonAll(utf8, items))
    case Map(entries) => JObject(map k | k in entries :: ToJson(utf8, entries[k]))
    case Record(fields) => JObject(ToMembers(utf8, v, |fields|))
  }

  function ToJsonAll(utf8: Utf8, items: seq<Value>): (r: seq<Json>)
    ensures |r| == |items| && forall i :: 0 <= i < |items| ==> r[i] == ToJson(utf8, items[i])
    decreases items
  {
    seq(|items|, i requires 0 <= i < |items| => ToJson(utf8, items[i]))
  }

  /** The first `n` fields; a later field replaces an earlier one of the same name. */
  function ToMembers(utf8: Utf8, v: Value, n: nat): map<string, Json>
    requires v.Record? && n <= |v.fields|
    decreases v, 0, n
  {
    if n == 0 then map[] else ToMembers(utf8, v, n - 1)[v.fields[n - 1].0 := ToJson(utf8, v.fields[n - 1].1)]
  }

  // ---- a value of a schema

  predicate Conforms(schema: Schema, v: Value)
    decreases schema
  {
    match (schema, v)
    case (NullSchema, Null) => true
    case (BooleanSchema, Boolean(_)) => true
    case (IntSchema, Int(n)) => IsI32(n)
    case (LongSchema, Long(n)) => IsI64(n)
    case (StringSchema, String(_)) => true
    case (BytesSchema, Bytes(_)) => true
    case (EnumSchema(symbols), Enum(index, symbol)) => index < |symbols| && symbols[index] == symbol
    case (ArraySchema(items), Array(values)) => forall i :: 0 <= i < |values| ==> Conforms(items, values[i])
    case (MapSchema(types), Map(entries)) => forall k :: k in entries ==> Conforms(types, entries[k])
    case (RecordSchema(fields), Record(values)) =>
      && |values| == |fields|
      && (forall i :: 0 <= i < |fields| ==> values[i].0 == fields[i].name && Conforms(fields[i].schema, values[i].1))
    case _ => false
  }

  lemma {:induction false} ConvertedConforms(utf8: Utf8, schema: Schema, json: Json)
    requires FromJson(utf8, schema, json).Some?
    ensures Conforms(schema, FromJson(utf8, schema, json).value)
    decreases schema, 0
  {
    match (schema, json)
    case (ArraySchema(items), JArray(values)) => AllConform(utf8, items, values);
    case (MapSchema(types), JObject(members)) =>
      forall k | k in members ensures Conforms(types, FromJson(utf8, types, members[k]).value) {
        ConvertedConforms(utf8, types, members[k]);
      }
    case (RecordSchema(fields), JObject(members)) => FieldsConform(utf8, schema, |fields|, members);
    case _ =>
  }

  lemma {:induction false} AllConform(utf8: Utf8, items: Schema, values: seq<Json>)
    requires FromAll(utf8, items, values).Some?
    ensures
      var r := FromAll(utf8, items, values).value;
      |r| == |values| && forall i :: 0 <= i < |r| ==> Conforms(items, r[i])
    decreases items, 1, |values|
  {
    if values != [] {
      AllConform(utf8, items, values[..|values| - 1]);
      ConvertedConforms(utf8, items, values[|values| - 1]);
    }
  }

  lemma {:induction false} FieldsConform(utf8: Utf8, record: Schema, n: nat, members: map<string, Json>)
    requires record.RecordSchema? && n <= |record.fields| && FromFields(utf8, record, n, members).Some?
    ensures
      var r := FromFields(utf8, record, n, members).value;
      |r| == n && forall i :: 0 <= i < n ==>
        r[i].0 == record.fields[i].name && Conforms(record.fields[i].schema, r[i].1)
    decreases record, 0, n
  {
    if n > 0 {
      FieldsConform(utf8, record, n - 1, members);
      ConvertedConforms(utf8, record.fields[n - 1].schema, members[record.fields[n - 1].name]);
    }
  }

  // ---- exactly what converts

  /** JSON of the form a schema asks for; an object may have members that no field of a record names. */
  predicate Suits(schema: Schema, json: Json)
    decreases schema
  {
    match schema
    case NullSchema => json.JNull?
    case BooleanSchema => json.JBool?
    case IntSchema => json.JWhole? && -0x8000_0000 <= json.n <= 0x7FFF_FFFF
    case LongSchema => json.JWhole? && -0x8000_0000_0000_0000 <= json.n <= 0x7FFF_FFFF_FFFF_FFFF
    case StringSchema => json.JString?
    case BytesSchema => json.JString?
    case EnumSchema(symbols) => json.JString? && json.s in symbols
    case ArraySchema(items) => json.JArray? && forall i :: 0 <= i < |json.items| ==> Suits(items, json.items[i])
    case MapSchema(types) => json.JObject? && forall k :: k in json.members ==> Suits(types, json.members[k])
    case RecordSchema(fields) =>
      json.JObject? && forall i :: 0 <= i < |fields| ==>
        fields[i].name in json.members && Suits(fields[i].schema, json.members[fields[i].name])
    case Other => false
  }

  lemma {:induction false} ConvertsIffSuits(utf8: Utf8, schema: Schema, json: Json)
    ensures FromJson(utf8, schema, json).Some? <==> Suits(schema, json)
    decreases schema, 0
  {
    match (schema, json)
    case (ArraySchema(items), JArray(values)) => AllConvert(utf8, items, values);
    case (MapSchema(types), JObject(members)) =>
      forall k | k in members ensures FromJson(utf8, types, members[k]).Some? <==> Suits(types, members[k]) {
        ConvertsIffSuits(utf8, types, members[k]);
      }
    case (RecordSchema(fields), JObject(members)) => FieldsConvert(utf8, schema, |fields|, members);
    case _ =>
  }

  lemma {:induction false} AllConvert(utf8: Utf8, items: Schema, values: seq<Json>)
    ensures FromAll(utf8, items, values).Some? <==> forall i :: 0 <= i < |values| ==> Suits(items, values[i])
    decreases items, 1, |values|
  {
    if values != [] {
      var front := values[..|values| - 1];
      AllConvert(utf8, items, front);
      ConvertsIffSuits(utf8, items, values[|values| - 1]);
      assert forall i :: 0 <= i < |front| ==> front[i] == values[i];
    }
  }

  lemma {:induction false} FieldsConvert(utf8: Utf8, record: Schema, n: nat, members: map<string, Json>)
    requires record.RecordSchema? && n <= |record.fields|
    ensures FromFields(utf8, record, n, members).Some? <==> forall i :: 0 <= i < n ==>
      record.fields[i].name in members && Suits(record.fields[i].schema, members[record.fields[i].name])
    decreases record, 0, n
  {
    if n > 0 {
      var last := record.fields[n - 1];
      FieldsConvert(utf8, record, n - 1, members);
      if last.name in members {
        ConvertsIffSuits(utf8, last.schema, members[last.name]);
      }
    }
  }

  // ---- JSON, to Avro and back

  /** The input with members that no record field names removed, at every depth. */
  function Pruned(schema: Schema, json: Json): Json
    decreases schema, 0
  {
    match (schema, json)
    case (ArraySchema(items), JArray(values)) =>
      JArray(seq(|values|, i requires 0 <= i < |values| => Pruned(items, values[i])))
    case (MapSchema(types), JObject(members)) => JObject(map k | k in members :: Pruned(types, members[k]))
    case (RecordSchema(fields), JObject(members)) => JObject(PrunedMembers(schema, |fields|, members))
    case _ => json
  }

  function PrunedMembers(record: Schema, n: nat, members: map<string, Json>): map<string, Json>
    requires record.RecordSchema? && n <= |record.fields|
    decreases record, 0, n
  {
    if n == 0 then map[]
    else
      var before, last := PrunedMembers(record, n - 1, members), record.fields[n - 1];
      if last.name in members then before[last.name := Pruned(last.schema, members[last.name])] else before
  }

  /** Whatever converts comes back as it was, but for the members its records do not name. */
  lemma {:induction false} JsonComesBackPruned(utf8: Utf8, schema: Schema, json: Json)
    requires utf8.Faithful() && FromJson(utf8, schema, json).Some?
    ensures ToJson(utf8, FromJson(utf8, schema, json).value) == Pruned(schema, json)
    decreases schema, 0
  {
    match (schema, json)
    case (BytesSchema, JString(s)) => assert utf8.decode(utf8.encode(s)) == s;
    case (ArraySchema(items), JArray(values)) =>
      AllComeBack(utf8, items, values);
      var v := FromJson(utf8, schema, json).value;
      assert ToJson(utf8, v).items == Pruned(schema, json).items;
    case (MapSchema(types), JObject(members)) =>
      forall k | k in members
        ensures ToJson(utf8, FromJson(utf8, types, members[k]).value) == Pruned(types, members[k])
      {
        JsonComesBackPruned(utf8, types, members[k]);
      }
      var v := FromJson(utf8, schema, json).value;
      assert ToJson(utf8, v).members == Pruned(schema, json).members;
    case (RecordSchema(fields), JObject(members)) =>
      var v := FromJson(utf8, schema, json).value;
      assert v.fields[..|fields|] == v.fields;
      MembersComeBack(utf8, schema, |fields|, members, v);
    case _ =>
  }

  lemma {:induction false} AllComeBack(utf8: Utf8, items: Schema, values: seq<Json>)
    requires utf8.Faithful() && FromAll(utf8, items, values).Some?
    ensures
      var r := FromAll(utf8, items, values).value;
      |r| == |values| && forall i :: 0 <= i < |r| ==> ToJson(utf8, r[i]) == Pruned(items, values[i])
    decreases items, 1, |values|
  {
    if values != [] {
      AllComeBack(utf8, items, values[..|values| - 1]);
      JsonComesBackPruned(utf8, items, values[|values| - 1]);
    }
  }

  lemma {:induction false} MembersComeBack(utf8: Utf8, record: Schema, n: nat, members: map<string, Json>, v: Value)
    requires record.RecordSchema? && n <= |record.fields| && v.Record? && n <= |v.fields|
    requires utf8.Faithful() && FromFields(utf8, record, n, members) == Some(v.fields[..n])
    ensures ToMembers(utf8, v, n) == PrunedMembers(record, n, members)
    decreases record, 0, n
  {
    if n > 0 {
      var last := record.fields[n - 1];
      assert v.fields[..n][..n - 1] == v.fields[..n - 1];
      assert FromFields(utf8, record, n - 1, members).value == v.fields[..n - 1];
      MembersComeBack(utf8, record, n - 1, members, v);
      JsonComesBackPruned(utf8, last.schema, members[last.name]);
      assert v.fields[n - 1] == v.fields[..n][n - 1];
    }
  }

  /** Pruning leaves exactly the members that some field names. */
  lemma {:induction false} PrunedKeepsFields(record: Schema, n: nat, members: map<string, Json>, name: string)
    requires record.RecordSchema? && n <= |record.fields|
    ensures name in PrunedMembers(record, n, members) <==>
            name in members && exists i :: 0 <= i < n && record.fields[i].name == name
    decreases n
  {
    if n > 0 {
      PrunedKeepsFields(record, n - 1, members, name);
      assert record.fields[n - 1].name == name ==> exists i :: 0 <= i < n && record.fields[i].name == name;
    }
  }

  /** And each of them pruned by the schema of its field. */
  lemma {:induction false} PrunedByField(record: Schema, n: nat, members: map<string, Json>, i: nat)
    requires record.RecordSchema? && i < n <= |record.fields| && record.fields[i].name in members
    requires forall j, k :: 0 <= j < k < n ==> record.fields[j].name != record.fields[k].name
    ensures record.fields[i].name in PrunedMembers(record, n, members)
    ensures PrunedMembers(record, n, members)[record.fields[i].name] ==
      Pruned(record.fields[i].schema, members[record.fields[i].name])
    decreases n
  {
    if i < n - 1 {
      PrunedByField(record, n - 1, members, i);
    }
  }

  // ---- Avro, to JSON and back

  /** As the Avro specification has it: no record names a field twice. */
  predicate DistinctFields(schema: Schema) {
    match schema
    case ArraySchema(items) => DistinctFields(items)
    case MapSchema(types) => DistinctFields(types)
    case RecordSchema(fields) =>
      && (forall i, j :: 0 <= i < j < |fields| ==> fields[i].name != fields[j].name)
      && (forall i :: 0 <= i < |fields| ==> DistinctFields(fields[i].schema))
    case _ => true
  }

  /** The bytes are the encoding of a text, and the enum index is the first of its symbol, at every depth. */
  predicate Textual(utf8: Utf8, schema: Schema, v: Value)
    requires Conforms(schema, v)
    decreases schema
  {
    match schema
    case BytesSchema => utf8.encode(utf8.decode(v.data)) == v.data
    case EnumSchema(symbols) => v.symbol !in symbols[..v.index]
    case ArraySchema(items) => forall i :: 0 <= i < |v.items| ==> Textual(utf8, items, v.items[i])
    case MapSchema(types) => forall k :: k in v.entries ==> Textual(utf8, types, v.entries[k])
    case RecordSchema(fields) => forall i :: 0 <= i < |fields| ==> Textual(utf8, fields[i].schema, v.fields[i].1)
    case _ => true
  }

  lemma FindsFirst(symbols: seq<string>, index: nat)
    requires index < |symbols|
    ensures Find(symbols, symbols[index]) == Some(index) <==> symbols[index] !in symbols[..index]
  {
    var s := symbols[index];
    var first := Find(symbols, s).value;
    assert forall i :: 0 <= i < first ==> symbols[..first][i] == symbols[i];
    assert first < index ==> symbols[..index][first] == s;
  }

  predicate Returns(utf8: Utf8, schema: Schema, v: Value) {
    FromJson(utf8, schema, ToJson(utf8, v)) == Some(v)
  }

  /** A value survives the way to JSON and back exactly if it is textual throughout. */
  lemma {:induction false} ValueComesBackIffTextual(utf8: Utf8, schema: Schema, v: Value)
    requires Conforms(schema, v) && DistinctFields(schema)
    ensures Returns(utf8, schema, v) <==> Textual(utf8, schema, v)
    decreases schema
  {
    match schema
    case EnumSchema(symbols) => FindsFirst(symbols, v.index);
    case ArraySchema(items) =>
      forall i | 0 <= i < |v.items| ensures Returns(utf8, items, v.items[i]) <==> Textual(utf8, items, v.items[i]) {
        ValueComesBackIffTextual(utf8, items, v.items[i]);
      }
      ItemsReturn(utf8, items, v.items);
    case MapSchema(types) =>
      forall k | k in v.entries ensures Returns(utf8, types, v.entries[k]) <==> Textual(utf8, types, v.entries[k]) {
        ValueComesBackIffTextual(utf8, types, v.entries[k]);
      }
      EntriesReturn(utf8, types, v.entries);
    case RecordSchema(fields) =>
      forall i | 0 <= i < |fields|
        ensures Returns(utf8, fields[i].schema, v.fields[i].1) <==> Textual(utf8, fields[i].schema, v.fields[i].1)
      {
        ValueComesBackIffTextual(utf8, fields[i].schema, v.fields[i].1);
      }
      RecordHasMembers(utf8, v);
      FieldsReturn(utf8, schema, |fields|, ToMembers(utf8, v, |v.fields|), v);
      assert v.fields[..|fields|] == v.fields;
    case _ =>
  }

  lemma {:induction false} ItemsReturn(utf8: Utf8, items: Schema, values: seq<Value>)
    ensures FromAll(utf8, items, ToJsonAll(utf8, values)) == Some(values) <==>
            forall i :: 0 <= i < |values| ==> Returns(utf8, items, values[i])
  {
    if values != [] {
      var front, last := values[..|values| - 1], values[|values| - 1];
      ItemsReturn(utf8, items, front);
      var json := ToJsonAll(utf8, values);
      assert json[..|json| - 1] == ToJsonAll(utf8, front);
      LastItemReturns(utf8, items, json, values);
      assert forall i :: 0 <= i < |front| ==> front[i] == values[i];
    }
  }

  lemma {:induction false} LastItemReturns(utf8: Utf8, items: Schema, json: seq<Json>, values: seq<Value>)
    requires |json| == |values| > 0
    ensures FromAll(utf8, items, json) == Some(values) <==>
            FromAll(utf8, items, json[..|json| - 1]) == Some(values[..|values| - 1]) &&
            FromJson(utf8, items, json[|json| - 1]) == Some(values[|values| - 1])
  {
    assert values == values[..|values| - 1] + [values[|values| - 1]];
  }

  lemma {:induction false} EntryReturns(utf8: Utf8, types: Schema, entries: map<string, Value>, k: string)
    requires Returns(utf8, MapSchema(types), Map(entries)) && k in entries
    ensures Returns(utf8, types, entries[k])
  {
    var back := FromJson(utf8, MapSchema(types), ToJson(utf8, Map(entries)));
    assert back.value.entries[k] == entries[k];
  }

  lemma {:induction false} MapReturns(utf8: Utf8, types: Schema, entries: map<string, Value>)
    requires forall k :: k in entries ==> Returns(utf8, types, entries[k])
    ensures Returns(utf8, MapSchema(types), Map(entries))
  {
    var back := FromJson(utf8, MapSchema(types), ToJson(utf8, Map(entries)));
    assert back.Some? && back.value.entries == entries;
  }

  lemma {:induction false} EntriesReturn(utf8: Utf8, types: Schema, entries: map<string, Value>)
    ensures Returns(utf8, MapSchema(types), Map(entries)) <==>
      forall k :: k in entries ==> Returns(utf8, types, entries[k])
  {
    if Returns(utf8, MapSchema(types), Map(entries)) {
      forall k | k in entries ensures Returns(utf8, types, entries[k]) {
        EntryReturns(utf8, types, entries, k);
      }
    } else if forall k :: k in entries ==> Returns(utf8, types, entries[k]) {
      MapReturns(utf8, types, entries);
    }
  }

  /** With distinct names, every field finds its own member again. */
  lemma {:induction false} MemberOfField(utf8: Utf8, v: Value, n: nat, i: nat)
    requires v.Record? && i < n <= |v.fields| && forall j, k :: 0 <= j < k < |v.fields| ==>
      v.fields[j].0 != v.fields[k].0
    ensures v.fields[i].0 in ToMembers(utf8, v, n)
    ensures ToMembers(utf8, v, n)[v.fields[i].0] == ToJson(utf8, v.fields[i].1)
    decreases n
  {
    if i < n - 1 {
      MemberOfField(utf8, v, n - 1, i);
    }
  }

  predicate HasMembers(utf8: Utf8, v: Value, members: map<string, Json>)
    requires v.Record?
  {
    forall i :: 0 <= i < |v.fields| ==>
      v.fields[i].0 in members && members[v.fields[i].0] == ToJson(utf8, v.fields[i].1)
  }

  lemma RecordHasMembers(utf8: Utf8, v: Value)
    requires v.Record? && forall j, k :: 0 <= j < k < |v.fields| ==> v.fields[j].0 != v.fields[k].0
    ensures HasMembers(utf8, v, ToMembers(utf8, v, |v.fields|))
  {
    forall i | 0 <= i < |v.fields|
      ensures v.fields[i].0 in ToMembers(utf8, v, |v.fields|) &&
              ToMembers(utf8, v, |v.fields|)[v.fields[i].0] == ToJson(utf8, v.fields[i].1)
    {
      MemberOfField(utf8, v, |v.fields|, i);
    }
  }

  predicate SameNames(record: Schema, v: Value) {
    record.RecordSchema? && v.Record? && |v.fields| == |record.fields| &&
    forall i :: 0 <= i < |v.fields| ==> v.fields[i].0 == record.fields[i].name
  }

  lemma {:induction false} FieldsReturn(utf8: Utf8, record: Schema, n: nat, members: map<string, Json>, v: Value)
    requires SameNames(record, v) && n <= |record.fields| && HasMembers(utf8, v, members)
    ensures FromFields(utf8, record, n, members) == Some(v.fields[..n]) <==>
            forall i :: 0 <= i < n ==> Returns(utf8, record.fields[i].schema, v.fields[i].1)
    decreases n
  {
    if n > 0 {
      FieldsReturn(utf8, record, n - 1, members, v);
      LastFieldReturns(utf8, record, n, members, v);
    }
  }

  lemma {:induction false} LastFieldReturns(utf8: Utf8, record: Schema, n: nat, members: map<string, Json>, v: Value)
    requires record.RecordSchema? && v.Record? && 0 < n <= |record.fields| == |v.fields|
    requires v.fields[n - 1].0 == record.fields[n - 1].name && record.fields[n - 1].name in members
    ensures FromFields(utf8, record, n, members) == Some(v.fields[..n]) <==>
            FromFields(utf8, record, n - 1, members) == Some(v.fields[..n - 1]) &&
            FromJson(utf8, record.fields[n - 1].schema, members[record.fields[n - 1].name]) == Some(v.fields[n - 1].1)
  {
    Grow(v.fields, n - 1);
    if FromFields(utf8, record, n, members) == Some(v.fields[..n]) {
      var before := FromFields(utf8, record, n - 1, members).value;
      assert v.fields[..n][..n - 1] == before;
      assert v.fields[..n][n - 1] == v.fields[n - 1];
    }
  }
}
