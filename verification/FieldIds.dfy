/**
 Numbering the fields of a schema, for table formats that know fields by id. Two
 walks over the schema thread one counter and fill one map: the Avro walk numbers all
 the fields of a record before it descends, the JSON walk descends as it goes.
 */
module FieldIds {
  import opened Wire
  import opened Avro

  type Path = seq<string>

  const LIST_ITEM := "element"

  // ---- schemas as trees of names

  datatype Child = Child(name: string, tree: Tree)
  datatype Tree = Tree(children: seq<Child>)

  const LEAF := Tree([])

  /** `Level` numbers siblings first, `Pre` descends at once, `Top` is `Pre` below a first level of siblings. */
  datatype Mode = Level | Pre | Top {

    predicate SiblingsFirst() {
      !Pre?
    }

    function Inner(): Mode {
      if Level? then Level else Pre
    }
  }

  function Heads(path: Path, children: seq<Child>): (r: seq<Path>)
    ensures |r| == |children| && forall i :: 0 <= i < |r| ==> r[i] == path + [children[i].name]
  {
    seq(|children|, i requires 0 <= i < |children| => path + [children[i].name])
  }

  /** The paths of a tree in the order they are numbered. */
  function Walk(mode: Mode, path: Path, t: Tree): seq<Path>
    decreases t, |t.children| + 1
  {
    (if mode.SiblingsFirst() then Heads(path, t.children) else []) + Below(mode, path, t, |t.children|)
  }

  /** What is numbered while descending into the first `n` children. */
  function Below(mode: Mode, path: Path, t: Tree, n: nat): seq<Path>
    requires n <= |t.children|
    decreases t, n
  {
    if n == 0 then []
    else
      var child := t.children[n - 1];
      Below(mode, path, t, n - 1) + Block(mode, path + [child.name], child.tree)
  }

  function Block(mode: Mode, path: Path, t: Tree): seq<Path>
    decreases t, |t.children| + 2
  {
    (if mode.SiblingsFirst() then [] else [path]) + Walk(mode.Inner(), path, t)
  }

  // ---- ids

  function Join(path: Path): string {
    if path == [] then ""
    else if |path| == 1 then path[0]
    else path[0] + "." + Join(path[1..])
  }

  /** Paths numbered from `start`; a later path replaces an earlier one that joins to the same name. */
  function Numbered(paths: seq<Path>, start: int): map<string, int> {
    if paths == [] then map[]
    else Numbered(paths[..|paths| - 1], start)[Join(paths[|paths| - 1]) := start + |paths| - 1]
  }

  /** Numbering one list after another is numbering both. */
  lemma {:induction false} NumberedExtends(a: seq<Path>, b: seq<Path>, start: int)
    ensures Numbered(a + b, start) == Numbered(a, start) + Numbered(b, start + |a|)
  {
    if b == [] {
      assert a + b == a;
    } else {
      AllButLast(a, b);
      NumberedExtends(a, b[..|b| - 1], start);
    }
  }

  // ---- the Avro walk

  function Shape(schema: Schema): Tree
    decreases schema, 1
  {
    match schema
    case ArraySchema(items) => Tree([Child(LIST_ITEM, Shape(items))])
    case MapSchema(types) => Tree([Child("entries", Tree([Child("keys", LEAF), Child("values", Shape(types))]))])
    case RecordSchema(fields) => Tree(Shapes(schema, |fields|))
    case _ => LEAF
  }

  function Shapes(record: Schema, n: nat): (r: seq<Child>)
    requires record.RecordSchema? && n <= |record.fields|
    ensures |r| == n && forall i :: 0 <= i < n ==> r[i] == Child(record.fields[i].name, Shape(record.fields[i].schema))
    decreases record, 0, n
  {
    if n == 0 then []
    else Shapes(record, n - 1) + [Child(record.fields[n - 1].name, Shape(record.fields[n - 1].schema))]
  }

  lemma WalkLeaf(mode: Mode, path: Path)
    ensures Walk(mode, path, LEAF) == []
  {
  }

  /** A single child: its own path, then what is below it. */
  lemma WalkOne(mode: Mode, path: Path, child: Child)
    ensures Walk(mode, path, Tree([child])) ==
      [path + [child.name]] + Walk(mode.Inner(), path + [child.name], child.tree)
  {
    var t := Tree([child]);
    assert Below(mode, path, t, 0) == [];
    assert Below(mode, path, t, 1) == [] + Block(mode, path + [child.name], child.tree);
    assert Heads(path, t.children) == [path + [child.name]];
  }

  lemma WalkEntries(path: Path, types: Tree)
    ensures
      var entries := path + ["entries"];
      Walk(Level, entries, Tree([Child("keys", LEAF), Child("values", types)])) ==
      [entries + ["keys"], entries + ["values"]] + Walk(Level, entries + ["values"], types)
  {
    var entries := path + ["entries"];
    var t := Tree([Child("keys", LEAF), Child("values", types)]);
    WalkLeaf(Level, entries + ["keys"]);
    assert Below(Level, entries, t, 0) == [];
    assert Below(Level, entries, t, 1) == [];
    assert Block(Level, entries + ["values"], types) == Walk(Level, entries + ["values"], types);
    assert Below(Level, entries, t, 2) == Walk(Level, entries + ["values"], types);
    assert Heads(entries, t.children) == [entries + ["keys"], entries + ["values"]];
  }

  /** The item of a list is numbered, and then what is below it. */
  lemma {:induction false} ItemExtends(mode: Mode, path: Path, item: Tree, id: int)
    ensures
      var walk, inside := Walk(mode, path, Tree([Child(LIST_ITEM, item)])), path + [LIST_ITEM];
      && Numbered(walk, id) == map[Join(inside) := id] + Numbered(Walk(mode.Inner(), inside, item), id + 1)
      && |walk| == 1 + |Walk(mode.Inner(), inside, item)|
  {
    var inside := path + [LIST_ITEM];
    WalkOne(mode, path, Child(LIST_ITEM, item));
    NumberedExtends([inside], Walk(mode.Inner(), inside, item), id);
    assert [inside][..0] == [];
    assert Numbered([inside], id) == map[Join(inside) := id];
  }

  /** The Avro walk: the ids below a path, and the counter when it is done. */
  method AvroIds(path: Path, schema: Schema, id: int) returns (ids: map<string, int>, next: int)
    ensures ids == Numbered(Walk(Level, path, Shape(schema)), id)
    ensures next == id + |Walk(Level, path, Shape(schema))|
    decreases schema, 2
  {
    ids, next := map[], id;
    match schema
    case ArraySchema(items) =>
      var inside := path + [LIST_ITEM];
      ids := ids[Join(inside) := next];
      next := next + 1;
      var more;
      more, next := AvroIds(inside, items, next);
      ids := ids + more;
      ItemExtends(Level, path, Shape(items), id);
    case MapSchema(types) =>
      ids, next := AvroMapIds(path, types, id);
    case RecordSchema(_) =>
      ids, next := AvroRecordIds(path, schema, id);
    case _ =>
      WalkLeaf(Level, path);
  }

  lemma MapWalk(path: Path, types: Schema)
    ensures
      var entries := path + ["entries"];
      Walk(Level, path, Shape(MapSchema(types))) ==
      [entries, entries + ["keys"], entries + ["values"]] + Walk(Level, entries + ["values"], Shape(types))
  {
    WalkOne(Level, path, Child("entries", Tree([Child("keys", LEAF), Child("values", Shape(types))])));
    WalkEntries(path, Shape(types));
  }

  lemma NumberedThree(a: Path, b: Path, c: Path, id: int)
    ensures Numbered([a, b, c], id) == map[Join(a) := id][Join(b) := id + 1][Join(c) := id + 2]
  {
    assert [a][..0] == [] && [a, b][..1] == [a] && [a, b, c][..2] == [a, b];
    assert Numbered([a], id) == map[Join(a) := id];
    assert Numbered([a, b], id) == map[Join(a) := id][Join(b) := id + 1];
  }

  method AvroMapIds(path: Path, types: Schema, id: int) returns (ids: map<string, int>, next: int)
    ensures ids == Numbered(Walk(Level, path, Shape(MapSchema(types))), id)
    ensures next == id + |Walk(Level, path, Shape(MapSchema(types)))|
    decreases types, 3
  {
    var entries := path + ["entries"];
    var keys, values := entries + ["keys"], entries + ["values"];
    ids := map[Join(entries) := id];
    ids := ids[Join(keys) := id + 1];
    ids := ids[Join(values) := id + 2];
    NumberedThree(entries, keys, values, id);
    var more;
    more, next := AvroIds(values, types, id + 3);
    MapWalk(path, types);
    NumberedExtends([entries, keys, values], Walk(Level, values, Shape(types)), id);
    ids := ids + more;
  }

  /** All the fields of a record are numbered first. */
  method AvroHeadIds(path: Path, record: Schema, id: int) returns (ids: map<string, int>, next: int)
    requires record.RecordSchema?
    ensures ids == Numbered(Heads(path, Shape(record).children), id) && next == id + |record.fields|
  {
    ids, next := map[], id;
    ghost var heads := Heads(path, Shape(record).children);
    for i := 0 to |record.fields|
      invariant ids == Numbered(heads[..i], id) && next == id + i
    {
      Grow(heads, i);
      ids := ids[Join(path + [record.fields[i].name]) := next];
      next := next + 1;
    }
    assert heads[..|record.fields|] == heads;
  }

  method AvroRecordIds(path: Path, record: Schema, id: int) returns (ids: map<string, int>, next: int)
    requires record.RecordSchema?
    ensures ids == Numbered(Walk(Level, path, Shape(record)), id)
    ensures next == id + |Walk(Level, path, Shape(record))|
    decreases record, 1
  {
    ids, next := AvroHeadIds(path, record, id);
    ghost var t := Shape(record);
    ghost var heads := Heads(path, t.children);
    ids, next := AvroBelowIds(path, record, t, heads, id, ids, next);
    assert Walk(Level, path, t) == heads + Below(Level, path, t, |t.children|);
  }

  ghost predicate IsShapeOf(t: Tree, record: Schema)
    requires record.RecordSchema?
  {
    |t.children| == |record.fields| &&
    forall i :: 0 <= i < |record.fields| ==>
      t.children[i] == Child(record.fields[i].name, Shape(record.fields[i].schema))
  }

  method AvroFieldIds(path: Path, field: Field, ghost t: Tree, ghost i: nat, ghost heads: seq<Path>, ghost id: int,
                      numbered: map<string, int>, from: int)
    returns (ids: map<string, int>, next: int)
    requires i < |t.children| && t.children[i] == Child(field.name, Shape(field.schema))
    requires numbered == Numbered(Done(Level, path, t, heads, i), id) && from == id + |Done(Level, path, t, heads, i)|
    ensures ids == Numbered(Done(Level, path, t, heads, i + 1), id) && next == id + |Done(Level, path, t, heads, i + 1)|
    decreases field.schema, 3
  {
    BlockExtends(Level, path, t, i, heads, id);
    ids, next := AvroIds(path + [field.name], field.schema, from);
    ids := numbered + ids;
  }

  /** Then the walk descends into each of them in turn. */
  method AvroBelowIds(path: Path, record: Schema, ghost t: Tree, ghost heads: seq<Path>, ghost id: int,
                      numbered: map<string, int>, from: int)
    returns (ids: map<string, int>, next: int)
    requires record.RecordSchema? && IsShapeOf(t, record)
    requires numbered == Numbered(heads, id) && from == id + |heads|
    ensures ids == Numbered(Done(Level, path, t, heads, |t.children|), id)
    ensures next == id + |Done(Level, path, t, heads, |t.children|)|
    decreases record, 0
  {
    ids, next := numbered, from;
    assert Done(Level, path, t, heads, 0) == heads;
    for i := 0 to |record.fields|
      invariant ids == Numbered(Done(Level, path, t, heads, i), id)
      invariant next == id + |Done(Level, path, t, heads, i)|
    {
      ids, next := AvroFieldIds(path, record.fields[i], t, i, heads, id, ids, next);
    }
  }

  lemma {:induction false} BelowGrows(mode: Mode, path: Path, t: Tree, i: nat)
    requires mode.SiblingsFirst() && i < |t.children|
    ensures Below(mode, path, t, i + 1) ==
            Below(mode, path, t, i) + Walk(mode.Inner(), path + [t.children[i].name], t.children[i].tree)
  {
    var walk := Walk(mode.Inner(), path + [t.children[i].name], t.children[i].tree);
    assert [] + walk == walk;
  }

  /** The heads, and what is numbered in descending into the first `n` children. */
  ghost function Done(mode: Mode, path: Path, t: Tree, heads: seq<Path>, n: nat): seq<Path>
    requires n <= |t.children|
  {
    heads + Below(mode, path, t, n)
  }

  /** Descending into one more child adds its block to what has been numbered. */
  lemma {:induction false} BlockExtends(mode: Mode, path: Path, t: Tree, i: nat, heads: seq<Path>, id: int)
    requires mode.SiblingsFirst() && i < |t.children|
    ensures
      var before, after := Done(mode, path, t, heads, i), Done(mode, path, t, heads, i + 1);
      var block := Walk(mode.Inner(), path + [t.children[i].name], t.children[i].tree);
      && Numbered(after, id) == Numbered(before, id) + Numbered(block, id + |before|)
      && |after| == |before| + |block|
  {
    var child := t.children[i];
    var below, block := Below(mode, path, t, i), Walk(mode.Inner(), path + [child.name], child.tree);
    BelowGrows(mode, path, t, i);
    Associate(heads, below, block);
    NumberedExtends(heads + below, block, id);
  }

  // ---- the JSON walk

  /** The parts of a JSON schema the walk looks at: its type, its properties in order, its items. */
  datatype Node = Node(kind: Option<string>, properties: Properties, items: Option<Node>)
  datatype Properties = Absent | Listed(list: seq<Property>)
  datatype Property = Property(name: string, node: Node)

  function Outline(node: Node): Tree
    decreases node, 1
  {
    if node.kind == Some("object") && node.properties.Listed? then Tree(Outlines(node, |node.properties.list|))
    else if node.kind == Some("array") then
      Tree([Child(LIST_ITEM, if node.items.Some? then Outline(node.items.value) else LEAF)])
    else LEAF
  }

  function Outlines(node: Node, n: nat): (r: seq<Child>)
    requires node.properties.Listed? && n <= |node.properties.list|
    ensures |r| == n
    ensures forall i :: 0 <= i < n ==>
      r[i] == Child(node.properties.list[i].name, Outline(node.properties.list[i].node))
    decreases node, 0, n
  {
    if n == 0 then []
    else
      var property := node.properties.list[n - 1];
      Outlines(node, n - 1) + [Child(property.name, Outline(property.node))]
  }

  method JsonIds(path: Path, node: Node, id: int) returns (ids: map<string, int>, next: int)
    ensures ids == Numbered(Walk(Pre, path, Outline(node)), id)
    ensures next == id + |Walk(Pre, path, Outline(node))|
    decreases node, 1
  {
    ids, next := map[], id;
    if node.kind == Some("object") {
      if node.properties.Listed? {
        ids, next := JsonObjectIds(path, node, id);
      } else {
        WalkLeaf(Pre, path);
      }
    } else if node.kind == Some("array") {
      var inside := path + [LIST_ITEM];
      ids := ids[Join(inside) := next];
      next := next + 1;
      ghost var item := if node.items.Some? then Outline(node.items.value) else LEAF;
      if node.items.Some? {
        var more;
        more, next := JsonIds(inside, node.items.value, next);
        ids := ids + more;
      } else {
        WalkLeaf(Pre, inside);
      }
      ItemExtends(Pre, path, item, id);
    } else {
      WalkLeaf(Pre, path);
    }
  }

  /** A property is numbered, and then what is below it. */
  lemma {:induction false} PropertyExtends(before: seq<Path>, inside: Path, block: seq<Path>, id: int)
    ensures Numbered(before + ([inside] + block), id) ==
            Numbered(before, id)[Join(inside) := id + |before|] + Numbered(block, id + |before| + 1)
  {
    Associate(before, [inside], block);
    AllButLast(before, [inside]);
    NumberedExtends(before + [inside], block, id);
  }

  lemma {:induction false} PreWalk(path: Path, t: Tree)
    ensures Walk(Pre, path, t) == Below(Pre, path, t, |t.children|)
  {
    assert [] + Below(Pre, path, t, |t.children|) == Below(Pre, path, t, |t.children|);
  }

  /** One property: its own id, then the ids below it. */
  method JsonPropertyIds(inside: Path, node: Node, ghost before: seq<Path>, ghost id: int, numbered: map<string, int>,
      from: int)
    returns (ids: map<string, int>, next: int)
    requires numbered == Numbered(before, id) && from == id + |before|
    ensures ids == Numbered(before + ([inside] + Walk(Pre, inside, Outline(node))), id)
    ensures next == id + |before + ([inside] + Walk(Pre, inside, Outline(node)))|
    decreases node, 2
  {
    PropertyExtends(before, inside, Walk(Pre, inside, Outline(node)), id);
    ids := numbered[Join(inside) := from];
    var more;
    more, next := JsonIds(inside, node, from + 1);
    ids := ids + more;
  }

  method JsonObjectIds(path: Path, node: Node, id: int) returns (ids: map<string, int>, next: int)
    requires node.kind == Some("object") && node.properties.Listed?
    ensures ids == Numbered(Walk(Pre, path, Outline(node)), id)
    ensures next == id + |Walk(Pre, path, Outline(node))|
    decreases node, 0
  {
    ids, next := map[], id;
    ghost var t := Outline(node);
    var properties := node.properties.list;
    for i := 0 to |properties|
      invariant ids == Numbered(Below(Pre, path, t, i), id) && next == id + |Below(Pre, path, t, i)|
    {
      ids, next := JsonPropertyIds(path + [properties[i].name], properties[i].node, Below(Pre, path, t, i), id,
        ids, next);
      assert t.children[i] == Child(properties[i].name, Outline(properties[i].node));
    }
    PreWalk(path, t);
  }

  const KINDS := ["meta", "key", "value"]

  /** The value of the first property of that name. */
  function Lookup(properties: seq<Property>, name: string): Option<Node> {
    if properties == [] then None
    else if properties[0].name == name then Some(properties[0].node)
    else Lookup(properties[1..], name)
  }

  function KindOf(schema: Node, i: nat): Option<Node>
    requires i < |KINDS|
  {
    if schema.properties.Listed? then Lookup(schema.properties.list, KINDS[i]) else None
  }

  /** The message kinds that are present, in their own order. */
  function Present(schema: Node, n: nat): seq<Child>
    requires n <= |KINDS|
  {
    if n == 0 then []
    else
      var kind := KindOf(schema, n - 1);
      Present(schema, n - 1) + if kind.Some? then [Child(KINDS[n - 1], Outline(kind.value))] else []
  }

  function Outermost(schema: Node): Tree {
    Tree(Present(schema, |KINDS|))
  }

  lemma {:induction false} PresentGrows(schema: Node, n: nat, m: nat)
    requires n <= m <= |KINDS|
    ensures Present(schema, n) <= Present(schema, m)
    decreases m
  {
    if n < m {
      PresentGrows(schema, n, m - 1);
    }
  }

  /** The kinds that are present are numbered first. */
  method KindIds(schema: Node) returns (ids: map<string, int>, next: int)
    ensures ids == Numbered(Heads([], Outermost(schema).children), 1)
    ensures next == 1 + |Outermost(schema).children|
  {
    ids, next := map[], 1;
    ghost var heads := Heads([], Outermost(schema).children);
    for i := 0 to |KINDS|
      invariant |Present(schema, i)| <= |heads|
      invariant ids == Numbered(heads[..|Present(schema, i)|], 1) && next == 1 + |Present(schema, i)|
    {
      PresentIs(schema, i);
      if KindOf(schema, i).Some? {
        ghost var k := |Present(schema, i)|;
        Grow(heads, k);
        assert heads[k] == [KINDS[i]];
        ids := ids[KINDS[i] := next];
        next := next + 1;
      }
    }
    assert heads[..|heads|] == heads;
  }

  lemma {:induction false} PresentIs(schema: Node, i: nat)
    requires i < |KINDS|
    ensures
      var t, k := Outermost(schema), |Present(schema, i)|;
      if KindOf(schema, i).Some? then
        k < |t.children| && t.children[k] == Child(KINDS[i], Outline(KindOf(schema, i).value)) &&
          |Present(schema, i + 1)| == k + 1
      else |Present(schema, i + 1)| == k <= |t.children|
  {
    PresentGrows(schema, i + 1, |KINDS|);
    if KindOf(schema, i).Some? {
      var k := |Present(schema, i)|;
      assert Present(schema, i + 1)[k] == Present(schema, |KINDS|)[k];
    }
  }

  method KindBelowIds(kind: string, node: Node, ghost t: Tree, ghost heads: seq<Path>, ghost k: nat,
                      numbered: map<string, int>, from: int)
    returns (ids: map<string, int>, next: int)
    requires k < |t.children| && t.children[k] == Child(kind, Outline(node))
    requires numbered == Numbered(Done(Top, [], t, heads, k), 1) && from == 1 + |Done(Top, [], t, heads, k)|
    ensures ids == Numbered(Done(Top, [], t, heads, k + 1), 1) && next == 1 + |Done(Top, [], t, heads, k + 1)|
  {
    BlockExtends(Top, [], t, k, heads, 1);
    assert [] + [kind] == [kind];
    ids, next := JsonIds([kind], node, from);
    ids := numbered + ids;
  }

  /** The ids of a whole message schema: its kinds first, then below each of them. */
  method MessageIds(schema: Node) returns (ids: map<string, int>, next: int)
    ensures ids == Numbered(Walk(Top, [], Outermost(schema)), 1)
    ensures next == 1 + |Walk(Top, [], Outermost(schema))|
  {
    ids, next := KindIds(schema);
    ghost var t := Outermost(schema);
    ghost var heads := Heads([], t.children);
    ghost var k := 0;
    assert Done(Top, [], t, heads, 0) == heads;
    for i := 0 to |KINDS|
      invariant k == |Present(schema, i)| <= |t.children|
      invariant ids == Numbered(Done(Top, [], t, heads, k), 1)
      invariant next == 1 + |Done(Top, [], t, heads, k)|
    {
      PresentIs(schema, i);
      var kind := KindOf(schema, i);
      if kind.Some? {
        ids, next := KindBelowIds(KINDS[i], kind.value, t, heads, k, ids, next);
        k := k + 1;
      }
    }
  }
}
