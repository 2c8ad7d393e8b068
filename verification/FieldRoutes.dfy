/**
 The fields of a schema by their routes, and what both numberings promise in terms of them: which
 fields have an id, when the ids are exact, and in which order they are given out.
 */
module FieldRoutes {
  import opened Wire
  import opened Avro
  import opened FieldIds
  import opened IdOrder
  import opened SchemaIds

  // ---- the fields of an Avro schema

  /** A route into a schema: through the items of an array, the keys and values of a map, the fields of a record. */
  predicate IsField(schema: Schema, route: Path)
    decreases schema
  {
    match schema
    case ArraySchema(items) =>
      route != [] && route[0] == "element" && (|route| == 1 || IsField(items, route[1..]))
    case MapSchema(types) =>
      || route == ["entries"] || route == ["entries", "keys"] || route == ["entries", "values"]
      || (|route| > 2 && route[0] == "entries" && route[1] == "values" && IsField(types, route[2..]))
    case RecordSchema(fields) =>
      && route != []
      && exists i :: 0 <= i < |fields| && fields[i].name == route[0] &&
           (|route| == 1 || IsField(fields[i].schema, route[1..]))
    case _ => false
  }

  lemma NodeOfOne(child: Child, route: Path)
    ensures IsNode(Tree([child]), route) <==>
      route != [] && route[0] == child.name && (|route| == 1 || IsNode(child.tree, route[1..]))
  {
    var t := Tree([child]);
    assert t.children[0] == child;
  }

  lemma NodeOfTwo(a: Child, b: Child, route: Path)
    ensures route == [] ==> !IsNode(Tree([a, b]), route)
    ensures route != [] ==>
      (IsNode(Tree([a, b]), route) <==>
         || (route[0] == a.name && (|route| == 1 || IsNode(a.tree, route[1..])))
         || (route[0] == b.name && (|route| == 1 || IsNode(b.tree, route[1..]))))
  {
    var t := Tree([a, b]);
    assert t.children[0] == a && t.children[1] == b;
  }

  lemma {:induction false} EntryIsNode(types: Schema, route: Path)
    requires |route| > 2 ==> (IsNode(Shape(types), route[2..]) <==> IsField(types, route[2..]))
    ensures IsNode(Shape(MapSchema(types)), route) <==> IsField(MapSchema(types), route)
  {
    var entries := Tree([Child("keys", LEAF), Child("values", Shape(types))]);
    NodeOfOne(Child("entries", entries), route);
    if |route| > 1 {
      NodeOfTwo(Child("keys", LEAF), Child("values", Shape(types)), route[1..]);
      assert route[1..][1..] == route[2..];
      assert |route| == 2 ==> route == [route[0], route[1]];
    } else if |route| == 1 {
      assert route == [route[0]];
    }
  }

  /** The tree that is walked has the fields of the schema for its nodes. */
  lemma {:induction false} NodesAreFields(schema: Schema, route: Path)
    ensures IsNode(Shape(schema), route) <==> IsField(schema, route)
    decreases schema
  {
    match schema
    case ArraySchema(items) =>
      NodeOfOne(Child(LIST_ITEM, Shape(items)), route);
      if |route| > 1 {
        NodesAreFields(items, route[1..]);
      }
    case MapSchema(types) =>
      if |route| > 2 {
        NodesAreFields(types, route[2..]);
      }
      EntryIsNode(types, route);
    case RecordSchema(fields) =>
      if |route| > 1 {
        forall i | 0 <= i < |fields|
          ensures IsNode(Shape(fields[i].schema), route[1..]) <==> IsField(fields[i].schema, route[1..])
        {
          NodesAreFields(fields[i].schema, route[1..]);
        }
      }
      RecordNodes(schema, route);
    case _ =>
  }

  lemma RecordNodes(record: Schema, route: Path)
    requires record.RecordSchema?
    requires |route| > 1 ==> forall i :: 0 <= i < |record.fields| ==>
      (IsNode(Shape(record.fields[i].schema), route[1..]) <==> IsField(record.fields[i].schema, route[1..]))
    ensures IsNode(Shape(record), route) <==> IsField(record, route)
  {
    var t, fields := Shape(record), record.fields;
    assert forall i :: 0 <= i < |fields| ==> t.children[i] == Child(fields[i].name, Shape(fields[i].schema));
  }

  // ---- the fields of a JSON schema

  /** A route into a schema: through the properties of an object and the items of an array. */
  predicate IsProperty(node: Node, route: Path)
    decreases node
  {
    || (&& node.kind == Some("object") && node.properties.Listed? && route != []
        && exists i :: 0 <= i < |node.properties.list| && node.properties.list[i].name == route[0] &&
             (|route| == 1 || IsProperty(node.properties.list[i].node, route[1..])))
    || (&& node.kind == Some("array") && route != [] && route[0] == "element"
        && (|route| == 1 || (node.items.Some? && IsProperty(node.items.value, route[1..]))))
  }

  lemma {:induction false} NodesAreProperties(node: Node, route: Path)
    ensures IsNode(Outline(node), route) <==> IsProperty(node, route)
    decreases node
  {
    if node.kind == Some("object") && node.properties.Listed? {
      var list := node.properties.list;
      if |route| > 1 {
        forall i | 0 <= i < |list|
          ensures IsNode(Outline(list[i].node), route[1..]) <==> IsProperty(list[i].node, route[1..])
        {
          NodesAreProperties(list[i].node, route[1..]);
        }
      }
      var t := Outline(node);
      assert forall i :: 0 <= i < |list| ==> t.children[i] == Child(list[i].name, Outline(list[i].node));
    } else if node.kind == Some("array") {
      var item := if node.items.Some? then Outline(node.items.value) else LEAF;
      NodeOfOne(Child(LIST_ITEM, item), route);
      if |route| > 1 && node.items.Some? {
        NodesAreProperties(node.items.value, route[1..]);
      }
    }
  }

  /** The first property of a name. */
  predicate FirstNamed(list: seq<Property>, i: int, name: string) {
    0 <= i < |list| && list[i].name == name && forall j :: 0 <= j < i ==> list[j].name != name
  }

  /** A field of a message: its metadata, key or value, or a property below one of them. */
  ghost predicate IsMessageField(schema: Node, route: Path) {
    && schema.properties.Listed? && route != [] && route[0] in {"meta", "key", "value"}
    && exists i :: FirstNamed(schema.properties.list, i, route[0]) &&
         (|route| == 1 || IsProperty(schema.properties.list[i].node, route[1..]))
  }

  lemma {:induction false} LookupIsFirst(list: seq<Property>, i: int, name: string)
    requires FirstNamed(list, i, name)
    ensures Lookup(list, name) == Some(list[i].node)
  {
    if i > 0 {
      assert forall j :: 0 <= j < i ==> list[j].name != name;
      LookupIsFirst(list[1..], i - 1, name);
    }
  }

  lemma {:induction false} FirstIsFound(list: seq<Property>, name: string) returns (i: nat)
    requires Lookup(list, name).Some?
    ensures FirstNamed(list, i, name)
  {
    if list[0].name == name {
      i := 0;
    } else {
      i := FirstIsFound(list[1..], name);
      i := i + 1;
      forall j | 0 <= j < i ensures list[j].name != name {
        assert j > 0 ==> list[j] == list[1..][j - 1];
      }
    }
  }

  /** The kinds that are present are the children, each with its outline. */
  lemma {:induction false} PresentHolds(schema: Node, n: nat, name: string, t: Tree)
    requires n <= |KINDS|
    ensures Child(name, t) in Present(schema, n) <==>
      exists k :: 0 <= k < n && KINDS[k] == name && KindOf(schema, k).Some? && t == Outline(KindOf(schema, k).value)
  {
    if n > 0 {
      PresentHolds(schema, n - 1, name, t);
      PresentSteps(schema, n);
    }
  }

  lemma {:induction false} NodeIsMessageField(schema: Node, route: Path)
    requires IsNode(Outermost(schema), route)
    ensures IsMessageField(schema, route)
  {
    var children := Present(schema, |KINDS|);
    var c :| 0 <= c < |children| && children[c].name == route[0] &&
             (|route| == 1 || IsNode(children[c].tree, route[1..]));
    PresentHolds(schema, |KINDS|, route[0], children[c].tree);
    var k :| 0 <= k < |KINDS| && KINDS[k] == route[0] && KindOf(schema, k).Some? &&
             children[c].tree == Outline(KindOf(schema, k).value);
    var i := FirstIsFound(schema.properties.list, route[0]);
    LookupIsFirst(schema.properties.list, i, route[0]);
    if |route| > 1 {
      NodesAreProperties(schema.properties.list[i].node, route[1..]);
    }
  }

  lemma {:induction false} MessageFieldIsNode(schema: Node, route: Path)
    requires IsMessageField(schema, route)
    ensures IsNode(Outermost(schema), route)
  {
    var list, children := schema.properties.list, Present(schema, |KINDS|);
    var i :| FirstNamed(list, i, route[0]) && (|route| == 1 || IsProperty(list[i].node, route[1..]));
    LookupIsFirst(list, i, route[0]);
    assert KINDS[0] == "meta" && KINDS[1] == "key" && KINDS[2] == "value";
    var k := if route[0] == "meta" then 0 else if route[0] == "key" then 1 else 2;
    assert KindOf(schema, k) == Some(list[i].node);
    PresentHolds(schema, |KINDS|, route[0], Outline(list[i].node));
    if |route| > 1 {
      NodesAreProperties(list[i].node, route[1..]);
    }
    var c :| 0 <= c < |children| && children[c] == Child(route[0], Outline(list[i].node));
  }

  lemma {:induction false} MessageNodesAreFields(schema: Node, route: Path)
    ensures IsNode(Outermost(schema), route) <==> IsMessageField(schema, route)
  {
    if IsNode(Outermost(schema), route) {
      NodeIsMessageField(schema, route);
    }
    if IsMessageField(schema, route) {
      MessageFieldIsNode(schema, route);
    }
  }

  // ---- exact ids

  /**
   The ids up to `next` number the fields: every field has one and nothing else has, none is left
   out, different fields have different ids, and a field's id is below those of the fields under it.
   */
  ghost predicate ExactIds(ids: map<string, int>, next: int, fields: iset<Path>) {
    && (forall name :: name in ids ==> 1 <= ids[name] < next)
    && Gapless(ids, 1, next)
    && (forall p :: p in fields ==> Join(p) in ids)
    && (forall name :: name in ids ==> exists p :: p in fields && Join(p) == name)
    && (forall p, q :: p in fields && q in fields && p != q ==> ids[Join(p)] != ids[Join(q)])
    && (forall p, q :: p in fields && q in fields && Under(p, q) ==> ids[Join(p)] < ids[Join(q)])
  }

  /** No two fields join to the same name. */
  ghost predicate Apart(fields: iset<Path>) {
    forall p, q :: p in fields && q in fields && p != q ==> Join(p) != Join(q)
  }

  /** The routes to the nodes of a tree. */
  ghost function NodesOf(t: Tree): iset<Path> {
    iset route | IsNode(t, route)
  }

  lemma ApartIsJoinApart(mode: Mode, t: Tree)
    requires DistinctSiblings(t)
    ensures Apart(NodesOf(t)) <==> JoinApart(Walk(mode, [], t))
  {
    var paths := Walk(mode, [], t);
    WalkInOrder(mode, [], t);
    if Apart(NodesOf(t)) {
      forall i, j | 0 <= i < j < |paths| ensures Join(paths[i]) != Join(paths[j]) {
        var a := NumberedAreNodes(mode, [], t, paths[i]);
        var b := NumberedAreNodes(mode, [], t, paths[j]);
        assert a == paths[i] && b == paths[j] && a in NodesOf(t) && b in NodesOf(t);
      }
    }
    if JoinApart(paths) {
      forall p, q | p in NodesOf(t) && q in NodesOf(t) && p != q ensures Join(p) != Join(q) {
        var i := PlaceOf(mode, t, p);
        var j := PlaceOf(mode, t, q);
      }
    }
  }

  lemma ExactIdsIffApart(mode: Mode, t: Tree)
    requires DistinctSiblings(t)
    ensures ExactIds(IdsOf(mode, t), 1 + |Walk(mode, [], t)|, NodesOf(t)) <==> Apart(NodesOf(t))
  {
    ApartIsJoinApart(mode, t);
    if Apart(NodesOf(t)) {
      NamesAreOfNodes(mode, t);
      ApartIsExact(mode, t);
    }
  }

  lemma NamesAreOfNodes(mode: Mode, t: Tree)
    ensures forall name :: name in IdsOf(mode, t) ==> exists p :: p in NodesOf(t) && Join(p) == name
  {
    var ids, paths := IdsOf(mode, t), Walk(mode, [], t);
    forall name | name in ids ensures exists p :: p in NodesOf(t) && Join(p) == name {
      IdsAreOfPaths(paths, 1, name);
      var i :| 0 <= i < |paths| && Join(paths[i]) == name;
      var p := NumberedAreNodes(mode, [], t, paths[i]);
      assert p == paths[i] && p in NodesOf(t);
    }
  }

  ghost function FieldsOf(schema: Schema): iset<Path> {
    iset route | IsField(schema, route)
  }

  ghost function MessageFieldsOf(schema: Node): iset<Path> {
    iset route | IsMessageField(schema, route)
  }

  lemma FieldsAreNodes(schema: Schema)
    ensures FieldsOf(schema) == NodesOf(Shape(schema))
  {
    forall p ensures p in FieldsOf(schema) <==> p in NodesOf(Shape(schema)) {
      NodesAreFields(schema, p);
    }
  }

  lemma MessageFieldsAreNodes(schema: Node)
    ensures MessageFieldsOf(schema) == NodesOf(Outermost(schema))
  {
    forall p ensures p in MessageFieldsOf(schema) <==> p in NodesOf(Outermost(schema)) {
      MessageNodesAreFields(schema, p);
    }
  }

  /** Number the fields of an Avro schema: the ids are exact if and only if no two fields join to the same name. */
  method AvroSchemaIds(schema: Schema) returns (ids: map<string, int>, next: int)
    requires DistinctFields(schema)
    ensures ExactIds(ids, next, FieldsOf(schema)) <==> Apart(FieldsOf(schema))
    ensures DotlessNames(schema) ==> ExactIds(ids, next, FieldsOf(schema))
  {
    ids, next := AvroIds([], schema, 1);
    AvroIdsExactIff(schema);
  }

  lemma AvroIdsExactIff(schema: Schema)
    requires DistinctFields(schema)
    ensures
      var t := Shape(schema);
      ExactIds(IdsOf(Level, t), 1 + |Walk(Level, [], t)|, FieldsOf(schema)) <==> Apart(FieldsOf(schema))
    ensures DotlessNames(schema) ==> Apart(FieldsOf(schema))
  {
    FieldsAreNodes(schema);
    ShapeIsDistinct(schema);
    ExactIdsIffApart(Level, Shape(schema));
    if DotlessNames(schema) {
      ShapeIsApart(schema);
      ApartIsJoinApart(Level, Shape(schema));
    }
  }

  /** Number the fields of a message schema in JSON, whose property names may hold dots. */
  method MessageSchemaIds(schema: Node) returns (ids: map<string, int>, next: int)
    requires DistinctProperties(schema)
    ensures ExactIds(ids, next, MessageFieldsOf(schema)) <==> Apart(MessageFieldsOf(schema))
    ensures DotlessProperties(schema) ==> ExactIds(ids, next, MessageFieldsOf(schema))
  {
    ids, next := MessageIds(schema);
    MessageIdsExactIff(schema);
  }

  lemma MessageIdsExactIff(schema: Node)
    requires DistinctProperties(schema)
    ensures
      var t := Outermost(schema);
      ExactIds(IdsOf(Top, t), 1 + |Walk(Top, [], t)|, MessageFieldsOf(schema)) <==> Apart(MessageFieldsOf(schema))
    ensures DotlessProperties(schema) ==> Apart(MessageFieldsOf(schema))
  {
    MessageFieldsAreNodes(schema);
    OutermostIsDistinct(schema);
    ExactIdsIffApart(Top, Outermost(schema));
    if DotlessProperties(schema) {
      OutermostIsApart(schema);
      ApartIsJoinApart(Top, Outermost(schema));
    }
  }

  lemma OutermostIsDistinct(schema: Node)
    requires DistinctProperties(schema)
    ensures DistinctSiblings(Outermost(schema))
  {
    PresentIsDistinct(schema, |KINDS|);
    assert Outermost(schema).children == Present(schema, |KINDS|);
  }

  // ---- the order of the ids

  /** The one path stands before the other. */
  predicate Before(paths: seq<Path>, p: Path, q: Path) {
    exists i, j {:trigger paths[i], paths[j]} :: 0 <= i < j < |paths| && paths[i] == p && paths[j] == q
  }

  lemma BeforeAcross(a: seq<Path>, b: seq<Path>, p: Path, q: Path)
    requires p in a && q in b
    ensures Before(a + b, p, q)
  {
    var i :| 0 <= i < |a| && a[i] == p;
    var j :| 0 <= j < |b| && b[j] == q;
    assert (a + b)[i] == p && (a + b)[|a| + j] == q;
  }

  lemma BeforeWithin(a: seq<Path>, b: seq<Path>, p: Path, q: Path)
    requires Before(a, p, q) || Before(b, p, q)
    ensures Before(a + b, p, q)
  {
    if Before(a, p, q) {
      var i, j :| 0 <= i < j < |a| && a[i] == p && a[j] == q;
      assert (a + b)[i] == p && (a + b)[j] == q;
    } else {
      var i, j :| 0 <= i < j < |b| && b[i] == p && b[j] == q;
      assert (a + b)[|a| + i] == p && (a + b)[|a| + j] == q;
    }
  }

  function Own(path: Path, t: Tree, i: nat): Path
    requires i < |t.children|
  {
    path + [t.children[i].name]
  }

  /** What stands before in a block stands before in the walk. */
  lemma {:induction false} BlockWithin(mode: Mode, path: Path, t: Tree, i: nat, n: nat, p: Path, q: Path)
    requires i < n <= |t.children| && Before(Block(mode, Own(path, t, i), t.children[i].tree), p, q)
    ensures Before(Below(mode, path, t, n), p, q)
    decreases n
  {
    var child := t.children[n - 1];
    if i < n - 1 {
      BlockWithin(mode, path, t, i, n - 1, p, q);
    }
    BeforeWithin(Below(mode, path, t, n - 1), Block(mode, path + [child.name], child.tree), p, q);
  }

  lemma {:induction false} WalkWithin(mode: Mode, path: Path, t: Tree, i: nat, p: Path, q: Path)
    requires i < |t.children| && Before(Walk(mode.Inner(), Own(path, t, i), t.children[i].tree), p, q)
    ensures Before(Walk(mode, path, t), p, q)
  {
    var own, tree := Own(path, t, i), t.children[i].tree;
    BeforeWithin(if mode.SiblingsFirst() then [] else [own], Walk(mode.Inner(), own, tree), p, q);
    BlockWithin(mode, path, t, i, |t.children|, p, q);
    BeforeWithin(if mode.SiblingsFirst() then Heads(path, t.children) else [],
      Below(mode, path, t, |t.children|), p, q);
  }

  /** Where siblings come first, they come in order, and before all that is below any of them. */
  lemma {:induction false} SiblingsFirst(mode: Mode, path: Path, t: Tree, i: nat, k: nat, inner: Path)
    requires mode.SiblingsFirst() && i < |t.children| && k < |t.children|
    ensures i < k ==> Before(Walk(mode, path, t), Own(path, t, i), Own(path, t, k))
    ensures IsNode(t.children[i].tree, inner) ==> Before(Walk(mode, path, t), Own(path, t, k), Own(path, t, i) + inner)
  {
    var heads, below := Heads(path, t.children), Below(mode, path, t, |t.children|);
    assert heads[i] == Own(path, t, i) && heads[k] == Own(path, t, k);
    if i < k {
      assert Before(heads, Own(path, t, i), Own(path, t, k));
      BeforeWithin(heads, below, Own(path, t, i), Own(path, t, k));
    }
    if IsNode(t.children[i].tree, inner) {
      NodesAreNumbered(mode.Inner(), Own(path, t, i), t.children[i].tree, inner);
      BelowHolds(mode, path, t, |t.children|, i);
      BeforeAcross(heads, below, Own(path, t, k), Own(path, t, i) + inner);
    }
  }

  /** Where the walk descends at once, a child and all that is below it come before the next child. */
  lemma {:induction false} DescendsAtOnce(path: Path, t: Tree, i: nat, k: nat, n: nat, inner: Path)
    requires i < k < n <= |t.children| && (inner == [] || IsNode(t.children[i].tree, inner))
    ensures Before(Below(Pre, path, t, n), Own(path, t, i) + inner, Own(path, t, k))
    decreases n
  {
    var child := t.children[n - 1];
    var before, block := Below(Pre, path, t, n - 1), Block(Pre, path + [child.name], child.tree);
    if k < n - 1 {
      DescendsAtOnce(path, t, i, k, n - 1, inner);
      BeforeWithin(before, block, Own(path, t, i) + inner, Own(path, t, k));
    } else {
      InBlock(path, t, i, inner);
      BelowHolds(Pre, path, t, n - 1, i);
      assert block[0] == Own(path, t, k);
      BeforeAcross(before, block, Own(path, t, i) + inner, Own(path, t, k));
    }
  }

  lemma InBlock(path: Path, t: Tree, i: nat, inner: Path)
    requires i < |t.children| && (inner == [] || IsNode(t.children[i].tree, inner))
    ensures Own(path, t, i) + inner in Block(Pre, Own(path, t, i), t.children[i].tree)
  {
    if inner == [] {
      assert Own(path, t, i) + inner == Own(path, t, i);
      assert Block(Pre, Own(path, t, i), t.children[i].tree)[0] == Own(path, t, i);
    } else {
      NodesAreNumbered(Pre, Own(path, t, i), t.children[i].tree, inner);
    }
  }

  /** Of paths that join to different names, the one that stands before has the smaller id. */
  lemma BeforeIsBelow(paths: seq<Path>, p: Path, q: Path)
    requires JoinApart(paths) && Before(paths, p, q)
    ensures Join(p) in Numbered(paths, 1) && Join(q) in Numbered(paths, 1)
    ensures Numbered(paths, 1)[Join(p)] < Numbered(paths, 1)[Join(q)]
  {
    var i, j :| 0 <= i < j < |paths| && paths[i] == p && paths[j] == q;
    ApartIdIsPlace(paths, 1, i);
    ApartIdIsPlace(paths, 1, j);
  }

  /** A route leads to this part of an Avro schema. */
  predicate LeadsTo(schema: Schema, route: Path, part: Schema)
    decreases schema
  {
    || (route == [] && part == schema)
    || (match schema
        case ArraySchema(items) => route != [] && route[0] == "element" && LeadsTo(items, route[1..], part)
        case MapSchema(types) =>
          |route| > 1 && route[0] == "entries" && route[1] == "values" && LeadsTo(types, route[2..], part)
        case RecordSchema(fields) =>
          && route != []
          && exists i :: 0 <= i < |fields| && fields[i].name == route[0] && LeadsTo(fields[i].schema, route[1..], part)
        case _ => false)
  }

  /** What stands before in the walk of a part stands before in the walk of the whole. */
  lemma {:induction false} PartWithin(path: Path, schema: Schema, route: Path, part: Schema, p: Path, q: Path)
    requires LeadsTo(schema, route, part) && Before(Walk(Level, path + route, Shape(part)), p, q)
    ensures Before(Walk(Level, path, Shape(schema)), p, q)
    decreases schema
  {
    if route == [] {
      assert path + route == path;
    } else {
      match schema
      case ArraySchema(items) =>
        StepInto(path, route, 1);
        PartWithin(path + ["element"], items, route[1..], part, p, q);
        WalkWithin(Level, path, Shape(schema), 0, p, q);
      case MapSchema(types) =>
        StepInto(path, route, 2);
        PartWithin(path + ["entries", "values"], types, route[2..], part, p, q);
        var entries := Shape(schema).children[0].tree;
        assert path + ["entries"] + ["values"] == path + ["entries", "values"];
        WalkWithin(Level, path + ["entries"], entries, 1, p, q);
        WalkWithin(Level, path, Shape(schema), 0, p, q);
      case RecordSchema(fields) =>
        var i :| 0 <= i < |fields| && fields[i].name == route[0] && LeadsTo(fields[i].schema, route[1..], part);
        StepInto(path, route, 1);
        PartWithin(path + [fields[i].name], fields[i].schema, route[1..], part, p, q);
        assert Shape(schema).children[i] == Child(fields[i].name, Shape(fields[i].schema));
        WalkWithin(Level, path, Shape(schema), i, p, q);
    }
  }

  lemma StepInto(path: Path, route: Path, n: nat)
    requires n <= |route|
    ensures path + route[..n] + route[n..] == path + route
    ensures n == 1 ==> route[..n] == [route[0]]
    ensures n == 2 ==> route[..n] == [route[0], route[1]]
  {
  }

  /**
   The fields of every record of an Avro schema are numbered in the order they are declared, and all
   of them before anything below any of them.
   */
  lemma {:induction false} RecordsInOrder(schema: Schema, route: Path, fields: seq<Field>, i: nat, k: nat, inner: Path)
    requires DistinctFields(schema) && Apart(FieldsOf(schema))
    requires LeadsTo(schema, route, RecordSchema(fields)) && i < |fields| && k < |fields|
    ensures
      var ids := IdsOf(Level, Shape(schema));
      var a, b := Join(route + [fields[i].name]), Join(route + [fields[k].name]);
      && (i < k ==> a in ids && b in ids && ids[a] < ids[b])
      && (IsField(fields[i].schema, inner) ==>
            var c := Join(route + [fields[i].name] + inner);
            b in ids && c in ids && ids[b] < ids[c])
  {
    var part := RecordSchema(fields);
    var t, paths := Shape(part), Walk(Level, [], Shape(schema));
    FieldsAreNodes(schema);
    ShapeIsDistinct(schema);
    ApartIsJoinApart(Level, Shape(schema));
    NodesAreFields(fields[i].schema, inner);
    assert t.children[i] == Child(fields[i].name, Shape(fields[i].schema));
    assert t.children[k].name == fields[k].name;
    SiblingsFirst(Level, route, t, i, k, inner);
    assert [] + route == route;
    if i < k {
      PartWithin([], schema, route, part, Own(route, t, i), Own(route, t, k));
      BeforeIsBelow(paths, Own(route, t, i), Own(route, t, k));
    }
    if IsField(fields[i].schema, inner) {
      PartWithin([], schema, route, part, Own(route, t, k), Own(route, t, i) + inner);
      BeforeIsBelow(paths, Own(route, t, k), Own(route, t, i) + inner);
    }
  }

  /** A route leads to this part of a JSON schema. */
  predicate LeadsToNode(node: Node, route: Path, part: Node)
    decreases node
  {
    || (route == [] && part == node)
    || (&& node.kind == Some("object") && node.properties.Listed? && route != []
        && exists i :: 0 <= i < |node.properties.list| && node.properties.list[i].name == route[0] &&
             LeadsToNode(node.properties.list[i].node, route[1..], part))
    || (&& node.kind == Some("array") && route != [] && route[0] == "element"
        && node.items.Some? && LeadsToNode(node.items.value, route[1..], part))
  }

  lemma {:induction false} NodeWithin(path: Path, node: Node, route: Path, part: Node, p: Path, q: Path)
    requires LeadsToNode(node, route, part) && Before(Walk(Pre, path + route, Outline(part)), p, q)
    ensures Before(Walk(Pre, path, Outline(node)), p, q)
    decreases node
  {
    if route == [] {
      assert path + route == path;
    } else {
      StepInto(path, route, 1);
      if node.kind == Some("object") {
        var list := node.properties.list;
        var i :| 0 <= i < |list| && list[i].name == route[0] && LeadsToNode(list[i].node, route[1..], part);
        NodeWithin(path + [list[i].name], list[i].node, route[1..], part, p, q);
        assert Outline(node).children[i] == Child(list[i].name, Outline(list[i].node));
        WalkWithin(Pre, path, Outline(node), i, p, q);
      } else {
        NodeWithin(path + ["element"], node.items.value, route[1..], part, p, q);
        WalkWithin(Pre, path, Outline(node), 0, p, q);
      }
    }
  }

  predicate IsKind(name: string) {
    name == "meta" || name == "key" || name == "value"
  }

  function Rank(kind: string): (k: nat)
    requires IsKind(kind)
    ensures k < |KINDS| && KINDS[k] == kind
  {
    if kind == "meta" then 0 else if kind == "key" then 1 else 2
  }

  /** Where a kind stands among those that are present. */
  lemma {:induction false} KindStands(schema: Node, kind: string, i: int) returns (c: nat)
    requires schema.properties.Listed? && IsKind(kind) && FirstNamed(schema.properties.list, i, kind)
    ensures c == |Present(schema, Rank(kind))| < |Outermost(schema).children|
    ensures Outermost(schema).children[c] == Child(kind, Outline(schema.properties.list[i].node))
    ensures |Present(schema, Rank(kind) + 1)| == c + 1
  {
    LookupIsFirst(schema.properties.list, i, kind);
    assert KindOf(schema, Rank(kind)) == Some(schema.properties.list[i].node);
    PresentIs(schema, Rank(kind));
    c := |Present(schema, Rank(kind))|;
  }

  lemma MessageIsApart(schema: Node)
    requires DistinctProperties(schema) && Apart(MessageFieldsOf(schema))
    ensures JoinApart(Walk(Top, [], Outermost(schema)))
  {
    MessageFieldsAreNodes(schema);
    OutermostIsDistinct(schema);
    ApartIsJoinApart(Top, Outermost(schema));
  }

  /** The metadata of a message is numbered first, then its key and its value, and only then what is below them. */
  lemma {:induction false} KindsInOrder(schema: Node, a: string, i: int, b: string, j: int, inner: Path)
    requires DistinctProperties(schema) && Apart(MessageFieldsOf(schema)) && schema.properties.Listed?
    requires IsKind(a) && FirstNamed(schema.properties.list, i, a)
    requires IsKind(b) && FirstNamed(schema.properties.list, j, b)
    ensures
      var ids := IdsOf(Top, Outermost(schema));
      && ((a == "meta" && b != "meta") || (a == "key" && b == "value") ==>
            Join([a]) in ids && Join([b]) in ids && ids[Join([a])] < ids[Join([b])])
      && (IsProperty(schema.properties.list[i].node, inner) ==>
            Join([b]) in ids && Join([a] + inner) in ids && ids[Join([b])] < ids[Join([a] + inner)])
  {
    MessageIsApart(schema);
    var t, node := Outermost(schema), schema.properties.list[i].node;
    var c := KindStands(schema, a, i);
    var d := KindStands(schema, b, j);
    SiblingsFirst(Top, [], t, c, d, inner);
    NodesAreProperties(node, inner);
    assert Own([], t, c) == [a] && Own([], t, d) == [b];
    if Rank(a) < Rank(b) {
      PresentGrows(schema, Rank(a) + 1, Rank(b));
      BeforeIsBelow(Walk(Top, [], t), [a], [b]);
    }
    if IsProperty(node, inner) {
      BeforeIsBelow(Walk(Top, [], t), [b], [a] + inner);
    }
  }

  /** The properties of every object are numbered in order, each of them and all that is below it before the next. */
  lemma {:induction false} PropertiesInOrder(schema: Node, kind: string, top: int, route: Path, part: Node, i: nat,
      k: nat, inner: Path)
    requires DistinctProperties(schema) && Apart(MessageFieldsOf(schema)) && schema.properties.Listed?
    requires IsKind(kind) && FirstNamed(schema.properties.list, top, kind)
    requires LeadsToNode(schema.properties.list[top].node, route, part)
    requires part.kind == Some("object") && part.properties.Listed? && i < k < |part.properties.list|
    requires inner == [] || IsProperty(part.properties.list[i].node, inner)
    ensures
      var ids, list := IdsOf(Top, Outermost(schema)), part.properties.list;
      var a, b := Join([kind] + route + [list[i].name] + inner), Join([kind] + route + [list[k].name]);
      a in ids && b in ids && ids[a] < ids[b]
  {
    MessageIsApart(schema);
    var list, t, path := part.properties.list, Outline(part), [kind] + route;
    assert t.children[i] == Child(list[i].name, Outline(list[i].node)) && t.children[k].name == list[k].name;
    NodesAreProperties(list[i].node, inner);
    DescendsAtOnce(path, t, i, k, |t.children|, inner);
    PreWalk(path, t);
    var p, q := Own(path, t, i) + inner, Own(path, t, k);
    NodeWithin([kind], schema.properties.list[top].node, route, part, p, q);
    var c := KindStands(schema, kind, top);
    assert Own([], Outermost(schema), c) == [kind];
    WalkWithin(Top, [], Outermost(schema), c, p, q);
    BeforeIsBelow(Walk(Top, [], Outermost(schema)), p, q);
  }
}
