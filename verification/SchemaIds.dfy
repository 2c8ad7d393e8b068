/**
 When the ids of Avro and JSON schemas are exact: the trees of their names are distinct, and dotless
 where the names are.
 */
module SchemaIds {
  import opened Wire
  import opened Avro
  import opened FieldIds
  import opened IdOrder

  // ---- Avro schemas

  predicate DotlessNames(schema: Schema) {
    match schema
    case ArraySchema(items) => DotlessNames(items)
    case MapSchema(types) => DotlessNames(types)
    case RecordSchema(fields) => forall i :: 0 <= i < |fields| ==>
      '.' !in fields[i].name && DotlessNames(fields[i].schema)
    case _ => true
  }

  lemma {:induction false} EntriesAreDistinct(types: Tree)
    requires DistinctSiblings(types)
    ensures DistinctSiblings(Tree([Child("keys", LEAF), Child("values", types)]))
  {
    assert DistinctSiblings(LEAF);
  }

  lemma {:induction false} ShapeIsDistinct(schema: Schema)
    requires DistinctFields(schema)
    ensures DistinctSiblings(Shape(schema))
  {
    match schema
    case ArraySchema(items) => ShapeIsDistinct(items);
    case MapSchema(types) =>
      ShapeIsDistinct(types);
      EntriesAreDistinct(Shape(types));
    case RecordSchema(fields) =>
      forall i | 0 <= i < |fields| ensures DistinctSiblings(Shape(fields[i].schema)) {
        ShapeIsDistinct(fields[i].schema);
      }
    case _ =>
  }

  lemma {:induction false} EntriesAreDotless(types: Tree)
    requires DotlessTree(types)
    ensures DotlessTree(Tree([Child("keys", LEAF), Child("values", types)]))
  {
    assert DotlessTree(LEAF);
  }

  lemma {:induction false} ShapeIsDotless(schema: Schema)
    requires DotlessNames(schema)
    ensures DotlessTree(Shape(schema))
  {
    match schema
    case ArraySchema(items) => ShapeIsDotless(items);
    case MapSchema(types) =>
      ShapeIsDotless(types);
      EntriesAreDotless(Shape(types));
    case RecordSchema(fields) =>
      forall i | 0 <= i < |fields| ensures DotlessTree(Shape(fields[i].schema)) {
        ShapeIsDotless(fields[i].schema);
      }
    case _ =>
  }

  lemma ShapeExactIff(schema: Schema)
    requires DistinctFields(schema)
    ensures Exact(Level, Shape(schema)) <==> JoinApart(Walk(Level, [], Shape(schema)))
  {
    ShapeIsDistinct(schema);
    ExactIffApart(Level, Shape(schema));
  }

  lemma ShapeIsApart(schema: Schema)
    requires DistinctFields(schema) && DotlessNames(schema)
    ensures JoinApart(Walk(Level, [], Shape(schema)))
  {
    ShapeIsDistinct(schema);
    ShapeIsDotless(schema);
    DotlessJoinApart(Level, Shape(schema));
  }

  // ---- JSON schemas

  /** No object has two properties of one name, as none in JSON has. */
  predicate DistinctProperties(node: Node) {
    && (node.properties.Listed? ==>
          var list := node.properties.list;
          && (forall i, j :: 0 <= i < j < |list| ==> list[i].name != list[j].name)
          && (forall i :: 0 <= i < |list| ==> DistinctProperties(list[i].node)))
    && (node.items.Some? ==> DistinctProperties(node.items.value))
  }

  predicate DotlessProperties(node: Node) {
    && (node.properties.Listed? ==>
          var list := node.properties.list;
          forall i :: 0 <= i < |list| ==> '.' !in list[i].name && DotlessProperties(list[i].node))
    && (node.items.Some? ==> DotlessProperties(node.items.value))
  }

  lemma {:induction false} OutlineIsDistinct(node: Node)
    requires DistinctProperties(node)
    ensures DistinctSiblings(Outline(node))
  {
    if node.kind == Some("object") && node.properties.Listed? {
      var list := node.properties.list;
      forall i | 0 <= i < |list| ensures DistinctSiblings(Outline(list[i].node)) {
        OutlineIsDistinct(list[i].node);
      }
    } else if node.kind == Some("array") {
      assert DistinctSiblings(LEAF);
      if node.items.Some? {
        OutlineIsDistinct(node.items.value);
      }
    }
  }

  lemma {:induction false} OutlineIsDotless(node: Node)
    requires DotlessProperties(node)
    ensures DotlessTree(Outline(node))
  {
    if node.kind == Some("object") && node.properties.Listed? {
      var list := node.properties.list;
      forall i | 0 <= i < |list| ensures DotlessTree(Outline(list[i].node)) {
        OutlineIsDotless(list[i].node);
      }
    } else if node.kind == Some("array") {
      assert DotlessTree(LEAF);
      if node.items.Some? {
        OutlineIsDotless(node.items.value);
      }
    }
  }

  lemma {:induction false} LookupFinds(properties: seq<Property>, name: string) returns (i: nat)
    requires Lookup(properties, name).Some?
    ensures i < |properties| && properties[i] == Property(name, Lookup(properties, name).value)
  {
    if properties[0].name == name {
      i := 0;
    } else {
      i := LookupFinds(properties[1..], name);
      i := i + 1;
    }
  }

  predicate NamedAmong(children: seq<Child>, names: seq<string>) {
    forall i :: 0 <= i < |children| ==> children[i].name in names
  }

  predicate DistinctChildren(children: seq<Child>) {
    && (forall i, j :: 0 <= i < j < |children| ==> children[i].name != children[j].name)
    && (forall i :: 0 <= i < |children| ==> DistinctSiblings(children[i].tree))
  }

  predicate DotlessChildren(children: seq<Child>) {
    forall i :: 0 <= i < |children| ==> '.' !in children[i].name && DotlessTree(children[i].tree)
  }

  /** One more kind, if it is present. */
  lemma PresentSteps(schema: Node, n: nat)
    requires 0 < n <= |KINDS|
    ensures
      var kind := KindOf(schema, n - 1);
      Present(schema, n) == if kind.None? then Present(schema, n - 1)
                            else Present(schema, n - 1) + [Child(KINDS[n - 1], Outline(kind.value))]
  {
  }

  lemma {:induction false} DistinctAdds(children: seq<Child>, child: Child, names: seq<string>)
    requires NamedAmong(children, names) && DistinctChildren(children)
    requires child.name !in names && DistinctSiblings(child.tree)
    ensures NamedAmong(children + [child], names + [child.name]) && DistinctChildren(children + [child])
  {
  }

  lemma KindsDiffer(n: nat)
    requires n < |KINDS|
    ensures KINDS[n] !in KINDS[..n]
  {
  }

  lemma {:induction false} PresentIsDistinct(schema: Node, n: nat)
    requires DistinctProperties(schema) && n <= |KINDS|
    ensures NamedAmong(Present(schema, n), KINDS[..n]) && DistinctChildren(Present(schema, n))
  {
    if n > 0 {
      PresentIsDistinct(schema, n - 1);
      PresentSteps(schema, n);
      Grow(KINDS, n - 1);
      KindsDiffer(n - 1);
      var kind, front := KindOf(schema, n - 1), Present(schema, n - 1);
      if kind.Some? {
        var i := LookupFinds(schema.properties.list, KINDS[n - 1]);
        OutlineIsDistinct(kind.value);
        DistinctAdds(front, Child(KINDS[n - 1], Outline(kind.value)), KINDS[..n - 1]);
      }
    }
  }

  lemma {:induction false} PresentIsDotless(schema: Node, n: nat)
    requires DotlessProperties(schema) && n <= |KINDS|
    ensures DotlessChildren(Present(schema, n))
  {
    if n > 0 {
      PresentIsDotless(schema, n - 1);
      PresentSteps(schema, n);
      assert '.' !in KINDS[n - 1];
      if KindOf(schema, n - 1).Some? {
        var i := LookupFinds(schema.properties.list, KINDS[n - 1]);
        OutlineIsDotless(KindOf(schema, n - 1).value);
      }
    }
  }

  lemma OutermostExactIff(schema: Node)
    requires DistinctProperties(schema)
    ensures Exact(Top, Outermost(schema)) <==> JoinApart(Walk(Top, [], Outermost(schema)))
  {
    PresentIsDistinct(schema, |KINDS|);
    var t := Outermost(schema);
    assert t.children == Present(schema, |KINDS|);
    assert DistinctSiblings(t);
    ExactIffApart(Top, t);
  }

  lemma OutermostIsApart(schema: Node)
    requires DistinctProperties(schema) && DotlessProperties(schema)
    ensures JoinApart(Walk(Top, [], Outermost(schema)))
  {
    PresentIsDistinct(schema, |KINDS|);
    PresentIsDotless(schema, |KINDS|);
    var t := Outermost(schema);
    assert t.children == Present(schema, |KINDS|);
    assert DistinctSiblings(t) && DotlessTree(t);
    DotlessJoinApart(Top, t);
  }

  // ---- a dotted name

  const TEXT := Node(Some("string"), Absent, None)
  const NESTED := Node(Some("object"), Listed([Property("b", TEXT)]), None)
  const DOTTED := Node(Some("object"), Listed([Property("a", NESTED), Property("a.b", TEXT)]), None)
  const MESSAGE := Node(Some("object"), Listed([Property("value", DOTTED)]), None)

  lemma {:induction false} WalkDotted()
    ensures Walk(Pre, ["value"], Outline(DOTTED)) == [["value", "a"], ["value", "a", "b"], ["value", "a.b"]]
  {
    var inner := Tree([Child("b", LEAF)]);
    assert Outline(NESTED).children == inner.children;
    var t, path := Outline(DOTTED), ["value"];
    assert t.children == [Child("a", inner), Child("a.b", LEAF)];
    WalkOne(Pre, ["value", "a"], Child("b", LEAF));
    WalkLeaf(Pre, ["value", "a", "b"]);
    WalkLeaf(Pre, ["value", "a.b"]);
    assert path + ["a"] == ["value", "a"] && path + ["a.b"] == ["value", "a.b"];
    assert ["value", "a"] + ["b"] == ["value", "a", "b"];
    assert Below(Pre, path, t, 0) == [];
    assert Below(Pre, path, t, 1) == [] + Block(Pre, ["value", "a"], inner) == [["value", "a"], ["value", "a", "b"]];
    assert Below(Pre, path, t, 2) == [["value", "a"], ["value", "a", "b"]] + Block(Pre, ["value", "a.b"], LEAF);
    PreWalk(path, t);
  }

  lemma {:induction false} KindsOfMessage()
    ensures KindOf(MESSAGE, 0) == None && KindOf(MESSAGE, 1) == None && KindOf(MESSAGE, 2) == Some(DOTTED)
  {
    var list := MESSAGE.properties.list;
    assert list[0] == Property("value", DOTTED) && list[1..] == [];
    assert Lookup(list, "meta") == Lookup(list[1..], "meta") == None;
    assert Lookup(list, "key") == Lookup(list[1..], "key") == None;
    assert Lookup(list, "value") == Some(DOTTED);
  }

  lemma {:induction false} OutermostOfMessage()
    ensures Outermost(MESSAGE) == Tree([Child("value", Outline(DOTTED))])
  {
    KindsOfMessage();
    PresentSteps(MESSAGE, 1);
    PresentSteps(MESSAGE, 2);
    PresentSteps(MESSAGE, 3);
    assert Present(MESSAGE, 3) == [] + [Child("value", Outline(DOTTED))];
  }

  lemma {:induction false} WalkOutermost(t: Tree)
    ensures Walk(Top, [], Tree([Child("value", t)])) == [["value"]] + Walk(Pre, ["value"], t)
  {
    WalkOne(Top, [], Child("value", t));
    assert [] + ["value"] == ["value"];
  }

  lemma {:induction false} WalkMessage()
    ensures Walk(Top, [], Outermost(MESSAGE)) == [["value"], ["value", "a"], ["value", "a", "b"], ["value", "a.b"]]
  {
    OutermostOfMessage();
    WalkOutermost(Outline(DOTTED));
    WalkDotted();
  }

  /**
   A property whose name holds a dot can take the id of a nested one: two nodes share an id, and
   one id is not used.
   */
  lemma {:induction false} DottedNameLeavesGap()
    ensures DistinctProperties(MESSAGE) && !Exact(Top, Outermost(MESSAGE))
    ensures !Gapless(IdsOf(Top, Outermost(MESSAGE)), 1, 5)
    ensures Join(["value", "a", "b"]) == Join(["value", "a.b"])
  {
    WalkMessage();
    var paths := Walk(Top, [], Outermost(MESSAGE));
    assert ["value", "a", "b"][1..] == ["a", "b"] && ["a", "b"][1..] == ["b"] && ["value", "a.b"][1..] == ["a.b"];
    assert Join(["a", "b"]) == "a.b";
    assert Join(paths[2]) == Join(paths[3]);
    assert DistinctProperties(TEXT) && DistinctProperties(NESTED) && DistinctProperties(DOTTED);
    GaplessIffApart(paths, 1);
    OutermostExactIff(MESSAGE);
  }
}
