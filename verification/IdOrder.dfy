/**
 What the numbering of a tree promises: which ids are given out, in which order, and when they are
 exact.
 */
module IdOrder {
  import opened Wire
  import opened FieldIds

  // ---- what the ids promise, whatever the names

  /** Every id belongs to a path that joins to its name; so no two names share an id. */
  lemma {:induction false} IdsAreOfPaths(paths: seq<Path>, start: int, name: string)
    requires name in Numbered(paths, start)
    ensures start <= Numbered(paths, start)[name] < start + |paths|
    ensures Join(paths[Numbered(paths, start)[name] - start]) == name
  {
    var front, last := paths[..|paths| - 1], paths[|paths| - 1];
    if Join(last) != name {
      IdsAreOfPaths(front, start, name);
    }
  }

  lemma {:induction false} EveryPathHasId(paths: seq<Path>, start: int, i: nat)
    requires i < |paths|
    ensures Join(paths[i]) in Numbered(paths, start) && Numbered(paths, start)[Join(paths[i])] >= start + i
  {
    if i < |paths| - 1 {
      EveryPathHasId(paths[..|paths| - 1], start, i);
    }
  }

  lemma DistinctNamesDistinctIds(paths: seq<Path>, start: int, a: string, b: string)
    requires a in Numbered(paths, start) && b in Numbered(paths, start) && a != b
    ensures Numbered(paths, start)[a] != Numbered(paths, start)[b]
  {
    IdsAreOfPaths(paths, start, a);
    IdsAreOfPaths(paths, start, b);
  }

  /** No two numbered paths join to the same name. */
  predicate JoinApart(paths: seq<Path>) {
    forall i, j :: 0 <= i < j < |paths| ==> Join(paths[i]) != Join(paths[j])
  }

  ghost predicate Used(ids: map<string, int>, id: int) {
    exists name :: name in ids && ids[name] == id
  }

  ghost predicate Gapless(ids: map<string, int>, start: int, end: int) {
    forall id :: start <= id < end ==> Used(ids, id)
  }

  /** The ids leave no gap exactly if no two paths join to the same name. */
  lemma GaplessIffApart(paths: seq<Path>, start: int)
    ensures Gapless(Numbered(paths, start), start, start + |paths|) <==> JoinApart(paths)
  {
    var ids := Numbered(paths, start);
    if JoinApart(paths) {
      forall id | start <= id < start + |paths| ensures Used(ids, id) {
        ApartIdIsPlace(paths, start, id - start);
      }
    }
    forall i, j | 0 <= i < j < |paths| && Join(paths[i]) == Join(paths[j])
      ensures !Used(ids, start + i)
    {
      forall name | name in ids ensures ids[name] != start + i {
        IdsAreOfPaths(paths, start, name);
        EveryPathHasId(paths, start, j);
      }
    }
  }

  lemma ApartIdIsPlace(paths: seq<Path>, start: int, i: nat)
    requires JoinApart(paths) && i < |paths|
    ensures Join(paths[i]) in Numbered(paths, start) && Numbered(paths, start)[Join(paths[i])] == start + i
  {
    EveryPathHasId(paths, start, i);
    IdsAreOfPaths(paths, start, Join(paths[i]));
  }

  // ---- names without dots

  predicate Dotless(path: Path) {
    forall i :: 0 <= i < |path| ==> '.' !in path[i]
  }

  /** Joining names without dots can be undone. */
  lemma {:induction false} JoinApartIfDotless(a: Path, b: Path)
    requires a != [] && b != [] && Dotless(a) && Dotless(b) && Join(a) == Join(b)
    ensures a == b
    decreases |a| + |b|
  {
    FirstNameShorter(a, b);
    FirstNameShorter(b, a);
    JoinStarts(a);
    JoinStarts(b);
    assert a[0] == b[0];
    if |a| > 1 {
      assert |Join(a)| > |a[0]|;
      assert |b| > 1;
      assert Join(a)[|a[0]| + 1..] == Join(a[1..]) && Join(b)[|b[0]| + 1..] == Join(b[1..]);
      JoinApartIfDotless(a[1..], b[1..]);
      assert a == [a[0]] + a[1..] && b == [b[0]] + b[1..];
    }
  }

  lemma JoinStarts(a: Path)
    requires a != []
    ensures |Join(a)| >= |a[0]| && (forall i :: 0 <= i < |a[0]| ==> Join(a)[i] == a[0][i])
    ensures if |a| == 1 then |Join(a)| == |a[0]| else |Join(a)| > |a[0]| && Join(a)[|a[0]|] == '.'
  {
  }

  lemma FirstNameShorter(a: Path, b: Path)
    requires a != [] && b != [] && Dotless(b) && Join(a) == Join(b)
    ensures |b[0]| <= |a[0]|
  {
    JoinStarts(a);
    JoinStarts(b);
    assert forall i :: 0 <= i < |b[0]| ==> b[0][i] in b[0] && Join(b)[i] != '.';
  }

  predicate DistinctSiblings(t: Tree) {
    && (forall i, j :: 0 <= i < j < |t.children| ==> t.children[i].name != t.children[j].name)
    && (forall i :: 0 <= i < |t.children| ==> DistinctSiblings(t.children[i].tree))
  }

  predicate DotlessTree(t: Tree) {
    forall i :: 0 <= i < |t.children| ==> '.' !in t.children[i].name && DotlessTree(t.children[i].tree)
  }

  predicate Under(path: Path, q: Path) {
    |path| < |q| && q[..|path|] == path
  }

  /** In the order of numbering nothing comes twice, and nothing comes before what it is under. */
  predicate InOrder(paths: seq<Path>) {
    forall i, j :: 0 <= i < j < |paths| ==> paths[i] != paths[j] && !Under(paths[j], paths[i])
  }

  predicate AllUnder(path: Path, paths: seq<Path>) {
    forall i :: 0 <= i < |paths| ==> Under(path, paths[i])
  }

  /** The path goes from `path` through the child of that name. */
  predicate Through(path: Path, name: string, q: Path) {
    Under(path, q) && q[|path|] == name
  }

  lemma InOrderJoins(a: seq<Path>, b: seq<Path>)
    requires InOrder(a) && InOrder(b)
    requires forall i, j :: 0 <= i < |a| && 0 <= j < |b| ==> a[i] != b[j] && !Under(b[j], a[i])
    ensures InOrder(a + b)
  {
  }

  lemma HeadsInOrder(path: Path, children: seq<Child>)
    requires forall i, j :: 0 <= i < j < |children| ==> children[i].name != children[j].name
    ensures InOrder(Heads(path, children))
  {
    var heads := Heads(path, children);
    assert forall i :: 0 <= i < |heads| ==> heads[i][|path|] == children[i].name && |heads[i]| == |path| + 1;
  }

  lemma {:induction false} WalkInOrder(mode: Mode, path: Path, t: Tree)
    requires DistinctSiblings(t)
    ensures InOrder(Walk(mode, path, t)) && AllUnder(path, Walk(mode, path, t))
    decreases t, |t.children| + 1
  {
    var heads, below := Heads(path, t.children), Below(mode, path, t, |t.children|);
    BelowInOrder(mode, path, t, |t.children|);
    BelowIsUnder(path, t, below);
    if mode.SiblingsFirst() {
      HeadsInOrder(path, t.children);
      HeadsComeFirst(path, t.children, below);
      assert Walk(mode, path, t) == heads + below;
    } else {
      assert Walk(mode, path, t) == below;
    }
  }

  lemma BelowIsUnder(path: Path, t: Tree, below: seq<Path>)
    requires forall q :: q in below ==> exists k :: 0 <= k < |t.children| && Through(path, t.children[k].name, q)
    ensures AllUnder(path, below)
  {
    forall i | 0 <= i < |below| ensures Under(path, below[i]) {
      assert below[i] in below;
    }
  }

  lemma HeadsComeFirst(path: Path, children: seq<Child>, below: seq<Path>)
    requires InOrder(Heads(path, children)) && InOrder(below) && AllUnder(path, below)
    requires forall q :: q in below ==> |q| > |path| + 1
    ensures InOrder(Heads(path, children) + below) && AllUnder(path, Heads(path, children) + below)
  {
    var heads := Heads(path, children);
    forall i, j | 0 <= i < |heads| && 0 <= j < |below| ensures heads[i] != below[j] && !Under(below[j], heads[i]) {
      assert below[j] in below;
    }
    InOrderJoins(heads, below);
  }

  /** Paths through different children are neither equal nor one under the other. */
  lemma ThroughApart(path: Path, a: string, p: Path, b: string, q: Path)
    requires a != b && Through(path, a, p) && Through(path, b, q)
    ensures p != q && !Under(q, p)
  {
  }

  lemma {:induction false} BelowInOrder(mode: Mode, path: Path, t: Tree, n: nat)
    requires DistinctSiblings(t) && n <= |t.children|
    ensures InOrder(Below(mode, path, t, n))
    ensures forall q :: q in Below(mode, path, t, n) ==>
      (mode.SiblingsFirst() ==> |q| > |path| + 1) && exists k :: 0 <= k < n && Through(path, t.children[k].name, q)
    decreases t, n
  {
    if n > 0 {
      var child := t.children[n - 1];
      var front, block := Below(mode, path, t, n - 1), Block(mode, path + [child.name], child.tree);
      BelowInOrder(mode, path, t, n - 1);
      BlockInOrder(mode, path, child);
      forall i, j | 0 <= i < |front| && 0 <= j < |block| ensures front[i] != block[j] && !Under(block[j], front[i]) {
        assert front[i] in front && block[j] in block;
        var k :| 0 <= k < n - 1 && Through(path, t.children[k].name, front[i]);
        ThroughApart(path, t.children[k].name, front[i], child.name, block[j]);
      }
      InOrderJoins(front, block);
    }
  }

  lemma {:induction false} BlockInOrder(mode: Mode, path: Path, child: Child)
    requires DistinctSiblings(child.tree)
    ensures InOrder(Block(mode, path + [child.name], child.tree))
    ensures forall q :: q in Block(mode, path + [child.name], child.tree) ==>
      (mode.SiblingsFirst() ==> |q| > |path| + 1) && Through(path, child.name, q)
    decreases child.tree, |child.tree.children| + 2
  {
    var own := path + [child.name];
    var walk := Walk(mode.Inner(), own, child.tree);
    WalkInOrder(mode.Inner(), own, child.tree);
    forall q | q in walk ensures |q| > |path| + 1 && Through(path, child.name, q) {
      assert Under(own, q);
      assert q[..|path|] == own[..|path|] == path;
      assert q[|path|] == own[|path|];
    }
    if mode.SiblingsFirst() {
      assert [] + walk == walk;
    } else {
      InOrderJoins([own], walk);
    }
  }

  // ---- every node of the tree, and no other, is numbered

  predicate IsNode(t: Tree, route: Path) {
    route != [] && exists i :: 0 <= i < |t.children| && t.children[i].name == route[0] &&
                               (|route| == 1 || IsNode(t.children[i].tree, route[1..]))
  }

  lemma {:induction false} BelowHolds(mode: Mode, path: Path, t: Tree, n: nat, k: nat)
    requires k < n <= |t.children|
    ensures forall q :: q in Block(mode, path + [t.children[k].name], t.children[k].tree) ==>
      q in Below(mode, path, t, n)
    decreases n
  {
    if k < n - 1 {
      BelowHolds(mode, path, t, n - 1, k);
    }
  }

  lemma {:induction false} NodesAreNumbered(mode: Mode, path: Path, t: Tree, route: Path)
    requires IsNode(t, route)
    ensures path + route in Walk(mode, path, t)
    decreases |route|
  {
    var i :| 0 <= i < |t.children| && t.children[i].name == route[0] &&
             (|route| == 1 || IsNode(t.children[i].tree, route[1..]));
    var own := path + [route[0]];
    BelowHolds(mode, path, t, |t.children|, i);
    if |route| == 1 {
      assert path + route == own;
      assert Heads(path, t.children)[i] == own;
    } else {
      NodesAreNumbered(mode.Inner(), own, t.children[i].tree, route[1..]);
      assert own + route[1..] == path + route;
    }
  }

  lemma {:induction false} NodeThrough(t: Tree, i: nat, inner: Path)
    requires i < |t.children| && (inner == [] || IsNode(t.children[i].tree, inner))
    ensures IsNode(t, [t.children[i].name] + inner)
  {
    var route := [t.children[i].name] + inner;
    assert route[1..] == inner && t.children[i].name == route[0];
  }

  lemma {:induction false} NumberedAreNodes(mode: Mode, path: Path, t: Tree, q: Path) returns (route: Path)
    requires q in Walk(mode, path, t)
    ensures q == path + route && IsNode(t, route)
    decreases t, |t.children| + 1
  {
    var heads := Heads(path, t.children);
    if mode.SiblingsFirst() && q in heads {
      var i :| 0 <= i < |heads| && heads[i] == q;
      route := [t.children[i].name];
      NodeThrough(t, i, []);
    } else {
      route := BelowAreNodes(mode, path, t, |t.children|, q);
    }
  }

  lemma {:induction false} BelowAreNodes(mode: Mode, path: Path, t: Tree, n: nat, q: Path) returns (route: Path)
    requires n <= |t.children| && q in Below(mode, path, t, n)
    ensures q == path + route && IsNode(t, route)
    decreases t, n
  {
    if q in Below(mode, path, t, n - 1) {
      route := BelowAreNodes(mode, path, t, n - 1, q);
    } else {
      var child := t.children[n - 1];
      var own := path + [child.name];
      if q == own {
        route := [child.name];
        NodeThrough(t, n - 1, []);
      } else {
        var inner := NumberedAreNodes(mode.Inner(), own, child.tree, q);
        route := [child.name] + inner;
        Associate(path, [child.name], inner);
        NodeThrough(t, n - 1, inner);
      }
    }
  }

  lemma {:induction false} NodesAreDotless(t: Tree, route: Path)
    requires DotlessTree(t) && IsNode(t, route)
    ensures Dotless(route)
    decreases |route|
  {
    var i :| 0 <= i < |t.children| && t.children[i].name == route[0] &&
             (|route| == 1 || IsNode(t.children[i].tree, route[1..]));
    if |route| > 1 {
      NodesAreDotless(t.children[i].tree, route[1..]);
      assert route == [route[0]] + route[1..];
    }
  }

  // ---- the promise kept

  function IdsOf(mode: Mode, t: Tree): map<string, int> {
    Numbered(Walk(mode, [], t), 1)
  }

  lemma DotlessJoinApart(mode: Mode, t: Tree)
    requires DistinctSiblings(t) && DotlessTree(t)
    ensures JoinApart(Walk(mode, [], t))
  {
    var paths := Walk(mode, [], t);
    WalkInOrder(mode, [], t);
    forall i, j | 0 <= i < j < |paths| ensures Join(paths[i]) != Join(paths[j]) {
      var a := NumberedAreNodes(mode, [], t, paths[i]);
      var b := NumberedAreNodes(mode, [], t, paths[j]);
      assert paths[i] == a && paths[j] == b;
      NodesAreDotless(t, a);
      NodesAreDotless(t, b);
      if Join(a) == Join(b) {
        JoinApartIfDotless(a, b);
      }
    }
  }

  /**
   Every node has an id, the ids are the numbers from 1 up without a gap, different nodes
   have different ids, and a node's id is below those of the nodes under it.
   */
  ghost predicate Exact(mode: Mode, t: Tree) {
    var ids, count := IdsOf(mode, t), |Walk(mode, [], t)|;
    && Gapless(ids, 1, 1 + count)
    && (forall name :: name in ids ==> 1 <= ids[name] <= count)
    && (forall p :: IsNode(t, p) ==> Join(p) in ids)
    && (forall p, q :: IsNode(t, p) && IsNode(t, q) && p != q ==> ids[Join(p)] != ids[Join(q)])
    && (forall p, q :: IsNode(t, p) && IsNode(t, q) && Under(p, q) ==> ids[Join(p)] < ids[Join(q)])
  }

  /** The ids are exact if and only if no two paths of the tree join to the same name. */
  lemma ExactIffApart(mode: Mode, t: Tree)
    requires DistinctSiblings(t)
    ensures Exact(mode, t) <==> JoinApart(Walk(mode, [], t))
  {
    GaplessIffApart(Walk(mode, [], t), 1);
    if JoinApart(Walk(mode, [], t)) {
      ApartIsExact(mode, t);
    }
  }

  lemma ApartIsExact(mode: Mode, t: Tree)
    requires DistinctSiblings(t) && JoinApart(Walk(mode, [], t))
    ensures Exact(mode, t)
  {
    var ids, paths := IdsOf(mode, t), Walk(mode, [], t);
    GaplessIffApart(paths, 1);
    forall name | name in ids ensures 1 <= ids[name] <= |paths| {
      IdsAreOfPaths(paths, 1, name);
    }
    forall p | IsNode(t, p) ensures Join(p) in ids {
      var i := PlaceOf(mode, t, p);
    }
    forall p, q | IsNode(t, p) && IsNode(t, q) && p != q ensures ids[Join(p)] != ids[Join(q)] {
      var i := PlaceOf(mode, t, p);
      var j := PlaceOf(mode, t, q);
    }
    forall p, q | IsNode(t, p) && IsNode(t, q) && Under(p, q) ensures ids[Join(p)] < ids[Join(q)] {
      var i := PlaceOf(mode, t, p);
      var j := PlaceOf(mode, t, q);
      WalkInOrder(mode, [], t);
    }
  }

  /** The id of a node is its place in the walk. */
  lemma PlaceOf(mode: Mode, t: Tree, p: Path) returns (i: nat)
    requires JoinApart(Walk(mode, [], t)) && IsNode(t, p)
    ensures i < |Walk(mode, [], t)| && Walk(mode, [], t)[i] == p
    ensures Join(p) in IdsOf(mode, t) && IdsOf(mode, t)[Join(p)] == 1 + i
  {
    NodesAreNumbered(mode, [], t, p);
    assert [] + p == p;
    i :| 0 <= i < |Walk(mode, [], t)| && Walk(mode, [], t)[i] == p;
    ApartIdIsPlace(Walk(mode, [], t), 1, i);
  }
}
