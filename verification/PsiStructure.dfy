/**
  The tree that a finished parent array describes: which ids hang under which, and that hanging the
  given subtrees at the leaf ids gives a proper tree that keeps every one of them.
 */
module PsiStructure {
  import opened PsiForest
  import opened PsiTree

  /** The ids below `b` whose parent entry is `v`, in ascending order. */
  function Kids(tree: seq<int>, v: int, b: nat): (r: seq<nat>)
    requires b <= |tree|
    ensures forall i :: 0 <= i < |r| ==> r[i] < b && tree[r[i]] == v
  {
    if b == 0 then [] else Kids(tree, v, b - 1) + (if tree[b - 1] == v then [b - 1] else [])
  }

  lemma {:induction false} KidsComplete(tree: seq<int>, v: int, b: nat, c: nat)
    requires c < b <= |tree| && tree[c] == v
    ensures c in Kids(tree, v, b)
    decreases b
  {
    if c == b - 1 {
      assert Kids(tree, v, b)[|Kids(tree, v, b)| - 1] == c;
    } else {
      KidsComplete(tree, v, b - 1, c);
    }
  }

  lemma {:induction false} KidsAscend(tree: seq<int>, v: int, b: nat)
    requires b <= |tree|
    ensures forall i, j :: 0 <= i < j < |Kids(tree, v, b)| ==> Kids(tree, v, b)[i] < Kids(tree, v, b)[j]
    decreases b
  {
    if b > 0 {
      KidsAscend(tree, v, b - 1);
    }
  }

  // ---------- being under a node ----------

  /** Id `u` lies in the subtree of id `v`. */
  ghost predicate Under(f: Forest, u: nat, v: nat)
    requires Graded(f)
  {
    u < f.nextId && v < f.nextId && f.level[u] <= f.level[v] && Climb(f.tree, u, f.level[v] - f.level[u]) == v
  }

  lemma {:induction false} ClimbLevel(f: Forest, u: nat, k: nat)
    requires Inv(f) && u < f.nextId
    ensures var w := Climb(f.tree, u, k);
            w == -1 || (0 <= w < f.nextId && f.level[w] == f.level[u] + k)
    decreases k
  {
    if k > 0 {
      ClimbLevel(f, u, k - 1);
      var w := Climb(f.tree, u, k - 1);
      if w != -1 {
        ParentEntry(f, w);
      }
    }
  }

  lemma UnderSelf(f: Forest, v: nat)
    requires Inv(f) && v < f.nextId
    ensures Under(f, v, v)
  {
  }

  /** Everything strictly under `v` is under one of its children. */
  lemma UnderKid(f: Forest, u: nat, v: nat) returns (c: nat)
    requires Inv(f) && Under(f, u, v) && u != v
    ensures c < f.nextId && f.tree[c] == v && Under(f, u, c) && f.level[c] + 1 == f.level[v]
  {
    var k := f.level[v] - f.level[u];
    assert k > 0;
    ClimbLevel(f, u, k - 1);
    c := Climb(f.tree, u, k - 1);
  }

  lemma UnderUp(f: Forest, u: nat, c: nat, v: nat)
    requires Inv(f) && Under(f, u, c) && f.tree[c] == v
    ensures Under(f, u, v) && f.level[v] == f.level[c] + 1
  {
    ParentEntry(f, c);
    var k := f.level[c] - f.level[u];
    assert Climb(f.tree, u, k + 1) == v;
  }

  lemma UnderApart(f: Forest, u: nat, c: nat, d: nat)
    requires Inv(f) && Under(f, u, c) && Under(f, u, d) && f.level[c] == f.level[d]
    ensures c == d
  {
  }

  /** An inner id has at least two children. */
  lemma TwoKids(f: Forest, v: nat)
    requires Inv(f) && |f.rank| <= v < f.nextId
    ensures |Kids(f.tree, v, f.nextId)| >= 2
  {
    LeafLevel(f, v);
    var y, k := f.owner[v], f.level[v] - 1;
    var z := f.sib[y][k];
    assert f.tree[f.ids[y][k]] == Up(f, y, k);
    assert f.tree[f.ids[z][k]] == Up(f, z, k);
    var a, b := f.ids[y][k], f.ids[z][k];
    assert f.owner[a] == y && f.owner[b] == z;
    KidsComplete(f.tree, v, f.nextId, a);
    KidsComplete(f.tree, v, f.nextId, b);
  }

  lemma KidsLevel(f: Forest, v: nat, c: nat)
    requires Inv(f) && v < f.nextId && c in Kids(f.tree, v, f.nextId)
    ensures c < f.nextId && f.tree[c] == v && f.level[c] + 1 == f.level[v]
  {
    ParentEntry(f, c);
  }

  // ---------- forests seen as indexed families ----------

  lemma {:induction false} NodesAllAt(ks: seq<Shape>, i: nat)
    requires i < |ks|
    ensures Nodes(ks[i]) <= NodesAll(ks)
    decreases i
  {
    if i > 0 {
      NodesAllAt(ks[1..], i - 1);
    }
  }

  lemma {:induction false} NodesAllHome(ks: seq<Shape>, n: PsiNode) returns (i: nat)
    requires n in NodesAll(ks)
    ensures i < |ks| && n in Nodes(ks[i])
    decreases |ks|
  {
    if n in Nodes(ks[0]) {
      i := 0;
    } else {
      i := NodesAllHome(ks[1..], n);
      i := i + 1;
    }
  }

  lemma {:induction false} FringeAllAt(ks: seq<Shape>, i: nat, n: PsiNode)
    requires i < |ks| && n in Fringe(ks[i])
    ensures n in FringeAll(ks)
    decreases i
  {
    if i > 0 {
      FringeAllAt(ks[1..], i - 1, n);
    }
  }

  lemma {:induction false} FringeAllHome(ks: seq<Shape>, n: PsiNode) returns (i: nat)
    requires n in FringeAll(ks)
    ensures i < |ks| && n in Fringe(ks[i])
    decreases |ks|
  {
    if n in Fringe(ks[0]) {
      i := 0;
    } else {
      i := FringeAllHome(ks[1..], n);
      i := i + 1;
    }
  }

  lemma {:induction false} ProperFromParts(ks: seq<Shape>)
    requires forall i :: 0 <= i < |ks| ==> Proper(ks[i])
    requires forall i, j :: 0 <= i < j < |ks| ==> Nodes(ks[i]) !! Nodes(ks[j])
    ensures ProperAll(ks)
    decreases |ks|
  {
    if ks != [] {
      var rest := ks[1..];
      assert forall i :: 0 <= i < |rest| ==> rest[i] == ks[i + 1];
      ProperFromParts(rest);
      forall n | n in NodesAll(rest)
        ensures n !in Nodes(ks[0])
      {
        var i := NodesAllHome(rest, n);
        assert Nodes(ks[0]) !! Nodes(ks[i + 1]);
      }
    }
  }

  lemma {:induction false} ProperAt(ks: seq<Shape>, i: nat)
    requires ProperAll(ks) && i < |ks|
    ensures Proper(ks[i])
    decreases i
  {
    if i > 0 {
      ProperAt(ks[1..], i - 1);
    }
  }

  lemma {:induction false} ProperApart(ks: seq<Shape>, i: nat, j: nat)
    requires ProperAll(ks) && i < j < |ks|
    ensures Nodes(ks[i]) !! Nodes(ks[j])
    decreases i
  {
    if i == 0 {
      NodesAllAt(ks[1..], j - 1);
    } else {
      ProperApart(ks[1..], i - 1, j - 1);
    }
  }

  lemma {:induction false} BranchingFromParts(ks: seq<Shape>)
    requires forall i :: 0 <= i < |ks| ==> Branching(ks[i])
    ensures BranchingAll(ks)
    decreases |ks|
  {
    if ks != [] {
      assert forall i :: 0 <= i < |ks[1..]| ==> ks[1..][i] == ks[i + 1];
      BranchingFromParts(ks[1..]);
    }
  }

  lemma {:induction false} BranchingAt(ks: seq<Shape>, i: nat)
    requires BranchingAll(ks) && i < |ks|
    ensures Branching(ks[i])
    decreases i
  {
    if i > 0 {
      BranchingAt(ks[1..], i - 1);
    }
  }

  lemma {:induction false} LinkedFromParts(ks: seq<Shape>, parent: PsiNode?)
    requires forall i :: 0 <= i < |ks| ==> Linked(ks[i]) && ks[i].node.parent == parent
    ensures LinkedAll(ks, parent)
    decreases |ks|
  {
    if ks != [] {
      assert forall i :: 0 <= i < |ks[1..]| ==> ks[1..][i] == ks[i + 1];
      LinkedFromParts(ks[1..], parent);
    }
  }

  lemma {:induction false} LinkedAt(ks: seq<Shape>, parent: PsiNode?, i: nat)
    requires LinkedAll(ks, parent) && i < |ks|
    ensures Linked(ks[i]) && ks[i].node.parent == parent
    decreases i
  {
    if i > 0 {
      LinkedAt(ks[1..], parent, i - 1);
    }
  }

  // ---------- the tree under an id ----------

  /** Every id has a node; the leaf ids carry the roots of the given subtrees. */
  ghost predicate Layout(f: Forest, local: map<nat, PsiNode>, ss: seq<Shape>)
  {
    && Inv(f) && |ss| == |f.rank|
    && (forall v :: 0 <= v < f.nextId ==> v in local)
    && (forall x :: 0 <= x < |ss| ==> local[x] == ss[x].node)
  }

  ghost predicate AllBelow(f: Forest, cs: seq<nat>, l: nat)
    requires Graded(f)
  {
    forall i :: 0 <= i < |cs| ==> cs[i] < f.nextId && f.level[cs[i]] < l
  }

  lemma KidsAllBelow(f: Forest, v: nat)
    requires Inv(f) && v < f.nextId
    ensures AllBelow(f, Kids(f.tree, v, f.nextId), f.level[v])
  {
    var cs := Kids(f.tree, v, f.nextId);
    forall i | 0 <= i < |cs|
      ensures cs[i] < f.nextId && f.level[cs[i]] < f.level[v]
    {
      KidsLevel(f, v, cs[i]);
    }
  }

  ghost function ShapeOf(f: Forest, local: map<nat, PsiNode>, ss: seq<Shape>, v: nat): (s: Shape)
    requires Layout(f, local, ss) && v < f.nextId
    ensures s.node == local[v]
    decreases f.level[v], 1, 0
  {
    if v < |ss| then ss[v]
    else
      KidsAllBelow(f, v);
      Shape(local[v], ShapesOf(f, local, ss, f.level[v], Kids(f.tree, v, f.nextId)))
  }

  ghost function ShapesOf(f: Forest, local: map<nat, PsiNode>, ss: seq<Shape>, l: nat, cs: seq<nat>): (r: seq<Shape>)
    requires Layout(f, local, ss) && AllBelow(f, cs, l)
    ensures |r| == |cs| && forall i :: 0 <= i < |cs| ==> r[i] == ShapeOf(f, local, ss, cs[i])
    decreases l, 0, |cs|
  {
    if cs == [] then []
    else [ShapeOf(f, local, ss, cs[0])] + ShapesOf(f, local, ss, l, cs[1..])
  }

  /** The nodes that an id brings along: its subtree for a leaf id, its one node otherwise. */
  ghost function Own(local: map<nat, PsiNode>, ss: seq<Shape>, u: nat): set<PsiNode>
    requires u in local
  {
    if u < |ss| then Nodes(ss[u]) else {local[u]}
  }

  /** The children of an inner id, as shapes. */
  ghost function KidShapes(f: Forest, local: map<nat, PsiNode>, ss: seq<Shape>, v: nat): (r: seq<Shape>)
    requires Layout(f, local, ss) && |ss| <= v < f.nextId
    ensures ShapeOf(f, local, ss, v) == Shape(local[v], r)
    ensures |r| == |Kids(f.tree, v, f.nextId)|
    ensures forall i :: 0 <= i < |r| ==> r[i] == ShapeOf(f, local, ss, Kids(f.tree, v, f.nextId)[i])
  {
    ShapeOf(f, local, ss, v).kids
  }

  /** Every node of the tree under `v` is brought along by some id under `v`. */
  lemma {:induction false} NodeHome(f: Forest, local: map<nat, PsiNode>, ss: seq<Shape>, v: nat, n: PsiNode) returns (u: nat)
    requires Layout(f, local, ss) && v < f.nextId && n in Nodes(ShapeOf(f, local, ss, v))
    ensures Under(f, u, v) && n in Own(local, ss, u)
    decreases f.level[v]
  {
    if v < |ss| || n == local[v] {
      UnderSelf(f, v);
      u := v;
    } else {
      var ks := KidShapes(f, local, ss, v);
      var i := NodesAllHome(ks, n);
      var c := Kids(f.tree, v, f.nextId)[i];
      KidsLevel(f, v, c);
      u := NodeHome(f, local, ss, c, n);
      UnderUp(f, u, c, v);
    }
  }

  /** And the other way around. */
  lemma {:induction false} OwnInside(f: Forest, local: map<nat, PsiNode>, ss: seq<Shape>, u: nat, v: nat)
    requires Layout(f, local, ss) && Under(f, u, v)
    ensures Own(local, ss, u) <= Nodes(ShapeOf(f, local, ss, v))
    decreases f.level[v]
  {
    if u != v {
      var c := UnderKid(f, u, v);
      OwnInside(f, local, ss, u, c);
      KidsComplete(f.tree, v, f.nextId, c);
      LeafLevel(f, v);
      var ks := KidShapes(f, local, ss, v);
      var i :| 0 <= i < |ks| && Kids(f.tree, v, f.nextId)[i] == c;
      NodesAllAt(ks, i);
    }
  }

  /** Every leaf of the tree under `v` is a leaf of one of the given subtrees, at a leaf id under `v`. */
  lemma {:induction false} FringeHome(f: Forest, local: map<nat, PsiNode>, ss: seq<Shape>, v: nat, n: PsiNode) returns (x: nat)
    requires Layout(f, local, ss) && v < f.nextId && n in Fringe(ShapeOf(f, local, ss, v))
    ensures x < |ss| && Under(f, x, v) && n in Fringe(ss[x])
    decreases f.level[v]
  {
    if v < |ss| {
      UnderSelf(f, v);
      x := v;
    } else {
      var ks := KidShapes(f, local, ss, v);
      TwoKids(f, v);
      var i := FringeAllHome(ks, n);
      var c := Kids(f.tree, v, f.nextId)[i];
      KidsLevel(f, v, c);
      x := FringeHome(f, local, ss, c, n);
      UnderUp(f, x, c, v);
    }
  }

  lemma {:induction false} FringeInside(f: Forest, local: map<nat, PsiNode>, ss: seq<Shape>, x: nat, v: nat, n: PsiNode)
    requires Layout(f, local, ss) && x < |ss| && Under(f, x, v) && n in Fringe(ss[x])
    ensures n in Fringe(ShapeOf(f, local, ss, v))
    decreases f.level[v]
  {
    if x != v {
      var c := UnderKid(f, x, v);
      FringeInside(f, local, ss, x, c, n);
      KidsComplete(f.tree, v, f.nextId, c);
      LeafLevel(f, v);
      var ks := KidShapes(f, local, ss, v);
      var i :| 0 <= i < |ks| && Kids(f.tree, v, f.nextId)[i] == c;
      FringeAllAt(ks, i, n);
    }
  }

  /** What the ids bring along does not overlap. */
  ghost predicate Separate(f: Forest, local: map<nat, PsiNode>, ss: seq<Shape>)
    requires Layout(f, local, ss)
  {
    && ProperAll(ss)
    && (forall u, w :: 0 <= u < w < f.nextId ==> Own(local, ss, u) !! Own(local, ss, w))
  }

  lemma KidShapesApart(f: Forest, local: map<nat, PsiNode>, ss: seq<Shape>, v: nat, i: nat, j: nat)
    requires Layout(f, local, ss) && Separate(f, local, ss) && |ss| <= v < f.nextId
    requires i < j < |KidShapes(f, local, ss, v)|
    ensures Nodes(KidShapes(f, local, ss, v)[i]) !! Nodes(KidShapes(f, local, ss, v)[j])
  {
    var ks, cs := KidShapes(f, local, ss, v), Kids(f.tree, v, f.nextId);
    KidsAscend(f.tree, v, f.nextId);
    KidsLevel(f, v, cs[i]);
    KidsLevel(f, v, cs[j]);
    forall n | n in Nodes(ks[i]) && n in Nodes(ks[j])
      ensures false
    {
      var u := NodeHome(f, local, ss, cs[i], n);
      var w := NodeHome(f, local, ss, cs[j], n);
      OwnMeets(f, local, ss, u, w, n);
      UnderApart(f, u, cs[i], cs[j]);
    }
  }

  lemma OwnMeets(f: Forest, local: map<nat, PsiNode>, ss: seq<Shape>, u: nat, w: nat, n: PsiNode)
    requires Layout(f, local, ss) && Separate(f, local, ss) && u < f.nextId && w < f.nextId
    requires n in Own(local, ss, u) && n in Own(local, ss, w)
    ensures u == w
  {
  }

  lemma NotUnderKid(f: Forest, local: map<nat, PsiNode>, ss: seq<Shape>, v: nat, i: nat)
    requires Layout(f, local, ss) && Separate(f, local, ss) && |ss| <= v < f.nextId
    requires i < |KidShapes(f, local, ss, v)|
    ensures local[v] !in Nodes(KidShapes(f, local, ss, v)[i])
  {
    var ks, cs := KidShapes(f, local, ss, v), Kids(f.tree, v, f.nextId);
    KidsLevel(f, v, cs[i]);
    if local[v] in Nodes(ks[i]) {
      var u := NodeHome(f, local, ss, cs[i], local[v]);
      OwnMeets(f, local, ss, u, v, local[v]);
    }
  }

  /** The tree under any id is proper. */
  lemma {:induction false} ShapeIsProper(f: Forest, local: map<nat, PsiNode>, ss: seq<Shape>, v: nat)
    requires Layout(f, local, ss) && Separate(f, local, ss) && v < f.nextId
    ensures Proper(ShapeOf(f, local, ss, v))
    decreases f.level[v]
  {
    if v < |ss| {
      ProperAt(ss, v);
    } else {
      var ks, cs := KidShapes(f, local, ss, v), Kids(f.tree, v, f.nextId);
      forall i | 0 <= i < |ks|
        ensures Proper(ks[i]) && local[v] !in Nodes(ks[i])
      {
        KidsLevel(f, v, cs[i]);
        ShapeIsProper(f, local, ss, cs[i]);
        NotUnderKid(f, local, ss, v, i);
      }
      forall i, j | 0 <= i < j < |ks|
        ensures Nodes(ks[i]) !! Nodes(ks[j])
      {
        KidShapesApart(f, local, ss, v, i, j);
      }
      ProperFromParts(ks);
      if local[v] in NodesAll(ks) {
        var i := NodesAllHome(ks, local[v]);
      }
    }
  }

  /** Every inner node of the tree under any id branches. */
  lemma {:induction false} ShapeBranches(f: Forest, local: map<nat, PsiNode>, ss: seq<Shape>, v: nat)
    requires Layout(f, local, ss) && BranchingAll(ss) && v < f.nextId
    ensures Branching(ShapeOf(f, local, ss, v))
    decreases f.level[v]
  {
    if v < |ss| {
      BranchingAt(ss, v);
    } else {
      var ks, cs := KidShapes(f, local, ss, v), Kids(f.tree, v, f.nextId);
      TwoKids(f, v);
      forall i | 0 <= i < |ks|
        ensures Branching(ks[i])
      {
        KidsLevel(f, v, cs[i]);
        ShapeBranches(f, local, ss, cs[i]);
      }
      BranchingFromParts(ks);
    }
  }

  /** The heap links of all ids agree with the parent array. */
  ghost predicate Wired(f: Forest, local: map<nat, PsiNode>, ss: seq<Shape>)
    requires Layout(f, local, ss)
    reads local.Values, NodesAll(ss)
  {
    && (forall x :: 0 <= x < |ss| ==> LinkedKid(ss, x))
    && (forall v :: |ss| <= v < f.nextId ==> ChildrenAre(local, v, Kids(f.tree, v, f.nextId)))
    && (forall c :: 0 <= c < f.nextId && f.tree[c] != -1 ==> f.tree[c] in local && ParentIs(local, c, f.tree[c]))
  }

  ghost predicate LinkedKid(ss: seq<Shape>, x: nat)
    requires x < |ss|
    reads NodesAll(ss)
  {
    NodesAllAt(ss, x);
    Linked(ss[x])
  }

  ghost predicate ChildrenAre(local: map<nat, PsiNode>, v: nat, cs: seq<nat>)
    reads local.Values
  {
    v in local && Names(local, local[v].children, cs)
  }

  /** The objects `kids` are those of the ids `cs`, in order. */
  ghost predicate Names(local: map<nat, PsiNode>, kids: seq<PsiNode>, cs: seq<nat>)
  {
    |kids| == |cs| && forall i :: 0 <= i < |cs| ==> cs[i] in local && kids[i] == local[cs[i]]
  }

  ghost predicate ParentIs(local: map<nat, PsiNode>, c: nat, v: nat)
    requires c in local && v in local
    reads local.Values
  {
    local[c].parent == local[v]
  }

  /** So the heap realises the tree under any id. */
  lemma {:induction false} ShapeIsLinked(f: Forest, local: map<nat, PsiNode>, ss: seq<Shape>, v: nat)
    requires Layout(f, local, ss) && Wired(f, local, ss) && v < f.nextId
    ensures Linked(ShapeOf(f, local, ss, v))
    decreases f.level[v]
  {
    if v < |ss| {
      assert LinkedKid(ss, v);
    } else {
      var ks, cs := KidShapes(f, local, ss, v), Kids(f.tree, v, f.nextId);
      assert ChildrenAre(local, v, cs);
      assert local[v].children == Heads(ks);
      forall i | 0 <= i < |ks|
        ensures Linked(ks[i]) && ks[i].node.parent == local[v]
      {
        KidsLevel(f, v, cs[i]);
        ShapeIsLinked(f, local, ss, cs[i]);
        assert ParentIs(local, cs[i], v);
      }
      LinkedFromParts(ks, local[v]);
    }
  }

  // ---------- the whole tree ----------

  /** With one root left, every id lies under the topmost node of that root. */
  lemma AllUnderTop(f: Forest, r: nat, u: nat)
    requires Inv(f) && Roots(f) == {r} && u < f.nextId
    ensures r < |f.rank| && Under(f, u, f.ids[r][f.rank[r]])
  {
    var y, k := f.owner[u], f.level[u];
    assert Root(f, y) in Roots(f);
    assert r in Roots(f);
    ClimbIsOwner(f, y, k);
    assert Owner(f, y, k) == y;
    ClimbIsOwner(f, y, f.rank[r]);
    TopOwner(f, y);
    ClimbAdd(f.tree, y, k, f.rank[r] - k);
    assert f.level[f.ids[r][f.rank[r]]] == f.rank[r];
  }

  /** Exactly one used entry of the parent array is -1. */
  lemma OneTop(f: Forest, r: nat, v: nat)
    requires Inv(f) && Roots(f) == {r} && v < f.nextId
    ensures r < |f.rank| && (f.tree[v] == -1 <==> v == f.ids[r][f.rank[r]])
  {
    assert r in Roots(f);
    ParentEntry(f, v);
  }

  ghost predicate SameLeaves(a: seq<PsiNode>, b: seq<PsiNode>)
  {
    (forall n :: n in a ==> n in b) && (forall n :: n in b ==> n in a)
  }

  /** The tree `t` joins the trees `ss` with the new inner nodes `f`: no node and no leaf is lost. */
  ghost predicate Joins(t: Shape, ss: seq<Shape>, f: set<PsiNode>)
  {
    && Proper(t) && Nodes(t) == NodesAll(ss) + f && NodesAll(ss) !! f
    && SameLeaves(Fringe(t), FringeAll(ss))
    && (BranchingAll(ss) ==> Branching(t))
  }

  ghost predicate InnerNodes(f: Forest, local: map<nat, PsiNode>, ss: seq<Shape>, ns: set<PsiNode>)
    requires Layout(f, local, ss)
  {
    && (forall v :: |ss| <= v < f.nextId ==> local[v] in ns)
    && (forall n :: n in ns ==> exists v :: |ss| <= v < f.nextId && local[v] == n)
  }

  lemma WholeNodes(f: Forest, local: map<nat, PsiNode>, ss: seq<Shape>, r: nat, top: nat, ns: set<PsiNode>)
    requires Layout(f, local, ss) && Roots(f) == {r} && top < f.nextId
    requires r < |f.rank| && top == f.ids[r][f.rank[r]] && InnerNodes(f, local, ss, ns)
    ensures Nodes(ShapeOf(f, local, ss, top)) == NodesAll(ss) + ns
  {
    var t := ShapeOf(f, local, ss, top);
    forall n | n in Nodes(t)
      ensures n in NodesAll(ss) + ns
    {
      var u := NodeHome(f, local, ss, top, n);
      if u < |ss| {
        NodesAllAt(ss, u);
      }
    }
    forall n | n in NodesAll(ss)
      ensures n in Nodes(t)
    {
      var x := NodesAllHome(ss, n);
      AllUnderTop(f, r, x);
      OwnInside(f, local, ss, x, top);
    }
    forall n | n in ns
      ensures n in Nodes(t)
    {
      var v :| |ss| <= v < f.nextId && local[v] == n;
      AllUnderTop(f, r, v);
      OwnInside(f, local, ss, v, top);
    }
  }

  lemma WholeFringe(f: Forest, local: map<nat, PsiNode>, ss: seq<Shape>, r: nat, top: nat)
    requires Layout(f, local, ss) && Roots(f) == {r} && top < f.nextId
    requires r < |f.rank| && top == f.ids[r][f.rank[r]]
    ensures SameLeaves(Fringe(ShapeOf(f, local, ss, top)), FringeAll(ss))
  {
    var t := ShapeOf(f, local, ss, top);
    forall n | n in Fringe(t)
      ensures n in FringeAll(ss)
    {
      var x := FringeHome(f, local, ss, top, n);
      FringeAllAt(ss, x, n);
    }
    forall n | n in FringeAll(ss)
      ensures n in Fringe(t)
    {
      var x := FringeAllHome(ss, n);
      AllUnderTop(f, r, x);
      FringeInside(f, local, ss, x, top, n);
    }
  }

  /** The tree under the top id joins all given subtrees. */
  lemma WholeJoins(f: Forest, local: map<nat, PsiNode>, ss: seq<Shape>, r: nat, top: nat, ns: set<PsiNode>)
    requires Layout(f, local, ss) && Separate(f, local, ss) && Roots(f) == {r} && top < f.nextId
    requires r < |f.rank| && top == f.ids[r][f.rank[r]] && InnerNodes(f, local, ss, ns) && NodesAll(ss) !! ns
    ensures Joins(ShapeOf(f, local, ss, top), ss, ns)
  {
    ShapeIsProper(f, local, ss, top);
    WholeNodes(f, local, ss, r, top, ns);
    WholeFringe(f, local, ss, r, top);
    if BranchingAll(ss) {
      ShapeBranches(f, local, ss, top);
    }
  }
}
