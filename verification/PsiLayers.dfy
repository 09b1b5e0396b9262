/**
  Materializing a Psi tree as summary layers: `_psi_layers` groups the inner nodes by height, and
  `_build_psi_layers` summarizes them bottom-up into chunks and layer boundaries.
 */
module PsiLayers {
  import opened PsiTree
  import opened PsiStructure

  // ---------- heights ----------

  ghost function Height(s: Shape): nat
    decreases s, 1
  {
    if s.kids == [] then 0 else TopHeight(s.kids) + 1
  }

  ghost function TopHeight(ks: seq<Shape>): (h: nat)
    ensures forall i :: 0 <= i < |ks| ==> Height(ks[i]) <= h
    ensures ks != [] ==> exists i :: 0 <= i < |ks| && Height(ks[i]) == h
    decreases ks, 0
  {
    if ks == [] then 0
    else
      var a, b := Height(ks[0]), TopHeight(ks[1..]);
      assert forall i :: 1 <= i < |ks| ==> ks[i] == ks[1..][i - 1];
      if a > b || |ks| == 1 then
        assert Height(ks[0]) == a;
        a
      else
        b
  }

  /** The inner subtrees of height `h`, children before parents. */
  ghost function ShapesAt(s: Shape, h: nat): seq<Shape>
    decreases s, 1
  {
    ShapesAtAll(s.kids, h) + (if s.kids != [] && Height(s) == h then [s] else [])
  }

  ghost function ShapesAtAll(ks: seq<Shape>, h: nat): seq<Shape>
    decreases ks, 0
  {
    if ks == [] then [] else ShapesAt(ks[0], h) + ShapesAtAll(ks[1..], h)
  }

  /** All subtrees. */
  ghost function Subs(s: Shape): (r: set<Shape>)
    ensures s in r
    decreases s, 1
  {
    {s} + SubsAll(s.kids)
  }

  ghost function SubsAll(ks: seq<Shape>): set<Shape>
    decreases ks, 0
  {
    if ks == [] then {} else Subs(ks[0]) + SubsAll(ks[1..])
  }

  lemma {:induction false} SubsAllAt(ks: seq<Shape>, i: nat)
    requires i < |ks|
    ensures Subs(ks[i]) <= SubsAll(ks)
    decreases i
  {
    if i > 0 {
      SubsAllAt(ks[1..], i - 1);
    }
  }

  lemma {:induction false} SubsAllHome(ks: seq<Shape>, k: Shape) returns (i: nat)
    requires k in SubsAll(ks)
    ensures i < |ks| && k in Subs(ks[i])
    decreases |ks|
  {
    if k in Subs(ks[0]) {
      i := 0;
    } else {
      i := SubsAllHome(ks[1..], k);
      i := i + 1;
    }
  }

  lemma {:induction false} SubFacts(s: Shape, k: Shape)
    requires k in Subs(s)
    ensures Height(k) <= Height(s) && k.node in Nodes(s)
    ensures k != s ==> Height(k) < Height(s)
    ensures SubsAll(k.kids) <= Subs(s)
    decreases s
  {
    if k != s {
      var i := SubsAllHome(s.kids, k);
      SubFacts(s.kids[i], k);
      SubsAllAt(s.kids, i);
      NodesAllAt(s.kids, i);
    }
  }

  /** In a proper tree a node tells its subtree. */
  lemma {:induction false} SubsDistinct(s: Shape, k: Shape, l: Shape)
    requires Proper(s) && k in Subs(s) && l in Subs(s) && k.node == l.node
    ensures k == l
    decreases s
  {
    if k == s && l == s {
    } else if k == s {
      var j := SubsAllHome(s.kids, l);
      SubFacts(s.kids[j], l);
      NodesAllAt(s.kids, j);
    } else if l == s {
      var i := SubsAllHome(s.kids, k);
      SubFacts(s.kids[i], k);
      NodesAllAt(s.kids, i);
    } else {
      var i := SubsAllHome(s.kids, k);
      var j := SubsAllHome(s.kids, l);
      SubFacts(s.kids[i], k);
      SubFacts(s.kids[j], l);
      if i < j {
        ProperApart(s.kids, i, j);
      } else if j < i {
        ProperApart(s.kids, j, i);
      }
      ProperAt(s.kids, i);
      SubsDistinct(s.kids[i], k, l);
    }
  }

  /** The subtrees of height `h` are exactly the inner ones of that height. */
  lemma {:induction false} ShapesAtMembers(s: Shape, h: nat, k: Shape)
    ensures k in ShapesAt(s, h) <==> k in Subs(s) && k.kids != [] && Height(k) == h
    decreases s, 1
  {
    ShapesAtAllMembers(s.kids, h, k);
  }

  lemma {:induction false} ShapesAtAllMembers(ks: seq<Shape>, h: nat, k: Shape)
    ensures k in ShapesAtAll(ks, h) <==> k in SubsAll(ks) && k.kids != [] && Height(k) == h
    decreases ks, 0
  {
    if ks != [] {
      ShapesAtMembers(ks[0], h, k);
      ShapesAtAllMembers(ks[1..], h, k);
    }
  }

  /** A tree has inner subtrees of every height up to its own, and only itself at the top. */
  lemma {:induction false} EveryHeight(s: Shape, h: nat)
    requires 1 <= h <= Height(s)
    ensures ShapesAt(s, h) != []
    decreases s
  {
    if h < Height(s) {
      var i :| 0 <= i < |s.kids| && Height(s.kids[i]) == TopHeight(s.kids);
      EveryHeight(s.kids[i], h);
      var k := ShapesAt(s.kids[i], h)[0];
      ShapesAtMembers(s.kids[i], h, k);
      SubsAllAt(s.kids, i);
      ShapesAtMembers(s, h, k);
    }
  }

  lemma {:induction false} NoneAbove(ks: seq<Shape>, h: nat)
    requires forall i :: 0 <= i < |ks| ==> Height(ks[i]) < h
    ensures ShapesAtAll(ks, h) == []
    decreases ks, 0
  {
    if ks != [] {
      var k := ks[0];
      assert forall i :: 0 <= i < |k.kids| ==> Height(k.kids[i]) < h;
      NoneAbove(k.kids, h);
      assert forall i :: 0 <= i < |ks[1..]| ==> ks[1..][i] == ks[i + 1];
      NoneAbove(ks[1..], h);
    }
  }

  lemma TopIsAlone(s: Shape)
    requires s.kids != []
    ensures ShapesAt(s, Height(s)) == [s]
  {
    NoneAbove(s.kids, Height(s));
  }

  ghost predicate NoRepeat(ks: seq<Shape>)
  {
    forall i, j :: 0 <= i < j < |ks| ==> ks[i].node != ks[j].node
  }

  lemma NoRepeatSum(a: seq<Shape>, b: seq<Shape>)
    requires NoRepeat(a) && NoRepeat(b)
    requires forall k, l :: k in a && l in b ==> k.node != l.node
    ensures NoRepeat(a + b)
  {
  }

  lemma {:induction false} ShapesAtInside(ks: seq<Shape>, h: nat, k: Shape)
    requires k in ShapesAtAll(ks, h)
    ensures k.node in NodesAll(ks)
  {
    ShapesAtAllMembers(ks, h, k);
    var i := SubsAllHome(ks, k);
    SubFacts(ks[i], k);
    NodesAllAt(ks, i);
  }

  /** No node is listed twice at one height. */
  lemma {:induction false} ShapesAtOnce(s: Shape, h: nat)
    requires Proper(s)
    ensures NoRepeat(ShapesAt(s, h))
    decreases s, 1
  {
    ShapesAtAllOnce(s.kids, h);
    var a, b := ShapesAtAll(s.kids, h), if s.kids != [] && Height(s) == h then [s] else [];
    forall k, l | k in a && l in b
      ensures k.node != l.node
    {
      ShapesAtInside(s.kids, h, k);
    }
    NoRepeatSum(a, b);
  }

  lemma {:induction false} ShapesAtAllOnce(ks: seq<Shape>, h: nat)
    requires ProperAll(ks)
    ensures NoRepeat(ShapesAtAll(ks, h))
    decreases ks, 0
  {
    if ks != [] {
      ShapesAtOnce(ks[0], h);
      ShapesAtAllOnce(ks[1..], h);
      var a, b := ShapesAt(ks[0], h), ShapesAtAll(ks[1..], h);
      forall k, l | k in a && l in b
        ensures k.node != l.node
      {
        ShapesAtMembers(ks[0], h, k);
        SubFacts(ks[0], k);
        ShapesAtInside(ks[1..], h, l);
      }
      NoRepeatSum(a, b);
    }
  }

  // ---------- counting ----------

  ghost function Inner(s: Shape): nat
    decreases s, 1
  {
    InnerAll(s.kids) + (if s.kids == [] then 0 else 1)
  }

  ghost function InnerAll(ks: seq<Shape>): nat
    decreases ks, 0
  {
    if ks == [] then 0 else Inner(ks[0]) + InnerAll(ks[1..])
  }

  /** A tree whose inner nodes branch has fewer inner nodes than leaves. */
  lemma {:induction false} InnerBound(s: Shape)
    requires Branching(s)
    ensures Inner(s) + 1 <= |Fringe(s)|
    decreases s, 1
  {
    InnerAllBound(s.kids);
  }

  lemma {:induction false} InnerAllBound(ks: seq<Shape>)
    requires BranchingAll(ks)
    ensures InnerAll(ks) + |ks| <= |FringeAll(ks)|
    decreases ks, 0
  {
    if ks != [] {
      InnerBound(ks[0]);
      InnerAllBound(ks[1..]);
    }
  }

  /** How many inner nodes have a height from 1 to `h`. */
  ghost function UpTo(s: Shape, h: nat): nat
  {
    if h == 0 then 0 else UpTo(s, h - 1) + |ShapesAt(s, h)|
  }

  ghost function UpToAll(ks: seq<Shape>, h: nat): nat
  {
    if h == 0 then 0 else UpToAll(ks, h - 1) + |ShapesAtAll(ks, h)|
  }

  lemma {:induction false} UpToSplit(s: Shape, h: nat)
    ensures UpTo(s, h) == UpToAll(s.kids, h) + (if s.kids != [] && Height(s) <= h then 1 else 0)
    decreases h
  {
    if h > 0 {
      UpToSplit(s, h - 1);
    }
  }

  lemma {:induction false} UpToAllSplit(ks: seq<Shape>, h: nat)
    requires ks != []
    ensures UpToAll(ks, h) == UpTo(ks[0], h) + UpToAll(ks[1..], h)
    decreases h
  {
    if h > 0 {
      UpToAllSplit(ks, h - 1);
    }
  }

  lemma {:induction false} UpToNone(h: nat)
    ensures UpToAll([], h) == 0
    decreases h
  {
    if h > 0 {
      UpToNone(h - 1);
    }
  }

  /** Counting by height counts every inner node once. */
  lemma {:induction false} UpToIsInner(s: Shape, h: nat)
    requires Height(s) <= h
    ensures UpTo(s, h) == Inner(s)
    decreases s, 1
  {
    UpToSplit(s, h);
    UpToAllIsInner(s.kids, h);
  }

  lemma {:induction false} UpToAllIsInner(ks: seq<Shape>, h: nat)
    requires forall i :: 0 <= i < |ks| ==> Height(ks[i]) <= h
    ensures UpToAll(ks, h) == InnerAll(ks)
    decreases ks, 0
  {
    if ks == [] {
      UpToNone(h);
    } else {
      UpToAllSplit(ks, h);
      UpToIsInner(ks[0], h);
      assert forall i :: 0 <= i < |ks[1..]| ==> ks[1..][i] == ks[i + 1];
      UpToAllIsInner(ks[1..], h);
    }
  }

  // ---------- collecting the layers ----------

  function Listed(layers: map<nat, seq<PsiNode>>, h: nat): seq<PsiNode>
  {
    if h in layers then layers[h] else []
  }

  lemma HeadsSum(a: seq<Shape>, b: seq<Shape>)
    ensures Heads(a + b) == Heads(a) + Heads(b)
  {
  }

  lemma {:induction false} TopHeightAppend(a: seq<Shape>, k: Shape)
    ensures TopHeight(a + [k]) == if Height(k) > TopHeight(a) then Height(k) else TopHeight(a)
    decreases |a|
  {
    if a == [] {
      assert a + [k] == [k] && [k][1..] == [];
    } else {
      assert (a + [k])[1..] == a[1..] + [k];
      TopHeightAppend(a[1..], k);
    }
  }

  lemma {:induction false} ShapesAtAppend(a: seq<Shape>, k: Shape, h: nat)
    ensures ShapesAtAll(a + [k], h) == ShapesAtAll(a, h) + ShapesAt(k, h)
    decreases |a|
  {
    if a == [] {
      assert a + [k] == [k] && [k][1..] == [];
    } else {
      assert (a + [k])[1..] == a[1..] + [k];
      ShapesAtAppend(a[1..], k, h);
    }
  }

  /** `after` is `before` with the inner nodes of a forest appended height by height. */
  ghost predicate AppendedAll(before: map<nat, seq<PsiNode>>, after: map<nat, seq<PsiNode>>, ks: seq<Shape>)
  {
    forall h: nat ::
      && Listed(after, h) == Listed(before, h) + Heads(ShapesAtAll(ks, h))
      && (h in after <==> h in before || ShapesAtAll(ks, h) != [])
  }

  /** The same for one tree. */
  ghost predicate AppendedTree(before: map<nat, seq<PsiNode>>, after: map<nat, seq<PsiNode>>, s: Shape)
  {
    forall h: nat ::
      && Listed(after, h) == Listed(before, h) + Heads(ShapesAt(s, h))
      && (h in after <==> h in before || ShapesAt(s, h) != [])
  }

  lemma AppendedNothing(layers: map<nat, seq<PsiNode>>)
    ensures AppendedAll(layers, layers, [])
  {
  }

  lemma AppendedKid(l0: map<nat, seq<PsiNode>>, l1: map<nat, seq<PsiNode>>, l2: map<nat, seq<PsiNode>>, a: seq<Shape>, k: Shape)
    requires AppendedAll(l0, l1, a) && AppendedTree(l1, l2, k)
    ensures AppendedAll(l0, l2, a + [k])
  {
    hide ShapesAtAll, ShapesAt, Heads, Listed;
    forall h: nat
      ensures Listed(l2, h) == Listed(l0, h) + Heads(ShapesAtAll(a + [k], h))
      ensures h in l2 <==> h in l0 || ShapesAtAll(a + [k], h) != []
    {
      ShapesAtAppend(a, k, h);
      HeadsSum(ShapesAtAll(a, h), ShapesAt(k, h));
    }
  }

  lemma AppendedSelf(l0: map<nat, seq<PsiNode>>, l1: map<nat, seq<PsiNode>>, s: Shape, l2: map<nat, seq<PsiNode>>)
    requires s.kids != [] && AppendedAll(l0, l1, s.kids)
    requires l2 == l1[Height(s) := Listed(l1, Height(s)) + [s.node]]
    ensures AppendedTree(l0, l2, s)
  {
    hide ShapesAtAll, ShapesAt, Heads, Height;
    forall h: nat
      ensures Listed(l2, h) == Listed(l0, h) + Heads(ShapesAt(s, h))
      ensures h in l2 <==> h in l0 || ShapesAt(s, h) != []
    {
      SelfAtHeight(s, h);
      assert Listed(l1, h) == Listed(l0, h) + Heads(ShapesAtAll(s.kids, h));
    }
  }

  lemma SelfAtHeight(s: Shape, h: nat)
    requires s.kids != []
    ensures ShapesAt(s, h) == ShapesAtAll(s.kids, h) + (if Height(s) == h then [s] else [])
    ensures Heads(ShapesAt(s, h)) == Heads(ShapesAtAll(s.kids, h)) + (if Height(s) == h then [s.node] else [])
  {
  }

  lemma HeightOf(s: Shape)
    ensures Height(s) == (if s.kids == [] then 0 else TopHeight(s.kids) + 1) && TopHeight([]) == 0
    ensures |Heads(s.kids)| == |s.kids|
  {
  }

  lemma AppendedLeaf(layers: map<nat, seq<PsiNode>>, s: Shape)
    requires s.kids == []
    ensures AppendedTree(layers, layers, s)
  {
  }

  /** `_psi_layers`: the inner nodes below `node`, appended to the list of their height. */
  method CollectLayers(node: PsiNode, layers: map<nat, seq<PsiNode>>, ghost s: Shape)
    returns (h: nat, layers': map<nat, seq<PsiNode>>)
    requires s.node == node && Linked(s)
    ensures h == Height(s) && AppendedTree(layers, layers', s)
    decreases s
  {
    hide AppendedAll, AppendedTree, ShapesAtAll, ShapesAt, NodesAll, LinkedAll, Linked, Heads, Height, TopHeight, Listed;
    UnfoldNode(s);
    HeightOf(s);
    layers' := layers;
    AppendedNothing(layers);
    if node.children == [] {
      AppendedLeaf(layers, s);
      return 0, layers;
    }
    h := 0;
    assert s.kids[..0] == [];
    for i := 0 to |node.children|
      invariant node.children == Heads(s.kids) && LinkedAll(s.kids, node) && h == TopHeight(s.kids[..i])
      invariant AppendedAll(layers, layers', s.kids[..i])
    {
      LinkedAt(s.kids, node, i);
      NodesAllocated(s.kids);
      ghost var before := layers';
      var hc;
      hc, layers' := CollectLayers(node.children[i], layers', s.kids[i]);
      CutSeq(s.kids, i);
      TopHeightAppend(s.kids[..i], s.kids[i]);
      AppendedKid(layers, before, layers', s.kids[..i], s.kids[i]);
      h := if hc > h then hc else h;
    }
    assert s.kids[..|s.kids|] == s.kids;
    h := h + 1;
    AppendedSelf(layers, layers', s, layers'[h := Listed(layers', h) + [node]]);
    layers' := layers'[h := Listed(layers', h) + [node]];
  }
}
