/**
  The in-memory Psi tree: nodes with child and parent links that `_create_psi_parent` and
  `_rebalance_psi_tree` rewrite in place.

  A `Shape` is the tree value that a linked structure stands for. `Linked` ties the two together:
  child lists and parent links agree with the shape in both directions.
 */
module PsiTree {

  class PsiNode {
    const index: nat
    var text: string
    var children: seq<PsiNode>
    var parent: PsiNode?

    constructor (index: nat, text: string)
      ensures this.index == index && this.text == text && children == [] && parent == null
    {
      this.index, this.text, this.children, this.parent := index, text, [], null;
    }
  }

  datatype Shape = Shape(node: PsiNode, kids: seq<Shape>)

  ghost function Nodes(s: Shape): (r: set<PsiNode>)
    ensures s.node in r
    decreases s, 1
  {
    {s.node} + NodesAll(s.kids)
  }

  ghost function NodesAll(ks: seq<Shape>): set<PsiNode>
    decreases ks, 0
  {
    if ks == [] then {} else Nodes(ks[0]) + NodesAll(ks[1..])
  }

  /** No node occurs twice. */
  ghost predicate Proper(s: Shape)
    decreases s, 1
  {
    s.node !in NodesAll(s.kids) && ProperAll(s.kids)
  }

  ghost predicate ProperAll(ks: seq<Shape>)
    decreases ks, 0
  {
    ks != [] ==> Proper(ks[0]) && ProperAll(ks[1..]) && Nodes(ks[0]) !! NodesAll(ks[1..])
  }

  ghost function Heads(ks: seq<Shape>): (r: seq<PsiNode>)
    ensures |r| == |ks| && forall i :: 0 <= i < |ks| ==> r[i] == ks[i].node
  {
    seq(|ks|, i requires 0 <= i < |ks| => ks[i].node)
  }

  /** The heap realises the shape: children in order, and every child points back to its parent. */
  ghost predicate Linked(s: Shape)
    reads Nodes(s)
    decreases s, 1
  {
    s.node.children == Heads(s.kids) && LinkedAll(s.kids, s.node)
  }

  ghost predicate LinkedAll(ks: seq<Shape>, parent: PsiNode?)
    reads NodesAll(ks)
    decreases ks, 0
  {
    ks != [] ==> ks[0].node.parent == parent && Linked(ks[0]) && LinkedAll(ks[1..], parent)
  }

  /** The leaves from left to right. */
  ghost function Fringe(s: Shape): (r: seq<PsiNode>)
    ensures |r| > 0
    decreases s, 1
  {
    if s.kids == [] then [s.node] else FringeAll(s.kids)
  }

  ghost function FringeAll(ks: seq<Shape>): (r: seq<PsiNode>)
    ensures |r| >= |ks|
    decreases ks, 0
  {
    if ks == [] then [] else Fringe(ks[0]) + FringeAll(ks[1..])
  }

  /** No node has more than `m` children. */
  ghost predicate Narrow(s: Shape, m: nat)
    decreases s, 1
  {
    |s.kids| <= m && NarrowAll(s.kids, m)
  }

  ghost predicate NarrowAll(ks: seq<Shape>, m: nat)
    decreases ks, 0
  {
    ks != [] ==> Narrow(ks[0], m) && NarrowAll(ks[1..], m)
  }

  /** Every inner node has at least two children. */
  ghost predicate Branching(s: Shape)
    decreases s, 1
  {
    |s.kids| != 1 && BranchingAll(s.kids)
  }

  ghost predicate BranchingAll(ks: seq<Shape>)
    decreases ks, 0
  {
    ks != [] ==> Branching(ks[0]) && BranchingAll(ks[1..])
  }

  // ---------- splitting forests ----------

  lemma {:induction false} NodesSplit(a: seq<Shape>, b: seq<Shape>)
    ensures NodesAll(a + b) == NodesAll(a) + NodesAll(b)
    decreases |a|
  {
    if a == [] {
      assert a + b == b;
    } else {
      NodesSplit(a[1..], b);
      assert (a + b)[1..] == a[1..] + b;
    }
  }

  lemma {:induction false} ProperSplit(a: seq<Shape>, b: seq<Shape>)
    ensures ProperAll(a + b) <==> ProperAll(a) && ProperAll(b) && NodesAll(a) !! NodesAll(b)
    decreases |a|
  {
    if a == [] {
      assert a + b == b;
    } else {
      ProperSplit(a[1..], b);
      NodesSplit(a[1..], b);
      assert (a + b)[1..] == a[1..] + b;
    }
  }

  lemma {:induction false} LinkedSplit(a: seq<Shape>, b: seq<Shape>, parent: PsiNode?)
    ensures LinkedAll(a + b, parent) <==> LinkedAll(a, parent) && LinkedAll(b, parent)
    decreases |a|
  {
    if a == [] {
      assert a + b == b;
    } else {
      LinkedSplit(a[1..], b, parent);
      assert (a + b)[1..] == a[1..] + b;
    }
  }

  lemma {:induction false} FringeSplit(a: seq<Shape>, b: seq<Shape>)
    ensures FringeAll(a + b) == FringeAll(a) + FringeAll(b)
    decreases |a|
  {
    if a == [] {
      assert a + b == b;
    } else {
      FringeSplit(a[1..], b);
      assert (a + b)[1..] == a[1..] + b;
      assert FringeAll(a + b) == Fringe(a[0]) + (FringeAll(a[1..]) + FringeAll(b));
    }
  }

  lemma {:induction false} NarrowSplit(a: seq<Shape>, b: seq<Shape>, m: nat)
    ensures NarrowAll(a + b, m) <==> NarrowAll(a, m) && NarrowAll(b, m)
    decreases |a|
  {
    if a == [] {
      assert a + b == b;
    } else {
      NarrowSplit(a[1..], b, m);
      assert (a + b)[1..] == a[1..] + b;
    }
  }

  lemma {:induction false} BranchingSplit(a: seq<Shape>, b: seq<Shape>)
    ensures BranchingAll(a + b) <==> BranchingAll(a) && BranchingAll(b)
    decreases |a|
  {
    if a == [] {
      assert a + b == b;
    } else {
      BranchingSplit(a[1..], b);
      assert (a + b)[1..] == a[1..] + b;
    }
  }

  lemma Single(k: Shape)
    ensures NodesAll([k]) == Nodes(k) && FringeAll([k]) == Fringe(k)
    ensures ProperAll([k]) <==> Proper(k)
    ensures forall m :: NarrowAll([k], m) <==> Narrow(k, m)
    ensures BranchingAll([k]) <==> Branching(k)
  {
    assert [k][1..] == [];
  }

  lemma CutSeq<T>(s: seq<T>, i: nat)
    requires i < |s|
    ensures s[..i + 1] == s[..i] + [s[i]] && s[i..] == [s[i]] + s[i + 1..] && s == s[..i] + s[i..]
  {
  }

  lemma ThreeParts(a: seq<Shape>, k: Shape, c: seq<Shape>)
    requires ProperAll(a + ([k] + c))
    ensures ProperAll(a) && Proper(k) && ProperAll(c)
    ensures NodesAll(a) !! Nodes(k) && NodesAll(c) !! Nodes(k) && NodesAll(a) !! NodesAll(c)
    ensures NodesAll(a + ([k] + c)) == NodesAll(a) + Nodes(k) + NodesAll(c)
  {
    Single(k);
    ProperSplit(a, [k] + c);
    ProperSplit([k], c);
    NodesSplit(a, [k] + c);
    NodesSplit([k], c);
  }

  /** A forest cut around its `i`-th tree. */
  lemma CutOut(ks: seq<Shape>, i: nat, a: seq<Shape>, k: Shape, c: seq<Shape>)
    requires i < |ks| && ProperAll(ks) && a == ks[..i] && k == ks[i] && c == ks[i + 1..]
    ensures ks[..i + 1] == a + [k] && ks[i..] == [k] + c && ks == a + ([k] + c)
    ensures ProperAll(a) && Proper(k) && ProperAll(c)
    ensures NodesAll(a) !! Nodes(k) && NodesAll(c) !! Nodes(k) && NodesAll(a) !! NodesAll(c)
    ensures NodesAll(ks) == NodesAll(a) + Nodes(k) + NodesAll(c)
  {
    CutSeq(ks, i);
    ThreeParts(a, k, c);
  }

  lemma {:induction false} NodesAllocated(ks: seq<Shape>)
    ensures forall n :: n in NodesAll(ks) ==> allocated(n)
    decreases ks, 0
  {
    if ks != [] {
      var k := ks[0];
      assert allocated(k.node);
      NodesAllocated(k.kids);
      NodesAllocated(ks[1..]);
      assert Nodes(k) == {k.node} + NodesAll(k.kids);
      assert NodesAll(ks) == Nodes(k) + NodesAll(ks[1..]);
    }
  }

  /** Reparenting the root of a shape does not unlink it. */
  method SetParent(child: PsiNode, p: PsiNode, ghost s: Shape)
    requires s.node == child && Proper(s) && Linked(s)
    modifies child`parent
    ensures child.parent == p && Linked(s)
  {
    child.parent := p;
  }

  /** `_create_psi_parent`: a new node above the given children. */
  method CreateParent(index: nat, children: seq<PsiNode>, ghost bs: seq<Shape>, ghost q: PsiNode?) returns (p: PsiNode)
    requires children == Heads(bs) && ProperAll(bs) && LinkedAll(bs, q)
    modifies (set c | c in children)`parent
    ensures fresh(p) && p.index == index && p.text == "" && p.parent == null
    ensures Linked(Shape(p, bs))
  {
    hide Nodes, Proper, ProperAll, Linked, NodesAll;
    ghost var below := NodesAll(bs);
    NodesAllocated(bs);
    p := new PsiNode(index, "");
    assert p !in below;
    p.children := children;
    assert bs[0..] == bs;
    for i := 0 to |children|
      invariant p.children == children && p.index == index && p.text == "" && p.parent == null
      invariant LinkedAll(bs[..i], p) && LinkedAll(bs[i..], q)
    {
      ghost var a, k, c := bs[..i], bs[i], bs[i + 1..];
      CutOut(bs, i, a, k, c);
      SetParent(children[i], p, k);
      LinkedSplit(a, [k], p);
    }
    assert bs[..|children|] == bs;
    UnfoldNode(Shape(p, bs));
  }

  /** The new nodes of a run carry the indices from `lo` up to `hi`, each exactly once. */
  ghost predicate Minted(f: set<PsiNode>, lo: nat, hi: nat)
  {
    && lo + |f| == hi
    && (forall n :: n in f ==> lo <= n.index < hi)
    && (forall n, n' :: n in f && n' in f && n.index == n'.index ==> n == n')
  }

  lemma MintedSum(f: set<PsiNode>, g: set<PsiNode>, lo: nat, mid: nat, hi: nat)
    requires Minted(f, lo, mid) && Minted(g, mid, hi)
    ensures Minted(f + g, lo, hi)
  {
    assert f !! g;
    assert |f + g| == |f| + |g|;
  }

  /** The forest `gs` re-groups `ks` under `node`: same leaves in order, only new nodes `f` added. */
  ghost predicate Regroups(gs: seq<Shape>, ks: seq<Shape>, f: set<PsiNode>, m: nat)
  {
    && ProperAll(gs) && FringeAll(gs) == FringeAll(ks)
    && NodesAll(gs) == NodesAll(ks) + f && NodesAll(ks) !! f
    && (NarrowAll(ks, m) ==> NarrowAll(gs, m))
    && (BranchingAll(ks) ==> BranchingAll(gs))
  }

  lemma RegroupsAppend(gs: seq<Shape>, ks: seq<Shape>, f: set<PsiNode>, g: Shape, bs: seq<Shape>, f': set<PsiNode>, m: nat)
    requires Regroups(gs, ks, f, m) && Proper(g)
    requires Fringe(g) == FringeAll(bs) && Nodes(g) == NodesAll(bs) + f' && NodesAll(bs) !! f'
    requires NarrowAll(bs, m) ==> Narrow(g, m)
    requires BranchingAll(bs) ==> Branching(g)
    requires NodesAll(ks) !! NodesAll(bs) && f !! Nodes(g) && f' !! NodesAll(gs)
    ensures Regroups(gs + [g], ks + bs, f + f', m)
  {
    hide Nodes, NodesAll, Proper, ProperAll, Fringe, FringeAll, Narrow, NarrowAll, Branching, BranchingAll;
    Single(g);
    ProperSplit(gs, [g]);
    NodesSplit(gs, [g]);
    NodesSplit(ks, bs);
    FringeSplit(gs, [g]);
    FringeSplit(ks, bs);
    NarrowSplit(gs, [g], m);
    NarrowSplit(ks, bs, m);
    BranchingSplit(gs, [g]);
    BranchingSplit(ks, bs);
  }

  /** A new parent over two or more trees, seen as a shape. */
  lemma ParentShape(p: PsiNode, bs: seq<Shape>, m: nat)
    requires ProperAll(bs) && p !in NodesAll(bs) && 2 <= |bs| <= m
    ensures Proper(Shape(p, bs)) && Fringe(Shape(p, bs)) == FringeAll(bs)
    ensures Nodes(Shape(p, bs)) == NodesAll(bs) + {p}
    ensures NarrowAll(bs, m) ==> Narrow(Shape(p, bs), m)
    ensures BranchingAll(bs) ==> Branching(Shape(p, bs))
  {
  }

  lemma HeadsInside(ks: seq<Shape>)
    ensures forall i :: 0 <= i < |ks| ==> ks[i].node in NodesAll(ks)
  {
    if ks != [] {
      HeadsInside(ks[1..]);
      forall i | 0 <= i < |ks|
        ensures ks[i].node in NodesAll(ks)
      {
        assert i > 0 ==> ks[1..][i - 1] == ks[i];
      }
    }
  }

  /** A forest cut into a front, a middle batch and the rest. */
  lemma CutBatch(ks: seq<Shape>, i: nat, j: nat, a: seq<Shape>, bs: seq<Shape>, c: seq<Shape>)
    requires i < j <= |ks| && ProperAll(ks) && a == ks[..i] && bs == ks[i..j] && c == ks[j..]
    ensures ks[..j] == a + bs && ks[i..] == bs + c
    ensures ProperAll(a) && ProperAll(bs) && ProperAll(c)
    ensures NodesAll(a) !! NodesAll(bs) && NodesAll(a) !! NodesAll(c) && NodesAll(bs) !! NodesAll(c)
    ensures NodesAll(ks) == NodesAll(a) + NodesAll(bs) + NodesAll(c)
  {
    hide Nodes, NodesAll, Proper, ProperAll;
    assert ks[..j] == a + bs && ks[i..] == bs + c && ks == a + (bs + c);
    ProperSplit(a, bs + c);
    ProperSplit(bs, c);
    NodesSplit(a, bs + c);
    NodesSplit(bs, c);
  }

  // ---------- which trees are grouped ----------

  /** A single tree is kept; several become the children of one new tree. */
  ghost predicate Batch(t: Shape, bs: seq<Shape>)
  {
    if |bs| == 1 then t == bs[0] else t.kids == bs
  }

  /** The trees are grouped in order into batches of `m`, only the last of which may be smaller. */
  ghost predicate Batched(gs: seq<Shape>, ks: seq<Shape>, m: nat)
    requires m > 0
    decreases |ks|
  {
    if ks == [] then gs == []
    else
      var k := if |ks| < m then |ks| else m;
      gs != [] && Batch(gs[0], ks[..k]) && Batched(gs[1..], ks[k..], m)
  }

  /** A multiple of `m`. */
  ghost predicate Whole(n: nat, m: nat)
    requires m > 0
  {
    n == 0 || (n >= m && Whole(n - m, m))
  }

  lemma {:induction false} BatchedAppend(gs: seq<Shape>, ks: seq<Shape>, t: Shape, bs: seq<Shape>, m: nat)
    requires m > 0 && Batched(gs, ks, m) && Whole(|ks|, m) && 1 <= |bs| <= m && Batch(t, bs)
    ensures Batched(gs + [t], ks + bs, m)
    decreases |ks|
  {
    hide Batch;
    if ks == [] {
      assert ks + bs == bs && gs + [t] == [t] && bs[..|bs|] == bs && bs[|bs|..] == [] && [t][1..] == [];
      assert Batched([], [], m);
    } else {
      BatchedAppend(gs[1..], ks[m..], t, bs, m);
      assert (ks + bs)[..m] == ks[..m] && (ks + bs)[m..] == ks[m..] + bs && (gs + [t])[1..] == gs[1..] + [t];
    }
  }

  /** Rounds of grouping, as long as there are too many trees. */
  ghost predicate Regrouped(cur: seq<Shape>, ks: seq<Shape>, m: nat, rounds: seq<seq<Shape>>)
    requires m > 0
    decreases |rounds|
  {
    if rounds == [] then cur == ks else |ks| > m && Batched(rounds[0], ks, m) && Regrouped(cur, rounds[0], m, rounds[1..])
  }

  lemma {:induction false} RegroupedMore(cur: seq<Shape>, ks: seq<Shape>, m: nat, rounds: seq<seq<Shape>>, next: seq<Shape>)
    requires m > 0 && Regrouped(cur, ks, m, rounds) && |cur| > m && Batched(next, cur, m)
    ensures Regrouped(next, ks, m, rounds + [next])
    decreases |rounds|
  {
    hide Batched;
    if rounds == [] {
      assert [next][1..] == [] && rounds + [next] == [next];
    } else {
      RegroupedMore(cur, rounds[0], m, rounds[1..], next);
      assert (rounds + [next])[1..] == rounds[1..] + [next];
    }
  }

  /** How a tree was rebalanced: its children first, then the rounds that grouped them. */
  datatype Balance = Balance(each: seq<Balance>, after: seq<Shape>, rounds: seq<seq<Shape>>)

  ghost predicate Balanced(t: Shape, s: Shape, m: nat, how: Balance)
    requires m > 0
    decreases how
  {
    && t.node == s.node && |how.each| == |how.after| == |s.kids|
    && (forall i :: 0 <= i < |s.kids| ==> Balanced(how.after[i], s.kids[i], m, how.each[i]))
    && Regrouped(t.kids, how.after, m, how.rounds) && |t.kids| <= m
  }

  ghost predicate EachBalanced(ts: seq<Shape>, ks: seq<Shape>, m: nat, each: seq<Balance>)
    requires m > 0
  {
    |ts| == |each| <= |ks| && forall i :: 0 <= i < |ts| ==> Balanced(ts[i], ks[i], m, each[i])
  }

  lemma EachBalancedMore(ts: seq<Shape>, ks: seq<Shape>, m: nat, each: seq<Balance>, t: Shape, how: Balance)
    requires m > 0 && EachBalanced(ts, ks, m, each) && |ts| < |ks| && Balanced(t, ks[|ts|], m, how)
    ensures EachBalanced(ts + [t], ks, m, each + [how])
  {
    hide Balanced;
  }

  /** A tree that fits already is not changed at all. */
  lemma {:induction false} FittingIsKept(t: Shape, s: Shape, m: nat, how: Balance)
    requires m > 0 && Balanced(t, s, m, how) && Narrow(s, m)
    ensures t == s
    decreases s, 1
  {
    forall i | 0 <= i < |s.kids|
      ensures how.after[i] == s.kids[i]
    {
      NarrowAt(s.kids, m, i);
      FittingIsKept(how.after[i], s.kids[i], m, how.each[i]);
    }
    assert how.after == s.kids;
  }

  lemma {:induction false} NarrowAt(ks: seq<Shape>, m: nat, i: nat)
    requires NarrowAll(ks, m) && i < |ks|
    ensures Narrow(ks[i], m)
    decreases |ks|
  {
    if i > 0 {
      NarrowAt(ks[1..], m, i - 1);
    }
  }

  /** One batch becomes one tree: a single child is kept, several get a new parent. */
  method GroupBatch(node: PsiNode, batch: seq<PsiNode>, m: nat, next: nat, ghost bs: seq<Shape>)
    returns (g: PsiNode, next': nat, ghost t: Shape, ghost f: set<PsiNode>)
    requires 1 <= |batch| <= m && batch == Heads(bs) && ProperAll(bs) && LinkedAll(bs, node)
    modifies (set c | c in batch)`parent
    ensures t.node == g && Linked(t) && g.parent == node && Proper(t)
    ensures Fringe(t) == FringeAll(bs) && Nodes(t) == NodesAll(bs) + f && NodesAll(bs) !! f
    ensures NarrowAll(bs, m) ==> Narrow(t, m)
    ensures BranchingAll(bs) ==> Branching(t)
    ensures fresh(f) && Minted(f, next, next')
    ensures Batch(t, bs) && (|batch| == 1 ==> g == batch[0] && f == {})
    ensures |batch| > 1 ==> f == {g} && g.index == next && t.kids == bs && g.text == ""
  {
    hide Nodes, NodesAll, Proper, ProperAll, Linked, LinkedAll, Fringe, FringeAll, Narrow, NarrowAll, Branching, BranchingAll;
    if |batch| == 1 {
      g, next', t, f := batch[0], next, bs[0], {};
      assert bs == [bs[0]];
      Single(bs[0]);
      UnfoldFirst(bs, node);
      SetParent(g, node, t);
    } else {
      NodesAllocated(bs);
      g := CreateParent(next, batch, bs, node);
      next', t, f := next + 1, Shape(g, bs), {g};
      ParentShape(g, bs, m);
      SetParent(g, node, t);
    }
  }

  lemma HeadsAppend(gs: seq<Shape>, t: Shape)
    ensures Heads(gs + [t]) == Heads(gs) + [t.node]
  {
  }

  lemma HeadsSlice(ks: seq<Shape>, i: nat, j: nat)
    requires i <= j <= |ks|
    ensures Heads(ks)[i..j] == Heads(ks[i..j])
  {
  }

  /** The first `start` children are regrouped as `gs`; the others still hang under `node`. */
  ghost predicate Grouping(node: PsiNode, ks: seq<Shape>, start: nat, gs: seq<Shape>, f: set<PsiNode>, m: nat)
    requires start <= |ks|
    reads NodesAll(gs), NodesAll(ks[start..])
  {
    && LinkedAll(gs, node) && LinkedAll(ks[start..], node)
    && Regroups(gs, ks[..start], f, m) && f !! NodesAll(ks)
  }

  /** One iteration: the next batch is grouped and appended. */
  method GroupNext(node: PsiNode, m: nat, next: nat, start: nat, end: nat, ghost ks: seq<Shape>, ghost gs: seq<Shape>, ghost f: set<PsiNode>)
    returns (g: PsiNode, next': nat, ghost t: Shape, ghost f': set<PsiNode>)
    requires start < end <= |ks| && end <= start + m && node.children == Heads(ks)
    requires ProperAll(ks) && Grouping(node, ks, start, gs, f, m)
    modifies NodesAll(ks)`parent
    ensures g == t.node && Grouping(node, ks, end, gs + [t], f + f', m) && Batch(t, ks[start..end])
    ensures fresh(f') && Minted(f', next, next')
  {
    hide Batch, Nodes, NodesAll, Proper, ProperAll, Fringe, FringeAll, Narrow, NarrowAll, Branching, BranchingAll, LinkedAll, Minted, Regroups, Heads;
    var batch := node.children[start..end];
    ghost var a, bs, c := ks[..start], ks[start..end], ks[end..];
    CutBatch(ks, start, end, a, bs, c);
    LinkedSplit(bs, c, node);
    HeadsInside(bs);
    HeadsSlice(ks, start, end);
    RegroupedNodes(gs, a, f, m);
    NodesAllocated(gs);
    NodesAllocated(ks);
    g, next', t, f' := GroupBatch(node, batch, m, next, bs);
    assert LinkedAll(c, node) && f' !! NodesAll(ks);
    RegroupsAppend(gs, a, f, t, bs, f', m);
    LinkedAppend(gs, t, node);
  }

  /** One round of the rebalancing loop: the children of `node` are put into batches of `m`. */
  method GroupOnce(node: PsiNode, m: nat, next: nat, ghost ks: seq<Shape>)
    returns (next': nat, ghost gs: seq<Shape>, ghost f: set<PsiNode>)
    requires 2 <= m < |ks| && node.children == Heads(ks)
    requires ProperAll(ks) && LinkedAll(ks, node) && node !in NodesAll(ks)
    modifies node`children, NodesAll(ks)`parent
    ensures node.children == Heads(gs) && LinkedAll(gs, node) && node !in NodesAll(gs)
    ensures 2 <= |gs| < |ks| && Regroups(gs, ks, f, m) && Batched(gs, ks, m)
    ensures fresh(f) && Minted(f, next, next')
  {
    hide Batch, Batched, Nodes, NodesAll, Proper, ProperAll, Fringe, FringeAll, Narrow, NarrowAll, Branching, BranchingAll, Linked, LinkedAll, Minted, Regroups, Heads;
    var start, grouped := 0, [];
    next', gs, f := next, [], {};
    EmptyForest(node, m, next);
    NothingBatched(m);
    assert ks[..0] == [] && ks[0..] == ks && Heads([]) == [];
    while start < |node.children|
      invariant start <= |ks| && node.children == Heads(ks) && grouped == Heads(gs)
      invariant Grouping(node, ks, start, gs, f, m) && fresh(f) && Minted(f, next, next')
      invariant if start == 0 then gs == [] else m <= start && 1 <= |gs| < start && (start > m ==> 2 <= |gs|)
      invariant Batched(gs, ks[..start], m) && (start < |ks| ==> Whole(start, m))
    {
      var end := if start + m <= |node.children| then start + m else |node.children|;
      var g, n', t, f' := GroupNext(node, m, next', start, end, ks, gs, f);
      MintedSum(f, f', next, next', n');
      HeadsAppend(gs, t);
      BatchedNext(gs, ks, start, end, t, m);
      gs, f, next', grouped, start := gs + [t], f + f', n', grouped + [g], end;
    }
    assert ks[..start] == ks;
    RegroupedNodes(gs, ks, f, m);
    node.children := grouped;
  }

  lemma BatchedNext(gs: seq<Shape>, ks: seq<Shape>, start: nat, end: nat, t: Shape, m: nat)
    requires m > 0 && start < end <= |ks| && end <= start + m && Whole(start, m)
    requires Batched(gs, ks[..start], m) && Batch(t, ks[start..end])
    ensures Batched(gs + [t], ks[..end], m)
  {
    hide Batched, Batch, Whole;
    BatchedAppend(gs, ks[..start], t, ks[start..end], m);
    assert ks[..end] == ks[..start] + ks[start..end];
  }

  lemma NothingBatched(m: nat)
    requires m > 0
    ensures Batched([], [], m) && Whole(0, m)
  {
  }

  lemma EmptyForest(node: PsiNode, m: nat, next: nat)
    ensures LinkedAll([], node) && Regroups([], [], {}, m) && NarrowAll([], m) && Minted({}, next, next)
  {
  }

  lemma LinkedAppend(gs: seq<Shape>, t: Shape, node: PsiNode?)
    requires LinkedAll(gs, node) && t.node.parent == node && Linked(t)
    ensures LinkedAll(gs + [t], node)
  {
    assert [t][1..] == [];
    LinkedSplit(gs, [t], node);
  }

  lemma RegroupedNodes(gs: seq<Shape>, ks: seq<Shape>, f: set<PsiNode>, m: nat)
    requires Regroups(gs, ks, f, m)
    ensures NodesAll(gs) == NodesAll(ks) + f && ProperAll(gs)
    ensures NarrowAll(ks, m) ==> NarrowAll(gs, m)
  {
  }

  lemma RegroupsTrans(hs: seq<Shape>, gs: seq<Shape>, ks: seq<Shape>, f: set<PsiNode>, f': set<PsiNode>, m: nat)
    requires Regroups(gs, ks, f, m) && Regroups(hs, gs, f', m)
    ensures Regroups(hs, ks, f + f', m)
  {
  }

  /** What rebalancing promises about the tree below one node. */
  ghost predicate Rebalanced(t: Shape, s: Shape, f: set<PsiNode>, m: nat)
  {
    && t.node == s.node && Proper(t) && Fringe(t) == Fringe(s)
    && Nodes(t) == Nodes(s) + f && Nodes(s) !! f
    && Narrow(t, m)
    && (Branching(s) ==> Branching(t))
  }

  lemma RebalancedNode(s: Shape, hs: seq<Shape>, f: set<PsiNode>, m: nat)
    requires Proper(s) && Regroups(hs, s.kids, f, m) && s.node !in f
    requires |hs| <= m && NarrowAll(hs, m)
    requires if |s.kids| <= m then |hs| == |s.kids| else 2 <= |hs|
    ensures Rebalanced(Shape(s.node, hs), s, f, m)
  {
    assert s.kids == [] <==> hs == [];
  }

  lemma RegroupsChild(gs: seq<Shape>, a: seq<Shape>, f: set<PsiNode>, k: Shape, t: Shape, f': set<PsiNode>, m: nat)
    requires Regroups(gs, a, f, m) && Rebalanced(t, k, f', m)
    requires NodesAll(a) !! Nodes(k) && f !! Nodes(t) && f' !! NodesAll(gs)
    requires NarrowAll(gs, m)
    ensures Regroups(gs + [t], a + [k], f + f', m) && NarrowAll(gs + [t], m)
  {
    Single(k);
    Single(t);
    NarrowSplit(gs, [t], m);
    RegroupsAppend(gs, a, f, t, [k], f', m);
  }

  lemma UnfoldNode(s: Shape)
    ensures Nodes(s) == {s.node} + NodesAll(s.kids)
    ensures Proper(s) <==> s.node !in NodesAll(s.kids) && ProperAll(s.kids)
    ensures Linked(s) <==> s.node.children == Heads(s.kids) && LinkedAll(s.kids, s.node)
  {
  }

  lemma UnfoldFirst(ks: seq<Shape>, parent: PsiNode?)
    requires ks != [] && LinkedAll(ks, parent)
    ensures ks[0].node.parent == parent && Linked(ks[0]) && LinkedAll(ks[1..], parent)
  {
  }

  /** `rebalance`: first the children, then the child list of `node` itself until it fits. */
  method Rebalance(node: PsiNode, m: nat, next: nat, ghost s: Shape)
    returns (next': nat, ghost t: Shape, ghost f: set<PsiNode>, ghost how: Balance)
    requires 2 <= m && s.node == node && Proper(s) && Linked(s)
    modifies Nodes(s)`children, Nodes(s)`parent
    ensures Rebalanced(t, s, f, m) && Linked(t) && node.parent == old(node.parent) && Balanced(t, s, m, how)
    ensures t.node == node && Nodes(t) == Nodes(s) + f
    ensures fresh(f) && Minted(f, next, next')
    decreases s, 2
  {
    hide Nodes, NodesAll, Proper, ProperAll, Fringe, FringeAll, Narrow, NarrowAll, Branching, BranchingAll, LinkedAll, Minted, Regroups, Rebalanced, Linked, EachBalanced, Balanced, Regrouped, Batched;
    UnfoldNode(s);
    ghost var each, rounds := [], [];
    next', t, f, each := RebalanceKids(node, m, next, s);
    ghost var after := t.kids;
    NotRegrouped(after, m);
    while |node.children| > m
      invariant t.node == node && node.children == Heads(t.kids) && LinkedAll(t.kids, node)
      invariant Regroups(t.kids, s.kids, f, m) && NarrowAll(t.kids, m) && node !in NodesAll(t.kids)
      invariant if |s.kids| <= m then |t.kids| == |s.kids| else 2 <= |t.kids|
      invariant fresh(f) && Minted(f, next, next') && node.parent == old(node.parent)
      invariant Regrouped(t.kids, after, m, rounds)
      decreases |node.children|
    {
      RegroupedNodes(t.kids, s.kids, f, m);
      var n', gs, f' := GroupOnce(node, m, next', t.kids);
      RegroupsTrans(gs, t.kids, s.kids, f, f', m);
      RegroupedNodes(gs, t.kids, f', m);
      MintedSum(f, f', next, next', n');
      RegroupedMore(t.kids, after, m, rounds, gs);
      t, f, next', rounds := Shape(node, gs), f + f', n', rounds + [gs];
    }
    how := Balance(each, after, rounds);
    BalancedNode(t, s, m, how);
    RebalancedNode(s, t.kids, f, m);
    RegroupedNodes(t.kids, s.kids, f, m);
    UnfoldNode(t);
  }

  lemma NotRegrouped(ks: seq<Shape>, m: nat)
    requires m > 0
    ensures Regrouped(ks, ks, m, [])
  {
  }

  lemma BalancedNode(t: Shape, s: Shape, m: nat, how: Balance)
    requires m > 0 && t.node == s.node && |how.after| == |s.kids| && EachBalanced(how.after, s.kids, m, how.each)
    requires Regrouped(t.kids, how.after, m, how.rounds) && |t.kids| <= m
    ensures Balanced(t, s, m, how)
  {
    hide Regrouped;
  }

  /** The recursive call on one child of `node`. */
  method RebalanceChild(node: PsiNode, i: nat, m: nat, next: nat, ghost s: Shape, ghost gs: seq<Shape>, ghost f: set<PsiNode>)
    returns (next': nat, ghost t: Shape, ghost f': set<PsiNode>, ghost how: Balance)
    requires 2 <= m && s.node == node && Proper(s) && i < |s.kids| && node.children == Heads(s.kids)
    requires Grouping(node, s.kids, i, gs, f, m) && NarrowAll(gs, m)
    modifies NodesAll(s.kids)`children, NodesAll(s.kids)`parent
    ensures Grouping(node, s.kids, i + 1, gs + [t], f + f', m) && NarrowAll(gs + [t], m)
    ensures t.node == s.kids[i].node && fresh(f') && Minted(f', next, next') && Balanced(t, s.kids[i], m, how)
    decreases s, 0
  {
    hide Balanced, Nodes, NodesAll, Proper, ProperAll, Fringe, FringeAll, Narrow, NarrowAll, Branching, BranchingAll, LinkedAll, Minted, Regroups, Rebalanced, Linked;
    ghost var ks := s.kids;
    ghost var a, k, c := ks[..i], ks[i], ks[i + 1..];
    UnfoldNode(s);
    CutOut(ks, i, a, k, c);
    UnfoldFirst(ks[i..], node);
    RegroupedNodes(gs, a, f, m);
    NodesAllocated(gs);
    NodesAllocated(ks);
    next', t, f', how := Rebalance(node.children[i], m, next, k);
    RegroupsChild(gs, a, f, k, t, f', m);
    LinkedAppend(gs, t, node);
  }

  /** The recursive calls on all children of `node`. */
  method RebalanceKids(node: PsiNode, m: nat, next: nat, ghost s: Shape)
    returns (next': nat, ghost t: Shape, ghost f: set<PsiNode>, ghost each: seq<Balance>)
    requires 2 <= m && s.node == node && Proper(s) && Linked(s)
    modifies Nodes(s)`children, Nodes(s)`parent
    ensures EachBalanced(t.kids, s.kids, m, each)
    ensures t.node == node && node.children == Heads(t.kids) && LinkedAll(t.kids, node)
    ensures Regroups(t.kids, s.kids, f, m) && NarrowAll(t.kids, m) && |t.kids| == |s.kids|
    ensures node !in NodesAll(t.kids)
    ensures fresh(f) && Minted(f, next, next') && node.parent == old(node.parent)
    decreases s, 1
  {
    hide Nodes, NodesAll, Proper, ProperAll, Fringe, FringeAll, Narrow, NarrowAll, Branching, BranchingAll, LinkedAll, Minted, Regroups, Rebalanced, Linked, Heads, EachBalanced, Balanced;
    UnfoldNode(s);
    ghost var ks, gs := s.kids, [];
    next', f, each := next, {}, [];
    NoneBalanced(ks, m);
    EmptyForest(node, m, next);
    assert ks[..0] == [] && ks[0..] == ks;
    for i := 0 to |node.children|
      invariant node.children == Heads(ks) && |gs| == i && Heads(gs) == Heads(ks[..i])
      invariant Grouping(node, ks, i, gs, f, m) && NarrowAll(gs, m)
      invariant fresh(f) && Minted(f, next, next') && node.parent == old(node.parent) && EachBalanced(gs, ks, m, each)
    {
      var n', t', f', how := RebalanceChild(node, i, m, next', s, gs, f);
      EachBalancedMore(gs, ks, m, each, t', how);
      MintedSum(f, f', next, next', n');
      HeadsAppend(gs, t');
      HeadsAppend(ks[..i], ks[i]);
      CutSeq(ks, i);
      gs, f, next', each := gs + [t'], f + f', n', each + [how];
    }
    assert ks[..|ks|] == ks;
    RegroupedNodes(gs, ks, f, m);
    t := Shape(node, gs);
  }

  lemma NoneBalanced(ks: seq<Shape>, m: nat)
    requires m > 0
    ensures EachBalanced([], ks, m, [])
  {
  }

  /** Indices below `bound`, no two alike. */
  ghost predicate Indexed(ns: set<PsiNode>, bound: nat)
  {
    && (forall n :: n in ns ==> n.index < bound)
    && (forall n, n' :: n in ns && n' in ns && n.index == n'.index ==> n == n')
  }

  lemma IndexedGrows(ns: set<PsiNode>, f: set<PsiNode>, next: nat, next': nat)
    requires Indexed(ns, next) && Minted(f, next, next')
    ensures Indexed(ns + f, next')
  {
  }

  /** `above` lists the nodes from its first one up to a root. */
  ghost predicate WayUp(above: seq<PsiNode>)
    reads above
    decreases |above|
  {
    && |above| > 0
    && (if |above| == 1 then above[0].parent == null
        else above[0].parent == above[1] && WayUp(above[1..]))
  }

  /** `_root`: follow the parent links to the end. */
  method RootOf(node: PsiNode, ghost above: seq<PsiNode>) returns (root: PsiNode)
    requires WayUp(above) && above[0] == node
    ensures root == above[|above| - 1] && root.parent == null
  {
    root := node;
    ghost var rest := above;
    while root.parent != null
      invariant WayUp(rest) && rest[0] == root && rest[|rest| - 1] == above[|above| - 1]
      decreases |rest|
    {
      root, rest := root.parent, rest[1..];
    }
  }

  /**
    `_rebalance_psi_tree`: the same leaves in the same order, no node with more than
    max(2, maxCluster) children, and inner nodes that branched still branch.
   */
  method RebalancePsiTree(root: PsiNode, maxCluster: int, next: nat, ghost s: Shape)
    returns (root': PsiNode, next': nat, ghost t: Shape, ghost f: set<PsiNode>, ghost how: Balance)
    requires s.node == root && root.parent == null && Proper(s) && Linked(s)
    modifies Nodes(s)`children, Nodes(s)`parent
    ensures root' == root == t.node && root.parent == null && Proper(t) && Linked(t)
    ensures Fringe(t) == Fringe(s) && Narrow(t, if maxCluster > 2 then maxCluster else 2)
    ensures Balanced(t, s, if maxCluster > 2 then maxCluster else 2, how)
    ensures Branching(s) ==> Branching(t)
    ensures Nodes(t) == Nodes(s) + f && fresh(f) && Minted(f, next, next')
    ensures Indexed(Nodes(s), next) ==> Indexed(Nodes(t), next')
  {
    hide Nodes, NodesAll, Proper, ProperAll, Fringe, FringeAll, Narrow, NarrowAll, Branching, BranchingAll, Linked, LinkedAll, Minted, Indexed, Balanced;
    var m := if maxCluster > 2 then maxCluster else 2;
    next', t, f, how := Rebalance(root, m, next, s);
    NodesAllocated([t]);
    Single(t);
    root' := RootOf(root, [root]);
    if Indexed(Nodes(s), next) {
      IndexedGrows(Nodes(s), f, next, next');
    }
  }
}
