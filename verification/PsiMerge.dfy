/** What one successful `union` does to the forest, whichever of its three branches ran. */
module PsiMerge {
  import opened PsiForest
  import opened Sets
  import opened PsiLinks

  ghost function RootSeq(f: Forest): (s: seq<nat>)
    requires Ordered(f)
    ensures |s| == |f.rank| && forall x :: 0 <= x < |s| ==> s[x] == Root(f, x)
  {
    seq(|f.rank|, x requires 0 <= x < |f.rank| => Root(f, x))
  }

  /** Every merge removes one root, and at most one id is created per merge. */
  ghost predicate Counted(f: Forest, merges: nat)
    requires Ordered(f)
  {
    && |Roots(f)| + merges == |f.rank|
    && f.nextId <= |f.rank| + merges
    && |f.tree| == (if |f.rank| == 0 then 1 else 2 * |f.rank| - 1)
  }

  /** The root of `x` disappears and its leaves move to the root of `y`; no other leaf moves. */
  ghost predicate Moved(f: Forest, g: Forest, x: nat, y: nat)
    requires Ordered(f) && Ordered(g) && x < |f.rank| && y < |f.rank|
  {
    && |g.rank| == |f.rank| && |g.tree| == |f.tree|
    && (forall z :: 0 <= z < |f.rank| ==>
          Root(g, z) == if Root(f, z) == Root(f, x) then Root(f, y) else Root(f, z))
    && Roots(g) == Roots(f) - {Root(f, x)}
  }

  /**
    The tree of leaf `x` is absorbed by the tree of leaf `y`. The two leaves meet exactly one level
    above the absorbed root: in the fresh node when the ranks are equal, and otherwise in the node
    that already was the ancestor of `y` at that level. No existing parent entry changes.
   */
  ghost predicate Absorbed(f: Forest, g: Forest, x: nat, y: nat)
    requires Ordered(f) && Ordered(g) && x < |f.rank| && y < |f.rank|
  {
    var a, b := f.rank[Root(f, x)], f.rank[Root(f, y)];
    var meet := Climb(g.tree, x, a + 1);
    && Root(f, x) != Root(f, y) && a <= b
    && Moved(f, g, x, y)
    && meet == Climb(g.tree, y, a + 1) && IsLca(g.tree, x, y, meet) && MeetAt(g.tree, x, y, a + 1)
    && (forall r :: r in Roots(g) ==> g.rank[r] == if a == b && r == Root(f, y) then b + 1 else f.rank[r])
    && g.nextId == (if a == b then f.nextId + 1 else f.nextId)
    && meet == (if a == b then f.nextId else Climb(f.tree, y, a + 1))
    && (forall v :: 0 <= v < |f.tree| && f.tree[v] != -1 ==> g.tree[v] == f.tree[v])
  }

  lemma RootsAfterSplice(f: Forest, a: nat, p: nat, g: Forest)
    requires Ordered(f) && Graded(f) && f.nextId <= |f.tree| && Ordered(g)
    requires a < |f.rank| && p < |f.rank| && f.par[a] == -1 && f.rank[a] < f.rank[p]
    requires g == Splice(f, a, p)
    ensures Roots(g) == Roots(f) - {a}
    ensures forall z :: 0 <= z < |f.rank| ==>
              Root(g, z) == if Root(f, z) == a then Root(f, p) else Root(f, z)
  {
    forall z | 0 <= z < |f.rank|
      ensures Root(g, z) == if Root(f, z) == a then Root(f, p) else Root(f, z)
    {
      SpliceRoot(f, a, p, g, z);
    }
  }

  lemma SpliceKeepsEdges(f: Forest, a: nat, p: nat, g: Forest)
    requires Inv(f)
    requires a < |f.rank| && p < |f.rank| && f.par[a] == -1 && f.rank[a] < f.rank[p]
    requires g == Splice(f, a, p)
    ensures forall v :: 0 <= v < |f.tree| && f.tree[v] != -1 ==> g.tree[v] == f.tree[v]
  {
    assert f.tree[f.ids[a][f.rank[a]]] == Up(f, a, f.rank[a]);
  }

  /** The splicing branches of `union`. */
  lemma SpliceAbsorbs(f: Forest, a: nat, p: nat, g: Forest, x: nat, y: nat, l: nat)
    requires Inv(f)
    requires a < |f.rank| && p < |f.rank| && f.par[a] == -1 && f.rank[a] < f.rank[p]
    requires g == Splice(f, a, p) && x < |f.rank| && y < |f.rank| && l == f.rank[a] + 1
    requires Root(f, x) == a && Root(f, y) == Root(f, p) && Owner(f, y, l) == p
    ensures Inv(g) && Absorbed(f, g, x, y)
  {
    SpliceKeepsInv(f, a, p, g);
    RootsAfterSplice(f, a, p, g);
    SpliceMeets(f, a, p, g, x, y, l);
    LcaFromOwners(g, x, y, l);
    MeetFromOwners(g, x, y, l);
    ClimbIsOwner(f, y, l);
    SpliceKeepsEdges(f, a, p, g);
  }

  lemma RootsAfterJoin(f: Forest, i: nat, j: nat, g: Forest)
    requires Inv(f) && f.nextId < |f.tree| && Ordered(g)
    requires i < |f.rank| && j < |f.rank| && i != j
    requires f.par[i] == -1 && f.par[j] == -1 && f.rank[i] == f.rank[j]
    requires g == Join(f, i, j)
    ensures Roots(g) == Roots(f) - {j}
    ensures forall z :: 0 <= z < |f.rank| ==>
              Root(g, z) == if Root(f, z) == j then i else Root(f, z)
  {
    var h := Raise(f, i, j);
    RaiseKeepsGrading(f, i, j, h);
    RootsAfterSplice(h, j, i, g);
    forall z | 0 <= z < |f.rank|
      ensures Root(g, z) == if Root(f, z) == j then i else Root(f, z)
    {
      RaiseEffect(f, i, j, h, z);
    }
  }

  lemma JoinKeepsEdges(f: Forest, i: nat, j: nat, g: Forest)
    requires Inv(f) && f.nextId < |f.tree|
    requires i < |f.rank| && j < |f.rank| && i != j
    requires f.par[i] == -1 && f.par[j] == -1 && f.rank[i] == f.rank[j]
    requires g == Join(f, i, j)
    ensures g.tree == f.tree[f.ids[i][f.rank[i]] := f.nextId][f.ids[j][f.rank[j]] := f.nextId]
    ensures |g.rank| == |f.rank| && |g.tree| == |f.tree|
    ensures forall v :: 0 <= v < |f.tree| && f.tree[v] != -1 ==> g.tree[v] == f.tree[v]
  {
    assert f.tree[f.ids[i][f.rank[i]]] == Up(f, i, f.rank[i]);
    assert f.tree[f.ids[j][f.rank[j]]] == Up(f, j, f.rank[j]);
  }

  /** The equal-rank branch of `union`. */
  lemma JoinAbsorbs(f: Forest, i: nat, j: nat, g: Forest, x: nat, y: nat)
    requires Inv(f) && f.nextId < |f.tree|
    requires i < |f.rank| && j < |f.rank| && i != j
    requires f.par[i] == -1 && f.par[j] == -1 && f.rank[i] == f.rank[j]
    requires g == Join(f, i, j) && x < |f.rank| && y < |f.rank|
    requires Root(f, x) == j && Root(f, y) == i
    ensures Inv(g) && Absorbed(f, g, x, y)
  {
    hide Ordered, Graded, Edges, Siblings, Root, Owner, Climb, IsLca, MeetAt, FirstMeet;
    JoinMeets(f, i, j, g, x, y, f.rank[i] + 1);
    LcaFromOwners(g, x, y, f.rank[i] + 1);
    MeetFromOwners(g, x, y, f.rank[i] + 1);
    RootsAfterJoin(f, i, j, g);
    JoinKeepsEdges(f, i, j, g);
  }

  /** A merge keeps the root count, so the parent array never overflows. */
  lemma MovedCounts(f: Forest, g: Forest, x: nat, y: nat, merges: nat)
    requires Ordered(f) && Ordered(g) && x < |f.rank| && y < |f.rank|
    requires Counted(f, merges) && Moved(f, g, x, y)
    requires g.nextId <= f.nextId + 1
    ensures Counted(g, merges + 1)
  {
    assert Root(f, x) in Roots(f);
  }

  /** Two different roots leave room for one more id. */
  lemma RoomForJoin(f: Forest, x: nat, y: nat, merges: nat)
    requires Ordered(f) && x < |f.rank| && y < |f.rank| && Counted(f, merges)
    requires Root(f, x) != Root(f, y)
    ensures f.nextId < |f.tree|
  {
    assert {Root(f, x), Root(f, y)} <= Roots(f);
    SubsetSize({Root(f, x), Root(f, y)}, Roots(f));
  }

  /** A merge fuses exactly the connected components of its two leaves. */
  lemma MovedClassifies(f: Forest, g: Forest, x: nat, y: nat, links: seq<Pair>, i: nat, j: nat)
    requires Ordered(f) && Ordered(g) && x < |f.rank| && y < |f.rank|
    requires Moved(f, g, x, y) && Root(f, x) != Root(f, y)
    requires (i, j) == (x, y) || (i, j) == (y, x)
    requires Classifies(RootSeq(f), links)
    ensures Classifies(RootSeq(g), links + [(i, j)])
  {
    assert Fuses(RootSeq(f), RootSeq(g), i, j);
    FuseClassifies(RootSeq(f), RootSeq(g), links, i, j);
  }

  lemma AbsorbedKeeps(f: Forest, g: Forest, x: nat, y: nat, links: seq<Pair>, merges: nat, i: nat, j: nat)
    requires Ordered(f) && Ordered(g) && x < |f.rank| && y < |f.rank|
    requires Absorbed(f, g, x, y) && Counted(f, merges) && Classifies(RootSeq(f), links)
    requires (i, j) == (x, y) || (i, j) == (y, x)
    ensures Counted(g, merges + 1) && Classifies(RootSeq(g), links + [(i, j)])
  {
    MovedCounts(f, g, x, y, merges);
    MovedClassifies(f, g, x, y, links, i, j);
  }

  lemma AbsorbedSize(f: Forest, g: Forest, x: nat, y: nat)
    requires Ordered(f) && Ordered(g) && x < |f.rank| && y < |f.rank| && Absorbed(f, g, x, y)
    ensures |g.rank| == |f.rank|
  {
  }

  /** A refused pair links nothing new. */
  lemma RefusedClassifies(f: Forest, links: seq<Pair>, i: nat, j: nat)
    requires Ordered(f) && i < |f.rank| && j < |f.rank| && Root(f, i) == Root(f, j)
    requires Classifies(RootSeq(f), links)
    ensures Classifies(RootSeq(f), links + [(i, j)])
  {
    assert Fuses(RootSeq(f), RootSeq(f), i, j);
    FuseClassifies(RootSeq(f), RootSeq(f), links, i, j);
  }
}
