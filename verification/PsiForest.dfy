/**
  The value-level theory of the Psi merge forest: what `_PsiUnionFind` keeps true of its ranks,
  node ids and compact parent array.

  A leaf that loses a merge gets a union-find parent that never changes afterwards (`par`). Leaf
  `x` owns one tree node per level `0..rank[x]`, the ids of which are `ids[x]`. `owner`, `level`
  and `sib` are bookkeeping: the inverse of `ids`, and a second child for every inner node.
 */
module PsiForest {
  import opened Sets

  datatype Forest = Forest(
    rank: seq<nat>,
    ids: seq<seq<nat>>,
    tree: seq<int>,
    nextId: nat,
    par: seq<int>,
    owner: seq<nat>,
    level: seq<nat>,
    sib: seq<seq<nat>>)

  /** Union-find parents have strictly larger ranks, and ranks are bounded by the id counter. */
  ghost predicate Ordered(f: Forest)
  {
    && |f.par| == |f.rank|
    && (forall x :: 0 <= x < |f.rank| ==> f.rank[x] <= f.nextId)
    && (forall x :: 0 <= x < |f.par| ==>
          -1 <= f.par[x] < |f.par| && (f.par[x] != -1 ==> f.rank[x] < f.rank[f.par[x]]))
  }

  /** `owner` and `level` invert `ids`; ids below the number of leaves are the leaves. */
  ghost predicate Graded(f: Forest)
  {
    && |f.ids| == |f.rank| <= f.nextId == |f.owner| == |f.level|
    && (forall x :: 0 <= x < |f.ids| ==> |f.ids[x]| == f.rank[x] + 1 && f.ids[x][0] == x)
    && (forall x, k :: 0 <= x < |f.ids| && 0 <= k <= f.rank[x] ==>
          f.ids[x][k] < f.nextId && f.owner[f.ids[x][k]] == x && f.level[f.ids[x][k]] == k)
    && (forall v :: 0 <= v < f.nextId ==>
          f.owner[v] < |f.ids| && f.level[v] <= f.rank[f.owner[v]] && f.ids[f.owner[v]][f.level[v]] == v)
  }

  /** Where the parent entry of the `k`-th node of `x` has to point: one level up, or nowhere. */
  ghost function Up(f: Forest, x: nat, k: nat): int
    requires Ordered(f) && Graded(f) && x < |f.rank| && k <= f.rank[x]
  {
    if k < f.rank[x] then f.ids[x][k + 1]
    else if f.par[x] == -1 then -1
    else f.ids[f.par[x]][k + 1]
  }

  /** Every tree edge goes up exactly one level; unused entries are still -1. */
  ghost predicate Edges(f: Forest)
    requires Ordered(f) && Graded(f)
  {
    && f.nextId <= |f.tree|
    && (forall x, k {:trigger Up(f, x, k)} :: 0 <= x < |f.ids| && 0 <= k <= f.rank[x] ==>
          f.tree[f.ids[x][k]] == Up(f, x, k))
    && (forall v :: f.nextId <= v < |f.tree| ==> f.tree[v] == -1)
  }

  /** Every inner node has, besides its owner's own lower node, the top node of another leaf below it. */
  ghost predicate Siblings(f: Forest)
    requires Ordered(f)
  {
    && |f.sib| == |f.rank|
    && (forall x :: 0 <= x < |f.sib| ==> |f.sib[x]| == f.rank[x])
    && (forall x, k :: 0 <= x < |f.sib| && 0 <= k < f.rank[x] ==>
          f.sib[x][k] < |f.rank| && f.par[f.sib[x][k]] == x && f.rank[f.sib[x][k]] == k)
  }

  ghost predicate Inv(f: Forest)
  {
    Ordered(f) && Graded(f) && Edges(f) && Siblings(f)
  }

  // ---------- roots, paths and owners ----------

  ghost function Root(f: Forest, x: nat): (r: nat)
    requires Ordered(f) && x < |f.rank|
    ensures r < |f.rank| && f.par[r] == -1 && f.rank[x] <= f.rank[r]
    ensures f.par[x] == -1 <==> r == x
    decreases f.nextId - f.rank[x]
  {
    if f.par[x] == -1 then x else Root(f, f.par[x])
  }

  ghost function Path(f: Forest, x: nat): (p: seq<nat>)
    requires Ordered(f) && x < |f.rank|
    ensures |p| > 0 && p[0] == x && p[|p| - 1] == Root(f, x)
    ensures |p| == 1 <==> f.par[x] == -1
    decreases f.nextId - f.rank[x]
  {
    if f.par[x] == -1 then [x] else [x] + Path(f, f.par[x])
  }

  /** The leaf that owns the ancestor of `x` at level `k`. */
  ghost function Owner(f: Forest, x: nat, k: nat): (o: nat)
    requires Ordered(f) && x < |f.rank| && k <= f.rank[Root(f, x)]
    ensures o < |f.rank| && k <= f.rank[o] && Root(f, o) == Root(f, x)
    decreases f.nextId - f.rank[x]
  {
    if k <= f.rank[x] then x else Owner(f, f.par[x], k)
  }

  /** What the path holds at position `a`: a strictly better ranked element of the same tree. */
  lemma {:induction false} PathAt(f: Forest, x: nat, a: nat)
    requires Ordered(f) && x < |f.rank| && a < |Path(f, x)|
    ensures Path(f, x)[a] < |f.rank| && Root(f, Path(f, x)[a]) == Root(f, x)
    ensures Path(f, x)[a..] == Path(f, Path(f, x)[a])
    ensures a > 0 ==> f.rank[x] < f.rank[Path(f, x)[a]]
    decreases a
  {
    if a > 0 {
      PathAt(f, f.par[x], a - 1);
      var p, q := Path(f, x), Path(f, f.par[x]);
      assert p == [x] + q;
      assert p[a] == q[a - 1] && p[a..] == q[a - 1..];
    }
  }

  /** Ranks rise strictly along a path, so a path never repeats an element. */
  lemma PathRises(f: Forest, x: nat, a: nat, b: nat)
    requires Ordered(f) && x < |f.rank| && a < b < |Path(f, x)|
    ensures Path(f, x)[a] < |f.rank| && Path(f, x)[b] < |f.rank|
    ensures f.rank[Path(f, x)[a]] < f.rank[Path(f, x)[b]]
  {
    PathAt(f, x, a);
    PathAt(f, x, b);
    var p := Path(f, x);
    assert p[a..][b - a] == p[b];
    PathAt(f, p[a], b - a);
  }

  /** The owner at level `k` is the first element of the path whose rank reaches `k`. */
  lemma {:induction false} OwnerIsFirstOnPath(f: Forest, x: nat, k: nat, a: nat)
    requires Ordered(f) && x < |f.rank|
    requires a < |Path(f, x)| && Path(f, x)[a] < |f.rank|
    requires k <= f.rank[Path(f, x)[a]]
    requires a > 0 ==> Path(f, x)[a - 1] < |f.rank| && f.rank[Path(f, x)[a - 1]] < k
    ensures k <= f.rank[Root(f, x)] && Owner(f, x, k) == Path(f, x)[a]
    decreases a
  {
    PathAt(f, x, a);
    if a > 0 {
      var p, q := Path(f, x), Path(f, f.par[x]);
      assert p == [x] + q;
      assert q[a - 1] == p[a] && (a > 1 ==> q[a - 2] == p[a - 1]);
      OwnerIsFirstOnPath(f, f.par[x], k, a - 1);
      PathAt(f, x, a - 1);
    }
  }

  /** Going up one level either stays with the owner or moves to its union-find parent. */
  lemma {:induction false} OwnerStep(f: Forest, x: nat, k: nat)
    requires Ordered(f) && x < |f.rank| && k + 1 <= f.rank[Root(f, x)]
    ensures var o := Owner(f, x, k);
            Owner(f, x, k + 1) == (if k + 1 <= f.rank[o] then o else f.par[o])
    ensures var o := Owner(f, x, k); k + 1 <= f.rank[o] || (f.rank[o] == k && f.par[o] != -1)
    decreases f.nextId - f.rank[x]
  {
    if f.rank[x] < k {
      OwnerStep(f, f.par[x], k);
    }
  }

  // ---------- what one merge does ----------

  /** The lower-ranked root `a` is hung under `p`, at the level just above its own top node. */
  ghost function Splice(f: Forest, a: nat, p: nat): Forest
    requires Ordered(f) && Graded(f) && f.nextId <= |f.tree|
    requires a < |f.rank| && p < |f.rank| && f.par[a] == -1 && f.rank[a] < f.rank[p]
  {
    f.(par := f.par[a := p], tree := f.tree[f.ids[a][f.rank[a]] := f.ids[p][f.rank[a] + 1]])
  }

  /** Root `i` gets a fresh node on top of its old top node. */
  ghost function Raise(f: Forest, i: nat, j: nat): Forest
    requires Ordered(f) && Graded(f) && f.nextId <= |f.tree|
    requires i < |f.rank| && f.par[i] == -1 && |f.sib| == |f.rank|
  {
    f.(rank := f.rank[i := f.rank[i] + 1],
       ids := f.ids[i := f.ids[i] + [f.nextId]],
       tree := f.tree[f.ids[i][f.rank[i]] := f.nextId],
       nextId := f.nextId + 1,
       owner := f.owner + [i],
       level := f.level + [f.rank[i] + 1],
       sib := f.sib[i := f.sib[i] + [j]])
  }

  lemma SpliceEdges(f: Forest, a: nat, p: nat, g: Forest)
    requires Ordered(f) && Graded(f) && Edges(f)
    requires a < |f.rank| && p < |f.rank| && f.par[a] == -1 && f.rank[a] < f.rank[p]
    requires g == Splice(f, a, p) && Ordered(g) && Graded(g)
    ensures Edges(g)
  {
    hide Graded, Ordered;
    IdAt(f, a, f.rank[a]);
    forall x, k | 0 <= x < |g.ids| && 0 <= k <= g.rank[x]
      ensures k < |g.ids[x]| && g.ids[x][k] < |g.tree| && g.tree[g.ids[x][k]] == Up(g, x, k)
    {
      IdAt(f, x, k);
      assert f.tree[f.ids[x][k]] == Up(f, x, k);
    }
  }

  /** The `k`-th node of `x` determines `x` and `k`. */
  lemma IdAt(f: Forest, x: nat, k: nat)
    requires Ordered(f) && Graded(f) && x < |f.rank| && k <= f.rank[x]
    ensures |f.par| == |f.ids| == |f.rank| && |f.ids[x]| == f.rank[x] + 1 && f.ids[x][k] < f.nextId == |f.owner| == |f.level|
    ensures f.owner[f.ids[x][k]] == x && f.level[f.ids[x][k]] == k
    ensures -1 <= f.par[x] < |f.par|
  {
  }

  lemma SpliceKeepsGrading(f: Forest, a: nat, p: nat, g: Forest)
    requires Ordered(f) && Graded(f) && Edges(f)
    requires a < |f.rank| && p < |f.rank| && f.par[a] == -1 && f.rank[a] < f.rank[p]
    requires g == Splice(f, a, p)
    ensures Ordered(g) && Graded(g) && Edges(g)
  {
    SpliceEdges(f, a, p, g);
  }

  lemma RaiseEdges(f: Forest, i: nat, j: nat, g: Forest)
    requires Inv(f) && f.nextId < |f.tree|
    requires i < |f.rank| && f.par[i] == -1
    requires g == Raise(f, i, j) && Ordered(g) && Graded(g)
    ensures Edges(g)
  {
    var t := f.ids[i][f.rank[i]];
    assert f.owner[t] == i && f.level[t] == f.rank[i];
    forall x, k | 0 <= x < |g.ids| && 0 <= k <= g.rank[x]
      ensures g.tree[g.ids[x][k]] == Up(g, x, k)
    {
      if x == i && k == f.rank[i] + 1 {
        assert f.tree[f.nextId] == -1;
      } else {
        assert f.owner[f.ids[x][k]] == x && f.level[f.ids[x][k]] == k;
        assert f.tree[f.ids[x][k]] == Up(f, x, k);
      }
    }
  }

  lemma RaiseKeepsGrading(f: Forest, i: nat, j: nat, g: Forest)
    requires Inv(f) && f.nextId < |f.tree|
    requires i < |f.rank| && f.par[i] == -1
    requires g == Raise(f, i, j)
    ensures Ordered(g) && Graded(g) && Edges(g)
  {
    RaiseGraded(f, i, j);
    RaiseEdges(f, i, j, g);
  }

  lemma RaiseGraded(f: Forest, i: nat, j: nat)
    requires Inv(f)
    requires i < |f.rank| && f.par[i] == -1
    ensures Graded(Raise(f, i, j))
  {
    var g := Raise(f, i, j);
    forall x, k | 0 <= x < |g.ids| && 0 <= k <= g.rank[x]
      ensures g.ids[x][k] < g.nextId && g.owner[g.ids[x][k]] == x && g.level[g.ids[x][k]] == k
    {
      if x == i && k == f.rank[i] + 1 {
      } else {
        assert g.ids[x][k] == f.ids[x][k];
      }
    }
    forall v | 0 <= v < g.nextId
      ensures g.owner[v] < |g.ids| && g.level[v] <= g.rank[g.owner[v]] && g.ids[g.owner[v]][g.level[v]] == v
    {
      if v < f.nextId {
        assert g.owner[v] == f.owner[v] && g.level[v] == f.level[v];
      }
    }
  }

  /** Raising `i` and splicing `j` under it: the merge of two roots of equal rank. */
  ghost function Join(f: Forest, i: nat, j: nat): Forest
    requires Inv(f) && f.nextId < |f.tree|
    requires i < |f.rank| && j < |f.rank| && i != j
    requires f.par[i] == -1 && f.par[j] == -1 && f.rank[i] == f.rank[j]
  {
    RaiseKeepsGrading(f, i, j, Raise(f, i, j));
    Splice(Raise(f, i, j), j, i)
  }

  lemma SpliceKeepsInv(f: Forest, a: nat, p: nat, g: Forest)
    requires Inv(f)
    requires a < |f.rank| && p < |f.rank| && f.par[a] == -1 && f.rank[a] < f.rank[p]
    requires g == Splice(f, a, p)
    ensures Inv(g)
  {
    SpliceKeepsGrading(f, a, p, g);
    forall x, k | 0 <= x < |g.sib| && 0 <= k < g.rank[x]
      ensures g.sib[x][k] < |g.rank| && g.par[g.sib[x][k]] == x && g.rank[g.sib[x][k]] == k
    {
      assert f.par[f.sib[x][k]] == x;
    }
  }

  lemma JoinKeepsInv(f: Forest, i: nat, j: nat, g: Forest)
    requires Inv(f) && f.nextId < |f.tree|
    requires i < |f.rank| && j < |f.rank| && i != j
    requires f.par[i] == -1 && f.par[j] == -1 && f.rank[i] == f.rank[j]
    requires g == Join(f, i, j)
    ensures Inv(g)
  {
    var h := Raise(f, i, j);
    RaiseKeepsGrading(f, i, j, h);
    SpliceKeepsGrading(h, j, i, g);
    forall x, k | 0 <= x < |g.sib| && 0 <= k < g.rank[x]
      ensures g.sib[x][k] < |g.rank| && g.par[g.sib[x][k]] == x && g.rank[g.sib[x][k]] == k
    {
      if x == i && k == f.rank[i] {
      } else {
        assert g.sib[x][k] == f.sib[x][k];
        assert f.par[f.sib[x][k]] == x;
      }
    }
  }

  /** Splicing sends the absorbed tree to the root of the insert point and moves no other leaf. */
  lemma {:induction false} SpliceRoot(f: Forest, a: nat, p: nat, g: Forest, x: nat)
    requires Ordered(f) && Graded(f) && f.nextId <= |f.tree| && Ordered(g)
    requires a < |f.rank| && p < |f.rank| && f.par[a] == -1 && f.rank[a] < f.rank[p]
    requires g == Splice(f, a, p) && x < |f.rank|
    ensures Root(g, x) == (if Root(f, x) == a then Root(f, p) else Root(f, x))
    decreases f.nextId - f.rank[x]
  {
    if x == a {
      SpliceRoot(f, a, p, g, p);
    } else if f.par[x] != -1 {
      SpliceRoot(f, a, p, g, f.par[x]);
    }
  }

  lemma {:induction false} SplicePathElsewhere(f: Forest, a: nat, p: nat, g: Forest, x: nat)
    requires Ordered(f) && Graded(f) && f.nextId <= |f.tree| && Ordered(g)
    requires a < |f.rank| && p < |f.rank| && f.par[a] == -1 && f.rank[a] < f.rank[p]
    requires g == Splice(f, a, p) && x < |f.rank| && Root(f, x) != a
    ensures Path(g, x) == Path(f, x)
    decreases f.nextId - f.rank[x]
  {
    if f.par[x] != -1 {
      SplicePathElsewhere(f, a, p, g, f.par[x]);
    }
  }

  lemma ConsAssoc(x: nat, q: seq<nat>, r: seq<nat>)
    ensures [x] + (q + r) == ([x] + q) + r
  {
  }

  /** Splicing appends the path of the insert point to every path of the absorbed tree. */
  lemma {:induction false} SplicePath(f: Forest, a: nat, p: nat, g: Forest, x: nat)
    requires Ordered(f) && Graded(f) && f.nextId <= |f.tree| && Ordered(g)
    requires a < |f.rank| && p < |f.rank| && f.par[a] == -1 && f.rank[a] < f.rank[p]
    requires g == Splice(f, a, p) && x < |f.rank| && Root(f, x) == a
    ensures Path(g, x) == Path(f, x) + Path(f, p)
    decreases f.nextId - f.rank[x]
  {
    if x == a {
      SplicePathElsewhere(f, a, p, g, p);
    } else {
      SplicePath(f, a, p, g, f.par[x]);
      ConsAssoc(x, Path(f, f.par[x]), Path(f, p));
    }
  }

  /** Splicing keeps the owners the tree had, and the absorbed tree takes over those of the insert point. */
  lemma {:induction false} SpliceOwner(f: Forest, a: nat, p: nat, g: Forest, x: nat, k: nat)
    requires Ordered(f) && Graded(f) && f.nextId <= |f.tree| && Ordered(g)
    requires a < |f.rank| && p < |f.rank| && f.par[a] == -1 && f.rank[a] < f.rank[p]
    requires g == Splice(f, a, p) && x < |f.rank|
    requires k <= f.rank[Root(f, x)] || (Root(f, x) == a && k <= f.rank[Root(f, p)])
    ensures k <= g.rank[Root(g, x)]
    ensures Owner(g, x, k) == (if k <= f.rank[Root(f, x)] then Owner(f, x, k) else Owner(f, p, k))
    decreases f.nextId - f.rank[x]
  {
    SpliceRoot(f, a, p, g, x);
    if k > f.rank[x] {
      if x == a {
        SpliceOwner(f, a, p, g, p, k);
      } else {
        SpliceOwner(f, a, p, g, f.par[x], k);
      }
    }
  }

  lemma {:induction false} RaiseEffect(f: Forest, i: nat, j: nat, g: Forest, x: nat)
    requires Ordered(f) && Graded(f) && f.nextId <= |f.tree| && Ordered(g)
    requires i < |f.rank| && f.par[i] == -1 && |f.sib| == |f.rank|
    requires g == Raise(f, i, j) && x < |f.rank|
    ensures Root(g, x) == Root(f, x) && Path(g, x) == Path(f, x)
    decreases f.nextId - f.rank[x]
  {
    if f.par[x] != -1 {
      RaiseEffect(f, i, j, g, f.par[x]);
    }
  }

  lemma {:induction false} RaiseOwner(f: Forest, i: nat, j: nat, g: Forest, x: nat, k: nat)
    requires Ordered(f) && Graded(f) && f.nextId <= |f.tree| && Ordered(g)
    requires i < |f.rank| && f.par[i] == -1 && |f.sib| == |f.rank|
    requires g == Raise(f, i, j) && x < |f.rank|
    requires k <= f.rank[Root(f, x)] || (Root(f, x) == i && k <= f.rank[i] + 1)
    ensures k <= g.rank[Root(g, x)]
    ensures Owner(g, x, k) == (if k <= f.rank[Root(f, x)] then Owner(f, x, k) else i)
    decreases f.nextId - f.rank[x]
  {
    RaiseEffect(f, i, j, g, x);
    if x != i && k > f.rank[x] {
      RaiseOwner(f, i, j, g, f.par[x], k);
    }
  }

  // ---------- the compact parent array on its own ----------

  /** Following `k` parent links upwards from `v`; -1 once there is none left. */
  function Climb(tree: seq<int>, v: int, k: nat): int
  {
    if k == 0 then v
    else
      var w := Climb(tree, v, k - 1);
      if 0 <= w < |tree| then tree[w] else -1
  }

  lemma {:induction false} ClimbAdd(tree: seq<int>, v: int, a: nat, b: nat)
    ensures Climb(tree, Climb(tree, v, a), b) == Climb(tree, v, a + b)
    decreases b
  {
    if b > 0 {
      ClimbAdd(tree, v, a, b - 1);
    }
  }

  ghost predicate IsAncestor(tree: seq<int>, v: int, x: int)
  {
    v >= 0 && exists k: nat :: Climb(tree, x, k) == v
  }

  /** `v` is the lowest common ancestor of `x` and `y`: every common ancestor is above it. */
  ghost predicate IsLca(tree: seq<int>, x: int, y: int, v: int)
  {
    && IsAncestor(tree, v, x) && IsAncestor(tree, v, y)
    && (forall w :: IsAncestor(tree, w, x) && IsAncestor(tree, w, y) ==> IsAncestor(tree, w, v))
  }

  /** All leaves of one tree sit at the same depth: the rank of the root, no more and no less. */
  lemma {:induction false} ClimbIsOwner(f: Forest, x: nat, k: nat)
    requires Inv(f) && x < |f.rank|
    ensures k <= f.rank[Root(f, x)] ==> Climb(f.tree, x, k) == f.ids[Owner(f, x, k)][k]
    ensures k > f.rank[Root(f, x)] ==> Climb(f.tree, x, k) == -1
    decreases k
  {
    hide Ordered, Graded, Edges, Siblings, Root, Owner;
    if k == 0 {
      LeafOwns(f, x);
    } else {
      ClimbIsOwner(f, x, k - 1);
      if k - 1 <= f.rank[Root(f, x)] {
        OwnerLink(f, x, k - 1);
        var v := f.ids[Owner(f, x, k - 1)][k - 1];
        assert Climb(f.tree, x, k) == f.tree[v];
      }
    }
  }

  lemma LeafOwns(f: Forest, x: nat)
    requires Ordered(f) && Graded(f) && x < |f.rank|
    ensures f.ids[Owner(f, x, 0)][0] == x
  {
  }

  /** The link of the node above `x` at level `k` leads to the node above `x` at the next level. */
  lemma OwnerLink(f: Forest, x: nat, k: nat)
    requires Inv(f) && x < |f.rank| && k <= f.rank[Root(f, x)]
    ensures Owner(f, x, k) < |f.ids| && k < |f.ids[Owner(f, x, k)]|
    ensures var v := f.ids[Owner(f, x, k)][k];
            && v < |f.tree|
            && (k < f.rank[Root(f, x)] ==> f.tree[v] == f.ids[Owner(f, x, k + 1)][k + 1])
            && (k == f.rank[Root(f, x)] ==> f.tree[v] == -1)
  {
    hide Siblings, Root, Owner;
    var o := Owner(f, x, k);
    assert f.tree[f.ids[o][k]] == Up(f, o, k);
    if k < f.rank[Root(f, x)] {
      OwnerStep(f, x, k);
    } else {
      TopOwner(f, x);
    }
  }

  lemma {:induction false} TopOwner(f: Forest, x: nat)
    requires Ordered(f) && x < |f.rank|
    ensures Owner(f, x, f.rank[Root(f, x)]) == Root(f, x)
    decreases f.nextId - f.rank[x]
  {
    if f.par[x] != -1 {
      TopOwner(f, f.par[x]);
    }
  }

  /** A common ancestor of two leaves is met after equally many links from both. */
  lemma CommonAncestorLevel(f: Forest, x: nat, y: nat, w: int) returns (a: nat)
    requires Inv(f) && x < |f.rank| && y < |f.rank|
    requires IsAncestor(f.tree, w, x) && IsAncestor(f.tree, w, y)
    ensures a <= f.rank[Root(f, x)] && a <= f.rank[Root(f, y)]
    ensures Climb(f.tree, x, a) == w && Owner(f, x, a) == Owner(f, y, a)
  {
    a :| Climb(f.tree, x, a) == w;
    var b: nat :| Climb(f.tree, y, b) == w;
    ClimbIsOwner(f, x, a);
    ClimbIsOwner(f, y, b);
    assert f.level[f.ids[Owner(f, x, a)][a]] == a;
    assert f.level[f.ids[Owner(f, y, b)][b]] == b;
  }

  ghost predicate FirstMeet(f: Forest, x: nat, y: nat, l: nat)
    requires Ordered(f) && x < |f.rank| && y < |f.rank|
  {
    && l <= f.rank[Root(f, x)] && l <= f.rank[Root(f, y)]
    && Owner(f, x, l) == Owner(f, y, l)
    && (forall k :: 0 <= k < l ==> Owner(f, x, k) != Owner(f, y, k))
  }

  lemma CommonAncestorsAbove(f: Forest, x: nat, y: nat, l: nat, w: int)
    requires Inv(f) && x < |f.rank| && y < |f.rank| && FirstMeet(f, x, y, l)
    requires IsAncestor(f.tree, w, x) && IsAncestor(f.tree, w, y)
    ensures IsAncestor(f.tree, w, Climb(f.tree, x, l))
  {
    hide Ordered, Graded, Edges, Siblings, Root, Owner, Climb;
    var a := CommonAncestorLevel(f, x, y, w);
    ClimbAdd(f.tree, x, l, a - l);
  }

  /** Two leaves whose owners first agree at level `l` have their lowest common ancestor there. */
  lemma LcaFromOwners(f: Forest, x: nat, y: nat, l: nat)
    requires Inv(f) && x < |f.rank| && y < |f.rank| && FirstMeet(f, x, y, l)
    ensures Climb(f.tree, x, l) == Climb(f.tree, y, l) == f.ids[Owner(f, x, l)][l]
    ensures IsLca(f.tree, x, y, Climb(f.tree, x, l))
  {
    ClimbIsOwner(f, x, l);
    ClimbIsOwner(f, y, l);
    forall w | IsAncestor(f.tree, w, x) && IsAncestor(f.tree, w, y)
      ensures IsAncestor(f.tree, w, Climb(f.tree, x, l))
    {
      CommonAncestorsAbove(f, x, y, l, w);
    }
  }

  /** Climbing from two leaves, the ancestors differ below level `l` and are the same node there. */
  ghost predicate MeetAt(tree: seq<int>, x: int, y: int, l: nat)
  {
    && Climb(tree, x, l) == Climb(tree, y, l) && Climb(tree, x, l) >= 0
    && (forall k :: 0 <= k < l ==> Climb(tree, x, k) != Climb(tree, y, k))
  }

  lemma SameIdSameOwner(f: Forest, u: nat, v: nat, k: nat)
    requires Ordered(f) && Graded(f) && u < |f.rank| && v < |f.rank| && k <= f.rank[u] && k <= f.rank[v]
    ensures f.ids[u][k] == f.ids[v][k] <==> u == v
  {
    IdAt(f, u, k);
    IdAt(f, v, k);
  }

  /** Owners first agree where ancestors first agree. */
  lemma MeetFromOwners(f: Forest, x: nat, y: nat, l: nat)
    requires Inv(f) && x < |f.rank| && y < |f.rank| && FirstMeet(f, x, y, l)
    ensures MeetAt(f.tree, x, y, l)
  {
    hide Ordered, Graded, Edges, Siblings, Root, Owner, Climb;
    ClimbIsOwner(f, x, l);
    ClimbIsOwner(f, y, l);
    IdAt(f, Owner(f, x, l), l);
    forall k | 0 <= k < l
      ensures Climb(f.tree, x, k) != Climb(f.tree, y, k)
    {
      ClimbIsOwner(f, x, k);
      ClimbIsOwner(f, y, k);
      SameIdSameOwner(f, Owner(f, x, k), Owner(f, y, k), k);
    }
  }

  /** And so their lowest common ancestor is there. */
  lemma LcaFromMeet(f: Forest, x: nat, y: nat, l: nat)
    requires Inv(f) && x < |f.rank| && y < |f.rank| && MeetAt(f.tree, x, y, l)
    ensures IsLca(f.tree, x, y, Climb(f.tree, x, l)) && l <= f.rank[Root(f, x)] && Root(f, x) == Root(f, y)
  {
    hide Ordered, Graded, Edges, Siblings, Root, Owner, Climb;
    ClimbIsOwner(f, x, l);
    ClimbIsOwner(f, y, l);
    SameIdSameOwner(f, Owner(f, x, l), Owner(f, y, l), l);
    forall k | 0 <= k < l
      ensures Owner(f, x, k) != Owner(f, y, k)
    {
      ClimbIsOwner(f, x, k);
      ClimbIsOwner(f, y, k);
    }
    LcaFromOwners(f, x, y, l);
  }

  /** A parent array that only fills free entries keeps every climb that has not ended. */
  lemma {:induction false} ClimbKept(tree: seq<int>, more: seq<int>, x: int, k: nat)
    requires |tree| == |more| && (forall v :: 0 <= v < |tree| && tree[v] != -1 ==> more[v] == tree[v]) && Climb(tree, x, k) >= 0
    ensures Climb(more, x, k) == Climb(tree, x, k)
    decreases k
  {
    if k > 0 {
      ClimbKept(tree, more, x, k - 1);
    }
  }

  lemma {:induction false} ClimbBelow(tree: seq<int>, x: int, l: nat, k: nat)
    requires k <= l && Climb(tree, x, l) >= 0
    ensures Climb(tree, x, k) >= 0
    decreases l
  {
    if k < l {
      ClimbBelow(tree, x, l - 1, k);
    }
  }

  lemma MeetKept(tree: seq<int>, more: seq<int>, x: int, y: int, l: nat)
    requires |tree| == |more| && (forall v :: 0 <= v < |tree| && tree[v] != -1 ==> more[v] == tree[v]) && MeetAt(tree, x, y, l)
    ensures MeetAt(more, x, y, l)
  {
    hide Climb;
    forall k | 0 <= k <= l
      ensures Climb(more, x, k) == Climb(tree, x, k) && Climb(more, y, k) == Climb(tree, y, k)
    {
      ClimbBelow(tree, x, l, k);
      ClimbBelow(tree, y, l, k);
      ClimbKept(tree, more, x, k);
      ClimbKept(tree, more, y, k);
    }
  }

  // ---------- where two merged leaves meet ----------

  /** Below the level of its old root, a splice changes no owner, so the two trees stay apart. */
  lemma SpliceApart(f: Forest, a: nat, p: nat, g: Forest, x: nat, y: nat, k: nat)
    requires Ordered(f) && Graded(f) && f.nextId <= |f.tree| && Ordered(g)
    requires a < |f.rank| && p < |f.rank| && f.par[a] == -1 && f.rank[a] < f.rank[p]
    requires g == Splice(f, a, p) && x < |f.rank| && y < |f.rank|
    requires Root(f, x) == a && Root(f, y) == Root(f, p) && k <= f.rank[a]
    ensures k <= g.rank[Root(g, x)] && k <= g.rank[Root(g, y)] && Owner(g, x, k) != Owner(g, y, k)
  {
    SpliceOwner(f, a, p, g, x, k);
    SpliceOwner(f, a, p, g, y, k);
    var u, v := Owner(f, x, k), Owner(f, y, k);
    assert Root(f, u) == a && Root(f, v) == Root(f, p);
  }

  /** A spliced leaf meets the leaf whose path it was spliced into one level above its old root. */
  lemma SpliceMeets(f: Forest, a: nat, p: nat, g: Forest, x: nat, y: nat, l: nat)
    requires Ordered(f) && Graded(f) && f.nextId <= |f.tree| && Ordered(g)
    requires a < |f.rank| && p < |f.rank| && f.par[a] == -1 && f.rank[a] < f.rank[p]
    requires g == Splice(f, a, p) && x < |f.rank| && y < |f.rank| && l == f.rank[a] + 1
    requires Root(f, x) == a && Root(f, y) == Root(f, p) && Owner(f, y, l) == p
    ensures FirstMeet(g, x, y, l) && Owner(g, x, l) == p
  {
    forall k | 0 <= k < l
      ensures k <= g.rank[Root(g, x)] && k <= g.rank[Root(g, y)] && Owner(g, x, k) != Owner(g, y, k)
    {
      SpliceApart(f, a, p, g, x, y, k);
    }
    SpliceOwner(f, a, p, g, x, l);
    SpliceOwner(f, a, p, g, y, l);
  }

  /** Joining two roots of equal rank makes their leaves meet in the one fresh node. */
  lemma JoinMeets(f: Forest, i: nat, j: nat, g: Forest, x: nat, y: nat, l: nat)
    requires Inv(f) && f.nextId < |f.tree|
    requires i < |f.rank| && j < |f.rank| && i != j
    requires f.par[i] == -1 && f.par[j] == -1 && f.rank[i] == f.rank[j]
    requires g == Join(f, i, j) && x < |f.rank| && y < |f.rank| && l == f.rank[i] + 1
    requires Root(f, x) == j && Root(f, y) == i
    ensures Inv(g) && FirstMeet(g, x, y, l) && Owner(g, x, l) == i && g.ids[i][l] == f.nextId
  {
    var h := Raise(f, i, j);
    RaiseKeepsGrading(f, i, j, h);
    JoinKeepsInv(f, i, j, g);
    RaiseEffect(f, i, j, h, y);
    RaiseEffect(f, i, j, h, x);
    RaiseOwner(f, i, j, h, y, l);
    SpliceMeets(h, j, i, g, x, y, l);
  }

  // ---------- height ----------

  function Pow2(k: nat): nat
  {
    if k == 0 then 1 else 2 * Pow2(k - 1)
  }

  /** The leaves below the level-`k` node of `y`. */
  ghost function Cover(f: Forest, y: nat, k: nat): set<nat>
    requires Ordered(f)
  {
    set x: nat | x < |f.rank| && k <= f.rank[Root(f, x)] && Owner(f, x, k) == y
  }

  lemma CoverOfChild(f: Forest, z: nat, y: nat, k: nat)
    requires Ordered(f) && y < |f.rank| && z < |f.rank| && k < f.rank[y]
    requires z == y || (f.par[z] == y && f.rank[z] == k)
    ensures Cover(f, z, k) <= Cover(f, y, k + 1)
  {
    forall x | x in Cover(f, z, k)
      ensures x in Cover(f, y, k + 1)
    {
      assert Root(f, z) == Root(f, x) && Root(f, z) == Root(f, y);
      OwnerStep(f, x, k);
    }
  }

  lemma CoversApart(f: Forest, y: nat, z: nat, k: nat)
    requires Ordered(f) && y != z
    ensures Cover(f, y, k) !! Cover(f, z, k)
  {
  }

  lemma CoverSum(f: Forest, y: nat, z: nat, k: nat)
    requires Ordered(f) && y < |f.rank| && z < |f.rank| && k < f.rank[y]
    requires f.par[z] == y && f.rank[z] == k
    ensures |Cover(f, y, k)| + |Cover(f, z, k)| <= |Cover(f, y, k + 1)|
  {
    CoverOfChild(f, y, y, k);
    CoverOfChild(f, z, y, k);
    CoversApart(f, y, z, k);
    TwoParts(Cover(f, y, k), Cover(f, z, k), Cover(f, y, k + 1));
  }

  lemma CoverOfLeaf(f: Forest, y: nat)
    requires Ordered(f) && y < |f.rank|
    ensures |Cover(f, y, 0)| >= 1
  {
    assert y in Cover(f, y, 0);
  }

  /** Every inner node has two children or more, so a level-`k` node covers at least 2^k leaves. */
  lemma {:induction false} CoverGrows(f: Forest, y: nat, k: nat)
    requires Ordered(f) && Siblings(f) && y < |f.rank| && k <= f.rank[y]
    ensures |Cover(f, y, k)| >= Pow2(k)
    decreases k
  {
    if k == 0 {
      CoverOfLeaf(f, y);
    } else {
      CoverGrows(f, y, k - 1);
      CoverGrows(f, f.sib[y][k - 1], k - 1);
      CoverSum(f, y, f.sib[y][k - 1], k - 1);
    }
  }

  /** The height of the merge tree is logarithmic in the number of leaves. */
  lemma HeightIsLogarithmic(f: Forest, x: nat)
    requires Inv(f) && x < |f.rank|
    ensures Pow2(f.rank[x]) <= |f.rank|
  {
    CoverGrows(f, x, f.rank[x]);
    SubsetSize(Cover(f, x, f.rank[x]), Below(|f.rank|));
  }

  // ---------- roots and the parent array ----------

  ghost function Roots(f: Forest): set<nat>
    requires Ordered(f)
  {
    set x: nat | x < |f.rank| && f.par[x] == -1
  }

  lemma LeafLevel(f: Forest, v: nat)
    requires Graded(f) && v < f.nextId
    ensures f.level[v] == 0 <==> v < |f.rank|
  {
    if v < |f.rank| {
      assert f.level[f.ids[v][0]] == 0;
    } else {
      assert f.ids[f.owner[v]][f.level[v]] == v;
    }
  }

  /** A used entry of the parent array is -1 exactly for the topmost node of a root. */
  lemma ParentEntry(f: Forest, v: nat)
    requires Inv(f) && v < f.nextId
    ensures f.tree[v] == -1 <==> exists r :: r in Roots(f) && v == f.ids[r][f.rank[r]]
    ensures f.tree[v] != -1 ==>
              && |f.rank| <= f.tree[v] < f.nextId
              && f.level[f.tree[v]] == f.level[v] + 1
  {
    var x, k := f.owner[v], f.level[v];
    assert f.tree[f.ids[x][k]] == Up(f, x, k);
    if f.tree[v] == -1 {
      assert x in Roots(f) && v == f.ids[x][f.rank[x]];
    } else {
      var w := f.tree[v];
      assert f.level[w] == k + 1;
      LeafLevel(f, w);
    }
    if r :| r in Roots(f) && v == f.ids[r][f.rank[r]] {
      assert f.owner[f.ids[r][f.rank[r]]] == r && f.level[f.ids[r][f.rank[r]]] == f.rank[r];
    }
  }
}
