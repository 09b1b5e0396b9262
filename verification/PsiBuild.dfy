/**
  `_build_exact_psi_structure`: all ranked pairs are merged, and the parent array becomes a tree of
  linked objects.
 */
module PsiBuild {
  import opened PsiForest
  import opened Sets
  import opened PsiLinks
  import opened PsiMerge
  import opened PsiRanking
  import opened PsiUnionFind
  import opened PsiTree
  import opened PsiStructure

  /** The ranked pairs hold every pair of different leaves, larger index first, in any order. */
  ghost predicate RanksAll(pairs: seq<Pair>, n: nat)
  {
    && (forall k :: 0 <= k < |pairs| ==> pairs[k].0 < n && pairs[k].1 < n)
    && (forall a: nat, b: nat :: b < a < n ==> (a, b) in pairs)
  }

  lemma AllLinkedOneRoot(f: Forest, links: seq<Pair>, n: nat)
    requires Ordered(f) && Classifies(RootSeq(f), links) && |f.rank| == n > 0
    requires RanksAll(links, n)
    ensures Roots(f) == {Root(f, 0)}
  {
    forall x | x in Roots(f)
      ensures x == Root(f, 0)
    {
      if x > 0 {
        assert (x, 0) in links;
        StepConnects(links, x, 0);
        assert RootSeq(f)[x] == RootSeq(f)[0];
      }
    }
  }

  lemma SingleRoot(f: Forest, merges: nat)
    requires Ordered(f) && Counted(f, merges) && merges + 1 == |f.rank|
    ensures Roots(f) == {Root(f, 0)}
  {
    assert Root(f, 0) in Roots(f);
    var rest := Roots(f) - {Root(f, 0)};
    assert |rest| == 0;
  }

  lemma RootCount(f: Forest, links: seq<Pair>, merges: nat, n: nat)
    requires Inv(f) && Counted(f, merges) && Classifies(RootSeq(f), links) && |f.rank| == n > 0
    ensures merges <= n - 1
    ensures RanksAll(links, n) ==> merges == n - 1
    ensures merges == n - 1 ==> Roots(f) == {Root(f, 0)}
  {
    assert Root(f, 0) in Roots(f);
    if RanksAll(links, n) {
      AllLinkedOneRoot(f, links, n);
    }
    if merges == n - 1 {
      SingleRoot(f, merges);
    }
  }

  /** All leaves are linked by the pairs. */
  ghost predicate Connects(links: seq<Pair>, n: nat)
  {
    forall x, y :: 0 <= x < n && 0 <= y < n ==> Connected(links, x, y)
  }

  /** The first `m` pairs of the ranking are just enough to connect all leaves. */
  ghost predicate JustConnects(pairs: seq<Pair>, m: nat, n: nat)
  {
    m <= |pairs| && Connects(pairs[..m], n) && forall k: nat :: k < m ==> !Connects(pairs[..k], n)
  }

  lemma OneRootConnects(f: Forest, links: seq<Pair>, n: nat)
    requires Ordered(f) && Classifies(RootSeq(f), links) && |f.rank| == n > 0
    ensures Roots(f) == {Root(f, 0)} ==> Connects(links, n)
  {
    if Roots(f) == {Root(f, 0)} {
      forall x, y | 0 <= x < n && 0 <= y < n
        ensures Connected(links, x, y)
      {
        assert Root(f, x) in Roots(f) && Root(f, y) in Roots(f);
        ConnectedIsSameRoot(f, links, x, y);
      }
    }
  }

  lemma ManyRootsDoNot(f: Forest, links: seq<Pair>, merges: nat, n: nat)
    requires Ordered(f) && Classifies(RootSeq(f), links) && Counted(f, merges) && |f.rank| == n && merges + 1 < n
    ensures !Connects(links, n)
  {
    var r := Root(f, 0);
    assert r in Roots(f);
    assert |Roots(f) - {r}| > 0;
    var q :| q in Roots(f) && q != r;
    ConnectedIsSameRoot(f, links, 0, q);
  }

  lemma FewerConnectLess(pairs: seq<Pair>, k: nat, m: nat, n: nat)
    requires k <= m <= |pairs| && !Connects(pairs[..m], n)
    ensures !Connects(pairs[..k], n)
  {
    hide Connected;
    if Connects(pairs[..k], n) {
      assert pairs[..m] == pairs[..k] + pairs[k..m];
      forall x, y | 0 <= x < n && 0 <= y < n
        ensures Connected(pairs[..m], x, y)
      {
        ConnectedMonotone(pairs[..k], pairs[k..m], x, y);
      }
    }
  }

  /**
    The merging loop: it processes the ranking in order, just as far as it takes to connect all
    leaves, and ends with one tree after n - 1 merges. Every pair that joined two components made
    its leaves meet one level above the lower rank of the two.
   */
  method MergeAll(n: nat, pairs: seq<Pair>) returns (uf: UnionFind, merges: nat)
    requires n >= 2 && RanksAll(pairs, n)
    ensures fresh(uf) && uf.Valid() && |uf.rank| == n && merges == uf.merges == n - 1
    ensures Roots(uf.View()) == {Root(uf.View(), 0)}
    ensures |uf.links| <= |pairs| && uf.links == pairs[..|uf.links|] && JustConnects(pairs, |uf.links|, n)
    ensures Ranked(uf.View(), pairs[..|uf.links|])
  {
    hide Ordered, Graded, Edges, Siblings, ChainsOk, Absorbed, Counted, Classifies, Ranked, RootSeq, Root, Roots, RanksAll, Connects;
    uf := new UnionFind(n);
    merges := 0;
    var k := 0;
    while k < |pairs|
      invariant k <= |pairs| && fresh(uf) && uf.Valid() && |uf.rank| == n
      invariant merges == uf.merges < n - 1 && uf.links == pairs[..k]
    {
      PairInRange(pairs, n, k);
      ManyRootsDoNot(uf.View(), pairs[..k], merges, n);
      var merged := uf.Union(pairs[k].0, pairs[k].1);
      assert pairs[..k + 1] == pairs[..k] + [pairs[k]];
      k := k + 1;
      if merged {
        merges := merges + 1;
      }
      if merges == n - 1 {
        RootCount(uf.View(), pairs[..k], merges, n);
        OneRootConnects(uf.View(), pairs[..k], n);
        forall l: nat | l < k
          ensures !Connects(pairs[..l], n)
        {
          FewerConnectLess(pairs, l, k - 1, n);
        }
        return;
      }
    }
    assert pairs[..k] == pairs;
    RootCount(uf.View(), pairs[..k], merges, n);
    assert false;
  }

  lemma PairInRange(pairs: seq<Pair>, n: nat, k: nat)
    requires RanksAll(pairs, n) && k < |pairs|
    ensures pairs[k].0 < n && pairs[k].1 < n
  {
  }

  // ---------- from the parent array to linked nodes ----------

  /** Which ids have a node so far: the given ones, and new ones `ns`, one per id in `at`. */
  ghost predicate Made(b: nat, nodes: seq<PsiNode>, local: map<nat, PsiNode>, ns: set<PsiNode>, at: map<PsiNode, nat>)
  {
    && (forall v :: v in local ==> v < b)
    && (forall x :: 0 <= x < |nodes| ==> x in local && local[x] == nodes[x])
    && (forall v :: v in local && |nodes| <= v ==> local[v] in ns && local[v] in at && at[local[v]] == v)
    && (forall n :: n in ns ==> n in at && |nodes| <= at[n] && at[n] in local && local[at[n]] == n)
  }

  lemma MadeMore(b: nat, nodes: seq<PsiNode>, local: map<nat, PsiNode>, ns: set<PsiNode>, at: map<PsiNode, nat>, v: nat, n: PsiNode)
    requires Made(b, nodes, local, ns, at) && |nodes| <= v < b && v !in local && n !in ns
    ensures Made(b, nodes, local[v := n], ns + {n}, at[n := v])
  {
  }

  lemma MintedMore(ns: set<PsiNode>, n: PsiNode, lo: nat, hi: nat)
    requires Minted(ns, lo, hi) && n.index == hi
    ensures Minted(ns + {n}, lo, hi + 1)
  {
  }

  /** New nodes have no text and no links yet. */
  ghost predicate Blank(ns: set<PsiNode>)
    reads ns
  {
    forall n :: n in ns ==> n.text == "" && n.children == [] && n.parent == null
  }

  /** The parent array names only inner ids as parents. */
  ghost predicate GoodParents(tree: seq<int>, n: nat)
  {
    forall c :: 0 <= c < |tree| ==> tree[c] == -1 || n <= tree[c] < |tree|
  }

  /** The children lists collected from the first `i` entries. */
  ghost predicate Collected(tree: seq<int>, byParent: map<nat, seq<nat>>, i: nat)
    requires i <= |tree|
  {
    && (forall v :: v in byParent ==> byParent[v] == Kids(tree, v, i))
    && (forall v: nat :: v !in byParent ==> Kids(tree, v, i) == [])
  }

  lemma CollectOne(tree: seq<int>, byParent: map<nat, seq<nat>>, i: nat, more: map<nat, seq<nat>>)
    requires i < |tree| && Collected(tree, byParent, i)
    requires tree[i] == -1 ==> more == byParent
    requires tree[i] != -1 ==> tree[i] >= 0 && var p: nat := tree[i]; more == byParent[p := (if p in byParent then byParent[p] else []) + [i]]
    ensures Collected(tree, more, i + 1)
  {
    forall v: nat
      ensures v in more ==> more[v] == Kids(tree, v, i + 1)
      ensures v !in more ==> Kids(tree, v, i + 1) == []
    {
      assert Kids(tree, v, i + 1) == Kids(tree, v, i) + (if tree[i] == v then [i] else []);
    }
  }

  /** The node for id `v`, created on first sight with the next index. */
  method Ensure(b: nat, nodes: seq<PsiNode>, local: map<nat, PsiNode>, v: nat, next: nat, ghost ns: set<PsiNode>, ghost at: map<PsiNode, nat>, ghost lo: nat)
    returns (local': map<nat, PsiNode>, next': nat, ghost ns': set<PsiNode>, ghost at': map<PsiNode, nat>)
    requires Made(b, nodes, local, ns, at) && v < b && Minted(ns, lo, next) && Blank(ns)
    ensures Made(b, nodes, local', ns', at') && Minted(ns', lo, next') && Blank(ns')
    ensures v in local' && local.Keys <= local'.Keys && fresh(ns' - ns) && ns <= ns'
  {
    local', next', ns', at' := local, next, ns, at;
    if v !in local {
      var n := new PsiNode(next, "");
      MadeMore(b, nodes, local, ns, at, v, n);
      MintedMore(ns, n, lo, next);
      local', next', ns', at' := local[v := n], next + 1, ns + {n}, at[n := v];
    }
  }

  /** First loop: nodes for all ids and the child lists by parent id. */
  method MakeNodes(tree: seq<int>, nodes: seq<PsiNode>, next: nat)
    returns (local: map<nat, PsiNode>, byParent: map<nat, seq<nat>>, next': nat, ghost ns: set<PsiNode>, ghost at: map<PsiNode, nat>)
    requires |nodes| <= |tree| && GoodParents(tree, |nodes|)
    ensures Made(|tree|, nodes, local, ns, at) && (forall v :: 0 <= v < |tree| ==> v in local)
    ensures Collected(tree, byParent, |tree|)
    ensures Minted(ns, next, next') && Blank(ns) && fresh(ns)
  {
    hide Made, Minted, Collected, GoodParents, Kids;
    local := map x: nat {:trigger nodes[x]} | x < |nodes| :: nodes[x];
    byParent, next', ns, at := map[], next, {}, map[];
    Begin(tree, nodes, local, next);
    for i := 0 to |tree|
      invariant Made(|tree|, nodes, local, ns, at) && (forall v :: 0 <= v < i ==> v in local)
      invariant Collected(tree, byParent, i)
      invariant Minted(ns, next, next') && Blank(ns) && fresh(ns)
    {
      local, next', ns, at := Ensure(|tree|, nodes, local, i, next', ns, at, next);
      GoodParent(tree, |nodes|, i);
      ghost var before := byParent;
      if tree[i] != -1 {
        var p: nat := tree[i];
        byParent := byParent[p := (if p in byParent then byParent[p] else []) + [i]];
        local, next', ns, at := Ensure(|tree|, nodes, local, p, next', ns, at, next);
      }
      CollectOne(tree, before, i, byParent);
    }
  }

  lemma Begin(tree: seq<int>, nodes: seq<PsiNode>, local: map<nat, PsiNode>, next: nat)
    requires local == map x: nat {:trigger nodes[x]} | x < |nodes| :: nodes[x]
    requires |nodes| <= |tree|
    ensures Made(|tree|, nodes, local, {}, map[]) && Minted({}, next, next) && Collected(tree, map[], 0)
  {
  }

  lemma GoodParent(tree: seq<int>, n: nat, i: nat)
    requires GoodParents(tree, n) && i < |tree|
    ensures tree[i] == -1 || n <= tree[i] < |tree|
  {
  }

  ghost predicate Injective(local: map<nat, PsiNode>)
  {
    forall u, w :: u in local && w in local && u != w ==> local[u] != local[w]
  }

  ghost predicate InLocal(local: map<nat, PsiNode>, cs: seq<nat>)
  {
    forall i :: 0 <= i < |cs| ==> cs[i] in local
  }

  /** The child list and the back links of one parent. */
  method SetChildren(local: map<nat, PsiNode>, v: nat, cs: seq<nat>)
    requires v in local && InLocal(local, cs) && Injective(local)
    modifies {local[v]}`children, local.Values`parent
    ensures ChildrenAre(local, v, cs)
    ensures forall c :: c in local ==> local[c].parent == if c in cs then local[v] else old(local[c].parent)
  {
    var p := local[v];
    p.children := seq(|cs|, i requires 0 <= i < |cs| && InLocal(local, cs) => local[cs[i]]);
    for k := 0 to |cs|
      invariant ChildrenAre(local, v, cs)
      invariant forall c :: c in local ==> local[c].parent == if c in cs[..k] then p else old(local[c].parent)
    {
      assert p.children[k] in local.Values by {
        assert p.children[k] == local[cs[k]];
      }
      p.children[k].parent := p;
      assert cs[..k + 1] == cs[..k] + [cs[k]];
    }
    assert cs[..|cs|] == cs;
  }

  lemma KidsExact(tree: seq<int>, v: nat)
    ensures forall c :: 0 <= c < |tree| ==> (c in Kids(tree, v, |tree|) <==> tree[c] == v)
  {
    forall c | 0 <= c < |tree|
      ensures c in Kids(tree, v, |tree|) <==> tree[c] == v
    {
      if tree[c] == v {
        KidsComplete(tree, v, |tree|, c);
      }
    }
  }

  /** One inner id gets its children; no other link changes. */
  method AttachOne(tree: seq<int>, v: nat, local: map<nat, PsiNode>, byParent: map<nat, seq<nat>>)
    requires v < |tree| && Injective(local) && (forall w :: 0 <= w < |tree| ==> w in local)
    requires Collected(tree, byParent, |tree|) && local[v].children == []
    modifies {local[v]}`children, local.Values`parent
    ensures ChildrenAre(local, v, Kids(tree, v, |tree|))
    ensures forall c :: 0 <= c < |tree| ==>
              local[c].parent == if tree[c] == v then local[v] else old(local[c].parent)
  {
    KidsExact(tree, v);
    if v in byParent {
      SetChildren(local, v, byParent[v]);
    }
  }

  /** Second loop: every inner id gets its children, and they point back to it. */
  method AttachAll(tree: seq<int>, n: nat, local: map<nat, PsiNode>, byParent: map<nat, seq<nat>>)
    requires n <= |tree| && Injective(local) && (forall v :: 0 <= v < |tree| ==> v in local)
    requires GoodParents(tree, n) && Collected(tree, byParent, |tree|)
    requires forall v :: n <= v < |tree| ==> local[v].children == []
    modifies (set v | v in local && v >= n :: local[v])`children, local.Values`parent
    ensures forall v :: n <= v < |tree| ==> ChildrenAre(local, v, Kids(tree, v, |tree|))
    ensures forall c :: 0 <= c < |tree| && tree[c] == -1 ==> local[c].parent == old(local[c].parent)
    ensures forall c :: 0 <= c < |tree| && tree[c] != -1 ==> local[c].parent == local[tree[c] as nat]
  {
    hide Kids, Collected, Names;
    for v := n to |tree|
      invariant forall w :: n <= w < v ==> ChildrenAre(local, w, Kids(tree, w, |tree|))
      invariant forall w :: v <= w < |tree| ==> local[w].children == []
      invariant forall c :: 0 <= c < |tree| && !(0 <= tree[c] < v) ==> local[c].parent == old(local[c].parent)
      invariant forall c :: 0 <= c < |tree| && 0 <= tree[c] < v ==> local[c].parent == local[tree[c] as nat]
    {
      label before:
      AttachOne(tree, v, local, byParent);
      assert forall w :: n <= w < |tree| && w != v ==> local[w].children == old@before(local[w].children);
    }
  }

  lemma {:induction false} KidsOfPrefix(tree: seq<int>, v: int, m: nat, b: nat)
    requires b <= m <= |tree|
    ensures Kids(tree[..m], v, b) == Kids(tree, v, b)
    decreases b
  {
    if b > 0 {
      KidsOfPrefix(tree, v, m, b - 1);
    }
  }

  lemma ParentsOfPrefix(f: Forest)
    requires Inv(f)
    ensures |f.rank| <= f.nextId <= |f.tree| && GoodParents(f.tree[..f.nextId], |f.rank|)
  {
    forall c | 0 <= c < f.nextId
      ensures f.tree[c] == -1 || |f.rank| <= f.tree[c] < f.nextId
    {
      ParentEntry(f, c);
    }
  }

  lemma LayoutFromMade(f: Forest, nodes: seq<PsiNode>, local: map<nat, PsiNode>, ns: set<PsiNode>, at: map<PsiNode, nat>, ss: seq<Shape>)
    requires Inv(f) && nodes == Heads(ss) && |ss| == |f.rank|
    requires Made(f.nextId, nodes, local, ns, at) && forall v :: 0 <= v < f.nextId ==> v in local
    ensures Layout(f, local, ss) && InnerNodes(f, local, ss, ns)
  {
    forall n | n in ns
      ensures exists v :: |ss| <= v < f.nextId && local[v] == n
    {
      assert local[at[n]] == n;
    }
  }

  lemma SeparateFromMade(f: Forest, nodes: seq<PsiNode>, local: map<nat, PsiNode>, ns: set<PsiNode>, at: map<PsiNode, nat>, ss: seq<Shape>)
    requires Layout(f, local, ss) && nodes == Heads(ss) && Made(f.nextId, nodes, local, ns, at)
    requires ProperAll(ss) && ns !! NodesAll(ss)
    ensures Separate(f, local, ss) && Injective(local)
  {
    forall u, w | 0 <= u < w < f.nextId
      ensures Own(local, ss, u) !! Own(local, ss, w)
    {
      OwnApart(f, nodes, local, ns, at, ss, u, w);
    }
    forall u, w | u in local && w in local && u != w
      ensures local[u] != local[w]
    {
      OwnApart(f, nodes, local, ns, at, ss, if u < w then u else w, if u < w then w else u);
      assert local[u] in Own(local, ss, u) && local[w] in Own(local, ss, w);
    }
  }

  lemma OwnApart(f: Forest, nodes: seq<PsiNode>, local: map<nat, PsiNode>, ns: set<PsiNode>, at: map<PsiNode, nat>, ss: seq<Shape>, u: nat, w: nat)
    requires Layout(f, local, ss) && nodes == Heads(ss) && Made(f.nextId, nodes, local, ns, at)
    requires ProperAll(ss) && ns !! NodesAll(ss) && u < w < f.nextId
    ensures Own(local, ss, u) !! Own(local, ss, w)
  {
    if w < |ss| {
      ProperApart(ss, u, w);
    } else if u < |ss| {
      NodesAllAt(ss, u);
      assert local[w] in ns;
    } else {
      assert at[local[u]] == u && at[local[w]] == w;
    }
  }

  lemma WiredFromLinks(f: Forest, local: map<nat, PsiNode>, ss: seq<Shape>, tree: seq<int>)
    requires Layout(f, local, ss) && f.nextId <= |f.tree| && tree == f.tree[..f.nextId]
    requires GoodParents(tree, |ss|)
    requires forall x :: 0 <= x < |ss| ==> Linked(ss[x])
    requires forall v :: |ss| <= v < |tree| ==> ChildrenAre(local, v, Kids(tree, v, |tree|))
    requires forall c :: 0 <= c < |tree| && tree[c] != -1 ==> local[c].parent == local[tree[c] as nat]
    ensures Wired(f, local, ss)
  {
    forall x | 0 <= x < |ss|
      ensures LinkedKid(ss, x)
    {
      assert Linked(ss[x]);
    }
    forall v | |ss| <= v < f.nextId
      ensures ChildrenAre(local, v, Kids(f.tree, v, f.nextId))
    {
      KidsOfPrefix(f.tree, v, f.nextId, f.nextId);
      assert ChildrenAre(local, v, Kids(tree, v, |tree|));
    }
    forall c | 0 <= c < f.nextId && f.tree[c] != -1
      ensures f.tree[c] in local && ParentIs(local, c, f.tree[c])
    {
      assert tree[c] == f.tree[c];
    }
  }

  method MaxIndex(nodes: seq<PsiNode>) returns (best: PsiNode)
    requires nodes != []
    ensures best in nodes && forall n :: n in nodes ==> n.index <= best.index
  {
    best := nodes[0];
    for k := 1 to |nodes|
      invariant best in nodes && forall j :: 0 <= j < k ==> nodes[j].index <= best.index
    {
      if best.index < nodes[k].index {
        best := nodes[k];
      }
    }
  }

  /** The root with the largest index among the ids without a parent; there is exactly one. */
  method PickRoot(tree: seq<int>, local: map<nat, PsiNode>, ghost top: nat) returns (root: PsiNode)
    requires (forall v :: 0 <= v < |tree| ==> v in local) && top < |tree|
    requires forall v :: 0 <= v < |tree| ==> (tree[v] == -1 <==> v == top)
    ensures root == local[top]
  {
    var roots := [];
    for v := 0 to |tree|
      invariant roots == if v <= top then [] else [local[top]]
    {
      if tree[v] == -1 {
        roots := roots + [local[v]];
      }
    }
    root := MaxIndex(roots);
  }

  /** What building a tree over the given subtrees promises. */
  ghost predicate Built(root: PsiNode, t: Shape, ss: seq<Shape>, ns: set<PsiNode>)
    reads Nodes(t), ns
  {
    && t.node == root && root.parent == null && Linked(t) && Joins(t, ss, ns)
    && (forall n :: n in ns ==> n.text == "")
  }

  /** The forest behind a tree, the node of every id, and how much of the ranking it took. */
  datatype Growth = Growth(forest: Forest, local: map<nat, PsiNode>, used: nat)

  ghost function TopId(f: Forest): (v: nat)
    requires Inv(f) && |f.rank| > 0
    ensures v < f.nextId
  {
    f.ids[Root(f, 0)][f.rank[Root(f, 0)]]
  }

  /**
    The tree over the given subtrees is the one that the ranking determines: the pairs that connect
    all leaves make the forest, and the tree is the forest read off with children in ascending order.
   */
  ghost predicate Grown(t: Shape, ss: seq<Shape>, pairs: seq<Pair>, g: Growth)
  {
    && |ss| >= 2 && Layout(g.forest, g.local, ss) && Separate(g.forest, g.local, ss)
    && JustConnects(pairs, g.used, |ss|) && Ranked(g.forest, pairs[..g.used])
    && Roots(g.forest) == {Root(g.forest, 0)} && t == ShapeOf(g.forest, g.local, ss, TopId(g.forest))
  }

  lemma BuiltSingle(s: Shape)
    requires Proper(s) && Linked(s) && s.node.parent == null
    ensures Built(s.node, s, [s], {})
  {
    Single(s);
  }

  lemma SingletonLinked(ss: seq<Shape>)
    requires |ss| == 1 && LinkedAll(ss, null) && ProperAll(ss)
    ensures ss == [ss[0]] && Linked(ss[0]) && ss[0].node.parent == null && Proper(ss[0])
  {
  }

  /** `_build_exact_psi_structure`: one tree over all nodes, for any order of the ranked pairs. */
  method BuildExact(nodes: seq<PsiNode>, next: nat, pairs: seq<Pair>, ghost ss: seq<Shape>)
    returns (root: PsiNode, next': nat, merges: nat, ghost t: Shape, ghost ns: set<PsiNode>, ghost g: Growth)
    requires nodes == Heads(ss) && |nodes| >= 1 && ProperAll(ss) && LinkedAll(ss, null)
    requires |nodes| >= 2 ==> RanksAll(pairs, |nodes|)
    modifies NodesAll(ss)`parent
    ensures Built(root, t, ss, ns) && fresh(ns) && Minted(ns, next, next')
    ensures merges == |nodes| - 1 && |ns| <= merges
    ensures if |nodes| == 1 then t == ss[0] && ns == {} && next' == next else Grown(t, ss, pairs, g)
  {
    hide Grown, Ranked, JustConnects;
    if |nodes| == 1 {
      SingletonLinked(ss);
      BuiltSingle(ss[0]);
      g := Growth(Forest([], [], [], 0, [], [], [], []), map[], 0);
      return nodes[0], next, 0, ss[0], {}, g;
    }
    NodesAllocated(ss);
    var uf;
    uf, merges := MergeAll(|nodes|, pairs);
    root, next', t, ns, g := Materialize(nodes, next, uf, ss, pairs);
  }

  /** The nodes that get new links are not below the given roots. */
  lemma RootsOutside(f: Forest, local: map<nat, PsiNode>, ss: seq<Shape>, x: nat, v: nat)
    requires Layout(f, local, ss) && Separate(f, local, ss) && x < |ss| && v < f.nextId
    ensures local[v] !in NodesAll(ss[x].kids)
    ensures v >= |ss| ==> local[v] != ss[x].node
  {
    ProperAt(ss, x);
    if v != x {
      assert local[v] in Own(local, ss, v);
      if local[v] in Nodes(ss[x]) {
        OwnMeets(f, local, ss, v, x, local[v]);
      }
    }
  }

  /** Both link directions for all ids. */
  method Wire(tree: seq<int>, n: nat, local: map<nat, PsiNode>, byParent: map<nat, seq<nat>>, ghost f: Forest, ghost ss: seq<Shape>)
    requires Layout(f, local, ss) && Separate(f, local, ss) && Injective(local) && n == |ss| <= |tree|
    requires (forall v :: v in local ==> v < f.nextId) && LinkedAll(ss, null)
    requires f.nextId <= |f.tree| && tree == f.tree[..f.nextId] && GoodParents(tree, n)
    requires Collected(tree, byParent, |tree|)
    requires forall v :: n <= v < |tree| ==> local[v].children == []
    modifies (set v | v in local && v >= n :: local[v])`children, local.Values`parent
    ensures Wired(f, local, ss)
    ensures forall c :: 0 <= c < |tree| && tree[c] == -1 ==> local[c].parent == old(local[c].parent)
  {
    hide Ordered, Graded, Edges, Siblings, Kids, Collected, Separate, Nodes, NodesAll, LinkedAll, Linked, Wired;
    forall x | 0 <= x < |ss|
      ensures ss[x].node.children == Heads(ss[x].kids) && LinkedAll(ss[x].kids, ss[x].node)
    {
      LinkedAt(ss, null, x);
      UnfoldNode(ss[x]);
    }
    forall x, v | 0 <= x < |ss| && 0 <= v < |tree|
      ensures local[v] !in NodesAll(ss[x].kids)
      ensures v >= |ss| ==> local[v] != ss[x].node
    {
      RootsOutside(f, local, ss, x, v);
    }
    forall x | 0 <= x < |ss|
      ensures forall k :: k in NodesAll(ss[x].kids) ==> allocated(k)
    {
      NodesAllocated(ss[x].kids);
    }
    AttachAll(tree, n, local, byParent);
    forall x | 0 <= x < |ss|
      ensures Linked(ss[x])
    {
      assert LinkedAll(ss[x].kids, ss[x].node);
      UnfoldNode(ss[x]);
    }
    WiredFromLinks(f, local, ss, tree);
  }

  lemma TopFacts(f: Forest, r: nat, top: nat)
    requires Inv(f) && Roots(f) == {r} && r < |f.rank| && top == f.ids[r][f.rank[r]]
    ensures top < f.nextId <= |f.tree|
    ensures forall v :: 0 <= v < f.nextId ==> (f.tree[v] == -1 <==> v == top)
  {
    forall v | 0 <= v < f.nextId
      ensures f.tree[v] == -1 <==> v == top
    {
      OneTop(f, r, v);
    }
  }

  lemma SizeOfMinted(ns: set<PsiNode>, nodes: seq<PsiNode>, f: Forest, merges: nat, local: map<nat, PsiNode>, at: map<PsiNode, nat>)
    requires Inv(f) && Counted(f, merges) && |f.rank| == |nodes|
    requires Made(f.nextId, nodes, local, ns, at)
    ensures |ns| <= merges
  {
    var ids := set n | n in ns :: at[n];
    var room := Below(f.nextId) - Below(|nodes|);
    assert |nodes| <= f.nextId;
    ImageSize(ns, at, ids);
    SubsetSize(ids, room);
  }

  lemma {:induction false} ImageSize(ns: set<PsiNode>, at: map<PsiNode, nat>, ids: set<nat>)
    requires forall n :: n in ns ==> n in at
    requires forall n, m :: n in ns && m in ns && at[n] == at[m] ==> n == m
    requires ids == set n | n in ns :: at[n]
    ensures |ids| == |ns|
    decreases |ns|
  {
    if ns != {} {
      var n :| n in ns;
      var rest := ns - {n};
      var ids' := set m | m in rest :: at[m];
      ImageSize(rest, at, ids');
      assert ids == ids' + {at[n]};
    }
  }

  /** The linked tree that the finished union-find describes. */
  method Materialize(nodes: seq<PsiNode>, next: nat, uf: UnionFind, ghost ss: seq<Shape>, ghost pairs: seq<Pair>)
    returns (root: PsiNode, next': nat, ghost t: Shape, ghost ns: set<PsiNode>, ghost g: Growth)
    requires nodes == Heads(ss) && |nodes| >= 2 && ProperAll(ss) && LinkedAll(ss, null)
    requires uf.Valid() && |uf.rank| == |nodes| && uf.merges == |nodes| - 1
    requires Roots(uf.View()) == {Root(uf.View(), 0)}
    requires JustConnects(pairs, |uf.links|, |nodes|) && Ranked(uf.View(), pairs[..|uf.links|])
    modifies NodesAll(ss)`parent
    ensures Built(root, t, ss, ns) && fresh(ns) && Minted(ns, next, next')
    ensures |ns| <= |nodes| - 1 && Grown(t, ss, pairs, g)
  {
    hide Ranked, JustConnects;
    ghost var f := uf.View();
    var tree := uf.tree[..uf.nextId];
    ParentsOfPrefix(f);
    NodesAllocated(ss);
    var local, byParent, n', made, at := MakeNodes(tree, nodes, next);
    next', ns := n', made;
    SizeOfMinted(ns, nodes, f, |nodes| - 1, local, at);
    root, t := LinkUp(nodes, tree, local, byParent, f, ss, ns, at);
    g := Growth(f, local, |uf.links|);
  }

  lemma InvSizes(f: Forest, r: nat)
    requires Inv(f) && r < |f.rank|
    ensures |f.ids| == |f.rank| && |f.ids[r]| == f.rank[r] + 1
  {
  }

  /** Where the nodes of the ids live, and that none has a parent yet. */
  lemma LocalInside(nodes: seq<PsiNode>, local: map<nat, PsiNode>, ss: seq<Shape>, ns: set<PsiNode>, at: map<PsiNode, nat>, b: nat)
    requires nodes == Heads(ss) && Made(b, nodes, local, ns, at) && LinkedAll(ss, null) && Blank(ns)
    ensures forall v :: v in local ==> v < b && local[v].parent == null
    ensures forall v :: v in local && v < |nodes| ==> local[v] in NodesAll(ss)
    ensures forall v :: v in local && v >= |nodes| ==> local[v] in ns && local[v].children == []
  {
    forall v | v in local && v < |nodes|
      ensures local[v] in NodesAll(ss) && local[v].parent == null
    {
      LinkedAt(ss, null, v);
      NodesAllAt(ss, v);
    }
  }

  /** Linking the nodes that were made, and finding the root. */
  method LinkUp(nodes: seq<PsiNode>, tree: seq<int>, local: map<nat, PsiNode>, byParent: map<nat, seq<nat>>,
                ghost f: Forest, ghost ss: seq<Shape>, ghost ns: set<PsiNode>, ghost at: map<PsiNode, nat>)
    returns (root: PsiNode, ghost t: Shape)
    requires nodes == Heads(ss) && |nodes| >= 2 && ProperAll(ss) && LinkedAll(ss, null)
    requires Inv(f) && |f.rank| == |nodes| && Roots(f) == {Root(f, 0)}
    requires |nodes| <= f.nextId <= |f.tree| && tree == f.tree[..f.nextId] && GoodParents(tree, |nodes|)
    requires Made(|tree|, nodes, local, ns, at) && (forall v :: 0 <= v < |tree| ==> v in local)
    requires Collected(tree, byParent, |tree|) && Blank(ns) && ns !! NodesAll(ss)
    modifies ns`children, ns`parent, NodesAll(ss)`parent
    ensures Built(root, t, ss, ns)
    ensures Layout(f, local, ss) && Separate(f, local, ss) && t == ShapeOf(f, local, ss, TopId(f))
  {
    hide Ordered, Graded, Edges, Siblings, Made, Collected, GoodParents, Nodes, NodesAll, LinkedAll, Linked, ProperAll, Roots, Joins, Kids, Wired, Layout, Separate;
    ghost var r := Root(f, 0);
    InvSizes(f, r);
    ghost var top := f.ids[r][f.rank[r]];
    TopFacts(f, r, top);
    LayoutFromMade(f, nodes, local, ns, at, ss);
    SeparateFromMade(f, nodes, local, ns, at, ss);
    WholeJoins(f, local, ss, r, top, ns);
    LocalInside(nodes, local, ss, ns, at, |tree|);
    Wire(tree, |nodes|, local, byParent, f, ss);
    ShapeIsLinked(f, local, ss, top);
    t := ShapeOf(f, local, ss, top);
    assert local[top].parent == null;
    NodesAllocated([t]);
    Single(t);
    root := PickRoot(tree, local, top);
  }
}
