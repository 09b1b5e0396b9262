/**
  The Psi branch of RAPTOR from chunks to layers: build the merge tree, bound its fanout, and
  materialize the summaries bottom-up.
 */
module PsiRaptor {
  import opened Options
  import opened RaptorChunks
  import opened PsiTree
  import opened PsiStructure
  import opened PsiRecursion
  import opened PsiLayers
  import opened PsiSummaries

  // ---------- every leaf is kept exactly once ----------

  ghost predicate Apart(ns: seq<PsiNode>)
  {
    forall i, j :: 0 <= i < j < |ns| ==> ns[i] != ns[j]
  }

  lemma {:induction false} FringeInNodes(s: Shape, n: PsiNode)
    requires n in Fringe(s)
    ensures n in Nodes(s)
    decreases s
  {
    if s.kids != [] {
      var i := FringeAllHome(s.kids, n);
      FringeInNodes(s.kids[i], n);
      NodesAllAt(s.kids, i);
    }
  }

  lemma ApartSum(a: seq<PsiNode>, b: seq<PsiNode>)
    requires Apart(a) && Apart(b) && forall n, m :: n in a && m in b ==> n != m
    ensures Apart(a + b)
  {
    var s := a + b;
    forall i, j | 0 <= i < j < |s|
      ensures s[i] != s[j]
    {
      if i < |a| <= j {
        assert s[i] in a && s[j] in b;
      }
    }
  }

  /** A proper tree lists no leaf twice. */
  lemma {:induction false} FringeApart(s: Shape)
    requires Proper(s)
    ensures Apart(Fringe(s))
    decreases s, 1
  {
    FringeAllApart(s.kids);
  }

  lemma {:induction false} FringeAllApart(ks: seq<Shape>)
    requires ProperAll(ks)
    ensures Apart(FringeAll(ks))
    decreases ks, 0
  {
    if ks != [] {
      FringeApart(ks[0]);
      FringeAllApart(ks[1..]);
      forall n, m | n in Fringe(ks[0]) && m in FringeAll(ks[1..])
        ensures n != m
      {
        FringeInNodes(ks[0], n);
        var i := FringeAllHome(ks[1..], m);
        FringeInNodes(ks[1..][i], m);
        NodesAllAt(ks[1..], i);
      }
      ApartSum(Fringe(ks[0]), FringeAll(ks[1..]));
    }
  }

  lemma {:induction false} ApartSize(ns: seq<PsiNode>, all: set<PsiNode>)
    requires Apart(ns) && all == set n | n in ns
    ensures |all| == |ns|
    decreases |ns|
  {
    if ns == [] {
      assert all == {};
    } else {
      var rest := ns[1..];
      var less := set n | n in rest;
      ApartSize(rest, less);
      assert ns == [ns[0]] + rest;
      assert all == less + {ns[0]};
    }
  }

  /** So a tree with the same leaves as a list has them each exactly once. */
  lemma LeavesKeptOnce(s: Shape, leaves: seq<PsiNode>)
    requires Proper(s) && Apart(leaves) && SameLeaves(Fringe(s), leaves)
    ensures |Fringe(s)| == |leaves|
  {
    FringeApart(s);
    var all := set n | n in leaves;
    assert all == set n | n in Fringe(s);
    ApartSize(leaves, all);
    ApartSize(Fringe(s), all);
  }

  // ---------- layers ----------

  lemma {:induction false} BoundsContiguous(s: Shape, n: nat, h: nat)
    requires h <= Height(s)
    ensures Contiguous(Bounds(s, n, h), n, n + UpTo(s, h)) && |Bounds(s, n, h)| == h + 1
    decreases h
  {
    hide Contiguous, ShapesAt, Height;
    if h > 0 {
      BoundsContiguous(s, n, h - 1);
      EveryHeight(s, h);
      ContiguousMore(Bounds(s, n, h - 1), n, n + UpTo(s, h - 1), n + UpTo(s, h));
    } else {
      ContiguousStart(n);
    }
  }

  /** The last layer is the root alone, and at most 2n - 1 chunks come out. */
  lemma FinalLayer(s: Shape, n: nat)
    requires s.kids != [] && Branching(s) && |Fringe(s)| == n
    ensures var bounds := Bounds(s, n, Height(s));
            var last := bounds[|bounds| - 1];
            last.1 == last.0 + 1 && last.1 == n + Inner(s) <= 2 * n - 1
  {
    TopIsAlone(s);
    UpToIsInner(s, Height(s));
    InnerBound(s);
  }

  // ---------- from chunks to the tree ----------

  ghost function LeafShapes(leaves: seq<PsiNode>): (ss: seq<Shape>)
    ensures |ss| == |leaves| && forall i :: 0 <= i < |ss| ==> ss[i] == Shape(leaves[i], [])
    ensures Heads(ss) == leaves
  {
    seq(|leaves|, i requires 0 <= i < |leaves| => Shape(leaves[i], []))
  }

  lemma {:induction false} LeafForest(ss: seq<Shape>)
    requires forall i :: 0 <= i < |ss| ==> ss[i].kids == []
    ensures FringeAll(ss) == Heads(ss) && BranchingAll(ss)
    ensures NodesAll(ss) == set n | n in Heads(ss)
    decreases |ss|
  {
    if ss != [] {
      var rest := ss[1..];
      assert forall i :: 0 <= i < |rest| ==> rest[i] == ss[i + 1];
      LeafForest(rest);
      assert Heads(ss) == [ss[0].node] + Heads(rest);
      assert Nodes(ss[0]) == {ss[0].node};
    }
  }

  lemma LeavesReady(leaves: seq<PsiNode>)
    requires Apart(leaves) && forall i :: 0 <= i < |leaves| ==> leaves[i].children == [] && leaves[i].parent == null
    ensures ProperAll(LeafShapes(leaves)) && LinkedAll(LeafShapes(leaves), null)
    ensures FringeAll(LeafShapes(leaves)) == leaves && BranchingAll(LeafShapes(leaves))
    ensures NodesAll(LeafShapes(leaves)) == set n | n in leaves
  {
    var ss := LeafShapes(leaves);
    LeafForest(ss);
    forall i | 0 <= i < |ss|
      ensures Proper(ss[i]) && Linked(ss[i])
    {
      assert Heads([]) == [];
    }
    ProperFromParts(ss);
    LinkedFromParts(ss, null);
  }

  /** The leaf nodes, one per chunk. */
  method MakeLeaves(texts: seq<string>) returns (leaves: seq<PsiNode>)
    ensures |leaves| == |texts| && Apart(leaves) && fresh(leaves)
    ensures forall i :: 0 <= i < |leaves| ==>
              leaves[i].index == i && leaves[i].text == texts[i] && leaves[i].children == [] && leaves[i].parent == null
  {
    leaves := [];
    for i := 0 to |texts|
      invariant |leaves| == i && Apart(leaves) && fresh(leaves)
      invariant forall j :: 0 <= j < i ==>
                  leaves[j].index == j && leaves[j].text == texts[j] && leaves[j].children == [] && leaves[j].parent == null
    {
      var leaf := new PsiNode(i, texts[i]);
      leaves := leaves + [leaf];
    }
  }

  /** What the finished Psi tree is. */
  ghost predicate PsiTreeOver(t: Shape, leaves: seq<PsiNode>, m: nat)
  {
    && Proper(t) && Branching(t) && Narrow(t, m)
    && Apart(leaves) && SameLeaves(Fringe(t), leaves) && |Fringe(t)| == |leaves|
  }

  /** How the tree came about: built from the rankings and labellings, then rebalanced. */
  datatype Origin = Origin(built: Shape, how: Recipe, balance: Balance)

  ghost predicate Stems(t: Shape, leaves: seq<PsiNode>, m: nat, cfg: Config, o: Origin)
    requires cfg.Valid() && m > 0
  {
    Follows(o.built, LeafShapes(leaves), cfg, o.how) && Balanced(t, o.built, m, o.balance)
  }

  lemma LoneStems(t: Shape, leaves: seq<PsiNode>, m: nat, cfg: Config)
    requires cfg.Valid() && m > 0 && |leaves| == 1 && t == Shape(leaves[0], [])
    ensures Stems(t, leaves, m, cfg, Origin(t, Lone, Balance([], [], [])))
  {
  }

  /** `_build_psi_structure`: every chunk is a leaf exactly once, and no fanout exceeds the bound. */
  method BuildPsiStructure(texts: seq<string>, cfg: Config, maxCluster: int)
    returns (root: PsiNode, leaves: seq<PsiNode>, ghost t: Shape, ghost o: Origin)
    requires cfg.Valid() && |texts| >= 1
    ensures Stems(t, leaves, if maxCluster > 2 then maxCluster else 2, cfg, o)
    ensures t.node == root && Linked(t) && fresh(Nodes(t))
    ensures PsiTreeOver(t, leaves, if maxCluster > 2 then maxCluster else 2)
    ensures |leaves| == |texts| && forall i :: 0 <= i < |leaves| ==> leaves[i].text == texts[i]
  {
    hide Nodes, NodesAll, Proper, ProperAll, Fringe, FringeAll, Narrow, NarrowAll, Branching, BranchingAll, Linked, LinkedAll, Minted, Joins, SameLeaves, Heads, Indexed, Apart, Config.Valid, LeafShapes, Follows, Balanced;
    leaves := MakeLeaves(texts);
    ghost var ss := LeafShapes(leaves);
    LeavesReady(leaves);
    if |leaves| == 1 {
      root, t := leaves[0], ss[0];
      LoneLeaf(t, leaves, if maxCluster > 2 then maxCluster else 2);
      o := Origin(t, Lone, Balance([], [], []));
      LoneStems(t, leaves, if maxCluster > 2 then maxCluster else 2, cfg);
      return;
    }
    var next, merges;
    ghost var s, ns, how;
    root, next, merges, s, ns, how := BuildFromNodes(leaves, |leaves|, cfg, ss);
    JoinedParts(s, ss, ns);
    assert Proper(s) && Branching(s) && SameLeaves(Fringe(s), leaves) && Nodes(s) == NodesAll(ss) + ns;
    var next';
    ghost var f, balance;
    root, next', t, f, balance := RebalancePsiTree(root, maxCluster, next, s);
    LeavesKeptOnce(t, leaves);
    o := Origin(s, how, balance);
  }

  lemma JoinedParts(t: Shape, ss: seq<Shape>, ns: set<PsiNode>)
    requires Joins(t, ss, ns)
    ensures Proper(t) && Nodes(t) == NodesAll(ss) + ns && SameLeaves(Fringe(t), FringeAll(ss))
    ensures BranchingAll(ss) ==> Branching(t)
  {
  }

  lemma LoneLeaf(t: Shape, leaves: seq<PsiNode>, m: nat)
    requires |leaves| == 1 && t == Shape(leaves[0], []) && t.node.children == [] && t.node.parent == null
    ensures PsiTreeOver(t, leaves, m) && Linked(t) && Nodes(t) == {leaves[0]}
  {
    assert Heads([]) == [];
  }

  // ---------- the call ----------

  lemma {:induction false} LowSubsAreLeaves(s: Shape, k: Shape)
    requires k in Subs(s) && Height(k) == 0
    ensures k.kids == [] && k.node in Fringe(s)
    decreases s
  {
    if k != s {
      var i := SubsAllHome(s.kids, k);
      LowSubsAreLeaves(s.kids[i], k);
      FringeAllAt(s.kids, i, k.node);
    }
  }

  /** At the start exactly the leaves have text. */
  lemma LeavesAreTold(t: Shape, leaves: seq<PsiNode>, said: map<PsiNode, string>, f: Summarizer)
    requires SameLeaves(Fringe(t), leaves)
    requires forall i :: 0 <= i < |leaves| ==> leaves[i].text != ""
    requires forall n :: n in Nodes(t) ==> n in said && said[n] == n.text
    ensures Speaks(t, said) && ToldBelow(t, 1, said, f)
  {
    forall k | k in Subs(t)
      ensures k.node in said && k.node.text == said[k.node]
      ensures Height(k) < 1 ==> Told(k, said, f)
    {
      SubFacts(t, k);
      if Height(k) == 0 {
        LowSubsAreLeaves(t, k);
      }
    }
  }

  /** The leaves carry the given texts, in order. */
  ghost predicate Carry(texts: seq<string>, leaves: seq<PsiNode>, said: map<PsiNode, string>)
  {
    |leaves| == |texts| && forall i :: 0 <= i < |leaves| ==> leaves[i] in said && said[leaves[i]] == texts[i]
  }

  /**
    What a Psi run without errors hands out: a tree over the given texts in which every inner node
    has the summary of its children, laid out layer by layer after the texts.
   */
  ghost predicate PsiResult(texts: seq<string>, chunks: seq<string>, layers: seq<(nat, nat)>, run: PsiRun, cfg: Config, f: Summarizer)
    requires cfg.Valid()
  {
    && PsiTreeOver(run.tree, run.leaves, run.fanout) && Descends(run, cfg) && Carry(texts, run.leaves, run.said)
    && Knows(run.tree, run.said) && (forall k :: k in Subs(run.tree) ==> Told(k, run.said, f))
    && chunks == texts + Spoken(run.tree, Height(run.tree), run.said) && |chunks| <= 2 * |texts| - 1
    && Contiguous(layers, |texts|, |chunks|) && |layers| >= 2
    && layers[|layers| - 1].0 + 1 == layers[|layers| - 1].1
  }

  /** Why a Psi run raises: in the tree over the given texts the call for some inner node failed. */
  ghost predicate PsiFailure(texts: seq<string>, run: PsiRun, cfg: Config, f: Summarizer)
    requires cfg.Valid()
  {
    PsiTreeOver(run.tree, run.leaves, run.fanout) && Descends(run, cfg) && Carry(texts, run.leaves, run.said) && FailedIn(run.tree, run.said, f)
  }

  /** The tree of a run, its leaves, its bound on the fanout, where it comes from, and the texts of all nodes. */
  datatype PsiRun = PsiRun(tree: Shape, leaves: seq<PsiNode>, fanout: nat, origin: Origin, said: map<PsiNode, string>)

  /** The tree is the one that the rankings and labellings determine. */
  ghost predicate Descends(run: PsiRun, cfg: Config)
    requires cfg.Valid()
  {
    run.fanout > 0 && Stems(run.tree, run.leaves, run.fanout, cfg, run.origin)
  }

  lemma {:induction false} FringeIsSub(s: Shape, n: PsiNode) returns (k: Shape)
    requires n in Fringe(s)
    ensures k in Subs(s) && Height(k) == 0 && k.node == n
    decreases s
  {
    if s.kids == [] {
      k := s;
    } else {
      var i := FringeAllHome(s.kids, n);
      k := FringeIsSub(s.kids[i], n);
      SubsAllAt(s.kids, i);
    }
  }

  lemma CarryStays(texts: seq<string>, t: Shape, leaves: seq<PsiNode>, a: map<PsiNode, string>, b: map<PsiNode, string>)
    requires Carry(texts, leaves, a) && SameLeaves(Fringe(t), leaves) && AgreeBelow(t, 1, a, b)
    ensures Carry(texts, leaves, b)
  {
    hide Fringe;
    forall i | 0 <= i < |leaves|
      ensures leaves[i] in b && b[leaves[i]] == texts[i]
    {
      var k := FringeIsSub(t, leaves[i]);
    }
  }

  lemma ResultFromComplete(texts: seq<string>, chunks: seq<string>, layers: seq<(nat, nat)>, run: PsiRun, cfg: Config, f: Summarizer)
    requires cfg.Valid() && Descends(run, cfg)
    requires PsiTreeOver(run.tree, run.leaves, run.fanout) && Carry(texts, run.leaves, run.said) && |texts| >= 2 && Knows(run.tree, run.said)
    requires Complete(run.tree, Height(run.tree), |texts|, texts, run.said, f, chunks, layers)
    ensures PsiResult(texts, chunks, layers, run, cfg, f)
  {
    hide Descends, Config.Valid, Subs, Height, Told, ToldBelow, Bounds, Contiguous, Spoken, Knows, Complete, Carry, PsiTreeOver;
    FringeIsTexts(texts, run);
    LaidOut(run.tree, texts, run.said, f, chunks, layers);
  }

  lemma FringeIsTexts(texts: seq<string>, run: PsiRun)
    requires PsiTreeOver(run.tree, run.leaves, run.fanout) && Carry(texts, run.leaves, run.said)
    ensures Branching(run.tree) && |Fringe(run.tree)| == |texts|
  {
    hide Branching, Fringe, Proper, Narrow, Apart, SameLeaves;
  }

  /** A complete layering ends in the root alone, with every node told. */
  lemma LaidOut(t: Shape, texts: seq<string>, said: map<PsiNode, string>, f: Summarizer, chunks: seq<string>, layers: seq<(nat, nat)>)
    requires Branching(t) && |Fringe(t)| == |texts| >= 2 && Knows(t, said)
    requires Complete(t, Height(t), |texts|, texts, said, f, chunks, layers)
    ensures forall k :: k in Subs(t) ==> Told(k, said, f)
    ensures chunks == texts + Spoken(t, Height(t), said) && |chunks| <= 2 * |texts| - 1
    ensures Contiguous(layers, |texts|, |chunks|) && |layers| >= 2
    ensures layers[|layers| - 1].0 + 1 == layers[|layers| - 1].1
  {
    hide Subs, Height, Told, ToldBelow, Bounds, Contiguous, Branching, Fringe, Spoken;
    TallEnough(t);
    BoundsContiguous(t, |texts|, Height(t));
    LastBound(layers, |texts|, |texts| + UpTo(t, Height(t)));
    FinalLayer(t, |texts|);
    EverythingTold(t, said, f);
  }

  lemma TallEnough(t: Shape)
    requires |Fringe(t)| >= 2
    ensures t.kids != [] && Height(t) >= 1
  {
  }

  lemma LastBound(layers: seq<(nat, nat)>, n: nat, end: nat)
    requires Contiguous(layers, n, end)
    ensures layers[|layers| - 1].1 == end
  {
  }

  lemma EverythingTold(t: Shape, said: map<PsiNode, string>, f: Summarizer)
    requires ToldBelow(t, Height(t) + 1, said, f)
    ensures forall k :: k in Subs(t) ==> Told(k, said, f)
  {
    forall k | k in Subs(t)
      ensures Told(k, said, f)
    {
      SubFacts(t, k);
    }
  }

  /** `_build_psi_layers` with the tree it builds first. */
  method BuildPsiLayers(texts: seq<string>, cfg: Config, maxCluster: int, f: Summarizer, errors: nat, maxErrors: nat)
    returns (raised: bool, chunks: seq<string>, layers: seq<(nat, nat)>, errors': nat, ghost run: PsiRun)
    requires cfg.Valid() && |texts| >= 2 && forall i :: 0 <= i < |texts| ==> texts[i] != ""
    ensures errors <= errors' && (raised ==> errors < errors') && run.fanout == if maxCluster > 2 then maxCluster else 2
    ensures errors' == errors ==> !raised && PsiResult(texts, chunks, layers, run, cfg, f)
    ensures errors' > errors ==> PsiFailure(texts, run, cfg, f)
  {
    hide Nodes, NodesAll, Proper, ProperAll, Fringe, FringeAll, Branching, BranchingAll, Linked, LinkedAll, Heads, Subs, Height, Told, ToldBelow, PsiResult, Complete, Speaks;
    hide AgreeBelow, FailedIn, Carry, Stems, Config.Valid;
    ghost var m := if maxCluster > 2 then maxCluster else 2;
    var root, leaves;
    ghost var t, said, bad, o;
    root, leaves, t, o := BuildPsiStructure(texts, cfg, maxCluster);
    ghost var before := map n | n in Nodes(t) :: n.text;
    LeavesAreTold(t, leaves, before, f);
    CarryFirst(texts, t, leaves, before);
    raised, chunks, layers, errors', said, bad := BuildLayers(root, texts, f, errors, maxErrors, t, before);
    CarryStays(texts, t, leaves, before, said);
    if errors' == errors {
      run := PsiRun(t, leaves, m, o, said);
      ResultFromComplete(texts, chunks, layers, run, cfg, f);
    } else {
      run := PsiRun(t, leaves, m, o, bad);
      CarryStays(texts, t, leaves, before, bad);
    }
  }

  lemma CarryFirst(texts: seq<string>, t: Shape, leaves: seq<PsiNode>, said: map<PsiNode, string>)
    requires |leaves| == |texts| && forall i :: 0 <= i < |leaves| ==> leaves[i].text == texts[i]
    requires SameLeaves(Fringe(t), leaves) && forall n :: n in Nodes(t) ==> n in said && said[n] == n.text
    ensures Carry(texts, leaves, said)
  {
    hide Fringe, Nodes;
    forall i | 0 <= i < |leaves|
      ensures leaves[i] in said && said[leaves[i]] == texts[i]
    {
      FringeInNodes(t, leaves[i]);
    }
  }

  /**
    `__call__` with the Psi builder: it returns a complete result when every summary call succeeds,
    and raises when one fails, never something partial.
   */
  method CallPsi(chunks: seq<Chunk>, cfg: Config, maxCluster: int, f: Summarizer, maxErrors: nat)
    returns (out: Outcome, ghost run: Option<PsiRun>)
    requires cfg.Valid()
    ensures |chunks| <= 1 ==> out == Returned([], [])
    ensures |chunks| > 1 && |Usable(chunks)| <= 1 ==> out == Returned(Usable(chunks), [(0, |Usable(chunks)|)])
    ensures |chunks| > 1 && |Usable(chunks)| > 1 ==>
              !out.DidNotReduce? && run.Some? && run.value.fanout == if maxCluster > 2 then maxCluster else 2
    ensures |chunks| > 1 && |Usable(chunks)| > 1 && out.Returned? ==> run.Some? && PsiResult(Usable(chunks), out.chunks, out.layers, run.value, cfg, f)
    ensures |chunks| > 1 && |Usable(chunks)| > 1 && out.Raised? ==> run.Some? && PsiFailure(Usable(chunks), run.value, cfg, f)
  {
    hide PsiResult, PsiFailure;
    run := None;
    if |chunks| <= 1 {
      return Returned([], []), None;
    }
    var texts := Usable(chunks);
    if |texts| <= 1 {
      return Returned(texts, [(0, |texts|)]), None;
    }
    var raised, all, layers, errors;
    ghost var r;
    raised, all, layers, errors, r := BuildPsiLayers(texts, cfg, maxCluster, f, 0, maxErrors);
    run := Some(r);
    out := if raised || errors > 0 then Raised else Returned(all, layers);
  }

  /** A summarizer that never fails gives no reason to raise. */
  lemma NeverFails(texts: seq<string>, run: PsiRun, cfg: Config, f: Summarizer)
    requires cfg.Valid() && forall i, ts :: f(i, ts).Some?
    ensures !PsiFailure(texts, run, cfg, f)
  {
  }
}
