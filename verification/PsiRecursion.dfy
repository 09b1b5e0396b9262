/**
  The mutual recursion of `_build_psi_structure_from_nodes` and `_build_bucketed_psi_structure`.
  Rankings and cluster labels are oracles, so the results hold for every embedding.
 */
module PsiRecursion {
  import opened PsiLinks
  import opened PsiTree
  import opened PsiStructure
  import opened PsiBuckets
  import opened PsiBuild

  // ---------- reordering the given subtrees ----------

  ghost predicate Within(p: seq<nat>, n: nat)
  {
    forall i :: 0 <= i < |p| ==> p[i] < n
  }

  ghost function Pick(ss: seq<Shape>, p: seq<nat>): (r: seq<Shape>)
    requires Within(p, |ss|)
    ensures |r| == |p| && forall i :: 0 <= i < |p| ==> r[i] == ss[p[i]]
  {
    seq(|p|, i requires 0 <= i < |p| && Within(p, |ss|) => ss[p[i]])
  }

  /** `p` lists the numbers below `n`, each exactly once. */
  ghost predicate Permutes(p: seq<nat>, n: nat)
  {
    && Within(p, n)
    && (forall i, j :: 0 <= i < j < |p| ==> p[i] != p[j])
    && (forall x: nat :: x < n ==> x in p)
  }

  lemma PermutesFromMultiset(p: seq<nat>, n: nat)
    requires multiset(p) == multiset(Range(n))
    ensures Permutes(p, n) && |p| == n
  {
    SameLength(p, Range(n));
    forall i | 0 <= i < |p|
      ensures p[i] < n
    {
      assert p[i] in multiset(p);
      assert p[i] in Range(n);
    }
    forall x: nat | x < n
      ensures x in p
    {
      assert Range(n)[x] == x;
      assert x in multiset(Range(n));
    }
    forall i, j | 0 <= i < j < |p|
      ensures p[i] != p[j]
    {
      OnceInRange(n, p[i]);
      if p[i] == p[j] {
        TwiceInSeq(p, i, j);
      }
    }
  }

  lemma {:induction false} OnceInRange(n: nat, x: nat)
    requires x < n
    ensures multiset(Range(n))[x] == 1
  {
    assert Range(n) == Range(n)[..x] + ([x] + Range(n)[x + 1..]);
    assert multiset(Range(n)) == multiset(Range(n)[..x]) + (multiset{x} + multiset(Range(n)[x + 1..]));
    assert x !in Range(n)[..x] && x !in Range(n)[x + 1..];
  }

  lemma TwiceInSeq(p: seq<nat>, i: nat, j: nat)
    requires i < j < |p| && p[i] == p[j]
    ensures multiset(p)[p[i]] >= 2
  {
    var x := p[i];
    assert p == p[..i + 1] + p[i + 1..];
    assert multiset(p) == multiset(p[..i + 1]) + multiset(p[i + 1..]);
    assert p[..i + 1][i] == x && p[i + 1..][j - i - 1] == x;
    assert x in p[..i + 1] && x in p[i + 1..];
  }

  lemma PickProper(ss: seq<Shape>, p: seq<nat>)
    requires ProperAll(ss) && Permutes(p, |ss|)
    ensures ProperAll(Pick(ss, p))
  {
    var qs := Pick(ss, p);
    forall i | 0 <= i < |qs|
      ensures Proper(qs[i])
    {
      ProperAt(ss, p[i]);
    }
    forall i, j | 0 <= i < j < |qs|
      ensures Nodes(qs[i]) !! Nodes(qs[j])
    {
      if p[i] < p[j] {
        ProperApart(ss, p[i], p[j]);
      } else {
        ProperApart(ss, p[j], p[i]);
      }
    }
    ProperFromParts(qs);
  }

  lemma PickSame(ss: seq<Shape>, p: seq<nat>)
    requires Permutes(p, |ss|)
    ensures NodesAll(Pick(ss, p)) == NodesAll(ss)
    ensures SameLeaves(FringeAll(Pick(ss, p)), FringeAll(ss))
    ensures BranchingAll(ss) ==> BranchingAll(Pick(ss, p))
  {
    var qs := Pick(ss, p);
    PickNodes(ss, p);
    PickLeaves(ss, p);
    if BranchingAll(ss) {
      forall i | 0 <= i < |qs|
        ensures Branching(qs[i])
      {
        BranchingAt(ss, p[i]);
      }
      BranchingFromParts(qs);
    }
  }

  lemma PickNodes(ss: seq<Shape>, p: seq<nat>)
    requires Permutes(p, |ss|)
    ensures NodesAll(Pick(ss, p)) == NodesAll(ss)
  {
    var qs := Pick(ss, p);
    forall n | n in NodesAll(qs)
      ensures n in NodesAll(ss)
    {
      var i := NodesAllHome(qs, n);
      NodesAllAt(ss, p[i]);
    }
    forall n | n in NodesAll(ss)
      ensures n in NodesAll(qs)
    {
      var x := NodesAllHome(ss, n);
      assert x in p;
      var i :| 0 <= i < |p| && p[i] == x;
      NodesAllAt(qs, i);
    }
  }

  lemma PickLeaves(ss: seq<Shape>, p: seq<nat>)
    requires Permutes(p, |ss|)
    ensures SameLeaves(FringeAll(Pick(ss, p)), FringeAll(ss))
  {
    var qs := Pick(ss, p);
    forall n | n in FringeAll(qs)
      ensures n in FringeAll(ss)
    {
      var i := FringeAllHome(qs, n);
      FringeAllAt(ss, p[i], n);
    }
    forall n | n in FringeAll(ss)
      ensures n in FringeAll(qs)
    {
      var x := FringeAllHome(ss, n);
      assert x in p;
      var i :| 0 <= i < |p| && p[i] == x;
      FringeAllAt(qs, i, n);
    }
  }

  lemma PickLinked(ss: seq<Shape>, p: seq<nat>)
    requires LinkedAll(ss, null) && Within(p, |ss|)
    ensures LinkedAll(Pick(ss, p), null)
  {
    var qs := Pick(ss, p);
    forall i | 0 <= i < |qs|
      ensures Linked(qs[i]) && qs[i].node.parent == null
    {
      LinkedAt(ss, null, p[i]);
    }
    LinkedFromParts(qs, null);
  }

  // ---------- trees over consecutive slices ----------

  /** Each tree of `ts` joins a slice of `qs`; together they cover `qs` and the new nodes `f`. */
  ghost predicate Covers(ts: seq<Shape>, qs: seq<Shape>, f: set<PsiNode>)
  {
    && ProperAll(ts) && NodesAll(ts) == NodesAll(qs) + f && NodesAll(qs) !! f
    && SameLeaves(FringeAll(ts), FringeAll(qs))
    && (BranchingAll(qs) ==> BranchingAll(ts))
  }

  lemma CoversMore(ts: seq<Shape>, qs: seq<Shape>, f: set<PsiNode>, t: Shape, bs: seq<Shape>, f': set<PsiNode>)
    requires Covers(ts, qs, f) && Joins(t, bs, f')
    requires NodesAll(qs) !! NodesAll(bs) && f !! Nodes(t) && f' !! NodesAll(ts)
    ensures Covers(ts + [t], qs + bs, f + f')
  {
    hide Nodes, NodesAll, Proper, ProperAll, Fringe, FringeAll, Branching, BranchingAll;
    Single(t);
    ProperSplit(ts, [t]);
    NodesSplit(ts, [t]);
    NodesSplit(qs, bs);
    FringeSplit(ts, [t]);
    FringeSplit(qs, bs);
    BranchingSplit(ts, [t]);
    BranchingSplit(qs, bs);
  }

  lemma JoinsThrough(t: Shape, ts: seq<Shape>, qs: seq<Shape>, ss: seq<Shape>, f: set<PsiNode>, f': set<PsiNode>)
    requires Covers(ts, qs, f) && Joins(t, ts, f')
    requires NodesAll(qs) == NodesAll(ss) && SameLeaves(FringeAll(qs), FringeAll(ss))
    requires BranchingAll(ss) ==> BranchingAll(qs)
    ensures Joins(t, ss, f + f')
  {
  }

  lemma CoversOne(t: Shape, qs: seq<Shape>, ss: seq<Shape>, f: set<PsiNode>)
    requires Covers([t], qs, f)
    requires NodesAll(qs) == NodesAll(ss) && SameLeaves(FringeAll(qs), FringeAll(ss))
    requires BranchingAll(ss) ==> BranchingAll(qs)
    ensures Joins(t, ss, f)
  {
    Single(t);
  }

  // ---------- configuration and oracles ----------

  function AllPairs(n: nat): (r: seq<Pair>)
    ensures RanksAll(r, n)
  {
    if n == 0 then []
    else
      var before := AllPairs(n - 1);
      var last: seq<Pair> := seq(n - 1, b requires 0 <= b < n - 1 => (n - 1, b));
      OneMoreLeaf(before, last, n);
      before + last
  }

  lemma OneMoreLeaf(before: seq<Pair>, last: seq<Pair>, n: nat)
    requires n > 0 && RanksAll(before, n - 1) && |last| == n - 1
    requires forall b: nat :: b < n - 1 ==> last[b] == (n - 1, b)
    ensures RanksAll(before + last, n)
  {
    forall a: nat, b: nat | b < a < n
      ensures (a, b) in before + last
    {
      if a == n - 1 {
        assert last[b] == (a, b);
      }
    }
  }

  /** Any ranking of all pairs, as a function of the node indices. */
  type Ranker = f: seq<nat> -> seq<Pair> | forall ix :: RanksAll(f(ix), |ix|)
    witness (ix: seq<nat>) => AllPairs(|ix|)

  datatype Config = Config(exactMax: nat, bucketSize: nat, rank: Ranker, cluster: seq<nat> -> Labeler)
  {
    ghost predicate Valid()
    {
      2 <= bucketSize <= exactMax
    }
  }

  /** The limits that the constructor derives from its arguments; 0 stands for the default. */
  function Limits(psiExactMaxLeaves: int, psiBucketSize: int): (r: (nat, nat))
    ensures 2 <= r.1 <= r.0 <= 4096
    ensures 2 <= psiExactMaxLeaves <= 4096 ==> r.0 == psiExactMaxLeaves
    ensures psiExactMaxLeaves == 0 || psiExactMaxLeaves > 4096 ==> r.0 == 4096
    ensures psiExactMaxLeaves < 2 && psiExactMaxLeaves != 0 ==> r.0 == 2
    ensures 2 <= psiBucketSize <= r.0 ==> r.1 == psiBucketSize
    ensures psiBucketSize < 2 && psiBucketSize != 0 ==> r.1 == 2
    ensures psiBucketSize > r.0 ==> r.1 == r.0
    ensures psiBucketSize == 0 ==> r.1 == if r.0 < 1024 then r.0 else 1024
  {
    var e := if psiExactMaxLeaves == 0 then 4096 else psiExactMaxLeaves;
    var b := if psiBucketSize == 0 then 1024 else psiBucketSize;
    var e' := if e < 2 then 2 else if e > 4096 then 4096 else e;
    var b' := if b < 2 then 2 else b;
    (e', if b' < e' then b' else e')
  }

  function Indices(nodes: seq<PsiNode>): (r: seq<nat>)
    ensures |r| == |nodes|
  {
    seq(|nodes|, i requires 0 <= i < |nodes| => nodes[i].index)
  }

  /** How a tree came about: a lone subtree, a ranking, or buckets whose trees are joined in turn. */
  datatype Recipe =
    | Lone
    | Exact(growth: Growth)
    | Bucketed(buckets: seq<seq<nat>>, parts: seq<Shape>, each: seq<Recipe>, top: Recipe)

  /** The buckets are those of the recursion, sorted. */
  ghost predicate Bucketing(cfg: Config, heads: seq<PsiNode>, buckets: seq<seq<nat>>)
    requires cfg.Valid()
  {
    && NoneEmpty(buckets) && Sorted(buckets)
    && multiset(buckets) == multiset(BucketsOf(Range(|heads|), cfg.bucketSize, cfg.cluster(Indices(heads))))
    && (forall k :: 0 <= k < |buckets| ==> Within(buckets[k], |heads|))
  }

  /**
    The tree over the given subtrees is the one that rankings and labellings determine: by the
    ranking up to the limit, and beyond it by buckets, each with the tree over its members, and the
    tree over those trees.
   */
  ghost predicate Follows(t: Shape, ss: seq<Shape>, cfg: Config, how: Recipe)
    requires cfg.Valid()
    decreases how
  {
    match how
    case Lone => |ss| == 1 && t == ss[0]
    case Exact(g) => 2 <= |ss| <= cfg.exactMax && Grown(t, ss, cfg.rank(Indices(Heads(ss))), g)
    case Bucketed(buckets, parts, each, top) =>
      && |ss| > cfg.exactMax && Bucketing(cfg, Heads(ss), buckets)
      && |parts| == |each| == |buckets| && |Heads(ss)| == |ss|
      && (forall k :: 0 <= k < |buckets| ==> Follows(parts[k], Pick(ss, buckets[k]), cfg, each[k]))
      && Follows(t, parts, cfg, top)
  }

  /** `_build_psi_structure_from_nodes`: exact up to the limit, bucketed beyond it. */
  method BuildFromNodes(nodes: seq<PsiNode>, next: nat, cfg: Config, ghost ss: seq<Shape>)
    returns (root: PsiNode, next': nat, merges: nat, ghost t: Shape, ghost ns: set<PsiNode>, ghost how: Recipe)
    requires cfg.Valid() && nodes == Heads(ss) && |nodes| >= 1 && ProperAll(ss) && LinkedAll(ss, null)
    modifies NodesAll(ss)`parent
    ensures Built(root, t, ss, ns) && fresh(ns) && Minted(ns, next, next')
    ensures merges == |nodes| - 1 && |ns| <= merges && Follows(t, ss, cfg, how)
    decreases |nodes|, 1
  {
    hide Grown;
    if |nodes| <= cfg.exactMax {
      ghost var g;
      root, next', merges, t, ns, g := BuildExact(nodes, next, cfg.rank(Indices(nodes)), ss);
      how := if |nodes| == 1 then Lone else Exact(g);
    } else {
      root, next', merges, t, ns, how := BuildBucketed(nodes, next, cfg, ss);
    }
  }

  /** The members of one bucket. */
  function Members(nodes: seq<PsiNode>, b: seq<nat>): (r: seq<PsiNode>)
    requires forall i :: 0 <= i < |b| ==> b[i] < |nodes|
  {
    seq(|b|, i requires 0 <= i < |b| => nodes[b[i]])
  }

  /** The buckets so far are built into `ts`; the shapes from `off` on wait for their turn. */
  ghost predicate Progress(qs: seq<Shape>, off: nat, ts: seq<Shape>, f: set<PsiNode>)
    requires off <= |qs|
    reads NodesAll(ts), NodesAll(qs[off..]), f
  {
    && LinkedAll(ts, null) && LinkedAll(qs[off..], null)
    && Covers(ts, qs[..off], f) && f !! NodesAll(qs)
    && (forall n :: n in f ==> n.text == "")
  }

  /** One bucket, cut out as the next slice of the reordered shapes. */
  method BuildBucket(bucket: seq<PsiNode>, next: nat, cfg: Config, ghost qs: seq<Shape>, ghost off: nat, ghost end: nat, ghost ts: seq<Shape>, ghost f: set<PsiNode>)
    returns (root: PsiNode, next': nat, merges: nat, ghost t: Shape, ghost f': set<PsiNode>, ghost how: Recipe)
    requires cfg.Valid() && off < end <= |qs| && bucket == Heads(qs[off..end]) && |bucket| < |qs|
    requires ProperAll(qs) && Progress(qs, off, ts, f)
    modifies NodesAll(qs)`parent
    ensures root == t.node && Progress(qs, end, ts + [t], f + f') && fresh(f') && Minted(f', next, next')
    ensures merges == end - off - 1 && |f'| <= merges && Follows(t, qs[off..end], cfg, how)
    decreases |qs|, 0, 0
  {
    hide Nodes, NodesAll, Proper, ProperAll, FringeAll, BranchingAll, LinkedAll, Linked, Minted, Covers, Joins, Heads, Follows;
    ghost var a, bs, c := qs[..off], qs[off..end], qs[end..];
    CutBatch(qs, off, end, a, bs, c);
    LinkedSplit(bs, c, null);
    CoveredNodes(ts, a, f);
    NodesAllocated(ts);
    NodesAllocated(qs);
    root, next', merges, t, f', how := BuildFromNodes(bucket, next, cfg, bs);
    JoinedNodes(t, bs, f');
    assert LinkedAll(c, null) && LinkedAll(ts, null) && f' !! NodesAll(qs);
    CoversMore(ts, a, f, t, bs, f');
    LinkedAppend(ts, t, null);
  }

  lemma CoveredNodes(ts: seq<Shape>, qs: seq<Shape>, f: set<PsiNode>)
    requires Covers(ts, qs, f)
    ensures NodesAll(ts) == NodesAll(qs) + f && ProperAll(ts)
  {
  }

  lemma JoinedNodes(t: Shape, bs: seq<Shape>, f: set<PsiNode>)
    requires Joins(t, bs, f)
    ensures Nodes(t) == NodesAll(bs) + f
  {
  }

  lemma {:induction false} BucketSlice(buckets: seq<seq<nat>>, k: nat)
    requires k < |buckets|
    ensures var off := |Flat(buckets[..k])|;
            && off + |buckets[k]| <= |Flat(buckets)|
            && Flat(buckets)[off..off + |buckets[k]|] == buckets[k]
            && |Flat(buckets[..k + 1])| == off + |buckets[k]|
  {
    var a, b, c := buckets[..k], buckets[k], buckets[k + 1..];
    assert buckets == a + ([b] + c) && buckets[..k + 1] == a + [b];
    FlatAppend(a, [b] + c);
    FlatAppend([b], c);
    FlatSingle(b);
    FlatAppend(a, [b]);
  }

  lemma MembersAreHeads(nodes: seq<PsiNode>, ss: seq<Shape>, p: seq<nat>, b: seq<nat>, off: nat)
    requires nodes == Heads(ss) && Within(p, |ss|) && off + |b| <= |p| && p[off..off + |b|] == b
    ensures forall i :: 0 <= i < |b| ==> b[i] < |nodes|
    ensures Members(nodes, b) == Heads(Pick(ss, p)[off..off + |b|])
  {
    forall i | 0 <= i < |b|
      ensures b[i] == p[off + i]
    {
      assert p[off..off + |b|][i] == p[off + i];
    }
  }

  lemma NoProgress(qs: seq<Shape>, next: nat)
    requires LinkedAll(qs, null)
    ensures Progress(qs, 0, [], {}) && Minted({}, next, next)
  {
    assert qs[0..] == qs && qs[..0] == [];
  }

  /** `_build_bucketed_psi_structure`: a tree per bucket, then a tree over the bucket roots. */
  method BuildBucketed(nodes: seq<PsiNode>, next: nat, cfg: Config, ghost ss: seq<Shape>)
    returns (root: PsiNode, next': nat, merges: nat, ghost t: Shape, ghost ns: set<PsiNode>, ghost how: Recipe)
    requires cfg.Valid() && nodes == Heads(ss) && |nodes| > cfg.exactMax && ProperAll(ss) && LinkedAll(ss, null)
    modifies NodesAll(ss)`parent
    ensures Built(root, t, ss, ns) && fresh(ns) && Minted(ns, next, next')
    ensures merges == |nodes| - 1 && |ns| <= merges && Follows(t, ss, cfg, how)
    decreases |nodes|, 0, 3
  {
    hide Nodes, NodesAll, Proper, ProperAll, FringeAll, BranchingAll, LinkedAll, Linked, Minted, Covers, Joins, Heads, Permutes, Flat, Pick, Follows, BucketsOf;
    NodesAllocated(ss);
    var buckets := SplitPsiBuckets(|nodes|, cfg.bucketSize, cfg.cluster(Indices(nodes)));
    PermutesFromMultiset(Flat(buckets), |nodes|);
    PermutesWithin(Flat(buckets), |nodes|);
    FlatEmpty();
    ghost var qs := Pick(ss, Flat(buckets));
    PickProper(ss, Flat(buckets));
    PickSame(ss, Flat(buckets));
    PickLinked(ss, Flat(buckets));
    var roots;
    ghost var ts, f, each, top;
    roots, next', merges, ts, f, each := BuildBuckets(nodes, next, cfg, buckets, ss, qs);
    if |roots| == 1 {
      LastTree(ts);
      root, t, ns, top := roots[0], ts[0], f, Lone;
      CoversOne(t, qs, ss, f);
      LoneFollows(ts, cfg);
    } else {
      var n', more;
      ghost var f';
      CoveredNodes(ts, qs, f);
      NodesAllocated(ts);
      root, n', more, t, f', top := BuildFromNodes(roots, next', cfg, ts);
      JoinsThrough(t, ts, qs, ss, f, f');
      MintedSum(f, f', next, next', n');
      merges, next', ns := merges + more, n', f + f';
    }
    how := Bucketed(buckets, ts, each, top);
    BucketedFollows(t, ss, nodes, cfg, buckets, ts, each, top);
  }

  lemma LoneFollows(ts: seq<Shape>, cfg: Config)
    requires cfg.Valid() && |ts| == 1
    ensures Follows(ts[0], ts, cfg, Lone)
  {
  }

  ghost predicate Each(parts: seq<Shape>, ss: seq<Shape>, cfg: Config, buckets: seq<seq<nat>>, each: seq<Recipe>)
    requires cfg.Valid()
  {
    && |parts| == |each| <= |buckets|
    && (forall k :: 0 <= k < |parts| ==> Within(buckets[k], |ss|) && Follows(parts[k], Pick(ss, buckets[k]), cfg, each[k]))
  }

  lemma BucketedFollows(t: Shape, ss: seq<Shape>, nodes: seq<PsiNode>, cfg: Config, buckets: seq<seq<nat>>, ts: seq<Shape>, each: seq<Recipe>, top: Recipe)
    requires cfg.Valid() && nodes == Heads(ss) && |ss| > cfg.exactMax && NoneEmpty(buckets) && Sorted(buckets)
    requires multiset(buckets) == multiset(BucketsOf(Range(|nodes|), cfg.bucketSize, cfg.cluster(Indices(nodes))))
    requires Each(ts, ss, cfg, buckets, each) && |ts| == |buckets| && Follows(t, ts, cfg, top)
    ensures Follows(t, ss, cfg, Bucketed(buckets, ts, each, top))
  {
    assert |Heads(ss)| == |ss|;
    hide Sorted, BucketsOf;
  }

  lemma EachMore(parts: seq<Shape>, ss: seq<Shape>, cfg: Config, buckets: seq<seq<nat>>, each: seq<Recipe>, k: nat, bs: seq<Shape>, t: Shape, how: Recipe)
    requires cfg.Valid() && Each(parts, ss, cfg, buckets, each) && k == |parts| < |buckets|
    requires Within(buckets[k], |ss|) && bs == Pick(ss, buckets[k]) && Follows(t, bs, cfg, how)
    ensures Each(parts + [t], ss, cfg, buckets, each + [how])
  {
    hide Follows, Pick, Within;
    assert Follows(t, Pick(ss, buckets[k]), cfg, how);
    forall i | 0 <= i < k + 1
      ensures Within(buckets[i], |ss|) && Follows((parts + [t])[i], Pick(ss, buckets[i]), cfg, (each + [how])[i])
    {
      if i == k {
        assert (parts + [t])[i] == t && (each + [how])[i] == how;
      } else {
        assert (parts + [t])[i] == parts[i] && (each + [how])[i] == each[i];
      }
    }
  }

  lemma PickSlice(ss: seq<Shape>, p: seq<nat>, b: seq<nat>, off: nat)
    requires Within(p, |ss|) && off + |b| <= |p| && p[off..off + |b|] == b
    ensures Within(b, |ss|) && Pick(ss, p)[off..off + |b|] == Pick(ss, b)
  {
    forall i | 0 <= i < |b|
      ensures b[i] == p[off + i]
    {
      assert p[off..off + |b|][i] == p[off + i];
    }
  }

  lemma LastTree(ts: seq<Shape>)
    requires |ts| == 1 && LinkedAll(ts, null)
    ensures ts == [ts[0]] && Linked(ts[0]) && ts[0].node.parent == null
  {
  }

  /** One round of the loop over the buckets. */
  method NextBucket(nodes: seq<PsiNode>, next: nat, cfg: Config, buckets: seq<seq<nat>>, k: nat, ghost ss: seq<Shape>, ghost qs: seq<Shape>,
                    ghost off: nat, ghost ts: seq<Shape>, ghost f: set<PsiNode>, ghost each: seq<Recipe>)
    returns (root: PsiNode, next': nat, merges: nat, ghost t: Shape, ghost f': set<PsiNode>,
             ghost off': nat, ghost ts': seq<Shape>, ghost all: set<PsiNode>, ghost each': seq<Recipe>)
    requires cfg.Valid() && nodes == Heads(ss) && |nodes| == |ss| && Permutes(Flat(buckets), |nodes|)
    requires k < |buckets| && 0 < |buckets[k]| < |nodes|
    requires |Flat(buckets)| == |nodes| && qs == Pick(ss, Flat(buckets)) && ProperAll(qs)
    requires off == |Flat(buckets[..k])| <= |qs| && |ts| == k && Progress(qs, off, ts, f) && Each(ts, ss, cfg, buckets, each)
    modifies NodesAll(qs)`parent
    ensures off' == off + |buckets[k]| == |Flat(buckets[..k + 1])| <= |qs| && root == t.node && ts' == ts + [t] && all == f + f'
    ensures Progress(qs, off', ts', all)
    ensures fresh(f') && Minted(f', next, next') && merges == |buckets[k]| - 1 && |f'| <= merges
    ensures Each(ts', ss, cfg, buckets, each')
    decreases |nodes|, 0, 1
  {
    hide Nodes, NodesAll, Proper, ProperAll, FringeAll, BranchingAll, LinkedAll, Linked, Minted, Covers, Joins, Heads, Permutes, Flat, Members, Pick, Progress, Follows, Each, Within;
    BucketSlice(buckets, k);
    ghost var end := off + |buckets[k]|;
    PermutesWithin(Flat(buckets), |nodes|);
    MembersAreHeads(nodes, ss, Flat(buckets), buckets[k], off);
    PickSlice(ss, Flat(buckets), buckets[k], off);
    ghost var bs, how := qs[off..end], Lone;
    root, next', merges, t, f', how := BuildBucket(Members(nodes, buckets[k]), next, cfg, qs, off, end, ts, f);
    EachMore(ts, ss, cfg, buckets, each, k, bs, t, how);
    off', ts', all, each' := end, ts + [t], f + f', each + [how];
  }

  /** The loop over the buckets. */
  method BuildBuckets(nodes: seq<PsiNode>, next: nat, cfg: Config, buckets: seq<seq<nat>>, ghost ss: seq<Shape>, ghost qs: seq<Shape>)
    returns (roots: seq<PsiNode>, next': nat, merges: nat, ghost ts: seq<Shape>, ghost f: set<PsiNode>, ghost each: seq<Recipe>)
    requires cfg.Valid() && nodes == Heads(ss) && NoneEmpty(buckets) && Permutes(Flat(buckets), |nodes|)
    requires forall i :: 0 <= i < |buckets| ==> |buckets[i]| < |nodes|
    requires |Flat(buckets)| == |nodes| && qs == Pick(ss, Flat(buckets))
    requires ProperAll(qs) && LinkedAll(qs, null)
    modifies NodesAll(qs)`parent
    ensures roots == Heads(ts) && |ts| == |buckets| && LinkedAll(ts, null)
    ensures Covers(ts, qs, f) && fresh(f) && Minted(f, next, next') && (forall n :: n in f ==> n.text == "")
    ensures merges == |nodes| - |buckets| && |f| <= merges && Each(ts, ss, cfg, buckets, each)
    decreases |nodes|, 0, 2
  {
    hide Nodes, NodesAll, Proper, ProperAll, FringeAll, BranchingAll, LinkedAll, Linked, Minted, Covers, Joins, Heads, Permutes, Flat, Members, Pick, Progress, Follows, Each, Within;
    NoProgress(qs, next);
    roots, next', merges, ts, f, each := [], next, 0, [], {}, [];
    NoneYet(ss, cfg, buckets);
    ghost var off := 0;
    FlatEmpty();
    assert buckets[..0] == [] && Heads([]) == [];
    for k := 0 to |buckets|
      invariant off == |Flat(buckets[..k])| <= |qs| && roots == Heads(ts) && |ts| == k
      invariant Progress(qs, off, ts, f) && fresh(f) && Minted(f, next, next')
      invariant merges == off - k && |f| <= merges && Each(ts, ss, cfg, buckets, each)
    {
      var r, n', m, t, f', off', ts', all, each' := NextBucket(nodes, next', cfg, buckets, k, ss, qs, off, ts, f, each);
      MintedSum(f, f', next, next', n');
      HeadsAppend(ts, t);
      SumSize(f, f');
      roots, next', merges, ts, f, off, each := roots + [r], n', merges + m, ts', all, off', each';
    }
    assert buckets[..|buckets|] == buckets;
    AllDone(qs, off, ts, f);
  }

  lemma NoneYet(ss: seq<Shape>, cfg: Config, buckets: seq<seq<nat>>)
    requires cfg.Valid()
    ensures Each([], ss, cfg, buckets, [])
  {
  }

  lemma PermutesWithin(p: seq<nat>, n: nat)
    requires Permutes(p, n)
    ensures Within(p, n)
  {
  }

  lemma FlatEmpty()
    ensures Flat([]) == []
  {
  }

  lemma SumSize(a: set<PsiNode>, b: set<PsiNode>)
    ensures |a + b| <= |a| + |b|
  {
    assert a + b == a + (b - a);
    assert |a + (b - a)| == |a| + |b - a|;
    assert (b - a) + (b * a) == b;
  }

  lemma AllDone(qs: seq<Shape>, off: nat, ts: seq<Shape>, f: set<PsiNode>)
    requires off == |qs| && Progress(qs, off, ts, f)
    ensures LinkedAll(ts, null) && Covers(ts, qs, f) && (forall n :: n in f ==> n.text == "")
  {
    assert qs[..off] == qs;
  }
}
