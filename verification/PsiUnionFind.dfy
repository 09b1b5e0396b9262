/**
  `_PsiUnionFind`: the union-find with lazily extended ancestor chains that writes the compact
  parent array of the Psi merge tree.
 */
module PsiUnionFind {
  import opened PsiForest
  import opened Sets
  import opened PsiLinks
  import opened PsiMerge
  import opened PsiRanking
  import opened Options

  // ---------- ordered extension of a chain ----------

  function Extended(target: seq<nat>, values: seq<nat>): seq<nat>
    decreases |values|
  {
    if values == [] then target
    else Extended(if values[0] in target then target else target + [values[0]], values[1..])
  }

  lemma {:induction false} ExtendedSkips(target: seq<nat>, seen: seq<nat>, rest: seq<nat>)
    requires forall v :: v in seen ==> v in target
    ensures Extended(target, seen + rest) == Extended(target, rest)
    decreases |seen|
  {
    if seen == [] {
      assert seen + rest == rest;
    } else {
      assert (seen + rest)[1..] == seen[1..] + rest;
      ExtendedSkips(target, seen[1..], rest);
    }
  }

  lemma {:induction false} ExtendedAppends(target: seq<nat>, rest: seq<nat>)
    requires forall v :: v in rest ==> v !in target
    requires forall a, b :: 0 <= a < b < |rest| ==> rest[a] != rest[b]
    ensures Extended(target, rest) == target + rest
    decreases |rest|
  {
    if rest != [] {
      assert target + rest == (target + [rest[0]]) + rest[1..];
      ExtendedAppends(target + [rest[0]], rest[1..]);
    }
  }

  ghost predicate Distinct(s: seq<nat>)
  {
    forall a, b :: 0 <= a < b < |s| ==> s[a] != s[b]
  }

  /** A prefix extended with an overlapping suffix gives the whole sequence. */
  lemma ExtendedOverlap(full: seq<nat>, c: seq<nat>, skip: nat)
    requires Distinct(full) && c <= full && skip <= |c|
    ensures Extended(c, full[skip..]) == full
  {
    var seen, rest := full[skip..|c|], full[|c|..];
    assert full[skip..] == seen + rest;
    assert c + rest == full;
    ExtendedSkips(c, seen, rest);
    ExtendedAppends(c, rest);
  }

  // ---------- what the chains are ----------

  /** The complete chain of `x`: its path to the root, without `x` itself while its rank is 0. */
  ghost function Full(f: Forest, x: nat): seq<nat>
    requires Ordered(f) && x < |f.rank|
  {
    if f.rank[x] > 0 then Path(f, x) else Path(f, x)[1..]
  }

  /** A chain is a prefix of the complete one that reaches at least the union-find parent. */
  ghost predicate ChainOk(f: Forest, x: nat, c: seq<nat>)
    requires Ordered(f) && x < |f.rank|
  {
    && c <= Full(f, x)
    && (if f.par[x] == -1 then |c| == |Full(f, x)| else |c| > (if f.rank[x] > 0 then 1 else 0))
  }

  ghost predicate ChainsOk(f: Forest, chains: seq<seq<nat>>)
    requires Ordered(f)
  {
    |chains| == |f.rank| && forall x :: 0 <= x < |chains| ==> ChainOk(f, x, chains[x])
  }

  lemma FullIsDistinct(f: Forest, x: nat)
    requires Ordered(f) && x < |f.rank|
    ensures Distinct(Path(f, x)) && Distinct(Full(f, x))
  {
    var p := Path(f, x);
    forall a, b | 0 <= a < b < |p|
      ensures p[a] != p[b]
    {
      PathRises(f, x, a, b);
    }
  }

  /** Extending a chain with the path of the parent completes it, without repeating an element. */
  lemma ExtendCompletes(f: Forest, x: nat, c: seq<nat>)
    requires Ordered(f) && x < |f.rank| && f.par[x] != -1 && ChainOk(f, x, c)
    ensures Extended(c, Path(f, f.par[x])) == Full(f, x)
  {
    FullIsDistinct(f, x);
    var skip := if f.rank[x] > 0 then 1 else 0;
    assert Full(f, x)[skip..] == Path(f, f.par[x]);
    ExtendedOverlap(Full(f, x), c, skip);
  }

  /** Splicing root `a` under `p` keeps all chains good when the chain of `a` is extended towards `p`. */
  lemma SpliceChains(f: Forest, a: nat, p: nat, g: Forest, chains: seq<seq<nat>>, ext: seq<nat>)
    requires Ordered(f) && Graded(f) && f.nextId <= |f.tree| && Ordered(g)
    requires a < |f.rank| && p < |f.rank| && f.par[a] == -1 && f.rank[a] < f.rank[p]
    requires g == Splice(f, a, p) && ChainsOk(f, chains)
    requires ext <= Path(f, p) && |ext| > 0
    ensures ChainsOk(g, chains[a := chains[a] + ext])
  {
    var after := chains[a := chains[a] + ext];
    forall x | 0 <= x < |after|
      ensures ChainOk(g, x, after[x])
    {
      SpliceChain(f, a, p, g, chains[x], ext, x);
    }
  }

  lemma TailOfSum(s: seq<nat>, t: seq<nat>)
    requires |s| > 0
    ensures (s + t)[1..] == s[1..] + t
  {
  }

  lemma SpliceFull(f: Forest, a: nat, p: nat, g: Forest, x: nat)
    requires Ordered(f) && Graded(f) && f.nextId <= |f.tree| && Ordered(g)
    requires a < |f.rank| && p < |f.rank| && f.par[a] == -1 && f.rank[a] < f.rank[p]
    requires g == Splice(f, a, p) && x < |f.rank|
    ensures Full(g, x) == if Root(f, x) == a then Full(f, x) + Path(f, p) else Full(f, x)
  {
    if Root(f, x) != a {
      SplicePathElsewhere(f, a, p, g, x);
    } else {
      SplicePath(f, a, p, g, x);
      TailOfSum(Path(f, x), Path(f, p));
    }
  }

  lemma PrefixGrows(c: seq<nat>, full: seq<nat>, ext: seq<nat>, up: seq<nat>)
    requires c <= full && ext <= up
    ensures c <= full + up
    ensures |c| == |full| ==> c + ext <= full + up
  {
  }

  lemma SpliceChain(f: Forest, a: nat, p: nat, g: Forest, c: seq<nat>, ext: seq<nat>, x: nat)
    requires Ordered(f) && Graded(f) && f.nextId <= |f.tree| && Ordered(g)
    requires a < |f.rank| && p < |f.rank| && f.par[a] == -1 && f.rank[a] < f.rank[p]
    requires g == Splice(f, a, p) && x < |f.rank| && ChainOk(f, x, c)
    requires ext <= Path(f, p) && |ext| > 0
    ensures ChainOk(g, x, if x == a then c + ext else c)
  {
    SpliceFull(f, a, p, g, x);
    PrefixGrows(c, Full(f, x), ext, Path(f, p));
    if x == a {
      assert |c| == |Full(f, a)|;
    } else if f.par[x] == -1 {
      assert Root(f, x) == x;
    }
  }

  /** Raising root `i` keeps all chains good once `i` itself is on its own chain. */
  lemma RaiseChains(f: Forest, i: nat, j: nat, g: Forest, chains: seq<seq<nat>>)
    requires Ordered(f) && Graded(f) && f.nextId <= |f.tree| && Ordered(g)
    requires i < |f.rank| && f.par[i] == -1 && |f.sib| == |f.rank|
    requires g == Raise(f, i, j) && ChainsOk(f, chains)
    ensures ChainsOk(g, if chains[i] == [] then chains[i := [i]] else chains)
  {
    var after := if chains[i] == [] then chains[i := [i]] else chains;
    forall x | 0 <= x < |after|
      ensures ChainOk(g, x, after[x])
    {
      RaiseEffect(f, i, j, g, x);
      assert ChainOk(f, x, chains[x]);
    }
  }

  lemma FullEnds(f: Forest, y: nat)
    requires Ordered(f) && y < |f.rank| && (f.par[y] != -1 || 0 < f.rank[y])
    ensures |Full(f, y)| > 0 && Full(f, y)[|Full(f, y)| - 1] == Root(f, y)
  {
    assert |Path(f, y)| == 1 ==> Root(f, y) == y;
  }

  lemma FullAt(f: Forest, y: nat, idx: nat)
    requires Ordered(f) && y < |f.rank| && idx < |Full(f, y)|
    ensures Full(f, y)[idx] < |f.rank| && Root(f, Full(f, y)[idx]) == Root(f, y)
    ensures Full(f, y)[idx..] == Path(f, Full(f, y)[idx])
  {
    var skip := if f.rank[y] > 0 then 0 else 1;
    PathAt(f, y, idx + skip);
    assert Full(f, y)[idx..] == Path(f, y)[idx + skip..];
  }

  lemma FullOwner(f: Forest, y: nat, k: nat, idx: nat)
    requires Ordered(f) && y < |f.rank| && idx < |Full(f, y)| && k > 0
    requires Full(f, y)[idx] < |f.rank| && k <= f.rank[Full(f, y)[idx]]
    requires idx > 0 ==> Full(f, y)[idx - 1] < |f.rank| && f.rank[Full(f, y)[idx - 1]] < k
    ensures k <= f.rank[Root(f, y)] && Owner(f, y, k) == Full(f, y)[idx]
  {
    var skip := if f.rank[y] > 0 then 0 else 1;
    OwnerIsFirstOnPath(f, y, k, idx + skip);
  }

  /** The first element whose rank exceeds that of `a` owns the level just above it. */
  lemma InsertPoint(f: Forest, y: nat, a: nat, chain: seq<nat>, idx: nat)
    requires Ordered(f) && y < |f.rank| && a < |f.rank| && f.rank[a] < f.rank[Root(f, y)]
    requires chain == Full(f, y) && idx <= |chain|
    requires forall b :: 0 <= b < |chain| ==> chain[b] < |f.rank|
    requires forall b :: 0 <= b < idx ==> f.rank[chain[b]] <= f.rank[a]
    requires idx < |chain| ==> f.rank[a] < f.rank[chain[idx]]
    ensures idx < |chain|
    ensures Owner(f, y, f.rank[a] + 1) == chain[idx] && Root(f, chain[idx]) == Root(f, y)
    ensures chain[idx..] == Path(f, chain[idx])
  {
    FullEnds(f, y);
    FullAt(f, y, idx);
    FullOwner(f, y, f.rank[a] + 1, idx);
  }

  /** The chain of a lone root shares no element with the path of another tree. */
  lemma ForeignPathAppends(f: Forest, a: nat, p: nat, c: seq<nat>)
    requires Ordered(f) && a < |f.rank| && p < |f.rank| && Root(f, p) != a && f.par[a] == -1
    requires c == [] || c == [a]
    ensures Extended(c, Path(f, p)) == c + Path(f, p)
  {
    FullIsDistinct(f, p);
    forall v | v in Path(f, p)
      ensures v != a
    {
      var b :| 0 <= b < |Path(f, p)| && Path(f, p)[b] == v;
      PathAt(f, p, b);
    }
    ExtendedAppends(c, Path(f, p));
  }

  /** The test that opens `_find` recognises exactly the roots, and otherwise finds the parent. */
  lemma FindGuard(f: Forest, i: nat, c: seq<nat>)
    requires Ordered(f) && i < |f.rank| && ChainOk(f, i, c)
    ensures (c == [] || (|c| == 1 && c[0] == i)) <==> f.par[i] == -1
    ensures f.par[i] != -1 ==> |c| > (if c[0] == i then 1 else 0)
    ensures f.par[i] != -1 ==> (if c[0] == i then c[1] else c[0]) == f.par[i]
  {
    if f.par[i] != -1 {
      var p := Path(f, i);
      assert p == [i] + Path(f, f.par[i]);
      assert p[0] == i && p[1] == f.par[i] && f.par[i] != i;
      if f.rank[i] > 0 {
        assert c[0] == p[0] && c[1] == p[1];
      } else {
        assert c[0] == p[1..][0];
      }
    }
  }

  /** What `_find` answers for `i`. */
  ghost function Answer(f: Forest, i: nat): (c: seq<nat>)
    requires Ordered(f) && i < |f.rank|
    ensures |c| > 0 && c[|c| - 1] == Root(f, i)
  {
    if f.par[i] == -1 then [i] else Full(f, i)
  }

  lemma FindStep(f: Forest, chains: seq<seq<nat>>, i: nat)
    requires Ordered(f) && ChainsOk(f, chains) && i < |chains| && f.par[i] != -1
    ensures Extended(chains[i], Answer(f, f.par[i])) == Full(f, i)
    ensures ChainsOk(f, chains[i := Full(f, i)]) && chains[i] <= Full(f, i)
  {
    assert ChainOk(f, i, chains[i]);
    assert Answer(f, f.par[i]) == Path(f, f.par[i]);
    ExtendCompletes(f, i, chains[i]);
  }

  lemma ChainAt(f: Forest, chains: seq<seq<nat>>, i: nat)
    requires Ordered(f) && ChainsOk(f, chains) && i < |f.rank|
    ensures |chains| == |f.rank| == |f.par| && ChainOk(f, i, chains[i])
    ensures f.par[i] != -1 ==> 0 <= f.par[i] < |f.rank| && f.rank[i] < f.rank[f.par[i]] <= f.nextId
  {
  }

  ghost function Initial(n: nat): (f: Forest)
    ensures |f.rank| == n && Ordered(f)
  {
    Forest(seq(n, _ => 0), seq(n, i => [i]), seq(if n == 0 then 1 else 2 * n - 1, _ => -1), n,
           seq(n, _ => -1), seq(n, i => i), seq(n, _ => 0), seq(n, _ => []))
  }

  lemma InitialGraded(n: nat)
    ensures Graded(Initial(n))
  {
    hide Ordered;
  }

  lemma InitialEdges(n: nat)
    ensures Ordered(Initial(n)) && Graded(Initial(n)) && Edges(Initial(n))
  {
    hide Graded, Ordered;
    InitialGraded(n);
  }

  lemma InitialSiblings(n: nat)
    ensures Siblings(Initial(n))
  {
    hide Ordered;
  }

  lemma InitialInv(n: nat)
    ensures Inv(Initial(n))
  {
    hide Graded, Ordered, Edges, Siblings;
    InitialEdges(n);
    InitialSiblings(n);
  }

  lemma InitialCounts(n: nat)
    ensures Counted(Initial(n), 0) && Classifies(RootSeq(Initial(n)), [])
    ensures ChainsOk(Initial(n), seq(n, _ => []))
  {
    var f := Initial(n);
    assert Roots(f) == Below(n);
    NoLinks(n);
    assert RootSeq(f) == seq(n, x => x);
    assert forall x :: 0 <= x < n ==> |Path(f, x)| == 1;
  }

  lemma RootChain(f: Forest, a: nat, c: seq<nat>)
    requires Ordered(f) && a < |f.rank| && f.par[a] == -1 && ChainOk(f, a, c)
    ensures c == Full(f, a) == if f.rank[a] > 0 then [a] else []
  {
  }

  /** A chain that `_find` completed stays complete while chains only grow. */
  lemma StillComplete(f: Forest, chains: seq<seq<nat>>, before: seq<nat>, y: nat)
    requires Ordered(f) && ChainsOk(f, chains) && y < |chains|
    requires before <= chains[y] && (f.par[y] != -1 ==> before == Full(f, y))
    ensures chains[y] == Full(f, y)
  {
    assert ChainOk(f, y, chains[y]);
  }

  /** The chain bookkeeping of the splicing branches. */
  lemma SpliceBranch(f: Forest, a: nat, y: nat, chains: seq<seq<nat>>, idx: nat, g: Forest)
    requires Inv(f) && ChainsOk(f, chains) && a < |f.rank| && y < |f.rank| && f.par[a] == -1
    requires f.rank[a] < f.rank[Root(f, y)] && chains[y] == Full(f, y) && idx < |chains[y]|
    requires chains[y][idx] < |f.rank| && f.rank[a] < f.rank[chains[y][idx]]
    requires Root(f, chains[y][idx]) == Root(f, y) && chains[y][idx..] == Path(f, chains[y][idx])
    requires g == Splice(f, a, chains[y][idx])
    ensures Ordered(g) && ChainsOk(g, chains[a := Extended(chains[a], chains[y][idx..])])
  {
    var p := chains[y][idx];
    assert ChainOk(f, a, chains[a]);
    RootChain(f, a, chains[a]);
    SpliceKeepsInv(f, a, p, g);
    ForeignPathAppends(f, a, p, chains[a]);
    SpliceChains(f, a, p, g, chains, Path(f, p));
  }

  lemma LastOfOwn(f: Forest, i: nat, chains: seq<seq<nat>>, own: seq<seq<nat>>)
    requires Ordered(f) && ChainsOk(f, chains) && i < |f.rank| && chains[i] == Full(f, i)
    requires var r := Root(f, i); own == if chains[r] == [] then chains[r := [r]] else chains
    ensures |own[i]| > 0 && own[i][|own[i]| - 1..] == [Root(f, i)]
  {
    hide Root, Path, Full, ChainOk;
    var r := Root(f, i);
    assert ChainOk(f, r, chains[r]);
    RootChain(f, r, chains[r]);
    if i != r {
      FullEnds(f, i);
      assert own[i] == chains[i];
      LastAlone(own[i]);
    } else {
      assert own[i] == [r];
    }
  }

  lemma LastAlone(c: seq<nat>)
    requires |c| > 0
    ensures c[|c| - 1..] == [c[|c| - 1]]
  {
  }

  /** The chain bookkeeping of the equal-rank branch. */
  lemma JoinBranch(f: Forest, i: nat, j: nat, chains: seq<seq<nat>>, own: seq<seq<nat>>, g: Forest)
    requires Inv(f) && f.nextId < |f.tree| && ChainsOk(f, chains)
    requires i < |f.rank| && j < |f.rank| && i != j
    requires f.par[i] == -1 && f.par[j] == -1 && f.rank[i] == f.rank[j]
    requires own == if chains[i] == [] then chains[i := [i]] else chains
    requires g == Join(f, i, j)
    ensures Ordered(g) && ChainsOk(g, own[j := Extended(own[j], [i])])
  {
    var h := Raise(f, i, j);
    RaiseKeepsGrading(f, i, j, h);
    RaiseChains(f, i, j, h, chains);
    SpliceKeepsGrading(h, j, i, g);
    RaiseEffect(f, i, j, h, i);
    RaiseEffect(f, i, j, h, j);
    assert ChainOk(h, j, own[j]);
    RootChain(h, j, own[j]);
    assert Path(h, i) == [i];
    ForeignPathAppends(h, j, i, own[j]);
    SpliceChains(h, j, i, g, own, [i]);
  }

  lemma NodeSizes(f: Forest, x: nat)
    requires Inv(f) && x < |f.rank|
    ensures |f.par| == |f.ids| == |f.sib| == |f.rank|
    ensures |f.ids[x]| == f.rank[x] + 1 && f.ids[x][f.rank[x]] < |f.tree| && f.nextId <= |f.tree|
  {
  }

  lemma Sizes(f: Forest, chains: seq<seq<nat>>, x: nat)
    requires Inv(f) && ChainsOk(f, chains) && x < |f.rank|
    ensures |f.par| == |f.ids| == |f.sib| == |chains| == |f.rank|
    ensures |f.ids[x]| == f.rank[x] + 1 && f.ids[x][f.rank[x]] < |f.tree| && f.nextId <= |f.tree|
    ensures ChainOk(f, x, chains[x])
  {
  }

  lemma ChainsInRange(f: Forest, y: nat)
    requires Ordered(f) && y < |f.rank|
    ensures forall b :: 0 <= b < |Full(f, y)| ==> Full(f, y)[b] < |f.rank|
  {
    forall b | 0 <= b < |Full(f, y)|
      ensures Full(f, y)[b] < |f.rank|
    {
      FullAt(f, y, b);
    }
  }

  class UnionFind {
    var rank: seq<nat>
    var parentChains: seq<seq<nat>>
    var nodeIds: seq<seq<nat>>
    var tree: seq<int>
    var nextId: nat

    ghost var par: seq<int>
    ghost var owner: seq<nat>
    ghost var level: seq<nat>
    ghost var sib: seq<seq<nat>>
    ghost var links: seq<Pair>
    ghost var merges: nat

    ghost function View(): Forest
      reads this
    {
      Forest(rank, nodeIds, tree, nextId, par, owner, level, sib)
    }

    ghost predicate Valid()
      reads this
    {
      && Inv(View())
      && ChainsOk(View(), parentChains)
      && Counted(View(), merges)
      && Classifies(RootSeq(View()), links)
      && Ranked(View(), links)
    }

    constructor (n: nat)
      ensures Valid() && View() == Initial(n) && links == [] && merges == 0
    {
      rank := seq(n, _ => 0);
      parentChains := seq(n, _ => []);
      nodeIds := seq(n, i => [i]);
      tree := seq(if n == 0 then 1 else 2 * n - 1, _ => -1);
      nextId := n;
      par := seq(n, _ => -1);
      owner := seq(n, i => i);
      level := seq(n, _ => 0);
      sib := seq(n, _ => []);
      links := [];
      merges := 0;
      new;
      InitialInv(n);
      InitialCounts(n);
      NothingRanked(Initial(n));
      assert View() == Initial(n);
    }

    /** Append the values not seen yet, in their own order. */
    method OrderedExtend(target: seq<nat>, values: seq<nat>) returns (out: seq<nat>)
      ensures out == Extended(target, values)
    {
      out := target;
      for k := 0 to |values|
        invariant Extended(out, values[k..]) == Extended(target, values)
      {
        assert values[k..][0] == values[k] && values[k..][1..] == values[k + 1..];
        if values[k] !in out {
          out := out + [values[k]];
        }
      }
    }

    /** The chain of `i`, completed up to the current root; a lone root answers with itself. */
    method Find(i: nat) returns (chain: seq<nat>)
      requires Ordered(View()) && ChainsOk(View(), parentChains) && i < |rank|
      modifies this`parentChains
      ensures ChainsOk(View(), parentChains)
      ensures |parentChains| == |old(parentChains)|
      ensures forall x :: 0 <= x < |parentChains| ==> old(parentChains)[x] <= parentChains[x]
      ensures chain == Answer(View(), i)
      ensures par[i] != -1 ==> parentChains[i] == chain
      decreases nextId - rank[i]
    {
      hide Ordered, ChainsOk, ChainOk, Path, Full, Root, Extended;
      ghost var f := View();
      ChainAt(f, parentChains, i);
      chain := parentChains[i];
      FindGuard(f, i, chain);
      if chain == [] || (|chain| == 1 && chain[0] == i) {
        return [i];
      }
      var next := if chain[0] == i then chain[1] else chain[0];
      var up := Find(next);
      ChainAt(f, parentChains, i);
      FindStep(f, parentChains, i);
      chain := OrderedExtend(parentChains[i], up);
      parentChains := parentChains[i := chain];
    }

    /** The first chain index whose rank is greater than `bound`. */
    method RankBisectRight(chain: seq<nat>, bound: nat) returns (idx: nat)
      requires forall b :: 0 <= b < |chain| ==> chain[b] < |rank|
      ensures idx <= |chain|
      ensures forall b :: 0 <= b < idx ==> rank[chain[b]] <= bound
      ensures idx < |chain| ==> bound < rank[chain[idx]]
    {
      idx := 0;
      while idx < |chain| && rank[chain[idx]] <= bound
        invariant idx <= |chain|
        invariant forall b :: 0 <= b < idx ==> rank[chain[b]] <= bound
      {
        idx := idx + 1;
      }
    }

    /** Record a merge edge in the compact parent array, with the clamp of the source. */
    method Build(i: nat, j: nat, insertPoint: Option<nat>)
      requires i < |nodeIds| == |rank| && j < |nodeIds| && nodeIds[i] != [] && nodeIds[j] != []
      requires nodeIds[i][|nodeIds[i]| - 1] < |tree| && nodeIds[j][|nodeIds[j]| - 1] < |tree|
      requires insertPoint.Some? ==> insertPoint.value < |nodeIds| && nodeIds[insertPoint.value] != []
      modifies this`tree, this`nodeIds, this`nextId
      ensures insertPoint.Some? ==>
                && nodeIds == old(nodeIds) && nextId == old(nextId)
                && var ids := nodeIds[insertPoint.value];
                   tree == old(tree)[nodeIds[i][|nodeIds[i]| - 1] :=
                     ids[if rank[i] + 1 < |ids| then rank[i] + 1 else |ids| - 1]]
      ensures insertPoint.None? ==>
                && nodeIds == old(nodeIds)[i := old(nodeIds)[i] + [old(nextId)]] && nextId == old(nextId) + 1
                && var (ti, tj) := (old(nodeIds)[i][|old(nodeIds)[i]| - 1], old(nodeIds)[j][|old(nodeIds)[j]| - 1]);
                   tree == old(tree)[ti := old(nextId)][tj := old(nextId)]
    {
      if insertPoint.Some? {
        var parentIds := nodeIds[insertPoint.value];
        var parentRankIdx := rank[i] + 1;
        if parentRankIdx >= |parentIds| {
          parentRankIdx := |parentIds| - 1;
        }
        tree := tree[nodeIds[i][|nodeIds[i]| - 1] := parentIds[parentRankIdx]];
        return;
      }
      tree := tree[nodeIds[i][|nodeIds[i]| - 1] := nextId];
      tree := tree[nodeIds[j][|nodeIds[j]| - 1] := nextId];
      nodeIds := nodeIds[i := nodeIds[i] + [nextId]];
      nextId := nextId + 1;
    }

    /**
      The two branches of `union` for different ranks: root `a` of the leaf `x` is spliced into the
      chain of `y`, at the first element that outranks it.
     */
    method SpliceInto(a: nat, root: nat, y: nat, ghost x: nat)
      requires Inv(View()) && ChainsOk(View(), parentChains)
      requires x < |rank| && y < |rank| && a == Root(View(), x) && root == Root(View(), y)
      requires rank[a] < rank[root] && parentChains[y] == Full(View(), y)
      modifies this`parentChains, this`tree, this`nodeIds, this`nextId, this`par
      ensures Inv(View()) && ChainsOk(View(), parentChains)
      ensures Absorbed(old(View()), View(), x, y)
    {
      hide Ordered, Graded, Edges, Siblings, ChainsOk, ChainOk, Absorbed, Path, Full, Owner;
      ghost var f := View();
      Sizes(f, parentChains, root);
      RootChain(f, root, parentChains[root]);
      assert f.par[a] == -1;
      parentChains := parentChains[root := if parentChains[root] == [] then [root] else parentChains[root]];
      assert parentChains == old(parentChains);
      var chain := parentChains[y];
      ChainsInRange(f, y);
      var idx: int := RankBisectRight(chain, rank[a]);
      InsertPoint(f, y, a, chain, idx);
      if idx >= |chain| {
        idx := |chain| - 1;
      }
      var insertPoint := chain[idx];
      ghost var g := Splice(f, a, insertPoint);
      SpliceBranch(f, a, y, parentChains, idx, g);
      SpliceAbsorbs(f, a, insertPoint, g, x, y, f.rank[a] + 1);
      var extended := OrderedExtend(parentChains[a], chain[idx..]);
      parentChains := parentChains[a := extended];
      BuildAt(a, root, insertPoint);
    }

    /** A merge edge below an existing node: the clamp is not needed. */
    method BuildAt(a: nat, root: nat, p: nat)
      requires Inv(View()) && a < |rank| && p < |rank| && root < |rank| && par[a] == -1 && rank[a] < rank[p]
      modifies this`tree, this`nodeIds, this`nextId, this`par
      ensures View() == Splice(old(View()), a, p)
    {
      hide Ordered, Graded, Edges, Siblings;
      NodeSizes(View(), a);
      NodeSizes(View(), p);
      NodeSizes(View(), root);
      Build(a, root, Some(p));
      par := par[a := p];
    }

    /** The branch of `union` for equal ranks: root `r` gets a fresh node above both tops. */
    method JoinRoots(r: nat, s: nat, i: nat, ghost j: nat)
      requires Inv(View()) && ChainsOk(View(), parentChains) && nextId < |tree|
      requires i < |rank| && j < |rank| && r == Root(View(), i) && s == Root(View(), j)
      requires r != s && rank[r] == rank[s] && parentChains[i] == Full(View(), i)
      modifies this`parentChains, this`rank, this`tree, this`nodeIds, this`nextId
      modifies this`par, this`owner, this`level, this`sib
      ensures Inv(View()) && ChainsOk(View(), parentChains)
      ensures Absorbed(old(View()), View(), j, i)
    {
      hide Ordered, Graded, Edges, Siblings, ChainsOk, ChainOk, Absorbed, Root, Path, Full, Owner;
      ghost var f := View();
      ghost var chains := parentChains;
      Sizes(f, chains, r);
      if parentChains[r] == [] {
        parentChains := parentChains[r := [r]];
      }
      var chain := parentChains[i];
      LastOfOwn(f, i, chains, parentChains);
      var last := if chain == [] then [] else chain[|chain| - 1..];
      ghost var g := PsiForest.Join(f, r, s);
      JoinBranch(f, r, s, chains, parentChains, g);
      JoinAbsorbs(f, r, s, g, j, i);
      var extended := OrderedExtend(parentChains[s], last);
      parentChains := parentChains[s := extended];
      BuildAbove(r, s);
    }

    /** A merge edge for two roots: both tops get the fresh node as their parent. */
    method BuildAbove(r: nat, s: nat)
      requires Inv(View()) && nextId < |tree| && r < |rank| && s < |rank| && r != s
      requires par[r] == -1 && par[s] == -1 && rank[r] == rank[s]
      modifies this`rank, this`tree, this`nodeIds, this`nextId, this`par, this`owner, this`level, this`sib
      ensures View() == PsiForest.Join(old(View()), r, s)
    {
      hide Ordered, Graded, Edges, Siblings;
      ghost var f := View();
      NodeSizes(f, r);
      NodeSizes(f, s);
      JoinKeepsEdges(f, r, s, PsiForest.Join(f, r, s));
      rank := rank[r := rank[r] + 1];
      Build(r, s, None);
      owner := owner + [r];
      level := level + [f.rank[r] + 1];
      sib := sib[r := sib[r] + [s]];
      par := par[s := r];
    }

    /** The three branches of `union`, once both chains are complete and the roots differ. */
    method Merge(i: nat, j: nat, rootI: nat, rootJ: nat)
      requires Inv(View()) && ChainsOk(View(), parentChains) && nextId < |tree|
      requires i < |rank| && j < |rank| && rootI == Root(View(), i) && rootJ == Root(View(), j)
      requires rootI != rootJ
      requires parentChains[i] == Full(View(), i) && parentChains[j] == Full(View(), j)
      modifies this`parentChains, this`rank, this`tree, this`nodeIds, this`nextId
      modifies this`par, this`owner, this`level, this`sib
      ensures Inv(View()) && ChainsOk(View(), parentChains)
      ensures if old(rank)[rootI] < old(rank)[rootJ]
              then Absorbed(old(View()), View(), i, j)
              else Absorbed(old(View()), View(), j, i)
    {
      hide Ordered, Graded, Edges, Siblings, ChainsOk, Absorbed, Full, Root;
      if rank[rootI] < rank[rootJ] {
        SpliceInto(rootI, rootJ, j, i);
      } else if rank[rootI] > rank[rootJ] {
        SpliceInto(rootJ, rootI, i, j);
      } else {
        JoinRoots(rootI, rootJ, i, j);
      }
    }

    /** Merge the trees of two ranked leaves and say whether a new edge was added. */
    method Union(i: nat, j: nat) returns (merged: bool)
      requires Valid() && i < |rank| && j < |rank|
      modifies this
      ensures Valid() && |rank| == old(|rank|) && links == old(links) + [(i, j)]
      ensures merged <==> old(Root(View(), i) != Root(View(), j))
      ensures !merged ==> View() == old(View()) && merges == old(merges)
      ensures merged ==> merges == old(merges) + 1
      ensures merged ==>
                if old(rank[Root(View(), i)] < rank[Root(View(), j)])
                then Absorbed(old(View()), View(), i, j)
                else Absorbed(old(View()), View(), j, i)
    {
      hide Ordered, Graded, Edges, Siblings, ChainsOk, Absorbed, Counted, Classifies, Ranked, Full, Root, RootSeq;
      ghost var f := View();
      ChainAt(f, parentChains, i);
      var found := Find(i);
      var rootI := found[|found| - 1];
      ghost var chainI := parentChains[i];
      found := Find(j);
      var rootJ := found[|found| - 1];
      if rootI == rootJ {
        RefusedClassifies(f, links, i, j);
        RefusedRanks(f, links, i, j);
        links := links + [(i, j)];
        return false;
      }
      StillComplete(f, parentChains, chainI, i);
      StillComplete(f, parentChains, parentChains[j], j);
      RoomForJoin(f, i, j, merges);
      ghost var (x, y) := if rank[rootI] < rank[rootJ] then (i, j) else (j, i);
      Merge(i, j, rootI, rootJ);
      AbsorbedKeeps(f, View(), x, y, links, merges, i, j);
      AbsorbedRanks(f, View(), x, y, links, i, j);
      AbsorbedSize(f, View(), x, y);
      links, merges := links + [(i, j)], merges + 1;
      return true;
    }
  }
}
