/**
  What the ranking decides. The rank of a connected component, and where two leaves meet, are
  functions of the pairs processed so far, independent of any union-find.
 */
module PsiRanking {
  import opened PsiForest
  import opened PsiLinks
  import opened PsiMerge

  function Joined(a: nat, b: nat): nat
  {
    if a == b then a + 1 else if a < b then b else a
  }

  /** The rank of the component of `x`: joining two components of equal rank makes it grow by one. */
  ghost function CompRank(links: seq<Pair>, x: nat): nat
    decreases |links|
  {
    if links == [] then 0
    else
      var before, (i, j) := links[..|links| - 1], links[|links| - 1];
      if Connected(before, i, j) || !(Connected(before, x, i) || Connected(before, x, j)) then CompRank(before, x)
      else Joined(CompRank(before, i), CompRank(before, j))
  }

  /** The level at which a pair that joins two components makes its leaves meet. */
  ghost function MeetLevel(links: seq<Pair>, k: nat): nat
    requires k < |links|
  {
    var a, b := CompRank(links[..k], links[k].0), CompRank(links[..k], links[k].1);
    1 + (if a < b then a else b)
  }

  /** The `k`-th pair joins two components. */
  ghost predicate Novel(links: seq<Pair>, k: nat)
    requires k < |links|
  {
    !Connected(links[..k], links[k].0, links[k].1)
  }

  /** Every pair that joined two components made its leaves meet at that level. */
  ghost predicate Met(tree: seq<int>, links: seq<Pair>)
  {
    forall k :: 0 <= k < |links| && Novel(links, k) ==> MeetAt(tree, links[k].0, links[k].1, MeetLevel(links, k))
  }

  ghost predicate RankAgrees(f: Forest, links: seq<Pair>)
    requires Ordered(f)
  {
    forall x :: 0 <= x < |f.rank| ==> f.rank[Root(f, x)] == CompRank(links, x)
  }

  /** The forest is what the pairs make of it. */
  ghost predicate Ranked(f: Forest, links: seq<Pair>)
    requires Ordered(f)
  {
    RankAgrees(f, links) && Met(f.tree, links)
  }

  lemma NothingRanked(f: Forest)
    requires Ordered(f) && forall x :: 0 <= x < |f.rank| ==> f.rank[x] == 0
    ensures Ranked(f, [])
  {
  }

  // ---------- one more pair ----------

  lemma LastPair(links: seq<Pair>, e: Pair, k: nat)
    requires k <= |links|
    ensures (links + [e])[..k] == links[..k] && (links + [e])[..|links|] == links
    ensures k < |links| ==> (links + [e])[k] == links[k]
  {
  }

  lemma CompRankNext(links: seq<Pair>, i: nat, j: nat, x: nat)
    ensures var more := CompRank(links + [(i, j)], x);
            if Connected(links, i, j) || !(Connected(links, x, i) || Connected(links, x, j)) then more == CompRank(links, x)
            else more == Joined(CompRank(links, i), CompRank(links, j))
  {
    LastPair(links, (i, j), 0);
  }

  lemma MetNext(tree: seq<int>, links: seq<Pair>, e: Pair)
    requires Met(tree, links)
    requires !Connected(links, e.0, e.1) ==> MeetAt(tree, e.0, e.1, MeetLevel(links + [e], |links|))
    ensures Met(tree, links + [e])
  {
    hide Connected, MeetAt, CompRank;
    forall k | 0 <= k < |links| + 1 && Novel(links + [e], k)
      ensures MeetAt(tree, (links + [e])[k].0, (links + [e])[k].1, MeetLevel(links + [e], k))
    {
      LastPair(links, e, k);
      if k < |links| {
        assert Novel(links, k);
      }
    }
  }

  lemma ConnectedIsSameRoot(f: Forest, links: seq<Pair>, x: nat, y: nat)
    requires Ordered(f) && Classifies(RootSeq(f), links) && x < |f.rank| && y < |f.rank|
    ensures Connected(links, x, y) <==> Root(f, x) == Root(f, y)
  {
  }

  /** A pair inside one component changes nothing. */
  lemma RefusedRanks(f: Forest, links: seq<Pair>, i: nat, j: nat)
    requires Ordered(f) && Classifies(RootSeq(f), links) && Ranked(f, links) && i < |f.rank| && j < |f.rank| && Root(f, i) == Root(f, j)
    ensures Ranked(f, links + [(i, j)])
  {
    hide Met, Classifies, CompRank, Connected, Ordered, Root;
    ConnectedIsSameRoot(f, links, i, j);
    MetNext(f.tree, links, (i, j));
    forall x | 0 <= x < |f.rank|
      ensures f.rank[Root(f, x)] == CompRank(links + [(i, j)], x)
    {
      CompRankNext(links, i, j, x);
    }
  }

  lemma MetStays(tree: seq<int>, more: seq<int>, links: seq<Pair>)
    requires |tree| == |more| && (forall v :: 0 <= v < |tree| && tree[v] != -1 ==> more[v] == tree[v]) && Met(tree, links)
    ensures Met(more, links)
  {
    hide MeetAt, CompRank, Connected;
    forall k | 0 <= k < |links| && Novel(links, k)
      ensures MeetAt(more, links[k].0, links[k].1, MeetLevel(links, k))
    {
      MeetKept(tree, more, links[k].0, links[k].1, MeetLevel(links, k));
    }
  }

  /** What `Absorbed` says about ranks and meeting, with its parts at hand. */
  lemma AbsorbedParts(f: Forest, g: Forest, x: nat, y: nat)
    requires Ordered(f) && Ordered(g) && x < |f.rank| && y < |f.rank| && Absorbed(f, g, x, y)
    ensures var a, b := f.rank[Root(f, x)], f.rank[Root(f, y)];
            && Root(f, x) != Root(f, y) && a <= b && |g.rank| == |f.rank| && |g.tree| == |f.tree|
            && MeetAt(g.tree, x, y, a + 1)
            && (forall v :: 0 <= v < |f.tree| && f.tree[v] != -1 ==> g.tree[v] == f.tree[v])
  {
  }

  lemma AbsorbedRank(f: Forest, g: Forest, x: nat, y: nat, z: nat)
    requires Ordered(f) && Ordered(g) && x < |f.rank| && y < |f.rank| && Absorbed(f, g, x, y) && z < |f.rank|
    ensures z < |g.rank|
    ensures var a, b := f.rank[Root(f, x)], f.rank[Root(f, y)];
            g.rank[Root(g, z)] == if Root(f, z) == Root(f, x) || Root(f, z) == Root(f, y) then Joined(a, b) else f.rank[Root(f, z)]
  {
    assert Root(g, z) in Roots(g);
  }

  lemma MeetSymmetric(tree: seq<int>, x: int, y: int, l: nat)
    requires MeetAt(tree, x, y, l)
    ensures MeetAt(tree, y, x, l)
  {
  }

  /** A pair that joins two components: ranks and meetings are what the pairs say. */
  lemma AbsorbedRanks(f: Forest, g: Forest, x: nat, y: nat, links: seq<Pair>, i: nat, j: nat)
    requires Ordered(f) && Ordered(g) && x < |f.rank| && y < |f.rank|
    requires Classifies(RootSeq(f), links) && Ranked(f, links) && Absorbed(f, g, x, y)
    requires (i, j) == (x, y) || (i, j) == (y, x)
    ensures Ranked(g, links + [(i, j)])
  {
    hide Met, Classifies, CompRank, Connected, Ordered, Root, Absorbed, MeetAt;
    AbsorbedParts(f, g, x, y);
    ConnectedIsSameRoot(f, links, i, j);
    MetStays(f.tree, g.tree, links);
    LastPair(links, (i, j), |links|);
    if (i, j) == (y, x) {
      MeetSymmetric(g.tree, x, y, f.rank[Root(f, x)] + 1);
    }
    MetNext(g.tree, links, (i, j));
    forall z | 0 <= z < |g.rank|
      ensures g.rank[Root(g, z)] == CompRank(links + [(i, j)], z)
    {
      AbsorbedRank(f, g, x, y, z);
      CompRankNext(links, i, j, z);
      ConnectedIsSameRoot(f, links, z, i);
      ConnectedIsSameRoot(f, links, z, j);
    }
  }
}
