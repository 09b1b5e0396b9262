/**
  Connectivity by processed pairs, independent of any union-find: two leaves are linked when a walk
  of processed pairs, used in either direction, leads from one to the other.
 */
module PsiLinks {

  type Pair = (nat, nat)

  ghost predicate Step(links: seq<Pair>, x: nat, y: nat)
  {
    (x, y) in links || (y, x) in links
  }

  ghost predicate IsWalk(links: seq<Pair>, x: nat, w: seq<nat>, y: nat)
    decreases |w|
  {
    if w == [] then x == y else Step(links, x, w[0]) && IsWalk(links, w[0], w[1..], y)
  }

  ghost predicate Connected(links: seq<Pair>, x: nat, y: nat)
  {
    exists w :: IsWalk(links, x, w, y)
  }

  /** `cls` labels the leaves by connected component. */
  ghost predicate Classifies(cls: seq<nat>, links: seq<Pair>)
  {
    && (forall e :: e in links ==> e.0 < |cls| && e.1 < |cls|)
    && (forall x, y {:trigger Connected(links, x, y)} :: 0 <= x < |cls| && 0 <= y < |cls| ==>
          (cls[x] == cls[y] <==> Connected(links, x, y)))
  }

  lemma {:induction false} WalkConcat(links: seq<Pair>, x: nat, v: seq<nat>, y: nat, w: seq<nat>, z: nat)
    requires IsWalk(links, x, v, y) && IsWalk(links, y, w, z)
    ensures IsWalk(links, x, v + w, z)
    decreases |v|
  {
    if v == [] {
      assert v + w == w;
    } else {
      WalkConcat(links, v[0], v[1..], y, w, z);
      assert (v + w)[1..] == v[1..] + w;
    }
  }

  lemma ConnectedTransitive(links: seq<Pair>, x: nat, y: nat, z: nat)
    requires Connected(links, x, y) && Connected(links, y, z)
    ensures Connected(links, x, z)
  {
    var v :| IsWalk(links, x, v, y);
    var w :| IsWalk(links, y, w, z);
    WalkConcat(links, x, v, y, w, z);
  }

  lemma {:induction false} WalkMonotone(links: seq<Pair>, more: seq<Pair>, x: nat, w: seq<nat>, y: nat)
    requires IsWalk(links, x, w, y)
    ensures IsWalk(links + more, x, w, y)
    decreases |w|
  {
    if w != [] {
      WalkMonotone(links, more, w[0], w[1..], y);
    }
  }

  lemma ConnectedMonotone(links: seq<Pair>, more: seq<Pair>, x: nat, y: nat)
    requires Connected(links, x, y)
    ensures Connected(links + more, x, y)
  {
    var w :| IsWalk(links, x, w, y);
    WalkMonotone(links, more, x, w, y);
  }

  lemma StepConnects(links: seq<Pair>, x: nat, y: nat)
    requires Step(links, x, y)
    ensures Connected(links, x, y) && Connected(links, y, x)
  {
    assert IsWalk(links, x, [y], y);
    assert IsWalk(links, y, [x], x);
  }

  /** `after` is `before` with the classes of `i` and `j` put together, and nothing else changed. */
  ghost predicate Fuses(before: seq<nat>, after: seq<nat>, i: nat, j: nat)
    requires i < |before| && j < |before|
  {
    && |after| == |before|
    && (forall x, y :: 0 <= x < |before| && 0 <= y < |before| ==>
          (after[x] == after[y] <==>
           || before[x] == before[y]
           || (before[x] == before[i] && before[y] == before[j])
           || (before[x] == before[j] && before[y] == before[i])))
  }

  lemma {:induction false} WalkStaysInClass(cls: seq<nat>, after: seq<nat>, links: seq<Pair>, i: nat, j: nat, x: nat, w: seq<nat>, y: nat)
    requires Classifies(cls, links) && i < |cls| && j < |cls| && Fuses(cls, after, i, j)
    requires IsWalk(links + [(i, j)], x, w, y) && x < |cls| && y < |cls|
    ensures after[x] == after[y]
    decreases |w|
  {
    if w != [] {
      if Step(links, x, w[0]) {
        StepConnects(links, x, w[0]);
      }
      WalkStaysInClass(cls, after, links, i, j, w[0], w[1..], y);
    }
  }

  lemma FusedLeavesConnected(cls: seq<nat>, after: seq<nat>, links: seq<Pair>, i: nat, j: nat, x: nat, y: nat)
    requires Classifies(cls, links) && i < |cls| && j < |cls| && Fuses(cls, after, i, j)
    requires x < |cls| && y < |cls| && after[x] == after[y]
    ensures Connected(links + [(i, j)], x, y)
  {
    var more := links + [(i, j)];
    assert (i, j) in more;
    StepConnects(more, i, j);
    if cls[x] == cls[y] {
      ConnectedMonotone(links, [(i, j)], x, y);
    } else if cls[x] == cls[i] {
      ConnectedMonotone(links, [(i, j)], x, i);
      ConnectedMonotone(links, [(i, j)], j, y);
      ConnectedTransitive(more, x, i, j);
      ConnectedTransitive(more, x, j, y);
    } else {
      ConnectedMonotone(links, [(i, j)], x, j);
      ConnectedMonotone(links, [(i, j)], i, y);
      ConnectedTransitive(more, x, j, i);
      ConnectedTransitive(more, x, i, y);
    }
  }

  /** Processing one more pair means fusing exactly the two classes it touches. */
  lemma FuseClassifies(cls: seq<nat>, after: seq<nat>, links: seq<Pair>, i: nat, j: nat)
    requires Classifies(cls, links) && i < |cls| && j < |cls| && Fuses(cls, after, i, j)
    ensures Classifies(after, links + [(i, j)])
  {
    forall x, y | 0 <= x < |cls| && 0 <= y < |cls|
      ensures after[x] == after[y] <==> Connected(links + [(i, j)], x, y)
    {
      if after[x] == after[y] {
        FusedLeavesConnected(cls, after, links, i, j, x, y);
      }
      if Connected(links + [(i, j)], x, y) {
        var w :| IsWalk(links + [(i, j)], x, w, y);
        WalkStaysInClass(cls, after, links, i, j, x, w, y);
      }
    }
  }

  /** With no pair processed, every leaf is linked to itself alone. */
  lemma NoLinks(n: nat)
    ensures Classifies(seq(n, x => x), [])
  {
    forall x, y | 0 <= x < n && 0 <= y < n
      ensures x == y <==> Connected([], x, y)
    {
      assert IsWalk([], x, [], x);
    }
  }
}
