/** The ranking in the tree of objects: two leaves of a pair that joined components meet where it says. */
module PsiGrowth {
  import opened PsiForest
  import opened PsiLinks
  import opened PsiRanking
  import opened PsiTree
  import opened PsiStructure
  import opened PsiBuild
  import opened PsiLayers

  /** The root of `a` hangs `l` levels below the root of the shape. */
  ghost predicate Down(s: Shape, a: PsiNode, l: nat)
    decreases l
  {
    if l == 0 then s.node == a else exists i :: 0 <= i < |s.kids| && Down(s.kids[i], a, l - 1)
  }

  /** The child at which a climb passes. */
  lemma KidOnClimb(f: Forest, local: map<nat, PsiNode>, ss: seq<Shape>, u: nat, v: nat) returns (i: nat)
    requires Layout(f, local, ss) && u < f.nextId && v < f.nextId && f.tree[u] == v
    ensures |ss| <= v && i < |KidShapes(f, local, ss, v)| && KidShapes(f, local, ss, v)[i] == ShapeOf(f, local, ss, u)
  {
    ParentEntry(f, u);
    KidsComplete(f.tree, v, f.nextId, u);
    var cs := Kids(f.tree, v, f.nextId);
    i :| 0 <= i < |cs| && cs[i] == u;
  }

  /** Climbing `l` levels in the parent array is hanging `l` levels below in the tree. */
  lemma {:induction false} ClimbIsDown(f: Forest, local: map<nat, PsiNode>, ss: seq<Shape>, x: nat, l: nat, v: nat)
    requires Layout(f, local, ss) && x < |ss| && v < f.nextId && Climb(f.tree, x, l) == v
    ensures Down(ShapeOf(f, local, ss, v), ss[x].node, l)
    decreases l
  {
    if l > 0 {
      ClimbLevel(f, x, l - 1);
      var u := Climb(f.tree, x, l - 1);
      ClimbIsDown(f, local, ss, x, l - 1, u);
      var i := KidOnClimb(f, local, ss, u, v);
      assert ShapeOf(f, local, ss, v).kids[i] == ShapeOf(f, local, ss, u);
    }
  }

  /** The tree of an id below another one is a part of its tree. */
  lemma {:induction false} UnderIsSub(f: Forest, local: map<nat, PsiNode>, ss: seq<Shape>, u: nat, v: nat)
    requires Layout(f, local, ss) && Under(f, u, v)
    ensures ShapeOf(f, local, ss, u) in Subs(ShapeOf(f, local, ss, v))
    decreases f.level[v]
  {
    if u != v {
      var c := UnderKid(f, u, v);
      UnderIsSub(f, local, ss, u, c);
      var i := KidOnClimb(f, local, ss, c, v);
      SubsAllAt(KidShapes(f, local, ss, v), i);
    }
  }

  /** A leaf in the tree of an id is under that id. */
  lemma LeafHome(f: Forest, local: map<nat, PsiNode>, ss: seq<Shape>, x: nat, c: nat)
    requires Layout(f, local, ss) && Separate(f, local, ss) && x < |ss| && c < f.nextId
    requires ss[x].node in Nodes(ShapeOf(f, local, ss, c))
    ensures Under(f, x, c)
  {
    var u := NodeHome(f, local, ss, c, ss[x].node);
    assert ss[x].node in Own(local, ss, x);
    OwnMeets(f, local, ss, u, x, ss[x].node);
  }

  lemma KidHoldsOne(f: Forest, local: map<nat, PsiNode>, ss: seq<Shape>, x: nat, y: nat, l: nat, v: nat, i: nat)
    requires Layout(f, local, ss) && Separate(f, local, ss) && x < |ss| && y < |ss| && |ss| <= v < f.nextId
    requires MeetAt(f.tree, x, y, l) && Climb(f.tree, x, l) == v && i < |KidShapes(f, local, ss, v)|
    ensures var k := KidShapes(f, local, ss, v)[i]; !(ss[x].node in Nodes(k) && ss[y].node in Nodes(k))
  {
    var c := Kids(f.tree, v, f.nextId)[i];
    KidsLevel(f, v, c);
    ClimbLevel(f, x, l);
    LeafLevel(f, x);
    LeafLevel(f, y);
    var k := KidShapes(f, local, ss, v)[i];
    if ss[x].node in Nodes(k) && ss[y].node in Nodes(k) {
      LeafHome(f, local, ss, x, c);
      LeafHome(f, local, ss, y, c);
    }
  }

  /**
    A pair of the ranking that joined two components: in the tree, the smallest part that contains
    both leaves has them exactly as many levels down as the ranking says.
   */
  lemma GrownMeets(t: Shape, ss: seq<Shape>, pairs: seq<Pair>, g: Growth, k: nat) returns (part: Shape)
    requires Grown(t, ss, pairs, g) && k < g.used && Novel(pairs[..g.used], k)
    requires pairs[k].0 < |ss| && pairs[k].1 < |ss|
    ensures var (x, y, l) := (pairs[k].0, pairs[k].1, MeetLevel(pairs[..g.used], k));
            && part in Subs(t) && Down(part, ss[x].node, l) && Down(part, ss[y].node, l)
            && (forall i :: 0 <= i < |part.kids| ==> !(ss[x].node in Nodes(part.kids[i]) && ss[y].node in Nodes(part.kids[i])))
  {
    var f, links := g.forest, pairs[..g.used];
    var x, y, l := pairs[k].0, pairs[k].1, MeetLevel(links, k);
    assert links[k] == pairs[k];
    assert MeetAt(f.tree, x, y, l);
    hide Ranked, JustConnects, MeetAt, Novel, Separate, Layout, Nodes, MeetLevel;
    part := MeetPart(t, ss, f, g.local, x, y, l);
  }

  lemma MeetPart(t: Shape, ss: seq<Shape>, f: Forest, local: map<nat, PsiNode>, x: nat, y: nat, l: nat) returns (part: Shape)
    requires |ss| >= 2 && Layout(f, local, ss) && Separate(f, local, ss) && Roots(f) == {Root(f, 0)} && t == ShapeOf(f, local, ss, TopId(f))
    requires x < |ss| && y < |ss| && l > 0 && MeetAt(f.tree, x, y, l)
    ensures part in Subs(t) && Down(part, ss[x].node, l) && Down(part, ss[y].node, l)
    ensures forall i :: 0 <= i < |part.kids| ==> !(ss[x].node in Nodes(part.kids[i]) && ss[y].node in Nodes(part.kids[i]))
  {
    ClimbLevel(f, x, l);
    LeafLevel(f, x);
    var v := Climb(f.tree, x, l);
    LeafLevel(f, v);
    part := ShapeOf(f, local, ss, v);
    ClimbIsDown(f, local, ss, x, l, v);
    ClimbIsDown(f, local, ss, y, l, v);
    AllUnderTop(f, Root(f, 0), v);
    UnderIsSub(f, local, ss, v, TopId(f));
    forall i | 0 <= i < |part.kids|
      ensures !(ss[x].node in Nodes(part.kids[i]) && ss[y].node in Nodes(part.kids[i]))
    {
      KidHoldsOne(f, local, ss, x, y, l, v, i);
    }
  }
}
