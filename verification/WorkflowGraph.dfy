/** Directed graphs of workflow nodes, walks and cycles. */
module WorkflowGraph {
  import opened Sets

  type Id = string
  type Graph = map<Id, seq<Id>>

  /** One edge of the workflow data; only edges that leave a branching node use the port. */
  datatype Link = Link(source: Id, target: Id, port: string)

  /** The targets of the edges that leave `v`, in order. */
  function Targets(edges: seq<Link>, v: Id): seq<Id>
  {
    if edges == [] then []
    else
      var n := |edges| - 1;
      Targets(edges[..n], v) + (if edges[n].source == v then [edges[n].target] else [])
  }

  ghost predicate Edge(g: Graph, v: Id, w: Id)
  {
    v in g && w in g[v]
  }

  /** Every edge leads to a node of the graph. */
  ghost predicate Closed(g: Graph)
  {
    forall v, w :: Edge(g, v, w) ==> w in g
  }

  /** A non-empty sequence of nodes joined by edges. */
  ghost predicate Walk(g: Graph, p: seq<Id>)
  {
    && p != [] && p[0] in g
    && (|p| > 1 ==> Edge(g, p[0], p[1]) && Walk(g, p[1..]))
  }

  ghost predicate IsCycle(g: Graph, c: seq<Id>)
  {
    Walk(g, c) && Edge(g, c[|c| - 1], c[0])
  }

  ghost predicate Acyclic(g: Graph)
  {
    forall c :: !IsCycle(g, c)
  }

  ghost predicate Distinct(p: seq<Id>)
  {
    forall i, j :: 0 <= i < j < |p| ==> p[i] != p[j]
  }

  ghost predicate Reaches(g: Graph, v: Id, w: Id)
  {
    exists p :: Walk(g, p) && p[0] == v && p[|p| - 1] == w
  }

  lemma {:induction false} WalkAppend(g: Graph, p: seq<Id>, w: Id)
    requires Walk(g, p) && Edge(g, p[|p| - 1], w) && w in g
    ensures Walk(g, p + [w])
    decreases |p|
  {
    if |p| > 1 {
      WalkAppend(g, p[1..], w);
      assert (p + [w])[1..] == p[1..] + [w];
    } else {
      assert (p + [w])[1..] == [w];
    }
  }

  lemma {:induction false} WalkSuffix(g: Graph, p: seq<Id>, i: nat)
    requires Walk(g, p) && i < |p|
    ensures Walk(g, p[i..])
    decreases i
  {
    if i > 0 {
      WalkSuffix(g, p[1..], i - 1);
      assert p[1..][i - 1..] == p[i..];
    } else {
      assert p[0..] == p;
    }
  }

  lemma {:induction false} WalkInside(g: Graph, p: seq<Id>, i: nat)
    requires Walk(g, p) && i < |p|
    ensures p[i] in g
    decreases i
  {
    if i > 0 {
      WalkInside(g, p[1..], i - 1);
    }
  }

  // ---------- ranks ----------

  /** A numbering of all nodes that falls along every edge. */
  ghost predicate Ranks(g: Graph, order: map<Id, nat>)
  {
    && g.Keys <= order.Keys
    && (forall v, w :: Edge(g, v, w) && v in order ==> w in order && order[w] < order[v])
  }

  lemma {:induction false} RankFalls(g: Graph, order: map<Id, nat>, p: seq<Id>)
    requires Ranks(g, order) && Walk(g, p)
    ensures p[0] in order && p[|p| - 1] in order && order[p[|p| - 1]] <= order[p[0]]
    decreases |p|
  {
    if |p| > 1 {
      RankFalls(g, order, p[1..]);
      assert Edge(g, p[0], p[1]);
    }
  }

  /** A graph with such a numbering has no cycle. */
  lemma RanksAcyclic(g: Graph, order: map<Id, nat>)
    requires Ranks(g, order)
    ensures Acyclic(g)
  {
    forall c | IsCycle(g, c)
      ensures false
    {
      RankFalls(g, order, c);
    }
  }

  lemma {:induction false} WalkConcat(g: Graph, p: seq<Id>, q: seq<Id>)
    requires Walk(g, p) && Walk(g, q) && p[|p| - 1] == q[0]
    ensures Walk(g, p + q[1..])
    decreases |p|
  {
    if |p| > 1 {
      WalkConcat(g, p[1..], q);
      assert (p + q[1..])[1..] == p[1..] + q[1..];
    } else {
      assert p + q[1..] == q;
    }
  }

  lemma ReachesTransitive(g: Graph, u: Id, v: Id, w: Id)
    requires Reaches(g, u, v) && Reaches(g, v, w)
    ensures Reaches(g, u, w)
  {
    var p :| Walk(g, p) && p[0] == u && p[|p| - 1] == v;
    var q :| Walk(g, q) && q[0] == v && q[|q| - 1] == w;
    WalkConcat(g, p, q);
    var r := p + q[1..];
    assert r[0] == u && r[|r| - 1] == w;
  }

  lemma ReachesSelf(g: Graph, v: Id)
    requires v in g
    ensures Reaches(g, v, v)
  {
    assert Walk(g, [v]);
  }

  lemma ReachesEdge(g: Graph, v: Id, w: Id)
    requires Edge(g, v, w) && w in g
    ensures Reaches(g, v, w)
  {
    assert [v, w][1..] == [w];
    assert Walk(g, [w]);
    assert Walk(g, [v, w]);
  }

  /** How many nodes can be reached: on an acyclic graph this falls along every edge. */
  ghost function Depth(g: Graph, v: Id): nat
  {
    |ReachSet(g, v)|
  }

  ghost function ReachSet(g: Graph, v: Id): set<Id>
  {
    set w | w in g && Reaches(g, v, w)
  }

  lemma DepthFalls(g: Graph, v: Id, w: Id)
    requires Acyclic(g) && Edge(g, v, w) && w in g
    ensures Depth(g, w) < Depth(g, v)
  {
    ReachesEdge(g, v, w);
    ReachesSelf(g, v);
    forall u | u in ReachSet(g, w)
      ensures u in ReachSet(g, v)
    {
      ReachesTransitive(g, v, w, u);
    }
    if Reaches(g, w, v) {
      var p :| Walk(g, p) && p[0] == w && p[|p| - 1] == v;
      assert IsCycle(g, p);
    }
    assert v in ReachSet(g, v) && v !in ReachSet(g, w);
    SubsetSize(ReachSet(g, w), ReachSet(g, v) - {v});
  }
}
