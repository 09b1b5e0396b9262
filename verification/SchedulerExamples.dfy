/**
  Small workflows behind a plain start node, with all ports connected, as the validator admits them:
  two that go wrong, and the common one that does not.
 */
module SchedulerExamples {
  import opened WorkflowGraph
  import opened Scheduler
  import opened SchedulerBound
  import opened SchedulerProgress
  import opened SchedulerResults
  import opened SchedulerStaging
  import opened SchedulerOrder
  import opened SchedulerRaces
  import opened SchedulerTotal
  import opened SchedulerJoins

  /**
    What the validator demands and the selection delivers: no cycle, plain start nodes, branch
    targets that follow branching nodes only, and a selected port that is connected.
   */
  ghost predicate Admitted(w: Workflow)
  {
    && WellFormed(w) && Acyclic(GraphOf(w))
    && (forall n :: n in w.nodes && Previous(w.edges, n) == [] ==> n !in w.branching)
    && (forall b, m, q :: b in w.branching && m in Targets(w.edges, b) && q in Previous(w.edges, m) ==> q in w.branching)
    && (forall b :: b in w.branching ==> Successors(w, b) != [])
  }

  // ---------- the first branching nodes ----------

  lemma LastEdge(g: Graph, p: seq<Id>)
    requires Walk(g, p) && |p| >= 2
    ensures Edge(g, p[|p| - 2], p[|p| - 1])
  {
    WalkSuffix(g, p, |p| - 2);
    var t := p[|p| - 2..];
    assert t[0] == p[|p| - 2] && t[1] == p[|p| - 1];
  }

  lemma EdgeIsPrevious(w: Workflow, v: Id, m: Id)
    requires Edge(GraphOf(w), v, m)
    ensures v in Previous(w.edges, m)
  {
    TargetsIn(w.edges, v, m);
    PreviousIn(w.edges, m, v);
  }

  /** Successors of plain start nodes are early. */
  lemma SecondIsEarly(w: Workflow, x: Id)
    requires forall p :: p in Previous(w.edges, x) ==> Previous(w.edges, p) == [] && p !in w.branching
    ensures Early(w, x)
  {
    var g := GraphOf(w);
    forall a | a != x && Reaches(g, a, x)
      ensures a !in w.branching
    {
      var p :| Walk(g, p) && p[0] == a && p[|p| - 1] == x;
      LastEdge(g, p);
      EdgeIsPrevious(w, p[|p| - 2], x);
      if |p| > 2 {
        WalkStep(g, p, |p| - 3);
        EdgeIsPrevious(w, p[|p| - 3], p[|p| - 2]);
      }
    }
  }

  lemma WalkStep(g: Graph, p: seq<Id>, i: nat)
    requires Walk(g, p) && i + 1 < |p|
    ensures Edge(g, p[i], p[i + 1])
  {
    WalkSuffix(g, p, i);
    assert p[i..][0] == p[i] && p[i..][1] == p[i + 1];
  }

  /** A node whose only predecessor is `b` is reached through `b`. */
  lemma SoleIsThrough(w: Workflow, b: Id, v: Id)
    requires b in Previous(w.edges, v) && forall p :: p in Previous(w.edges, v) ==> p == b
    ensures Through(w, b, v)
  {
    forall p | FromStart(w, p) && p[|p| - 1] == v
      ensures b in p[..|p| - 1]
    {
      if |p| > 1 {
        LastEdge(GraphOf(w), p);
        EdgeIsPrevious(w, p[|p| - 2], v);
        assert p[..|p| - 1][|p| - 2] == b;
      }
    }
  }

  /** A numbering of the nodes that falls along all edges excludes cycles. */
  lemma Numbered(w: Workflow, order: map<Id, nat>)
    requires (forall n :: n in w.nodes ==> n in order)
    requires forall e :: e in w.edges ==> e.source in order && e.target in order && order[e.target] < order[e.source]
    ensures Acyclic(GraphOf(w))
  {
    forall v, m | Edge(GraphOf(w), v, m)
      ensures m in order && v in order && order[m] < order[v]
    {
      TargetsIn(w.edges, v, m);
    }
    RanksAcyclic(GraphOf(w), order);
  }

  // ---------- a lost wakeup ----------

  /** Two selectors lead to `m` and to `k`; the first one selects `m`, the second one `k`. */
  ghost function TwoSelectors(s: Id, a: Id, b: Id, m: Id, k: Id): Workflow
  {
    Workflow([s, a, b, m, k], {a, b},
             [Link(s, a, ""), Link(s, b, ""), Link(a, m, "true"), Link(a, k, "false"), Link(b, m, "true"), Link(b, k, "false")],
             n => if n == a then "true" else "false")
  }

  ghost predicate Five(a: Id, b: Id, c: Id, d: Id, e: Id)
  {
    && a != b && a != c && a != d && a != e && b != c && b != d && b != e && c != d && c != e && d != e
  }

  /** Which of six edges lead where. */
  lemma SixEdges(edges: seq<Link>, x: Id, y: Id)
    requires |edges| == 6
    ensures x in Previous(edges, y) <==>
            || (edges[0].source == x && edges[0].target == y) || (edges[1].source == x && edges[1].target == y)
            || (edges[2].source == x && edges[2].target == y) || (edges[3].source == x && edges[3].target == y)
            || (edges[4].source == x && edges[4].target == y) || (edges[5].source == x && edges[5].target == y)
  {
    hide Previous;
    PreviousIn(edges, y, x);
    if e :| e in edges && e.source == x && e.target == y {
      var i :| 0 <= i < 6 && edges[i] == e;
    }
    assert edges[0] in edges && edges[1] in edges && edges[2] in edges && edges[3] in edges && edges[4] in edges && edges[5] in edges;
  }

  lemma NoPrevious(edges: seq<Link>, n: Id)
    requires forall x :: x !in Previous(edges, n)
    ensures Previous(edges, n) == []
  {
    assert Previous(edges, n) != [] ==> Previous(edges, n)[0] in Previous(edges, n);
  }

  /** Unique nodes, joined by edges that all fall in a numbering. */
  lemma GoodGraph(w: Workflow, order: map<Id, nat>)
    requires forall i, j :: 0 <= i < j < |w.nodes| ==> w.nodes[i] != w.nodes[j]
    requires forall n :: n in w.nodes <==> n in order
    requires forall i :: 0 <= i < |w.edges| ==> Falls(order, w.edges[i])
    ensures WellFormed(w) && Acyclic(GraphOf(w))
  {
    Numbered(w, order);
  }

  lemma SixFall(edges: seq<Link>, order: map<Id, nat>)
    requires |edges| == 6 && Falls(order, edges[0]) && Falls(order, edges[1]) && Falls(order, edges[2])
    requires Falls(order, edges[3]) && Falls(order, edges[4]) && Falls(order, edges[5])
    ensures forall i :: 0 <= i < 6 ==> Falls(order, edges[i])
  {
  }

  lemma FiveNodes(nodes: seq<Id>, order: map<Id, nat>)
    requires |nodes| == 5 && Five(nodes[0], nodes[1], nodes[2], nodes[3], nodes[4])
    requires order.Keys == {nodes[0], nodes[1], nodes[2], nodes[3], nodes[4]}
    ensures forall n :: n in nodes <==> n in order
    ensures forall i, j :: 0 <= i < j < 5 ==> nodes[i] != nodes[j]
  {
    assert nodes[0] in nodes && nodes[1] in nodes && nodes[2] in nodes && nodes[3] in nodes && nodes[4] in nodes;
  }

  lemma SixNodes(nodes: seq<Id>, order: map<Id, nat>)
    requires |nodes| == 6 && Six(nodes[0], nodes[1], nodes[2], nodes[3], nodes[4], nodes[5])
    requires order.Keys == {nodes[0], nodes[1], nodes[2], nodes[3], nodes[4], nodes[5]}
    ensures forall n :: n in nodes <==> n in order
    ensures forall i, j :: 0 <= i < j < 6 ==> nodes[i] != nodes[j]
  {
    assert nodes[0] in nodes && nodes[1] in nodes && nodes[2] in nodes && nodes[3] in nodes && nodes[4] in nodes && nodes[5] in nodes;
  }

  ghost predicate Falls(order: map<Id, nat>, e: Link)
  {
    e.source in order && e.target in order && order[e.target] < order[e.source]
  }

  lemma TwoSelectorsGraph(s: Id, a: Id, b: Id, m: Id, k: Id)
    requires Five(s, a, b, m, k)
    ensures var w := TwoSelectors(s, a, b, m, k); WellFormed(w) && Acyclic(GraphOf(w))
  {
    var w, order := TwoSelectors(s, a, b, m, k), map[s := 2, a := 1, b := 1, m := 0, k := 0];
    SixFall(w.edges, order);
    FiveNodes(w.nodes, order);
    GoodGraph(w, order);
  }

  lemma TwoSelectorsPrevious(s: Id, a: Id, b: Id, m: Id, k: Id)
    requires Five(s, a, b, m, k)
    ensures var w := TwoSelectors(s, a, b, m, k);
            && Previous(w.edges, s) == []
            && (forall p, n :: p in Previous(w.edges, n) <==> (p == s && (n == a || n == b)) || ((p == a || p == b) && (n == m || n == k)))
  {
    hide Previous;
    var e := TwoSelectors(s, a, b, m, k).edges;
    forall p, n {
      SixEdges(e, p, n);
    }
    NoPrevious(e, s);
  }

  lemma TwoSelectorsChoose(s: Id, a: Id, b: Id, m: Id, k: Id)
    requires Five(s, a, b, m, k)
    ensures var w := TwoSelectors(s, a, b, m, k); m in Successors(w, a) && m !in Successors(w, b) && k in Successors(w, b)
  {
    hide PortTargets;
    var w := TwoSelectors(s, a, b, m, k);
    var e := w.edges;
    assert e[2] in e && e[5] in e;
    PortTargetsIn(e, a, "true", m);
    PortTargetsIn(e, b, "false", m);
    PortTargetsIn(e, b, "false", k);
  }

  /** An admitted workflow of the class, for which some run never executes the selected node. */
  lemma TwoSelectorsLose(s: Id, a: Id, b: Id, m: Id, k: Id)
    requires Five(s, a, b, m, k)
    ensures var w := TwoSelectors(s, a, b, m, k); Admitted(w) && SharedEarly(w) && CanLose(w)
  {
    hide Previous, Successors, Acyclic, WellFormed, CanLose, Early, Targets, Shared;
    var w := TwoSelectors(s, a, b, m, k);
    TwoSelectorsGraph(s, a, b, m, k);
    TwoSelectorsPrevious(s, a, b, m, k);
    TwoSelectorsChoose(s, a, b, m, k);
    SecondIsEarly(w, a);
    SecondIsEarly(w, b);
    forall n
      ensures Shared(w, n) ==> n == m || n == k
    {
      SharedIsTarget(w, n);
    }
    forall x, n | x in w.branching && n in Targets(w.edges, x)
      ensures x in Previous(w.edges, n)
    {
      TargetIsNext(w, x, n);
    }
    assert b in Previous(w.edges, m) && s in Previous(w.edges, a) && s in Previous(w.edges, b);
    LosesUnlessCovered(w);
  }

  lemma TargetIsNext(w: Workflow, x: Id, n: Id)
    requires n in Targets(w.edges, x)
    ensures x in Previous(w.edges, n)
  {
    TargetsIn(w.edges, x, n);
    PreviousIn(w.edges, n, x);
  }

  lemma SharedIsTarget(w: Workflow, n: Id)
    ensures Shared(w, n) ==> exists x :: x in w.branching && x in Previous(w.edges, n)
  {
    if Shared(w, n) {
      var x, v :| x in w.branching && n in Targets(w.edges, x) && v in Previous(w.edges, n) && v != x;
      TargetIsNext(w, x, n);
    }
  }

  // ---------- a task that raises on its own ----------

  /** `n` joins a plain node `v` and the target `p` of a selector `b`. */
  ghost function Join(s: Id, v: Id, b: Id, p: Id, k: Id, n: Id): Workflow
  {
    Workflow([s, v, b, p, k, n], {b},
             [Link(s, v, ""), Link(s, b, ""), Link(v, n, ""), Link(b, p, "true"), Link(b, k, "false"), Link(p, n, "")], _ => "true")
  }

  ghost predicate Six(a: Id, b: Id, c: Id, d: Id, e: Id, f: Id)
  {
    Five(a, b, c, d, e) && f != a && f != b && f != c && f != d && f != e
  }

  lemma JoinGraph(s: Id, v: Id, b: Id, p: Id, k: Id, n: Id)
    requires Six(s, v, b, p, k, n)
    ensures var w := Join(s, v, b, p, k, n); WellFormed(w) && Acyclic(GraphOf(w))
  {
    var w, order := Join(s, v, b, p, k, n), map[s := 3, v := 2, b := 2, p := 1, k := 1, n := 0];
    SixFall(w.edges, order);
    SixNodes(w.nodes, order);
    GoodGraph(w, order);
  }

  lemma JoinPrevious(s: Id, v: Id, b: Id, p: Id, k: Id, n: Id)
    requires Six(s, v, b, p, k, n)
    ensures var w := Join(s, v, b, p, k, n);
            && Previous(w.edges, s) == []
            && (forall x, y :: x in Previous(w.edges, y) <==>
                  (x == s && (y == v || y == b)) || ((x == v || x == p) && y == n) || (x == b && (y == p || y == k)))
  {
    hide Previous;
    var e := Join(s, v, b, p, k, n).edges;
    forall x, y {
      SixEdges(e, x, y);
    }
    NoPrevious(e, s);
  }

  lemma JoinChooses(s: Id, v: Id, b: Id, p: Id, k: Id, n: Id)
    requires Six(s, v, b, p, k, n)
    ensures var w := Join(s, v, b, p, k, n); p in Successors(w, b)
  {
    hide PortTargets;
    var e := Join(s, v, b, p, k, n).edges;
    assert e[3] in e;
    PortTargetsIn(e, b, "true", p);
  }

  /** The selector, its target, the join and the plain node are the only critical ones. */
  lemma JoinMeets(s: Id, v: Id, b: Id, p: Id, k: Id, n: Id)
    requires Six(s, v, b, p, k, n)
    ensures var w := Join(s, v, b, p, k, n);
            && Meets(w, b, p, n, v) && (forall c, x, y, z :: Meets(w, c, x, y, z) ==> c == b && x == p && y == n && z == v)
  {
    hide Previous, Targets;
    var w := Join(s, v, b, p, k, n);
    JoinPrevious(s, v, b, p, k, n);
    TargetIff(w, b, p);
    assert p in Previous(w.edges, n) && v in Previous(w.edges, n);
    forall c, x, y, z | Meets(w, c, x, y, z)
      ensures c == b && x == p && y == n && z == v
    {
      TargetIff(w, c, x);
    }
  }

  lemma TargetIff(w: Workflow, x: Id, y: Id)
    ensures y in Targets(w.edges, x) <==> x in Previous(w.edges, y)
  {
    TargetsIn(w.edges, x, y);
    PreviousIn(w.edges, y, x);
  }

  lemma JoinAdmitted(s: Id, v: Id, b: Id, p: Id, k: Id, n: Id)
    requires Six(s, v, b, p, k, n)
    ensures var w := Join(s, v, b, p, k, n); Admitted(w) && SolePredecessor(w) && Early(w, v) && Early(w, b)
  {
    hide Previous, Targets, Acyclic, WellFormed, Early, Successors;
    var w := Join(s, v, b, p, k, n);
    JoinGraph(s, v, b, p, k, n);
    JoinPrevious(s, v, b, p, k, n);
    JoinChooses(s, v, b, p, k, n);
    SecondIsEarly(w, v);
    SecondIsEarly(w, b);
    forall x, y {
      TargetIff(w, x, y);
    }
    forall e | e in w.edges
      ensures e.source in Previous(w.edges, e.target)
    {
      PreviousIn(w.edges, e.target, e.source);
    }
  }

  /**
    An admitted workflow of the class in which every branch target has a sole predecessor: a run in
    which no component fails raises.
   */
  lemma JoinRaises(s: Id, v: Id, b: Id, p: Id, k: Id, n: Id)
    requires Six(s, v, b, p, k, n)
    ensures var w := Join(s, v, b, p, k, n); Admitted(w) && EarlyJoins(w) && SolePredecessor(w) && !Merging(w) && CanRaise(w)
  {
    hide Previous, Acyclic, WellFormed, Early, Through, Runs, After, Meets, Successors, SolePredecessor, NoFail;
    var w := Join(s, v, b, p, k, n);
    JoinAdmitted(s, v, b, p, k, n);
    JoinMeets(s, v, b, p, k, n);
    JoinChooses(s, v, b, p, k, n);
    var steps := EarlyRaises(w, b, p, n, v);
    assert RaisingRun(w, steps);
    if Merging(w) {
      MergingNeverRaises(w);
    }
  }

  // ---------- branches that meet again ----------

  /** The branches of a selector meet again in `e`. */
  ghost function IfElse(s: Id, b: Id, p: Id, q: Id, e: Id, sel: Selection): Workflow
  {
    Workflow([s, b, p, q, e], {b}, 
             [Link(s, b, ""), Link(b, p, "true"), Link(b, q, "false"), Link(b, q, "true_1"), Link(p, e, ""), Link(q, e, "")], sel)
  }

  lemma IfElseGraph(s: Id, b: Id, p: Id, q: Id, e: Id, sel: Selection)
    requires Five(s, b, p, q, e)
    ensures var w := IfElse(s, b, p, q, e, sel); WellFormed(w) && Acyclic(GraphOf(w))
  {
    var w, order := IfElse(s, b, p, q, e, sel), map[s := 3, b := 2, p := 1, q := 1, e := 0];
    SixFall(w.edges, order);
    FiveNodes(w.nodes, order);
    GoodGraph(w, order);
  }

  lemma IfElsePrevious(s: Id, b: Id, p: Id, q: Id, e: Id, sel: Selection)
    requires Five(s, b, p, q, e)
    ensures var w := IfElse(s, b, p, q, e, sel);
            forall x, y :: x in Previous(w.edges, y) <==> (x == s && y == b) || (x == b && (y == p || y == q)) || ((x == p || x == q) && y == e)
  {
    hide Previous;
    var l := IfElse(s, b, p, q, e, sel).edges;
    forall x, y {
      SixEdges(l, x, y);
    }
  }

  /** In general: `b` is the only branching node, its targets follow it alone, and only they meet. */
  lemma OneForkMerges(w: Workflow, b: Id, p: Id, q: Id)
    requires w.branching == {b} && b in Previous(w.edges, p) && b in Previous(w.edges, q)
    requires forall x :: x in Previous(w.edges, p) || x in Previous(w.edges, q) ==> x == b
    requires forall c, x, n, v :: Meets(w, c, x, n, v) ==> v == p || v == q
    ensures Merging(w)
  {
    hide Previous, Through, Meets;
    SoleIsThrough(w, b, p);
    SoleIsThrough(w, b, q);
    forall c, x, n, v | Meets(w, c, x, n, v)
      ensures Through(w, c, v)
    {
      MeetsParts(w, c, x, n, v);
    }
  }

  lemma IfElseMerges(s: Id, b: Id, p: Id, q: Id, e: Id, sel: Selection)
    requires Five(s, b, p, q, e)
    ensures Merging(IfElse(s, b, p, q, e, sel))
  {
    hide Previous, Targets, Through, Merging;
    var w := IfElse(s, b, p, q, e, sel);
    IfElsePrevious(s, b, p, q, e, sel);
    forall c, x, n, v | Meets(w, c, x, n, v)
      ensures v == p || v == q
    {
      TargetIff(w, c, x);
    }
    OneForkMerges(w, b, p, q);
  }

  lemma IfElseIsSole(s: Id, b: Id, p: Id, q: Id, e: Id, sel: Selection)
    requires Five(s, b, p, q, e)
    ensures SolePredecessor(IfElse(s, b, p, q, e, sel))
  {
    hide Previous;
    var w := IfElse(s, b, p, q, e, sel);
    IfElsePrevious(s, b, p, q, e, sel);
    forall l | l in w.edges
      ensures l.source in Previous(w.edges, l.target)
    {
      PreviousIn(w.edges, l.target, l.source);
    }
  }

  /** Whatever the selector selects, the guarantees of `RunsReturn` and `RunsComplete` apply. */
  lemma IfElseIsSafe(s: Id, b: Id, p: Id, q: Id, e: Id, sel: Selection)
    requires Five(s, b, p, q, e)
    ensures var w := IfElse(s, b, p, q, e, sel); WellFormed(w) && Acyclic(GraphOf(w)) && Merging(w) && Covered(w) && Sequenced(w)
  {
    hide Acyclic, WellFormed, Merging, Sequenced, Covered, SolePredecessor;
    IfElseGraph(s, b, p, q, e, sel);
    IfElseMerges(s, b, p, q, e, sel);
    IfElseIsSole(s, b, p, q, e, sel);
    SoleIsCovered(IfElse(s, b, p, q, e, sel));
    MergingIsSequenced(IfElse(s, b, p, q, e, sel));
  }

  // ---------- a predecessor that is not waited for ----------

  /** Two ways from `s` to `n`, the longer one through `a` and `c`; no branching node. */
  ghost function Detour(s: Id, a: Id, c: Id, b: Id, n: Id, k: Id): Workflow
  {
    Workflow([s, a, c, b, n, k], {},
             [Link(s, a, ""), Link(a, c, ""), Link(c, n, ""), Link(s, b, ""), Link(b, n, ""), Link(n, k, "")], _ => "")
  }

  lemma DetourGraph(s: Id, a: Id, c: Id, b: Id, n: Id, k: Id)
    requires Six(s, a, c, b, n, k)
    ensures var w := Detour(s, a, c, b, n, k); WellFormed(w) && Acyclic(GraphOf(w))
  {
    var w, order := Detour(s, a, c, b, n, k), map[s := 4, a := 3, c := 2, b := 2, n := 1, k := 0];
    SixFall(w.edges, order);
    SixNodes(w.nodes, order);
    GoodGraph(w, order);
  }

  lemma DetourStage(s: Id, a: Id, c: Id, b: Id, n: Id, k: Id)
    requires Six(s, a, c, b, n, k)
    ensures var w := Detour(s, a, c, b, n, k);
            Stage(w, {s, b}) && Callable(w, {s, b}, n) && c in Previous(w.edges, n) && n in w.nodes
  {
    hide Previous, Successors;
    var w := Detour(s, a, c, b, n, k);
    forall x, y {
      SixEdges(w.edges, x, y);
    }
    assert b in Previous(w.edges, n);
    PlainChooses(w, b, n);
    assert w.nodes[0] == s && w.nodes[3] == b && w.nodes[4] == n;
  }

  /** Without failure and without branching, `n` completes before its predecessor `c` has been started. */
  lemma DetourOvertaken(s: Id, a: Id, c: Id, b: Id, n: Id, k: Id) returns (steps: seq<Step>)
    requires Six(s, a, c, b, n, k)
    ensures var w := Detour(s, a, c, b, n, k);
            && WellFormed(w) && Acyclic(GraphOf(w)) && c in Previous(w.edges, n)
            && Runs(w, Start(w), steps) && NoFail(steps)
            && n in After(w, Start(w), steps).completed && c !in After(w, Start(w), steps).task
  {
    hide Previous, WellFormed, Acyclic, Stage, Callable, Start, Runs, After, NoFail;
    DetourGraph(s, a, c, b, n, k);
    DetourStage(s, a, c, b, n, k);
    steps := CompletesEarly(Detour(s, a, c, b, n, k), {s, b}, n, c);
  }
}
