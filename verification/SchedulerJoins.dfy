/**
  When a task raises although no component fails: a join is started by one predecessor, and before
  its task begins a branching node puts another predecessor into the path that has no task yet. On
  workflows whose critical joins follow the first branching nodes this can happen, for some
  selection, if and only if some branch target meets a path that does not come through its branching
  node.
 */
module SchedulerJoins {
  import opened WorkflowGraph
  import opened Scheduler
  import opened SchedulerBound
  import opened SchedulerProgress
  import opened SchedulerNesting
  import opened SchedulerResults
  import opened SchedulerStaging
  import opened SchedulerTotal

  ghost predicate FromStart(w: Workflow, p: seq<Id>)
  {
    Walk(GraphOf(w), p) && Previous(w.edges, p[0]) == []
  }

  /** Every path from a start node to `v` goes through `b` before. */
  ghost predicate Through(w: Workflow, b: Id, v: Id)
  {
    forall p :: FromStart(w, p) && p[|p| - 1] == v ==> b in p[..|p| - 1]
  }

  /** `n` joins the target `p` of a branching node `b` with another predecessor `v`. */
  ghost predicate Meets(w: Workflow, b: Id, p: Id, n: Id, v: Id)
  {
    b in w.branching && p in Targets(w.edges, b) && p in Previous(w.edges, n) && v in Previous(w.edges, n) && v != p
  }

  /** Whatever meets a branch target comes through its branching node, as when branches meet again. */
  ghost predicate Merging(w: Workflow)
  {
    forall b, p, n, v :: Meets(w, b, p, n, v) ==> Through(w, b, v)
  }

  // ---------- merging workflows raise nothing ----------

  lemma {:induction false} WayIsWalk(w: Workflow, way: seq<Id>, n: Id)
    requires WellFormed(w) && Way(w, way, n)
    ensures FromStart(w, way + [n])
    decreases |way|
  {
    if way == [] {
      assert way + [n] == [n];
    } else {
      var k := |way| - 1;
      WayIsWalk(w, way[..k], way[k]);
      assert way[..k] + [way[k]] == way;
      SuccessorEdge(w, way[k], n);
      EdgeOf(w, way[k], n);
      WalkAppend(GraphOf(w), way, n);
    }
  }

  lemma ThroughIsPassed(w: Workflow, b: Id, v: Id)
    requires WellFormed(w) && Through(w, b, v)
    ensures Passed(w, b, v)
  {
    forall way | Way(w, way, v)
      ensures b in way
    {
      WayIsWalk(w, way, v);
      assert (way + [v])[..|way|] == way;
      assert (way + [v])[|way + [v]| - 1] == v;
    }
  }

  /** Whatever is selected, a merging workflow is sequenced. */
  lemma MergingIsSequenced(w: Workflow)
    requires WellFormed(w) && Merging(w)
    ensures Sequenced(w)
  {
    hide Through, Passed, Way;
    forall b, p, n, v | b in w.branching && Chosen(w, b) && p in Successors(w, b) && p in Previous(w.edges, n) && n in Successors(w, v) && v != p
      ensures Passed(w, b, v)
    {
      SuccessorEdge(w, b, p);
      SuccessorEdge(w, v, n);
      assert Meets(w, b, p, n, v);
      ThroughIsPassed(w, b, v);
    }
  }

  // ---------- the race ----------

  /** The critical joins come early: only plain nodes lead to the branching node, and to the other predecessor. */
  ghost predicate EarlyJoins(w: Workflow)
  {
    forall b, p, n, v :: Meets(w, b, p, n, v) && !Through(w, b, v) ==> v !in w.branching && Early(w, v) && Early(w, b)
  }

  ghost function Stem(w: Workflow, b: Id, v: Id): set<Id>
  {
    Above(w, {b, v}) + {v}
  }

  /** What is executed first: everything that leads to `b` or `v`, and `v` itself. */
  lemma StemIsStage(w: Workflow, b: Id, v: Id)
    requires WellFormed(w) && Acyclic(GraphOf(w)) && Early(w, b) && Early(w, v) && v !in w.branching && v in w.nodes
    ensures Stage(w, Stem(w, b, v)) && forall q :: q in Previous(w.edges, b) ==> q in Stem(w, b, v)
  {
    hide Early, Above, Acyclic;
    AboveIsStage(w, {b, v});
    assert b in {b, v} && v in {b, v};
  }

  lemma StemStopsBefore(w: Workflow, b: Id, p: Id, n: Id, v: Id)
    requires WellFormed(w) && Acyclic(GraphOf(w)) && Meets(w, b, p, n, v) && v !in w.branching && Early(w, v) && Early(w, b)
    ensures var a := Stem(w, b, v);
            && v in w.nodes && n in w.nodes && b in w.nodes && n !in a && b !in a && p !in a && n != b && p != n && p != b && n !in Previous(w.edges, b)
  {
    hide Acyclic, Depth, Leads, Early, WellFormed, Reaches;
    MeetsFalls(w, b, p, n, v);
    forall x | x in Above(w, {b, v})
      ensures x !in w.branching && x != n && x != p
    {
      var y :| y in {b, v} && Leads(w, x, y);
      LeadsIsDeeper(w, x, y);
      EarlyLeads(w, x, y);
      if x == p && y == v {
        LeadsFurther(w, b, p, v);
        EarlyLeads(w, b, v);
      }
    }
  }

  lemma MeetsFalls(w: Workflow, b: Id, p: Id, n: Id, v: Id)
    requires WellFormed(w) && Acyclic(GraphOf(w)) && Meets(w, b, p, n, v)
    ensures b in Previous(w.edges, p) && b in w.nodes && n in w.nodes && v in w.nodes && n !in Previous(w.edges, b)
    ensures var g := GraphOf(w); Depth(g, n) < Depth(g, p) < Depth(g, b) && Depth(g, n) < Depth(g, v)
  {
    PreviousIn(w.edges, p, b);
    TargetsIn(w.edges, b, p);
    hide Acyclic, Depth, Leads;
    EarlierIsDeeper(w, b, p);
    EarlierIsDeeper(w, p, n);
    EarlierIsDeeper(w, v, n);
    PreviousLeads(w, b, p);
    PreviousLeads(w, v, n);
    if n in Previous(w.edges, b) {
      EarlierIsDeeper(w, n, b);
    }
  }

  lemma {:induction false} CheckMarks(w: Workflow, inPath: set<Id>, completed: set<Id>, ms: seq<Id>, p: Id)
    requires p in ms
    ensures p in Check(w, true, inPath, completed, ms).0
    decreases |ms|
  {
    CheckPath(w, true, inPath + {ms[0]}, completed, ms[1..]);
    if p in ms[1..] {
      CheckMarks(w, inPath + {ms[0]}, completed, ms[1..], p);
    }
  }

  /** After the stem, `n` and `b` are called and nobody works on them. */
  lemma StemIdle(w: Workflow, s: State, b: Id, p: Id, n: Id, v: Id)
    requires WellFormed(w) && Acyclic(GraphOf(w)) && Meets(w, b, p, n, v) && v !in w.branching && Early(w, v) && Early(w, b)
    requires Settled(w, s, Stem(w, b, v))
    ensures Idle(w, s, n) && Idle(w, s, b)
  {
    hide Early, Above, Acyclic, Settled, Idle;
    StemStopsBefore(w, b, p, n, v);
    StemIsStage(w, b, v);
    PlainChooses(w, v, n);
    assert v in Stem(w, b, v);
    SettledIsIdle(w, s, Stem(w, b, v), n);
    if Previous(w.edges, b) != [] {
      PlainChooses(w, Previous(w.edges, b)[0], b);
    }
    SettledIsIdle(w, s, Stem(w, b, v), b);
  }

  lemma StillIdle(w: Workflow, s: State, s1: State, b: Id, n: Id, c: nat)
    requires Idle(w, s, b) && Started(s, s1, n, c, Created) && b != n && n !in Previous(w.edges, b)
    ensures Idle(w, s1, b)
  {
    var d :| 0 <= d < |s.calls| && s.calls[d].node == b && s.calls[d].phase == Pending;
    assert s1.calls[d] == s.calls[d];
  }

  lemma BeginRaises(w: Workflow, s: State, s1: State, s2: State, a: set<Id>, b: Id, p: Id, n: Id, c: nat, c2: nat)
    requires Settled(w, s, a) && Started(s, s1, n, c, Created) && Executed(w, s1, s2, b, c2)
    requires b in w.branching && p in Successors(w, b) && p in Previous(w.edges, n)
    requires p !in a && p != n && p != b && n != b
    ensures Enabled(w, s2, Begin(n)) && IsTask(Apply(w, s2, Begin(n)), n, Failed)
  {
    CheckMarks(w, s1.inPath + {b}, s1.completed + {b}, Successors(w, b), p);
    assert p in ActivePrevious(w, s2, n) && p !in s2.task;
  }

  /** The join is started by `v`; before its task begins, `b` puts `p` into the path. */
  lemma EarlyRaises(w: Workflow, b: Id, p: Id, n: Id, v: Id) returns (steps: seq<Step>)
    requires WellFormed(w) && Acyclic(GraphOf(w)) && Meets(w, b, p, n, v) && v !in w.branching && Early(w, v) && Early(w, b)
    requires p in Successors(w, b)
    ensures Runs(w, Start(w), steps) && NoFail(steps) && IsTask(After(w, Start(w), steps), n, Failed)
  {
    hide WellFormed, Acyclic, Early, Settled, Idle, Started, Executed, Stem, Stage, Start, Enabled, Apply, Successors, Meets, NoFail, Runs, After;
    var first, s, c := StartJoin(w, b, p, n, v);
    var s1 := Apply(w, s, Acquire(c));
    StemIdle(w, s, b, p, n, v);
    StemStopsBefore(w, b, p, n, v);
    StillIdle(w, s, s1, b, n, c);
    NoSelfLoop(w, b);
    var mid, c2 := Execute(w, s1, b);
    var s2 := After(w, s1, mid);
    MeetsParts(w, b, p, n, v);
    BeginRaises(w, s, s1, s2, Stem(w, b, v), b, p, n, c, c2);
    Nothing(w, Apply(w, s2, Begin(n)));
    Step(w, s2, Begin(n), []);
    Both(w, s1, mid, [Begin(n)] + []);
    Step(w, s, Acquire(c), mid + ([Begin(n)] + []));
    Both(w, Start(w), first, [Acquire(c)] + (mid + ([Begin(n)] + [])));
    steps := first + ([Acquire(c)] + (mid + ([Begin(n)] + [])));
  }

  lemma MeetsParts(w: Workflow, b: Id, p: Id, n: Id, v: Id)
    requires Meets(w, b, p, n, v)
    ensures b in w.branching && p in Previous(w.edges, n)
  {
  }

  /** The stem is executed and `n` is about to be acquired. */
  lemma StartJoin(w: Workflow, b: Id, p: Id, n: Id, v: Id) returns (steps: seq<Step>, s: State, c: nat)
    requires WellFormed(w) && Acyclic(GraphOf(w)) && Meets(w, b, p, n, v) && v !in w.branching && Early(w, v) && Early(w, b)
    ensures Runs(w, Start(w), steps) && NoFail(steps) && s == After(w, Start(w), steps) && Settled(w, s, Stem(w, b, v))
    ensures Enabled(w, s, Acquire(c)) && Started(s, Apply(w, s, Acquire(c)), n, c, Created)
  {
    hide WellFormed, Acyclic, Early, Settled, Idle, Started, Stem, Stage, Start, Enabled, Apply, Successors, Meets, NoFail, Runs, After;
    StemStopsBefore(w, b, p, n, v);
    StemIsStage(w, b, v);
    SettledStart(w);
    steps := ExecuteStage(w, Start(w), {}, Stem(w, b, v));
    s := After(w, Start(w), steps);
    StemIdle(w, s, b, p, n, v);
    c := AcquireIdle(w, s, n);
  }

  lemma Nothing(w: Workflow, s: State)
    ensures Runs(w, s, []) && NoFail([]) && After(w, s, []) == s
  {
  }

  lemma Step(w: Workflow, s: State, step: Step, rest: seq<Step>)
    requires Enabled(w, s, step) && !step.Fail? && Runs(w, Apply(w, s, step), rest) && NoFail(rest)
    ensures Runs(w, s, [step] + rest) && NoFail([step] + rest) && After(w, s, [step] + rest) == After(w, Apply(w, s, step), rest)
  {
    hide Runs, After;
    RunsPrepend(w, s, step, rest);
  }

  lemma Both(w: Workflow, s: State, a: seq<Step>, b: seq<Step>)
    requires Runs(w, s, a) && NoFail(a) && Runs(w, After(w, s, a), b) && NoFail(b)
    ensures Runs(w, s, a + b) && NoFail(a + b) && After(w, s, a + b) == After(w, After(w, s, a), b)
  {
    hide Runs, After;
    RunsConcat(w, s, a, b);
  }

  lemma NoSelfLoop(w: Workflow, b: Id)
    requires WellFormed(w) && Acyclic(GraphOf(w))
    ensures b !in Previous(w.edges, b)
  {
    if b in Previous(w.edges, b) {
      EarlierIsDeeper(w, b, b);
    }
  }

  // ---------- exactly when ----------

  /** No component fails and still something has raised. */
  ghost predicate RaisingRun(w: Workflow, steps: seq<Step>)
  {
    Runs(w, Start(w), steps) && NoFail(steps) && !NoFailure(After(w, Start(w), steps))
  }

  ghost predicate CanRaise(w: Workflow)
  {
    exists steps :: RaisingRun(w, steps)
  }

  lemma MergingNeverRaises(w: Workflow)
    requires WellFormed(w) && Merging(w)
    ensures !CanRaise(w)
  {
    hide Merging, WellFormed, Runs, NoFail, NoFailure;
    MergingIsSequenced(w);
    if steps :| RaisingRun(w, steps) {
      RunsWithoutFailure(w, steps);
    }
  }

  /** The same with the given selection: where the start of a join is not sequenced, it comes early. */
  ghost predicate EarlyRaces(w: Workflow)
  {
    forall b, p, n, v ::
      b in w.branching && Chosen(w, b) && p in Successors(w, b) && p in Previous(w.edges, n) && n in Successors(w, v) && v != p && !Passed(w, b, v) ==>
        v !in w.branching && Early(w, v) && Early(w, b)
  }

  /** With the given selection a task raises without a component failure if and only if not sequenced. */
  lemma RaisesUnlessSequenced(w: Workflow)
    requires WellFormed(w) && Acyclic(GraphOf(w)) && EarlyRaces(w)
    ensures CanRaise(w) <==> !Sequenced(w)
  {
    hide WellFormed, Acyclic, Runs, After, NoFail, Early, Passed, Chosen, Successors;
    if CanRaise(w) && Sequenced(w) {
      var steps :| RaisingRun(w, steps);
      RunsWithoutFailure(w, steps);
    }
    if !Sequenced(w) {
      var b, p, n, v :|
        b in w.branching && Chosen(w, b) && p in Successors(w, b) && p in Previous(w.edges, n) && n in Successors(w, v) && v != p && !Passed(w, b, v);
      SuccessorEdge(w, b, p);
      SuccessorEdge(w, v, n);
      var steps := EarlyRaises(w, b, p, n, v);
      assert RaisingRun(w, steps);
    }
  }

  /**
    The condition that a caller can check: for some selection a task raises without a component
    failure if and only if something meets a branch target without coming through its branching node.
   */
  lemma RaisesUnlessMerging(w: Workflow)
    requires WellFormed(w) && Acyclic(GraphOf(w)) && EarlyJoins(w)
    ensures (exists sel :: CanRaise(With(w, sel))) <==> !Merging(w)
  {
    if Merging(w) {
      forall sel
        ensures !CanRaise(With(w, sel))
      {
        MergingUnder(w, sel);
        SameUnder(w, sel, "");
        MergingNeverRaises(With(w, sel));
      }
    } else {
      var b, p, n, v :| Meets(w, b, p, n, v) && !Through(w, b, v);
      var sel := SelectTowards(w, b, p);
      RaisesUnder(w, sel, b, p, n, v);
    }
  }

  lemma SelectTowards(w: Workflow, b: Id, p: Id) returns (sel: Selection)
    requires p in Targets(w.edges, b)
    ensures p in Successors(With(w, sel), b)
  {
    TargetsIn(w.edges, b, p);
    var e :| e in w.edges && e.source == b && e.target == p;
    sel := _ => e.port;
    PortTargetsIn(w.edges, b, e.port, p);
  }

  lemma RaisesUnder(w: Workflow, sel: Selection, b: Id, p: Id, n: Id, v: Id)
    requires WellFormed(w) && Acyclic(GraphOf(w)) && Meets(w, b, p, n, v) && v !in w.branching && Early(w, v) && Early(w, b)
    requires p in Successors(With(w, sel), b)
    ensures CanRaise(With(w, sel))
  {
    hide WellFormed, Acyclic, Early, Runs, After;
    var x := With(w, sel);
    SameUnder(w, sel, v);
    SameUnder(w, sel, b);
    assert Meets(x, b, p, n, v);
    var steps := EarlyRaises(x, b, p, n, v);
    assert RaisingRun(x, steps);
  }

  lemma MergingUnder(w: Workflow, sel: Selection)
    requires Merging(w)
    ensures Merging(With(w, sel))
  {
    var x := With(w, sel);
    SameUnder(w, sel, "");
    forall b, p, n, v | Meets(x, b, p, n, v)
      ensures Through(x, b, v)
    {
      assert Meets(w, b, p, n, v);
    }
  }

  // ---------- total correctness, whatever is selected ----------

  /**
    Branch targets have a sole predecessor and branches only meet again: then, for every selection,
    every run in which no component fails can be continued to one that returns.
   */
  lemma EverySelectionCompletes(w: Workflow, sel: Selection, steps: seq<Step>) returns (more: seq<Step>)
    requires WellFormed(w) && Acyclic(GraphOf(w)) && SolePredecessor(w) && Merging(w)
    requires Runs(With(w, sel), Start(With(w, sel)), steps) && NoFail(steps)
    ensures var x := With(w, sel);
            Runs(x, Start(x), steps + more) && NoFail(steps + more) && Returned(After(x, Start(x), steps + more))
  {
    GoodUnder(w, sel);
    more := RunsComplete(With(w, sel), steps);
  }

  /** And whichever way such a run ends, exactly the chosen nodes have completed, each once. */
  lemma EverySelectionReturns(w: Workflow, sel: Selection, steps: seq<Step>, n: Id)
    requires WellFormed(w) && Acyclic(GraphOf(w)) && SolePredecessor(w) && Merging(w)
    requires Runs(With(w, sel), Start(With(w, sel)), steps) && NoFail(steps)
    requires !CanStep(With(w, sel), After(With(w, sel), Start(With(w, sel)), steps))
    ensures var x := With(w, sel);
            var s := After(x, Start(x), steps);
            && Returned(s) && (n in s.completed <==> Chosen(x, n)) && s.completions[n] == (if Chosen(x, n) then 1 else 0)
  {
    GoodUnder(w, sel);
    RunsReturn(With(w, sel), steps, n);
  }

  lemma GoodUnder(w: Workflow, sel: Selection)
    requires WellFormed(w) && Acyclic(GraphOf(w)) && SolePredecessor(w) && Merging(w)
    ensures var x := With(w, sel); WellFormed(x) && Acyclic(GraphOf(x)) && Covered(x) && Sequenced(x)
  {
    hide Merging, Sequenced, Covered, Acyclic, WellFormed;
    SameUnder(w, sel, "");
    MergingUnder(w, sel);
    SoleIsCovered(With(w, sel));
    MergingIsSequenced(With(w, sel));
  }
}
