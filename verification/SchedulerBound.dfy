/** Every run of the engine is finite: a measure falls with each step, failures included. */
module SchedulerBound {
  import opened WorkflowGraph
  import opened Scheduler

  /** Node ids are unique, and edges join nodes. */
  ghost predicate WellFormed(w: Workflow)
  {
    && (forall i, j :: 0 <= i < j < |w.nodes| ==> w.nodes[i] != w.nodes[j])
    && (forall e :: e in w.edges ==> e.source in w.nodes && e.target in w.nodes)
  }

  lemma {:induction false} TargetsIn(edges: seq<Link>, v: Id, m: Id)
    ensures m in Targets(edges, v) <==> exists e :: e in edges && e.source == v && e.target == m
    decreases |edges|
  {
    if edges != [] {
      var n := |edges| - 1;
      TargetsIn(edges[..n], v, m);
      assert edges == edges[..n] + [edges[n]];
    }
  }

  lemma {:induction false} PortTargetsIn(edges: seq<Link>, v: Id, port: string, m: Id)
    ensures m in PortTargets(edges, v, port) <==> exists e :: e in edges && e.source == v && e.target == m && e.port == port
    decreases |edges|
  {
    if edges != [] {
      var n := |edges| - 1;
      PortTargetsIn(edges[..n], v, port, m);
      assert edges == edges[..n] + [edges[n]];
    }
  }

  lemma {:induction false} PreviousIn(edges: seq<Link>, m: Id, p: Id)
    ensures p in Previous(edges, m) <==> exists e :: e in edges && e.source == p && e.target == m
    decreases |edges|
  {
    if edges != [] {
      var n := |edges| - 1;
      PreviousIn(edges[..n], m, p);
      assert edges == edges[..n] + [edges[n]];
    }
  }

  /** A selected successor is joined by an edge. */
  lemma SuccessorEdge(w: Workflow, v: Id, m: Id)
    requires m in Successors(w, v)
    ensures exists e :: e in w.edges && e.source == v && e.target == m
    ensures v in Previous(w.edges, m) && m in Targets(w.edges, v)
  {
    if v in w.branching {
      PortTargetsIn(w.edges, v, w.selected(v), m);
    } else {
      TargetsIn(w.edges, v, m);
    }
    PreviousIn(w.edges, m, v);
    TargetsIn(w.edges, v, m);
  }

  /** The chosen successors are the targets of the edges that a plain node has, or that leave the selected port. */
  lemma SuccessorExactly(w: Workflow, v: Id, m: Id)
    ensures m in Successors(w, v) <==>
            exists e :: e in w.edges && e.source == v && e.target == m && (v in w.branching ==> e.port == w.selected(v))
  {
    PortTargetsIn(w.edges, v, w.selected(v), m);
    TargetsIn(w.edges, v, m);
  }

  // ---------- calls and tasks stay inside the workflow ----------

  ghost predicate Inside(w: Workflow, s: State)
  {
    && (forall c :: 0 <= c < |s.calls| ==> s.calls[c].node in w.nodes)
    && (forall n :: n in s.task ==> n in w.nodes)
  }

  lemma {:induction false} CheckShrinks(w: Workflow, branching: bool, inPath: set<Id>, completed: set<Id>, ms: seq<Id>)
    ensures |Check(w, branching, inPath, completed, ms).1| <= |ms|
    ensures forall m :: m in Check(w, branching, inPath, completed, ms).1 ==> m in ms
    decreases |ms|
  {
    if ms != [] {
      CheckShrinks(w, branching, if branching then inPath + {ms[0]} else inPath, completed, ms[1..]);
    }
  }

  lemma InsideStep(w: Workflow, s: State, step: Step)
    requires WellFormed(w) && Inside(w, s) && Enabled(w, s, step)
    ensures Inside(w, Apply(w, s, step))
  {
    if step.Resume? {
      var n := s.calls[step.c].node;
      CheckShrinks(w, n in w.branching, s.inPath, s.completed, Successors(w, n));
      forall m | m in Successors(w, n)
        ensures m in w.nodes
      {
        SuccessorEdge(w, n, m);
      }
    }
  }

  lemma {:induction false} StartInside(w: Workflow, nodes: seq<Id>)
    requires forall n :: n in nodes ==> n in w.nodes
    ensures forall c :: 0 <= c < |StartCalls(w, nodes)| ==> StartCalls(w, nodes)[c].node in w.nodes
    decreases |nodes|
  {
    if nodes != [] {
      StartInside(w, nodes[..|nodes| - 1]);
    }
  }

  // ---------- the measure ----------

  function PhaseWeight(p: Phase): nat
  {
    match p case Pending => 6 case Holding => 2 case Awaiting => 1 case Ended => 0 case Raised => 0
  }

  function CallWeight(calls: seq<Call>): nat
  {
    if calls == [] then 0 else CallWeight(calls[..|calls| - 1]) + PhaseWeight(calls[|calls| - 1].phase)
  }

  function TaskWeight(s: State, n: Id): nat
  {
    if n !in s.task then 0
    else match s.task[n] case Created => 3 case Gathering(_) => 2 case Running => 1 case Succeeded => 0 case Failed => 0
  }

  function TasksWeight(s: State, nodes: seq<Id>): nat
  {
    if nodes == [] then 0 else TasksWeight(s, nodes[..|nodes| - 1]) + TaskWeight(s, nodes[|nodes| - 1])
  }

  function Budget(w: Workflow, checked: set<Id>, nodes: seq<Id>): nat
  {
    if nodes == [] then 0
    else
      var n := nodes[|nodes| - 1];
      Budget(w, checked, nodes[..|nodes| - 1]) + (if n in checked then 0 else 6 * |Successors(w, n)|)
  }

  function Measure(w: Workflow, s: State): nat
  {
    CallWeight(s.calls) + TasksWeight(s, w.nodes) + Budget(w, s.checked, w.nodes)
  }

  lemma {:induction false} CallWeightPhase(calls: seq<Call>, c: nat, p: Phase)
    requires c < |calls|
    ensures CallWeight(SetPhase(calls, c, p)) == CallWeight(calls) - PhaseWeight(calls[c].phase) + PhaseWeight(p)
    decreases |calls|
  {
    var n := |calls| - 1;
    if c == n {
      assert SetPhase(calls, c, p)[..n] == calls[..n];
    } else {
      CallWeightPhase(calls[..n], c, p);
      assert SetPhase(calls, c, p)[..n] == SetPhase(calls[..n], c, p);
    }
  }

  lemma {:induction false} CallWeightMore(calls: seq<Call>, more: seq<Call>)
    requires forall i :: 0 <= i < |more| ==> more[i].phase == Pending
    ensures CallWeight(calls + more) == CallWeight(calls) + 6 * |more|
    decreases |more|
  {
    if more == [] {
      assert calls + more == calls;
    } else {
      var n := |more| - 1;
      CallWeightMore(calls, more[..n]);
      assert (calls + more)[..|calls| + n] == calls + more[..n];
    }
  }

  /** A change of one task changes the sum by as much. */
  lemma {:induction false} TasksWeightChange(s: State, s': State, nodes: seq<Id>, n: Id)
    requires forall m :: m != n ==> TaskWeight(s, m) == TaskWeight(s', m)
    requires forall i, j :: 0 <= i < j < |nodes| ==> nodes[i] != nodes[j]
    ensures TasksWeight(s', nodes) == TasksWeight(s, nodes) + (if n in nodes then TaskWeight(s', n) - TaskWeight(s, n) else 0)
    decreases |nodes|
  {
    if nodes != [] {
      var k := |nodes| - 1;
      TasksWeightChange(s, s', nodes[..k], n);
      assert nodes == nodes[..k] + [nodes[k]];
    }
  }

  lemma {:induction false} BudgetSpent(w: Workflow, checked: set<Id>, nodes: seq<Id>, n: Id)
    requires n !in checked
    requires forall i, j :: 0 <= i < j < |nodes| ==> nodes[i] != nodes[j]
    ensures Budget(w, checked, nodes) == Budget(w, checked + {n}, nodes) + (if n in nodes then 6 * |Successors(w, n)| else 0)
    decreases |nodes|
  {
    if nodes != [] {
      var k := |nodes| - 1;
      BudgetSpent(w, checked, nodes[..k], n);
      assert nodes == nodes[..k] + [nodes[k]];
    }
  }

  lemma FallsAcquire(w: Workflow, s: State, c: nat)
    requires WellFormed(w) && Safe(s) && Inside(w, s) && Enabled(w, s, Acquire(c))
    ensures Measure(w, Apply(w, s, Acquire(c))) < Measure(w, s)
  {
    var s', n := Apply(w, s, Acquire(c)), s.calls[c].node;
    CallWeightPhase(s.calls, c, s'.calls[c].phase);
    TasksWeightChange(s, s', w.nodes, n);
  }

  lemma FallsTask(w: Workflow, s: State, step: Step)
    requires WellFormed(w) && Inside(w, s) && Enabled(w, s, step)
    requires step.Begin? || step.Proceed? || step.Finish? || step.Fail?
    ensures Measure(w, Apply(w, s, step)) < Measure(w, s)
  {
    TasksWeightChange(s, Apply(w, s, step), w.nodes, step.n);
  }

  lemma FallsResume(w: Workflow, s: State, c: nat)
    requires WellFormed(w) && Safe(s) && Inside(w, s) && Enabled(w, s, Resume(c))
    ensures Measure(w, Apply(w, s, Resume(c))) < Measure(w, s)
  {
    var s', n := Apply(w, s, Resume(c)), s.calls[c].node;
    var ms := Check(w, n in w.branching, s.inPath, s.completed, Successors(w, n)).1;
    CheckShrinks(w, n in w.branching, s.inPath, s.completed, Successors(w, n));
    CallWeightPhase(s.calls, c, Awaiting);
    CallWeightMore(SetPhase(s.calls, c, Awaiting), Children(ms, c));
    BudgetSpent(w, s.checked, w.nodes, n);
    TasksWeightSame(s, s', w.nodes);
  }

  lemma {:induction false} TasksWeightSame(s: State, s': State, nodes: seq<Id>)
    requires s.task == s'.task
    ensures TasksWeight(s, nodes) == TasksWeight(s', nodes)
    decreases |nodes|
  {
    if nodes != [] {
      TasksWeightSame(s, s', nodes[..|nodes| - 1]);
    }
  }

  lemma FallsRelease(w: Workflow, s: State, step: Step)
    requires Enabled(w, s, step) && (step.End? || step.Raise?)
    ensures Measure(w, Apply(w, s, step)) < Measure(w, s)
  {
    var s' := Apply(w, s, step);
    CallWeightPhase(s.calls, step.c, s'.calls[step.c].phase);
    TasksWeightSame(s, s', w.nodes);
  }

  lemma MeasureFalls(w: Workflow, s: State, step: Step)
    requires WellFormed(w) && Safe(s) && Inside(w, s) && Enabled(w, s, step)
    ensures Measure(w, Apply(w, s, step)) < Measure(w, s)
  {
    hide WellFormed, Safe, Inside, Enabled, Apply, Measure;
    match step
    case Acquire(c) => FallsAcquire(w, s, c);
    case Begin(_) => FallsTask(w, s, step);
    case Proceed(_) => FallsTask(w, s, step);
    case Finish(_) => FallsTask(w, s, step);
    case Fail(_) => FallsTask(w, s, step);
    case Resume(c) => FallsResume(w, s, c);
    case End(_) => FallsRelease(w, s, step);
    case Raise(_) => FallsRelease(w, s, step);
  }

  /** A run has at most as many steps as the measure it starts with. */
  lemma {:induction false} RunsAreFinite(w: Workflow, s: State, steps: seq<Step>)
    requires WellFormed(w) && Safe(s) && Inside(w, s) && Runs(w, s, steps)
    ensures |steps| <= Measure(w, s)
    decreases |steps|
  {
    if steps != [] {
      MeasureFalls(w, s, steps[0]);
      SafeStep(w, s, steps[0]);
      InsideStep(w, s, steps[0]);
      RunsAreFinite(w, Apply(w, s, steps[0]), steps[1..]);
    }
  }
}
