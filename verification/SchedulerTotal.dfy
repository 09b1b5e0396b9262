/**
  Runs in which no component fails. A task raises on its own only when a predecessor was put into the
  execution path before it has a task. Where everything that starts a join comes after the branching
  node this never happens, and every run that cannot go on has returned with exactly the chosen
  nodes completed.
 */
module SchedulerTotal {
  import opened WorkflowGraph
  import opened Scheduler
  import opened SchedulerBound
  import opened SchedulerProgress
  import opened SchedulerNesting
  import opened SchedulerResults
  import opened SchedulerStaging
  import opened SchedulerOrder

  // ---------- stuck without failure ----------

  /** While nothing has failed, a run that cannot go on has returned, with exactly the chosen nodes. */
  lemma StuckIsReturned(w: Workflow, steps: seq<Step>, n: Id)
    requires WellFormed(w) && Covered(w) && Acyclic(GraphOf(w)) && Runs(w, Start(w), steps)
    requires NoFailure(After(w, Start(w), steps)) && !CanStep(w, After(w, Start(w), steps))
    ensures var s := After(w, Start(w), steps);
            && Returned(s) && (n in s.completed <==> Chosen(w, n)) && s.completions[n] == (if Chosen(w, n) then 1 else 0)
  {
    hide WellFormed, Covered, Acyclic, NoFailure, CanStep, CanGoOn, AllOver, Returned, Chosen, Start;
    NoDeadlock(w, steps);
    WithoutFailure(w, After(w, Start(w), steps));
    NoLostWakeup(w, steps, n);
  }

  // ---------- no task raises on its own ----------

  /** Every way of chosen successors to `v` goes through `b`. */
  ghost predicate Passed(w: Workflow, b: Id, v: Id)
  {
    forall way :: Way(w, way, v) ==> b in way
  }

  /**
    When a branching node puts `p` into the path, a successor `n` of `p` has not been started yet:
    whoever else starts `n` comes after the branching node. Branches may meet again.
   */
  ghost predicate Sequenced(w: Workflow)
  {
    forall b, p, n, v ::
      b in w.branching && Chosen(w, b) && p in Successors(w, b) && p in Previous(w.edges, n) && n in Successors(w, v) && v != p ==>
        Passed(w, b, v)
  }

  /** A way to `n` of checked nodes. */
  ghost predicate Trail(w: Workflow, checked: set<Id>, n: Id)
  {
    exists way :: Way(w, way, n) && forall x :: x in way ==> x in checked
  }

  /** A called node is a start node or was started by a checked node, and has a trail. */
  ghost predicate Begun(w: Workflow, s: State)
  {
    && (forall c :: 0 <= c < |s.calls| && s.calls[c].parent != -1 ==>
          0 <= s.calls[c].parent < |s.calls| && s.calls[s.calls[c].parent].node in s.checked)
    && (forall c :: 0 <= c < |s.calls| && s.calls[c].parent == -1 ==> Previous(w.edges, s.calls[c].node) == [])
    && (forall c :: 0 <= c < |s.calls| ==> Trail(w, s.checked, s.calls[c].node))
    && (forall v :: v in s.checked ==> Trail(w, s.checked, v))
  }

  /** The predecessors of a called node that are in the path have tasks. */
  ghost predicate Tasked(w: Workflow, s: State)
  {
    forall c, p :: 0 <= c < |s.calls| && p in Previous(w.edges, s.calls[c].node) && p in s.inPath ==> p in s.task
  }

  ghost predicate Prepared(w: Workflow, s: State)
  {
    Begun(w, s) && Tasked(w, s)
  }

  lemma PreparedStart(w: Workflow)
    ensures Prepared(w, Start(w))
  {
    StartPending(w, w.nodes);
    forall c | 0 <= c < |Start(w).calls|
      ensures Previous(w.edges, Start(w).calls[c].node) == [] && Trail(w, {}, Start(w).calls[c].node)
    {
      StartChosen(w, w.nodes, c);
    }
  }

  /** Steps that spawn nothing: what enters the path gets a task. */
  lemma PreparedStays(w: Workflow, s: State, step: Step)
    requires Prepared(w, s) && Enabled(w, s, step) && !step.Resume?
    ensures Prepared(w, Apply(w, s, step))
  {
    hide Trail;
    var s' := Apply(w, s, step);
    assert forall c :: 0 <= c < |s.calls| ==> s'.calls[c].node == s.calls[c].node && s'.calls[c].parent == s.calls[c].parent;
  }

  lemma {:induction false} OnlyBranchingMarks(w: Workflow, inPath: set<Id>, completed: set<Id>, ms: seq<Id>)
    ensures Check(w, false, inPath, completed, ms).0 == inPath
    decreases |ms|
  {
    if ms != [] {
      OnlyBranchingMarks(w, inPath, completed, ms[1..]);
    }
  }

  lemma TrailGrows(w: Workflow, checked: set<Id>, more: set<Id>, n: Id)
    requires Trail(w, checked, n) && checked <= more
    ensures Trail(w, more, n)
  {
  }

  lemma TrailNext(w: Workflow, checked: set<Id>, v: Id, m: Id)
    requires Trail(w, checked, v) && m in Successors(w, v)
    ensures Trail(w, checked + {v}, m)
  {
    var way :| Way(w, way, v) && forall x :: x in way ==> x in checked;
    assert (way + [v])[..|way|] == way;
    assert Way(w, way + [v], m);
  }

  /** Who started the node of call `d`: somebody with a task and a trail. */
  ghost predicate StartedBy(w: Workflow, s: State, n: Id, q: Id)
  {
    n in Successors(w, q) && q in s.task && Trail(w, s.checked, q)
  }

  lemma CheckedHasTask(s: State, q: Id)
    requires Safe(s) && q in s.checked
    ensures q in s.task
  {
    assert IsTask(s, q, Succeeded);
  }

  lemma OlderStarter(w: Workflow, s: State, d: nat)
    requires Safe(s) && Begun(w, s) && Sourced(w, s) && d < |s.calls|
    ensures var n := s.calls[d].node; Previous(w.edges, n) == [] || exists q :: StartedBy(w, s, n, q)
  {
    hide Successors, Safe, Trail;
    if s.calls[d].parent != -1 {
      var q := s.calls[s.calls[d].parent].node;
      CheckedHasTask(s, q);
      assert StartedBy(w, s, s.calls[d].node, q);
    }
  }

  lemma Starter(w: Workflow, s: State, c: nat, d: nat)
    requires Safe(s) && Begun(w, s) && Sourced(w, s) && Enabled(w, s, Resume(c)) && d < |Apply(w, s, Resume(c)).calls|
    ensures var n := Apply(w, s, Resume(c)).calls[d].node;
            Previous(w.edges, n) == [] || exists q :: StartedBy(w, s, n, q)
  {
    hide Safe, Trail, Successors, Check;
    if d >= |s.calls| {
      var s', u := Apply(w, s, Resume(c)), s.calls[c].node;
      CheckShrinks(w, u in w.branching, s.inPath, s.completed, Successors(w, u));
      assert StartedBy(w, s, s'.calls[d].node, u);
    } else {
      OlderStarter(w, s, d);
    }
  }

  lemma HoldingIsUnchecked(s: State, c: nat)
    requires Safe(s) && c < |s.calls| && s.calls[c].phase == Holding
    ensures s.calls[c].node !in s.checked
  {
  }

  /** A node that is only now put into the path has no successor that was started by another one. */
  lemma NewcomerIsStarter(w: Workflow, s: State, c: nat, n: Id, p: Id, q: Id)
    requires Sequenced(w) && Safe(s) && Sourced(w, s) && c < |s.calls| && s.calls[c].phase == Holding
    requires s.calls[c].node in w.branching && p in Successors(w, s.calls[c].node) && p in Previous(w.edges, n)
    requires StartedBy(w, s, n, q)
    ensures q == p
  {
    hide Successors, Safe;
    var b := s.calls[c].node;
    HoldingIsUnchecked(s, c);
    assert q != p ==> Passed(w, b, q);
  }

  /** A predecessor in the path after a completion check has a task. */
  lemma ResumePredecessor(w: Workflow, s: State, c: nat, d: nat, p: Id)
    requires Sequenced(w) && Safe(s) && Prepared(w, s) && Sourced(w, s) && Enabled(w, s, Resume(c))
    requires var s' := Apply(w, s, Resume(c)); d < |s'.calls| && p in Previous(w.edges, s'.calls[d].node) && p in s'.inPath
    ensures p in s.task
  {
    hide Sequenced, Begun, Sourced, Successors, Check;
    var s', u := Apply(w, s, Resume(c)), s.calls[c].node;
    var n := s'.calls[d].node;
    CheckPath(w, u in w.branching, s.inPath, s.completed, Successors(w, u));
    if p in s.inPath {
      if d >= |s.calls| {
        SpawnedIsReady(w, u in w.branching, s.inPath, s.completed, Successors(w, u), n, p);
        assert IsTask(s, p, Succeeded);
      }
    } else {
      if u !in w.branching {
        OnlyBranchingMarks(w, s.inPath, s.completed, Successors(w, u));
      }
      Starter(w, s, c, d);
      var q :| StartedBy(w, s, n, q);
      NewcomerIsStarter(w, s, c, n, p, q);
    }
  }

  lemma BegunResume(w: Workflow, s: State, c: nat)
    requires Begun(w, s) && Enabled(w, s, Resume(c))
    ensures Begun(w, Apply(w, s, Resume(c)))
  {
    hide Check, Successors, Trail;
    var s', u := Apply(w, s, Resume(c)), s.calls[c].node;
    CheckShrinks(w, u in w.branching, s.inPath, s.completed, Successors(w, u));
    forall v | v in s'.checked
      ensures Trail(w, s'.checked, v)
    {
      TrailGrows(w, s.checked, s'.checked, v);
    }
    forall d | 0 <= d < |s'.calls|
      ensures Trail(w, s'.checked, s'.calls[d].node)
    {
      if d < |s.calls| {
        TrailGrows(w, s.checked, s'.checked, s.calls[d].node);
      } else {
        TrailNext(w, s.checked, u, s'.calls[d].node);
      }
    }
  }

  lemma PreparedResume(w: Workflow, s: State, c: nat)
    requires Sequenced(w) && Safe(s) && Prepared(w, s) && Sourced(w, s) && Enabled(w, s, Resume(c))
    ensures Prepared(w, Apply(w, s, Resume(c)))
  {
    hide Begun, Safe, Sourced, Sequenced, Enabled, Check, Successors;
    var s' := Apply(w, s, Resume(c));
    BegunResume(w, s, c);
    forall d, p | 0 <= d < |s'.calls| && p in Previous(w.edges, s'.calls[d].node) && p in s'.inPath
      ensures p in s'.task
    {
      ResumePredecessor(w, s, c, d, p);
    }
  }

  lemma PreparedStep(w: Workflow, s: State, step: Step)
    requires Sequenced(w) && Safe(s) && Prepared(w, s) && Wired(w, s) && Enabled(w, s, step)
    ensures Prepared(w, Apply(w, s, step))
  {
    hide Sequenced, Prepared, Safe, Enabled, Apply, Sourced, Waits;
    if step.Resume? {
      PreparedResume(w, s, step.c);
    } else {
      PreparedStays(w, s, step);
    }
  }

  lemma ActiveIsCalled(s: State, n: Id) returns (c: nat)
    requires Safe(s) && Active(s, n)
    ensures c < |s.calls| && s.calls[c].node == n
  {
    assert Held(s, n);
    c := s.lock[n];
  }

  /** Without a component failure, a step of a prepared state raises nothing. */
  lemma NoFailureStep(w: Workflow, s: State, step: Step)
    requires Safe(s) && Tasked(w, s) && NoFailure(s) && Enabled(w, s, step) && !step.Fail?
    ensures NoFailure(Apply(w, s, step))
  {
    hide Safe;
    if step.Begin? {
      var active := ActivePrevious(w, s, step.n);
      var c := ActiveIsCalled(s, step.n);
      assert forall p :: p in active ==> p in s.task;
    }
  }

  lemma {:induction false} StaysWithoutFailure(w: Workflow, s: State, steps: seq<Step>)
    requires Sequenced(w) && Safe(s) && Wired(w, s) && Prepared(w, s) && NoFailure(s)
    requires Runs(w, s, steps) && NoFail(steps)
    ensures NoFailure(After(w, s, steps))
    decreases |steps|
  {
    hide Sequenced, Safe, Begun, Tasked, NoFailure, Enabled, Apply, Wired;
    if steps != [] {
      SafeStep(w, s, steps[0]);
      WiredStep(w, s, steps[0]);
      PreparedStep(w, s, steps[0]);
      NoFailureStep(w, s, steps[0]);
      StaysWithoutFailure(w, Apply(w, s, steps[0]), steps[1..]);
    }
  }

  lemma StartWithoutFailure(w: Workflow)
    ensures NoFailure(Start(w))
  {
    StartPending(w, w.nodes);
  }

  /** A run in which no component fails raises nothing. */
  lemma RunsWithoutFailure(w: Workflow, steps: seq<Step>)
    requires Sequenced(w) && Runs(w, Start(w), steps) && NoFail(steps)
    ensures NoFailure(After(w, Start(w), steps))
  {
    hide Sequenced, Safe, Prepared, NoFailure, Start, Runs, After, Sourced, Awake, Waits;
    SafeStart(w);
    LiveStart(w);
    PreparedStart(w);
    StartWithoutFailure(w);
    StaysWithoutFailure(w, Start(w), steps);
  }

  // ---------- total correctness ----------

  /**
    When no component fails, every run that cannot go on has returned, and has completed exactly the
    chosen nodes, each once.
   */
  lemma RunsReturn(w: Workflow, steps: seq<Step>, n: Id)
    requires WellFormed(w) && Covered(w) && Sequenced(w) && Acyclic(GraphOf(w)) && Runs(w, Start(w), steps) && NoFail(steps)
    requires !CanStep(w, After(w, Start(w), steps))
    ensures var s := After(w, Start(w), steps);
            && Returned(s) && (n in s.completed <==> Chosen(w, n)) && s.completions[n] == (if Chosen(w, n) then 1 else 0)
  {
    hide WellFormed, Covered, Sequenced, Acyclic, NoFailure, CanStep, Returned, Chosen, Start, Runs, After;
    RunsWithoutFailure(w, steps);
    StuckIsReturned(w, steps, n);
  }

  /** Every run can be continued, without a component failure, until it cannot go on. */
  lemma {:induction false} RunCanFinish(w: Workflow, s: State) returns (steps: seq<Step>)
    requires WellFormed(w) && Safe(s) && Inside(w, s)
    ensures Runs(w, s, steps) && NoFail(steps) && !CanStep(w, After(w, s, steps))
    decreases Measure(w, s)
  {
    hide WellFormed, Safe, Inside, Measure, Enabled, Apply;
    if CanStep(w, s) {
      var step :| Enabled(w, s, step) && !step.Fail?;
      MeasureFalls(w, s, step);
      SafeStep(w, s, step);
      InsideStep(w, s, step);
      var rest := RunCanFinish(w, Apply(w, s, step));
      steps := [step] + rest;
      assert steps[1..] == rest;
    } else {
      steps := [];
    }
  }

  /** Every run without a component failure can be continued to one that returns. */
  lemma RunsComplete(w: Workflow, steps: seq<Step>) returns (more: seq<Step>)
    requires WellFormed(w) && Covered(w) && Sequenced(w) && Acyclic(GraphOf(w)) && Runs(w, Start(w), steps) && NoFail(steps)
    ensures Runs(w, Start(w), steps + more) && NoFail(steps + more) && Returned(After(w, Start(w), steps + more))
  {
    hide WellFormed, Covered, Sequenced, Acyclic, Safe, Live, Inside, CanStep, Returned, Chosen, Start, Runs, After;
    Reached(w, steps);
    var s := After(w, Start(w), steps);
    more := RunCanFinish(w, s);
    RunsConcat(w, Start(w), steps, more);
    RunsReturn(w, steps + more, "");
  }

  /** A workflow without branching nodes meets both conditions on branches. */
  lemma PlainIsSafe(w: Workflow)
    requires w.branching == {}
    ensures Covered(w) && Sequenced(w)
  {
    forall v, m, q | m in Successors(w, v) && q in Previous(w.edges, m)
      ensures m in Successors(w, q)
    {
      PreviousIn(w.edges, m, q);
      TargetsIn(w.edges, q, m);
    }
  }
}
