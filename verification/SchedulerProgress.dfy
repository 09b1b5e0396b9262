/**
  No deadlock and no lost wakeup: on an acyclic workflow some step is always possible until
  `execute` returns, and when it returns exactly the selected part of the workflow has completed.
 */
module SchedulerProgress {
  import opened WorkflowGraph
  import opened Scheduler
  import opened SchedulerBound

  /**
    The successors chosen by one completed node are chosen by all their other predecessors too.
    Which port a branching node selects is part of the workflow value, so this is about one run.
   */
  ghost predicate Covered(w: Workflow)
  {
    forall v, m, q :: m in Successors(w, v) && q in Previous(w.edges, m) ==> m in Successors(w, q)
  }

  /** Every target of a branching node has that node as its only predecessor. */
  ghost predicate SolePredecessor(w: Workflow)
  {
    forall e, d :: e in w.edges && d in w.edges && e.source in w.branching && d.target == e.target ==> d.source == e.source
  }

  lemma SoleIsCovered(w: Workflow)
    requires SolePredecessor(w)
    ensures Covered(w)
  {
    forall v, m, q | m in Successors(w, v) && q in Previous(w.edges, m)
      ensures m in Successors(w, q)
    {
      SuccessorEdge(w, v, m);
      PreviousIn(w.edges, m, q);
      TargetsIn(w.edges, q, m);
    }
  }

  ghost predicate Spawned(s: State, n: Id)
  {
    exists c :: 0 <= c < |s.calls| && s.calls[c].node == n
  }

  /** A predecessor in the execution path whose completion check is still to come. */
  ghost predicate Expected(w: Workflow, s: State, m: Id)
  {
    exists q :: q in Previous(w.edges, m) && q in s.inPath && q !in s.checked
  }

  /** A way from a start node to `n` along chosen successors. */
  ghost predicate Way(w: Workflow, p: seq<Id>, n: Id)
    decreases |p|
  {
    if p == [] then n in w.nodes && Previous(w.edges, n) == []
    else n in Successors(w, p[|p| - 1]) && Way(w, p[..|p| - 1], p[|p| - 1])
  }

  ghost predicate Chosen(w: Workflow, n: Id)
  {
    exists p :: Way(w, p, n)
  }

  /** Calls come from start nodes or from chosen successors, and children come after parents. */
  ghost predicate Sourced(w: Workflow, s: State)
  {
    && (forall c :: 0 <= c < |s.calls| ==> Chosen(w, s.calls[c].node))
    && (forall c :: 0 <= c < |s.calls| && s.calls[c].parent != -1 ==>
          0 <= s.calls[c].parent < c && s.calls[c].node in Successors(w, s.calls[s.calls[c].parent].node))
    && (forall n :: n in w.nodes && Previous(w.edges, n) == [] ==> Spawned(s, n))
  }

  /** What is in the execution path or was looked at is called, or will be looked at again. */
  ghost predicate Awake(w: Workflow, s: State)
  {
    && (forall n :: n in s.task ==> Spawned(s, n) && n in s.inPath)
    && (forall c :: 0 <= c < |s.calls| && s.calls[c].phase == Ended ==> s.calls[c].node in s.checked)
    && (forall n :: n in s.inPath ==> Spawned(s, n) || exists v :: v in s.checked && n in Successors(w, v))
    && (forall v, m :: v in s.checked && m in Successors(w, v) ==> Spawned(s, m) || Expected(w, s, m))
  }

  /** A waiting task waits for tasks of predecessors. */
  ghost predicate Waits(w: Workflow, s: State)
  {
    forall n, p :: n in s.task && s.task[n].Gathering? && p in s.task[n].waits ==> p in s.task && p in Previous(w.edges, n)
  }

  ghost predicate Live(w: Workflow, s: State)
  {
    Sourced(w, s) && Awake(w, s) && Waits(w, s)
  }

  // ---------- the start ----------

  lemma {:induction false} StartSpawns(w: Workflow, nodes: seq<Id>, n: Id)
    requires n in nodes && Previous(w.edges, n) == []
    ensures exists c :: 0 <= c < |StartCalls(w, nodes)| && StartCalls(w, nodes)[c].node == n
    decreases |nodes|
  {
    var k := |nodes| - 1;
    var calls := StartCalls(w, nodes);
    if nodes[k] == n {
      assert calls[|calls| - 1].node == n;
    } else {
      StartSpawns(w, nodes[..k], n);
      var c :| 0 <= c < |StartCalls(w, nodes[..k])| && StartCalls(w, nodes[..k])[c].node == n;
      assert calls[c].node == n;
    }
  }

  lemma {:induction false} StartChosen(w: Workflow, nodes: seq<Id>, c: nat)
    requires (forall n :: n in nodes ==> n in w.nodes) && c < |StartCalls(w, nodes)|
    ensures Way(w, [], StartCalls(w, nodes)[c].node) && StartCalls(w, nodes)[c].parent == -1
    decreases |nodes|
  {
    var k := |nodes| - 1;
    if c < |StartCalls(w, nodes[..k])| {
      StartChosen(w, nodes[..k], c);
    }
  }

  lemma LiveStart(w: Workflow)
    ensures Live(w, Start(w))
  {
    var s := Start(w);
    forall c | 0 <= c < |s.calls|
      ensures Chosen(w, s.calls[c].node) && s.calls[c].parent == -1 && s.calls[c].phase == Pending
    {
      StartChosen(w, w.nodes, c);
      StartPending(w, w.nodes);
    }
    forall n | n in w.nodes && Previous(w.edges, n) == []
      ensures Spawned(s, n)
    {
      StartSpawns(w, w.nodes, n);
    }
  }

  // ---------- steps that do not look at successors ----------

  lemma SpawnedStays(s: State, s': State, n: Id)
    requires Spawned(s, n) && |s.calls| <= |s'.calls|
    requires forall c :: 0 <= c < |s.calls| ==> s'.calls[c].node == s.calls[c].node
    ensures Spawned(s', n)
  {
    var c :| 0 <= c < |s.calls| && s.calls[c].node == n;
    assert s'.calls[c].node == n;
  }

  /** Steps that keep the calls apart from one phase, and neither shrink the path nor check. */
  lemma SourcedStays(w: Workflow, s: State, s': State)
    requires Sourced(w, s) && |s'.calls| == |s.calls|
    requires forall c :: 0 <= c < |s.calls| ==> s'.calls[c].node == s.calls[c].node && s'.calls[c].parent == s.calls[c].parent
    ensures Sourced(w, s')
  {
    forall n | n in w.nodes && Previous(w.edges, n) == []
      ensures Spawned(s', n)
    {
      SpawnedStays(s, s', n);
    }
  }

  lemma AwakeStays(w: Workflow, s: State, s': State)
    requires Awake(w, s) && |s'.calls| == |s.calls| && s'.checked == s.checked && s.inPath <= s'.inPath
    requires forall c :: 0 <= c < |s.calls| ==> s'.calls[c].node == s.calls[c].node
    requires forall c :: 0 <= c < |s.calls| && s'.calls[c].phase == Ended ==> s.calls[c].phase == Ended || s.calls[c].node in s.checked
    requires forall n :: n in s'.task ==> n in s.task || (Spawned(s, n) && n in s'.inPath)
    requires forall n :: n in s'.inPath ==> n in s.inPath || Spawned(s, n)
    ensures Awake(w, s')
  {
    forall n | Spawned(s, n)
      ensures Spawned(s', n)
    {
      SpawnedStays(s, s', n);
    }
    forall v, m | v in s'.checked && m in Successors(w, v)
      ensures Spawned(s', m) || Expected(w, s', m)
    {
      if !Spawned(s, m) {
        assert Expected(w, s, m);
        var q :| q in Previous(w.edges, m) && q in s.inPath && q !in s.checked;
        assert q in s'.inPath && q !in s'.checked;
      }
    }
  }

  lemma CompletedAndFree(s: State, n: Id)
    requires Safe(s) && n !in s.lock
    ensures n !in s.executing && (n in s.completed ==> n in s.checked)
  {
    assert !Held(s, n);
  }

  lemma WaitsStays(w: Workflow, s: State, s': State, n: Id)
    requires Waits(w, s)
    requires forall m :: m in s.task ==> m in s'.task
    requires forall m :: m in s'.task && m != n ==> m in s.task && s.task[m] == s'.task[m]
    requires n in s'.task && s'.task[n].Gathering? ==> forall p :: p in s'.task[n].waits ==> p in s'.task && p in Previous(w.edges, n)
    ensures Waits(w, s')
  {
  }

  lemma LiveAcquire(w: Workflow, s: State, c: nat)
    requires Safe(s) && Live(w, s) && Enabled(w, s, Acquire(c))
    ensures Live(w, Apply(w, s, Acquire(c)))
  {
    hide Awake, Sourced, Safe;
    var s', n := Apply(w, s, Acquire(c)), s.calls[c].node;
    assert Spawned(s, n);
    CompletedAndFree(s, n);
    SourcedStays(w, s, s');
    AwakeStays(w, s, s');
    WaitsStays(w, s, s', n);
  }

  lemma LiveTask(w: Workflow, s: State, step: Step)
    requires Live(w, s) && Enabled(w, s, step)
    requires step.Begin? || step.Proceed? || step.Finish? || step.Fail?
    ensures Live(w, Apply(w, s, step))
  {
    hide Awake, Sourced, Waits;
    var s' := Apply(w, s, step);
    SourcedStays(w, s, s');
    AwakeStays(w, s, s');
    WaitsStays(w, s, s', step.n);
  }

  lemma LiveRelease(w: Workflow, s: State, step: Step)
    requires Safe(s) && Live(w, s) && Enabled(w, s, step) && (step.End? || step.Raise?)
    ensures Live(w, Apply(w, s, step))
  {
    hide Awake, Sourced, Safe, Waits;
    var s' := Apply(w, s, step);
    if step.End? {
      AwaitingIsChecked(s, step.c);
    }
    SourcedStays(w, s, s');
    AwakeStays(w, s, s');
    SameTasksWait(w, s, s');
  }

  lemma AwaitingIsChecked(s: State, c: nat)
    requires Safe(s) && c < |s.calls| && s.calls[c].phase == Awaiting
    ensures s.calls[c].node in s.checked
  {
  }

  lemma SameTasksWait(w: Workflow, s: State, s': State)
    requires Waits(w, s) && s'.task == s.task
    ensures Waits(w, s')
  {
  }

  // ---------- the completion check ----------

  /** Every successor looked at is spawned, or one of its predecessors in the path is incomplete. */
  lemma {:induction false} CheckResult(w: Workflow, branching: bool, inPath: set<Id>, completed: set<Id>, ms: seq<Id>, m: Id)
    requires m in ms
    ensures var (inPath', spawned) := Check(w, branching, inPath, completed, ms);
            m in spawned || exists p :: p in Previous(w.edges, m) && p in inPath' && p !in completed
    decreases |ms|
  {
    var marked := if branching then inPath + {ms[0]} else inPath;
    CheckPath(w, branching, marked, completed, ms[1..]);
    if m in ms[1..] {
      CheckResult(w, branching, marked, completed, ms[1..], m);
    }
  }

  /** The path only grows, by successors that a branching node looks at. */
  lemma {:induction false} CheckPath(w: Workflow, branching: bool, inPath: set<Id>, completed: set<Id>, ms: seq<Id>)
    ensures var inPath' := Check(w, branching, inPath, completed, ms).0;
            inPath <= inPath' && forall n :: n in inPath' ==> n in inPath || n in ms
    decreases |ms|
  {
    if ms != [] {
      CheckPath(w, branching, if branching then inPath + {ms[0]} else inPath, completed, ms[1..]);
    }
  }

  lemma WayMore(w: Workflow, v: Id, m: Id)
    requires Chosen(w, v) && m in Successors(w, v)
    ensures Chosen(w, m)
  {
    var p :| Way(w, p, v);
    assert (p + [v])[..|p|] == p;
    assert Way(w, p + [v], m);
  }

  lemma SourcedResume(w: Workflow, s: State, c: nat)
    requires Sourced(w, s) && Enabled(w, s, Resume(c))
    ensures Sourced(w, Apply(w, s, Resume(c)))
  {
    hide Check, Successors, Chosen;
    var s', n := Apply(w, s, Resume(c)), s.calls[c].node;
    CheckShrinks(w, n in w.branching, s.inPath, s.completed, Successors(w, n));
    forall d | |s.calls| <= d < |s'.calls|
      ensures Chosen(w, s'.calls[d].node) && s'.calls[d].parent == c && s'.calls[d].node in Successors(w, n)
    {
      WayMore(w, n, s'.calls[d].node);
    }
    forall m | m in w.nodes && Previous(w.edges, m) == []
      ensures Spawned(s', m)
    {
      SpawnedStays(s, s', m);
    }
  }

  /** The node that has just been checked leaves no chosen successor of its own asleep. */
  lemma ResumeWakes(w: Workflow, s: State, c: nat, m: Id)
    requires Safe(s) && Enabled(w, s, Resume(c)) && m in Successors(w, s.calls[c].node)
    ensures var s' := Apply(w, s, Resume(c)); Spawned(s', m) || Expected(w, s', m)
  {
    var s', n := Apply(w, s, Resume(c)), s.calls[c].node;
    CheckResult(w, n in w.branching, s.inPath, s.completed, Successors(w, n), m);
    var (inPath', ms) := Check(w, n in w.branching, s.inPath, s.completed, Successors(w, n));
    if m in ms {
      var i :| 0 <= i < |ms| && ms[i] == m;
      assert s'.calls[|s.calls| + i].node == m;
    } else {
      var p :| p in Previous(w.edges, m) && p in inPath' && p !in s.completed;
      assert p !in s'.checked && p in s'.inPath;
    }
  }

  lemma AwakeResume(w: Workflow, s: State, c: nat)
    requires Covered(w) && Safe(s) && Awake(w, s) && Enabled(w, s, Resume(c))
    ensures Awake(w, Apply(w, s, Resume(c)))
  {
    var s', n := Apply(w, s, Resume(c)), s.calls[c].node;
    CheckPath(w, n in w.branching, s.inPath, s.completed, Successors(w, n));
    forall k | Spawned(s, k)
      ensures Spawned(s', k)
    {
      SpawnedStays(s, s', k);
    }
    forall k | k in s'.inPath
      ensures Spawned(s', k) || exists v :: v in s'.checked && k in Successors(w, v)
    {
      if k !in s.inPath {
        assert n in s'.checked && k in Successors(w, n);
      }
    }
    forall v, m | v in s'.checked && m in Successors(w, v)
      ensures Spawned(s', m) || Expected(w, s', m)
    {
      AwakePair(w, s, c, v, m);
    }
  }

  lemma AwakePair(w: Workflow, s: State, c: nat, v: Id, m: Id)
    requires Covered(w) && Safe(s) && Awake(w, s) && Enabled(w, s, Resume(c))
    requires v in Apply(w, s, Resume(c)).checked && m in Successors(w, v)
    ensures var s' := Apply(w, s, Resume(c)); Spawned(s', m) || Expected(w, s', m)
  {
    var s', n := Apply(w, s, Resume(c)), s.calls[c].node;
    if m in Successors(w, n) {
      ResumeWakes(w, s, c, m);
    } else if Spawned(s, m) {
      SpawnedStays(s, s', m);
    } else {
      CheckPath(w, n in w.branching, s.inPath, s.completed, Successors(w, n));
      assert v in s.checked && Expected(w, s, m);
      var q :| q in Previous(w.edges, m) && q in s.inPath && q !in s.checked;
      assert m in Successors(w, q);
      assert q != n && q in s'.inPath && q !in s'.checked;
    }
  }

  lemma LiveResume(w: Workflow, s: State, c: nat)
    requires Covered(w) && Safe(s) && Live(w, s) && Enabled(w, s, Resume(c))
    ensures Live(w, Apply(w, s, Resume(c)))
  {
    hide Awake, Sourced, Safe, Covered;
    SourcedResume(w, s, c);
    AwakeResume(w, s, c);
  }

  lemma LiveStep(w: Workflow, s: State, step: Step)
    requires Covered(w) && Safe(s) && Live(w, s) && Enabled(w, s, step)
    ensures Live(w, Apply(w, s, step))
  {
    hide Safe, Live, Enabled, Apply, Covered;
    match step
    case Acquire(c) => LiveAcquire(w, s, c);
    case Begin(_) => LiveTask(w, s, step);
    case Proceed(_) => LiveTask(w, s, step);
    case Finish(_) => LiveTask(w, s, step);
    case Fail(_) => LiveTask(w, s, step);
    case Resume(c) => LiveResume(w, s, c);
    case End(_) => LiveRelease(w, s, step);
    case Raise(_) => LiveRelease(w, s, step);
  }

  lemma {:induction false} RunsAreLive(w: Workflow, s: State, steps: seq<Step>)
    requires WellFormed(w) && Covered(w) && Safe(s) && Live(w, s) && Inside(w, s) && Runs(w, s, steps)
    ensures var t := After(w, s, steps); Safe(t) && Live(w, t) && Inside(w, t)
    decreases |steps|
  {
    if steps != [] {
      SafeStep(w, s, steps[0]);
      LiveStep(w, s, steps[0]);
      InsideStep(w, s, steps[0]);
      RunsAreLive(w, Apply(w, s, steps[0]), steps[1..]);
    }
  }

  // ---------- without any condition on the branches ----------

  /** Calls come from chosen successors, and tasks wait for predecessors. */
  ghost predicate Wired(w: Workflow, s: State)
  {
    Sourced(w, s) && Waits(w, s)
  }

  lemma WiredStep(w: Workflow, s: State, step: Step)
    requires Wired(w, s) && Enabled(w, s, step)
    ensures Wired(w, Apply(w, s, step))
  {
    hide Sourced, Waits, Check;
    var s' := Apply(w, s, step);
    match step
    case Acquire(c) =>
      SourcedStays(w, s, s');
      if s'.task == s.task {
        SameTasksWait(w, s, s');
      } else {
        WaitsStays(w, s, s', s.calls[c].node);
      }
    case Resume(c) =>
      SourcedResume(w, s, c);
      SameTasksWait(w, s, s');
    case End(_) =>
      SourcedStays(w, s, s');
      SameTasksWait(w, s, s');
    case Raise(_) =>
      SourcedStays(w, s, s');
      SameTasksWait(w, s, s');
    case Begin(n) =>
      SourcedStays(w, s, s');
      WaitsStays(w, s, s', n);
    case Proceed(n) =>
      SourcedStays(w, s, s');
      WaitsStays(w, s, s', n);
    case Finish(n) =>
      SourcedStays(w, s, s');
      WaitsStays(w, s, s', n);
    case Fail(n) =>
      SourcedStays(w, s, s');
      WaitsStays(w, s, s', n);
  }

  lemma {:induction false} RunsAreWired(w: Workflow, s: State, steps: seq<Step>)
    requires Wired(w, s) && Runs(w, s, steps)
    ensures Wired(w, After(w, s, steps))
    decreases |steps|
  {
    hide Wired;
    if steps != [] {
      WiredStep(w, s, steps[0]);
      RunsAreWired(w, Apply(w, s, steps[0]), steps[1..]);
    }
  }

  /** What holds in every reachable state. */
  lemma Reached(w: Workflow, steps: seq<Step>)
    requires WellFormed(w) && Covered(w) && Runs(w, Start(w), steps)
    ensures var s := After(w, Start(w), steps); Safe(s) && Live(w, s) && Inside(w, s)
  {
    SafeStart(w);
    LiveStart(w);
    StartInside(w, w.nodes);
    RunsAreLive(w, Start(w), steps);
  }
}
