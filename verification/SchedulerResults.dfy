/** The two guarantees of a workflow run: it never gets stuck, and it loses no wakeup. */
module SchedulerResults {
  import opened Sets
  import opened WorkflowGraph
  import opened Scheduler
  import opened SchedulerBound
  import opened SchedulerProgress
  import opened SchedulerNesting

  /** The graph that `detect_cycles` looks at. */
  ghost function GraphOf(w: Workflow): Graph
  {
    map v | v in w.nodes :: Targets(w.edges, v)
  }

  lemma EdgeOf(w: Workflow, v: Id, m: Id)
    requires WellFormed(w) && v in Previous(w.edges, m)
    ensures Edge(GraphOf(w), v, m) && m in GraphOf(w)
  {
    PreviousIn(w.edges, m, v);
    TargetsIn(w.edges, v, m);
  }

  lemma EarlierIsDeeper(w: Workflow, v: Id, m: Id)
    requires WellFormed(w) && Acyclic(GraphOf(w)) && v in Previous(w.edges, m)
    ensures Depth(GraphOf(w), m) < Depth(GraphOf(w), v) <= |GraphOf(w)|
  {
    EdgeOf(w, v, m);
    DepthFalls(GraphOf(w), v, m);
    SubsetSize(ReachSet(GraphOf(w), v), GraphOf(w).Keys);
  }

  lemma DepthBound(w: Workflow, v: Id)
    ensures Depth(GraphOf(w), v) <= |GraphOf(w)|
  {
    SubsetSize(ReachSet(GraphOf(w), v), GraphOf(w).Keys);
  }

  // ---------- no deadlock ----------

  /** Nothing has failed so far. */
  ghost predicate NoFailure(s: State)
  {
    && (forall n :: n in s.task ==> s.task[n] != Failed)
    && (forall c :: 0 <= c < |s.calls| ==> s.calls[c].phase != Raised)
  }

  /** A step other than a failure is possible. */
  ghost predicate CanStep(w: Workflow, s: State)
  {
    exists step :: Enabled(w, s, step) && !step.Fail?
  }

  /** A task that awaits a failed one has to raise. */
  ghost predicate Doomed(s: State, n: Id)
  {
    n in s.task && s.task[n].Gathering? && exists p :: p in s.task[n].waits && IsTask(s, p, Failed)
  }

  /** A step is possible that needs no component to fail now. */
  ghost predicate CanGoOn(w: Workflow, s: State)
  {
    CanStep(w, s) || exists n :: Doomed(s, n)
  }

  /** A task that is not over can go on, or waits for a task of a predecessor that can. */
  lemma {:induction false} TaskCanGoOn(w: Workflow, s: State, n: Id)
    requires WellFormed(w) && Acyclic(GraphOf(w)) && Waits(w, s) && Active(s, n)
    ensures CanGoOn(w, s)
    decreases |GraphOf(w)| - Depth(GraphOf(w), n)
  {
    DepthBound(w, n);
    if s.task[n] == Created {
      assert Enabled(w, s, Begin(n));
    } else if s.task[n] == Running {
      assert Enabled(w, s, Finish(n));
    } else if forall p :: p in s.task[n].waits ==> IsTask(s, p, Succeeded) {
      assert Enabled(w, s, Proceed(n));
    } else {
      var p :| p in s.task[n].waits && !IsTask(s, p, Succeeded);
      if IsTask(s, p, Failed) {
        assert Doomed(s, n);
      } else {
        EarlierIsDeeper(w, p, n);
        TaskCanGoOn(w, s, p);
      }
    }
  }

  lemma HolderCanGoOn(w: Workflow, s: State, c: nat)
    requires WellFormed(w) && Acyclic(GraphOf(w)) && Safe(s) && Wired(w, s)
    requires c < |s.calls| && s.calls[c].phase == Holding
    ensures CanGoOn(w, s)
  {
    hide WellFormed, Acyclic, Sourced, Waits;
    var n := s.calls[c].node;
    if IsTask(s, n, Succeeded) {
      assert Enabled(w, s, Resume(c));
    } else if IsTask(s, n, Failed) {
      assert Enabled(w, s, Raise(c));
    } else {
      TaskCanGoOn(w, s, n);
    }
  }

  /** The call has returned or raised. */
  predicate Over(c: Call)
  {
    c.phase == Ended || c.phase == Raised
  }

  /**
    A call that is not over can go on, or waits for the owner of its lock, or for a call of a
    successor. Locks are awaited towards successors and tasks towards predecessors, so this ends.
   */
  lemma {:induction false} CallCanGoOn(w: Workflow, s: State, c: nat)
    requires WellFormed(w) && Acyclic(GraphOf(w)) && Safe(s) && Wired(w, s)
    requires c < |s.calls| && !Over(s.calls[c])
    ensures CanGoOn(w, s)
    decreases Depth(GraphOf(w), s.calls[c].node), if s.calls[c].phase == Pending then 1 else 0
  {
    var n := s.calls[c].node;
    if s.calls[c].phase == Holding {
      HolderCanGoOn(w, s, c);
    } else if s.calls[c].phase == Pending {
      if n !in s.lock {
        assert Enabled(w, s, Acquire(c));
      } else {
        CallCanGoOn(w, s, s.lock[n]);
      }
    } else if forall d :: 0 <= d < |s.calls| && s.calls[d].parent == c ==> s.calls[d].phase == Ended {
      assert Enabled(w, s, End(c));
    } else {
      var d :| 0 <= d < |s.calls| && s.calls[d].parent == c && s.calls[d].phase != Ended;
      if s.calls[d].phase == Raised {
        assert Enabled(w, s, Raise(c));
      } else {
        SuccessorEdge(w, n, s.calls[d].node);
        EarlierIsDeeper(w, n, s.calls[d].node);
        CallCanGoOn(w, s, d);
      }
    }
  }

  ghost predicate AllOver(s: State)
  {
    forall c :: 0 <= c < |s.calls| ==> Over(s.calls[c])
  }

  /**
    No reachable state is stuck before all calls are over, whatever has failed on the way and
    whichever ports are selected.
   */
  lemma NoDeadlock(w: Workflow, steps: seq<Step>)
    requires WellFormed(w) && Acyclic(GraphOf(w)) && Runs(w, Start(w), steps)
    ensures AllOver(After(w, Start(w), steps)) || CanGoOn(w, After(w, Start(w), steps))
  {
    hide WellFormed, Acyclic, Safe, Sourced, Waits, Start, CanGoOn, Runs, After;
    var s := After(w, Start(w), steps);
    SafeStart(w);
    LiveStart(w);
    RunsAreSafe(w, Start(w), steps);
    RunsAreWired(w, Start(w), steps);
    if c: nat :| c < |s.calls| && !Over(s.calls[c]) {
      CallCanGoOn(w, s, c);
    }
  }

  /** While nothing has failed, going on is a step and being over is having returned. */
  lemma WithoutFailure(w: Workflow, s: State)
    requires NoFailure(s)
    ensures CanGoOn(w, s) <==> CanStep(w, s)
    ensures AllOver(s) ==> Returned(s)
  {
  }

  // ---------- no lost wakeup ----------

  lemma ReturnedChecked(w: Workflow, s: State, n: Id)
    requires Live(w, s) && Nested(s) && Returned(s) && Spawned(s, n)
    ensures n in s.checked
  {
    hide Nested, Returned, Sourced, Waits;
    var c :| 0 <= c < |s.calls| && s.calls[c].node == n;
    ReturnedIsAll(s, c);
  }

  /** When everything has returned, whatever came into the execution path has been checked. */
  lemma {:induction false} PathIsChecked(w: Workflow, s: State, n: Id)
    requires WellFormed(w) && Acyclic(GraphOf(w)) && Live(w, s) && Nested(s) && Returned(s) && n in s.inPath
    ensures n in s.checked
    decreases |GraphOf(w)| - Depth(GraphOf(w), n)
  {
    DepthBound(w, n);
    if Spawned(s, n) {
      ReturnedChecked(w, s, n);
    } else {
      var v :| v in s.checked && n in Successors(w, v);
      assert Expected(w, s, n);
      var q :| q in Previous(w.edges, n) && q in s.inPath && q !in s.checked;
      EarlierIsDeeper(w, q, n);
      PathIsChecked(w, s, q);
    }
  }

  lemma {:induction false} WayIsChecked(w: Workflow, s: State, p: seq<Id>, n: Id)
    requires WellFormed(w) && Acyclic(GraphOf(w)) && Live(w, s) && Nested(s) && Returned(s) && Way(w, p, n)
    ensures n in s.checked
    decreases |p|
  {
    if p == [] {
      ReturnedChecked(w, s, n);
    } else {
      var v := p[|p| - 1];
      WayIsChecked(w, s, p[..|p| - 1], v);
      if Spawned(s, n) {
        ReturnedChecked(w, s, n);
      } else {
        assert Expected(w, s, n);
        var q :| q in Previous(w.edges, n) && q in s.inPath && q !in s.checked;
        PathIsChecked(w, s, q);
      }
    }
  }

  lemma CompletedIsChosen(w: Workflow, s: State, n: Id)
    requires Safe(s) && Live(w, s) && n in s.completed
    ensures Chosen(w, n)
  {
    assert IsTask(s, n, Succeeded);
    var c :| 0 <= c < |s.calls| && s.calls[c].node == n;
  }

  /**
    When `execute` returns, in any interleaving, exactly the nodes on some way of chosen successors
    from a start node have completed, each once.
   */
  lemma NoLostWakeup(w: Workflow, steps: seq<Step>, n: Id)
    requires WellFormed(w) && Covered(w) && Acyclic(GraphOf(w)) && Runs(w, Start(w), steps)
    requires Returned(After(w, Start(w), steps))
    ensures var s := After(w, Start(w), steps);
            && (n in s.completed <==> Chosen(w, n))
            && s.completions[n] == (if Chosen(w, n) then 1 else 0)
  {
    var s := After(w, Start(w), steps);
    Reached(w, steps);
    NestedStart(w);
    RunsAreNested(w, Start(w), steps);
    hide Returned, Nested, Start, Runs, After;
    if n in s.completed {
      CompletedIsChosen(w, s, n);
    }
    if Chosen(w, n) {
      var p :| Way(w, p, n);
      WayIsChecked(w, s, p, n);
    }
  }
}
