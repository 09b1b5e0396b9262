/**
  When a wakeup can be lost. A node that some completed predecessor chose, and whose choosers have
  all been checked without starting it, never runs. On workflows whose shared branch targets follow
  the first branching nodes this can happen, for some selection, if and only if some branch target
  has a second predecessor.
 */
module SchedulerRaces {
  import opened WorkflowGraph
  import opened Scheduler
  import opened SchedulerBound
  import opened SchedulerProgress
  import opened SchedulerResults
  import opened SchedulerOrder
  import opened SchedulerStaging

  /** `m` was chosen, was not started, and nobody is left to start it. */
  ghost predicate Lost(w: Workflow, s: State, m: Id)
  {
    && !Spawned(s, m)
    && (exists v :: v in s.checked && m in Successors(w, v))
    && (forall v :: m in Successors(w, v) ==> v in s.checked)
  }

  // ---------- lost is lost for good ----------

  lemma LostStep(w: Workflow, s: State, step: Step, m: Id)
    requires Safe(s) && Lost(w, s, m) && Enabled(w, s, step)
    ensures Lost(w, Apply(w, s, step), m)
  {
    var s' := Apply(w, s, step);
    if step.Resume? {
      var n := s.calls[step.c].node;
      assert n !in s.checked;
      CheckShrinks(w, n in w.branching, s.inPath, s.completed, Successors(w, n));
    }
    assert s.checked <= s'.checked;
    var v :| v in s.checked && m in Successors(w, v);
    assert v in s'.checked;
  }

  /** Whatever happens afterwards, a lost node never completes. */
  lemma {:induction false} LostForGood(w: Workflow, s: State, steps: seq<Step>, m: Id)
    requires Safe(s) && Lost(w, s, m) && Runs(w, s, steps) && m !in s.completed
    ensures Lost(w, After(w, s, steps), m) && m !in After(w, s, steps).completed
    decreases |steps|
  {
    hide Lost, Safe;
    if steps != [] {
      SafeStep(w, s, steps[0]);
      LostStep(w, s, steps[0], m);
      if steps[0].Finish? && steps[0].n == m {
        RunningIsSpawned(w, s, m);
      }
      LostForGood(w, Apply(w, s, steps[0]), steps[1..], m);
    }
  }

  lemma RunningIsSpawned(w: Workflow, s: State, m: Id)
    requires Safe(s) && Active(s, m)
    ensures !Lost(w, s, m)
  {
    assert Held(s, m);
    assert s.calls[s.lock[m]].node == m;
  }

  /** In a covered workflow no run loses a wakeup. */
  lemma CoveredNeverLoses(w: Workflow, steps: seq<Step>, m: Id)
    requires WellFormed(w) && Covered(w) && Runs(w, Start(w), steps)
    ensures !Lost(w, After(w, Start(w), steps), m)
  {
    hide Safe, Live, Inside, Lost, Covered, Start, WellFormed;
    Reached(w, steps);
    LiveNeverLoses(w, After(w, Start(w), steps), m);
  }

  lemma LiveNeverLoses(w: Workflow, s: State, m: Id)
    requires Covered(w) && Live(w, s)
    ensures !Lost(w, s, m)
  {
    hide Sourced, Waits;
  }

  // ---------- the race ----------

  /** A called node that nobody works on, all of whose predecessors have succeeded. */
  ghost predicate Poised(w: Workflow, s: State, u: Id)
  {
    && u !in s.lock && u !in s.executing && u !in s.completed && Waiting(s, u)
    && (forall p :: p in Previous(w.edges, u) ==> p != u && IsTask(s, p, Succeeded))
  }

  /** A predecessor of `m` is under way, so that `m` is not started. */
  ghost predicate Blocked(w: Workflow, s: State, m: Id, q: Id)
  {
    q in Previous(w.edges, m) && q in s.inPath && q !in s.completed && !Spawned(s, m)
  }

  lemma StaysBlocked(w: Workflow, s: State, s': State, u: Id, c: nat, m: Id, q: Id)
    requires Executed(w, s, s', u, c) && Blocked(w, s, m, q) && u != q
    ensures Blocked(w, s', m, q)
  {
    if m in Check(w, u in w.branching, s.inPath + {u}, s.completed + {u}, Successors(w, u)).1 {
      SpawnedIsReady(w, u in w.branching, s.inPath + {u}, s.completed + {u}, Successors(w, u), m, q);
      assert false;
    }
    CheckPath(w, u in w.branching, s.inPath + {u}, s.completed + {u}, Successors(w, u));
    assert forall d :: 0 <= d < |s.calls| ==> s'.calls[d].node == s.calls[d].node;
  }

  lemma StaysPoised(w: Workflow, s: State, s': State, u: Id, c: nat, x: Id)
    requires Executed(w, s, s', u, c) && Poised(w, s, x) && x != u
    ensures Poised(w, s', x)
  {
    var d :| 0 <= d < |s.calls| && s.calls[d].node == x && s.calls[d].phase == Pending;
    assert s'.calls[d] == s.calls[d];
  }

  /** All choosers of `m` among the nodes from `k` on are executed, while `q` stays under way. */
  lemma {:induction false} Race(w: Workflow, s: State, m: Id, q: Id, k: nat) returns (steps: seq<Step>)
    requires WellFormed(w) && k <= |w.nodes| && Blocked(w, s, m, q) && m !in Successors(w, q)
    requires forall j :: k <= j < |w.nodes| && m in Successors(w, w.nodes[j]) ==> Poised(w, s, w.nodes[j])
    requires forall j :: 0 <= j < k && m in Successors(w, w.nodes[j]) ==> w.nodes[j] in s.checked
    ensures Runs(w, s, steps)
    ensures var t := After(w, s, steps);
            !Spawned(t, m) && forall j :: 0 <= j < |w.nodes| && m in Successors(w, w.nodes[j]) ==> w.nodes[j] in t.checked
    decreases |w.nodes| - k
  {
    hide Poised, Blocked, Successors, Enabled, Apply, Executed, Idle;
    if k == |w.nodes| {
      steps := [];
      NotSpawned(w, s, m, q);
    } else if m !in Successors(w, w.nodes[k]) {
      steps := Race(w, s, m, q, k + 1);
    } else {
      var u := w.nodes[k];
      PoisedIsIdle(w, s, u);
      var first, c := Execute(w, s, u);
      var s' := After(w, s, first);
      AfterOne(w, s, s', u, c, m, q, k);
      var rest := Race(w, s', m, q, k + 1);
      RunsConcat(w, s, first, rest);
      steps := first + rest;
    }
  }

  lemma PoisedIsIdle(w: Workflow, s: State, u: Id)
    requires Poised(w, s, u)
    ensures Idle(w, s, u) && u !in Previous(w.edges, u)
  {
  }

  lemma AfterOne(w: Workflow, s: State, s': State, u: Id, c: nat, m: Id, q: Id, k: nat)
    requires WellFormed(w) && k < |w.nodes| && u == w.nodes[k] && Executed(w, s, s', u, c) && Blocked(w, s, m, q)
    requires m in Successors(w, u) && m !in Successors(w, q)
    requires forall j :: k <= j < |w.nodes| && m in Successors(w, w.nodes[j]) ==> Poised(w, s, w.nodes[j])
    requires forall j :: 0 <= j < k && m in Successors(w, w.nodes[j]) ==> w.nodes[j] in s.checked
    ensures Blocked(w, s', m, q)
    ensures forall j :: k < j < |w.nodes| && m in Successors(w, w.nodes[j]) ==> Poised(w, s', w.nodes[j])
    ensures forall j :: 0 <= j <= k && m in Successors(w, w.nodes[j]) ==> w.nodes[j] in s'.checked
  {
    StaysBlocked(w, s, s', u, c, m, q);
    hide Poised, Blocked, Successors;
    forall j | k < j < |w.nodes| && m in Successors(w, w.nodes[j])
      ensures Poised(w, s', w.nodes[j])
    {
      StaysPoised(w, s, s', u, c, w.nodes[j]);
    }
  }

  lemma NotSpawned(w: Workflow, s: State, m: Id, q: Id)
    requires Blocked(w, s, m, q)
    ensures !Spawned(s, m)
  {
  }

  // ---------- exactly when ----------

  /** A target of a branching node with a second predecessor. */
  ghost predicate Shared(w: Workflow, m: Id)
  {
    exists b, v :: b in w.branching && m in Targets(w.edges, b) && v in Previous(w.edges, m) && v != b
  }

  /**
    Shared branch targets follow branching nodes only, as the validator demands of all branch
    targets, and no other branching node leads to those.
   */
  ghost predicate SharedEarly(w: Workflow)
  {
    forall m, q :: Shared(w, m) && q in Previous(w.edges, m) ==> q in w.branching && Early(w, q)
  }

  ghost function Before(w: Workflow, m: Id): set<Id>
  {
    set q | q in Previous(w.edges, m)
  }

  lemma UncoveredIsShared(w: Workflow, v: Id, m: Id, q: Id)
    requires m in Successors(w, v) && q in Previous(w.edges, m) && m !in Successors(w, q)
    ensures q in w.branching && Shared(w, m) && v in Previous(w.edges, m)
  {
    SuccessorEdge(w, v, m);
    PreviousIn(w.edges, m, q);
    TargetsIn(w.edges, q, m);
  }

  lemma SharedStage(w: Workflow, m: Id)
    requires WellFormed(w) && Acyclic(GraphOf(w)) && SharedEarly(w) && Shared(w, m)
    ensures Stage(w, Above(w, Before(w, m)))
    ensures forall u, p :: u in Previous(w.edges, m) && p in Previous(w.edges, u) ==> p in Above(w, Before(w, m))
    ensures forall u :: u in Previous(w.edges, m) ==> u in w.branching
  {
    hide Above, Early, Acyclic;
    AboveIsStage(w, Before(w, m));
  }

  /** In the stage itself nobody chooses `m`, and its predecessors can be called. */
  lemma StageStopsBefore(w: Workflow, m: Id, u: Id)
    requires WellFormed(w) && Acyclic(GraphOf(w)) && SharedEarly(w) && Shared(w, m) && u in Previous(w.edges, m)
    ensures var a := Above(w, Before(w, m));
            && u in w.nodes && u !in a && Callable(w, a, u) && !Callable(w, a, m)
            && (forall p :: p in Previous(w.edges, u) ==> p in a && p != u)
  {
    hide Above, Early, Leads, SharedEarly, Shared;
    var a := Above(w, Before(w, m));
    SharedStage(w, m);
    PreviousLeads(w, u, m);
    if Previous(w.edges, u) != [] {
      PlainChooses(w, Previous(w.edges, u)[0], u);
    }
    if v :| v in a && m in Successors(w, v) {
      SuccessorEdge(w, v, m);
    }
  }

  /** Once the stage has been executed, the predecessors of `m` are poised and `m` is not called. */
  lemma StageReady(w: Workflow, s: State, m: Id, u: Id)
    requires WellFormed(w) && Acyclic(GraphOf(w)) && SharedEarly(w) && Shared(w, m)
    requires Settled(w, s, Above(w, Before(w, m)))
    requires u in Previous(w.edges, m)
    ensures Poised(w, s, u) && u !in Above(w, Before(w, m)) && !Spawned(s, m)
    ensures forall p :: p in Previous(w.edges, u) ==> p in Above(w, Before(w, m))
  {
    hide Above, SharedEarly, Shared, WellFormed, Acyclic, Callable;
    StageStopsBefore(w, m, u);
  }

  /** Someone chooses `m` and someone else does not: then some run loses `m`. */
  lemma UncoveredLoses(w: Workflow, v: Id, m: Id, q: Id) returns (steps: seq<Step>)
    requires WellFormed(w) && Acyclic(GraphOf(w)) && SharedEarly(w)
    requires m in Successors(w, v) && q in Previous(w.edges, m) && m !in Successors(w, q)
    ensures Runs(w, Start(w), steps) && Lost(w, After(w, Start(w), steps), m)
  {
    hide SharedEarly, Shared, Settled, Poised, Idle, Above, Acyclic, Start, Successors, Enabled, Apply, Started, Blocked, Early;
    UncoveredIsShared(w, v, m, q);
    SharedStage(w, m);
    SettledStart(w);
    var first := ExecuteStage(w, Start(w), {}, Above(w, Before(w, m)));
    var s := After(w, Start(w), first);
    StageReady(w, s, m, q);
    PoisedIsIdle(w, s, q);
    var c := AcquireIdle(w, s, q);
    var s' := Apply(w, s, Acquire(c));
    UnderWay(w, s, s', c, m, q);
    var rest := Race(w, s', m, q, 0);
    RunsPrepend(w, s, Acquire(c), rest);
    RunsConcat(w, Start(w), first, [Acquire(c)] + rest);
    steps := first + ([Acquire(c)] + rest);
    AllChecked(w, After(w, s', rest), v, m);
  }

  lemma AllChecked(w: Workflow, t: State, v: Id, m: Id)
    requires WellFormed(w) && m in Successors(w, v) && !Spawned(t, m)
    requires forall j :: 0 <= j < |w.nodes| && m in Successors(w, w.nodes[j]) ==> w.nodes[j] in t.checked
    ensures Lost(w, t, m)
  {
    hide Successors;
    forall u | m in Successors(w, u)
      ensures u in t.checked
    {
      SuccessorEdge(w, u, m);
    }
  }

  lemma UnderWay(w: Workflow, s: State, s': State, c: nat, m: Id, q: Id)
    requires WellFormed(w) && Acyclic(GraphOf(w)) && SharedEarly(w) && Shared(w, m)
    requires Settled(w, s, Above(w, Before(w, m))) && Started(s, s', q, c, Created)
    requires q in Previous(w.edges, m) && m !in Successors(w, q)
    ensures Blocked(w, s', m, q)
    ensures forall j :: 0 <= j < |w.nodes| && m in Successors(w, w.nodes[j]) ==> Poised(w, s', w.nodes[j])
  {
    hide SharedEarly, Shared, Above, Acyclic, Successors, Early;
    StageReady(w, s, m, q);
    assert forall d :: 0 <= d < |s.calls| ==> s'.calls[d].node == s.calls[d].node;
    forall j | 0 <= j < |w.nodes| && m in Successors(w, w.nodes[j])
      ensures Poised(w, s', w.nodes[j])
    {
      var u := w.nodes[j];
      SuccessorEdge(w, u, m);
      StageReady(w, s, m, u);
      var d :| 0 <= d < |s.calls| && s.calls[d].node == u && s.calls[d].phase == Pending;
      assert s'.calls[d] == s.calls[d];
    }
  }

  ghost predicate LosingRun(w: Workflow, steps: seq<Step>, m: Id)
  {
    Runs(w, Start(w), steps) && Lost(w, After(w, Start(w), steps), m)
  }

  ghost predicate CanLose(w: Workflow)
  {
    exists steps, m :: LosingRun(w, steps, m)
  }

  /** On these workflows: with the given selection some run loses a node if and only if it is not covered. */
  lemma LosesUnlessCovered(w: Workflow)
    requires WellFormed(w) && Acyclic(GraphOf(w)) && SharedEarly(w)
    ensures CanLose(w) <==> !Covered(w)
  {
    hide WellFormed, Acyclic, SharedEarly, Runs, Lost;
    if CanLose(w) && Covered(w) {
      var steps, m :| LosingRun(w, steps, m);
      CoveredNeverLoses(w, steps, m);
    }
    if !Covered(w) {
      var v, m, q :| m in Successors(w, v) && q in Previous(w.edges, m) && m !in Successors(w, q);
      var steps := UncoveredLoses(w, v, m, q);
      assert LosingRun(w, steps, m);
    }
  }

  // ---------- whatever is selected ----------

  /** A port that no edge has. */
  function Unused(edges: seq<Link>): (port: string)
    ensures forall e :: e in edges ==> |e.port| < |port|
  {
    if edges == [] then "x"
    else
      var n := |edges| - 1;
      var port := Unused(edges[..n]);
      assert edges == edges[..n] + [edges[n]];
      port + edges[n].port
  }

  /** All selections are covered if and only if every branch target has a sole predecessor. */
  lemma CoveredForAll(w: Workflow)
    ensures (forall sel :: Covered(With(w, sel))) <==> SolePredecessor(w)
  {
    if SolePredecessor(w) {
      forall sel
        ensures Covered(With(w, sel))
      {
        SoleIsCovered(With(w, sel));
      }
    } else {
      var e, d :| e in w.edges && d in w.edges && e.source in w.branching && d.target == e.target && d.source != e.source;
      var sel := n => if n == d.source then d.port else Unused(w.edges);
      UncoveredBy(With(w, sel), e, d);
      assert !Covered(With(w, sel));
    }
  }

  lemma UncoveredBy(w: Workflow, e: Link, d: Link)
    requires e in w.edges && d in w.edges && e.source in w.branching && d.target == e.target && d.source != e.source
    requires w.selected(d.source) == d.port && w.selected(e.source) == Unused(w.edges)
    ensures !Covered(w)
  {
    var m := e.target;
    PortTargetsIn(w.edges, d.source, d.port, m);
    TargetsIn(w.edges, d.source, m);
    PreviousIn(w.edges, m, e.source);
    PortTargetsIn(w.edges, e.source, Unused(w.edges), m);
    assert m in Successors(w, d.source) && m !in Successors(w, e.source);
  }

  /**
    The condition that a caller can check: for some selection some run loses a node if and only if
    some branch target has a second predecessor.
   */
  lemma LosesUnlessSole(w: Workflow)
    requires WellFormed(w) && Acyclic(GraphOf(w)) && SharedEarly(w)
    ensures (exists sel :: CanLose(With(w, sel))) <==> !SolePredecessor(w)
  {
    forall sel
      ensures CanLose(With(w, sel)) <==> !Covered(With(w, sel))
    {
      SameUnder(w, sel, "");
      SharedUnder(w, sel);
      LosesUnlessCovered(With(w, sel));
    }
    CoveredForAll(w);
  }

  /** The class of workflows does not depend on the selection. */
  lemma SharedUnder(w: Workflow, sel: Selection)
    requires SharedEarly(w)
    ensures SharedEarly(With(w, sel))
  {
    var v := With(w, sel);
    forall m, q | Shared(v, m) && q in Previous(v.edges, m)
      ensures q in v.branching && Early(v, q)
    {
      assert Shared(w, m);
      SameUnder(w, sel, q);
    }
  }
}
