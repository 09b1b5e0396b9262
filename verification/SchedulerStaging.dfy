/**
  How to steer a run: one called node executed from its lock to its completion check, and a whole
  stage of plain nodes, closed under predecessors, executed one after the other.
 */
module SchedulerStaging {
  import opened WorkflowGraph
  import opened Scheduler
  import opened SchedulerBound
  import opened SchedulerProgress
  import opened SchedulerResults

  /** No component fails. */
  ghost predicate NoFail(steps: seq<Step>)
  {
    forall i :: 0 <= i < |steps| ==> !steps[i].Fail?
  }

  lemma RunsPrepend(w: Workflow, s: State, step: Step, rest: seq<Step>)
    requires Enabled(w, s, step) && Runs(w, Apply(w, s, step), rest)
    ensures Runs(w, s, [step] + rest) && After(w, s, [step] + rest) == After(w, Apply(w, s, step), rest)
  {
    assert ([step] + rest)[1..] == rest;
  }

  lemma {:induction false} RunsConcat(w: Workflow, s: State, a: seq<Step>, b: seq<Step>)
    requires Runs(w, s, a) && Runs(w, After(w, s, a), b)
    ensures Runs(w, s, a + b) && After(w, s, a + b) == After(w, After(w, s, a), b)
    decreases |a|
  {
    if a == [] {
      assert a + b == b;
    } else {
      RunsConcat(w, Apply(w, s, a[0]), a[1..], b);
      assert (a + b)[1..] == a[1..] + b;
    }
  }

  // ---------- one node ----------

  ghost predicate Waiting(s: State, u: Id)
  {
    exists c :: 0 <= c < |s.calls| && s.calls[c].node == u && s.calls[c].phase == Pending
  }

  /** A called node that nobody works on, all of whose predecessors in the path have succeeded. */
  ghost predicate Idle(w: Workflow, s: State, u: Id)
  {
    && u !in s.lock && u !in s.executing && u !in s.completed && Waiting(s, u)
    && (forall p :: p in Previous(w.edges, u) && p in s.inPath ==> p != u && IsTask(s, p, Succeeded))
  }

  /** Call `c` took the lock of `u`, ran its task and checked the successors; nothing else happened. */
  ghost predicate Executed(w: Workflow, s: State, s': State, u: Id, c: nat)
  {
    var r := Check(w, u in w.branching, s.inPath + {u}, s.completed + {u}, Successors(w, u));
    && c < |s.calls| && s.calls[c].node == u && s.calls[c].phase == Pending
    && s'.calls == SetPhase(s.calls, c, Awaiting) + Children(r.1, c)
    && s'.task == s.task[u := Succeeded] && s'.lock == s.lock[u := c]
    && s'.executing == s.executing && s'.completed == s.completed + {u}
    && s'.inPath == r.0 && s'.checked == s.checked + {u}
  }

  /** The task of `u` has been created for call `c` and has come as far as `t`. */
  ghost predicate Started(s: State, s': State, u: Id, c: nat, t: Task)
  {
    && c < |s.calls| && s.calls[c].node == u && s.calls[c].phase == Pending
    && s'.calls == SetPhase(s.calls, c, Holding) && s'.task == s.task[u := t] && s'.lock == s.lock[u := c]
    && s'.executing == s.executing + {u} && s'.completed == s.completed
    && s'.inPath == s.inPath + {u} && s'.checked == s.checked
  }

  lemma AcquireIdle(w: Workflow, s: State, u: Id) returns (c: nat)
    requires Idle(w, s, u)
    ensures Enabled(w, s, Acquire(c)) && Started(s, Apply(w, s, Acquire(c)), u, c, Created)
  {
    c :| 0 <= c < |s.calls| && s.calls[c].node == u && s.calls[c].phase == Pending;
  }

  /** With all active predecessors done, the coroutine task gets to run. */
  lemma BeginIdle(w: Workflow, s: State, s1: State, u: Id, c: nat) returns (steps: seq<Step>)
    requires Idle(w, s, u) && u !in Previous(w.edges, u) && Started(s, s1, u, c, Created)
    ensures Runs(w, s1, steps) && NoFail(steps) && Started(s, After(w, s1, steps), u, c, Running)
  {
    var active := ActivePrevious(w, s1, u);
    var s2 := Apply(w, s1, Begin(u));
    assert forall p :: p in active ==> p != u && IsTask(s, p, Succeeded) && IsTask(s1, p, Succeeded);
    RunsPrepend(w, s1, Begin(u), []);
    if active == {} {
      steps := [Begin(u)] + [];
    } else {
      assert s2.task[u] == Gathering(active);
      RunsPrepend(w, s2, Proceed(u), []);
      RunsPrepend(w, s1, Begin(u), [Proceed(u)] + []);
      steps := [Begin(u)] + ([Proceed(u)] + []);
    }
  }

  lemma FinishStarted(w: Workflow, s: State, s2: State, u: Id, c: nat) returns (steps: seq<Step>)
    requires Idle(w, s, u) && Started(s, s2, u, c, Running)
    ensures Runs(w, s2, steps) && NoFail(steps) && Executed(w, s, After(w, s2, steps), u, c)
  {
    var s3 := Apply(w, s2, Finish(u));
    assert s3.executing == s.executing;
    var s4 := Apply(w, s3, Resume(c));
    assert s3.calls[c].node == u;
    RunsPrepend(w, s3, Resume(c), []);
    RunsPrepend(w, s2, Finish(u), [Resume(c)] + []);
    steps := [Finish(u)] + ([Resume(c)] + []);
    assert SetPhase(SetPhase(s.calls, c, Holding), c, Awaiting) == SetPhase(s.calls, c, Awaiting);
  }

  lemma Execute(w: Workflow, s: State, u: Id) returns (steps: seq<Step>, c: nat)
    requires Idle(w, s, u) && u !in Previous(w.edges, u)
    ensures Runs(w, s, steps) && NoFail(steps) && Executed(w, s, After(w, s, steps), u, c)
  {
    hide Idle, Started, Executed, Enabled, Apply;
    c := AcquireIdle(w, s, u);
    var s1 := Apply(w, s, Acquire(c));
    var mid := BeginIdle(w, s, s1, u, c);
    var last := FinishStarted(w, s, After(w, s1, mid), u, c);
    RunsConcat(w, s1, mid, last);
    RunsPrepend(w, s, Acquire(c), mid + last);
    steps := [Acquire(c)] + (mid + last);
  }

  // ---------- a stage of plain nodes ----------

  /** The node is a start node or a chosen successor of a finished node. */
  ghost predicate Callable(w: Workflow, done: set<Id>, u: Id)
  {
    Previous(w.edges, u) == [] || exists v :: v in done && u in Successors(w, v)
  }

  /** Exactly `done` has been executed; whatever can be called is called and waits. */
  ghost predicate Settled(w: Workflow, s: State, done: set<Id>)
  {
    && s.executing == {} && s.completed == done && s.checked == done && s.inPath == done
    && s.lock.Keys == done && s.task.Keys == done && (forall n :: n in done ==> IsTask(s, n, Succeeded))
    && (forall c :: 0 <= c < |s.calls| ==> Callable(w, done, s.calls[c].node))
    && (forall u :: u in w.nodes && u !in done && Callable(w, done, u) ==> Waiting(s, u))
  }

  lemma SettledStart(w: Workflow)
    ensures Settled(w, Start(w), {})
  {
    StartPending(w, w.nodes);
    var s := Start(w);
    forall c | 0 <= c < |s.calls|
      ensures Callable(w, {}, s.calls[c].node)
    {
      StartChosen(w, w.nodes, c);
    }
    forall u | u in w.nodes && Callable(w, {}, u)
      ensures Waiting(s, u)
    {
      StartSpawns(w, w.nodes, u);
      var c :| 0 <= c < |s.calls| && s.calls[c].node == u;
      assert s.calls[c].phase == Pending;
    }
  }

  lemma SettledIsIdle(w: Workflow, s: State, done: set<Id>, u: Id)
    requires Settled(w, s, done) && u in w.nodes && u !in done && Callable(w, done, u)
    ensures Idle(w, s, u)
  {
  }

  /** When all nodes in the path have completed, every successor looked at is started. */
  lemma {:induction false} CheckAll(w: Workflow, inPath: set<Id>, completed: set<Id>, ms: seq<Id>)
    requires inPath <= completed
    ensures Check(w, false, inPath, completed, ms) == (inPath, ms)
    decreases |ms|
  {
    if ms != [] {
      CheckAll(w, inPath, completed, ms[1..]);
      assert [ms[0]] + ms[1..] == ms;
    }
  }

  lemma SettledWaits(w: Workflow, s: State, s': State, done: set<Id>, u: Id, c: nat, x: Id)
    requires Settled(w, s, done) && u !in done && u !in w.branching && Executed(w, s, s', u, c)
    requires x in w.nodes && x !in done + {u} && Callable(w, done + {u}, x)
    ensures Waiting(s', x)
  {
    CheckAll(w, s.inPath + {u}, s.completed + {u}, Successors(w, u));
    if Callable(w, done, x) {
      assert Waiting(s, x);
      var d :| 0 <= d < |s.calls| && s.calls[d].node == x && s.calls[d].phase == Pending;
      assert s'.calls[d] == s.calls[d];
    } else {
      var i :| 0 <= i < |Successors(w, u)| && Successors(w, u)[i] == x;
      assert s'.calls[|s.calls| + i] == Call(x, c, Pending);
    }
  }

  lemma SettledCalls(w: Workflow, s: State, s': State, done: set<Id>, u: Id, c: nat, d: nat)
    requires Settled(w, s, done) && u !in w.branching && Executed(w, s, s', u, c) && d < |s'.calls|
    ensures Callable(w, done + {u}, s'.calls[d].node)
  {
    CheckAll(w, s.inPath + {u}, s.completed + {u}, Successors(w, u));
    if d < |s.calls| {
      assert Callable(w, done, s.calls[d].node);
      assert s'.calls[d].node == s.calls[d].node;
    } else {
      assert s'.calls[d].node in Successors(w, u);
    }
  }

  lemma SettledNext(w: Workflow, s: State, s': State, done: set<Id>, u: Id, c: nat)
    requires Settled(w, s, done) && u !in done && u !in w.branching && Executed(w, s, s', u, c)
    ensures Settled(w, s', done + {u})
  {
    hide Callable, Waiting;
    CheckAll(w, s.inPath + {u}, s.completed + {u}, Successors(w, u));
    forall d | 0 <= d < |s'.calls|
      ensures Callable(w, done + {u}, s'.calls[d].node)
    {
      SettledCalls(w, s, s', done, u, c, d);
    }
    forall x | x in w.nodes && x !in done + {u} && Callable(w, done + {u}, x)
      ensures Waiting(s', x)
    {
      SettledWaits(w, s, s', done, u, c, x);
    }
  }

  /** Plain nodes that contain all their predecessors. */
  ghost predicate Stage(w: Workflow, a: set<Id>)
  {
    && (forall x :: x in a ==> x in w.nodes && x !in w.branching)
    && (forall x, p :: x in a && p in Previous(w.edges, x) ==> p in a)
  }

  lemma {:induction false} Deepest(w: Workflow, xs: set<Id>) returns (u: Id)
    requires xs != {}
    ensures u in xs && forall x :: x in xs ==> Depth(GraphOf(w), x) <= Depth(GraphOf(w), u)
    decreases xs
  {
    u :| u in xs;
    if xs != {u} {
      var v := Deepest(w, xs - {u});
      if Depth(GraphOf(w), v) > Depth(GraphOf(w), u) {
        u := v;
      }
    }
  }

  /** Something in the stage is next: all its predecessors have been executed. */
  lemma NextInStage(w: Workflow, a: set<Id>, done: set<Id>) returns (u: Id)
    requires WellFormed(w) && Acyclic(GraphOf(w)) && Stage(w, a) && done < a
    ensures u in a && u !in done && Callable(w, done, u) && u !in Previous(w.edges, u)
  {
    var some :| some in a && some !in done;
    assert some in a - done;
    u := Deepest(w, a - done);
    if u in Previous(w.edges, u) {
      EarlierIsDeeper(w, u, u);
    }
    if Previous(w.edges, u) != [] {
      var p := Previous(w.edges, u)[0];
      EarlierIsDeeper(w, p, u);
      PlainChooses(w, p, u);
    }
  }

  lemma PlainChooses(w: Workflow, p: Id, u: Id)
    requires p in Previous(w.edges, u) && p !in w.branching
    ensures u in Successors(w, p)
  {
    PreviousIn(w.edges, u, p);
    TargetsIn(w.edges, p, u);
  }

  /** A stage can be executed completely, without a component failure. */
  lemma {:induction false} ExecuteStage(w: Workflow, s: State, done: set<Id>, a: set<Id>) returns (steps: seq<Step>)
    requires WellFormed(w) && Acyclic(GraphOf(w)) && Stage(w, a) && done <= a && Settled(w, s, done)
    ensures Runs(w, s, steps) && NoFail(steps) && Settled(w, After(w, s, steps), a)
    decreases a - done
  {
    hide WellFormed, Acyclic, Settled, Idle, Executed, Enabled, Apply, Callable;
    if done == a {
      steps := [];
    } else {
      var u := NextInStage(w, a, done);
      SettledIsIdle(w, s, done, u);
      var first, c := Execute(w, s, u);
      SettledNext(w, s, After(w, s, first), done, u, c);
      var rest := ExecuteStage(w, After(w, s, first), done + {u}, a);
      RunsConcat(w, s, first, rest);
      steps := first + rest;
    }
  }

  // ---------- everything above some nodes ----------

  /** Only plain nodes lead to `x`. */
  ghost predicate Early(w: Workflow, x: Id)
  {
    forall a :: a != x && Reaches(GraphOf(w), a, x) ==> a !in w.branching
  }

  ghost predicate Leads(w: Workflow, a: Id, x: Id)
  {
    a != x && Reaches(GraphOf(w), a, x)
  }

  /** The nodes that lead to one of `xs`. */
  ghost function Above(w: Workflow, xs: set<Id>): set<Id>
  {
    set a | a in GraphOf(w) && exists x :: x in xs && Leads(w, a, x)
  }

  lemma PreviousLeads(w: Workflow, p: Id, x: Id)
    requires WellFormed(w) && Acyclic(GraphOf(w)) && p in Previous(w.edges, x)
    ensures Leads(w, p, x) && p in GraphOf(w) && x in GraphOf(w)
  {
    EdgeOf(w, p, x);
    ReachesEdge(GraphOf(w), p, x);
    EarlierIsDeeper(w, p, x);
  }

  lemma {:induction false} ReachesIsDeeper(w: Workflow, p: seq<Id>)
    requires WellFormed(w) && Acyclic(GraphOf(w)) && Walk(GraphOf(w), p)
    ensures Depth(GraphOf(w), p[|p| - 1]) <= Depth(GraphOf(w), p[0])
    ensures |p| > 1 ==> Depth(GraphOf(w), p[|p| - 1]) < Depth(GraphOf(w), p[0])
    decreases |p|
  {
    if |p| > 1 {
      WalkInside(GraphOf(w), p, 1);
      DepthFalls(GraphOf(w), p[0], p[1]);
      ReachesIsDeeper(w, p[1..]);
    }
  }

  lemma LeadsIsDeeper(w: Workflow, a: Id, x: Id)
    requires WellFormed(w) && Acyclic(GraphOf(w)) && Leads(w, a, x)
    ensures Depth(GraphOf(w), x) < Depth(GraphOf(w), a)
  {
    var p :| Walk(GraphOf(w), p) && p[0] == a && p[|p| - 1] == x;
    ReachesIsDeeper(w, p);
  }

  lemma LeadsFurther(w: Workflow, p: Id, a: Id, x: Id)
    requires WellFormed(w) && Acyclic(GraphOf(w)) && p in Previous(w.edges, a) && Leads(w, a, x)
    ensures Leads(w, p, x)
  {
    PreviousLeads(w, p, a);
    ReachesTransitive(GraphOf(w), p, a, x);
    LeadsIsDeeper(w, p, a);
    LeadsIsDeeper(w, a, x);
  }

  /** What leads to early nodes is a stage. */
  lemma AboveIsStage(w: Workflow, xs: set<Id>)
    requires WellFormed(w) && Acyclic(GraphOf(w)) && forall x :: x in xs ==> Early(w, x)
    ensures Stage(w, Above(w, xs)) && forall x, p :: x in xs && p in Previous(w.edges, x) ==> p in Above(w, xs)
  {
    hide Leads, Acyclic;
    var a := Above(w, xs);
    forall y | y in a
      ensures y in w.nodes && y !in w.branching
    {
      var x :| x in xs && Leads(w, y, x);
      EarlyLeads(w, y, x);
    }
    forall y, p | y in a && p in Previous(w.edges, y)
      ensures p in a
    {
      var x :| x in xs && Leads(w, y, x);
      LeadsFurther(w, p, y, x);
      PreviousLeads(w, p, y);
    }
    forall x, p | x in xs && p in Previous(w.edges, x)
      ensures p in a
    {
      PreviousLeads(w, p, x);
    }
  }

  lemma EarlyLeads(w: Workflow, y: Id, x: Id)
    requires Early(w, x) && Leads(w, y, x)
    ensures y !in w.branching
  {
  }

  // ---------- the same workflow with other selections ----------

  type Selection = Id -> string

  function With(w: Workflow, sel: Selection): Workflow
  {
    w.(selected := sel)
  }

  /** The graph, and what leads where, does not depend on the selection. */
  lemma SameUnder(w: Workflow, sel: Selection, x: Id)
    ensures var v := With(w, sel); WellFormed(v) == WellFormed(w) && GraphOf(v) == GraphOf(w) && Early(v, x) == Early(w, x)
  {
    assert GraphOf(With(w, sel)) == GraphOf(w);
  }
}
