/**
  In which order nodes run. A node is started when all its predecessors in the execution path have
  completed, and its component runs when all those that were in the path when its task began have. A
  predecessor that enters the path later is not waited for.
 */
module SchedulerOrder {
  import opened WorkflowGraph
  import opened Scheduler
  import opened SchedulerBound
  import opened SchedulerProgress
  import opened SchedulerResults
  import opened SchedulerStaging

  // ---------- started ----------

  lemma {:induction false} SpawnedIsReady(w: Workflow, branching: bool, inPath: set<Id>, completed: set<Id>, ms: seq<Id>, m: Id, p: Id)
    requires m in Check(w, branching, inPath, completed, ms).1 && p in Previous(w.edges, m) && p in inPath
    ensures p in completed
    decreases |ms|
  {
    var marked := if branching then inPath + {ms[0]} else inPath;
    var rest := Check(w, branching, marked, completed, ms[1..]).1;
    if m in rest {
      SpawnedIsReady(w, branching, marked, completed, ms[1..], m, p);
    }
  }

  /** The completion check of a call starts `m`. */
  ghost predicate StartedBy(w: Workflow, s: State, c: nat, m: Id)
    requires Enabled(w, s, Resume(c))
  {
    var calls := Apply(w, s, Resume(c)).calls;
    exists d :: |s.calls| <= d < |calls| && calls[d].node == m
  }

  /**
    A successor is started only when all its predecessors in the path have completed, and is left
    only when one of them has not. For a plain node, which marks nothing, that is exactly when.
   */
  lemma StartsWhenReady(w: Workflow, s: State, c: nat, m: Id)
    requires Enabled(w, s, Resume(c)) && m in Successors(w, s.calls[c].node)
    ensures StartedBy(w, s, c, m) ==> Ready(w, s.inPath, s.completed, m)
    ensures !StartedBy(w, s, c, m) ==> !Ready(w, Apply(w, s, Resume(c)).inPath, s.completed, m)
    ensures s.calls[c].node !in w.branching ==> (StartedBy(w, s, c, m) <==> Ready(w, s.inPath, s.completed, m))
  {
    hide Check, Successors;
    var n := s.calls[c].node;
    var spawned := Check(w, n in w.branching, s.inPath, s.completed, Successors(w, n)).1;
    var s' := Apply(w, s, Resume(c));
    CheckResult(w, n in w.branching, s.inPath, s.completed, Successors(w, n), m);
    if m in spawned {
      var i :| 0 <= i < |spawned| && spawned[i] == m;
      assert s'.calls[|s.calls| + i].node == m;
      forall p | p in Previous(w.edges, m) && p in s.inPath
        ensures p in s.completed
      {
        SpawnedIsReady(w, n in w.branching, s.inPath, s.completed, Successors(w, n), m, p);
      }
    }
    if n !in w.branching {
      PlainMarksNothing(w, s.inPath, s.completed, Successors(w, n));
    }
  }

  lemma {:induction false} PlainMarksNothing(w: Workflow, inPath: set<Id>, completed: set<Id>, ms: seq<Id>)
    ensures Check(w, false, inPath, completed, ms).0 == inPath
    decreases |ms|
  {
    if ms != [] {
      PlainMarksNothing(w, inPath, completed, ms[1..]);
    }
  }

  // ---------- running ----------

  /** The task of `n` waits for `waits`, or is over or running with all of them completed, or starts anew. */
  ghost predicate Heeds(s: State, n: Id, waits: set<Id>)
  {
    && n in s.task
    && (s.task[n].Gathering? ==> s.task[n].waits == waits)
    && (s.task[n].Running? || s.task[n].Succeeded? ==> waits <= s.completed)
  }

  ghost predicate NoBegin(steps: seq<Step>, n: Id)
  {
    forall i :: 0 <= i < |steps| ==> steps[i] != Begin(n)
  }

  lemma HeedsStep(w: Workflow, s: State, step: Step, n: Id, waits: set<Id>)
    requires Safe(s) && Heeds(s, n, waits) && Enabled(w, s, step) && step != Begin(n)
    ensures Heeds(Apply(w, s, step), n, waits)
  {
    hide Check, Locked;
    var s' := Apply(w, s, step);
    if step.Proceed? && step.n == n {
      forall p | p in waits
        ensures p in s.completed
      {
        assert IsTask(s, p, Succeeded);
      }
    }
  }

  lemma {:induction false} HeedsRun(w: Workflow, s: State, steps: seq<Step>, n: Id, waits: set<Id>)
    requires Safe(s) && Heeds(s, n, waits) && Runs(w, s, steps) && NoBegin(steps, n)
    ensures Heeds(After(w, s, steps), n, waits)
    decreases |steps|
  {
    hide Safe, Heeds, Enabled, Apply;
    if steps != [] {
      HeedsStep(w, s, steps[0], n, waits);
      SafeStep(w, s, steps[0]);
      HeedsRun(w, Apply(w, s, steps[0]), steps[1..], n, waits);
    }
  }

  lemma BeginHeeds(w: Workflow, s: State, n: Id)
    requires Safe(s) && Enabled(w, s, Begin(n))
    ensures Heeds(Apply(w, s, Begin(n)), n, ActivePrevious(w, s, n))
  {
  }

  /**
    In every run, failures included: from the last beginning of its task on, a node that runs or has
    completed has all the predecessors completed that were in the path at that beginning.
   */
  lemma RunsAfterPath(w: Workflow, before: seq<Step>, n: Id, after: seq<Step>, p: Id)
    requires Runs(w, Start(w), before) && Enabled(w, After(w, Start(w), before), Begin(n))
    requires Runs(w, Apply(w, After(w, Start(w), before), Begin(n)), after) && NoBegin(after, n)
    requires p in Previous(w.edges, n) && p in After(w, Start(w), before).inPath
    ensures var t := After(w, Apply(w, After(w, Start(w), before), Begin(n)), after);
            IsTask(t, n, Running) || IsTask(t, n, Succeeded) ==> p in t.completed
  {
    var s := After(w, Start(w), before);
    hide Safe, Enabled, Apply, Start, Runs, After;
    SafeStart(w);
    RunsAreSafe(w, Start(w), before);
    BeginHeeds(w, s, n);
    SafeStep(w, s, Begin(n));
    HeedsRun(w, Apply(w, s, Begin(n)), after, n, ActivePrevious(w, s, n));
  }

  // ---------- what is not waited for ----------

  /**
    A stage leads to `n` and does not contain its predecessor `v`: then some run without component
    failure completes `n` while `v` has not been started.
   */
  lemma CompletesEarly(w: Workflow, a: set<Id>, n: Id, v: Id) returns (steps: seq<Step>)
    requires WellFormed(w) && Acyclic(GraphOf(w)) && Stage(w, a) && n in w.nodes && n !in a && Callable(w, a, n)
    requires v in Previous(w.edges, n) && v !in a
    ensures Runs(w, Start(w), steps) && NoFail(steps)
    ensures var t := After(w, Start(w), steps); n in t.completed && v !in t.task
  {
    hide WellFormed, Acyclic, Stage, Settled, Idle, Start, Runs, After, Callable, NoFail, Executed;
    SettledStart(w);
    var first := ExecuteStage(w, Start(w), {}, a);
    var s := After(w, Start(w), first);
    SettledIsIdle(w, s, a, n);
    NotItsOwn(w, n);
    var rest, c := Execute(w, s, n);
    var t := After(w, s, rest);
    ExecutedTask(w, s, t, a, n, c, v);
    NoFailConcat(first, rest);
    RunsConcat(w, Start(w), first, rest);
    steps := first + rest;
  }

  lemma NotItsOwn(w: Workflow, n: Id)
    requires WellFormed(w) && Acyclic(GraphOf(w))
    ensures n !in Previous(w.edges, n)
  {
    if n in Previous(w.edges, n) {
      EarlierIsDeeper(w, n, n);
    }
  }

  lemma NoFailConcat(a: seq<Step>, b: seq<Step>)
    requires NoFail(a) && NoFail(b)
    ensures NoFail(a + b)
  {
  }

  lemma ExecutedTask(w: Workflow, s: State, t: State, a: set<Id>, n: Id, c: nat, v: Id)
    requires Settled(w, s, a) && Executed(w, s, t, n, c) && v !in a && v in Previous(w.edges, n) && n !in Previous(w.edges, n)
    ensures n in t.completed && v !in t.task
  {
  }
}
