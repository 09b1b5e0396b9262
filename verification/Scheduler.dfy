/**
  `AsyncWorkflowEngine` as a step system. Between two points where a coroutine can really be
  suspended, its code is one step; steps of different coroutines interleave freely. Component
  execution is an oracle: a running task finishes or fails at any time, and a branching node that
  completes selects a fixed port.
 */
module Scheduler {
  import opened WorkflowGraph

  datatype Workflow = Workflow(nodes: seq<Id>, branching: set<Id>, edges: seq<Link>, selected: Id -> string)

  /** The targets of the edges that leave `v` through one port, in order. */
  function PortTargets(edges: seq<Link>, v: Id, port: string): seq<Id>
  {
    if edges == [] then []
    else
      var n := |edges| - 1;
      PortTargets(edges[..n], v, port) + (if edges[n].source == v && edges[n].port == port then [edges[n].target] else [])
  }

  /** `previous_nodes`: the sources of the edges that enter `m`. */
  function Previous(edges: seq<Link>, m: Id): seq<Id>
  {
    if edges == [] then []
    else
      var n := |edges| - 1;
      Previous(edges[..n], m) + (if edges[n].target == m then [edges[n].source] else [])
  }

  /** The successors that the completion of `v` looks at. */
  function Successors(w: Workflow, v: Id): seq<Id>
  {
    if v in w.branching then PortTargets(w.edges, v, w.selected(v)) else Targets(w.edges, v)
  }

  // ---------- states ----------

  /** A call of `execute_node`; `parent` is the call that awaits it, or -1 for `execute`. */
  datatype Call = Call(node: Id, parent: int, phase: Phase)

  /** Waiting for the lock, holding it while its coroutine task runs, awaiting successors, over, or raised. */
  datatype Phase = Pending | Holding | Awaiting | Ended | Raised

  /** A `_process_node` task: created, awaiting predecessor tasks, running, or over. */
  datatype Task = Created | Gathering(waits: set<Id>) | Running | Succeeded | Failed

  /**
    `task` is the dictionary of the last task per node. `checked` (the nodes whose completion check
    has run) and `completions` only record history.
   */
  datatype State = State(
    calls: seq<Call>,
    task: map<Id, Task>,
    lock: map<Id, nat>,
    executing: set<Id>,
    completed: set<Id>,
    inPath: set<Id>,
    checked: set<Id>,
    completions: multiset<Id>)

  function Start(w: Workflow): State
  {
    State(StartCalls(w, w.nodes), map[], map[], {}, {}, {}, {}, multiset{})
  }

  /** One call per node without incoming edge. */
  function StartCalls(w: Workflow, nodes: seq<Id>): seq<Call>
  {
    if nodes == [] then []
    else
      var n := |nodes| - 1;
      StartCalls(w, nodes[..n]) + (if Previous(w.edges, nodes[n]) == [] then [Call(nodes[n], -1, Pending)] else [])
  }

  // ---------- steps ----------

  datatype Step =
    | Acquire(c: nat)
    | Begin(n: Id)
    | Proceed(n: Id)
    | Finish(n: Id)
    | Fail(n: Id)
    | Resume(c: nat)
    | End(c: nat)
    | Raise(c: nat)

  /** `n` has a coroutine task that is not over yet. */
  predicate Active(s: State, n: Id)
  {
    n in s.task && (s.task[n].Created? || s.task[n].Gathering? || s.task[n].Running?)
  }

  predicate IsTask(s: State, n: Id, t: Task)
  {
    n in s.task && s.task[n] == t
  }

  /** The predecessors that a task waits for: those in the execution path. */
  function ActivePrevious(w: Workflow, s: State, n: Id): set<Id>
  {
    set p | p in Previous(w.edges, n) && p in s.inPath
  }

  /** All predecessors of `m` in the execution path have completed. */
  predicate Ready(w: Workflow, inPath: set<Id>, completed: set<Id>, m: Id)
  {
    forall p :: p in Previous(w.edges, m) && p in inPath ==> p in completed
  }

  /** The completion check over the successors: a branching node also marks each one it looks at. */
  function Check(w: Workflow, branching: bool, inPath: set<Id>, completed: set<Id>, ms: seq<Id>): (set<Id>, seq<Id>)
    decreases |ms|
  {
    if ms == [] then (inPath, [])
    else
      var marked := if branching then inPath + {ms[0]} else inPath;
      var (inPath', rest) := Check(w, branching, marked, completed, ms[1..]);
      (inPath', (if Ready(w, marked, completed, ms[0]) then [ms[0]] else []) + rest)
  }

  function Children(ms: seq<Id>, parent: nat): (r: seq<Call>)
    ensures |r| == |ms| && forall i :: 0 <= i < |r| ==> r[i] == Call(ms[i], parent, Pending)
  {
    seq(|ms|, i requires 0 <= i < |ms| => Call(ms[i], parent, Pending))
  }

  predicate Enabled(w: Workflow, s: State, step: Step)
  {
    match step
    case Acquire(c) => c < |s.calls| && s.calls[c].phase == Pending && s.calls[c].node !in s.lock
    case Begin(n) => IsTask(s, n, Created)
    case Proceed(n) => n in s.task && s.task[n].Gathering? && forall p :: p in s.task[n].waits ==> IsTask(s, p, Succeeded)
    case Finish(n) => IsTask(s, n, Running)
    case Fail(n) => Active(s, n)
    case Resume(c) => c < |s.calls| && s.calls[c].phase == Holding && IsTask(s, s.calls[c].node, Succeeded)
    case End(c) =>
      c < |s.calls| && s.calls[c].phase == Awaiting &&
      forall d :: 0 <= d < |s.calls| && s.calls[d].parent == c ==> s.calls[d].phase == Ended
    case Raise(c) =>
      c < |s.calls| &&
      ((s.calls[c].phase == Holding && IsTask(s, s.calls[c].node, Failed)) ||
       (s.calls[c].phase == Awaiting && exists d :: 0 <= d < |s.calls| && s.calls[d].parent == c && s.calls[d].phase == Raised))
  }

  function SetPhase(calls: seq<Call>, c: nat, p: Phase): seq<Call>
    requires c < |calls|
  {
    calls[c := calls[c].(phase := p)]
  }

  /** What a step does. */
  function Apply(w: Workflow, s: State, step: Step): State
    requires Enabled(w, s, step)
  {
    match step
    case Acquire(c) =>
      var n := s.calls[c].node;
      if n in s.executing || n in s.completed then s.(calls := SetPhase(s.calls, c, Ended))
      else
        s.(calls := SetPhase(s.calls, c, Holding), lock := s.lock[n := c], task := s.task[n := Created],
           executing := s.executing + {n}, inPath := s.inPath + {n})
    case Begin(n) =>
      var active := ActivePrevious(w, s, n);
      if exists p :: p in active && p !in s.task then
        s.(task := s.task[n := Failed], executing := s.executing - {n})
      else s.(task := s.task[n := if active == {} then Running else Gathering(active)])
    case Proceed(n) => s.(task := s.task[n := Running])
    case Finish(n) =>
      s.(task := s.task[n := Succeeded], executing := s.executing - {n},
         completed := s.completed + {n}, completions := s.completions + multiset{n})
    case Fail(n) => s.(task := s.task[n := Failed], executing := s.executing - {n})
    case Resume(c) =>
      var n := s.calls[c].node;
      var (inPath', ms) := Check(w, n in w.branching, s.inPath, s.completed, Successors(w, n));
      s.(calls := SetPhase(s.calls, c, Awaiting) + Children(ms, c), inPath := inPath', checked := s.checked + {n})
    case End(c) => s.(calls := SetPhase(s.calls, c, Ended), lock := s.lock - {s.calls[c].node})
    case Raise(c) => s.(calls := SetPhase(s.calls, c, Raised), lock := s.lock - {s.calls[c].node})
  }

  /** The steps that are possible one after the other from `s`. */
  ghost predicate Runs(w: Workflow, s: State, steps: seq<Step>)
    decreases |steps|
  {
    steps != [] ==> Enabled(w, s, steps[0]) && Runs(w, Apply(w, s, steps[0]), steps[1..])
  }

  ghost function After(w: Workflow, s: State, steps: seq<Step>): State
    requires Runs(w, s, steps)
    decreases |steps|
  {
    if steps == [] then s else After(w, Apply(w, s, steps[0]), steps[1..])
  }

  // ---------- safety: one owner per node, one completion ----------

  predicate Owns(p: Phase)
  {
    p == Holding || p == Awaiting
  }

  /** The lock of a node is held by exactly the call that owns it. */
  ghost predicate Locked(s: State)
  {
    && (forall n :: n in s.lock ==> s.lock[n] < |s.calls| && s.calls[s.lock[n]].node == n && Owns(s.calls[s.lock[n]].phase))
    && (forall c :: 0 <= c < |s.calls| && Owns(s.calls[c].phase) ==> s.calls[c].node in s.lock && s.lock[s.calls[c].node] == c)
  }

  /** The owner of `n` waits for its task. */
  ghost predicate Held(s: State, n: Id)
    requires Locked(s)
  {
    n in s.lock && s.calls[s.lock[n]].phase == Holding
  }

  ghost predicate Worked(s: State)
    requires Locked(s)
  {
    && (forall n :: n in s.executing <==> Active(s, n))
    && (forall n :: n in s.executing ==> Held(s, n))
    && (forall n :: IsTask(s, n, Succeeded) <==> n in s.completed)
    && (forall c :: 0 <= c < |s.calls| && s.calls[c].phase == Holding ==> s.calls[c].node in s.task && s.calls[c].node !in s.checked)
    && (forall c :: 0 <= c < |s.calls| && s.calls[c].phase == Awaiting ==> s.calls[c].node in s.checked)
    && s.checked <= s.completed
    && (forall n :: n in s.completed ==> n in s.checked || Held(s, n))
    && (forall n :: s.completions[n] == if n in s.completed then 1 else 0)
  }

  ghost predicate Safe(s: State)
  {
    Locked(s) && Worked(s)
  }

  lemma SafeStart(w: Workflow)
    ensures Safe(Start(w))
  {
    StartPending(w, w.nodes);
  }

  lemma {:induction false} StartPending(w: Workflow, nodes: seq<Id>)
    ensures forall c :: 0 <= c < |StartCalls(w, nodes)| ==>
              StartCalls(w, nodes)[c].phase == Pending && StartCalls(w, nodes)[c].parent == -1
    decreases |nodes|
  {
    if nodes != [] {
      StartPending(w, nodes[..|nodes| - 1]);
    }
  }

  lemma SafeAcquire(w: Workflow, s: State, c: nat)
    requires Safe(s) && Enabled(w, s, Acquire(c))
    ensures Safe(Apply(w, s, Acquire(c)))
  {
    var s', n := Apply(w, s, Acquire(c)), s.calls[c].node;
    LockedAcquire(w, s, c);
    hide Locked;
    if n !in s.executing && n !in s.completed {
      assert Held(s', n) && Active(s', n);
    }
    forall m | m != n
      ensures (Active(s', m) <==> Active(s, m)) && (Held(s, m) ==> Held(s', m))
    {
      HeldStays(w, s, c, m);
    }
  }

  lemma LockedAcquire(w: Workflow, s: State, c: nat)
    requires Safe(s) && Enabled(w, s, Acquire(c))
    ensures Locked(Apply(w, s, Acquire(c))) && !Held(s, s.calls[c].node)
  {
    hide Worked;
  }

  lemma HeldStays(w: Workflow, s: State, c: nat, m: Id)
    requires Safe(s) && Enabled(w, s, Acquire(c)) && Locked(Apply(w, s, Acquire(c))) && m != s.calls[c].node
    ensures Held(s, m) ==> Held(Apply(w, s, Acquire(c)), m)
  {
    hide Worked;
  }

  lemma SafeTask(w: Workflow, s: State, step: Step)
    requires Safe(s) && Enabled(w, s, step) && (step.Begin? || step.Proceed? || step.Fail?)
    ensures Safe(Apply(w, s, step))
  {
  }

  lemma SafeFinish(w: Workflow, s: State, n: Id)
    requires Safe(s) && Enabled(w, s, Finish(n))
    ensures Safe(Apply(w, s, Finish(n)))
  {
    assert Active(s, n);
    var s' := Apply(w, s, Finish(n));
    forall m | m in s'.completed
      ensures m in s'.checked || Held(s', m)
    {
      assert m == n ==> Held(s, n);
      assert Held(s, m) ==> Held(s', m);
    }
  }

  lemma SafeResume(w: Workflow, s: State, c: nat)
    requires Safe(s) && Enabled(w, s, Resume(c))
    ensures Safe(Apply(w, s, Resume(c)))
  {
  }

  lemma SafeRelease(w: Workflow, s: State, step: Step)
    requires Safe(s) && Enabled(w, s, step) && (step.End? || step.Raise?)
    ensures Safe(Apply(w, s, step))
  {
    var s' := Apply(w, s, step);
    assert Locked(s');
    assert forall m :: m != s.calls[step.c].node ==> (Held(s, m) <==> Held(s', m));
  }

  lemma SafeStep(w: Workflow, s: State, step: Step)
    requires Safe(s) && Enabled(w, s, step)
    ensures Safe(Apply(w, s, step))
  {
    hide Safe, Enabled, Apply;
    match step
    case Acquire(c) => SafeAcquire(w, s, c);
    case Begin(_) => SafeTask(w, s, step);
    case Proceed(_) => SafeTask(w, s, step);
    case Finish(n) => SafeFinish(w, s, n);
    case Fail(_) => SafeTask(w, s, step);
    case Resume(c) => SafeResume(w, s, c);
    case End(_) => SafeRelease(w, s, step);
    case Raise(_) => SafeRelease(w, s, step);
  }

  /**
    In every interleaving, with or without failures: a node whose task is not over is owned by
    exactly one call, which holds its lock; and no node completes twice.
   */
  lemma {:induction false} RunsAreSafe(w: Workflow, s: State, steps: seq<Step>)
    requires Safe(s) && Runs(w, s, steps)
    ensures Safe(After(w, s, steps))
    decreases |steps|
  {
    if steps != [] {
      SafeStep(w, s, steps[0]);
      RunsAreSafe(w, Apply(w, s, steps[0]), steps[1..]);
    }
  }

  lemma OneOwner(w: Workflow, steps: seq<Step>, c: nat, d: nat)
    requires Runs(w, Start(w), steps)
    ensures var s := After(w, Start(w), steps);
            && (forall n :: s.completions[n] <= 1)
            && (forall n :: Active(s, n) ==> n in s.lock && s.lock[n] < |s.calls| && s.calls[s.lock[n]] .phase == Holding)
            && (c < d < |s.calls| && Owns(s.calls[c].phase) && Owns(s.calls[d].phase) ==> s.calls[c].node != s.calls[d].node)
  {
    SafeStart(w);
    RunsAreSafe(w, Start(w), steps);
  }
}
