/** A call waits for the calls that it has started: when it has returned, so have they. */
module SchedulerNesting {
  import opened Scheduler

  /** Only a call that has checked its successors has children, and it does not return before them. */
  ghost predicate Nested(s: State)
  {
    forall d :: 0 <= d < |s.calls| && s.calls[d].parent != -1 ==> NestedIn(s, d)
  }

  ghost predicate NestedIn(s: State, d: nat)
    requires d < |s.calls|
  {
    var c := s.calls[d].parent;
    && 0 <= c < d && s.calls[c].phase != Pending && s.calls[c].phase != Holding
    && (s.calls[c].phase == Ended ==> s.calls[d].phase == Ended)
  }

  lemma NestedStart(w: Workflow)
    ensures Nested(Start(w))
  {
    StartPending(w, w.nodes);
  }

  lemma NestedStep(w: Workflow, s: State, step: Step)
    requires Nested(s) && Enabled(w, s, step)
    ensures Nested(Apply(w, s, step))
  {
    hide Check, Successors;
    var s' := Apply(w, s, step);
    forall d | 0 <= d < |s'.calls| && s'.calls[d].parent != -1
      ensures NestedIn(s', d)
    {
      if d < |s.calls| {
        assert NestedIn(s, d);
      }
    }
  }

  lemma {:induction false} RunsAreNested(w: Workflow, s: State, steps: seq<Step>)
    requires Nested(s) && Runs(w, s, steps)
    ensures Nested(After(w, s, steps))
    decreases |steps|
  {
    hide Nested, Enabled, Apply;
    if steps != [] {
      NestedStep(w, s, steps[0]);
      RunsAreNested(w, Apply(w, s, steps[0]), steps[1..]);
    }
  }

  /** `d` was started by `c`, directly or through other calls. */
  ghost predicate Below(s: State, c: nat, d: nat)
    requires Nested(s) && d < |s.calls|
    decreases d
  {
    c == d || (s.calls[d].parent != -1 && (assert NestedIn(s, d); Below(s, c, s.calls[d].parent)))
  }

  lemma {:induction false} EndsAfterAll(s: State, c: nat, d: nat)
    requires Nested(s) && c < |s.calls| && d < |s.calls| && Below(s, c, d) && s.calls[c].phase == Ended
    ensures s.calls[d].phase == Ended
    decreases d
  {
    if c != d {
      assert NestedIn(s, d);
      EndsAfterAll(s, c, s.calls[d].parent);
    }
  }

  /** In every reachable state, with or without failures: a call that has returned has nothing left under way. */
  lemma ReturnsAfterAll(w: Workflow, steps: seq<Step>, c: nat, d: nat)
    requires Runs(w, Start(w), steps)
    ensures var s := After(w, Start(w), steps);
            Nested(s) && (c < |s.calls| && d < |s.calls| && Below(s, c, d) && s.calls[c].phase == Ended ==> s.calls[d].phase == Ended)
  {
    hide Runs, After, Start, Nested;
    NestedStart(w);
    RunsAreNested(w, Start(w), steps);
    var s := After(w, Start(w), steps);
    if c < |s.calls| && d < |s.calls| && Below(s, c, d) && s.calls[c].phase == Ended {
      EndsAfterAll(s, c, d);
    }
  }

  /** The calls that `execute` awaits have returned. */
  ghost predicate Returned(s: State)
  {
    forall c :: 0 <= c < |s.calls| && s.calls[c].parent == -1 ==> s.calls[c].phase == Ended
  }

  /** When `execute` returns, every call has returned. */
  lemma {:induction false} ReturnedIsAll(s: State, d: nat)
    requires Nested(s) && Returned(s) && d < |s.calls|
    ensures s.calls[d].phase == Ended
    decreases d
  {
    if s.calls[d].parent != -1 {
      assert NestedIn(s, d);
      ReturnedIsAll(s, s.calls[d].parent);
    }
  }
}
