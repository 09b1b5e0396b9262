/**
  What a subscriber of a workflow has been sent, as a function of the log of all events of that
  workflow: first some recent states, replayed without end markers, then every event as it happens.
 */
module StateLog {
  import opened Options

  /** A published node state, or the state that announces the end of the workflow. */
  datatype Event<S> = Published(state: S) | Completed(state: S)

  function States<S>(log: seq<Event<S>>): (r: seq<S>)
    ensures |r| == |log| && forall i :: 0 <= i < |r| ==> r[i] == log[i].state
  {
    seq(|log|, i requires 0 <= i < |log| => log[i].state)
  }

  /** What a replayed state puts into a queue. */
  function Replay<S>(states: seq<S>): (r: seq<Option<S>>)
    ensures |r| == |states| && forall i :: 0 <= i < |r| ==> r[i] == Some(states[i])
  {
    seq(|states|, i requires 0 <= i < |states| => Some(states[i]))
  }

  /** What an event puts into a queue; the end marker of the queue is `None`. */
  function Items<S>(e: Event<S>): seq<Option<S>>
  {
    if e.Completed? then [Some(e.state), None] else [Some(e.state)]
  }

  function Live<S>(log: seq<Event<S>>): seq<Option<S>>
  {
    if log == [] then [] else Live(log[..|log| - 1]) + Items(log[|log| - 1])
  }

  /** The queue replays the states from `from` on and receives the events from `joined` on. */
  ghost predicate Feeds<S(!new)>(log: seq<Event<S>>, from: nat, joined: nat, items: seq<Option<S>>)
  {
    from <= joined <= |log| && items == Replay(States(log[from..joined])) + Live(log[joined..])
  }

  lemma FeedsNext<S(!new)>(log: seq<Event<S>>, e: Event<S>, from: nat, joined: nat, items: seq<Option<S>>)
    requires Feeds(log, from, joined, items)
    ensures Feeds(log + [e], from, joined, items + Items(e))
  {
    assert (log + [e])[from..joined] == log[from..joined];
    assert (log + [e])[joined..] == log[joined..] + [e];
    assert (log[joined..] + [e])[..|log| - joined] == log[joined..];
  }

  lemma FeedsFirst<S(!new)>(log: seq<Event<S>>, from: nat, items: seq<Option<S>>)
    requires from <= |log| && items == Replay(States(log[from..]))
    ensures Feeds(log, from, |log|, items)
  {
    assert log[from..|log|] == log[from..];
  }

  // ---------- what a subscriber reads ----------

  /** The states in a queue, end markers left out. */
  function Read<S>(items: seq<Option<S>>): seq<S>
  {
    if items == [] then []
    else
      var n := |items| - 1;
      Read(items[..n]) + (if items[n].Some? then [items[n].value] else [])
  }

  /** The number of end markers in a queue. */
  function Ends<S>(items: seq<Option<S>>): nat
  {
    if items == [] then 0 else Ends(items[..|items| - 1]) + (if items[|items| - 1].None? then 1 else 0)
  }

  function Completions<S>(log: seq<Event<S>>): nat
  {
    if log == [] then 0 else Completions(log[..|log| - 1]) + (if log[|log| - 1].Completed? then 1 else 0)
  }

  lemma ReadOne<S>(items: seq<Option<S>>, x: Option<S>)
    ensures Read(items + [x]) == Read(items) + (if x.Some? then [x.value] else [])
    ensures Ends(items + [x]) == Ends(items) + (if x.None? then 1 else 0)
  {
    assert (items + [x])[..|items|] == items;
  }

  lemma {:induction false} ReadReplay<S>(states: seq<S>)
    ensures Read(Replay(states)) == states && Ends(Replay(states)) == 0
    decreases |states|
  {
    if states != [] {
      var n := |states| - 1;
      ReadReplay(states[..n]);
      assert Replay(states) == Replay(states[..n]) + [Some(states[n])];
      ReadOne(Replay(states[..n]), Some(states[n]));
    }
  }

  lemma ReadEvent<S>(items: seq<Option<S>>, e: Event<S>)
    ensures Read(items + Items(e)) == Read(items) + [e.state]
    ensures Ends(items + Items(e)) == Ends(items) + (if e.Completed? then 1 else 0)
  {
    ReadOne(items, Some(e.state));
    if e.Completed? {
      ReadOne(items + [Some(e.state)], None);
      assert items + Items(e) == items + [Some(e.state)] + [None];
    }
  }

  lemma {:induction false} ReadLive<S>(before: seq<Option<S>>, log: seq<Event<S>>)
    ensures Read(before + Live(log)) == Read(before) + States(log)
    ensures Ends(before + Live(log)) == Ends(before) + Completions(log)
    decreases |log|
  {
    hide Read, Ends, Items;
    if log == [] {
      assert before + Live(log) == before;
      assert Read(before) == Read(before) + States(log);
    } else {
      var n, e := |log| - 1, log[|log| - 1];
      ReadLive(before, log[..n]);
      ReadEvent(before + Live(log[..n]), e);
      assert States(log) == States(log[..n]) + [e.state];
      assert before + Live(log) == before + Live(log[..n]) + Items(e);
      assert Read(before) + States(log[..n]) + [e.state] == Read(before) + States(log);
    }
  }

  /**
    A subscriber reads one contiguous segment of the states of the workflow, up to the last one,
    without gap or duplicate, and one end marker for every completion since it joined.
   */
  lemma SubscriberReads<S(!new)>(log: seq<Event<S>>, from: nat, joined: nat, items: seq<Option<S>>)
    requires Feeds(log, from, joined, items)
    ensures Read(items) == States(log)[from..]
    ensures Ends(items) == Completions(log[joined..])
  {
    hide Read, Ends, Live, Completions, Replay;
    ReadReplay(States(log[from..joined]));
    ReadLive(Replay(States(log[from..joined])), log[joined..]);
    assert States(log)[from..] == States(log[from..joined]) + States(log[joined..]);
  }
}
