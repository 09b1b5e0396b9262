/**
  `WorkflowStateManager`: publishes workflow states to subscribers, and replays recent ones to new
  subscribers. Every method runs under one lock, so a call is one step. The clock is a parameter,
  and so is the state, timestamp included.
 */
module StateManager {
  import opened Options
  import opened StateLog

  type Id = string

  /** An unbounded queue; `items` is everything that was ever put into it. */
  class Queue<S> {
    var items: seq<Option<S>>

    constructor ()
      ensures items == []
    {
      items := [];
    }

    method Put(x: Option<S>)
      modifies this
      ensures items == old(items) + [x]
    {
      items := items + [x];
    }
  }

  /** The workflow that a queue listens to, and which part of its log the queue has been sent. */
  datatype Ticket = Ticket(home: Id, from: nat, joined: nat)

  /** Where a new subscriber got its first items from. */
  datatype Source = FromHistory | FromLatest | Nothing

  function Log<S>(log: map<Id, seq<Event<S>>>, id: Id): seq<Event<S>>
  {
    if id in log then log[id] else []
  }

  function Listening<S>(subscribers: map<Id, seq<Queue<S>>>, id: Id): seq<Queue<S>>
  {
    if id in subscribers then subscribers[id] else []
  }

  ghost predicate Unique<T>(s: seq<T>)
  {
    forall i, j :: 0 <= i < j < |s| ==> s[i] != s[j]
  }

  /** The subscriber lists are exactly the queues with a ticket, each listed once. */
  ghost predicate Enrolled<S(!new)>(subscribers: map<Id, seq<Queue<S>>>, tickets: map<Queue<S>, Ticket>)
  {
    && (forall id :: id in subscribers ==> subscribers[id] != [] && Unique(subscribers[id]))
    && (forall id, q :: id in subscribers && q in subscribers[id] ==> q in tickets && tickets[q].home == id)
    && (forall q :: q in tickets ==> q in Listening(subscribers, tickets[q].home))
  }

  /** `states` are the last states of the log, as many as the limit allows. */
  ghost predicate Recent<S(!new)>(log: seq<Event<S>>, states: seq<S>, limit: int)
  {
    && |states| <= |log| && states == States(log)[|log| - |states|..]
    && (limit >= 1 ==> 1 <= |states| <= limit)
    && (limit <= 0 ==> states == [])
  }

  ghost predicate Stored<S(!new)>(log: seq<Event<S>>, states: seq<S>, last: S, limit: int)
  {
    Recent(log, states, limit) && log != [] && last == log[|log| - 1].state
  }

  /** `append`, then `pop(0)` when the list is too long. */
  function Push<S>(states: seq<S>, x: S, limit: int): seq<S>
  {
    var more := states + [x];
    if |more| > limit then more[1..] else more
  }

  /** `states[-limit:]` when the list is too long. */
  function Trim<S>(states: seq<S>, limit: int): seq<S>
  {
    if |states| <= limit then states
    else if limit > 0 then states[|states| - limit..]
    else if -limit <= |states| then states[-limit..]
    else []
  }

  lemma PushStored<S(!new)>(log: seq<Event<S>>, states: seq<S>, e: Event<S>, limit: int)
    requires states == [] || Recent(log, states, limit)
    ensures Stored(log + [e], Push(states, e.state, limit), e.state, limit)
  {
    assert States(log + [e]) == States(log) + [e.state];
    var more := states + [e.state];
    if states == [] {
      assert States(log)[|log|..] == [];
    }
    assert more == (States(log) + [e.state])[|log| - |states|..];
    if |more| > limit {
      assert more[1..] == (States(log) + [e.state])[|log| - |states| + 1..];
    }
  }

  /** Latest states and histories agree with the log. */
  ghost predicate Keeps<S(!new)>(log: map<Id, seq<Event<S>>>, latest: map<Id, S>, history: map<Id, seq<S>>, limit: int)
  {
    && latest.Keys == history.Keys
    && (forall id :: id in history ==> Stored(Log(log, id), history[id], latest[id], limit))
  }

  function History<S>(history: map<Id, seq<S>>, id: Id): seq<S>
  {
    if id in history then history[id] else []
  }

  lemma KeepsEvent<S(!new)>(log: map<Id, seq<Event<S>>>, latest: map<Id, S>, history: map<Id, seq<S>>, limit: int, id: Id, e: Event<S>)
    requires Keeps(log, latest, history, limit)
    ensures Keeps(log[id := Log(log, id) + [e]], latest[id := e.state], history[id := Push(History(history, id), e.state, limit)], limit)
  {
    hide Stored, Push;
    if id in history {
      StoredIsRecent(Log(log, id), history[id], latest[id], limit);
    }
    PushStored(Log(log, id), History(history, id), e, limit);
  }

  function Capped(n: nat, limit: int): int
  {
    if n > limit then limit else n
  }

  /** Nothing is dropped before the limit is reached, and then only the oldest state. */
  lemma PushSize<S(!new)>(log: map<Id, seq<Event<S>>>, latest: map<Id, S>, history: map<Id, seq<S>>, limit: int, id: Id, x: S)
    requires Keeps(log, latest, history, limit) && limit >= 1
    ensures |Push(History(history, id), x, limit)| == Capped(|History(history, id)| + 1, limit)
  {
    hide Stored;
    if id in history {
      StoredIsRecent(Log(log, id), history[id], latest[id], limit);
    }
  }

  lemma StoredIsRecent<S(!new)>(log: seq<Event<S>>, states: seq<S>, last: S, limit: int)
    requires Stored(log, states, last, limit)
    ensures Recent(log, states, limit) && |log| >= 1
    ensures Replay(states) == Replay(States(log)[|log| - |states|..])
    ensures [Some(last)] == Replay(States(log)[|log| - 1..])
    ensures states == [] <==> limit <= 0
    ensures limit >= 1 ==> |states| <= limit
  {
  }

  lemma KeptOf<S(!new)>(log: map<Id, seq<Event<S>>>, latest: map<Id, S>, history: map<Id, seq<S>>, limit: int, id: Id)
    requires Keeps(log, latest, history, limit)
    ensures latest.Keys == history.Keys
    ensures id in history ==>
      var (all, states) := (Log(log, id), history[id]);
      && |all| >= 1 && |all| >= |states| && (states == [] <==> limit <= 0)
      && Replay(states) == Replay(States(all)[|all| - |states|..])
      && [Some(latest[id])] == Replay(States(all)[|all| - 1..])
  {
    hide Stored;
    if id in history {
      StoredIsRecent(Log(log, id), history[id], latest[id], limit);
    }
  }

  /** With a usable limit the history is a non-empty suffix of the log that ends in the latest state. */
  lemma HistoryWithinLimit<S(!new)>(log: map<Id, seq<Event<S>>>, latest: map<Id, S>, history: map<Id, seq<S>>, limit: int, id: Id)
    requires Keeps(log, latest, history, limit) && limit >= 1 && id in latest
    ensures id in history && 1 <= |history[id]| <= limit && |history[id]| <= |Log(log, id)|
    ensures history[id] == States(Log(log, id))[|Log(log, id)| - |history[id]|..]
    ensures latest[id] == history[id][|history[id]| - 1] == Log(log, id)[|Log(log, id)| - 1].state
  {
    hide Keeps, Stored;
    KeptAt(log, latest, history, limit, id);
    LastStored(Log(log, id), history[id], latest[id], limit);
  }

  lemma KeptAt<S(!new)>(log: map<Id, seq<Event<S>>>, latest: map<Id, S>, history: map<Id, seq<S>>, limit: int, id: Id)
    requires Keeps(log, latest, history, limit) && id in latest
    ensures id in history && Stored(Log(log, id), history[id], latest[id], limit)
  {
  }

  lemma LastStored<S(!new)>(log: seq<Event<S>>, states: seq<S>, last: S, limit: int)
    requires Stored(log, states, last, limit) && limit >= 1
    ensures 1 <= |states| <= limit && |states| <= |log| && states == States(log)[|log| - |states|..]
    ensures last == states[|states| - 1] == log[|log| - 1].state
  {
    assert States(log)[|log| - |states|..][|states| - 1] == States(log)[|log| - 1];
  }

  lemma KeepsLess<S(!new)>(log: map<Id, seq<Event<S>>>, latest: map<Id, S>, history: map<Id, seq<S>>, limit: int, gone: set<Id>)
    requires Keeps(log, latest, history, limit)
    ensures Keeps(log, latest - gone, history - gone, limit)
  {
    hide Stored;
  }

  lemma TrimmedIsSame<S(!new)>(log: map<Id, seq<Event<S>>>, latest: map<Id, S>, history: map<Id, seq<S>>, limit: int)
    requires Keeps(log, latest, history, limit)
    ensures (map id | id in history :: Trim(history[id], limit)) == history
  {
    hide Trim;
    forall id | id in history
      ensures Trim(history[id], limit) == history[id]
    {
      TrimKeeps(Log(log, id), history[id], limit);
    }
  }

  /** A history that is kept up to date is never trimmed by the cleanup. */
  lemma TrimKeeps<S(!new)>(log: seq<Event<S>>, states: seq<S>, limit: int)
    requires Recent(log, states, limit)
    ensures Trim(states, limit) == states
  {
  }

  class Manager<S(!new)> {
    const maxInactive: real
    const limit: int
    var subscribers: map<Id, seq<Queue<S>>>
    var latest: map<Id, S>
    var history: map<Id, seq<S>>
    var lastActive: map<Id, real>
    ghost var log: map<Id, seq<Event<S>>>
    ghost var tickets: map<Queue<S>, Ticket>

    /** Every subscriber was sent its part of the log, up to now. */
    ghost predicate Fed(log: map<Id, seq<Event<S>>>)
      reads this`tickets, tickets.Keys
    {
      forall q :: q in tickets ==> Feeds(Log(log, tickets[q].home), tickets[q].from, tickets[q].joined, q.items)
    }

    /** Nothing is kept without a time. */
    ghost predicate Timed()
      reads this
    {
      history.Keys <= lastActive.Keys && subscribers.Keys <= lastActive.Keys
    }

    ghost predicate Valid()
      reads this, tickets.Keys
    {
      Enrolled(subscribers, tickets) && Keeps(log, latest, history, limit) && Timed() && Fed(log)
    }

    constructor (maxInactive: real, limit: int)
      ensures Valid() && this.maxInactive == maxInactive && this.limit == limit
      ensures tickets == map[] && log == map[] && subscribers == map[]
    {
      this.maxInactive := maxInactive;
      this.limit := limit;
      subscribers, latest, history, lastActive := map[], map[], map[], map[];
      log, tickets := map[], map[];
    }

    /** The event reaches every listening queue and becomes the last one of the history. */
    method Emit(id: Id, e: Event<S>, now: real)
      requires Valid()
      modifies this, tickets.Keys
      ensures Valid()
      ensures tickets == old(tickets) && subscribers == old(subscribers)
      ensures log == old(log)[id := Log(old(log), id) + [e]]
      ensures latest == old(latest)[id := e.state]
      ensures lastActive == old(lastActive)[id := now]
      ensures limit >= 1 ==> id in history && |history[id]| == Capped(|History(old(history), id)| + 1, limit)
      ensures history.Keys == old(history.Keys) + {id} && forall other :: other in history && other != id ==> history[other] == old(history)[other]
    {
      hide Fed, Keeps, Enrolled, Capped;
      Remember(id, e, now);
      Broadcast(id, e);
      log := log[id := Log(log, id) + [e]];
    }

    /** Stores the event as the latest state and in the history. */
    method Remember(id: Id, e: Event<S>, now: real)
      requires Keeps(log, latest, history, limit)
      modifies this`lastActive, this`latest, this`history
      ensures Keeps(log[id := Log(log, id) + [e]], latest, history, limit)
      ensures latest == old(latest)[id := e.state] && lastActive == old(lastActive)[id := now]
      ensures limit >= 1 ==> id in history && |history[id]| == Capped(|History(old(history), id)| + 1, limit)
      ensures history.Keys == old(history.Keys) + {id} && forall other :: other in history && other != id ==> history[other] == old(history)[other]
    {
      hide Push, Keeps, Capped;
      KeepsEvent(log, latest, history, limit, id, e);
      if limit >= 1 {
        PushSize(log, latest, history, limit, id, e.state);
      }
      lastActive := lastActive[id := now];
      latest := latest[id := e.state];
      history := history[id := Push(History(history, id), e.state, limit)];
    }

    method Broadcast(id: Id, e: Event<S>)
      requires Enrolled(subscribers, tickets) && Fed(log)
      modifies tickets.Keys
      ensures Fed(log[id := Log(log, id) + [e]])
    {
      hide Feeds, Enrolled, Items;
      ListedOnce(subscribers, tickets, id);
      if id in subscribers {
        Deliver(subscribers[id], e);
      }
      forall q | q in tickets
        ensures Feeds(Log(log[id := Log(log, id) + [e]], tickets[q].home), tickets[q].from, tickets[q].joined, q.items)
      {
        var t := tickets[q];
        if t.home == id {
          FeedsNext(Log(log, id), e, t.from, t.joined, old(q.items));
        }
      }
    }

    /** Sends the event to the queues in order. */
    method Deliver(queues: seq<Queue<S>>, e: Event<S>)
      requires Unique(queues)
      modifies set q | q in queues
      ensures forall q :: q in queues ==> q.items == old(q.items) + Items(e)
    {
      for k := 0 to |queues|
        invariant forall i :: 0 <= i < k ==> queues[i].items == old(queues[i].items) + Items(e)
        invariant forall i :: k <= i < |queues| ==> queues[i].items == old(queues[i].items)
      {
        queues[k].Put(Some(e.state));
        if e.Completed? {
          queues[k].Put(None);
        }
      }
    }

    method PublishState(id: Id, state: S, now: real)
      requires Valid()
      modifies this, tickets.Keys
      ensures Valid()
      ensures tickets == old(tickets) && subscribers == old(subscribers)
      ensures log == old(log)[id := Log(old(log), id) + [Published(state)]]
      ensures latest == old(latest)[id := state] && lastActive == old(lastActive)[id := now]
      ensures limit >= 1 ==> id in history && |history[id]| == Capped(|History(old(history), id)| + 1, limit)
      ensures history.Keys == old(history.Keys) + {id} && forall other :: other in history && other != id ==> history[other] == old(history)[other]
    {
      Emit(id, Published(state), now);
    }

    method PublishCompleted(id: Id, state: S, now: real)
      requires Valid()
      modifies this, tickets.Keys
      ensures Valid()
      ensures tickets == old(tickets) && subscribers == old(subscribers)
      ensures log == old(log)[id := Log(old(log), id) + [Completed(state)]]
      ensures latest == old(latest)[id := state] && lastActive == old(lastActive)[id := now]
      ensures limit >= 1 ==> id in history && |history[id]| == Capped(|History(old(history), id)| + 1, limit)
      ensures history.Keys == old(history.Keys) + {id} && forall other :: other in history && other != id ==> history[other] == old(history)[other]
    {
      Emit(id, Completed(state), now);
    }

    /**
      A new queue that starts with the recent states. The fallback to the latest state is taken
      only with a limit that keeps no history.
     */
    method Subscribe(id: Id, now: real) returns (queue: Queue<S>, ghost source: Source)
      requires Valid()
      modifies this
      ensures Valid()
      ensures fresh(queue) && log == old(log) && latest == old(latest) && history == old(history)
      ensures exists from: nat :: tickets == old(tickets)[queue := Ticket(id, from, |Log(log, id)|)] && from <= |Log(log, id)| &&
                queue.items == Replay(States(Log(log, id))[from..])
      ensures subscribers == old(subscribers)[id := Listening(old(subscribers), id) + [queue]]
      ensures lastActive == old(lastActive)[id := now]
      ensures source == if id !in latest then Nothing else if limit >= 1 then FromHistory else FromLatest
      ensures source.FromHistory? ==> queue.items == Replay(history[id])
      ensures source.FromLatest? ==> queue.items == [Some(latest[id])]
      ensures source.Nothing? ==> queue.items == []
    {
      hide Fed, Keeps, Enrolled, Feeds;
      queue := new Queue<S>();
      lastActive := lastActive[id := now];
      if id !in subscribers {
        subscribers := subscribers[id := []];
      }
      subscribers := subscribers[id := subscribers[id] + [queue]];
      ghost var from;
      source, from := Greet(queue, id);
      Joined(old(subscribers), old(tickets), id, queue, Ticket(id, from, |Log(log, id)|));
      Enrol(queue, Ticket(id, from, |Log(log, id)|));
      assert subscribers == old(subscribers)[id := Listening(old(subscribers), id) + [queue]];
    }

    ghost method Enrol(queue: Queue<S>, t: Ticket)
      requires Fed(log) && queue !in tickets && Feeds(Log(log, t.home), t.from, t.joined, queue.items)
      modifies this`tickets
      ensures tickets == old(tickets)[queue := t] && Fed(log)
    {
      tickets := tickets[queue := t];
    }

    /** What a new queue is sent at once. */
    method Greet(queue: Queue<S>, id: Id) returns (ghost source: Source, ghost from: nat)
      requires Keeps(log, latest, history, limit) && queue.items == []
      modifies queue
      ensures from <= |Log(log, id)| && queue.items == Replay(States(Log(log, id))[from..])
      ensures Feeds(Log(log, id), from, |Log(log, id)|, queue.items)
      ensures source == if id !in latest then Nothing else if limit >= 1 then FromHistory else FromLatest
      ensures source.FromHistory? ==> id in history && queue.items == Replay(history[id])
      ensures source.FromLatest? ==> queue.items == [Some(latest[id])]
      ensures source.Nothing? ==> queue.items == []
    {
      hide Feeds, Keeps;
      ghost var all := Log(log, id);
      KeptOf(log, latest, history, limit, id);
      if id in history && history[id] != [] {
        source := FromHistory;
        from := |all| - |history[id]|;
        ReplayAll(queue, history[id]);
      } else if id in latest {
        source := FromLatest;
        from := |all| - 1;
        queue.Put(Some(latest[id]));
      } else {
        source := Nothing;
        from := |all|;
      }
      assert States(all[from..]) == States(all)[from..];
      FeedsFirst(all, from, queue.items);
    }

    /** Puts the states into the queue in order. */
    method ReplayAll(queue: Queue<S>, states: seq<S>)
      requires queue.items == []
      modifies queue
      ensures queue.items == Replay(states)
    {
      for k := 0 to |states|
        invariant queue.items == Replay(states[..k])
      {
        queue.Put(Some(states[k]));
        assert states[..k + 1] == states[..k] + [states[k]];
      }
      assert states[..|states|] == states;
    }

    /** The queue no longer listens; a queue that does not listen to `id` changes nothing. */
    method Unsubscribe(id: Id, queue: Queue<S>, now: real)
      requires Valid()
      modifies this
      ensures Valid() && log == old(log) && latest == old(latest) && history == old(history)
      ensures if queue in Listening(old(subscribers), id) then tickets == old(tickets) - {queue}
              else tickets == old(tickets) && subscribers == old(subscribers) && lastActive == old(lastActive)
      ensures lastActive == if id in old(subscribers) && id !in subscribers then old(lastActive)[id := now] else old(lastActive)
    {
      hide Feeds, Keeps, Enrolled;
      if id in subscribers && queue in subscribers[id] {
        ListedOnce(subscribers, tickets, id);
        var k :| 0 <= k < |subscribers[id]| && subscribers[id][k] == queue;
        var rest := subscribers[id][..k] + subscribers[id][k + 1..];
        RestOf(subscribers[id], k);
        subscribers := subscribers[id := rest];
        if subscribers[id] == [] {
          subscribers := subscribers - {id};
          lastActive := lastActive[id := now];
        }
        tickets := tickets - {queue};
        LeftOut(old(subscribers), old(tickets), id, queue, rest, subscribers);
      }
    }

    /** Forgets the states of a workflow; its subscribers stay and miss nothing. */
    method Clear(id: Id, now: real)
      requires Valid()
      modifies this
      ensures Valid() && log == old(log) && tickets == old(tickets) && subscribers == old(subscribers)
      ensures latest == old(latest) - {id} && history == old(history) - {id}
      ensures lastActive == old(lastActive)[id := now]
    {
      hide Feeds, Keeps, Enrolled;
      KeepsLess(log, latest, history, limit, {id});
      latest := latest - {id};
      history := history - {id};
      lastActive := lastActive[id := now];
    }

    /** Forgets inactive workflows, never one with a subscriber, and shortens no history. */
    method CleanupExpired(now: real)
      requires Valid()
      modifies this
      ensures Valid() && log == old(log) && tickets == old(tickets) && subscribers == old(subscribers)
      ensures forall id :: id in old(lastActive) ==>
                (id !in lastActive <==> now - old(lastActive)[id] > maxInactive && id !in subscribers)
      ensures lastActive.Keys <= old(lastActive.Keys) && forall id :: id in lastActive ==> lastActive[id] == old(lastActive)[id]
      ensures forall id :: id in old(latest) && id in lastActive ==> id in latest && latest[id] == old(latest)[id] && history[id] == old(history)[id]
      ensures latest.Keys == old(latest.Keys) * lastActive.Keys
    {
      hide Fed, Keeps, Trim, Enrolled;
      var expired := set id | id in lastActive && now - lastActive[id] > maxInactive && Listening(subscribers, id) == [];
      KeptOf(log, latest, history, limit, "");
      KeepsLess(log, latest, history, limit, expired);
      ListedSome(subscribers, tickets);
      latest := latest - expired;
      history := history - expired;
      lastActive := lastActive - expired;
      TrimmedIsSame(log, latest, history, limit);
      history := map id | id in history :: Trim(history[id], limit);
    }
  }

  lemma ListedSome<S(!new)>(subscribers: map<Id, seq<Queue<S>>>, tickets: map<Queue<S>, Ticket>)
    requires Enrolled(subscribers, tickets)
    ensures forall id :: Listening(subscribers, id) == [] <==> id !in subscribers
  {
  }

  lemma ListedOnce<S(!new)>(subscribers: map<Id, seq<Queue<S>>>, tickets: map<Queue<S>, Ticket>, id: Id)
    requires Enrolled(subscribers, tickets)
    ensures Unique(Listening(subscribers, id)) && (id in subscribers ==> subscribers[id] != [])
    ensures forall q :: q in tickets ==> (q in Listening(subscribers, id) <==> tickets[q].home == id)
    ensures forall q :: q in Listening(subscribers, id) ==> q in tickets
  {
  }

  lemma Joined<S(!new)>(subscribers: map<Id, seq<Queue<S>>>, tickets: map<Queue<S>, Ticket>, id: Id, queue: Queue<S>, t: Ticket)
    requires Enrolled(subscribers, tickets) && queue !in tickets && t.home == id
    ensures Enrolled(subscribers[id := Listening(subscribers, id) + [queue]], tickets[queue := t])
  {
    ListedOnce(subscribers, tickets, id);
    var more := Listening(subscribers, id) + [queue];
    var subscribers' := subscribers[id := more];
    assert more[|more| - 1] == queue;
    forall q | q in tickets
      ensures q in Listening(subscribers', tickets[q].home)
    {
      assert q in Listening(subscribers, tickets[q].home);
    }
  }

  lemma RestOf<T>(s: seq<T>, k: nat)
    requires Unique(s) && k < |s|
    ensures var rest := s[..k] + s[k + 1..]; Unique(rest) && forall x :: x in rest <==> x in s && x != s[k]
  {
    var rest := s[..k] + s[k + 1..];
    forall x | x in s && x != s[k]
      ensures x in rest
    {
      var i :| 0 <= i < |s| && s[i] == x;
      assert rest[if i < k then i else i - 1] == x;
    }
  }

  lemma LeftOut<S(!new)>(
      subscribers: map<Id, seq<Queue<S>>>, tickets: map<Queue<S>, Ticket>, id: Id, queue: Queue<S>,
      rest: seq<Queue<S>>, subscribers': map<Id, seq<Queue<S>>>)
    requires Enrolled(subscribers, tickets) && id in subscribers && queue in subscribers[id]
    requires Unique(rest) && forall q :: q in rest <==> q in subscribers[id] && q != queue
    requires subscribers' == if rest == [] then subscribers - {id} else subscribers[id := rest]
    ensures Enrolled(subscribers', tickets - {queue})
  {
    forall q | q in tickets - {queue}
      ensures q in Listening(subscribers', tickets[q].home)
    {
      assert q in Listening(subscribers, tickets[q].home);
    }
  }
}
