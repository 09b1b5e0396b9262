/** `WorkflowValidator._build_adjacency_list` and `detect_cycles`. */
module CycleDetector {
  import opened Options
  import opened Sets
  import opened WorkflowGraph

  /** A missing source is a key error; otherwise every node maps to its targets. */
  method BuildAdjacencyList(nodes: seq<Id>, edges: seq<Link>) returns (g: Option<Graph>)
    ensures g.Some? <==> forall e :: e in edges ==> e.source in nodes
    ensures g.Some? ==> g.value.Keys == set v | v in nodes
    ensures g.Some? ==> forall v :: v in nodes ==> g.value[v] == Targets(edges, v)
  {
    var adj: Graph := map v | v in nodes :: [];
    for i := 0 to |edges|
      invariant forall j :: 0 <= j < i ==> edges[j].source in nodes
      invariant adj.Keys == set v | v in nodes
      invariant forall v :: v in nodes ==> adj[v] == Targets(edges[..i], v)
    {
      assert edges[..i + 1][..i] == edges[..i];
      if edges[i].source !in adj {
        assert edges[i] in edges;
        return None;
      }
      adj := adj[edges[i].source := adj[edges[i].source] + [edges[i].target]];
    }
    assert edges[..|edges|] == edges;
    return Some(adj);
  }

  // ---------- the search ----------

  datatype Search = Clear | Found(cycle: seq<Id>) | MissingNode(id: Id)

  ghost function Elems(p: seq<Id>): set<Id>
  {
    set v | v in p
  }

  /** Ended nodes point only to nodes that ended before them. */
  ghost predicate Numbered(g: Graph, visited: set<Id>, order: map<Id, nat>, stamp: nat)
  {
    && order.Keys <= visited
    && (forall v :: v in order ==> v in g && order[v] < stamp)
    && (forall v, w :: v in order && Edge(g, v, w) ==> w in order && order[w] < order[v])
  }

  /** Unless a search was abandoned, a visited node has ended or is on the path. */
  ghost predicate Accounted(visited: set<Id>, path: set<Id>, order: map<Id, nat>, clean: bool)
  {
    order.Keys !! path && (clean ==> visited <= order.Keys + path)
  }

  /** The current path is a walk without repetition, and `path` is the set of its nodes. */
  ghost predicate OnPath(g: Graph, visited: set<Id>, path: set<Id>, cur: seq<Id>)
  {
    && path == Elems(cur) && path <= visited && Distinct(cur)
    && (cur != [] ==> Walk(g, cur))
  }

  class CycleSearch {
    const g: Graph
    var visited: set<Id>
    var path: set<Id>
    var currentPath: seq<Id>
    /** Nodes whose search ended without a hit, numbered in the order of ending. */
    ghost var order: map<Id, nat>
    ghost var stamp: nat
    /** No search was abandoned so far. */
    ghost var clean: bool

    ghost predicate Valid()
      reads this
    {
      && Numbered(g, visited, order, stamp)
      && Accounted(visited, path, order, clean)
      && OnPath(g, visited, path, currentPath)
    }

    constructor (g: Graph)
      ensures this.g == g && visited == {} && clean && currentPath == [] && Valid()
    {
      this.g := g;
      visited, path, currentPath := {}, {}, [];
      order, stamp, clean := map[], 0, true;
    }

    /** `dfs`: clear, a cycle through the current path, or an id that is no node. */
    method Dfs(id: Id) returns (r: Search)
      requires Valid() && id !in visited
      requires currentPath != [] ==> Edge(g, currentPath[|currentPath| - 1], id)
      modifies this`visited, this`path, this`currentPath, this`order, this`stamp
      ensures Numbered(g, visited, order, stamp) && id in visited
      ensures Grown(old(visited), old(order.Keys), visited, order.Keys)
      ensures r.Clear? ==>
                && Valid() && path == old(path) && currentPath == old(currentPath)
                && id in g && (clean ==> id in order)
      ensures r.Found? ==> IsCycle(g, r.cycle) && Distinct(r.cycle)
      ensures r.MissingNode? ==> r.id !in g && (r.id == id || exists v :: Edge(g, v, r.id))
      decreases |g.Keys - visited|, 0
    {
      hide Numbered, Accounted, OnPath, Walk, IsCycle, Distinct, Elems, Grown, AllIn, Numbering, NextStamp;
      ghost var visited0, path0, cur0, ended0 := visited, path, currentPath, order.Keys;
      Enter(g, visited, path, currentPath, order, stamp, clean, id);
      visited := visited + {id};
      path := path + {id};
      if id !in g {
        return MissingNode(id);
      }
      currentPath := currentPath + [id];
      Shrinks(g.Keys, visited0, visited, id);
      r := Explore(id);
      GrownLess(visited0, id, ended0, visited, order.Keys);
      if !r.Clear? {
        return;
      }
      Leave(g, visited, visited0, path0, cur0, order, ended0, stamp, clean, id);
      Pop(id, path0, cur0);
    }

    /** Taking the node off the path again; ghost state numbers it if nothing was abandoned. */
    method Pop(id: Id, ghost path0: set<Id>, ghost cur0: seq<Id>)
      requires path == path0 + {id} && currentPath == cur0 + [id] && id !in path0
      modifies this`path, this`currentPath, this`order, this`stamp
      ensures path == path0 && currentPath == cur0
      ensures order == Numbering(old(order), id, old(stamp), clean) && stamp == NextStamp(old(stamp), clean)
    {
      path := path - {id};
      currentPath := currentPath[..|currentPath| - 1];
      order, stamp := Numbering(order, id, stamp, clean), NextStamp(stamp, clean);
    }

    /** The loop over the neighbors of the node that was entered last. */
    method Explore(id: Id) returns (r: Search)
      requires Valid() && id in g && currentPath != [] && currentPath[|currentPath| - 1] == id
      modifies this`visited, this`path, this`currentPath, this`order, this`stamp
      ensures Numbered(g, visited, order, stamp)
      ensures Grown(old(visited), old(order.Keys), visited, order.Keys)
      ensures r.Clear? ==>
                && Valid() && path == old(path) && currentPath == old(currentPath)
                && (clean ==> AllIn(g[id], |g[id]|, order.Keys))
      ensures r.Found? ==> IsCycle(g, r.cycle) && Distinct(r.cycle)
      ensures r.MissingNode? ==> r.id !in g && exists v :: Edge(g, v, r.id)
      decreases |g.Keys - visited|, 1
    {
      hide Numbered, Accounted, OnPath, Walk, IsCycle, Distinct, Elems, Grown, AllIn;
      var neighbors := g[id];
      AllInNone(neighbors, order.Keys);
      GrownSelf(visited, order.Keys);
      for i := 0 to |neighbors|
        invariant Valid() && Grown(old(visited), old(order.Keys), visited, order.Keys)
        invariant path == old(path) && currentPath == old(currentPath)
        invariant clean ==> AllIn(neighbors, i, order.Keys)
        invariant |g.Keys - visited| <= |g.Keys - old(visited)|
      {
        var next := neighbors[i];
        assert Edge(g, id, next);
        if next in path {
          OnPathMember(g, visited, path, currentPath, next);
          var start := FirstIndex(currentPath, next);
          CycleFound(g, visited, path, currentPath, start);
          return Found(currentPath[start..]);
        }
        ghost var seen, keys := visited, order.Keys;
        if next !in visited {
          r := Dfs(next);
          GrownTrans(g.Keys, old(visited), old(order.Keys), seen, keys, visited, order.Keys);
          if !r.Clear? {
            return;
          }
        }
        EndedOrOnPath(visited, path, order, clean, next);
        AllInMore(neighbors, i, keys, order.Keys, clean);
      }
      return Clear;
    }
  }

  lemma GrownSelf(v: set<Id>, e: set<Id>)
    ensures Grown(v, e, v, e)
  {
  }

  lemma AllInNone(ns: seq<Id>, keys: set<Id>)
    ensures AllIn(ns, 0, keys)
  {
  }

  /** Visits and ended nodes only grow, and what ends newly had not been visited before. */
  ghost predicate Grown(visited0: set<Id>, ended0: set<Id>, visited: set<Id>, ended: set<Id>)
  {
    visited0 <= visited && ended0 <= ended && (ended - ended0) !! visited0
  }

  lemma GrownTrans(all: set<Id>, v0: set<Id>, e0: set<Id>, v1: set<Id>, e1: set<Id>, v2: set<Id>, e2: set<Id>)
    requires Grown(v0, e0, v1, e1) && Grown(v1, e1, v2, e2)
    ensures Grown(v0, e0, v2, e2) && |all - v2| <= |all - v1| && e1 <= e2 && v1 <= v2
  {
    SubsetSize(all - v2, all - v1);
  }

  lemma GrownLess(v0: set<Id>, id: Id, e0: set<Id>, v: set<Id>, e: set<Id>)
    requires Grown(v0 + {id}, e0, v, e)
    ensures Grown(v0, e0, v, e) && id in v
    ensures id !in v0 ==> Grown(v0, e0, v, e + {id})
  {
  }

  ghost predicate AllIn(ns: seq<Id>, i: nat, keys: set<Id>)
    requires i <= |ns|
  {
    forall j :: 0 <= j < i ==> ns[j] in keys
  }

  lemma AllInMore(ns: seq<Id>, i: nat, before: set<Id>, after: set<Id>, clean: bool)
    requires i < |ns| && before <= after && (clean ==> AllIn(ns, i, before) && ns[i] in after)
    ensures clean ==> AllIn(ns, i + 1, after)
  {
  }

  lemma Enter(g: Graph, visited: set<Id>, path: set<Id>, cur: seq<Id>, order: map<Id, nat>, stamp: nat, clean: bool, id: Id)
    requires Numbered(g, visited, order, stamp) && Accounted(visited, path, order, clean) && OnPath(g, visited, path, cur)
    requires id !in visited && (cur != [] ==> Edge(g, cur[|cur| - 1], id))
    ensures Numbered(g, visited + {id}, order, stamp) && Accounted(visited + {id}, path + {id}, order, clean)
    ensures id in g ==> OnPath(g, visited + {id}, path + {id}, cur + [id])
    ensures Grown(visited, order.Keys, visited + {id}, order.Keys)
  {
    if id in g {
      PathExtends(g, cur, id);
    }
  }

  lemma OnPathMember(g: Graph, visited: set<Id>, path: set<Id>, cur: seq<Id>, v: Id)
    requires OnPath(g, visited, path, cur) && v in path
    ensures v in cur
  {
  }

  lemma EndedOrOnPath(visited: set<Id>, path: set<Id>, order: map<Id, nat>, clean: bool, v: Id)
    requires Accounted(visited, path, order, clean) && v in visited && v !in path
    ensures clean ==> v in order
  {
  }

  ghost function Numbering(order: map<Id, nat>, id: Id, stamp: nat, clean: bool): map<Id, nat>
  {
    if clean then order[id := stamp] else order
  }

  ghost function NextStamp(stamp: nat, clean: bool): nat
  {
    if clean then stamp + 1 else stamp
  }

  /** Taking the last node off the path, and numbering it if all its neighbors have ended. */
  lemma Leave(g: Graph, visited: set<Id>, visited0: set<Id>, path0: set<Id>, cur0: seq<Id>, order: map<Id, nat>, ended0: set<Id>, stamp: nat, clean: bool, id: Id)
    requires Numbered(g, visited, order, stamp) && Accounted(visited, path0 + {id}, order, clean)
    requires OnPath(g, visited0, path0, cur0) && Grown(visited0, ended0, visited, order.Keys)
    requires id in g && id in visited && id !in visited0
    requires clean ==> AllIn(g[id], |g[id]|, order.Keys)
    ensures var order' := Numbering(order, id, stamp, clean);
            && Numbered(g, visited, order', NextStamp(stamp, clean))
            && Accounted(visited, path0, order', clean)
            && Grown(visited0, ended0, visited, order'.Keys) && (clean ==> id in order')
    ensures OnPath(g, visited, path0, cur0) && id !in path0
  {
    if clean {
      var order' := order[id := stamp];
      assert order'.Keys == order.Keys + {id};
      forall v, w | v in order' && Edge(g, v, w)
        ensures w in order' && order'[w] < order'[v]
      {
        if v == id {
          assert w in g[id];
        } else {
          assert Edge(g, v, w);
        }
      }
    }
  }

  lemma PathExtends(g: Graph, p: seq<Id>, id: Id)
    requires id in g && id !in p && Distinct(p)
    requires p != [] ==> Walk(g, p) && Edge(g, p[|p| - 1], id)
    ensures Walk(g, p + [id]) && Distinct(p + [id]) && Elems(p + [id]) == Elems(p) + {id}
  {
    if p != [] {
      WalkAppend(g, p, id);
    }
  }

  lemma Shrinks(all: set<Id>, before: set<Id>, after: set<Id>, id: Id)
    requires id in all && id !in before && after == before + {id}
    ensures |all - after| < |all - before|
  {
    assert all - before == (all - after) + {id};
  }

  /** The position at which the node was entered. */
  method FirstIndex(p: seq<Id>, v: Id) returns (i: nat)
    requires v in p
    ensures i < |p| && p[i] == v
  {
    i := 0;
    while p[i] != v
      invariant i < |p| && v !in p[..i]
      decreases |p| - i
    {
      i := i + 1;
    }
  }

  lemma CycleFound(g: Graph, visited: set<Id>, path: set<Id>, p: seq<Id>, start: nat)
    requires OnPath(g, visited, path, p) && start < |p| && Edge(g, p[|p| - 1], p[start])
    ensures IsCycle(g, p[start..]) && Distinct(p[start..])
  {
    WalkSuffix(g, p, start);
  }

  // ---------- all roots ----------

  datatype Detected = Cycles(cycles: seq<seq<Id>>) | KeyError(id: Id)

  /**
    `detect_cycles`: an empty list means that the graph has no cycle, and every listed cycle is a
    real one without repetition. A key error can only come from an edge to an unknown id.
   */
  method DetectCycles(nodes: seq<Id>, g: Graph) returns (r: Detected)
    requires g.Keys == set v | v in nodes
    ensures r.Cycles? ==> (r.cycles == [] <==> Acyclic(g))
    ensures r.Cycles? ==> forall i :: 0 <= i < |r.cycles| ==> IsCycle(g, r.cycles[i]) && Distinct(r.cycles[i])
    ensures r.KeyError? ==> r.id !in g && exists v :: Edge(g, v, r.id)
    ensures Closed(g) ==> r.Cycles?
  {
    hide IsCycle, Distinct, Acyclic;
    var search := new CycleSearch(g);
    var cycles := [];
    for i := 0 to |nodes|
      invariant search.g == g && Numbered(g, search.visited, search.order, search.stamp)
      invariant forall j :: 0 <= j < i ==> nodes[j] in search.visited
      invariant search.clean <==> cycles == []
      invariant search.clean ==> search.visited <= search.order.Keys
      invariant forall j :: 0 <= j < |cycles| ==> IsCycle(g, cycles[j]) && Distinct(cycles[j])
    {
      var id := nodes[i];
      if id !in search.visited {
        search.path, search.currentPath := {}, [];
        var hit := search.Dfs(id);
        match hit {
          case Clear =>
          case Found(c) =>
            cycles := cycles + [c];
            search.clean := false;
          case MissingNode(k) =>
            return KeyError(k);
        }
      }
    }
    if cycles == [] {
      forall v | v in g
        ensures v in search.order
      {
        var j :| 0 <= j < |nodes| && nodes[j] == v;
      }
      RanksAcyclic(g, search.order);
    } else {
      CycleRefutes(g, cycles[0]);
    }
    return Cycles(cycles);
  }

  lemma CycleRefutes(g: Graph, c: seq<Id>)
    requires IsCycle(g, c)
    ensures !Acyclic(g)
  {
  }
}
