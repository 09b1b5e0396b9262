/**
  The classic RAPTOR loop of `__call__`: cluster one layer, summarize every cluster, and go on with
  the summaries until one is left. Scores, probabilities, distances and linkages are arbitrary.
 */
module ClassicLayers {
  import opened Options
  import opened RaptorChunks
  import opened Sets

  // ---------- distinct labels ----------

  ghost function Values(s: seq<nat>): set<nat>
  {
    set i | 0 <= i < |s| :: s[i]
  }

  predicate Ascending(s: seq<nat>)
  {
    forall i, j :: 0 <= i < j < |s| ==> s[i] < s[j]
  }

  lemma {:induction false} AscendingSize(s: seq<nat>)
    requires Ascending(s)
    ensures |Values(s)| == |s|
    decreases |s|
  {
    if s == [] {
      assert Values(s) == {};
    } else {
      var n := |s| - 1;
      AscendingSize(s[..n]);
      assert Values(s) == Values(s[..n]) + {s[n]};
      assert s[n] !in Values(s[..n]);
    }
  }

  /** Labels below `k` take at most `k` values. */
  lemma LabelBound(labels: seq<nat>, k: nat)
    requires forall i :: 0 <= i < |labels| ==> labels[i] < k
    ensures |Values(labels)| <= k
  {
    SubsetSize(Values(labels), Below(k));
  }

  /** `np.unique`: the values in ascending order. */
  method Unique(labels: seq<nat>) returns (u: seq<nat>)
    ensures Ascending(u) && Values(u) == Values(labels) && |u| == |Values(labels)|
  {
    u := [];
    for i := 0 to |labels|
      invariant Ascending(u) && Values(u) == Values(labels[..i])
    {
      assert Values(labels[..i + 1]) == Values(labels[..i]) + {labels[i]};
      var k := 0;
      while k < |u| && u[k] < labels[i]
        invariant k <= |u| && forall j :: 0 <= j < k ==> u[j] < labels[i]
      {
        k := k + 1;
      }
      if k == |u| || u[k] != labels[i] {
        var v := u[..k] + [labels[i]] + u[k..];
        InsertValue(u, k, labels[i], v);
        u := v;
      }
    }
    assert labels[..|labels|] == labels;
    AscendingSize(u);
  }

  lemma InsertValue(u: seq<nat>, k: nat, x: nat, v: seq<nat>)
    requires k <= |u| && v == u[..k] + [x] + u[k..]
    ensures Values(v) == Values(u) + {x}
  {
    forall y | y in Values(u)
      ensures y in Values(v)
    {
      var i :| 0 <= i < |u| && u[i] == y;
      assert v[if i < k then i else i + 1] == y;
    }
    assert v[k] == x;
    forall y | y in Values(v)
      ensures y in Values(u) + {x}
    {
      var i :| 0 <= i < |v| && v[i] == y;
      assert i < k ==> v[i] == u[i];
      assert i > k ==> v[i] == u[i - 1];
    }
  }

  function IndexOf(u: seq<nat>, x: nat): (i: nat)
    requires x in u
    ensures i < |u| && u[i] == x
  {
    if u[0] == x then 0 else 1 + IndexOf(u[1..], x)
  }

  /** How many of the values are smaller. */
  ghost function Rank(labels: seq<nat>, x: nat): nat
  {
    |Smaller(labels, x)|
  }

  ghost function Smaller(labels: seq<nat>, x: nat): set<nat>
  {
    set y | y in Values(labels) && y < x
  }

  /** In an ascending list of the values the rank is the position. */
  lemma {:induction false} RankIsPosition(labels: seq<nat>, u: seq<nat>, p: nat)
    requires Ascending(u) && Values(u) == Values(labels) && p < |u|
    ensures Rank(labels, u[p]) == p
  {
    AscendingSize(u[..p]);
    assert Smaller(labels, u[p]) == Values(u[..p]);
  }

  /** Renumbering by rank: as many values as before, now below that count. */
  method Renumber(labels: seq<nat>, u: seq<nat>) returns (r: seq<nat>)
    requires Values(labels) == Values(u) && Ascending(u)
    ensures |r| == |labels| && forall i :: 0 <= i < |r| ==> r[i] < |u| && u[r[i]] == labels[i]
    ensures Renumbered(labels, r) && |Values(r)| <= |u|
  {
    forall i | 0 <= i < |labels|
      ensures labels[i] in u
    {
      assert labels[i] in Values(u);
    }
    r := seq(|labels|, i requires 0 <= i < |labels| && labels[i] in u => IndexOf(u, labels[i]));
    LabelBound(r, |u|);
    forall i | 0 <= i < |r|
      ensures r[i] == Rank(labels, labels[i])
    {
      RankIsPosition(labels, u, r[i]);
    }
  }

  /** Every label is replaced by its rank. */
  ghost predicate Renumbered(labels: seq<nat>, r: seq<nat>)
  {
    |r| == |labels| && forall i :: 0 <= i < |r| ==> r[i] == Rank(labels, labels[i])
  }

  lemma RankOrders(labels: seq<nat>, x: nat, y: nat)
    requires x in Values(labels) && x < y
    ensures Rank(labels, x) < Rank(labels, y)
  {
    SubsetSize(Smaller(labels, x) + {x}, Smaller(labels, y));
  }

  /** Renumbering keeps together what was together, and nothing else. */
  lemma RenumberedGroups(labels: seq<nat>, r: seq<nat>, i: nat, j: nat)
    requires Renumbered(labels, r) && i < |labels| && j < |labels|
    ensures r[i] == r[j] <==> labels[i] == labels[j]
  {
    if labels[i] < labels[j] {
      RankOrders(labels, labels[i], labels[j]);
    } else if labels[j] < labels[i] {
      RankOrders(labels, labels[j], labels[i]);
    }
  }

  // ---------- first minima ----------

  /** The first position of the least score. */
  ghost predicate FirstMin(scores: seq<real>, i: nat)
  {
    && i < |scores| && (forall j :: 0 <= j < |scores| ==> scores[i] <= scores[j])
    && (forall j :: 0 <= j < i ==> scores[i] < scores[j])
  }

  /** `np.argmin`. */
  method ArgMin(scores: seq<real>) returns (i: nat)
    requires scores != []
    ensures FirstMin(scores, i)
  {
    i := 0;
    for k := 1 to |scores|
      invariant i < k && (forall j :: 0 <= j < k ==> scores[i] <= scores[j]) && (forall j :: 0 <= j < i ==> scores[i] < scores[j])
    {
      if scores[k] < scores[i] {
        i := k;
      }
    }
  }

  function Negated(scores: seq<real>): (r: seq<real>)
    ensures |r| == |scores| && forall i :: 0 <= i < |r| ==> r[i] == -scores[i]
  {
    seq(|scores|, i requires 0 <= i < |scores| => -scores[i])
  }

  /** The first position of the greatest score. */
  ghost predicate FirstMax(scores: seq<real>, i: nat)
  {
    FirstMin(Negated(scores), i)
  }

  // ---------- the numbers behind the clustering ----------

  /** Labels item `i` of a given layer with one of `k` clusters. */
  type Labels = f: (nat, nat, nat) -> nat | forall r, i, k :: k > 0 ==> f(r, i, k) < k
    witness (r: nat, i: nat, k: nat) => 0

  /** Summarizes the texts of a given cluster of a given layer. */
  type Summary = (nat, nat, seq<string>) -> Option<string>

  /**
    What the numeric libraries answer, by layer: the score of a cluster count, the probability of an
    item for a cluster of so many, the distance of each merge, the labels of a linkage, and the
    distance of an item from a centroid in a given iteration.
   */
  datatype Config = Config(
    ahc: bool,
    maxCluster: int,
    threshold: real,
    bic: (nat, nat) -> real,
    prob: (nat, nat, nat, nat) -> real,
    merge: (nat, nat) -> real,
    ward: Labels,
    distance: (nat, nat, nat, nat) -> real,
    summary: Summary)

  // ---------- mixture models ----------

  function Most(maxCluster: int, n: nat): int
  {
    if maxCluster < n - 1 then maxCluster else n - 1
  }

  function Bics(cfg: Config, r: nat, most: nat): (s: seq<real>)
    ensures |s| == most && forall i :: 0 <= i < most ==> s[i] == cfg.bic(r, i + 1)
  {
    seq(most, i requires 0 <= i < most => cfg.bic(r, i + 1))
  }

  /** The smallest count with the best score, among 1 to min(max_cluster, n - 1); 1 if that is no range. */
  ghost predicate BestCount(cfg: Config, n: nat, r: nat, k: nat)
  {
    var most := Most(cfg.maxCluster, n);
    if most <= 1 then k == 1 else k >= 1 && FirstMin(Bics(cfg, r, most), k - 1)
  }

  /** `_get_optimal_clusters`. */
  method OptimalClusters(cfg: Config, n: nat, r: nat) returns (k: nat)
    ensures BestCount(cfg, n, r, k) && 1 <= k && (n >= 2 ==> k <= n - 1)
  {
    var most := Most(cfg.maxCluster, n);
    if most <= 1 {
      return 1;
    }
    var i := ArgMin(Bics(cfg, r, most));
    k := i + 1;
  }

  function Probs(cfg: Config, r: nat, i: nat, k: nat): (s: seq<real>)
    ensures |s| == k && forall c :: 0 <= c < k ==> s[c] == cfg.prob(r, i, c, k)
  {
    seq(k, c requires 0 <= c < k => cfg.prob(r, i, c, k))
  }

  /** The first cluster whose probability exceeds the threshold, or else the most probable one. */
  ghost predicate SoftLabel(probs: seq<real>, threshold: real, c: nat)
  {
    && c < |probs|
    && if exists d :: 0 <= d < |probs| && probs[d] > threshold
       then probs[c] > threshold && forall d :: 0 <= d < c ==> probs[d] <= threshold
       else FirstMax(probs, c)
  }

  method PickLabel(probs: seq<real>, threshold: real) returns (c: nat)
    requires probs != []
    ensures SoftLabel(probs, threshold, c)
  {
    for d := 0 to |probs|
      invariant forall e :: 0 <= e < d ==> probs[e] <= threshold
    {
      if probs[d] > threshold {
        return d;
      }
    }
    c := ArgMin(Negated(probs));
  }

  /** The clusters of a mixture model: the best count, and the soft label of every item. */
  ghost predicate Mixed(cfg: Config, n: nat, r: nat, labels: seq<nat>, k: nat)
  {
    && BestCount(cfg, n, r, k) && |labels| == n
    && (forall i :: 0 <= i < n ==> if k == 1 then labels[i] == 0 else SoftLabel(Probs(cfg, r, i, k), cfg.threshold, labels[i]))
  }

  method ClustersGmm(cfg: Config, n: nat, r: nat) returns (labels: seq<nat>, k: nat)
    requires n >= 3
    ensures Mixed(cfg, n, r, labels, k) && |labels| == n && 1 <= k < n && forall i :: 0 <= i < n ==> labels[i] < k
  {
    hide BestCount;
    k := OptimalClusters(cfg, n, r);
    if k == 1 {
      labels := seq(n, _ => 0);
      return;
    }
    labels := [];
    for i := 0 to n
      invariant |labels| == i && forall j :: 0 <= j < i ==> SoftLabel(Probs(cfg, r, j, k), cfg.threshold, labels[j])
    {
      var c := PickLabel(Probs(cfg, r, i, k), cfg.threshold);
      labels := labels + [c];
    }
  }

  // ---------- agglomerative clustering ----------

  function Gaps(cfg: Config, r: nat, n: nat): (s: seq<real>)
    ensures |s| == n && forall i :: 0 <= i < n ==> s[i] == cfg.merge(r, i + 1) - cfg.merge(r, i)
  {
    seq(n, i requires 0 <= i < n => cfg.merge(r, i + 1) - cfg.merge(r, i))
  }

  /** The count that cuts the merges at their first widest gap, within the bounds. */
  ghost predicate GapCount(cfg: Config, n: nat, r: nat, k: nat)
    requires n >= 3
  {
    exists g :: FirstMax(Gaps(cfg, r, n - 2), g) && k == Cut(n, g, cfg.maxCluster)
  }

  function Cut(n: nat, g: nat, maxCluster: int): nat
  {
    var wanted := if n - g - 1 < maxCluster then n - g - 1 else maxCluster;
    if wanted > 1 then wanted else 1
  }

  /** The linkage for that count. */
  ghost predicate Linked(cfg: Config, n: nat, r: nat, labels: seq<nat>)
    requires n >= 3
  {
    |labels| == n && exists k :: GapCount(cfg, n, r, k) && forall i :: 0 <= i < n ==> labels[i] == if k <= 1 then 0 else cfg.ward(r, i, k)
  }

  /** `_get_clusters_ahc`: for three or more embeddings strictly fewer clusters than embeddings. */
  method ClustersAhc(cfg: Config, n: nat, r: nat) returns (labels: seq<nat>)
    ensures |labels| == n
    ensures n >= 3 ==> |Values(labels)| <= n - 1 && Linked(cfg, n, r, labels)
  {
    if n <= 1 {
      return seq(n, _ => 0);
    }
    if n == 2 {
      return [0, 1];
    }
    var g := ArgMin(Negated(Gaps(cfg, r, n - 2)));
    var k := Cut(n, g, cfg.maxCluster);
    assert GapCount(cfg, n, r, k);
    if k <= 1 {
      labels := seq(n, _ => 0);
      LabelBound(labels, 1);
      return;
    }
    labels := seq(n, i requires 0 <= i < n => cfg.ward(r, i, k));
    LabelBound(labels, k);
  }

  function Distances(cfg: Config, r: nat, it: nat, i: nat, k: nat): (s: seq<real>)
    ensures |s| == k && forall c :: 0 <= c < k ==> s[c] == cfg.distance(r, it, i, c)
  {
    seq(k, c requires 0 <= c < k => cfg.distance(r, it, i, c))
  }

  /** Every item moves to the label of its nearest centroid; centroids are numbered by rank. */
  ghost predicate MovedTo(cfg: Config, r: nat, it: nat, labels: seq<nat>, moved: seq<nat>)
  {
    && |moved| == |labels|
    && (forall i :: 0 <= i < |moved| ==>
          moved[i] in Values(labels) && FirstMin(Distances(cfg, r, it, i, |Values(labels)|), Rank(labels, moved[i])))
  }

  /** Up to five reassignments, until nothing moves or one cluster is left. */
  ghost predicate Settles(cfg: Config, r: nat, it: nat, labels: seq<nat>, final: seq<nat>)
    decreases 5 - it
  {
    if it >= 5 || |Values(labels)| <= 1 then final == labels
    else
      exists moved, next ::
        && MovedTo(cfg, r, it, labels, moved) && Renumbered(moved, next)
        && if moved == labels then final == labels else Settles(cfg, r, it + 1, next, final)
  }

  lemma SettlesStep(cfg: Config, r: nat, it: nat, labels: seq<nat>, moved: seq<nat>, next: seq<nat>, final: seq<nat>)
    requires it < 5 && |Values(labels)| > 1 && MovedTo(cfg, r, it, labels, moved) && Renumbered(moved, next)
    requires if moved == labels then final == labels else Settles(cfg, r, it + 1, next, final)
    ensures Settles(cfg, r, it, labels, final)
  {
    hide MovedTo, Renumbered;
  }

  /** `_adjust_tree_nodes`: reassignment never brings up more clusters than there were. */
  method AdjustTreeNodes(cfg: Config, given: seq<nat>, r: nat) returns (labels: seq<nat>)
    ensures |labels| == |given| && |Values(labels)| <= |Values(given)|
    ensures Settles(cfg, r, 0, given, labels)
  {
    hide MovedTo, Renumbered, Settles;
    labels := given;
    for it := 0 to 5
      invariant |labels| == |given| && |Values(labels)| <= |Values(given)|
      invariant forall final :: Settles(cfg, r, it, labels, final) ==> Settles(cfg, r, 0, given, final)
    {
      var unique := Unique(labels);
      if |unique| <= 1 {
        SettlesEnd(cfg, r, it, labels);
        return;
      }
      var moved := MoveAll(cfg, r, it, labels, unique);
      var uniqueNew := Unique(moved);
      var next := Renumber(moved, uniqueNew);
      if moved == labels {
        SettlesStep(cfg, r, it, labels, moved, next, labels);
        return;
      }
      forall final | Settles(cfg, r, it + 1, next, final)
        ensures Settles(cfg, r, 0, given, final)
      {
        SettlesStep(cfg, r, it, labels, moved, next, final);
      }
      SubsetSize(Values(moved), Values(labels));
      labels := next;
    }
    SettlesEnd(cfg, r, 5, labels);
  }

  lemma SettlesEnd(cfg: Config, r: nat, it: nat, labels: seq<nat>)
    requires it >= 5 || |Values(labels)| <= 1
    ensures Settles(cfg, r, it, labels, labels)
  {
  }

  method MoveAll(cfg: Config, r: nat, it: nat, labels: seq<nat>, unique: seq<nat>) returns (moved: seq<nat>)
    requires Ascending(unique) && Values(unique) == Values(labels) && |unique| == |Values(labels)| && |unique| > 0
    ensures MovedTo(cfg, r, it, labels, moved) && Values(moved) <= Values(labels)
  {
    moved := [];
    for i := 0 to |labels|
      invariant |moved| == i
      invariant forall j :: 0 <= j < i ==> moved[j] in Values(labels) && FirstMin(Distances(cfg, r, it, j, |unique|), Rank(labels, moved[j]))
    {
      var c := ArgMin(Distances(cfg, r, it, i, |unique|));
      RankIsPosition(labels, unique, c);
      assert unique[c] in Values(unique);
      moved := moved + [unique[c]];
    }
  }

  /** The clusters of a linkage: cut at the gap, reassigned, and renumbered without holes. */
  ghost predicate Agglomerated(cfg: Config, n: nat, r: nat, labels: seq<nat>, k: nat)
    requires n >= 3
  {
    exists raw, final ::
      && Linked(cfg, n, r, raw) && (if |Values(raw)| > 1 then Settles(cfg, r, 0, raw, final) else final == raw)
      && Renumbered(final, labels) && k == |Values(final)|
  }

  // ---------- one layer ----------

  /** The labels of a layer of three or more chunks are those of the configured clustering. */
  ghost predicate Clustered(cfg: Config, n: nat, r: nat, labels: seq<nat>, k: nat)
    requires n >= 3
  {
    if cfg.ahc then Agglomerated(cfg, n, r, labels, k) else Mixed(cfg, n, r, labels, k)
  }

  lemma AgglomeratedBy(cfg: Config, n: nat, r: nat, raw: seq<nat>, final: seq<nat>, labels: seq<nat>)
    requires n >= 3 && Linked(cfg, n, r, raw) && (if |Values(raw)| > 1 then Settles(cfg, r, 0, raw, final) else final == raw)
    requires Renumbered(final, labels)
    ensures Agglomerated(cfg, n, r, labels, |Values(final)|)
  {
    hide Linked, Settles, Renumbered;
  }

  /** The labels of one layer of three or more chunks and their number, which is smaller. */
  method ClusterLayer(cfg: Config, n: nat, r: nat) returns (labels: seq<nat>, k: nat)
    requires n >= 3
    ensures |labels| == n && 1 <= k < n && (forall i :: 0 <= i < n ==> labels[i] < k) && Clustered(cfg, n, r, labels, k)
  {
    hide Linked, Settles, Renumbered, Mixed, Agglomerated;
    if cfg.ahc {
      var raw := ClustersAhc(cfg, n, r);
      var rawUnique := Unique(raw);
      var adjusted := raw;
      if |rawUnique| > 1 {
        adjusted := AdjustTreeNodes(cfg, raw, r);
      }
      var unique := Unique(adjusted);
      labels := Renumber(adjusted, unique);
      k := |unique|;
      assert labels[0] < k;
      AgglomeratedBy(cfg, n, r, raw, adjusted, labels);
    } else {
      labels, k := ClustersGmm(cfg, n, r);
    }
  }

  // ---------- summarizing one layer ----------

  /** The texts of the members of cluster `c` in the layer that begins at `start`. */
  function ClusterTexts(chunks: seq<string>, start: nat, labels: seq<nat>, c: nat): seq<string>
    requires start + |labels| <= |chunks|
    decreases |labels|
  {
    if labels == [] then []
    else (if labels[0] == c then [chunks[start]] else []) + ClusterTexts(chunks, start + 1, labels[1..], c)
  }

  /** The texts of a cluster are those of exactly its members, in order. */
  lemma {:induction false} ClusterTextsAre(chunks: seq<string>, start: nat, labels: seq<nat>, c: nat)
    requires start + |labels| <= |chunks|
    ensures |ClusterTexts(chunks, start, labels, c)| == CountBefore(labels, c, |labels|)
    ensures forall i :: 0 <= i < |labels| && labels[i] == c ==>
              CountBefore(labels, c, i) < |ClusterTexts(chunks, start, labels, c)| &&
              ClusterTexts(chunks, start, labels, c)[CountBefore(labels, c, i)] == chunks[start + i]
    decreases |labels|
  {
    if labels != [] {
      var all, rest := ClusterTexts(chunks, start, labels, c), ClusterTexts(chunks, start + 1, labels[1..], c);
      assert all == (if labels[0] == c then [chunks[start]] else []) + rest;
      ClusterTextsAre(chunks, start + 1, labels[1..], c);
      CountShift(labels, c, |labels|);
      forall i | 0 <= i < |labels| && labels[i] == c
        ensures CountBefore(labels, c, i) < |all| && all[CountBefore(labels, c, i)] == chunks[start + i]
      {
        hide ClusterTexts;
        if i > 0 {
          CountShift(labels, c, i);
          assert labels[1..][i - 1] == c;
        }
      }
    }
  }

  /** Clusters with at least one member. */
  ghost function Inhabited(labels: seq<nat>, k: nat): set<nat>
  {
    set c: nat | c < k && c in labels
  }

  /** The new chunks are the summaries of the clusters in `order`, taken in any order. */
  ghost predicate Summarized(chunks: seq<string>, start: nat, labels: seq<nat>, order: seq<nat>, fresh': seq<string>, r: nat, f: Summary)
    requires start + |labels| <= |chunks|
  {
    && |fresh'| == |order|
    && (forall i :: 0 <= i < |order| ==> f(r, order[i], ClusterTexts(chunks, start, labels, order[i])) == Some(fresh'[i]))
  }

  /** The call for some cluster of the layer failed. */
  ghost predicate FailedCluster(chunks: seq<string>, start: nat, labels: seq<nat>, r: nat, f: Summary)
    requires start + |labels| <= |chunks|
  {
    exists c :: c in labels && f(r, c, ClusterTexts(chunks, start, labels, c)) == None
  }

  /**
    The concurrent summaries of one layer, finishing in any order. Without an error there is
    exactly one new chunk per non-empty cluster.
   */
  method SummarizeClusters(chunks: seq<string>, start: nat, labels: seq<nat>, k: nat, r: nat, f: Summary, errors: nat, maxErrors: nat)
    returns (fresh': seq<string>, raised: bool, errors': nat, ghost order: seq<nat>)
    requires start + |labels| <= |chunks| && labels != [] && forall i :: 0 <= i < |labels| ==> labels[i] < k
    ensures |fresh'| <= k && errors <= errors' && (raised ==> errors < errors')
    ensures Summarized(chunks, start, labels, order, fresh', r, f)
    ensures errors' == errors ==>
              |fresh'| >= 1 && multiset(order) == multiset(Inhabited(labels, k))
    ensures errors' > errors <==> FailedCluster(chunks, start, labels, r, f)
  {
    var pending := set c | c in labels && c < k;
    ghost var all := pending;
    assert all == Inhabited(labels, k);
    fresh', raised, errors', order := [], false, errors, [];
    InhabitedSize(labels, k);
    while pending != {}
      invariant pending <= all && |fresh'| + |pending| <= |all| && errors <= errors'
      invariant Summarized(chunks, start, labels, order, fresh', r, f)
      invariant errors' == errors ==> multiset(order) + multiset(pending) == multiset(all)
      invariant errors' > errors ==> FailedCluster(chunks, start, labels, r, f)
      invariant errors' == errors ==> forall c :: c in all && c !in pending ==> f(r, c, ClusterTexts(chunks, start, labels, c)).Some?
      decreases |pending|
    {
      var c :| c in pending;
      pending := pending - {c};
      var result := f(r, c, ClusterTexts(chunks, start, labels, c));
      if result.Some? {
        fresh', order := fresh' + [result.value], order + [c];
      } else {
        errors' := errors' + 1;
        if errors' >= maxErrors {
          raised := true;
          return;
        }
      }
    }
    if errors' == errors {
      assert labels[0] in all;
      assert multiset(all)[labels[0]] == 1;
      assert |multiset(order)| == |order|;
    }
  }

  lemma InhabitedSize(labels: seq<nat>, k: nat)
    ensures |Inhabited(labels, k)| <= k
  {
    SubsetSize(Inhabited(labels, k), Below(k));
  }

  // ---------- the call ----------

  ghost function Width(layer: (nat, nat)): int
  {
    layer.1 - layer.0
  }

  /** Every layer is narrower than the one before it. */
  ghost predicate Narrowing(layers: seq<(nat, nat)>)
  {
    forall i :: 1 <= i < |layers| ==> Width(layers[i]) < Width(layers[i - 1])
  }

  lemma NarrowingMore(layers: seq<(nat, nat)>, next: (nat, nat))
    requires Narrowing(layers) && |layers| > 0 && Width(next) < Width(layers[|layers| - 1])
    ensures Narrowing(layers + [next])
  {
  }

  /** How one layer was clustered, and in which order its clusters were summarized. */
  datatype Plan = Plan(labels: seq<nat>, order: seq<nat>)

  /** Two chunks form one cluster; three or more are clustered as configured. */
  ghost predicate Grouped(cfg: Config, r: nat, labels: seq<nat>)
  {
    if |labels| <= 2 then labels == [0, 0] else exists k :: Clustered(cfg, |labels|, r, labels, k)
  }

  /**
    The layer `next` holds exactly the summaries of the clusters of `layer`: every chunk of the
    layer has the cluster that the clustering gives it, and every inhabited cluster is summarized once.
   */
  ghost predicate Derived(chunks: seq<string>, layer: (nat, nat), next: (nat, nat), plan: Plan, r: nat, cfg: Config)
  {
    && layer.0 <= layer.1 <= next.0 <= next.1 <= |chunks| && |plan.labels| == layer.1 - layer.0
    && Grouped(cfg, r, plan.labels)
    && Summarized(chunks, layer.0, plan.labels, plan.order, chunks[next.0..next.1], r, cfg.summary)
    && multiset(plan.order) == multiset(set c | c in plan.labels)
  }

  ghost predicate AllDerived(chunks: seq<string>, layers: seq<(nat, nat)>, plans: seq<Plan>, cfg: Config)
  {
    && |plans| + 1 == |layers|
    && (forall i :: 0 <= i < |plans| ==> Derived(chunks, layers[i], layers[i + 1], plans[i], i, cfg))
  }

  lemma {:induction false} TextsOfPrefix(chunks: seq<string>, more: seq<string>, start: nat, labels: seq<nat>, c: nat)
    requires chunks <= more && start + |labels| <= |chunks|
    ensures ClusterTexts(chunks, start, labels, c) == ClusterTexts(more, start, labels, c)
    decreases |labels|
  {
    if labels != [] {
      TextsOfPrefix(chunks, more, start + 1, labels[1..], c);
    }
  }

  lemma DerivedInMore(chunks: seq<string>, more: seq<string>, layer: (nat, nat), next: (nat, nat), plan: Plan, r: nat, cfg: Config)
    requires chunks <= more && Derived(chunks, layer, next, plan, r, cfg)
    ensures Derived(more, layer, next, plan, r, cfg)
  {
    assert more[next.0..next.1] == chunks[next.0..next.1];
    forall i | 0 <= i < |plan.order|
      ensures ClusterTexts(chunks, layer.0, plan.labels, plan.order[i]) == ClusterTexts(more, layer.0, plan.labels, plan.order[i])
    {
      TextsOfPrefix(chunks, more, layer.0, plan.labels, plan.order[i]);
    }
  }

  lemma DerivedNow(chunks: seq<string>, start: nat, plan: Plan, fresh': seq<string>, r: nat, cfg: Config)
    requires start + |plan.labels| == |chunks| && Grouped(cfg, r, plan.labels) && Summarized(chunks, start, plan.labels, plan.order, fresh', r, cfg.summary)
    requires multiset(plan.order) == multiset(set c | c in plan.labels)
    ensures Derived(chunks + fresh', (start, |chunks|), (|chunks|, |chunks| + |fresh'|), plan, r, cfg)
  {
    var more := chunks + fresh';
    assert more[|chunks|..|chunks| + |fresh'|] == fresh';
    forall i | 0 <= i < |plan.order|
      ensures ClusterTexts(chunks, start, plan.labels, plan.order[i]) == ClusterTexts(more, start, plan.labels, plan.order[i])
    {
      TextsOfPrefix(chunks, more, start, plan.labels, plan.order[i]);
    }
  }

  lemma AllDerivedMore(chunks: seq<string>, layers: seq<(nat, nat)>, plans: seq<Plan>, start: nat, plan: Plan, fresh': seq<string>, cfg: Config)
    requires Grouped(cfg, |plans|, plan.labels) && AllDerived(chunks, layers, plans, cfg) && layers[|layers| - 1] == (start, |chunks|)
    requires start + |plan.labels| == |chunks| && Summarized(chunks, start, plan.labels, plan.order, fresh', |plans|, cfg.summary)
    requires multiset(plan.order) == multiset(set c | c in plan.labels)
    ensures AllDerived(chunks + fresh', layers + [(|chunks|, |chunks| + |fresh'|)], plans + [plan], cfg)
  {
    hide Derived, Summarized, Grouped;
    DerivedNow(chunks, start, plan, fresh', |plans|, cfg);
    forall i | 0 <= i < |plans|
      ensures Derived(chunks + fresh', layers[i], layers[i + 1], plans[i], i, cfg)
    {
      DerivedInMore(chunks, chunks + fresh', layers[i], layers[i + 1], plans[i], i, cfg);
    }
  }

  lemma PairPlan(chunks: seq<string>, start: nat, result: Option<string>, r: nat, f: Summary)
    requires start + 2 == |chunks| && f(r, 0, [chunks[start], chunks[start + 1]]) == result
    ensures result.Some? ==> Summarized(chunks, start, [0, 0], [0], [result.value], r, f)
    ensures result.None? <==> FailedCluster(chunks, start, [0, 0], r, f)
    ensures multiset([0]) == multiset(set c: nat | c in [0, 0])
  {
    assert [0, 0][1..] == [0] && [0][1..] == [];
    assert ClusterTexts(chunks, start, [0, 0], 0) == [chunks[start], chunks[start + 1]];
    assert (set c: nat | c in [0, 0]) == {0};
    assert [0, 0][0] == 0;
  }

  /** One round of the loop: the summaries of the layer from `start` to the end of the chunks. */
  method NextLayer(chunks: seq<string>, start: nat, cfg: Config, r: nat, errors: nat, maxErrors: nat)
    returns (fresh': seq<string>, raised: bool, errors': nat, ghost plan: Plan)
    requires start + 2 <= |chunks|
    ensures |fresh'| < |chunks| - start
    ensures errors <= errors' && (raised ==> errors < errors') && start + |plan.labels| == |chunks| && Grouped(cfg, r, plan.labels)
    ensures errors' > errors <==> FailedCluster(chunks, start, plan.labels, r, cfg.summary)
    ensures errors' == errors ==>
              && |fresh'| >= 1
              && Summarized(chunks, start, plan.labels, plan.order, fresh', r, cfg.summary)
              && multiset(plan.order) == multiset(set c | c in plan.labels)
  {
    hide Summarized, ClusterTexts, FailedCluster, Clustered;
    var n := |chunks| - start;
    if n == 2 {
      var result := cfg.summary(r, 0, [chunks[start], chunks[start + 1]]);
      PairPlan(chunks, start, result, r, cfg.summary);
      if result.Some? {
        return [result.value], false, errors, Plan([0, 0], [0]);
      }
      return [], errors + 1 >= maxErrors, errors + 1, Plan([0, 0], []);
    }
    var labels, k := ClusterLayer(cfg, n, r);
    ghost var order;
    fresh', raised, errors', order := SummarizeClusters(chunks, start, labels, k, r, cfg.summary, errors, maxErrors);
    plan := Plan(labels, order);
    assert Inhabited(labels, k) == set c | c in labels;
  }

  /** Everything up to some layer is derived, and the call for a cluster of that layer failed. */
  datatype Failure = Failure(chunks: seq<string>, layers: seq<(nat, nat)>, plans: seq<Plan>, labels: seq<nat>)

  ghost predicate ClassicFailed(texts: seq<string>, x: Failure, cfg: Config)
  {
    && texts <= x.chunks && Contiguous(x.layers, |texts|, |x.chunks|) && AllDerived(x.chunks, x.layers, x.plans, cfg)
    && var start := x.layers[|x.layers| - 1].0;
       start + |x.labels| == |x.chunks| && |x.labels| >= 2 && Grouped(cfg, |x.plans|, x.labels) && FailedCluster(x.chunks, start, x.labels, |x.plans|, cfg.summary)
  }

  /** What the classic loop hands out. */
  ghost predicate ClassicResult(texts: seq<string>, chunks: seq<string>, layers: seq<(nat, nat)>, plans: seq<Plan>, cfg: Config)
  {
    && texts <= chunks && Contiguous(layers, |texts|, |chunks|)
    && Narrowing(layers) && Width(layers[|layers| - 1]) == 1
    && AllDerived(chunks, layers, plans, cfg)
  }

  /**
    The classic loop: it returns when every summary call succeeds and raises when one fails; the
    error "did not reduce the layer" cannot occur.
   */
  method RunClassic(texts: seq<string>, cfg: Config, maxErrors: nat) returns (out: Outcome, ghost plans: seq<Plan>, ghost failure: Failure)
    requires |texts| >= 2
    ensures !out.DidNotReduce?
    ensures out.Returned? ==> ClassicResult(texts, out.chunks, out.layers, plans, cfg)
    ensures out.Raised? ==> ClassicFailed(texts, failure, cfg)
  {
    hide Contiguous, Narrowing, AllDerived, Summarized, FailedCluster, Grouped;
    var chunks, errors, stuck := texts, 0, false;
    var layers: seq<(nat, nat)> := [(0, |texts|)];
    var start, r := 0, 0;
    plans, failure := [], Failure([], [], [], []);
    ContiguousStart(|texts|);
    OneLayer(texts, cfg);
    while |chunks| - start > 1
      invariant start < |chunks| && texts <= chunks && !stuck
      invariant Contiguous(layers, |texts|, |chunks|) && Narrowing(layers)
      invariant |layers| > 0 && layers[|layers| - 1] == (start, |chunks|)
      invariant errors == 0 ==> AllDerived(chunks, layers, plans, cfg) && r == |plans|
      invariant errors > 0 ==> ClassicFailed(texts, failure, cfg)
      decreases |chunks| - start
    {
      var fresh', raised, e;
      ghost var plan;
      fresh', raised, e, plan := NextLayer(chunks, start, cfg, r, errors, maxErrors);
      if errors == 0 && e > 0 {
        failure := Failure(chunks, layers, plans, plan.labels);
      }
      if raised {
        return Raised, plans, failure;
      }
      if e == 0 {
        AllDerivedMore(chunks, layers, plans, start, plan, fresh', cfg);
      }
      errors := e;
      if |fresh'| == 0 {
        break;
      }
      stuck := |fresh'| >= |chunks| - start;
      if stuck {
        break;
      }
      var end := |chunks|;
      ContiguousMore(layers, |texts|, end, end + |fresh'|);
      NarrowingMore(layers, (end, end + |fresh'|));
      chunks := chunks + fresh';
      layers := layers + [(end, |chunks|)];
      start, r, plans := end, r + 1, plans + [plan];
    }
    out := if stuck then DidNotReduce else if errors > 0 then Raised else Returned(chunks, layers);
  }

  lemma OneLayer(texts: seq<string>, cfg: Config)
    ensures Narrowing([(0, |texts|)]) && AllDerived(texts, [(0, |texts|)], [], cfg)
  {
  }

  /** `__call__` with the classic builder. */
  method CallClassic(chunks: seq<Chunk>, cfg: Config, maxErrors: nat) returns (out: Outcome, ghost plans: seq<Plan>, ghost failure: Failure)
    ensures !out.DidNotReduce?
    ensures |chunks| <= 1 ==> out == Returned([], [])
    ensures |chunks| > 1 && |Usable(chunks)| <= 1 ==> out == Returned(Usable(chunks), [(0, |Usable(chunks)|)])
    ensures |chunks| > 1 && |Usable(chunks)| > 1 && out.Returned? ==> ClassicResult(Usable(chunks), out.chunks, out.layers, plans, cfg)
    ensures |chunks| > 1 && |Usable(chunks)| > 1 && out.Raised? ==> ClassicFailed(Usable(chunks), failure, cfg)
  {
    hide ClassicResult, ClassicFailed;
    plans, failure := [], Failure([], [], [], []);
    if |chunks| <= 1 {
      return Returned([], []), plans, failure;
    }
    var texts := Usable(chunks);
    if |texts| <= 1 {
      return Returned(texts, [(0, |texts|)]), plans, failure;
    }
    out, plans, failure := RunClassic(texts, cfg, maxErrors);
  }

  /** Summaries that never fail give no reason to raise. */
  lemma NeverFails(texts: seq<string>, x: Failure, cfg: Config)
    requires forall r, c, ts :: cfg.summary(r, c, ts).Some?
    ensures !ClassicFailed(texts, x, cfg)
  {
  }
}
