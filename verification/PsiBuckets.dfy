/**
  `_split_psi_buckets`: a worklist that cuts a large index range into buckets of bounded size. The
  clustering inside is an oracle that labels the members of a group.
 */
module PsiBuckets {
  import opened RaptorChunks

  /** Any labelling of a group with the labels below the requested fanout. */
  type Labeler = f: (seq<nat>, nat) -> seq<nat> |
      forall g, k :: k > 0 ==> |f(g, k)| == |g| && forall i :: 0 <= i < |g| ==> f(g, k)[i] < k
    witness (g: seq<nat>, k: nat) => seq(|g|, _ => 0)

  function Flat(gs: seq<seq<nat>>): seq<nat>
  {
    if gs == [] then [] else gs[0] + Flat(gs[1..])
  }

  function Range(n: nat): (r: seq<nat>)
    ensures |r| == n && forall i :: 0 <= i < n ==> r[i] == i
  {
    seq(n, i => i)
  }

  /** The members labelled `c`, in order. */
  function Select(g: seq<nat>, labels: seq<nat>, c: nat): seq<nat>
    requires |labels| == |g|
  {
    if g == [] then []
    else (if labels[0] == c then [g[0]] else []) + Select(g[1..], labels[1..], c)
  }

  /** The non-empty selections of the labels below `k`. */
  function SplitBy(g: seq<nat>, labels: seq<nat>, k: nat): seq<seq<nat>>
    requires |labels| == |g|
  {
    if k == 0 then []
    else
      var last := Select(g, labels, k - 1);
      SplitBy(g, labels, k - 1) + (if last == [] then [] else [last])
  }

  /** Consecutive slices of `size`. */
  function Slices(g: seq<nat>, size: nat): seq<seq<nat>>
    requires size > 0
    decreases |g|
  {
    if |g| == 0 then []
    else if |g| <= size then [g]
    else [g[..size]] + Slices(g[size..], size)
  }

  function CeilDiv(a: nat, b: nat): nat
    requires b > 0
  {
    (a + b - 1) / b
  }

  function Fanout(len: nat, size: nat): nat
    requires size > 0
  {
    var wanted := if CeilDiv(len, size) > 2 then CeilDiv(len, size) else 2;
    var capped := if wanted < len then wanted else len;
    if capped < 32 then capped else 32
  }

  // ---------- splitting loses nothing ----------

  lemma {:induction false} FlatAppend(a: seq<seq<nat>>, b: seq<seq<nat>>)
    ensures Flat(a + b) == Flat(a) + Flat(b)
    decreases |a|
  {
    if a == [] {
      assert a + b == b;
    } else {
      assert (a + b)[1..] == a[1..] + b;
      FlatAppend(a[1..], b);
    }
  }

  lemma FlatSingle(g: seq<nat>)
    ensures Flat([g]) == g
  {
    assert [g][1..] == [];
  }

  ghost function Upto(g: seq<nat>, labels: seq<nat>, k: nat): seq<nat>
    requires |labels| == |g|
  {
    if g == [] then []
    else (if labels[0] < k then [g[0]] else []) + Upto(g[1..], labels[1..], k)
  }

  lemma {:induction false} UptoStep(g: seq<nat>, labels: seq<nat>, k: nat)
    requires |labels| == |g|
    ensures multiset(Upto(g, labels, k + 1)) == multiset(Upto(g, labels, k)) + multiset(Select(g, labels, k))
    decreases |g|
  {
    if g != [] {
      UptoStep(g[1..], labels[1..], k);
    }
  }

  lemma {:induction false} UptoAll(g: seq<nat>, labels: seq<nat>, k: nat)
    requires |labels| == |g| && forall i :: 0 <= i < |g| ==> labels[i] < k
    ensures Upto(g, labels, k) == g
    decreases |g|
  {
    if g != [] {
      UptoAll(g[1..], labels[1..], k);
    }
  }

  lemma {:induction false} UptoNone(g: seq<nat>, labels: seq<nat>)
    requires |labels| == |g|
    ensures Upto(g, labels, 0) == []
    decreases |g|
  {
    if g != [] {
      UptoNone(g[1..], labels[1..]);
    }
  }

  lemma {:induction false} SplitShape(g: seq<nat>, labels: seq<nat>, k: nat)
    requires |labels| == |g|
    ensures |SplitBy(g, labels, k)| <= k && NoneEmpty(SplitBy(g, labels, k))
    decreases k
  {
    if k > 0 {
      SplitShape(g, labels, k - 1);
    }
  }

  lemma SplitStep(g: seq<nat>, labels: seq<nat>, k: nat)
    requires |labels| == |g|
    ensures Flat(SplitBy(g, labels, k + 1)) == Flat(SplitBy(g, labels, k)) + Select(g, labels, k)
  {
    var last := Select(g, labels, k);
    if last != [] {
      FlatAppend(SplitBy(g, labels, k), [last]);
      FlatSingle(last);
    } else {
      assert SplitBy(g, labels, k + 1) == SplitBy(g, labels, k);
    }
  }

  lemma SplitKeepsNext(g: seq<nat>, labels: seq<nat>, k: nat)
    requires |labels| == |g|
    requires multiset(Flat(SplitBy(g, labels, k))) == multiset(Upto(g, labels, k))
    ensures multiset(Flat(SplitBy(g, labels, k + 1))) == multiset(Upto(g, labels, k + 1))
  {
    hide Upto, Select, Flat, SplitBy;
    UptoStep(g, labels, k);
    SplitStep(g, labels, k);
  }

  lemma {:induction false} SplitKeepsMembers(g: seq<nat>, labels: seq<nat>, k: nat)
    requires |labels| == |g|
    ensures multiset(Flat(SplitBy(g, labels, k))) == multiset(Upto(g, labels, k))
    decreases k
  {
    if k == 0 {
      UptoNone(g, labels);
      assert Flat(SplitBy(g, labels, k)) == [] == Upto(g, labels, k);
    } else {
      var j := k - 1;
      SplitKeepsMembers(g, labels, j);
      SplitKeepsNext(g, labels, j);
      assert j + 1 == k;
    }
  }

  lemma {:induction false} SlicesKeepMembers(g: seq<nat>, size: nat)
    requires size > 0
    ensures Flat(Slices(g, size)) == g
    ensures NoneEmpty(Slices(g, size))
    decreases |g|
  {
    if |g| > size {
      SlicesKeepMembers(g[size..], size);
      assert g[..size] + g[size..] == g;
    } else if |g| > 0 {
      FlatSingle(g);
    }
  }

  lemma SlicesCount(g: seq<nat>, size: nat)
    requires 2 <= size < |g|
    ensures 2 <= |Slices(g, size)| < |g|
  {
    SlicesKeepMembers(g[size..], size);
    PartsBound(Slices(g[size..], size));
  }

  // ---------- how many buckets can come out ----------

  ghost predicate NoneEmpty(gs: seq<seq<nat>>)
  {
    forall i :: 0 <= i < |gs| ==> |gs[i]| > 0
  }

  lemma {:induction false} PartsBound(gs: seq<seq<nat>>)
    requires NoneEmpty(gs)
    ensures |gs| <= |Flat(gs)|
    decreases |gs|
  {
    if gs != [] {
      PartsBound(gs[1..]);
    }
  }

  /** What is left to do; it falls with every step of the worklist. */
  ghost function Work(gs: seq<seq<nat>>): int
  {
    2 * |Flat(gs)| - |gs|
  }

  /** How many buckets a worklist can still produce. */
  ghost function Yield(gs: seq<seq<nat>>): nat
  {
    if gs == [] then 0
    else (if |gs[0]| <= 1 then |gs[0]| else |gs[0]| - 1) + Yield(gs[1..])
  }

  lemma {:induction false} YieldAppend(a: seq<seq<nat>>, b: seq<seq<nat>>)
    ensures Yield(a + b) == Yield(a) + Yield(b)
    decreases |a|
  {
    if a == [] {
      assert a + b == b;
    } else {
      assert (a + b)[1..] == a[1..] + b;
      YieldAppend(a[1..], b);
    }
  }

  /** Pigeonhole: fewer parts than members means that some part has two members to merge. */
  lemma {:induction false} YieldOfParts(gs: seq<seq<nat>>)
    requires NoneEmpty(gs)
    ensures Yield(gs) <= |Flat(gs)|
    ensures |gs| < |Flat(gs)| ==> Yield(gs) < |Flat(gs)|
    decreases |gs|
  {
    if gs != [] {
      YieldOfParts(gs[1..]);
    }
  }

  lemma QuotientBelow(q: nat, len: nat, size: nat)
    requires 2 <= size < len && q * size <= len + size - 1
    ensures q < len
  {
    assert len * size == (len - 1) * (size - 1) + len + size - 1;
    assert (len - 1) * (size - 1) > 0;
  }

  lemma FanoutBelow(len: nat, size: nat)
    requires 2 <= size < len
    ensures 2 <= Fanout(len, size) < len
  {
    var q := CeilDiv(len, size);
    assert q * size <= len + size - 1;
    QuotientBelow(q, len, size);
  }

  /** One group too large for a bucket, split by the oracle, or sliced when that leaves one part. */
  function SplitGroup(g: seq<nat>, size: nat, cluster: Labeler): seq<seq<nat>>
    requires 2 <= size < |g|
  {
    FanoutBelow(|g|, size);
    var fanout := Fanout(|g|, size);
    var parts := SplitBy(g, cluster(g, fanout), fanout);
    if |parts| <= 1 then Slices(g, size) else parts
  }

  lemma SplitGroupWorks(g: seq<nat>, size: nat, cluster: Labeler)
    requires 2 <= size < |g|
    ensures var parts := SplitGroup(g, size, cluster);
            && multiset(Flat(parts)) == multiset(g) && NoneEmpty(parts)
            && 2 <= |parts| < |g|
  {
    FanoutBelow(|g|, size);
    var fanout := Fanout(|g|, size);
    var labels := cluster(g, fanout);
    SplitShape(g, labels, fanout);
    SplitKeepsMembers(g, labels, fanout);
    UptoAll(g, labels, fanout);
    SlicesKeepMembers(g, size);
    SlicesCount(g, size);
  }

  // ---------- the parts agree with the labels ----------

  /** A selection holds exactly the members with the label, in order. */
  lemma {:induction false} SelectAre(g: seq<nat>, labels: seq<nat>, c: nat)
    requires |labels| == |g|
    ensures |Select(g, labels, c)| == CountBefore(labels, c, |labels|)
    ensures forall i :: 0 <= i < |g| && labels[i] == c ==>
              CountBefore(labels, c, i) < |Select(g, labels, c)| && Select(g, labels, c)[CountBefore(labels, c, i)] == g[i]
    decreases |g|
  {
    if g != [] {
      var all, rest := Select(g, labels, c), Select(g[1..], labels[1..], c);
      assert all == (if labels[0] == c then [g[0]] else []) + rest;
      SelectAre(g[1..], labels[1..], c);
      CountShift(labels, c, |labels|);
      forall i | 0 <= i < |g| && labels[i] == c
        ensures CountBefore(labels, c, i) < |all| && all[CountBefore(labels, c, i)] == g[i]
      {
        hide Select;
        if i > 0 {
          CountShift(labels, c, i);
          assert labels[1..][i - 1] == c;
        }
      }
    }
  }

  /** The parts of a split are the selections of the labels that occur. */
  lemma {:induction false} SplitByHas(g: seq<nat>, labels: seq<nat>, k: nat, c: nat)
    requires |labels| == |g| && c < k && Select(g, labels, c) != []
    ensures Select(g, labels, c) in SplitBy(g, labels, k)
    decreases k
  {
    var before, last := SplitBy(g, labels, k - 1), Select(g, labels, k - 1);
    if c == k - 1 {
      assert (before + [last])[|before|] == last;
    } else {
      SplitByHas(g, labels, k - 1, c);
    }
  }

  lemma {:induction false} SplitByFrom(g: seq<nat>, labels: seq<nat>, k: nat, p: seq<nat>) returns (c: nat)
    requires |labels| == |g| && p in SplitBy(g, labels, k)
    ensures c < k && p == Select(g, labels, c) && p != []
    decreases k
  {
    if p in SplitBy(g, labels, k - 1) {
      c := SplitByFrom(g, labels, k - 1, p);
    } else {
      c := k - 1;
    }
  }

  lemma LabelOccurs(g: seq<nat>, labels: seq<nat>, i: nat)
    requires |labels| == |g| && i < |g|
    ensures Select(g, labels, labels[i]) != []
  {
    SelectAre(g, labels, labels[i]);
  }

  /** Two different labels give two parts at least. */
  lemma TwoLabelsTwoParts(g: seq<nat>, labels: seq<nat>, k: nat, i: nat, j: nat)
    requires |labels| == |g| && i < |g| && j < |g| && labels[i] < k && labels[j] < k && labels[i] != labels[j]
    requires forall x, y :: 0 <= x < y < |g| ==> g[x] != g[y]
    ensures |SplitBy(g, labels, k)| > 1
  {
    var a, b := Select(g, labels, labels[i]), Select(g, labels, labels[j]);
    LabelOccurs(g, labels, i);
    LabelOccurs(g, labels, j);
    SplitByHas(g, labels, k, labels[i]);
    SplitByHas(g, labels, k, labels[j]);
    SelectMember(g, labels, labels[i], i);
    SelectMember(g, labels, labels[j], i);
    assert a != b;
  }

  lemma {:induction false} SelectMember(g: seq<nat>, labels: seq<nat>, c: nat, i: nat)
    requires |labels| == |g| && i < |g| && forall x, y :: 0 <= x < y < |g| ==> g[x] != g[y]
    ensures g[i] in Select(g, labels, c) <==> labels[i] == c
    decreases |g|
  {
    if i > 0 {
      SelectMember(g[1..], labels[1..], c, i - 1);
    } else {
      SelectInside(g[1..], labels[1..], c, g[0]);
    }
  }

  lemma {:induction false} SelectInside(g: seq<nat>, labels: seq<nat>, c: nat, x: nat)
    requires |labels| == |g|
    ensures x in Select(g, labels, c) ==> x in g
    decreases |g|
  {
    if g != [] {
      SelectInside(g[1..], labels[1..], c, x);
    }
  }

  /**
    A group without repetition whose members do not all get one label is split by the labels: two
    members stay together if and only if their labels are equal.
   */
  lemma SplitFollowsLabels(g: seq<nat>, size: nat, cluster: Labeler, i: nat, j: nat)
    requires 2 <= size < |g| && i < |g| && j < |g| && forall x, y :: 0 <= x < y < |g| ==> g[x] != g[y]
    ensures var labels := (FanoutBelow(|g|, size); cluster(g, Fanout(|g|, size)));
            (exists x, y :: 0 <= x < |g| && 0 <= y < |g| && labels[x] != labels[y]) ==>
              ((exists p :: p in SplitGroup(g, size, cluster) && g[i] in p && g[j] in p) <==> labels[i] == labels[j])
  {
    FanoutBelow(|g|, size);
    var k := Fanout(|g|, size);
    var labels := cluster(g, k);
    if x, y :| 0 <= x < |g| && 0 <= y < |g| && labels[x] != labels[y] {
      TwoLabelsTwoParts(g, labels, k, x, y);
      assert SplitGroup(g, size, cluster) == SplitBy(g, labels, k);
      if labels[i] == labels[j] {
        var p := Select(g, labels, labels[i]);
        LabelOccurs(g, labels, i);
        SplitByHas(g, labels, k, labels[i]);
        SelectMember(g, labels, labels[i], i);
        SelectMember(g, labels, labels[i], j);
      }
      if p :| p in SplitBy(g, labels, k) && g[i] in p && g[j] in p {
        var c := SplitByFrom(g, labels, k, p);
        SelectMember(g, labels, c, i);
        SelectMember(g, labels, c, j);
      }
    }
  }

  // ---------- the buckets by recursion ----------

  lemma {:induction false} PartInside(gs: seq<seq<nat>>, i: nat)
    requires NoneEmpty(gs) && i < |gs|
    ensures |gs[i]| + |gs| - 1 <= |Flat(gs)|
    decreases |gs|
  {
    PartsBound(gs[1..]);
    if i > 0 {
      PartInside(gs[1..], i - 1);
    }
  }

  lemma PartsSmaller(g: seq<nat>, size: nat, cluster: Labeler)
    requires 2 <= size < |g|
    ensures forall i :: 0 <= i < |SplitGroup(g, size, cluster)| ==> |SplitGroup(g, size, cluster)[i]| < |g|
  {
    SplitGroupWorks(g, size, cluster);
    var parts := SplitGroup(g, size, cluster);
    SameLength(Flat(parts), g);
    forall i | 0 <= i < |parts|
      ensures |parts[i]| < |g|
    {
      PartInside(parts, i);
    }
  }

  /** The buckets of a group: itself if it is small enough, or else the buckets of its parts. */
  ghost function BucketsOf(g: seq<nat>, size: nat, cluster: Labeler): seq<seq<nat>>
    requires 2 <= size
    decreases |g|, 1, 0
  {
    if |g| <= size then [g]
    else
      PartsSmaller(g, size, cluster);
      AllBuckets(SplitGroup(g, size, cluster), |g|, size, cluster)
  }

  ghost function AllBuckets(gs: seq<seq<nat>>, bound: nat, size: nat, cluster: Labeler): seq<seq<nat>>
    requires 2 <= size && forall i :: 0 <= i < |gs| ==> |gs[i]| < bound
    decreases bound, 0, |gs|
  {
    if gs == [] then [] else BucketsOf(gs[0], size, cluster) + AllBuckets(gs[1..], bound, size, cluster)
  }

  lemma {:induction false} AllBucketsAppend(a: seq<seq<nat>>, b: seq<seq<nat>>, bound: nat, c: nat, size: nat, cluster: Labeler)
    requires 2 <= size && (forall i :: 0 <= i < |a| ==> |a[i]| < bound) && (forall i :: 0 <= i < |b| ==> |b[i]| < bound && |b[i]| < c)
    ensures AllBuckets(a + b, bound, size, cluster) == AllBuckets(a, bound, size, cluster) + AllBuckets(b, c, size, cluster)
    decreases |a|, |b|
  {
    if a != [] {
      assert (a + b)[1..] == a[1..] + b;
      AllBucketsAppend(a[1..], b, bound, c, size, cluster);
    } else {
      assert a + b == b;
      if b != [] {
        AllBucketsAppend([], b[1..], bound, c, size, cluster);
        assert [] + b[1..] == b[1..];
      }
    }
  }

  lemma AllBucketsOne(g: seq<nat>, bound: nat, size: nat, cluster: Labeler)
    requires 2 <= size && |g| < bound
    ensures AllBuckets([g], bound, size, cluster) == BucketsOf(g, size, cluster)
  {
    assert [g][1..] == [];
  }

  /** What the worklist still has to deliver makes up, with the buckets, what the recursion gives. */
  ghost predicate Delivers(n: nat, size: nat, cluster: Labeler, groups: seq<seq<nat>>, buckets: seq<seq<nat>>)
    requires 2 <= size
  {
    && (forall i :: 0 <= i < |groups| ==> |groups[i]| < n + 1)
    && multiset(buckets) + multiset(AllBuckets(groups, n + 1, size, cluster)) == multiset(BucketsOf(Range(n), size, cluster))
  }

  lemma DeliversStart(n: nat, size: nat, cluster: Labeler)
    requires 2 <= size
    ensures Delivers(n, size, cluster, [Range(n)], [])
  {
    AllBucketsOne(Range(n), n + 1, size, cluster);
  }

  lemma DeliversBucket(n: nat, size: nat, cluster: Labeler, rest: seq<seq<nat>>, g: seq<nat>, buckets: seq<seq<nat>>)
    requires 2 <= size && |g| <= size && Delivers(n, size, cluster, rest + [g], buckets)
    ensures Delivers(n, size, cluster, rest, buckets + [g])
  {
    assert (rest + [g])[|rest|] == g && forall i :: 0 <= i < |rest| ==> (rest + [g])[i] == rest[i];
    AllBucketsAppend(rest, [g], n + 1, n + 1, size, cluster);
    AllBucketsOne(g, n + 1, size, cluster);
    hide AllBuckets;
  }

  lemma DeliversParts(n: nat, size: nat, cluster: Labeler, rest: seq<seq<nat>>, g: seq<nat>, buckets: seq<seq<nat>>)
    requires 2 <= size < |g| && Delivers(n, size, cluster, rest + [g], buckets)
    ensures Delivers(n, size, cluster, rest + SplitGroup(g, size, cluster), buckets)
  {
    hide AllBuckets, BucketsOf, SplitGroup;
    var parts := SplitGroup(g, size, cluster);
    assert (rest + [g])[|rest|] == g && forall i :: 0 <= i < |rest| ==> (rest + [g])[i] == rest[i];
    BucketsSplit(g, size, cluster);
    AllBucketsAppend(rest, [g], n + 1, n + 1, size, cluster);
    AllBucketsOne(g, n + 1, size, cluster);
    AllBucketsAppend(rest, parts, n + 1, |g|, size, cluster);
  }

  lemma BucketsSplit(g: seq<nat>, size: nat, cluster: Labeler)
    requires 2 <= size < |g|
    ensures var parts := SplitGroup(g, size, cluster);
            && (forall i :: 0 <= i < |parts| ==> |parts[i]| < |g|)
            && BucketsOf(g, size, cluster) == AllBuckets(parts, |g|, size, cluster)
  {
    PartsSmaller(g, size, cluster);
  }

  lemma DeliversEnd(n: nat, size: nat, cluster: Labeler, buckets: seq<seq<nat>>)
    requires 2 <= size && Delivers(n, size, cluster, [], buckets)
    ensures multiset(buckets) == multiset(BucketsOf(Range(n), size, cluster))
  {
  }

  lemma SameLength(a: seq<nat>, b: seq<nat>)
    requires multiset(a) == multiset(b)
    ensures |a| == |b|
  {
    assert |multiset(a)| == |a| && |multiset(b)| == |b|;
  }

  /** What the worklist keeps: every index is in one place, and the buckets stay few and small. */
  ghost predicate Splitting(n: nat, size: nat, groups: seq<seq<nat>>, buckets: seq<seq<nat>>)
  {
    && NoneEmpty(groups) && NoneEmpty(buckets)
    && (forall i :: 0 <= i < |buckets| ==> |buckets[i]| <= size)
    && multiset(Flat(groups)) + multiset(Flat(buckets)) == multiset(Range(n))
    && |buckets| + Yield(groups) < n
  }

  lemma StartSplitting(n: nat, size: nat)
    requires 2 <= size < n
    ensures Splitting(n, size, [Range(n)], [])
  {
    FlatSingle(Range(n));
    assert [Range(n)][1..] == [];
  }

  lemma CloseBucket(n: nat, size: nat, rest: seq<seq<nat>>, g: seq<nat>, buckets: seq<seq<nat>>)
    requires Splitting(n, size, rest + [g], buckets) && |g| <= size
    ensures Splitting(n, size, rest, buckets + [g])
    ensures Work(rest) < Work(rest + [g])
  {
    hide Flat, Yield;
    FlatAppend(rest, [g]);
    FlatSingle(g);
    FlatAppend(buckets, [g]);
    YieldAppend(rest, [g]);
    YieldSingle(g);
    assert NoneEmpty(rest) && |g| > 0 by {
      assert forall i :: 0 <= i < |rest| ==> (rest + [g])[i] == rest[i];
      assert (rest + [g])[|rest|] == g;
    }
  }

  lemma YieldSingle(g: seq<nat>)
    ensures Yield([g]) == if |g| <= 1 then |g| else |g| - 1
  {
    assert [g][1..] == [];
  }

  lemma SplitOne(n: nat, size: nat, rest: seq<seq<nat>>, g: seq<nat>, parts: seq<seq<nat>>, buckets: seq<seq<nat>>)
    requires Splitting(n, size, rest + [g], buckets) && 2 <= size < |g|
    requires multiset(Flat(parts)) == multiset(g) && NoneEmpty(parts) && 2 <= |parts| < |g|
    ensures Splitting(n, size, rest + parts, buckets)
    ensures Work(rest + parts) < Work(rest + [g])
  {
    hide Flat, Yield;
    FlatAppend(rest, [g]);
    FlatSingle(g);
    FlatAppend(rest, parts);
    YieldAppend(rest, [g]);
    YieldAppend(rest, parts);
    YieldSingle(g);
    SameLength(Flat(parts), g);
    YieldOfParts(parts);
    assert NoneEmpty(rest) by {
      assert forall i :: 0 <= i < |rest| ==> (rest + [g])[i] == rest[i];
    }
  }

  // ---------- the final order ----------

  /** The sort key: size first, then first member. */
  predicate Before(a: seq<nat>, b: seq<nat>)
    requires a != [] && b != []
  {
    |a| < |b| || (|a| == |b| && a[0] <= b[0])
  }

  predicate Sorted(bs: seq<seq<nat>>)
    requires forall i :: 0 <= i < |bs| ==> |bs[i]| > 0
  {
    forall i, j :: 0 <= i < j < |bs| ==> Before(bs[i], bs[j])
  }

  method InsertSorted(bs: seq<seq<nat>>, g: seq<nat>) returns (r: seq<seq<nat>>)
    requires NoneEmpty(bs) && Sorted(bs) && g != []
    ensures NoneEmpty(r) && Sorted(r) && multiset(r) == multiset(bs) + multiset{g}
  {
    var k := 0;
    while k < |bs| && Before(bs[k], g)
      invariant k <= |bs| && forall i :: 0 <= i < k ==> Before(bs[i], g)
    {
      k := k + 1;
    }
    r := bs[..k] + [g] + bs[k..];
    InsertedAt(bs, g, k, r);
  }

  lemma InsertedAt(bs: seq<seq<nat>>, g: seq<nat>, k: nat, r: seq<seq<nat>>)
    requires NoneEmpty(bs) && Sorted(bs) && g != [] && k <= |bs| && r == bs[..k] + [g] + bs[k..]
    requires (forall i :: 0 <= i < k ==> Before(bs[i], g)) && (k < |bs| ==> !Before(bs[k], g))
    ensures NoneEmpty(r) && Sorted(r) && multiset(r) == multiset(bs) + multiset{g}
  {
    assert bs == bs[..k] + bs[k..];
    assert NoneEmpty(r);
    forall i, j | 0 <= i < j < |r|
      ensures Before(r[i], r[j])
    {
      if i == k {
        assert Before(g, bs[k]);
        assert k < j - 1 ==> Before(bs[k], bs[j - 1]);
      }
    }
  }

  method SortBuckets(bs: seq<seq<nat>>) returns (r: seq<seq<nat>>)
    requires NoneEmpty(bs)
    ensures NoneEmpty(r) && Sorted(r) && multiset(r) == multiset(bs)
  {
    r := [];
    for i := 0 to |bs|
      invariant NoneEmpty(r) && Sorted(r) && multiset(r) == multiset(bs[..i])
    {
      assert bs[..i + 1] == bs[..i] + [bs[i]];
      r := InsertSorted(r, bs[i]);
    }
    assert bs[..|bs|] == bs;
  }

  /** Reordering the groups reorders the members. */
  lemma {:induction false} FlatReordered(a: seq<seq<nat>>, b: seq<seq<nat>>)
    requires multiset(a) == multiset(b)
    ensures multiset(Flat(a)) == multiset(Flat(b)) && |a| == |b|
    decreases |a|
  {
    if a == [] {
      assert |b| == |multiset(b)| == |multiset(a)| == 0;
    } else {
      assert a[0] in multiset(b);
      var i :| 0 <= i < |b| && b[i] == a[0];
      RemoveAt(a, b, i);
      var l, r := b[..i], b[i + 1..];
      FlatReordered(a[1..], l + r);
      FlatAround(b, i);
    }
  }

  lemma RemoveAt(a: seq<seq<nat>>, b: seq<seq<nat>>, i: nat)
    requires a != [] && i < |b| && b[i] == a[0] && multiset(a) == multiset(b)
    ensures multiset(a[1..]) == multiset(b[..i] + b[i + 1..])
  {
    var x, l, r := a[0], b[..i], b[i + 1..];
    assert a == [x] + a[1..] && b == l + ([x] + r);
    assert multiset(a) == multiset{x} + multiset(a[1..]);
    assert multiset(b) == multiset(l) + (multiset{x} + multiset(r));
    assert multiset(l + r) == multiset(l) + multiset(r);
    assert multiset{x} + multiset(a[1..]) == multiset{x} + multiset(l + r);
    assert multiset(a[1..]) == (multiset{x} + multiset(a[1..])) - multiset{x};
    assert multiset(l + r) == (multiset{x} + multiset(l + r)) - multiset{x};
  }

  lemma FlatAround(b: seq<seq<nat>>, i: nat)
    requires i < |b|
    ensures multiset(Flat(b)) == multiset(b[i]) + multiset(Flat(b[..i] + b[i + 1..]))
  {
    hide Flat;
    var l, r := b[..i], b[i + 1..];
    assert b == l + ([b[i]] + r);
    FlatAppend(l, [b[i]] + r);
    FlatAppend([b[i]], r);
    FlatSingle(b[i]);
    FlatAppend(l, r);
  }

  /** Members of a reordering are members of the original. */
  lemma SameMembers(a: seq<seq<nat>>, b: seq<seq<nat>>, size: nat)
    requires multiset(a) == multiset(b) && forall i :: 0 <= i < |a| ==> |a[i]| <= size
    ensures forall i :: 0 <= i < |b| ==> |b[i]| <= size
  {
    forall i | 0 <= i < |b|
      ensures |b[i]| <= size
    {
      assert b[i] in multiset(b);
      assert b[i] in a;
    }
  }

  lemma SortedSingle(g: seq<nat>)
    requires g != []
    ensures Sorted([g])
  {
  }

  lemma SplittingParts(n: nat, size: nat, groups: seq<seq<nat>>, buckets: seq<seq<nat>>)
    requires Splitting(n, size, groups, buckets)
    ensures NoneEmpty(groups) && NoneEmpty(buckets) && (forall i :: 0 <= i < |buckets| ==> |buckets[i]| <= size)
    ensures groups == [] ==> multiset(Flat(buckets)) == multiset(Range(n)) && |buckets| < n
    ensures Work(groups) >= 0
  {
    PartsBound(groups);
  }

  /**
    Cut the indices below `n` into buckets: every index lands in exactly one bucket, no bucket is
    empty or too large, and a range that had to be cut gives strictly fewer buckets than indices.
   */
  method SplitPsiBuckets(n: nat, size: nat, cluster: Labeler) returns (buckets: seq<seq<nat>>)
    requires 2 <= size
    ensures multiset(Flat(buckets)) == multiset(Range(n))
    ensures n > 0 ==> NoneEmpty(buckets) && Sorted(buckets)
    ensures forall i :: 0 <= i < |buckets| ==> |buckets[i]| <= size
    ensures n <= size ==> buckets == [Range(n)]
    ensures n > size ==> |buckets| < n
    ensures multiset(buckets) == multiset(BucketsOf(Range(n), size, cluster))
  {
    hide Splitting, Delivers, Sorted, SplitGroup, Flat;
    if n <= size {
      FlatSingle(Range(n));
      if n > 0 {
        SortedSingle(Range(n));
      }
      return [Range(n)];
    }
    StartSplitting(n, size);
    var groups := [Range(n)];
    buckets := [];
    DeliversStart(n, size, cluster);
    while groups != []
      invariant Splitting(n, size, groups, buckets)
      invariant Delivers(n, size, cluster, groups, buckets)
      decreases Work(groups)
    {
      SplittingParts(n, size, groups, buckets);
      var rest, g := groups[..|groups| - 1], groups[|groups| - 1];
      assert groups == rest + [g];
      if |g| <= size {
        DeliversBucket(n, size, cluster, rest, g, buckets);
        CloseBucket(n, size, rest, g, buckets);
        groups, buckets := rest, buckets + [g];
      } else {
        SplitGroupWorks(g, size, cluster);
        var parts := SplitGroup(g, size, cluster);
        SplitOne(n, size, rest, g, parts, buckets);
        DeliversParts(n, size, cluster, rest, g, buckets);
        groups := rest + parts;
      }
    }
    SplittingParts(n, size, groups, buckets);
    DeliversEnd(n, size, cluster, buckets);
    var sorted := SortBuckets(buckets);
    FlatReordered(buckets, sorted);
    SameMembers(buckets, sorted, size);
    buckets := sorted;
  }
}
