/**
  `_build_psi_layers`: the bottom-up loop that turns an inner node into a summary chunk once all of
  its children have text.
 */
module PsiSummaries {
  import opened Options
  import opened Sets
  import opened PsiTree
  import opened PsiLayers

  /** The summarizing call: it fails or answers with text that is not empty. */
  type Summarizer = f: (nat, seq<string>) -> Option<string> |
      forall i, ts :: f(i, ts).Some? ==> f(i, ts).value != ""
    witness (i: nat, ts: seq<string>) => None

  function NonEmpty(ts: seq<string>): seq<string>
  {
    if ts == [] then [] else (if ts[0] == "" then [] else [ts[0]]) + NonEmpty(ts[1..])
  }

  lemma {:induction false} NonEmptyAll(ts: seq<string>)
    requires forall i :: 0 <= i < |ts| ==> ts[i] != ""
    ensures NonEmpty(ts) == ts
    decreases |ts|
  {
    if ts != [] {
      NonEmptyAll(ts[1..]);
    }
  }

  // ---------- what has been said ----------

  ghost predicate Knows(s: Shape, said: map<PsiNode, string>)
  {
    forall k :: k in Subs(s) ==> k.node in said
  }

  ghost function TextsOf(ks: seq<Shape>, said: map<PsiNode, string>): (r: seq<string>)
    requires forall i :: 0 <= i < |ks| ==> ks[i].node in said
    ensures |r| == |ks| && forall i :: 0 <= i < |ks| ==> r[i] == said[ks[i].node]
  {
    seq(|ks|, i requires 0 <= i < |ks| && ks[i].node in said => said[ks[i].node])
  }

  /** A leaf has text; an inner node carries the summary of the texts of all its children. */
  ghost predicate Told(k: Shape, said: map<PsiNode, string>, f: Summarizer)
  {
    && k.node in said && said[k.node] != ""
    && (k.kids != [] ==>
          && (forall i :: 0 <= i < |k.kids| ==> k.kids[i].node in said)
          && f(k.node.index, TextsOf(k.kids, said)) == Some(said[k.node]))
  }

  ghost predicate ToldBelow(s: Shape, h: nat, said: map<PsiNode, string>, f: Summarizer)
  {
    forall k :: k in Subs(s) && Height(k) < h ==> Told(k, said, f)
  }

  /** The texts of all inner nodes up to height `h`, layer by layer. */
  ghost function Spoken(s: Shape, h: nat, said: map<PsiNode, string>): (r: seq<string>)
    requires Knows(s, said)
    ensures |r| == UpTo(s, h)
  {
    if h == 0 then []
    else
      KnowsLayer(s, h, said);
      Spoken(s, h - 1, said) + TextsOf(ShapesAt(s, h), said)
  }

  lemma KnowsLayer(s: Shape, h: nat, said: map<PsiNode, string>)
    requires Knows(s, said)
    ensures forall i :: 0 <= i < |ShapesAt(s, h)| ==> ShapesAt(s, h)[i].node in said
  {
    var ks := ShapesAt(s, h);
    forall i | 0 <= i < |ks|
      ensures ks[i].node in said
    {
      ShapesAtMembers(s, h, ks[i]);
    }
  }

  /** The layer boundaries when nothing is skipped. */
  ghost function Bounds(s: Shape, n: nat, h: nat): seq<(nat, nat)>
  {
    if h == 0 then [(0, n)] else Bounds(s, n, h - 1) + [(n + UpTo(s, h - 1), n + UpTo(s, h))]
  }

  /** Two records that agree below height `h` speak alike below it. */
  ghost predicate AgreeBelow(s: Shape, h: nat, a: map<PsiNode, string>, b: map<PsiNode, string>)
  {
    && Knows(s, a) && Knows(s, b)
    && (forall k :: k in Subs(s) && Height(k) < h ==> a[k.node] == b[k.node])
  }

  lemma {:induction false} SpokenAgree(s: Shape, h: nat, a: map<PsiNode, string>, b: map<PsiNode, string>)
    requires AgreeBelow(s, h + 1, a, b)
    ensures Spoken(s, h, a) == Spoken(s, h, b)
    decreases h
  {
    if h > 0 {
      SpokenAgree(s, h - 1, a, b);
      var ks := ShapesAt(s, h);
      KnowsLayer(s, h, a);
      KnowsLayer(s, h, b);
      forall i | 0 <= i < |ks|
        ensures a[ks[i].node] == b[ks[i].node]
      {
        ShapesAtMembers(s, h, ks[i]);
      }
      assert TextsOf(ks, a) == TextsOf(ks, b);
    }
  }

  lemma KidsAreSubs(s: Shape, k: Shape, i: nat)
    requires k in Subs(s) && i < |k.kids|
    ensures k.kids[i] in Subs(s) && Height(k.kids[i]) < Height(k)
  {
    SubFacts(s, k);
    SubsAllAt(k.kids, i);
  }

  lemma ToldAgree(s: Shape, h: nat, k: Shape, a: map<PsiNode, string>, b: map<PsiNode, string>, f: Summarizer)
    requires AgreeBelow(s, h, a, b) && k in Subs(s) && Height(k) < h && Told(k, a, f)
    ensures Told(k, b, f)
  {
    forall i | 0 <= i < |k.kids|
      ensures k.kids[i].node in a && k.kids[i].node in b && a[k.kids[i].node] == b[k.kids[i].node]
    {
      KidsAreSubs(s, k, i);
    }
    if k.kids != [] {
      assert TextsOf(k.kids, a) == TextsOf(k.kids, b);
    }
  }

  // ---------- the heap side ----------

  ghost predicate Matches(s: Shape)
    reads (set k | k in Subs(s) :: k.node)`children
  {
    forall k :: k in Subs(s) ==> k.node.children == Heads(k.kids)
  }

  ghost predicate Speaks(s: Shape, said: map<PsiNode, string>)
    reads (set k | k in Subs(s) :: k.node)`text
  {
    forall k :: k in Subs(s) ==> k.node in said && k.node.text == said[k.node]
  }

  lemma {:induction false} LinkedMatches(s: Shape)
    requires Linked(s)
    ensures Matches(s)
    decreases s, 1
  {
    LinkedAllMatches(s.kids, s.node);
  }

  lemma {:induction false} LinkedAllMatches(ks: seq<Shape>, parent: PsiNode?)
    requires LinkedAll(ks, parent)
    ensures forall k :: k in SubsAll(ks) ==> k.node.children == Heads(k.kids)
    decreases ks, 0
  {
    if ks != [] {
      LinkedMatches(ks[0]);
      LinkedAllMatches(ks[1..], parent);
    }
  }

  /** A new text for one node is told, and changes nothing below its height. */
  lemma SayOne(s: Shape, k: Shape, said: map<PsiNode, string>, text: string, f: Summarizer)
    requires Proper(s) && k in Subs(s) && k.kids != [] && Knows(s, said) && text != ""
    ensures AgreeBelow(s, Height(k), said, said[k.node := text])
    ensures (forall i :: 0 <= i < |k.kids| ==> k.kids[i].node in said)
    ensures f(k.node.index, TextsOf(k.kids, said)) == Some(text) ==> Told(k, said[k.node := text], f)
  {
    var said' := said[k.node := text];
    forall l | l in Subs(s) && Height(l) < Height(k)
      ensures l.node != k.node
    {
      if l.node == k.node {
        SubsDistinct(s, l, k);
      }
    }
    forall i | 0 <= i < |k.kids|
      ensures k.kids[i].node in said && k.kids[i].node != k.node
    {
      KidsAreSubs(s, k, i);
    }
    assert TextsOf(k.kids, said) == TextsOf(k.kids, said');
  }

  lemma KidTexts(s: Shape, k: Shape, said: map<PsiNode, string>, f: Summarizer)
    requires k in Subs(s) && Knows(s, said)
    ensures forall i :: 0 <= i < |k.kids| ==> k.kids[i].node in said && k.kids[i] in Subs(s)
    ensures ToldBelow(s, Height(k), said, f) ==>
              forall i :: 0 <= i < |k.kids| ==> TextsOf(k.kids, said)[i] != ""
  {
    forall i | 0 <= i < |k.kids|
      ensures k.kids[i].node in said && k.kids[i] in Subs(s)
      ensures ToldBelow(s, Height(k), said, f) ==> said[k.kids[i].node] != ""
    {
      KidsAreSubs(s, k, i);
      if ToldBelow(s, Height(k), said, f) {
        assert Told(k.kids[i], said, f);
      }
    }
  }

  lemma SpeaksKnows(s: Shape, said: map<PsiNode, string>)
    requires Speaks(s, said)
    ensures Knows(s, said)
  {
  }

  /** Writing the text of one node keeps the record up to date. */
  lemma SpeaksAfter(s: Shape, k: Shape, said: map<PsiNode, string>)
    requires k in Subs(s) && k.node.text != ""
    requires forall l :: l in Subs(s) && l.node != k.node ==> l.node in said && l.node.text == said[l.node]
    ensures Speaks(s, said[k.node := k.node.text])
  {
  }

  method ChildTexts(node: PsiNode, ghost k: Shape, ghost said: map<PsiNode, string>) returns (texts: seq<string>)
    requires node.children == Heads(k.kids)
    requires forall i :: 0 <= i < |k.kids| ==> k.kids[i].node in said && k.kids[i].node.text == said[k.kids[i].node]
    ensures texts == NonEmpty(TextsOf(k.kids, said))
  {
    texts := NonEmpty(seq(|node.children|, i requires 0 <= i < |node.children| reads node, node.children => node.children[i].text));
    assert seq(|node.children|, i requires 0 <= i < |node.children| reads node, node.children => node.children[i].text) == TextsOf(k.kids, said);
  }

  /** `summarize_node`: skipped without child text, counted as an error when the call fails. */
  method SummarizeNode(node: PsiNode, f: Summarizer, errors: nat, maxErrors: nat, ghost s: Shape, ghost k: Shape, ghost said: map<PsiNode, string>)
    returns (ok: bool, raised: bool, errors': nat, ghost said': map<PsiNode, string>)
    requires k in Subs(s) && k.node == node && k.kids != [] && Matches(s) && Speaks(s, said) && Proper(s)
    modifies node`text
    ensures Speaks(s, said') && AgreeBelow(s, Height(k), said, said')
    ensures errors <= errors' && (raised ==> errors < errors')
    ensures said' == if ok then said[node := node.text] else said
    ensures ToldBelow(s, Height(k), said, f) && errors' == errors ==> ok && !raised && Told(k, said', f)
    ensures ToldBelow(s, Height(k), said, f) && errors' > errors ==> FailedIn(s, said, f)
  {
    hide Told, ToldBelow, Subs, Height, Proper;
    SpeaksKnows(s, said);
    KidTexts(s, k, said, f);
    ok, raised, errors', said' := false, false, errors, said;
    var texts := ChildTexts(node, k, said);
    if ToldBelow(s, Height(k), said, f) {
      NonEmptyAll(TextsOf(k.kids, said));
    }
    if texts == [] {
      return;
    }
    var result := f(node.index, texts);
    if result.None? {
      errors' := errors + 1;
      raised := errors' >= maxErrors;
      assert ToldBelow(s, Height(k), said, f) ==> FailedAt(s, k, said, f);
      return;
    }
    node.text := result.value;
    ok, said' := true, said[node := node.text];
    SayOne(s, k, said, result.value, f);
    SpeaksAfter(s, k, said);
  }

  ghost predicate AllTold(ks: seq<Shape>, told: set<nat>, said: map<PsiNode, string>, f: Summarizer)
  {
    forall j :: 0 <= j < |ks| && j in told ==> Told(ks[j], said, f)
  }

  /** Telling one more node of the layer keeps those told before. */
  lemma AllToldMore(s: Shape, h: nat, told: set<nat>, i: nat, a: map<PsiNode, string>, text: string, b: map<PsiNode, string>, f: Summarizer)
    requires Proper(s) && i < |ShapesAt(s, h)| && Knows(s, a) && Knows(s, b)
    requires b == a[ShapesAt(s, h)[i].node := text]
    requires AllTold(ShapesAt(s, h), told, a, f) && Told(ShapesAt(s, h)[i], b, f)
    ensures AllTold(ShapesAt(s, h), told + {i}, b, f)
  {
    var ks := ShapesAt(s, h);
    ShapesAtOnce(s, h);
    ShapesAtMembers(s, h, ks[i]);
    forall j | 0 <= j < |ks| && j in told && j != i
      ensures Told(ks[j], b, f)
    {
      ShapesAtMembers(s, h, ks[j]);
      forall x | 0 <= x < |ks[j].kids|
        ensures ks[j].kids[x].node != ks[i].node
      {
        KidsAreSubs(s, ks[j], x);
        if ks[j].kids[x].node == ks[i].node {
          SubsDistinct(s, ks[j].kids[x], ks[i]);
        }
      }
      assert Told(ks[j], a, f);
      assert TextsOf(ks[j].kids, a) == TextsOf(ks[j].kids, b);
    }
  }

  lemma AgreeTrans(s: Shape, h: nat, a: map<PsiNode, string>, b: map<PsiNode, string>, c: map<PsiNode, string>)
    requires AgreeBelow(s, h, a, b) && AgreeBelow(s, h, b, c)
    ensures AgreeBelow(s, h, a, c)
  {
  }

  lemma ToldBelowAgree(s: Shape, h: nat, a: map<PsiNode, string>, b: map<PsiNode, string>, f: Summarizer)
    requires AgreeBelow(s, h, a, b) && ToldBelow(s, h, a, f)
    ensures ToldBelow(s, h, b, f)
  {
    forall k | k in Subs(s) && Height(k) < h
      ensures Told(k, b, f)
    {
      ToldAgree(s, h, k, a, b, f);
    }
  }

  lemma LayerTold(s: Shape, h: nat, said: map<PsiNode, string>, f: Summarizer)
    requires h >= 1 && ToldBelow(s, h, said, f) && AllTold(ShapesAt(s, h), Below(|ShapesAt(s, h)|), said, f)
    ensures ToldBelow(s, h + 1, said, f)
  {
    forall k | k in Subs(s) && Height(k) < h + 1
      ensures Told(k, said, f)
    {
      if Height(k) == h {
        ShapesAtMembers(s, h, k);
        var j :| 0 <= j < |ShapesAt(s, h)| && ShapesAt(s, h)[j] == k;
        assert j in Below(|ShapesAt(s, h)|);
      }
    }
  }

  /** In this run the call for some inner node failed, after all lower nodes had their text. */
  ghost predicate FailedIn(s: Shape, said: map<PsiNode, string>, f: Summarizer)
  {
    Knows(s, said) && exists k :: k in Subs(s) && FailedAt(s, k, said, f)
  }

  ghost predicate FailedAt(s: Shape, k: Shape, said: map<PsiNode, string>, f: Summarizer)
  {
    && k.kids != [] && (forall i :: 0 <= i < |k.kids| ==> k.kids[i].node in said)
    && ToldBelow(s, Height(k), said, f) && f(k.node.index, TextsOf(k.kids, said)) == None
  }

  /** The nodes that got a summary, in the order of the layer. */
  method Kept(nodes: seq<PsiNode>, told: set<nat>) returns (done: seq<PsiNode>)
    ensures (forall i :: 0 <= i < |nodes| ==> i in told) ==> done == nodes
    ensures |done| <= |nodes|
  {
    done := [];
    for i := 0 to |nodes|
      invariant |done| <= i && ((forall j :: 0 <= j < i ==> j in told) ==> done == nodes[..i])
    {
      if i in told {
        done := done + [nodes[i]];
      }
    }
    assert nodes[..|nodes|] == nodes;
  }

  /**
    All nodes of one layer, summarized concurrently and finishing in any order; the texts are
    appended afterwards.
   */
  method SummarizeLayer(nodes: seq<PsiNode>, f: Summarizer, errors: nat, maxErrors: nat, ghost s: Shape, ghost h: nat, ghost said: map<PsiNode, string>)
    returns (done: seq<PsiNode>, raised: bool, errors': nat, ghost said': map<PsiNode, string>, ghost bad: map<PsiNode, string>)
    requires h >= 1 && nodes == Heads(ShapesAt(s, h)) && Matches(s) && Speaks(s, said) && Proper(s)
    modifies (set n | n in nodes)`text
    ensures Speaks(s, said') && AgreeBelow(s, h, said, said')
    ensures errors <= errors' && (raised ==> errors < errors')
    ensures ToldBelow(s, h, said, f) && errors' == errors ==> ToldBelow(s, h + 1, said', f) && done == nodes
    ensures ToldBelow(s, h, said, f) && errors' > errors ==> FailedIn(s, bad, f) && AgreeBelow(s, h, said, bad)
  {
    hide Told, ToldBelow, Subs, Height, Proper, ShapesAt, AgreeBelow, AllTold, Speaks, Heads, Matches, FailedIn;
    ghost var ks := ShapesAt(s, h);
    done, raised, errors', said', bad := [], false, errors, said, said;
    SpeaksKnows(s, said);
    AgreeSelf(s, h, said);
    NoneTold(ks, said, f);
    var told, pending := {}, Below(|nodes|);
    while pending != {}
      invariant Speaks(s, said') && AgreeBelow(s, h, said, said') && Matches(s)
      invariant errors <= errors' && pending <= Below(|nodes|)
      invariant ToldBelow(s, h, said, f) && errors' == errors ==>
                  ToldBelow(s, h, said', f) && AllTold(ks, told, said', f) && told == Below(|nodes|) - pending
      invariant ToldBelow(s, h, said, f) && errors' > errors ==> FailedIn(s, bad, f) && AgreeBelow(s, h, said, bad)
      decreases |pending|
    {
      var i :| i in pending;
      pending := pending - {i};
      ghost var before := said';
      InLayer(s, h, i);
      SpeaksKnows(s, before);
      var ok, r, e;
      ghost var after;
      ok, r, e, after := SummarizeNode(nodes[i], f, errors', maxErrors, s, ks[i], said');
      AgreeTrans(s, h, said, before, after);
      SpeaksKnows(s, after);
      if ToldBelow(s, h, said, f) && e == errors {
        ToldBelowAgree(s, h, before, after, f);
        AllToldMore(s, h, told, i, before, nodes[i].text, after, f);
      }
      if errors' == errors && e > errors {
        bad := before;
      }
      errors', said' := e, after;
      if ok {
        told := told + {i};
      }
      if r {
        raised := true;
        return;
      }
    }
    done := Kept(nodes, told);
    if ToldBelow(s, h, said, f) && errors' == errors {
      assert told == Below(|ks|);
      LayerTold(s, h, said', f);
    }
  }

  lemma AgreeSelf(s: Shape, h: nat, said: map<PsiNode, string>)
    requires Knows(s, said)
    ensures AgreeBelow(s, h, said, said)
  {
  }

  lemma NoneTold(ks: seq<Shape>, said: map<PsiNode, string>, f: Summarizer)
    ensures AllTold(ks, {}, said, f)
  {
  }

  lemma InLayer(s: Shape, h: nat, i: nat)
    requires i < |ShapesAt(s, h)|
    ensures ShapesAt(s, h)[i] in Subs(s) && ShapesAt(s, h)[i].kids != [] && Height(ShapesAt(s, h)[i]) == h
  {
    ShapesAtMembers(s, h, ShapesAt(s, h)[i]);
  }

  /** Everything that holds after the layers up to height `h` went through without an error. */
  ghost predicate Complete(s: Shape, h: nat, n: nat, given: seq<string>, said: map<PsiNode, string>, f: Summarizer, chunks: seq<string>, layers: seq<(nat, nat)>)
    requires Knows(s, said)
  {
    && ToldBelow(s, h + 1, said, f)
    && chunks == given + Spoken(s, h, said)
    && layers == Bounds(s, n, h)
  }

  lemma CompleteNext(s: Shape, h: nat, n: nat, given: seq<string>, a: map<PsiNode, string>, b: map<PsiNode, string>, f: Summarizer, chunks: seq<string>, layers: seq<(nat, nat)>, ks: seq<Shape>)
    requires AgreeBelow(s, h + 1, a, b) && Complete(s, h, n, given, a, f, chunks, layers)
    requires ToldBelow(s, h + 2, b, f) && |given| == n && h + 1 <= Height(s) && ks == ShapesAt(s, h + 1)
    ensures forall i :: 0 <= i < |ks| ==> ks[i].node in b
    ensures var more := chunks + TextsOf(ks, b);
            && |more| > |chunks|
            && Complete(s, h + 1, n, given, b, f, more, layers + [(|chunks|, |more|)])
  {
    hide ToldBelow, ShapesAt, Height, Subs;
    KnowsLayer(s, h + 1, b);
    EveryHeight(s, h + 1);
    SpokenAgree(s, h, a, b);
    var said, more := Spoken(s, h, b), TextsOf(ks, b);
    assert Spoken(s, h + 1, b) == said + more;
    assert given + (said + more) == (given + said) + more;
    assert Bounds(s, n, h + 1) == Bounds(s, n, h) + [(n + UpTo(s, h), n + UpTo(s, h + 1))];
  }

  /** The texts of the summarized nodes, in order. */
  method AppendTexts(chunks: seq<string>, done: seq<PsiNode>, ghost ks: seq<Shape>, ghost said: map<PsiNode, string>) returns (more: seq<string>)
    ensures |more| == |chunks| + |done|
    ensures done == Heads(ks) && (forall i :: 0 <= i < |ks| ==> ks[i].node in said && ks[i].node.text == said[ks[i].node]) ==>
              more == chunks + TextsOf(ks, said)
  {
    more := chunks;
    for i := 0 to |done|
      invariant |more| == |chunks| + i && more[..|chunks|] == chunks
      invariant forall j :: 0 <= j < i ==> more[|chunks| + j] == done[j].text
    {
      more := more + [done[i].text];
    }
  }

  lemma LayerSpeaks(s: Shape, h: nat, said: map<PsiNode, string>)
    requires Speaks(s, said)
    ensures forall i :: 0 <= i < |ShapesAt(s, h)| ==>
              ShapesAt(s, h)[i].node in said && ShapesAt(s, h)[i].node.text == said[ShapesAt(s, h)[i].node]
  {
    forall i | 0 <= i < |ShapesAt(s, h)|
      ensures ShapesAt(s, h)[i].node in said && ShapesAt(s, h)[i].node.text == said[ShapesAt(s, h)[i].node]
    {
      InLayer(s, h, i);
    }
  }

  lemma SubsAllocated(s: Shape)
    ensures forall k :: k in Subs(s) ==> allocated(k.node)
  {
    NodesAllocated([s]);
    Single(s);
    forall k | k in Subs(s)
      ensures k.node in Nodes(s)
    {
      SubFacts(s, k);
    }
  }

  lemma Begin(s: Shape, given: seq<string>, said: map<PsiNode, string>, f: Summarizer)
    requires Speaks(s, said) && ToldBelow(s, 1, said, f)
    ensures Knows(s, said) && AgreeBelow(s, 1, said, said)
    ensures Complete(s, 0, |given|, given, said, f, given, [(0, |given|)])
  {
    assert given + [] == given;
  }

  /** The collected heights are 1, 2, ... up to the height of the tree, so sorting them is counting. */
  lemma GroupKeys(s: Shape, groups: map<nat, seq<PsiNode>>)
    requires AppendedTree(map[], groups, s)
    ensures forall h: nat :: h in groups <==> 1 <= h <= Height(s)
  {
    forall h: nat
      ensures h in groups <==> 1 <= h <= Height(s)
    {
      if 1 <= h <= Height(s) {
        EveryHeight(s, h);
      } else if ShapesAt(s, h) != [] {
        InLayer(s, h, 0);
        SubFacts(s, ShapesAt(s, h)[0]);
      }
    }
  }

  lemma GroupIsLayer(s: Shape, groups: map<nat, seq<PsiNode>>, h: nat)
    requires AppendedTree(map[], groups, s) && 1 <= h <= Height(s)
    ensures h in groups && groups[h] == Heads(ShapesAt(s, h))
  {
    GroupKeys(s, groups);
    assert Listed(groups, h) == Listed(map[], h) + Heads(ShapesAt(s, h));
  }

  lemma LayerInside(s: Shape, h: nat)
    ensures forall n :: n in Heads(ShapesAt(s, h)) ==> n in Nodes(s)
  {
    var ks := ShapesAt(s, h);
    forall i | 0 <= i < |ks|
      ensures ks[i].node in Nodes(s)
    {
      InLayer(s, h, i);
      SubFacts(s, ks[i]);
    }
  }

  lemma StillKnown(s: Shape, a: map<PsiNode, string>, b: map<PsiNode, string>, c: map<PsiNode, string>, h: nat)
    requires AgreeBelow(s, 1, a, b) && AgreeBelow(s, h + 1, b, c)
    ensures Knows(s, c) && AgreeBelow(s, 1, a, c)
  {
  }

  lemma CompleteTold(s: Shape, h: nat, n: nat, given: seq<string>, said: map<PsiNode, string>, f: Summarizer, chunks: seq<string>, layers: seq<(nat, nat)>)
    requires Knows(s, said) && Complete(s, h, n, given, said, f, chunks, layers)
    ensures ToldBelow(s, h + 1, said, f)
  {
  }

  /**
    `_build_psi_layers` over a finished tree. `Done` is the return, `Raised` the abort after too
    many errors; without any error all layers are complete.
   */
  method BuildLayers(root: PsiNode, given: seq<string>, f: Summarizer, errors: nat, maxErrors: nat, ghost s: Shape, ghost said: map<PsiNode, string>)
    returns (raised: bool, chunks: seq<string>, layers: seq<(nat, nat)>, errors': nat, ghost said': map<PsiNode, string>, ghost bad: map<PsiNode, string>)
    requires s.node == root && Linked(s) && Proper(s) && Speaks(s, said) && ToldBelow(s, 1, said, f)
    modifies Nodes(s)`text
    ensures Speaks(s, said') && Knows(s, said') && AgreeBelow(s, 1, said, said')
    ensures errors <= errors' && (raised ==> errors < errors')
    ensures errors' == errors ==> !raised && Complete(s, Height(s), |given|, given, said', f, chunks, layers)
    ensures errors' > errors ==> FailedIn(s, bad, f) && AgreeBelow(s, 1, said, bad)
  {
    hide ToldBelow, Told, Subs, Height, Proper, ShapesAt, AgreeBelow, Speaks, Heads, Matches, Spoken, Bounds, AppendedTree, Nodes, Linked, Complete, Knows, FailedIn;
    LinkedMatches(s);
    SubsAllocated(s);
    var top, groups := CollectLayers(root, map[], s);
    chunks, layers, errors', said', raised, bad := given, [(0, |given|)], errors, said, false, said;
    Begin(s, given, said, f);
    GroupKeys(s, groups);
    var h := 0;
    while h < top
      invariant h <= top == Height(s) && Speaks(s, said') && Knows(s, said') && Matches(s)
      invariant AgreeBelow(s, 1, said, said') && errors <= errors'
      invariant errors' == errors ==> Complete(s, h, |given|, given, said', f, chunks, layers)
      invariant errors' > errors ==> FailedIn(s, bad, f) && AgreeBelow(s, 1, said, bad)
    {
      GroupIsLayer(s, groups, h + 1);
      var nodes := groups[h + 1];
      LayerInside(s, h + 1);
      ghost var before := said';
      var done, r, e;
      ghost var after, wrong;
      done, r, e, after, wrong := SummarizeLayer(nodes, f, errors', maxErrors, s, h + 1, said');
      StillKnown(s, said, before, after, h);
      if errors' == errors {
        CompleteTold(s, h, |given|, given, before, f, chunks, layers);
        if e > errors {
          bad := wrong;
          StillKnown(s, said, before, wrong, h);
        }
      }
      if r {
        raised, errors', said' := true, e, after;
        return;
      }
      LayerSpeaks(s, h + 1, after);
      var more := AppendTexts(chunks, done, ShapesAt(s, h + 1), after);
      if e == errors {
        CompleteNext(s, h, |given|, given, before, after, f, chunks, layers, ShapesAt(s, h + 1));
      }
      errors', said' := e, after;
      if |more| > |chunks| {
        layers := layers + [(|chunks|, |more|)];
        chunks := more;
      } else {
        break;
      }
      h := h + 1;
    }
  }
}
