/**
  Evaluation of metadata filters on the aggregated index, and one document at a time. Both select
  exactly the documents that match.
 */
module MetadataMatcher {
  import opened Options
  import opened MetadataValues
  import opened MetadataSpec
  import opened MetadataIndex

  // ---------- one filter ----------

  /** One entry of the text view, after `input` and `value` have been normalized. */
  predicate TextMatch(t: Texts, op: Operator, input: string, value: Value)
  {
    match op
    case Contains => value.Text? && Occurs(value.s, input)
    case NotContains => value.Text? && !Occurs(value.s, input)
    case In => value.Text? && Occurs(input, value.s)
    case NotIn => value.Text? && !Occurs(input, value.s)
    case StartWith => Starts(t.lower(input), t.lower(t.str(value)))
    case EndWith => Ends(t.lower(input), t.lower(t.str(value)))
    case Empty => input == ""
    case NotEmpty => input != ""
    case Unknown(_) => false
  }

  ghost predicate EntryHits(t: Texts, entries: seq<Entry>, op: Operator, operand: Value, d: DocId)
  {
    exists e :: e in entries && e.doc == d && Satisfies(t, op, operand, e.value)
  }

  lemma TextMatchIsSatisfies(t: Texts, op: Operator, operand: Value, s: string)
    requires t.Lawful() && !IsMembership(op, operand)
    ensures TextMatch(t, op, t.lower(s), t.Normalize(operand)) == Satisfies(t, op, operand, Text(s))
  {
  }

  /** Apart from list membership only the text of a value counts. */
  lemma SameText(t: Texts, op: Operator, operand: Value, v: Value)
    requires t.Lawful() && !IsMembership(op, operand)
    ensures Satisfies(t, op, operand, Text(t.str(v))) == Satisfies(t, op, operand, v)
  {
  }

  /** For list membership only the key of a value counts. */
  lemma SameKey(t: Texts, op: Operator, operand: Value, v: Value, w: Value)
    requires t.Lawful() && IsMembership(op, operand) && t.KeyOf(v) == t.KeyOf(w)
    ensures Satisfies(t, op, operand, v) == Satisfies(t, op, operand, w)
  {
  }

  lemma TextViewHits(t: Texts, entries: seq<Entry>, text: map<string, seq<DocId>>, op: Operator, operand: Value, d: DocId)
    requires t.Lawful() && !IsMembership(op, operand) && TextView(t, entries, text)
    ensures (exists s :: s in text && Satisfies(t, op, operand, Text(s)) && d in text[s]) <==> EntryHits(t, entries, op, operand, d)
  {
    hide Satisfies, TextDocs, Texts.Lawful;
    if s :| s in text && Satisfies(t, op, operand, Text(s)) && d in text[s] {
      TextDocsHas(t, entries, s, d);
      var e :| e in entries && e.doc == d && t.str(e.value) == s;
      SameText(t, op, operand, e.value);
    }
    if EntryHits(t, entries, op, operand, d) {
      var e :| e in entries && e.doc == d && Satisfies(t, op, operand, e.value);
      SameText(t, op, operand, e.value);
      TextDocsHas(t, entries, t.str(e.value), d);
    }
  }

  lemma TypedViewHits(t: Texts, entries: seq<Entry>, typed: map<Key, Posting>, op: Operator, operand: Value, d: DocId)
    requires t.Lawful() && IsMembership(op, operand) && TypedView(t, entries, typed)
    ensures (exists k :: k in typed && Satisfies(t, op, operand, typed[k].value) && d in typed[k].docs) <==> EntryHits(t, entries, op, operand, d)
  {
    hide Satisfies, Texts.KeyOf, TypedDocs, Texts.Lawful;
    if k :| k in typed && Satisfies(t, op, operand, typed[k].value) && d in typed[k].docs {
      TypedDocsHas(t, entries, k, d);
      var e :| e in entries && e.doc == d && t.KeyOf(e.value) == k;
      SameKey(t, op, operand, e.value, typed[k].value);
    }
    if EntryHits(t, entries, op, operand, d) {
      var e :| e in entries && e.doc == d && Satisfies(t, op, operand, e.value);
      var k := t.KeyOf(e.value);
      TypedDocsHas(t, entries, k, d);
      SameKey(t, op, operand, e.value, typed[k].value);
    }
  }

  /** Entries of the text view, in any order; the operand is normalized again for each of them. */
  method FilterText(t: Texts, index: MetadataValueIndex, op: Operator, operand: Value) returns (ids: seq<DocId>)
    requires t.Lawful() && index.Valid(t) && !IsMembership(op, operand)
    ensures forall d :: d in ids <==> EntryHits(t, index.entries, op, operand, d)
  {
    hide Satisfies, TextMatch, TypedView, TextView, Texts.Normalize;
    ids := [];
    var value, rest := operand, index.text.Keys;
    t.NormalizeTwice(operand);
    while rest != {}
      invariant rest <= index.text.Keys && t.Normalize(value) == t.Normalize(operand)
      invariant forall d :: d in ids <==> exists s :: s in index.text && s !in rest && Satisfies(t, op, operand, Text(s)) && d in index.text[s]
      decreases |rest|
    {
      var s :| s in rest;
      value := t.Normalize(value);
      TextMatchIsSatisfies(t, op, operand, s);
      if TextMatch(t, op, t.lower(s), value) {
        ids := ids + index.text[s];
      }
      rest := rest - {s};
    }
    forall d {
      TextViewHits(t, index.entries, index.text, op, operand, d);
    }
  }

  /** Entries of the typed view, in any order, against the keys of the operand. */
  method FilterTyped(t: Texts, index: MetadataValueIndex, op: Operator, operand: Value) returns (ids: seq<DocId>)
    requires t.Lawful() && index.Valid(t) && IsMembership(op, operand)
    ensures forall d :: d in ids <==> EntryHits(t, index.entries, op, operand, d)
  {
    hide Member, TypedView, TextView, Keys;
    ids := [];
    var keys, rest := Keys(t, operand.items), index.typed.Keys;
    while rest != {}
      invariant rest <= index.typed.Keys
      invariant forall d :: d in ids <==> exists k :: k in index.typed && k !in rest && Satisfies(t, op, operand, index.typed[k].value) && d in index.typed[k].docs
      decreases |rest|
    {
      var k :| k in rest;
      if Member(t, op, keys, index.typed[k].value) {
        ids := ids + index.typed[k].docs;
      }
      rest := rest - {k};
    }
    forall d {
      TypedViewHits(t, index.entries, index.typed, op, operand, d);
    }
  }

  // ---------- all filters ----------

  /** The posts of the document meet the conditions. */
  ghost predicate Meets(t: Texts, posts: seq<Post>, filters: seq<Condition>, logic: string, d: DocId)
  {
    if logic == "and" then forall c :: c in filters ==> Hits(t, posts, c, d)
    else exists c :: c in filters && Hits(t, posts, c, d)
  }

  /** The ids that one condition contributes. */
  method FilterOut(t: Texts, metas: Metas, c: Condition, ghost posts: seq<Post>) returns (ids: seq<DocId>)
    requires t.Lawful() && Aggregates(t, metas, posts) && Usable(c)
    ensures forall d :: d in ids <==> Hits(t, posts, c, d)
  {
    hide Satisfies;
    if c.key.None? || c.key.value !in metas {
      ids := [];
      if c.key.Some? {
        forall d {
          EntriesHit(t, posts, c, d);
        }
      }
    } else {
      var index := metas[c.key.value];
      if IsMembership(c.op, c.value) {
        ids := FilterTyped(t, index, c.op, c.value);
      } else {
        ids := FilterText(t, index, c.op, c.value);
      }
      forall d {
        EntriesHit(t, posts, c, d);
      }
    }
  }

  lemma EntriesHit(t: Texts, posts: seq<Post>, c: Condition, d: DocId)
    requires c.key.Some?
    ensures EntryHits(t, Entries(posts, c.key.value), c.op, c.value, d) <==> Hits(t, posts, c, d)
  {
    hide Satisfies;
    var key := c.key.value;
    forall e {
      EntriesHas(posts, key, e);
    }
    if Hits(t, posts, c, d) {
      var p :| p in posts && c.key == Some(p.key) && p.doc == d && Satisfies(t, c.op, c.value, p.value);
      assert p == Post(key, p.value, p.doc);
      assert Entry(p.value, p.doc) in Entries(posts, key);
    }
  }

  function Elements(s: seq<DocId>): (r: set<DocId>)
    ensures forall d :: d in r <==> d in s
  {
    set d | d in s
  }

  /** `match`: sets of ids joined in order, giving up as soon as a conjunction is empty. */
  method Match(t: Texts, metas: Metas, filters: seq<Condition>, logic: string, ghost posts: seq<Post>) returns (ids: set<DocId>)
    requires t.Lawful() && Aggregates(t, metas, posts) && AllUsable(filters)
    ensures forall d :: d in ids <==> filters != [] && Meets(t, posts, filters, logic, d)
  {
    hide Hits, Aggregates, Meets, Usable;
    var docs: Option<set<DocId>> := None;
    for i := 0 to |filters|
      invariant docs.None? <==> i == 0
      invariant docs.Some? ==> forall d :: d in docs.value <==> Meets(t, posts, filters[..i], logic, d)
    {
      var found := FilterOut(t, metas, filters[i], posts);
      forall d {
        MeetsNext(t, posts, filters, i, logic, d);
      }
      if docs.None? {
        docs := Some(Elements(found));
      } else if logic == "and" {
        docs := Some(docs.value * Elements(found));
        if docs.value == {} {
          ghost var some := filters[..i + 1];
          forall d
            ensures !Meets(t, posts, some, logic, d)
          {
            assert d !in docs.value;
          }
          NoneMeets(t, posts, some, filters, logic);
          return {};
        }
      } else {
        docs := Some(docs.value + Elements(found));
      }
    }
    assert filters[..|filters|] == filters;
    ids := if docs.Some? then docs.value else {};
  }

  lemma MeetsNext(t: Texts, posts: seq<Post>, filters: seq<Condition>, i: nat, logic: string, d: DocId)
    requires i < |filters|
    ensures i == 0 ==> (Meets(t, posts, filters[..i + 1], logic, d) <==> Hits(t, posts, filters[i], d))
    ensures i > 0 && logic == "and" ==>
              (Meets(t, posts, filters[..i + 1], logic, d) <==> Meets(t, posts, filters[..i], logic, d) && Hits(t, posts, filters[i], d))
    ensures i > 0 && logic != "and" ==>
              (Meets(t, posts, filters[..i + 1], logic, d) <==> Meets(t, posts, filters[..i], logic, d) || Hits(t, posts, filters[i], d))
  {
    hide Hits;
    assert filters[..i + 1] == filters[..i] + [filters[i]];
  }

  lemma NoneMeets(t: Texts, posts: seq<Post>, some: seq<Condition>, filters: seq<Condition>, logic: string)
    requires logic == "and" && some <= filters && forall d :: !Meets(t, posts, some, logic, d)
    ensures forall d :: !Meets(t, posts, filters, logic, d)
  {
    hide Hits;
    forall d
      ensures !Meets(t, posts, filters, logic, d)
    {
      assert !Meets(t, posts, some, logic, d);
      var c :| c in some && !Hits(t, posts, c, d);
      assert c in filters;
    }
  }

  /** `valid_metadata_conditions`: lists hold finite scalars only, membership needs a list or a text. */
  method ValidMetadataConditions(filters: seq<Condition>) returns (ok: bool)
    ensures ok <==> AllUsable(filters)
  {
    for k := 0 to |filters|
      invariant forall i :: 0 <= i < k ==> Usable(filters[i])
    {
      var c := filters[k];
      if c.value.List? {
        for i := 0 to |c.value.items|
          invariant forall j :: 0 <= j < i ==> Scalar(c.value.items[j]) && FiniteFloat(c.value.items[j])
        {
          var item := c.value.items[i];
          if item.Null? || item.List? || item.Object? || (item.Number? && item.float && !item.num.Finite?) {
            return false;
          }
        }
      } else if (c.op.In? || c.op.NotIn?) && !c.value.Text? {
        return false;
      } else if c.value.Number? && c.value.float && !c.value.num.Finite? {
        return false;
      }
    }
    ok := true;
  }

  /** `meta_filter`: an unusable operand selects nothing. */
  method MetaFilter(t: Texts, metas: Metas, filters: seq<Condition>, logic: string, ghost posts: seq<Post>) returns (ids: set<DocId>)
    requires t.Lawful() && Aggregates(t, metas, posts)
    ensures forall d :: d in ids <==> filters != [] && AllUsable(filters) && Meets(t, posts, filters, logic, d)
  {
    var usable := ValidMetadataConditions(filters);
    if !usable {
      return {};
    }
    ids := Match(t, metas, filters, logic, posts);
  }

  // ---------- both ways of evaluation ----------

  lemma RowMeets(t: Texts, row: Row, filters: seq<Condition>, logic: string, d: DocId)
    requires filters != [] && AllUsable(filters)
    ensures Meets(t, RowPosts(row), filters, logic, d) <==> d == row.id && RowMatches(t, row, filters, logic)
  {
    hide Hits, RowSatisfies, RowPosts, AllUsable;
    forall c {
      RowHits(t, row, c, d);
    }
    assert filters[0] in filters;
  }

  /**
    The aggregate joins all rows of a document. A disjunction does not notice; a conjunction does
    not either when every document has one row.
   */
  lemma AllMeets(t: Texts, rows: seq<Row>, filters: seq<Condition>, logic: string, d: DocId)
    requires filters != [] && AllUsable(filters) && (logic == "and" ==> DistinctIds(rows))
    ensures Meets(t, Posts(rows), filters, logic, d) <==> Matches(t, rows, filters, logic, d)
  {
    hide Hits, RowSatisfies, AllUsable;
    forall c {
      AllHits(t, rows, c, d);
    }
    if logic == "and" && Meets(t, Posts(rows), filters, logic, d) {
      assert filters[0] in filters && Hits(t, Posts(rows), filters[0], d);
      var first :| first in rows && first.id == d && RowSatisfies(t, first, filters[0]);
      forall c | c in filters
        ensures RowSatisfies(t, first, c)
      {
        var row :| row in rows && row.id == d && RowSatisfies(t, row, c);
        SameRow(rows, first, row);
      }
      assert RowMatches(t, first, filters, logic);
    }
    if logic != "and" && Meets(t, Posts(rows), filters, logic, d) {
      var c :| c in filters && Hits(t, Posts(rows), c, d);
      var row :| row in rows && row.id == d && RowSatisfies(t, row, c);
      assert RowMatches(t, row, filters, logic);
    }
  }

  lemma SameRow(rows: seq<Row>, r: Row, s: Row)
    requires DistinctIds(rows) && r in rows && s in rows && r.id == s.id
    ensures r == s
  {
    var i :| 0 <= i < |rows| && rows[i] == r;
    var j :| 0 <= j < |rows| && rows[j] == s;
  }

  /** The aggregated index selects exactly the matching documents. */
  method FilterAggregate(t: Texts, rows: seq<Row>, filters: seq<Condition>, logic: string) returns (ids: set<DocId>)
    requires t.Lawful() && (logic == "and" ==> DistinctIds(rows))
    ensures forall d :: d in ids <==> Matches(t, rows, filters, logic, d)
  {
    hide Aggregates, Meets, RowSatisfies, AllUsable;
    var metas := AggregateRows(t, rows);
    ids := MetaFilter(t, metas, filters, logic, Posts(rows));
    if filters != [] && AllUsable(filters) {
      forall d {
        AllMeets(t, rows, filters, logic, d);
      }
    }
  }

  /** The stream selects exactly the matching documents, in the order of the rows, each once. */
  method StreamMatches(t: Texts, rows: seq<Row>, filters: seq<Condition>, logic: string) returns (ids: seq<DocId>)
    requires t.Lawful()
    ensures forall d :: d in ids <==> Matches(t, rows, filters, logic, d)
    ensures forall i, j :: 0 <= i < j < |ids| ==> ids[i] != ids[j]
  {
    hide RowMatches, AllUsable, Matches;
    ids := [];
    var usable := ValidMetadataConditions(filters);
    if filters == [] || !usable {
      NoMatch(t, rows, filters, logic);
      return;
    }
    forall d {
      NoRows(t, filters, logic, d);
    }
    for i := 0 to |rows|
      invariant forall d :: d in ids <==> Matches(t, rows[..i], filters, logic, d)
      invariant forall k, l :: 0 <= k < l < |ids| ==> ids[k] != ids[l]
    {
      var found := MatchRow(t, rows[i], filters, logic);
      if found && rows[i].id !in ids {
        ids := ids + [rows[i].id];
      }
      forall d {
        MatchesNext(t, rows, i, filters, logic, d);
      }
    }
    assert rows[..|rows|] == rows;
  }

  /** The matcher on the index of a single row. */
  method MatchRow(t: Texts, row: Row, filters: seq<Condition>, logic: string) returns (found: bool)
    requires t.Lawful() && filters != [] && AllUsable(filters)
    ensures found <==> RowMatches(t, row, filters, logic)
  {
    hide Aggregates, Meets, RowMatches, AllUsable;
    var metas := AggregateRows(t, [row]);
    assert Posts([row]) == RowPosts(row) by {
      assert [row][..0] == [];
    }
    var ids := Match(t, metas, filters, logic, RowPosts(row));
    forall d {
      RowMeets(t, row, filters, logic, d);
    }
    found := ids != {};
    assert RowMatches(t, row, filters, logic) ==> row.id in ids;
  }

  lemma MatchesNext(t: Texts, rows: seq<Row>, i: nat, filters: seq<Condition>, logic: string, d: DocId)
    requires i < |rows|
    ensures Matches(t, rows[..i + 1], filters, logic, d) <==>
            Matches(t, rows[..i], filters, logic, d) || (rows[i].id == d && RowMatches(t, rows[i], filters, logic))
  {
    hide RowMatches;
    assert rows[..i + 1] == rows[..i] + [rows[i]];
  }

  lemma NoRows(t: Texts, filters: seq<Condition>, logic: string, d: DocId)
    ensures !Matches(t, [], filters, logic, d)
  {
  }

  lemma NoMatch(t: Texts, rows: seq<Row>, filters: seq<Condition>, logic: string)
    requires filters == [] || !AllUsable(filters)
    ensures forall d :: !Matches(t, rows, filters, logic, d)
  {
  }
}
