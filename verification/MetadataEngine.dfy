/**
  The complete evaluation of a filter on a search engine: candidates by query, then the exact
  streaming match. The rows are the documents that the engine stores.
 */
module MetadataEngine {
  import opened Options
  import opened MetadataValues
  import opened MetadataSpec
  import opened MetadataIndex
  import opened MetadataMatcher
  import opened MetadataPushdown
  import opened MetadataElastic

  /**
    Infinity: a refused query is an error, any other gives exactly the matching documents in scope
    that are not lost; with flat values none is.
   */
  method FilterInfinity(t: Texts, rows: seq<Row>, filters: seq<Condition>, logic: string, kbs: seq<string>) returns (r: Result<seq<DocId>>)
    requires t.Lawful()
    ensures r.Err? <==> kbs != [] && ((logic != "and" && logic != "or") || exists i :: 0 <= i < |kbs| && !Quotable(kbs[i]))
    ensures r.Ok? ==> forall d :: d in r.value <==> exists row :: row in rows && row.id == d && InfinityFinds(t, row, filters, logic, kbs)
    ensures r.Ok? && (forall row :: row in rows ==> FlatRow(row)) ==>
              forall d :: d in r.value <==> Matches(t, Candidates(Scope(kbs), rows), filters, logic, d)
  {
    hide Matches, Candidates, Texts.Lawful, InfinityFinds, FlatRow;
    var q := BuildInfinityFilter(filters, logic, kbs);
    if q.Err? {
      return Err(q.message);
    }
    var ids := StreamMatches(t, Candidates(By(q.value), rows), filters, logic);
    forall d {
      InfinityThenExact(t, rows, filters, logic, kbs, d);
    }
    if forall row :: row in rows ==> FlatRow(row) {
      forall d {
        InfinityIsScan(t, rows, filters, logic, kbs, d);
      }
    }
    r := Ok(ids);
  }

  /**
    Elasticsearch: an unsupported mapping or logic falls back to the whole scope. The index keeps at
    least what the mapping promises.
   */
  method FilterElastic(t: Texts, ix: Indexing, rows: seq<Row>, filters: seq<Condition>, logic: string, kbs: seq<string>, m: Mapping)
    returns (ids: seq<DocId>, pushed: bool)
    requires t.Lawful() && Promises(m, ix)
    ensures pushed <==> m.enabled && (logic == "and" || logic == "or") && forall i :: 0 <= i < |filters| ==> Supported(filters[i], m)
    ensures pushed ==> forall d :: d in ids <==> exists row :: row in rows && row.id == d && ElasticFinds(t, ix, row, filters, logic, kbs)
    ensures !pushed || (forall row :: row in rows ==> FlatRow(row)) ==>
              forall d :: d in ids <==> Matches(t, Candidates(Scope(kbs), rows), filters, logic, d)
  {
    hide Matches, Candidates, Texts.Lawful, ElasticFinds, FlatRow, Supported, Promises;
    var q := BuildMetaFilterQuery(filters, logic, kbs, m);
    pushed := q.Ok?;
    if !pushed {
      ids := StreamMatches(t, Candidates(Scope(kbs), rows), filters, logic);
      return;
    }
    ids := StreamMatches(t, Candidates(ByIndex(ix, q.value), rows), filters, logic);
    forall d {
      ElasticThenExact(t, ix, rows, filters, logic, kbs, d);
    }
    if forall row :: row in rows ==> FlatRow(row) {
      forall d {
        ElasticIsScan(t, ix, rows, filters, logic, kbs, m, d);
      }
    }
  }

  /**
    With two rows for one document a conjunction can hold in the aggregate and in no row, so
    distinct ids are needed for the conjunction.
   */
  lemma SplitDocument(t: Texts)
    ensures var a, b := Condition(Some("a"), NotIn, List([])), Condition(Some("b"), NotIn, List([]));
            var rows := [Row("d", "kb", Some([Field("a", Text("x"))])), Row("d", "kb", Some([Field("b", Text("x"))]))];
            Meets(t, Posts(rows), [a, b], "and", "d") && !Matches(t, rows, [a, b], "and", "d")
  {
    var a, b := Condition(Some("a"), NotIn, List([])), Condition(Some("b"), NotIn, List([]));
    var fa, fb := Field("a", Text("x")), Field("b", Text("x"));
    var ra, rb := Row("d", "kb", Some([fa])), Row("d", "kb", Some([fb]));
    var rows := [ra, rb];
    hide RowSatisfies, Satisfies, Posts, Hits;
    OneField(t, "a", "a");
    OneField(t, "a", "b");
    OneField(t, "b", "a");
    OneField(t, "b", "b");
    assert ra in rows && rb in rows && a in [a, b] && b in [a, b];
    AllHits(t, rows, a, "d");
    AllHits(t, rows, b, "d");
  }

  lemma OneField(t: Texts, field: string, key: string)
    ensures RowSatisfies(t, Row("d", "kb", Some([Field(field, Text("x"))])), Condition(Some(key), NotIn, List([]))) <==> field == key
  {
    var f := Field(field, Text("x"));
    assert Satisfies(t, NotIn, List([]), Text("x"));
    assert Text("x") in Expanded(Text("x"));
    assert f in [f];
    hide Satisfies;
  }

  /** Whatever the rows, the stream selects no document that the aggregate does not. */
  lemma StreamWithinAggregate(t: Texts, rows: seq<Row>, filters: seq<Condition>, logic: string, d: DocId)
    requires Matches(t, rows, filters, logic, d)
    ensures Meets(t, Posts(rows), filters, logic, d)
  {
    hide RowSatisfies, Hits;
    forall c {
      AllHits(t, rows, c, d);
    }
  }
}
