/** The candidate query for Elasticsearch: only the presence of an indexed value prunes. */
module MetadataElastic {
  import opened Options
  import opened MetadataValues
  import opened MetadataSpec
  import opened MetadataPushdown

  /** How a field is mapped. */
  datatype FieldMapping = FieldMapping(kind: string, index: bool, ignoreMalformed: bool, ignoreAbove: bool)
  datatype Mapping = Mapping(enabled: bool, properties: map<string, FieldMapping>)

  /** The scope, and the fields of which all or some must have an indexed value. */
  datatype ElasticQuery = ElasticQuery(kbs: seq<string>, all: bool, keys: seq<string>)

  // ---------- what the engine answers ----------

  /** Which scalars of a field reach the index. */
  type Indexing = (string, Value) -> bool

  /** A name that is not read as a path or a pattern. */
  predicate LiteralPath(s: string)
  {
    s != [] && forall i :: 0 <= i < |s| ==> s[i] !in {'.', '*', '?', '\\'}
  }

  predicate ScalarKind(kind: string)
  {
    kind in {"text", "keyword", "boolean", "long", "integer", "short", "byte", "double", "float", "half_float", "scaled_float", "date"}
  }

  /**
    What the mapping promises: an indexed scalar field that neither ignores malformed values nor long
    ones indexes every scalar. Of any other field, and of a path or a pattern, nothing is known.
   */
  ghost predicate Promises(m: Mapping, ix: Indexing)
  {
    forall key, v ::
      m.enabled && LiteralPath(key) && key in m.properties && Scalar(v)
      && ScalarKind(m.properties[key].kind) && m.properties[key].index && !m.properties[key].ignoreMalformed && !m.properties[key].ignoreAbove
      ==> ix(key, v)
  }

  /** Some scalar of the value reaches the index, however deep in lists; null and structures do not. */
  predicate Indexed(ix: Indexing, key: string, v: Value)
  {
    if v.List? then exists i :: 0 <= i < |v.items| && Indexed(ix, key, v.items[i]) else Scalar(v) && ix(key, v)
  }

  /** The `exists` query. */
  predicate HasField(ix: Indexing, key: string, row: Row)
  {
    row.fields.Some? && exists i :: 0 <= i < |row.fields.value| && row.fields.value[i].key == key && Indexed(ix, key, row.fields.value[i].value)
  }

  predicate ElasticSelects(ix: Indexing, q: ElasticQuery, row: Row)
  {
    && row.kb in q.kbs
    && (q.keys == [] ||
        if q.all then forall i :: 0 <= i < |q.keys| ==> HasField(ix, q.keys[i], row)
        else exists i :: 0 <= i < |q.keys| && HasField(ix, q.keys[i], row))
  }

  function ByIndex(ix: Indexing, q: ElasticQuery): (select: Row -> bool)
    ensures forall row :: select(row) <==> ElasticSelects(ix, q, row)
  {
    (row: Row) => ElasticSelects(ix, q, row)
  }

  // ---------- compilation ----------

  /** Every value of the field of the condition reaches the index. */
  predicate Supported(c: Condition, m: Mapping)
  {
    && c.key.Some? && LiteralPath(c.key.value) && c.key.value in m.properties
    && var f := m.properties[c.key.value]; ScalarKind(f.kind) && f.index && !f.ignoreMalformed && !f.ignoreAbove
  }

  function KeyText(c: Condition): string
  {
    if c.key.Some? then c.key.value else ""
  }

  function KeysOf(filters: seq<Condition>): (r: seq<string>)
    ensures |r| == |filters| && forall i :: 0 <= i < |r| ==> r[i] == KeyText(filters[i])
  {
    seq(|filters|, i requires 0 <= i < |filters| => KeyText(filters[i]))
  }

  method BuildMetaFilterQuery(filters: seq<Condition>, logic: string, kbs: seq<string>, m: Mapping) returns (r: Result<ElasticQuery>)
    ensures r.Ok? <==> m.enabled && (logic == "and" || logic == "or") && forall i :: 0 <= i < |filters| ==> Supported(filters[i], m)
    ensures r.Ok? ==> r.value == ElasticQuery(kbs, logic == "and", KeysOf(filters))
  {
    if !m.enabled || (logic != "and" && logic != "or") {
      return Err("Unindexed metadata or unsupported logic");
    }
    var keys: seq<string> := [];
    for k := 0 to |filters|
      invariant forall i :: 0 <= i < k ==> Supported(filters[i], m)
      invariant |keys| == k && forall i :: 0 <= i < k ==> keys[i] == KeyText(filters[i])
    {
      var c := filters[k];
      if c.key.None? || !LiteralPath(c.key.value) {
        return Err("Nonliteral ES field path");
      }
      if c.key.value !in m.properties || !ScalarKind(m.properties[c.key.value].kind) {
        return Err("Unknown or structured field mapping");
      }
      var f := m.properties[c.key.value];
      if !f.index || f.ignoreMalformed || f.ignoreAbove {
        return Err("Source values may be absent from the index");
      }
      keys := keys + [c.key.value];
    }
    r := Ok(ElasticQuery(kbs, logic == "and", keys));
    assert keys == KeysOf(filters);
  }

  // ---------- exactly which matching documents the query loses ----------

  /** No scalar reaches the index of the field. */
  ghost predicate Unindexed(ix: Indexing, row: Row, key: string)
  {
    row.fields.Some? ==> forall f :: f in row.fields.value && f.key == key ==> !Indexed(ix, key, f.value)
  }

  lemma UnindexedExactly(ix: Indexing, row: Row, key: string)
    ensures HasField(ix, key, row) <==> row.fields.Some? && !Unindexed(ix, row, key)
  {
    hide Indexed;
    if row.fields.Some? && !Unindexed(ix, row, key) {
      var f :| f in row.fields.value && f.key == key && Indexed(ix, key, f.value);
      var i :| 0 <= i < |row.fields.value| && row.fields.value[i] == f;
    }
  }

  /** A matching document in scope is lost exactly then. */
  ghost predicate ElasticLoses(ix: Indexing, filters: seq<Condition>, logic: string, row: Row)
  {
    if logic == "and" then exists i :: 0 <= i < |filters| && Unindexed(ix, row, KeyText(filters[i]))
    else forall i :: 0 <= i < |filters| ==> Unindexed(ix, row, KeyText(filters[i]))
  }

  lemma ElasticLosesExactly(t: Texts, ix: Indexing, filters: seq<Condition>, logic: string, kbs: seq<string>, row: Row)
    requires row.kb in kbs && RowMatches(t, row, filters, logic) && (logic == "and" || logic == "or")
    ensures !ElasticSelects(ix, ElasticQuery(kbs, logic == "and", KeysOf(filters)), row) <==> ElasticLoses(ix, filters, logic, row)
  {
    hide HasField, AllUsable, Unindexed;
    forall i | 0 <= i < |filters|
      ensures HasField(ix, KeysOf(filters)[i], row) <==> !Unindexed(ix, row, KeyText(filters[i]))
    {
      MatchedHasFields(t, filters, logic, row);
      UnindexedExactly(ix, row, KeyText(filters[i]));
    }
  }

  // ---------- flat values ----------

  /** A satisfied condition on a supported field with flat values has an indexed value. */
  lemma SatisfiedIsIndexed(t: Texts, ix: Indexing, m: Mapping, c: Condition, row: Row)
    requires m.enabled && Promises(m, ix) && Supported(c, m) && FlatRow(row) && RowSatisfies(t, row, c)
    ensures HasField(ix, c.key.value, row)
  {
    hide Satisfies;
    var f :| f in row.fields.value && FieldSatisfies(t, f, c);
    var v :| v in Expanded(f.value) && v != Null && Satisfies(t, c.op, c.value, v);
    var i :| 0 <= i < |row.fields.value| && row.fields.value[i] == f;
    assert Flat(row.fields.value[i].value);
    assert Scalar(v) && ix(c.key.value, v) && Indexed(ix, c.key.value, v);
  }

  /** Whenever the mapping is not refused, every matching document in scope with flat values is selected. */
  lemma ElasticIsLossless(t: Texts, ix: Indexing, filters: seq<Condition>, logic: string, kbs: seq<string>, m: Mapping, row: Row)
    requires m.enabled && Promises(m, ix)
    requires (logic == "and" || logic == "or") && forall i :: 0 <= i < |filters| ==> Supported(filters[i], m)
    requires row.kb in kbs && FlatRow(row) && RowMatches(t, row, filters, logic)
    ensures ElasticSelects(ix, ElasticQuery(kbs, logic == "and", KeysOf(filters)), row)
  {
    hide RowSatisfies, HasField, FlatRow, Promises, AllUsable;
    forall i | 0 <= i < |filters| && RowSatisfies(t, row, filters[i])
      ensures HasField(ix, KeysOf(filters)[i], row)
    {
      SatisfiedIsIndexed(t, ix, m, filters[i], row);
    }
    if logic != "and" {
      var c :| c in filters && RowSatisfies(t, row, c);
      var k :| 0 <= k < |filters| && filters[k] == c;
      assert HasField(ix, KeysOf(filters)[k], row);
    }
  }

  // ---------- candidates first, then the exact match ----------

  ghost predicate ElasticFinds(t: Texts, ix: Indexing, row: Row, filters: seq<Condition>, logic: string, kbs: seq<string>)
  {
    row.kb in kbs && RowMatches(t, row, filters, logic) && !ElasticLoses(ix, filters, logic, row)
  }

  /** Exactly the documents that are not lost, whatever their values. */
  lemma ElasticThenExact(t: Texts, ix: Indexing, rows: seq<Row>, filters: seq<Condition>, logic: string, kbs: seq<string>, d: DocId)
    requires logic == "and" || logic == "or"
    ensures Matches(t, Candidates(ByIndex(ix, ElasticQuery(kbs, logic == "and", KeysOf(filters))), rows), filters, logic, d) <==>
            exists row :: row in rows && row.id == d && ElasticFinds(t, ix, row, filters, logic, kbs)
  {
    hide Candidates, RowMatches, ElasticLoses;
    var q := ElasticQuery(kbs, logic == "and", KeysOf(filters));
    forall row
      ensures row in Candidates(ByIndex(ix, q), rows) && RowMatches(t, row, filters, logic) <==> row in rows && ElasticFinds(t, ix, row, filters, logic, kbs)
    {
      CandidatesHave(ByIndex(ix, q), rows, row);
      if row.kb in kbs && RowMatches(t, row, filters, logic) {
        ElasticLosesExactly(t, ix, filters, logic, kbs, row);
      }
    }
  }

  /** With flat values and a mapping that is not refused that is a scan of the whole scope. */
  lemma ElasticIsScan(t: Texts, ix: Indexing, rows: seq<Row>, filters: seq<Condition>, logic: string, kbs: seq<string>, m: Mapping, d: DocId)
    requires m.enabled && Promises(m, ix)
    requires (logic == "and" || logic == "or") && forall i :: 0 <= i < |filters| ==> Supported(filters[i], m)
    requires forall row :: row in rows ==> FlatRow(row)
    ensures Matches(t, Candidates(ByIndex(ix, ElasticQuery(kbs, logic == "and", KeysOf(filters))), rows), filters, logic, d) <==>
            Matches(t, Candidates(Scope(kbs), rows), filters, logic, d)
  {
    hide Matches, Candidates, RowMatches, FlatRow, Promises, Supported;
    var q := ElasticQuery(kbs, logic == "and", KeysOf(filters));
    forall row | row in rows
      ensures Safe(t, ByIndex(ix, q), filters, logic, kbs, row)
    {
      if row.kb in kbs && RowMatches(t, row, filters, logic) {
        ElasticIsLossless(t, ix, filters, logic, kbs, m, row);
      }
    }
    CandidatesSuffice(t, ByIndex(ix, q), rows, filters, logic, kbs, d);
  }

  /** A list with an empty list matches exactly, and no index selects it. */
  lemma NestedListIsUnindexed(t: Texts, ix: Indexing, id: DocId)
    ensures var c := Condition(Some("k"), In, List([Bool(true)]));
            var row := Row(id, "kb", Some([Field("k", List([List([])]))]));
            RowMatches(t, row, [c], "and") && !ElasticSelects(ix, ElasticQuery(["kb"], true, KeysOf([c])), row)
  {
    var c := Condition(Some("k"), In, List([Bool(true)]));
    var row := Row(id, "kb", Some([Field("k", List([List([])]))]));
    EmptyListMatches(t, id);
    assert !Indexed(ix, "k", List([])) && !Indexed(ix, "k", List([List([])]));
    assert KeysOf([c])[0] == "k" && !HasField(ix, "k", row);
  }
}
