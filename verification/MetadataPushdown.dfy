/**
  The candidate query for Infinity. A query may only leave out documents that do not match, because
  the candidates are then matched exactly.
 */
module MetadataPushdown {
  import opened Options
  import opened MetadataValues
  import opened MetadataSpec

  /**
    `Present` is the test that the extracted JSON text is not 'null', `ContainsAny` a disjunction of
    JSON containment tests.
   */
  datatype Clause = Present(key: string) | ContainsAny(key: string, literals: seq<Value>)

  /** `Nothing` selects no document; no clause at all selects the whole scope. */
  datatype Query = Nothing | Scoped(kbs: seq<string>, all: bool, clauses: seq<Clause>)

  // ---------- what the engines answer ----------

  /** Numbers are equal by value, whatever their type; nothing else equals a number or a boolean. */
  predicate JsonEqual(v: Value, w: Value)
  {
    match v
    case Bool(b) => w == Bool(b)
    case Number(num, _) => w.Number? && w.num == num
    case _ => false
  }

  /** The value is the literal, or a list with the literal as a member. */
  predicate JsonContains(v: Value, literal: Value)
  {
    if v.List? then exists i :: 0 <= i < |v.items| && JsonEqual(v.items[i], literal) else JsonEqual(v, literal)
  }

  predicate ClauseOnField(c: Clause, f: Field)
  {
    f.key == c.key &&
    match c
    case Present(_) => f.value != Null
    case ContainsAny(_, literals) => exists i :: 0 <= i < |literals| && JsonContains(f.value, literals[i])
  }

  predicate ClauseHolds(c: Clause, row: Row)
  {
    row.fields.Some? && exists i :: 0 <= i < |row.fields.value| && ClauseOnField(c, row.fields.value[i])
  }

  predicate Selects(q: Query, row: Row)
  {
    && q.Scoped? && row.kb in q.kbs
    && (q.clauses == [] ||
        if q.all then forall i :: 0 <= i < |q.clauses| ==> ClauseHolds(q.clauses[i], row)
        else exists i :: 0 <= i < |q.clauses| && ClauseHolds(q.clauses[i], row))
  }

  // ---------- Infinity ----------

  predicate Letter(c: char)
  {
    'A' <= c <= 'Z' || 'a' <= c <= 'z' || c == '_'
  }

  /** A letter or underscore, followed by letters, digits and underscores. */
  predicate IsName(s: string)
  {
    s != [] && Letter(s[0]) && forall i :: 0 <= i < |s| ==> Letter(s[i]) || '0' <= s[i] <= '9'
  }

  /** `_sql_string` refuses an empty text, control characters and backslashes. */
  predicate Quotable(s: string)
  {
    s != [] && forall i :: 0 <= i < |s| ==> s[i] as int >= 32 && s[i] != '\\'
  }

  /** A boolean, or a number that JSON carries without loss. */
  predicate Exact(v: Value)
  {
    v.Bool? || (v.Number? && v.num.Finite? && -9007199254740992.0 <= v.num.r <= 9007199254740992.0)
  }

  predicate Containable(c: Condition)
  {
    c.op.In? && c.value.List? && c.value.items != [] && forall i :: 0 <= i < |c.value.items| ==> Exact(c.value.items[i])
  }

  predicate Named(c: Condition)
  {
    c.key.Some? && IsName(c.key.value)
  }

  function InfinityClause(c: Condition): Clause
    requires Named(c)
  {
    if Containable(c) then ContainsAny(c.key.value, c.value.items) else Present(c.key.value)
  }

  /** The clauses of the conditions that can be compiled. */
  function InfinityClauses(filters: seq<Condition>): seq<Clause>
  {
    if filters == [] then []
    else
      var n := |filters| - 1;
      InfinityClauses(filters[..n]) + (if Named(filters[n]) then [InfinityClause(filters[n])] else [])
  }

  function InfinityQuery(filters: seq<Condition>, logic: string, kbs: seq<string>): Result<Query>
  {
    if kbs == [] then Ok(Nothing)
    else if logic != "and" && logic != "or" then Err("Unsupported metadata filter logic")
    else if exists i :: 0 <= i < |kbs| && !Quotable(kbs[i]) then Err("Invalid Infinity metadata scope")
    else if logic == "or" && exists i :: 0 <= i < |filters| && !Named(filters[i]) then Ok(Scoped(kbs, false, []))
    else Ok(Scoped(kbs, logic == "and", InfinityClauses(filters)))
  }

  method BuildInfinityFilter(filters: seq<Condition>, logic: string, kbs: seq<string>) returns (r: Result<Query>)
    ensures r == InfinityQuery(filters, logic, kbs)
  {
    if kbs == [] {
      return Ok(Nothing);
    }
    if logic != "and" && logic != "or" {
      return Err("Unsupported metadata filter logic");
    }
    if exists i :: 0 <= i < |kbs| && !Quotable(kbs[i]) {
      return Err("Invalid Infinity metadata scope");
    }
    var clauses: seq<Clause> := [];
    for k := 0 to |filters|
      invariant clauses == InfinityClauses(filters[..k])
      invariant logic == "or" ==> forall i :: 0 <= i < k ==> Named(filters[i])
    {
      assert filters[..k + 1][..k] == filters[..k];
      if Named(filters[k]) {
        clauses := clauses + [InfinityClause(filters[k])];
      } else if logic == "or" {
        return Ok(Scoped(kbs, false, []));
      }
    }
    assert filters[..|filters|] == filters;
    r := Ok(Scoped(kbs, logic == "and", clauses));
  }

  // ---------- no matching document is left out ----------

  /** Every value is a scalar, null, or a list of such. */
  predicate Flat(v: Value)
  {
    if v.List? then forall i :: 0 <= i < |v.items| ==> Scalar(v.items[i]) || v.items[i] == Null else Scalar(v) || v == Null
  }

  ghost predicate FlatRow(row: Row)
  {
    row.fields.Some? ==> forall i :: 0 <= i < |row.fields.value| ==> Flat(row.fields.value[i].value)
  }

  /** A clause is safe for a condition when it holds for every flat field that satisfies it. */
  ghost predicate Lossless(t: Texts, c: Condition, clause: Clause)
  {
    forall f: Field :: Flat(f.value) && FieldSatisfies(t, f, c) ==> ClauseOnField(clause, f)
  }

  lemma KeyIsJsonEqual(t: Texts, v: Value, w: Value)
    requires Exact(w)
    ensures t.KeyOf(v) == t.KeyOf(w) <==> JsonEqual(v, w)
  {
  }

  /**
    Exact membership in a list of booleans and numbers is JSON containment, or a list inside the
    list all of whose members are in the operand. The second half is what containment misses.
   */
  lemma MembershipSplits(t: Texts, v: Value, operand: Value)
    requires operand.List? && forall i :: 0 <= i < |operand.items| ==> Exact(operand.items[i])
    ensures (exists x :: x in Expanded(v) && x != Null && Satisfies(t, In, operand, x)) <==>
            || (exists i :: 0 <= i < |operand.items| && JsonContains(v, operand.items[i]))
            || (exists x :: x in Expanded(v) && x.List? && Satisfies(t, In, operand, x))
  {
    forall x: Value | !x.List?
      ensures Satisfies(t, In, operand, x) <==> exists i :: 0 <= i < |operand.items| && JsonEqual(x, operand.items[i])
    {
      forall i | 0 <= i < |operand.items| {
        KeyIsJsonEqual(t, x, operand.items[i]);
      }
    }
    hide Satisfies;
    if x :| x in Expanded(v) && x != Null && Satisfies(t, In, operand, x) {
      if !x.List? {
        var i :| 0 <= i < |operand.items| && JsonEqual(x, operand.items[i]);
        assert JsonContains(v, operand.items[i]);
      }
    }
    if i :| 0 <= i < |operand.items| && JsonContains(v, operand.items[i]) {
      var x :| x in Expanded(v) && JsonEqual(x, operand.items[i]);
      assert !x.List? && x != Null;
    }
  }

  lemma PresenceIsLossless(t: Texts, c: Condition, key: string)
    requires c.key == Some(key)
    ensures Lossless(t, c, Present(key))
  {
    hide Satisfies;
    forall f: Field | Flat(f.value) && FieldSatisfies(t, f, c)
      ensures ClauseOnField(Present(key), f)
    {
      var v :| v in Expanded(f.value) && v != Null && Satisfies(t, c.op, c.value, v);
    }
  }

  lemma ContainmentIsLossless(t: Texts, c: Condition, key: string)
    requires c.key == Some(key) && Containable(c)
    ensures Lossless(t, c, ContainsAny(key, c.value.items))
  {
    hide Satisfies;
    forall f: Field | Flat(f.value) && FieldSatisfies(t, f, c)
      ensures ClauseOnField(ContainsAny(key, c.value.items), f)
    {
      MembershipSplits(t, f.value, c.value);
    }
  }

  lemma InfinityClauseLossless(t: Texts, c: Condition)
    requires Named(c)
    ensures Lossless(t, c, InfinityClause(c))
  {
    hide Lossless;
    if Containable(c) {
      ContainmentIsLossless(t, c, c.key.value);
    } else {
      PresenceIsLossless(t, c, c.key.value);
    }
  }

  lemma LosslessOnRow(t: Texts, c: Condition, clause: Clause, row: Row)
    requires Lossless(t, c, clause) && FlatRow(row) && RowSatisfies(t, row, c)
    ensures ClauseHolds(clause, row)
  {
    hide Satisfies;
    var f :| f in row.fields.value && FieldSatisfies(t, f, c);
    var i :| 0 <= i < |row.fields.value| && row.fields.value[i] == f;
    assert ClauseOnField(clause, row.fields.value[i]);
  }

  lemma {:induction false} ClauseOrigin(filters: seq<Condition>, i: nat)
    requires i < |InfinityClauses(filters)|
    ensures exists c :: c in filters && Named(c) && InfinityClauses(filters)[i] == InfinityClause(c)
    decreases |filters|
  {
    var n := |filters| - 1;
    if i < |InfinityClauses(filters[..n])| {
      ClauseOrigin(filters[..n], i);
      var c :| c in filters[..n] && Named(c) && InfinityClauses(filters[..n])[i] == InfinityClause(c);
      assert c in filters;
    } else {
      assert filters[n] in filters;
    }
  }

  lemma {:induction false} ClauseOf(filters: seq<Condition>, c: Condition)
    requires c in filters && Named(c)
    ensures InfinityClause(c) in InfinityClauses(filters)
    decreases |filters|
  {
    var n := |filters| - 1;
    if c != filters[n] {
      assert c in filters[..n];
      ClauseOf(filters[..n], c);
    }
  }

  /** The Infinity query selects every document in scope that matches, under both logics. */
  lemma InfinityIsLossless(t: Texts, filters: seq<Condition>, logic: string, kbs: seq<string>, row: Row)
    requires InfinityQuery(filters, logic, kbs).Ok? && row.kb in kbs && FlatRow(row) && RowMatches(t, row, filters, logic)
    ensures Selects(InfinityQuery(filters, logic, kbs).value, row)
  {
    hide RowSatisfies, ClauseHolds, InfinityClause, Named, InfinityClauses, FlatRow, Lossless, AllUsable, Quotable;
    var q := InfinityQuery(filters, logic, kbs).value;
    if q.clauses != [] && logic == "and" {
      forall i | 0 <= i < |q.clauses|
        ensures ClauseHolds(q.clauses[i], row)
      {
        ClauseOrigin(filters, i);
        var c :| c in filters && Named(c) && InfinityClauses(filters)[i] == InfinityClause(c);
        InfinityClauseLossless(t, c);
        LosslessOnRow(t, c, q.clauses[i], row);
      }
    } else if q.clauses != [] {
      var c :| c in filters && RowSatisfies(t, row, c);
      var k :| 0 <= k < |filters| && filters[k] == c;
      assert Named(filters[k]);
      ClauseOf(filters, c);
      InfinityClauseLossless(t, c);
      LosslessOnRow(t, c, InfinityClause(c), row);
      var i :| 0 <= i < |q.clauses| && q.clauses[i] == InfinityClause(c);
    }
  }

  // ---------- exactly which matching documents a query loses ----------

  /** The condition holds only because of a list inside a list, whose members all belong to the operand. */
  ghost predicate NestedOnly(t: Texts, c: Condition, row: Row)
  {
    && Containable(c) && row.fields.Some? && c.key.Some?
    && (exists f :: f in row.fields.value && NestedHit(t, c, f))
    && !ClauseHolds(ContainsAny(c.key.value, c.value.items), row)
  }

  ghost predicate NestedHit(t: Texts, c: Condition, f: Field)
  {
    c.key == Some(f.key) && exists x :: x in Expanded(f.value) && x.List? && Satisfies(t, In, c.value, x)
  }

  lemma FieldSplits(t: Texts, c: Condition, f: Field)
    requires c.key.Some? && Containable(c)
    ensures FieldSatisfies(t, f, c) <==> ClauseOnField(ContainsAny(c.key.value, c.value.items), f) || NestedHit(t, c, f)
  {
    hide Satisfies, JsonContains;
    MembershipSplits(t, f.value, c.value);
  }

  lemma FieldOfRow(row: Row, clause: Clause, f: Field)
    requires row.fields.Some? && f in row.fields.value && ClauseOnField(clause, f)
    ensures ClauseHolds(clause, row)
  {
    var i :| 0 <= i < |row.fields.value| && row.fields.value[i] == f;
    assert ClauseOnField(clause, row.fields.value[i]);
  }

  /** Presence loses nothing, whatever the values are; containment loses exactly the nested hits. */
  lemma ClauseLosesExactly(t: Texts, c: Condition, row: Row)
    requires Named(c)
    ensures RowSatisfies(t, row, c) && !ClauseHolds(InfinityClause(c), row) <==> NestedOnly(t, c, row)
  {
    hide Satisfies, ClauseHolds, ClauseOnField, FieldSatisfies, NestedHit;
    if Containable(c) {
      forall f {
        FieldSplits(t, c, f);
      }
      if RowSatisfies(t, row, c) && !ClauseHolds(InfinityClause(c), row) {
        var f :| f in row.fields.value && FieldSatisfies(t, f, c);
        if ClauseOnField(ContainsAny(c.key.value, c.value.items), f) {
          FieldOfRow(row, InfinityClause(c), f);
        }
      }
    } else if RowSatisfies(t, row, c) {
      var f :| f in row.fields.value && FieldSatisfies(t, f, c);
      SatisfiedIsPresent(t, c, f);
      FieldOfRow(row, InfinityClause(c), f);
    }
  }

  lemma SatisfiedIsPresent(t: Texts, c: Condition, f: Field)
    requires c.key.Some? && FieldSatisfies(t, f, c)
    ensures ClauseOnField(Present(c.key.value), f)
  {
    hide Satisfies;
  }

  /** A matching document in scope is lost by the Infinity query exactly then, whatever its values are. */
  ghost predicate InfinityLoses(t: Texts, filters: seq<Condition>, logic: string, row: Row)
  {
    if logic == "and" then exists c :: c in filters && Named(c) && NestedOnly(t, c, row)
    else forall c :: c in filters ==> Named(c) && if RowSatisfies(t, row, c) then NestedOnly(t, c, row) else !ClauseHolds(InfinityClause(c), row)
  }

  lemma InfinityLosesExactly(t: Texts, filters: seq<Condition>, logic: string, kbs: seq<string>, row: Row)
    requires InfinityQuery(filters, logic, kbs).Ok? && row.kb in kbs && RowMatches(t, row, filters, logic)
    ensures !Selects(InfinityQuery(filters, logic, kbs).value, row) <==> InfinityLoses(t, filters, logic, row)
  {
    hide RowSatisfies, ClauseHolds, InfinityClause, Named, InfinityClauses, AllUsable, Quotable, NestedOnly, InfinityLoses;
    if logic == "and" {
      AllLosesExactly(t, filters, logic, kbs, row);
    } else {
      AnyLosesExactly(t, filters, logic, kbs, row);
    }
  }

  lemma AllLosesExactly(t: Texts, filters: seq<Condition>, logic: string, kbs: seq<string>, row: Row)
    requires InfinityQuery(filters, logic, kbs).Ok? && row.kb in kbs && RowMatches(t, row, filters, logic) && logic == "and"
    ensures !Selects(InfinityQuery(filters, logic, kbs).value, row) <==> InfinityLoses(t, filters, logic, row)
  {
    hide RowSatisfies, ClauseHolds, InfinityClause, Named, InfinityClauses, AllUsable, Quotable, NestedOnly;
    var clauses := InfinityClauses(filters);
    forall c | c in filters && Named(c)
      ensures !ClauseHolds(InfinityClause(c), row) <==> NestedOnly(t, c, row)
      ensures InfinityClause(c) in clauses
    {
      ClauseLosesExactly(t, c, row);
      ClauseOf(filters, c);
    }
    forall i | 0 <= i < |clauses|
      ensures exists c :: c in filters && Named(c) && clauses[i] == InfinityClause(c)
    {
      ClauseOrigin(filters, i);
    }
  }

  lemma AnyLosesExactly(t: Texts, filters: seq<Condition>, logic: string, kbs: seq<string>, row: Row)
    requires InfinityQuery(filters, logic, kbs).Ok? && row.kb in kbs && RowMatches(t, row, filters, logic) && logic == "or"
    ensures !Selects(InfinityQuery(filters, logic, kbs).value, row) <==> InfinityLoses(t, filters, logic, row)
  {
    hide RowSatisfies, ClauseHolds, InfinityClause, Named, InfinityClauses, AllUsable, Quotable, NestedOnly;
    var clauses := InfinityClauses(filters);
    forall c | c in filters && Named(c)
      ensures RowSatisfies(t, row, c) ==> (!ClauseHolds(InfinityClause(c), row) <==> NestedOnly(t, c, row))
      ensures InfinityClause(c) in clauses
    {
      ClauseLosesExactly(t, c, row);
      ClauseOf(filters, c);
    }
    forall i | 0 <= i < |clauses|
      ensures exists c :: c in filters && Named(c) && clauses[i] == InfinityClause(c)
    {
      ClauseOrigin(filters, i);
    }
    assert (exists i :: 0 <= i < |filters| && !Named(filters[i])) <==> (exists c :: c in filters && !Named(c));
    var first :| first in filters && RowSatisfies(t, row, first);
  }

  lemma MatchedHasFields(t: Texts, filters: seq<Condition>, logic: string, row: Row)
    requires RowMatches(t, row, filters, logic)
    ensures row.fields.Some?
  {
    assert filters[0] in filters;
  }

  // ---------- candidates first, then the exact match ----------

  /** The documents that an engine selects. */
  function Candidates(select: Row -> bool, rows: seq<Row>): seq<Row>
  {
    if rows == [] then []
    else Candidates(select, rows[..|rows| - 1]) + (if select(rows[|rows| - 1]) then [rows[|rows| - 1]] else [])
  }

  lemma {:induction false} CandidatesHave(select: Row -> bool, rows: seq<Row>, row: Row)
    ensures row in Candidates(select, rows) <==> row in rows && select(row)
    decreases |rows|
  {
    if rows != [] {
      var n := |rows| - 1;
      CandidatesHave(select, rows[..n], row);
      assert rows == rows[..n] + [rows[n]];
    }
  }

  /** Selects the documents of the given knowledge bases. */
  function Scope(kbs: seq<string>): (select: Row -> bool)
    ensures forall row :: select(row) <==> row.kb in kbs
  {
    (row: Row) => row.kb in kbs
  }

  /** Selects the documents for which the query holds. */
  function By(q: Query): (select: Row -> bool)
    ensures forall row :: select(row) <==> Selects(q, row)
  {
    (row: Row) => Selects(q, row)
  }

  ghost predicate Safe(t: Texts, select: Row -> bool, filters: seq<Condition>, logic: string, kbs: seq<string>, row: Row)
  {
    (select(row) ==> row.kb in kbs) && (row.kb in kbs && RowMatches(t, row, filters, logic) ==> select(row))
  }

  /** Matching the candidates exactly gives the same documents as matching the whole scope. */
  lemma CandidatesSuffice(t: Texts, select: Row -> bool, rows: seq<Row>, filters: seq<Condition>, logic: string, kbs: seq<string>, d: DocId)
    requires forall row :: row in rows ==> Safe(t, select, filters, logic, kbs, row)
    ensures Matches(t, Candidates(select, rows), filters, logic, d) <==> Matches(t, Candidates(Scope(kbs), rows), filters, logic, d)
  {
    hide RowMatches, Candidates;
    forall row {
      CandidatesHave(select, rows, row);
    }
    forall row {
      CandidatesHave(Scope(kbs), rows, row);
    }
    if Matches(t, Candidates(select, rows), filters, logic, d) {
      var row :| row in Candidates(select, rows) && row.id == d && RowMatches(t, row, filters, logic);
      assert Safe(t, select, filters, logic, kbs, row);
      assert row in Candidates(Scope(kbs), rows);
    }
    if Matches(t, Candidates(Scope(kbs), rows), filters, logic, d) {
      var row :| row in Candidates(Scope(kbs), rows) && row.id == d && RowMatches(t, row, filters, logic);
      assert Safe(t, select, filters, logic, kbs, row);
      assert row in Candidates(select, rows);
    }
  }

  /** A document in scope that matches and is not lost. */
  ghost predicate InfinityFinds(t: Texts, row: Row, filters: seq<Condition>, logic: string, kbs: seq<string>)
  {
    row.kb in kbs && RowMatches(t, row, filters, logic) && !InfinityLoses(t, filters, logic, row)
  }

  lemma SelectsInScope(q: Query, row: Row)
    requires Selects(q, row)
    ensures q.Scoped? && row.kb in q.kbs
  {
  }

  /** Candidates then the exact match: exactly the documents that are not lost, whatever their values. */
  lemma InfinityThenExact(t: Texts, rows: seq<Row>, filters: seq<Condition>, logic: string, kbs: seq<string>, d: DocId)
    requires InfinityQuery(filters, logic, kbs).Ok?
    ensures Matches(t, Candidates(By(InfinityQuery(filters, logic, kbs).value), rows), filters, logic, d) <==>
            exists row :: row in rows && row.id == d && InfinityFinds(t, row, filters, logic, kbs)
  {
    hide Candidates, RowMatches, Selects, InfinityClauses, InfinityLoses;
    var q := InfinityQuery(filters, logic, kbs).value;
    forall row
      ensures row in Candidates(By(q), rows) && RowMatches(t, row, filters, logic) <==> row in rows && InfinityFinds(t, row, filters, logic, kbs)
    {
      CandidatesHave(By(q), rows, row);
      if Selects(q, row) {
        SelectsInScope(q, row);
      }
      if row.kb in kbs && RowMatches(t, row, filters, logic) {
        InfinityLosesExactly(t, filters, logic, kbs, row);
      }
    }
  }

  /** With flat values the Infinity query loses nothing, so the whole scope need not be read. */
  lemma InfinityIsScan(t: Texts, rows: seq<Row>, filters: seq<Condition>, logic: string, kbs: seq<string>, d: DocId)
    requires InfinityQuery(filters, logic, kbs).Ok? && forall row :: row in rows ==> FlatRow(row)
    ensures Matches(t, Candidates(By(InfinityQuery(filters, logic, kbs).value), rows), filters, logic, d) <==>
            Matches(t, Candidates(Scope(kbs), rows), filters, logic, d)
  {
    hide Matches, Candidates, RowMatches, FlatRow, Selects, InfinityClauses;
    var q := InfinityQuery(filters, logic, kbs).value;
    forall row | row in rows
      ensures Safe(t, By(q), filters, logic, kbs, row)
    {
      if Selects(q, row) {
        SelectsInScope(q, row);
      }
      if row.kb in kbs && RowMatches(t, row, filters, logic) {
        InfinityIsLossless(t, filters, logic, kbs, row);
      }
    }
    CandidatesSuffice(t, By(q), rows, filters, logic, kbs, d);
  }

  /** A list inside a list matches exactly, and the query does not select it. */
  lemma NestedListIsMissed(t: Texts, id: DocId)
    ensures var c := Condition(Some("k"), In, List([Bool(true)]));
            var row := Row(id, "kb", Some([Field("k", List([List([])]))]));
            && RowMatches(t, row, [c], "and")
            && InfinityQuery([c], "and", ["kb"]).Ok? && !Selects(InfinityQuery([c], "and", ["kb"]).value, row)
  {
    var c := Condition(Some("k"), In, List([Bool(true)]));
    var f := Field("k", List([List([])]));
    var row := Row(id, "kb", Some([f]));
    EmptyListMatches(t, id);
    assert [c][..0] == [];
    assert InfinityClauses([c]) == [ContainsAny("k", [Bool(true)])];
    var q := InfinityQuery([c], "and", ["kb"]);
    assert Quotable("kb") && IsName("k");
    assert q == Ok(Scoped(["kb"], true, [ContainsAny("k", [Bool(true)])]));
    assert !JsonContains(f.value, Bool(true));
    assert !ClauseOnField(ContainsAny("k", [Bool(true)]), f);
    assert !ClauseHolds(q.value.clauses[0], row);
  }

  lemma EmptyListMatches(t: Texts, id: DocId)
    ensures RowMatches(t, Row(id, "kb", Some([Field("k", List([List([])]))])), [Condition(Some("k"), In, List([Bool(true)]))], "and")
  {
    var c := Condition(Some("k"), In, List([Bool(true)]));
    var f := Field("k", List([List([])]));
    assert Satisfies(t, c.op, c.value, List([]));
    assert List([]) in Expanded(f.value);
    assert FieldSatisfies(t, f, c);
    assert f in [f];
    assert RowSatisfies(t, Row(id, "kb", Some([f])), c);
  }
}
