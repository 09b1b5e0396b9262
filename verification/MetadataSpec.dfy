/**
  The meaning of a metadata filter, document by document: a condition holds when some non-null
  value of its field, lists expanded once, satisfies the operator; conditions are joined by the logic.
 */
module MetadataSpec {
  import opened Options
  import opened MetadataValues

  type DocId = string

  /** The operators that can be evaluated one document at a time; an unknown one never holds. */
  datatype Operator = In | NotIn | Contains | NotContains | StartWith | EndWith | Empty | NotEmpty | Unknown(name: string)

  /** A key that is not text is `None`: no field has it. */
  datatype Condition = Condition(key: Option<string>, op: Operator, value: Value)

  datatype Field = Field(key: string, value: Value)

  /** The metadata of one document; `None` when it is not a dictionary. */
  datatype Row = Row(id: DocId, kb: string, fields: Option<seq<Field>>)

  predicate IsMembership(op: Operator, value: Value)
  {
    (op.In? || op.NotIn?) && value.List?
  }

  // ---------- usable operands ----------

  predicate FiniteFloat(v: Value)
  {
    v.Number? && v.float ==> v.num.Finite?
  }

  /** A condition whose operand can be evaluated. */
  predicate Usable(c: Condition)
  {
    if c.value.List? then forall i :: 0 <= i < |c.value.items| ==> Scalar(c.value.items[i]) && FiniteFloat(c.value.items[i])
    else ((c.op.In? || c.op.NotIn?) ==> c.value.Text?) && FiniteFloat(c.value)
  }

  predicate AllUsable(filters: seq<Condition>)
  {
    forall i :: 0 <= i < |filters| ==> Usable(filters[i])
  }

  // ---------- one value ----------

  function Keys(t: Texts, items: seq<Value>): set<Key>
  {
    set i | 0 <= i < |items| :: t.KeyOf(items[i])
  }

  /** List membership of a value; a list inside a list is taken member by member. */
  predicate Member(t: Texts, op: Operator, keys: set<Key>, v: Value)
  {
    if v.List? then forall i :: 0 <= i < |v.items| ==> (t.KeyOf(v.items[i]) in keys <==> op.In?)
    else t.KeyOf(v) in keys <==> op.In?
  }

  /** A value satisfies an operator, with its text and the operand compared in lower case. */
  predicate Satisfies(t: Texts, op: Operator, operand: Value, v: Value)
  {
    var text := t.lower(t.str(v));
    if IsMembership(op, operand) then Member(t, op, Keys(t, operand.items), v)
    else
      match op
      case In => operand.Text? && Occurs(text, t.lower(operand.s))
      case NotIn => operand.Text? && !Occurs(text, t.lower(operand.s))
      case Contains => operand.Text? && Occurs(t.lower(operand.s), text)
      case NotContains => operand.Text? && !Occurs(t.lower(operand.s), text)
      case StartWith => Starts(text, t.lower(t.str(t.Normalize(operand))))
      case EndWith => Ends(text, t.lower(t.str(t.Normalize(operand))))
      case Empty => text == ""
      case NotEmpty => text != ""
      case Unknown(_) => false
  }

  // ---------- what membership means ----------

  /** Texts are alike in lower case, booleans and numbers by value, and never one like another. */
  ghost predicate Alike(t: Texts, v: Value, w: Value)
  {
    match (v, w)
    case (Text(a), Text(b)) => t.lower(a) == t.lower(b)
    case (Bool(a), Bool(b)) => a == b
    case (Number(a, _), Number(b, _)) => a == b
    case _ => v == w && !Scalar(v)
  }

  ghost predicate Belongs(t: Texts, v: Value, items: seq<Value>)
  {
    exists i :: 0 <= i < |items| && Alike(t, v, items[i])
  }

  lemma KeysBelong(t: Texts, v: Value, items: seq<Value>)
    ensures t.KeyOf(v) in Keys(t, items) <==> Belongs(t, v, items)
  {
    if t.KeyOf(v) in Keys(t, items) {
      var i :| 0 <= i < |items| && t.KeyOf(items[i]) == t.KeyOf(v);
      assert Alike(t, v, items[i]);
    }
    if Belongs(t, v, items) {
      var i :| 0 <= i < |items| && Alike(t, v, items[i]);
      assert t.KeyOf(items[i]) == t.KeyOf(v);
    }
  }

  /** `in` with a list: the value belongs to it, or a list does with all its members; `not in` is none. */
  lemma MembershipMeaning(t: Texts, items: seq<Value>, v: Value)
    ensures !v.List? ==> (Satisfies(t, In, List(items), v) <==> Belongs(t, v, items))
    ensures !v.List? ==> (Satisfies(t, NotIn, List(items), v) <==> !Belongs(t, v, items))
    ensures v.List? ==> (Satisfies(t, In, List(items), v) <==> forall j :: 0 <= j < |v.items| ==> Belongs(t, v.items[j], items))
    ensures v.List? ==> (Satisfies(t, NotIn, List(items), v) <==> forall j :: 0 <= j < |v.items| ==> !Belongs(t, v.items[j], items))
  {
    hide Texts.KeyOf, Keys, Belongs;
    forall x {
      KeysBelong(t, x, items);
    }
  }

  /** In particular a text belongs exactly through a text that is equal to it in lower case. */
  lemma TextMembership(t: Texts, items: seq<Value>, s: string)
    ensures Satisfies(t, In, List(items), Text(s)) <==> exists i :: 0 <= i < |items| && items[i].Text? && t.lower(items[i].s) == t.lower(s)
    ensures Satisfies(t, NotIn, List(items), Text(s)) <==> !Satisfies(t, In, List(items), Text(s))
  {
    hide Satisfies;
    MembershipMeaning(t, items, Text(s));
  }

  // ---------- one document ----------

  /** The values of a field: a list stands for its items. */
  function Expanded(v: Value): seq<Value>
  {
    if v.List? then v.items else [v]
  }

  ghost predicate FieldSatisfies(t: Texts, f: Field, c: Condition)
  {
    c.key == Some(f.key) && exists v :: v in Expanded(f.value) && v != Null && Satisfies(t, c.op, c.value, v)
  }

  ghost predicate RowSatisfies(t: Texts, row: Row, c: Condition)
  {
    row.fields.Some? && exists f :: f in row.fields.value && FieldSatisfies(t, f, c)
  }

  /** The document matches: no filter and no unusable operand ever matches. */
  ghost predicate RowMatches(t: Texts, row: Row, filters: seq<Condition>, logic: string)
  {
    && filters != [] && AllUsable(filters)
    && if logic == "and" then forall c :: c in filters ==> RowSatisfies(t, row, c)
       else exists c :: c in filters && RowSatisfies(t, row, c)
  }

  ghost predicate Matches(t: Texts, rows: seq<Row>, filters: seq<Condition>, logic: string, d: DocId)
  {
    exists row :: row in rows && row.id == d && RowMatches(t, row, filters, logic)
  }

  ghost predicate DistinctIds(rows: seq<Row>)
  {
    forall i, j :: 0 <= i < j < |rows| ==> rows[i].id != rows[j].id
  }
}
