/** JSON metadata values, and the text operations that metadata filters use on them. */
module MetadataValues {

  datatype Num = Finite(r: real) | PlusInfinity | MinusInfinity | NotANumber

  /** A number remembers whether it is a float, because 1 and 1.0 are equal and print differently. */
  datatype Value =
    | Null
    | Text(s: string)
    | Bool(b: bool)
    | Number(num: Num, float: bool)
    | List(items: seq<Value>)
    | Object(fields: seq<(string, Value)>)

  /**
    What `_membership_key` returns: values are members of a list when their keys are equal. Other
    values are told apart by their printed form, which stands for the value itself.
   */
  datatype Key = StringKey(s: string) | BooleanKey(b: bool) | NumberKey(num: Num) | OtherKey(other: Value)

  /** The text functions of the language: `str.lower` and `str`. */
  datatype Texts = Texts(lower: string -> string, str: Value -> string)
  {
    /** `lower` is idempotent, and `str` of a text is the text. */
    ghost predicate Lawful()
    {
      && (forall s :: lower(lower(s)) == lower(s))
      && (forall s :: str(Text(s)) == s)
    }

    function KeyOf(v: Value): Key
    {
      match v
      case Text(s) => StringKey(lower(s))
      case Bool(b) => BooleanKey(b)
      case Number(num, _) => NumberKey(num)
      case _ => OtherKey(v)
    }

    /** `normalize_string_values`. */
    function Normalize(v: Value): Value
    {
      match v
      case Text(s) => Text(lower(s))
      case List(items) => List(seq(|items|, i requires 0 <= i < |items| => if items[i].Text? then Text(lower(items[i].s)) else items[i]))
      case _ => v
    }

    lemma NormalizeTwice(v: Value)
      requires Lawful()
      ensures Normalize(Normalize(v)) == Normalize(v)
    {
      if v.List? {
        assert Normalize(Normalize(v)).items == Normalize(v).items;
      }
    }
  }

  /** There are such functions. */
  lemma LawfulTexts() returns (t: Texts)
    ensures t.Lawful()
  {
    t := Texts(s => s, (v: Value) => if v.Text? then v.s else "");
  }

  predicate Scalar(v: Value)
  {
    v.Text? || v.Bool? || v.Number?
  }

  predicate At(s: string, i: nat, part: string)
  {
    i + |part| <= |s| && s[i..i + |part|] == part
  }

  /** `s.find(part) >= 0`, which is also `part in s`. */
  predicate Occurs(part: string, s: string)
  {
    exists i | 0 <= i <= |s| :: At(s, i, part)
  }

  predicate Starts(s: string, part: string)
  {
    part <= s
  }

  predicate Ends(s: string, part: string)
  {
    |part| <= |s| && s[|s| - |part|..] == part
  }

  /** A part occurs, starts or ends a text when the rest can be put around it. */
  lemma TextTests(part: string, s: string)
    ensures Occurs(part, s) <==> exists a: string, b: string :: s == a + part + b
    ensures Starts(s, part) <==> exists b: string :: s == part + b
    ensures Ends(s, part) <==> exists a: string :: s == a + part
  {
    if i :| 0 <= i <= |s| && At(s, i, part) {
      assert s == s[..i] + part + s[i + |part|..];
    }
    if a: string, b: string :| s == a + part + b {
      assert At(s, |a|, part);
    }
    if Starts(s, part) {
      assert s == part + s[|part|..];
    }
    if Ends(s, part) {
      assert s == s[..|s| - |part|] + part;
    }
  }
}
