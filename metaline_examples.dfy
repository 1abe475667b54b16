/**
 * The phrases of the metaline.js examples, with the deep merge left as a
 * parameter: each result is the merge of {} with what the phrases build.
 */
module MetalineExamples {
  import opened Wrappers
  import opened Json
  import Parsing
  import opened Metaline
  import opened MetalineProperties

  /** "99" is read by parseInt as the number 99. */
  lemma {:induction false} NinetyNine()
    ensures ParseValue("99") == Num(99.0)
  {
    var s := "99";
    assert DigitRun(s) == 2;
    assert s[..2] == s;
    assert s[..1] == "9";
  }

  /** "99.9" is read by parseInt too, which stops at the '.': the fraction is lost. */
  lemma {:induction false} NinetyNinePointNine()
    ensures ParseValue("99.9") == Num(99.0)
  {
    var s := "99.9";
    assert DigitRun(s) == 2;
    assert s[..2] == "99";
    assert "99"[..1] == "9";
    assert Parsing.DigitsValue("99") == 99;
    assert IntPrefix(s) == Some(99.0);
  }

  function WhereIn(): string {
    "where.directorId.in.$"
  }

  lemma {:induction false} WherePhrase(input: Value)
    ensures Build(Chunks(WhereIn()), input) == Nest(["where", "directorId", "in"], input)
  {
    var keys := ["where", "directorId", "in"];
    assert Join(keys[..2], '.') == "where.directorId";
    assert Join(keys, '.') == "where.directorId.in";
    assert WhereIn() == Join(keys, '.') + ['.', '$'];
    PathPhraseBuild(keys, input);
  }

  lemma {:induction false} LimitPhrase(input: Value)
    ensures Build(Chunks("limit:99"), input) == Obj(map["limit" := Num(99.0)])
  {
    assert "limit:99" == Join(["limit"], '.') + [':'] + "99";
    AssignmentPhraseBuild(["limit"], "99", input);
    NinetyNine();
  }

  /** where.directorId.in.$ on [1, 2] gives { where: { directorId: { in: [1, 2] } } }. */
  lemma {:induction false} WhereDirectorIdIn(merge: (Value, Value) -> Value)
    ensures var input := Arr([Num(1.0), Num(2.0)]);
            Metaline.Metaline(merge, WhereIn(), input)
              == merge(EmptyObject(), Obj(map["where" := Obj(map["directorId" := Obj(map["in" := input])])]))
  {
    var input := Arr([Num(1.0), Num(2.0)]);
    MetalineSingle(merge, WhereIn(), input);
    WherePhrase(input);
    assert Nest(["where", "directorId", "in"], input)
        == Obj(map["where" := Nest(["directorId", "in"], input)]);
    assert Nest(["directorId", "in"], input) == Obj(map["directorId" := Nest(["in"], input)]);
  }

  /** limit:99 gives { limit: 99 } whatever the input. */
  lemma {:induction false} Limit(merge: (Value, Value) -> Value, input: Value)
    ensures Metaline.Metaline(merge, "limit:99", input) == merge(EmptyObject(), Obj(map["limit" := Num(99.0)]))
  {
    MetalineSingle(merge, "limit:99", input);
    LimitPhrase(input);
  }

  /** where.directorId.in.$;limit:99 merges the two results in order. */
  lemma {:induction false} WhereAndLimit(merge: (Value, Value) -> Value)
    ensures var input := Arr([Num(1.0), Num(2.0)]);
            Metaline.Metaline(merge, "where.directorId.in.$;limit:99", input)
              == merge(merge(EmptyObject(), Nest(["where", "directorId", "in"], input)),
                       Obj(map["limit" := Num(99.0)]))
  {
    var input := Arr([Num(1.0), Num(2.0)]);
    assert "where.directorId.in.$;limit:99" == WhereIn() + [';'] + "limit:99";
    MetalineTwo(merge, WhereIn(), "limit:99", input);
    WherePhrase(input);
    LimitPhrase(input);
  }

  lemma {:induction false} FractionPhrase(input: Value)
    ensures Build(Chunks("a.limit:99.9"), input) == Obj(map["a" := Obj(map["limit" := Num(99.0)])])
  {
    var keys := ["a", "limit"];
    assert Join(keys, '.') == "a.limit";
    assert "a.limit:99.9" == Join(keys, '.') + [':'] + "99.9";
    AssignmentPhraseBuild(keys, "99.9", input);
    NinetyNinePointNine();
    assert Init(keys) == ["a"];
  }

  /** a.limit:99.9 gives { a: { limit: 99 } }: the path is kept but parseInt drops the fraction. */
  lemma {:induction false} FractionCutOff(merge: (Value, Value) -> Value, input: Value)
    ensures Metaline.Metaline(merge, "a.limit:99.9", input)
         == merge(EmptyObject(), Obj(map["a" := Obj(map["limit" := Num(99.0)])]))
  {
    MetalineSingle(merge, "a.limit:99.9", input);
    FractionPhrase(input);
  }

  /** An empty last key is falsy: a..$ returns the input itself, not { a: ... }. */
  lemma {:induction false} EmptyLastKey(input: Value)
    ensures Build(Chunks("a..$"), input) == input
  {
    var keys := ["a", ""];
    assert "a..$" == Join(keys, '.') + ['.', '$'];
    PathPhrase(keys);
    KeysThenInput(keys, input);
  }
}
