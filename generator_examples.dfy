/**
 * The generator's expected results, on the trees the parser builds for the
 * phrases of test/generator.test.js, and the quirks of generateProgram: the
 * parsed "a.limit:99.9" loses its path, phrases combine by a shallow spread,
 * and the branch for several map phrases throws on a bare "$>".
 */
module GeneratorExamples {
  import opened Wrappers
  import opened Json
  import opened Parsing
  import opened Generator
  import ParserExamples
  import GeneratorProperties

  lemma {:induction false} NestThree(a: string, b: string, c: string, v: Value)
    ensures Nest([a, b, c], v) == Obj(map[a := Obj(map[b := Obj(map[c := v])])])
  {
    assert [a, b, c][1..] == [b, c] && [b, c][1..] == [c] && [c][1..] == [];
    assert Nest([c], v) == Obj(map[c := v]);
    assert Nest([b, c], v) == Obj(map[b := Nest([c], v)]);
  }

  lemma {:induction false} NestTwo(a: string, b: string, v: Value)
    ensures Nest([a, b], v) == Obj(map[a := Obj(map[b := v])])
  {
    assert [a, b][1..] == [b] && [b][1..] == [];
    assert Nest([b], v) == Obj(map[b := v]);
  }

  /** The branch for a lone "$>#prop": the deduplicating pluck. */
  lemma {:induction false} EvalDistinctPluck(ps: seq<PhraseNode>, input: Value, vs: seq<Value>)
    requires IsDistinctPluck(ps) && PluckDistinct(input, ps[0].segments[1].property) == Ok(vs)
    ensures Eval(Program(ps), input) == Ok(Arr(vs))
  {
  }

  /** The branch for several map phrases: one object per element. */
  lemma {:induction false} EvalAllMaps(ps: seq<PhraseNode>, input: Value, props: seq<(string, string)>, items: seq<Value>, rows: seq<Value>)
    requires IsAllMaps(ps) && AllMapsPairs(ps) == Some(props)
    requires Elements(input) == Ok(items) && Rows(props, items) == Ok(rows)
    ensures Eval(Program(ps), input) == Ok(Arr(rows))
  {
  }

  /** The general branch for two phrases that are not both map phrases. */
  lemma {:induction false} EvalTwo(first: PhraseNode, second: PhraseNode, input: Value, a: map<string, Value>, b: map<string, Value>)
    requires first.kind != MapPhrase && Renders(first) && Renders(second)
    requires Contribution([first, second], 0, input) == Ok(a)
    requires Contribution([first, second], 1, input) == Ok(b)
    ensures Eval(Program([first, second]), input) == Ok(Obj(a + b))
  {
    var ps := [first, second];
    assert forall i :: 0 <= i < |ps| ==> Renders(ps[i]);
    assert !IsAllMaps(ps);
    CombineTwo(ps, input, a, b);
  }

  lemma {:induction false} CombineTwo(ps: seq<PhraseNode>, input: Value, a: map<string, Value>, b: map<string, Value>)
    requires |ps| == 2 && Renders(ps[0]) && Renders(ps[1])
    requires Contribution(ps, 0, input) == Ok(a) && Contribution(ps, 1, input) == Ok(b)
    ensures Combine(ps, input, 2) == Ok(a + b)
  {
    assert Combine(ps, input, 1) == Ok(map[] + a);
    assert map[] + a == a;
  }

  /** A phrase that is not a map phrase adds the fields of its object. */
  lemma {:induction false} SpreadObject(ps: seq<PhraseNode>, i: nat, input: Value, m: map<string, Value>)
    requires i < |ps| && ps[i].kind != MapPhrase && Renders(ps[i]) && PhraseValue(ps[i], input) == Ok(Obj(m))
    ensures Contribution(ps, i, input) == Ok(m)
  {
  }

  /** A program that is a lone "$" returns its input unchanged, whatever it is. */
  lemma {:induction false} IdentityProgram(kind: PhraseType, pos: nat, input: Value)
    ensures Eval(Program([PhraseNode(kind, [InputReference(pos)])]), input) == Ok(input)
  {
  }

  /** "where.directorId.in.$" on [1, 2] */
  lemma {:induction false} ObjectWithInput()
    ensures Eval(Program([PhraseNode(Phrase, [PathSegment("where", 0), PathSegment("directorId", 6),
                                              PathSegment("in", 17), InputReference(20)])]),
                 Arr([Num(1.0), Num(2.0)]))
         == Ok(Obj(map["where" := Obj(map["directorId" := Obj(map["in" := Arr([Num(1.0), Num(2.0)])])])]))
  {
    var p := PhraseNode(Phrase, [PathSegment("where", 0), PathSegment("directorId", 6),
                                 PathSegment("in", 17), InputReference(20)]);
    WhereInValue(p, Arr([Num(1.0), Num(2.0)]));
  }


  /** "limit:99" on null */
  lemma {:induction false} ValueAssignmentLimit()
    ensures Eval(Program([PhraseNode(ValuePhrase, [ValueAssignment("limit", NumberLiteral(99.0), 0)])]), Null)
         == Ok(Obj(map["limit" := Num(99.0)]))
  {
    var p := PhraseNode(ValuePhrase, [ValueAssignment("limit", NumberLiteral(99.0), 0)]);
    assert p.segments[..0] == [];
  }

  /** The generator nests a value under the path names before it, when the tree still has them. */
  lemma {:induction false} NestedValueWithPath()
    ensures Eval(Program([PhraseNode(ValuePhrase, [PathSegment("a", 0), ValueAssignment("limit", NumberLiteral(99.9), 2)])]), Null)
         == Ok(Obj(map["a" := Obj(map["limit" := Num(99.9)])]))
  {
    var p := PhraseNode(ValuePhrase, [PathSegment("a", 0), ValueAssignment("limit", NumberLiteral(99.9), 2)]);
    assert p.segments[..1] == [PathSegment("a", 0)];
    GeneratorProperties.PathNamesOfPathSegments(p.segments[..1]);
    assert PathNames(p.segments[..1]) == ["a"];
    assert ["a"][1..] == [];
  }

  /**
   * Parsed from its text, "a.limit:99.9" gives { limit: 99.9 }, not the
   * { a: { limit: 99.9 } } that its test expects: the parser has already
   * dropped "a".
   */
  lemma {:induction false} NestedValueFromText()
    ensures ParseText("a.limit:99.9").Ok?
    ensures Eval(ParseText("a.limit:99.9").value, Null) == Ok(Obj(map["limit" := Num(99.9)]))
  {
    ParserExamples.ValuePhraseDropsPath();
    NestedValueParsed();
  }

  lemma {:induction false} NestedValueParsed()
    ensures Eval(Program([PhraseNode(ValuePhrase, [ValueAssignment("limit", NumberLiteral(99.9), 2)])]), Null)
         == Ok(Obj(map["limit" := Num(99.9)]))
  {
    var p := PhraseNode(ValuePhrase, [ValueAssignment("limit", NumberLiteral(99.9), 2)]);
    assert p.segments[..0] == [];
  }

  /** "where.directorId.in.$;limit:99" on [1, 2] */
  lemma {:induction false} MultiplePhrases()
    ensures Eval(Program([PhraseNode(Phrase, [PathSegment("where", 0), PathSegment("directorId", 6),
                                              PathSegment("in", 17), InputReference(20)]),
                          PhraseNode(ValuePhrase, [ValueAssignment("limit", NumberLiteral(99.0), 22)])]),
                 Arr([Num(1.0), Num(2.0)]))
         == Ok(Obj(map["where" := Obj(map["directorId" := Obj(map["in" := Arr([Num(1.0), Num(2.0)])])]),
                       "limit" := Num(99.0)]))
  {
    var input := Arr([Num(1.0), Num(2.0)]);
    var first := PhraseNode(Phrase, [PathSegment("where", 0), PathSegment("directorId", 6),
                                     PathSegment("in", 17), InputReference(20)]);
    var second := PhraseNode(ValuePhrase, [ValueAssignment("limit", NumberLiteral(99.0), 22)]);
    var ps := [first, second];
    var nested := map["where" := Obj(map["directorId" := Obj(map["in" := input])])];
    WhereInValue(first, input);
    SpreadObject(ps, 0, input, nested);
    assert second.segments[..0] == [];
    SpreadObject(ps, 1, input, map["limit" := Num(99.0)]);
    EvalTwo(first, second, input, nested, map["limit" := Num(99.0)]);
    assert nested + map["limit" := Num(99.0)]
        == map["where" := Obj(map["directorId" := Obj(map["in" := input])]), "limit" := Num(99.0)];
  }

  lemma {:induction false} WhereInValue(first: PhraseNode, input: Value)
    requires first == PhraseNode(Phrase, [PathSegment("where", 0), PathSegment("directorId", 6),
                                          PathSegment("in", 17), InputReference(20)])
    ensures PhraseValue(first, input) == Ok(Obj(map["where" := Obj(map["directorId" := Obj(map["in" := input])])]))
  {
    GeneratorProperties.ObjectPhraseReference(first, input);
    assert GeneratorProperties.FirstTarget(first.segments) == 3;
    assert first.segments[..3] == [PathSegment("where", 0), PathSegment("directorId", 6), PathSegment("in", 17)];
    GeneratorProperties.PathNamesOfPathSegments(first.segments[..3]);
    assert PathNames(first.segments[..3]) == ["where", "directorId", "in"];
    NestThree("where", "directorId", "in", input);
  }

  /** "$>#id" on [{ id: 1 }, { id: 2 }] */
  lemma {:induction false} ArrayMapping()
    ensures Eval(Program([PhraseNode(MapPhrase, [MapOperator(0), PropertyAccess("id", 2)])]),
                 Arr([Obj(map["id" := Num(1.0)]), Obj(map["id" := Num(2.0)])]))
         == Ok(Arr([Num(1.0), Num(2.0)]))
  {
    var items := [Obj(map["id" := Num(1.0)]), Obj(map["id" := Num(2.0)])];
    PluckIds(items);
    EvalDistinctPluck([PhraseNode(MapPhrase, [MapOperator(0), PropertyAccess("id", 2)])], Arr(items), [Num(1.0), Num(2.0)]);
  }

  /** "$>#id" on { length: 1 }: the loop reads input[0], which is undefined, and throws. */
  lemma {:induction false} LengthFieldObject()
    ensures Eval(Program([PhraseNode(MapPhrase, [MapOperator(0), PropertyAccess("id", 2)])]),
                 Obj(map["length" := Num(1.0)]))
         == Err(TypeError)
  {
    var input := Obj(map["length" := Num(1.0)]);
    assert (1.0).Floor == 1;
    assert Passes(1.0) == 1;
    assert IndexKey(0) == "0" && "0" !in input.fields;
    var items := Elements(input).value;
    assert |items| == 1 && items[0] == Undefined;
    assert items == [Undefined];
    assert Elements(input) == Ok([Undefined]);
    assert Spliced([Undefined], "id") == Err(TypeError);
  }

  lemma {:induction false} PluckIds(items: seq<Value>)
    requires items == [Obj(map["id" := Num(1.0)]), Obj(map["id" := Num(2.0)])]
    ensures PluckDistinct(Arr(items), "id") == Ok([Num(1.0), Num(2.0)])
  {
    assert Prop(items[0], "id") == Ok(Num(1.0));
    assert Prop(items[1], "id") == Ok(Num(2.0));
    GeneratorProperties.SplicedWithoutArrays(items, "id");
    GeneratorProperties.PluckedPerElement(items, "id");
    var vs := Plucked(items, "id").value;
    assert |vs| == 2 && vs[0] == Num(1.0) && vs[1] == Num(2.0);
    assert vs == [Num(1.0), Num(2.0)];
    GeneratorProperties.DistinctKeepsUnique([Num(1.0), Num(2.0)]);
  }

  /** "$>id.#directorId;$>foo.#bar": each element becomes { id, foo }. */
  lemma {:induction false} ComplexMapping()
    ensures Eval(Program([PhraseNode(MapPhrase, [MapOperator(0), PathSegment("id", 2), PropertyAccess("directorId", 5)]),
                          PhraseNode(MapPhrase, [MapOperator(17), PathSegment("foo", 19), PropertyAccess("bar", 23)])]),
                 Arr([Obj(map["directorId" := Num(1.0), "bar" := Num(2.0)]),
                      Obj(map["directorId" := Num(2.0), "bar" := Num(3.0)])]))
         == Ok(Arr([Obj(map["id" := Num(1.0), "foo" := Num(2.0)]), Obj(map["id" := Num(2.0), "foo" := Num(3.0)])]))
  {
    var ps := [PhraseNode(MapPhrase, [MapOperator(0), PathSegment("id", 2), PropertyAccess("directorId", 5)]),
               PhraseNode(MapPhrase, [MapOperator(17), PathSegment("foo", 19), PropertyAccess("bar", 23)])];
    var props := [("id", "directorId"), ("foo", "bar")];
    var a := Obj(map["directorId" := Num(1.0), "bar" := Num(2.0)]);
    var b := Obj(map["directorId" := Num(2.0), "bar" := Num(3.0)]);
    var rows := [Obj(map["id" := Num(1.0), "foo" := Num(2.0)]), Obj(map["id" := Num(2.0), "foo" := Num(3.0)])];
    ComplexPairs(ps, props);
    ComplexRows(props, a, b, rows);
    EvalAllMaps(ps, Arr([a, b]), props, [a, b], rows);
  }

  lemma {:induction false} ComplexPairs(ps: seq<PhraseNode>, props: seq<(string, string)>)
    requires ps == [PhraseNode(MapPhrase, [MapOperator(0), PathSegment("id", 2), PropertyAccess("directorId", 5)]),
                    PhraseNode(MapPhrase, [MapOperator(17), PathSegment("foo", 19), PropertyAccess("bar", 23)])]
    requires props == [("id", "directorId"), ("foo", "bar")]
    ensures IsAllMaps(ps) && AllMapsPairs(ps) == Some(props)
  {
    assert AllMapsPair(ps[0]) == Some(props[0]);
    assert AllMapsPair(ps[1]) == Some(props[1]);
    GeneratorProperties.AllMapsPairsPerPhrase(ps);
    var pairs := AllMapsPairs(ps).value;
    assert |pairs| == 2 && pairs[0] == props[0] && pairs[1] == props[1];
    assert pairs == props;
  }

  lemma {:induction false} ComplexRows(props: seq<(string, string)>, a: Value, b: Value, rows: seq<Value>)
    requires props == [("id", "directorId"), ("foo", "bar")]
    requires a == Obj(map["directorId" := Num(1.0), "bar" := Num(2.0)])
    requires b == Obj(map["directorId" := Num(2.0), "bar" := Num(3.0)])
    requires rows == [Obj(map["id" := Num(1.0), "foo" := Num(2.0)]), Obj(map["id" := Num(2.0), "foo" := Num(3.0)])]
    ensures Rows(props, [a, b]) == Ok(rows)
  {
    assert props[..1] == [props[0]] && props[..1][..0] == [];
    assert Row(props[..1], a) == Ok(map["id" := Num(1.0)]);
    assert Row(props, a) == Ok(map["id" := Num(1.0), "foo" := Num(2.0)]);
    assert Row(props[..1], b) == Ok(map["id" := Num(2.0)]);
    assert Row(props, b) == Ok(map["id" := Num(2.0), "foo" := Num(3.0)]);
    GeneratorProperties.RowsPerElement(props, [a, b]);
    var r := Rows(props, [a, b]).value;
    assert |r| == 2 && r[0] == rows[0] && r[1] == rows[1];
    assert r == rows;
  }


  /**
   * Phrases combine by a shallow spread: "a.b.$;a.c.$" keeps only the second
   * phrase's "a", where a deep merge would keep both "b" and "c".
   */
  lemma {:induction false} ShallowCombine(input: Value)
    ensures Eval(Program([PhraseNode(Phrase, [PathSegment("a", 0), PathSegment("b", 2), InputReference(4)]),
                          PhraseNode(Phrase, [PathSegment("a", 6), PathSegment("c", 8), InputReference(10)])]),
                 input)
         == Ok(Obj(map["a" := Obj(map["c" := input])]))
  {
    var first := PhraseNode(Phrase, [PathSegment("a", 0), PathSegment("b", 2), InputReference(4)]);
    var second := PhraseNode(Phrase, [PathSegment("a", 6), PathSegment("c", 8), InputReference(10)]);
    var ps := [first, second];
    TwoKeyValue(first, "a", "b", 0, 2, 4, input);
    TwoKeyValue(second, "a", "c", 6, 8, 10, input);
    SpreadObject(ps, 0, input, map["a" := Obj(map["b" := input])]);
    SpreadObject(ps, 1, input, map["a" := Obj(map["c" := input])]);
    EvalTwo(first, second, input, map["a" := Obj(map["b" := input])], map["a" := Obj(map["c" := input])]);
    assert map["a" := Obj(map["b" := input])] + map["a" := Obj(map["c" := input])] == map["a" := Obj(map["c" := input])];
  }

  /** "x.y.$" puts the input under x.y. */
  lemma {:induction false} TwoKeyValue(p: PhraseNode, x: string, y: string, i: nat, j: nat, k: nat, input: Value)
    requires p == PhraseNode(Phrase, [PathSegment(x, i), PathSegment(y, j), InputReference(k)])
    ensures PhraseValue(p, input) == Ok(Obj(map[x := Obj(map[y := input])]))
  {
    GeneratorProperties.ObjectPhraseReference(p, input);
    assert GeneratorProperties.FirstTarget(p.segments) == 2;
    assert p.segments[..2] == [PathSegment(x, i), PathSegment(y, j)];
    GeneratorProperties.PathNamesOfPathSegments(p.segments[..2]);
    assert PathNames(p.segments[..2]) == [x, y];
    NestTwo(x, y, input);
  }

  /** "$>;$>#x": the branch for several map phrases reads a group the first phrase does not have. */
  lemma {:induction false} BareMapOperatorThrows(input: Value)
    ensures Eval(Program([PhraseNode(MapPhrase, [MapOperator(0)]),
                          PhraseNode(MapPhrase, [MapOperator(3), PropertyAccess("x", 5)])]), input)
         == Err(GenerationError)
  {
    var ps := [PhraseNode(MapPhrase, [MapOperator(0)]),
               PhraseNode(MapPhrase, [MapOperator(3), PropertyAccess("x", 5)])];
    assert ps[..1] == [ps[0]];
    assert AllMapsPairs(ps[..1]) == None;
  }
}
