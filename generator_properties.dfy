/**
 * What the generated transforms promise, stated against independent
 * descriptions: deduplication keeps first occurrences, the per-element objects
 * take the last value for a repeated key, map properties are grouped under the
 * nearest preceding path name, an object phrase stops at its first "$" or
 * "#prop", and the general branch lets later phrases overwrite earlier keys.
 */
module GeneratorProperties {
  import opened Wrappers
  import opened Json
  import opened Parsing
  import opened Generator

  // ---------------------------------------------------------------------------
  // Deduplication.

  /** No scalar occurs twice. */
  ghost predicate NoScalarRepeats(xs: seq<Value>) {
    forall i, j :: 0 <= i < j < |xs| && IsScalar(xs[j]) ==> xs[i] != xs[j]
  }

  /** Deduplication keeps every value that occurs, and nothing else. */
  lemma {:induction false} DistinctMembers(xs: seq<Value>)
    ensures forall x :: x in Distinct(xs) <==> x in xs
    decreases |xs|
  {
    if |xs| > 0 {
      var front := xs[..|xs| - 1];
      DistinctMembers(front);
      assert xs == front + [xs[|xs| - 1]];
    }
  }

  /** After deduplication no scalar occurs twice. */
  lemma {:induction false} DistinctNoRepeats(xs: seq<Value>)
    ensures NoScalarRepeats(Distinct(xs))
    decreases |xs|
  {
    if |xs| > 0 {
      var front := xs[..|xs| - 1];
      var x := xs[|xs| - 1];
      DistinctNoRepeats(front);
      if !(IsScalar(x) && x in front) {
        DistinctMembers(front);
        var d := Distinct(front) + [x];
        forall i, j | 0 <= i < j < |d| && IsScalar(d[j])
          ensures d[i] != d[j]
        {
          if j == |d| - 1 {
            assert d[i] in Distinct(front);
          } else {
            assert d[i] == Distinct(front)[i] && d[j] == Distinct(front)[j];
          }
        }
      }
    }
  }

  /** A sequence without repeated scalars is left as it is. */
  lemma {:induction false} DistinctKeepsUnique(xs: seq<Value>)
    requires NoScalarRepeats(xs)
    ensures Distinct(xs) == xs
    decreases |xs|
  {
    if |xs| > 0 {
      var front := xs[..|xs| - 1];
      var x := xs[|xs| - 1];
      assert NoScalarRepeats(front) by {
        forall i, j | 0 <= i < j < |front| && IsScalar(front[j])
          ensures front[i] != front[j]
        {
          assert front[i] == xs[i] && front[j] == xs[j];
        }
      }
      DistinctKeepsUnique(front);
      assert forall i :: 0 <= i < |front| ==> front[i] == xs[i];
      assert IsScalar(x) ==> x !in front;
      assert xs == front + [x];
    }
  }

  /** Deduplicating twice is deduplicating once. */
  lemma {:induction false} DistinctIdempotent(xs: seq<Value>)
    ensures Distinct(Distinct(xs)) == Distinct(xs)
  {
    DistinctNoRepeats(xs);
    DistinctKeepsUnique(Distinct(xs));
  }

  /** Where no element's property is an array, splicing is the plain pluck. */
  lemma {:induction false} SplicedWithoutArrays(items: seq<Value>, prop: string)
    requires forall i :: 0 <= i < |items| ==> Prop(items[i], prop).Ok? ==> !Prop(items[i], prop).value.Arr?
    ensures Spliced(items, prop) == Plucked(items, prop)
    decreases |items|
  {
    if |items| > 0 {
      var front := items[..|items| - 1];
      assert forall i :: 0 <= i < |front| ==> front[i] == items[i];
      SplicedWithoutArrays(front, prop);
    }
  }

  /** The plain pluck reads the property of every element, in order. */
  lemma {:induction false} PluckedPerElement(items: seq<Value>, prop: string)
    ensures Plucked(items, prop).Ok? <==> forall i :: 0 <= i < |items| ==> Prop(items[i], prop).Ok?
    ensures Plucked(items, prop).Ok? ==>
              |Plucked(items, prop).value| == |items| &&
              forall i :: 0 <= i < |items| ==> Plucked(items, prop).value[i] == Prop(items[i], prop).value
    decreases |items|
  {
    if |items| > 0 {
      var front := items[..|items| - 1];
      PluckedPerElement(front, prop);
      assert forall i :: 0 <= i < |front| ==> front[i] == items[i];
    }
  }

  // ---------------------------------------------------------------------------
  // The per-element objects of a map phrase.

  /** Building one object fails exactly when there is a property to read and the element is undefined or null. */
  lemma {:induction false} RowFails(props: seq<(string, string)>, item: Value)
    ensures Row(props, item).Err? <==> |props| > 0 && (item.Undefined? || item.Null?)
    decreases |props|
  {
    if |props| > 0 {
      RowFails(props[..|props| - 1], item);
    }
  }

  /** The object has exactly the keys of the pairs. */
  lemma {:induction false} RowKeys(props: seq<(string, string)>, item: Value)
    requires Row(props, item).Ok?
    ensures forall k :: k in Row(props, item).value <==> exists j :: 0 <= j < |props| && props[j].0 == k
    decreases |props|
  {
    if |props| > 0 {
      var front := props[..|props| - 1];
      var last := props[|props| - 1];
      RowKeys(front, item);
      var m := Row(front, item).value;
      assert Row(props, item).value == m[last.0 := Prop(item, last.1).value];
      forall k | k in Row(props, item).value
        ensures exists j :: 0 <= j < |props| && props[j].0 == k
      {
        if k != last.0 {
          assert k in m;
          var j :| 0 <= j < |front| && front[j].0 == k;
          assert props[j] == front[j];
        }
      }
      forall k | exists j :: 0 <= j < |props| && props[j].0 == k
        ensures k in Row(props, item).value
      {
        var j :| 0 <= j < |props| && props[j].0 == k;
        if j < |front| {
          assert front[j] == props[j];
        }
      }
    }
  }

  /** Each key holds the property named by the last pair with that key. */
  lemma {:induction false} RowLastWins(props: seq<(string, string)>, item: Value, j: nat)
    requires Row(props, item).Ok?
    requires j < |props| && forall l :: j < l < |props| ==> props[l].0 != props[j].0
    ensures props[j].0 in Row(props, item).value
    ensures Row(props, item).value[props[j].0] == Prop(item, props[j].1).value
    decreases |props|
  {
    var front := props[..|props| - 1];
    var last := props[|props| - 1];
    assert Row(props, item).value == Row(front, item).value[last.0 := Prop(item, last.1).value];
    if j < |front| {
      assert front[j] == props[j];
      assert last.0 != props[j].0;
      assert forall l :: j < l < |front| ==> front[l] == props[l];
      RowLastWins(front, item, j);
    }
  }

  /** One object per element, in order, or the failure of the first element that fails. */
  lemma {:induction false} RowsPerElement(props: seq<(string, string)>, items: seq<Value>)
    ensures Rows(props, items).Ok? <==> forall i :: 0 <= i < |items| ==> Row(props, items[i]).Ok?
    ensures Rows(props, items).Ok? ==>
              |Rows(props, items).value| == |items| &&
              forall i :: 0 <= i < |items| ==> Rows(props, items).value[i] == Obj(Row(props, items[i]).value)
    decreases |items|
  {
    if |items| > 0 {
      var front := items[..|items| - 1];
      RowsPerElement(props, front);
      assert forall i :: 0 <= i < |front| ==> front[i] == items[i];
    }
  }

  /** With no properties to read, every element gives an empty object, whatever it is. */
  lemma {:induction false} RowsWithoutProperties(items: seq<Value>)
    ensures Rows([], items) == Ok(seq(|items|, i => EmptyObject()))
  {
    RowsPerElement([], items);
    assert Rows([], items).Ok?;
    var rows := Rows([], items).value;
    var expected := seq(|items|, i => EmptyObject());
    assert forall i :: 0 <= i < |items| ==> rows[i] == EmptyObject() == expected[i];
    assert rows == expected;
  }

  /** The several-map-phrases branch reads one pair per phrase, and throws if any phrase lacks one. */
  lemma {:induction false} AllMapsPairsPerPhrase(ps: seq<PhraseNode>)
    ensures AllMapsPairs(ps).Some? <==> forall i :: 0 <= i < |ps| ==> AllMapsPair(ps[i]).Some?
    ensures AllMapsPairs(ps).Some? ==>
              forall i :: 0 <= i < |ps| ==> AllMapsPairs(ps).value[i] == AllMapsPair(ps[i]).value
    decreases |ps|
  {
    if |ps| > 0 {
      var front := ps[..|ps| - 1];
      AllMapsPairsPerPhrase(front);
      assert forall i :: 0 <= i < |front| ==> front[i] == ps[i];
    }
  }

  // ---------------------------------------------------------------------------
  // Grouping of map properties under keys.

  /** The currentKey left by a run over segs from none: the last PathSegment, unless a PropertyAccess came after it. */
  function KeyAfter(segs: seq<Segment>): Option<string> {
    if |segs| == 0 then None
    else
      var last := segs[|segs| - 1];
      if last.PathSegment? then Some(last.value)
      else if last.PropertyAccess? then None
      else KeyAfter(segs[..|segs| - 1])
  }

  /** One pair per PropertyAccess, keyed by the nearest preceding path name not already used. */
  function GroupsRef(segs: seq<Segment>): seq<(string, string)> {
    if |segs| == 0 then []
    else
      var front := segs[..|segs| - 1];
      var last := segs[|segs| - 1];
      GroupsRef(front) + (if last.PropertyAccess? then [(KeyOr(KeyAfter(front)), last.property)] else [])
  }

  lemma {:induction false} GroupsSplit(prefix: seq<Segment>, rest: seq<Segment>)
    ensures GroupsRef(prefix) + Groups(rest, KeyAfter(prefix)) == GroupsRef(prefix + rest)
    decreases |rest|
  {
    if |rest| == 0 {
      assert prefix + rest == prefix;
    } else {
      var s := rest[0];
      var longer := prefix + [s];
      assert longer[..|longer| - 1] == prefix;
      GroupsSplit(longer, rest[1..]);
      assert longer + rest[1..] == prefix + rest;
    }
  }

  /** The objProperties loop pairs every PropertyAccess with the nearest preceding unused path name, or "id". */
  lemma {:induction false} GroupsMatchReference(segs: seq<Segment>)
    ensures Groups(segs, None) == GroupsRef(segs)
  {
    GroupsSplit([], segs);
    assert [] + segs == segs;
  }

  lemma {:induction false} GroupsRefWithoutProperties(segs: seq<Segment>)
    requires forall i :: 0 <= i < |segs| ==> !segs[i].PropertyAccess?
    ensures GroupsRef(segs) == []
    decreases |segs|
  {
    if |segs| > 0 {
      GroupsRefWithoutProperties(segs[..|segs| - 1]);
    }
  }

  /** A map phrase naming no property gives one empty object per element of the input. */
  lemma {:induction false} MapPhraseWithoutProperties(p: PhraseNode, input: Value)
    requires forall i :: 0 <= i < |Tail(p)| ==> !Tail(p)[i].PropertyAccess?
    requires !input.Undefined? && !input.Null?
    ensures MapPhraseValue(p, input) == Ok(Arr(seq(|Elements(input).value|, i => EmptyObject())))
  {
    GroupsMatchReference(Tail(p));
    GroupsRefWithoutProperties(Tail(p));
    RowsWithoutProperties(Elements(input).value);
  }

  /** Of segments that are all PathSegments, the path names are their values. */
  lemma {:induction false} PathNamesOfPathSegments(segs: seq<Segment>)
    requires forall i :: 0 <= i < |segs| ==> segs[i].PathSegment?
    ensures |PathNames(segs)| == |segs|
    ensures forall i :: 0 <= i < |segs| ==> PathNames(segs)[i] == segs[i].value
    decreases |segs|
  {
    if |segs| > 0 {
      var front := segs[..|segs| - 1];
      PathNamesOfPathSegments(front);
      assert forall i :: 0 <= i < |front| ==> front[i] == segs[i];
    }
  }

  // ---------------------------------------------------------------------------
  // Value and object phrases.

  /** The literal of a value phrase is found by following the path names and then its key. */
  lemma {:induction false} ValuePhraseFindsLiteral(p: PhraseNode)
    requires |p.segments| > 0
    ensures var last := p.segments[|p.segments| - 1];
            Dig(ValuePhraseValue(p), PathNames(p.segments[..|p.segments| - 1]) + [AssignedKey(last)])
              == Some(AssignedValue(last))
  {
    var last := p.segments[|p.segments| - 1];
    var path := PathNames(p.segments[..|p.segments| - 1]);
    NestAppend(path, AssignedKey(last), AssignedValue(last));
    DigNest(path + [AssignedKey(last)], AssignedValue(last));
  }

  predicate IsTarget(seg: Segment) {
    seg.InputReference? || seg.PropertyAccess?
  }

  /** The index of the first "$" or "#prop", or |segs| when there is none. */
  function FirstTarget(segs: seq<Segment>): (k: nat)
    ensures k <= |segs|
    ensures forall j :: 0 <= j < k ==> !IsTarget(segs[j])
    ensures k < |segs| ==> IsTarget(segs[k])
  {
    if |segs| == 0 then 0
    else if IsTarget(segs[0]) then 0
    else
      var k := 1 + FirstTarget(segs[1..]);
      assert forall j :: 1 <= j < k ==> segs[j] == segs[1..][j - 1];
      k
  }

  lemma {:induction false} ObjectFromReference(segs: seq<Segment>, i: nat, input: Value)
    requires i <= FirstTarget(segs)
    ensures ObjectFrom(segs[i..], PathNames(segs[..i]), input)
         == var k := FirstTarget(segs);
            if k == |segs| then Ok(EmptyObject())
            else if segs[k].InputReference? then Ok(Nest(PathNames(segs[..k]), input))
            else match Prop(input, segs[k].property)
                 case Err(e) => Err(e)
                 case Ok(v) => Ok(Nest(PathNames(segs[..k]), v))
    decreases |segs| - i
  {
    var k := FirstTarget(segs);
    if i < k {
      assert segs[i..][0] == segs[i] && segs[i..][1..] == segs[i + 1..];
      assert segs[..i + 1][..i] == segs[..i];
      var path := PathNames(segs[..i]);
      if segs[i].PathSegment? {
        assert PathNames(segs[..i + 1]) == path + [segs[i].value];
      } else {
        assert PathNames(segs[..i + 1]) == path + [];
        assert path + [] == path;
      }
      assert ObjectFrom(segs[i..], path, input) == ObjectFrom(segs[i + 1..], PathNames(segs[..i + 1]), input);
      ObjectFromReference(segs, i + 1, input);
    } else if k < |segs| {
      assert segs[i..][0] == segs[k];
    }
  }

  /**
   * An object phrase gives the input, or its property, under the path names that
   * precede the first "$" or "#prop"; everything after that is ignored, and a
   * phrase with neither gives {}.
   */
  lemma {:induction false} ObjectPhraseReference(p: PhraseNode, input: Value)
    ensures ObjectPhraseValue(p, input)
         == var segs := p.segments;
            var k := FirstTarget(segs);
            if k == |segs| then Ok(EmptyObject())
            else if segs[k].InputReference? then Ok(Nest(PathNames(segs[..k]), input))
            else match Prop(input, segs[k].property)
                 case Err(e) => Err(e)
                 case Ok(v) => Ok(Nest(PathNames(segs[..k]), v))
  {
    ObjectFromReference(p.segments, 0, input);
    assert p.segments[0..] == p.segments;
  }

  // ---------------------------------------------------------------------------
  // The general branch.

  /** { ...ms[0], ...ms[1], ... } */
  function Union(ms: seq<map<string, Value>>): map<string, Value> {
    if |ms| == 0 then map[] else Union(ms[..|ms| - 1]) + ms[|ms| - 1]
  }

  /** A key of the union comes from some part, and holds the value of the last part that has it. */
  lemma {:induction false} UnionLastWins(ms: seq<map<string, Value>>)
    ensures forall k :: k in Union(ms) <==> exists i :: 0 <= i < |ms| && k in ms[i]
    ensures forall i, k :: 0 <= i < |ms| && k in ms[i] && (forall j :: i < j < |ms| ==> k !in ms[j]) ==>
              Union(ms)[k] == ms[i][k]
    decreases |ms|
  {
    UnionParts(ms);
  }

  ghost predicate KeysFromParts(ms: seq<map<string, Value>>) {
    forall k :: k in Union(ms) <==> exists i :: 0 <= i < |ms| && k in ms[i]
  }

  ghost predicate LastPartWins(ms: seq<map<string, Value>>)
    requires KeysFromParts(ms)
  {
    forall i, k :: 0 <= i < |ms| && k in ms[i] && (forall j :: i < j < |ms| ==> k !in ms[j]) ==>
      Union(ms)[k] == ms[i][k]
  }

  lemma {:induction false} UnionParts(ms: seq<map<string, Value>>)
    ensures KeysFromParts(ms) && LastPartWins(ms)
    decreases |ms|
  {
    if |ms| > 0 {
      UnionParts(ms[..|ms| - 1]);
      UnionKeysStep(ms);
      UnionValuesStep(ms);
    }
  }

  lemma {:induction false} UnionKeysStep(ms: seq<map<string, Value>>)
    requires |ms| > 0 && KeysFromParts(ms[..|ms| - 1])
    ensures KeysFromParts(ms)
  {
    var front := ms[..|ms| - 1];
    forall k | exists i :: 0 <= i < |ms| && k in ms[i]
      ensures k in Union(ms)
    {
      var i :| 0 <= i < |ms| && k in ms[i];
      if i < |front| {
        assert front[i] == ms[i];
      }
    }
    forall k | k in Union(ms)
      ensures exists i :: 0 <= i < |ms| && k in ms[i]
    {
      if k !in ms[|ms| - 1] {
        assert k in Union(front);
        var i :| 0 <= i < |front| && k in front[i];
        assert ms[i] == front[i];
      }
    }
  }

  lemma {:induction false} UnionValuesStep(ms: seq<map<string, Value>>)
    requires |ms| > 0 && KeysFromParts(ms[..|ms| - 1]) && LastPartWins(ms[..|ms| - 1]) && KeysFromParts(ms)
    ensures LastPartWins(ms)
  {
    forall i, k | 0 <= i < |ms| && k in ms[i] && (forall j :: i < j < |ms| ==> k !in ms[j])
      ensures Union(ms)[k] == ms[i][k]
    {
      UnionValueAt(ms, i, k);
    }
  }

  lemma {:induction false} UnionValueAt(ms: seq<map<string, Value>>, i: nat, k: string)
    requires i < |ms| && k in ms[i] && (forall j :: i < j < |ms| ==> k !in ms[j])
    requires KeysFromParts(ms[..|ms| - 1]) && LastPartWins(ms[..|ms| - 1])
    ensures k in Union(ms) && Union(ms)[k] == ms[i][k]
  {
    var front := ms[..|ms| - 1];
    assert Union(ms) == Union(front) + ms[|ms| - 1];
    if i < |front| {
      assert k !in ms[|ms| - 1];
      assert front[i] == ms[i];
      forall j | i < j < |front| ensures k !in front[j] {
        assert front[j] == ms[j];
      }
      assert k in Union(front);
    }
  }

  /** The part phrase i adds, or nothing where it fails. */
  function PartOf(ps: seq<PhraseNode>, input: Value, i: nat): map<string, Value>
    requires i < |ps| && forall i :: 0 <= i < |ps| ==> Renders(ps[i])
  {
    match Contribution(ps, i, input)
    case Ok(m) => m
    case Err(_) => map[]
  }

  /** The parts of the first n phrases, in order. */
  function Parts(ps: seq<PhraseNode>, input: Value, n: nat): (r: seq<map<string, Value>>)
    requires n <= |ps| && forall i :: 0 <= i < |ps| ==> Renders(ps[i])
    ensures |r| == n
  {
    if n == 0 then [] else Parts(ps, input, n - 1) + [PartOf(ps, input, n - 1)]
  }

  /** Every one of the first n phrases yields its part. */
  ghost predicate AllPartsOk(ps: seq<PhraseNode>, input: Value, n: nat)
    requires n <= |ps| && forall i :: 0 <= i < |ps| ==> Renders(ps[i])
  {
    forall i :: 0 <= i < n ==> Contribution(ps, i, input).Ok?
  }

  /** The general branch succeeds exactly when every phrase's part does. */
  lemma {:induction false} CombineSucceeds(ps: seq<PhraseNode>, input: Value, n: nat)
    requires n <= |ps| && forall i :: 0 <= i < |ps| ==> Renders(ps[i])
    ensures Combine(ps, input, n).Ok? <==> AllPartsOk(ps, input, n)
    decreases n
  {
    if n > 0 {
      CombineSucceeds(ps, input, n - 1);
      CombineStep(ps, input, n);
      PartsOkStep(ps, input, n);
      IffStep(Combine(ps, input, n).Ok?, Combine(ps, input, n - 1).Ok?,
              AllPartsOk(ps, input, n), AllPartsOk(ps, input, n - 1), Contribution(ps, n - 1, input).Ok?);
    }
  }

  lemma IffStep(a: bool, a1: bool, b: bool, b1: bool, c: bool)
    requires (a <==> a1 && c) && (b <==> b1 && c) && (a1 <==> b1)
    ensures a <==> b
  {
  }

  lemma {:induction false} CombineStep(ps: seq<PhraseNode>, input: Value, n: nat)
    requires 0 < n <= |ps| && forall i :: 0 <= i < |ps| ==> Renders(ps[i])
    ensures Combine(ps, input, n).Ok? <==> Combine(ps, input, n - 1).Ok? && Contribution(ps, n - 1, input).Ok?
  {
  }

  lemma {:induction false} PartsOkStep(ps: seq<PhraseNode>, input: Value, n: nat)
    requires 0 < n <= |ps| && forall i :: 0 <= i < |ps| ==> Renders(ps[i])
    ensures AllPartsOk(ps, input, n) <==> AllPartsOk(ps, input, n - 1) && Contribution(ps, n - 1, input).Ok?
  {
  }

  /** When it succeeds, the general branch gives the union of the parts. */
  lemma {:induction false} CombineIsUnion(ps: seq<PhraseNode>, input: Value, n: nat)
    requires n <= |ps| && forall i :: 0 <= i < |ps| ==> Renders(ps[i])
    requires Combine(ps, input, n).Ok?
    ensures Combine(ps, input, n).value == Union(Parts(ps, input, n))
    decreases n
  {
    if n > 0 {
      var acc := Combine(ps, input, n - 1);
      var c := Contribution(ps, n - 1, input);
      assert acc.Ok? && c.Ok? && Combine(ps, input, n).value == acc.value + c.value;
      CombineIsUnion(ps, input, n - 1);
      var parts := Parts(ps, input, n);
      assert parts[..n - 1] == Parts(ps, input, n - 1);
      assert PartOf(ps, input, n - 1) == c.value;
    }
  }

  /** Part i of the parts is the part of phrase i. */
  lemma {:induction false} PartsAt(ps: seq<PhraseNode>, input: Value, n: nat, i: nat)
    requires n <= |ps| && forall i :: 0 <= i < |ps| ==> Renders(ps[i])
    requires i < n
    ensures Parts(ps, input, n)[i] == PartOf(ps, input, i)
    decreases n
  {
    if i < n - 1 {
      PartsAt(ps, input, n - 1, i);
    }
  }

  /**
   * In the general branch a top-level key comes from some phrase's part, and
   * holds the value of the last phrase whose part has it.
   */
  lemma {:induction false} LaterPhraseWins(ps: seq<PhraseNode>, input: Value, i: nat, k: string)
    requires forall j :: 0 <= j < |ps| ==> Renders(ps[j])
    requires Combine(ps, input, |ps|).Ok?
    requires i < |ps| && k in PartOf(ps, input, i)
    requires forall j :: i < j < |ps| ==> k !in PartOf(ps, input, j)
    ensures k in Combine(ps, input, |ps|).value
    ensures Combine(ps, input, |ps|).value[k] == PartOf(ps, input, i)[k]
  {
    var parts := Parts(ps, input, |ps|);
    CombineIsUnion(ps, input, |ps|);
    forall j | 0 <= j < |ps|
      ensures parts[j] == PartOf(ps, input, j)
    {
      PartsAt(ps, input, |ps|, j);
    }
    UnionLastWins(parts);
  }

  /** No phrases give {}. */
  lemma {:induction false} EmptyProgram(input: Value)
    ensures Eval(Program([]), input) == Ok(EmptyObject())
  {
  }

  /** where.id.in nests the array three keys deep. */
  lemma {:induction false} WhereNest(mapped: Value)
    ensures Obj(Where(mapped)) == Nest(["where", "id", "in"], mapped)
  {
    var path: seq<string> := ["where", "id", "in"];
    assert path[1..] == ["id"] + ["in"];
    NestAppend(["id"], "in", mapped);
  }

  lemma {:induction false} ContributionPluck(ps: seq<PhraseNode>, i: nat, input: Value)
    requires i < |ps| && ps[i].kind == MapPhrase && SinglePluck(Tail(ps[i]))
    requires PluckDistinct(input, Tail(ps[i])[0].property).Ok?
    ensures var mapped := Arr(PluckDistinct(input, Tail(ps[i])[0].property).value);
            var path := PrecedingPaths(ps[..i]);
            Contribution(ps, i, input) == Ok(if |path| > 0 then Nest(path, In(mapped)).fields else Where(mapped))
  {
  }

  /**
   * The array of a "$>#prop" phrase among others sits under "in", below the path
   * names of all the phrases before it, or under where.id.in when there are none.
   */
  lemma {:induction false} MapPartPlacement(ps: seq<PhraseNode>, i: nat, input: Value)
    requires i < |ps| && ps[i].kind == MapPhrase && SinglePluck(Tail(ps[i]))
    requires PluckDistinct(input, Tail(ps[i])[0].property).Ok?
    ensures Contribution(ps, i, input).Ok?
    ensures var mapped := Arr(PluckDistinct(input, Tail(ps[i])[0].property).value);
            var path := PrecedingPaths(ps[..i]);
            Dig(Obj(Contribution(ps, i, input).value), if |path| > 0 then path + ["in"] else ["where", "id", "in"])
              == Some(mapped)
  {
    var mapped := Arr(PluckDistinct(input, Tail(ps[i])[0].property).value);
    var path := PrecedingPaths(ps[..i]);
    ContributionPluck(ps, i, input);
    if |path| > 0 {
      NestAppend(path, "in", mapped);
      DigNest(path + ["in"], mapped);
    } else {
      DigNest(["where", "id", "in"], mapped);
      WhereNest(mapped);
    }
  }
}
