/**
 * What the JavaScript that lib/generator.js emits computes.
 *
 * generateProgram picks one of six shapes of code from the parsed program and
 * fills it with the phrases' names; the resulting transform(input) is then run
 * on an input value. Eval(program, input) gives that run's result directly: a
 * value, a TypeError from reading a property of undefined or null, or the
 * GenerationError that generateProgram itself throws for some malformed map
 * phrases. Each method below follows one loop of the generator or of the
 * emitted code and is proved to compute the corresponding function.
 */
module Generator {
  import opened Wrappers
  import opened Json
  import opened Parsing

  // ---------------------------------------------------------------------------
  // Reading the tree the way generateProgram does.

  /** segments.slice(1): everything after the first segment, which a map phrase takes to be "$>". */
  function Tail(p: PhraseNode): seq<Segment> {
    if |p.segments| == 0 then [] else p.segments[1..]
  }

  /** segment.property as a template literal prints it: "undefined" when the segment has none. */
  function PropertyName(seg: Segment): string {
    if seg.PropertyAccess? then seg.property else "undefined"
  }

  /** The values of the PathSegments among segs, in order. */
  function PathNames(segs: seq<Segment>): seq<string> {
    if |segs| == 0 then []
    else
      var last := segs[|segs| - 1];
      PathNames(segs[..|segs| - 1]) + (if last.PathSegment? then [last.value] else [])
  }

  /** The values of the PathSegments of all the given phrases, phrase by phrase. */
  function PrecedingPaths(ps: seq<PhraseNode>): seq<string> {
    if |ps| == 0 then [] else PrecedingPaths(ps[..|ps| - 1]) + PathNames(ps[|ps| - 1].segments)
  }

  /** A tail that is a single PropertyAccess: "$>#prop". */
  predicate SinglePluck(segs: seq<Segment>) {
    |segs| == 1 && segs[0].PropertyAccess?
  }

  /** generatePhrase does not throw for p: a value phrase has a last segment to read. */
  predicate Renders(p: PhraseNode) {
    p.kind == ValuePhrase ==> |p.segments| > 0
  }

  // ---------------------------------------------------------------------------
  // "$>#prop" with deduplication, as emitted by the second branch of
  // generateProgram and for such map phrases among several phrases.

  /** The array elements of a value, or the value alone. */
  function Splice(v: Value): seq<Value> {
    if v.Arr? then v.items else [v]
  }

  /** input[i][prop] for every element, with array values spliced in one level. */
  function Spliced(items: seq<Value>, prop: string): (r: Result<seq<Value>, EvalError>)
    ensures r.Err? ==> r.error == TypeError
  {
    if |items| == 0 then Ok([])
    else
      var front :- Spliced(items[..|items| - 1], prop);
      var v :- Prop(items[|items| - 1], prop);
      Ok(front + Splice(v))
  }

  /** seen.has(v): an array or object read from the input is a fresh reference, never seen before. */
  predicate SeenBefore(seen: set<Value>, v: Value) {
    IsScalar(v) && v in seen
  }

  /** The first occurrence of every scalar, and every array and object, in order. */
  function Distinct(xs: seq<Value>): seq<Value> {
    if |xs| == 0 then []
    else
      var front := xs[..|xs| - 1];
      var x := xs[|xs| - 1];
      if IsScalar(x) && x in front then Distinct(front) else Distinct(front) + [x]
  }

  function PluckDistinct(input: Value, prop: string): (r: Result<seq<Value>, EvalError>)
    ensures r.Err? ==> r.error == TypeError
  {
    var items :- Elements(input);
    var vs :- Spliced(items, prop);
    Ok(Distinct(vs))
  }

  // ---------------------------------------------------------------------------
  // generateMapPhrase, and the objects built per element.

  /** currentKey || 'id' */
  function KeyOr(current: Option<string>): string {
    if current.Some? && current.value != "" then current.value else "id"
  }

  /** The objProperties loop of generateMapPhrase, resumed at segs with currentKey current. */
  function Groups(segs: seq<Segment>, current: Option<string>): seq<(string, string)> {
    if |segs| == 0 then []
    else
      match segs[0]
      case PathSegment(v, _) => Groups(segs[1..], Some(v))
      case PropertyAccess(prop, _) => [(KeyOr(current), prop)] + Groups(segs[1..], None)
      case _ => Groups(segs[1..], current)
  }

  /** The object made for one element: each key gets item[prop], in order, so a repeated key keeps the last. */
  function Row(props: seq<(string, string)>, item: Value): (r: Result<map<string, Value>, EvalError>)
    ensures r.Err? ==> r.error == TypeError
  {
    if |props| == 0 then Ok(map[])
    else
      var front :- Row(props[..|props| - 1], item);
      var v :- Prop(item, props[|props| - 1].1);
      Ok(front[props[|props| - 1].0 := v])
  }

  function Rows(props: seq<(string, string)>, items: seq<Value>): (r: Result<seq<Value>, EvalError>)
    ensures r.Err? ==> r.error == TypeError
  {
    if |items| == 0 then Ok([])
    else
      var front :- Rows(props, items[..|items| - 1]);
      var row :- Row(props, items[|items| - 1]);
      Ok(front + [Obj(row)])
  }

  /** input[i][prop] for every element, as the plain pluck of generateMapPhrase pushes it. */
  function Plucked(items: seq<Value>, prop: string): (r: Result<seq<Value>, EvalError>)
    ensures r.Err? ==> r.error == TypeError
  {
    if |items| == 0 then Ok([])
    else
      var front :- Plucked(items[..|items| - 1], prop);
      var v :- Prop(items[|items| - 1], prop);
      Ok(front + [v])
  }

  function MapPhraseValue(p: PhraseNode, input: Value): (r: Result<Value, EvalError>)
    ensures r.Err? ==> r.error == TypeError
  {
    var segs := Tail(p);
    var items :- Elements(input);
    if SinglePluck(segs) then
      var vs :- Plucked(items, segs[0].property);
      Ok(Arr(vs))
    else
      var rows :- Rows(Groups(segs, None), items);
      Ok(Arr(rows))
  }

  // ---------------------------------------------------------------------------
  // generateValuePhrase and generateObjectPhrase.

  function LiteralValue(lit: Literal): Value {
    match lit
    case NumberLiteral(r) => Num(r)
    case StringLiteral(t) => Str(t)
  }

  /** valueSegment.key as printed into the object literal. */
  function AssignedKey(seg: Segment): string {
    if seg.ValueAssignment? then seg.key else "undefined"
  }

  /** valueSegment.value: a quoted string, a number, or undefined. */
  function AssignedValue(seg: Segment): Value {
    match seg
    case ValueAssignment(_, lit, _) => LiteralValue(lit)
    case PathSegment(v, _) => Str(v)
    case _ => Undefined
  }

  /** { key: value } under one key per PathSegment before the last segment, outermost first. */
  function ValuePhraseValue(p: PhraseNode): Value
    requires |p.segments| > 0
  {
    var last := p.segments[|p.segments| - 1];
    Nest(PathNames(p.segments[..|p.segments| - 1]), Obj(map[AssignedKey(last) := AssignedValue(last)]))
  }

  /** The loop of generateObjectPhrase, resumed at segs with the path collected so far. */
  function ObjectFrom(segs: seq<Segment>, path: seq<string>, input: Value): (r: Result<Value, EvalError>)
    ensures r.Err? ==> r.error == TypeError
  {
    if |segs| == 0 then Ok(EmptyObject())
    else
      match segs[0]
      case PathSegment(v, _) => ObjectFrom(segs[1..], path + [v], input)
      case InputReference(_) => Ok(Nest(path, input))
      case PropertyAccess(prop, _) =>
        var v :- Prop(input, prop);
        Ok(Nest(path, v))
      case _ => ObjectFrom(segs[1..], path, input)
  }

  function ObjectPhraseValue(p: PhraseNode, input: Value): (r: Result<Value, EvalError>)
    ensures r.Err? ==> r.error == TypeError
  {
    ObjectFrom(p.segments, [], input)
  }

  /** generatePhrase: the three phrase types. */
  function PhraseValue(p: PhraseNode, input: Value): (r: Result<Value, EvalError>)
    requires Renders(p)
    ensures r.Err? ==> r.error == TypeError
  {
    match p.kind
    case ValuePhrase => Ok(ValuePhraseValue(p))
    case MapPhrase => MapPhraseValue(p, input)
    case Phrase => ObjectPhraseValue(p, input)
  }

  // ---------------------------------------------------------------------------
  // The branch for several map phrases: one (key, property) pair per phrase.

  /** What generateProgram reads from one map phrase, or None where it throws. */
  function AllMapsPair(p: PhraseNode): Option<(string, string)> {
    var segs := Tail(p);
    if |segs| == 0 then None
    else if segs[0].PathSegment? then
      if |segs| < 2 then None else Some((segs[0].value, PropertyName(segs[1])))
    else
      Some(("id", PropertyName(segs[0])))
  }

  function AllMapsPairs(ps: seq<PhraseNode>): (r: Option<seq<(string, string)>>)
    ensures r.Some? ==> |r.value| == |ps|
  {
    if |ps| == 0 then Some([])
    else
      match AllMapsPairs(ps[..|ps| - 1])
      case None => None
      case Some(front) =>
        match AllMapsPair(ps[|ps| - 1])
        case None => None
        case Some(pair) => Some(front + [pair])
  }

  // ---------------------------------------------------------------------------
  // The general branch: parts spread into one result object.

  /** { in: mapped } */
  function In(mapped: Value): Value {
    Obj(map["in" := mapped])
  }

  /** The fields of { where: { id: { in: mapped } } }. */
  function Where(mapped: Value): map<string, Value> {
    map["where" := Nest(["id"], In(mapped))]
  }

  /** The fields that phrase i adds to the result. */
  function Contribution(ps: seq<PhraseNode>, i: nat, input: Value): (r: Result<map<string, Value>, EvalError>)
    requires i < |ps| && Renders(ps[i])
    ensures r.Err? ==> r.error == TypeError
  {
    var p := ps[i];
    if p.kind == MapPhrase then
      var segs := Tail(p);
      if SinglePluck(segs) then
        var mapped :- PluckDistinct(input, segs[0].property);
        var path := PrecedingPaths(ps[..i]);
        if |path| > 0 then Ok(Nest(path, In(Arr(mapped))).fields) else Ok(Where(Arr(mapped)))
      else
        var mapped :- MapPhraseValue(p, input);
        Ok(Where(mapped))
    else
      var part :- PhraseValue(p, input);
      Ok(Spread(part))
  }

  /** result after the first n phrases: { ...result, ...part } each time, from {}. */
  function Combine(ps: seq<PhraseNode>, input: Value, n: nat): (r: Result<map<string, Value>, EvalError>)
    requires n <= |ps| && forall i :: 0 <= i < |ps| ==> Renders(ps[i])
    ensures r.Err? ==> r.error == TypeError
  {
    if n == 0 then Ok(map[])
    else
      var acc :- Combine(ps, input, n - 1);
      var c :- Contribution(ps, n - 1, input);
      Ok(acc + c)
  }

  // ---------------------------------------------------------------------------
  // generateProgram: the six branches, checked in the source's order.

  predicate IsIdentity(ps: seq<PhraseNode>) {
    |ps| == 1 && |ps[0].segments| == 1 && ps[0].segments[0].InputReference?
  }

  predicate IsDistinctPluck(ps: seq<PhraseNode>) {
    |ps| == 1 && ps[0].kind == MapPhrase && |ps[0].segments| == 2 && ps[0].segments[1].PropertyAccess?
  }

  predicate IsAllMaps(ps: seq<PhraseNode>) {
    |ps| > 1 && forall i :: 0 <= i < |ps| ==> ps[i].kind == MapPhrase
  }

  function Eval(prog: Program, input: Value): Result<Value, EvalError> {
    var ps := prog.phrases;
    if IsIdentity(ps) then
      Ok(input)
    else if IsDistinctPluck(ps) then
      var vs :- PluckDistinct(input, ps[0].segments[1].property);
      Ok(Arr(vs))
    else if IsAllMaps(ps) then
      match AllMapsPairs(ps)
      case None => Err(GenerationError)
      case Some(props) =>
        var items :- Elements(input);
        var rows :- Rows(props, items);
        Ok(Arr(rows))
    else if |ps| == 1 && ps[0].kind == MapPhrase then
      MapPhraseValue(ps[0], input)
    else if |ps| == 1 then
      if !Renders(ps[0]) then Err(GenerationError) else PhraseValue(ps[0], input)
    else if exists i :: 0 <= i < |ps| && !Renders(ps[i]) then
      Err(GenerationError)
    else
      var m :- Combine(ps, input, |ps|);
      Ok(Obj(m))
  }

  // ---------------------------------------------------------------------------
  // The loops.

  /** seen and result after visiting done: seen holds exactly the scalars met, result the first occurrences. */
  ghost predicate Tracks(seen: set<Value>, result: seq<Value>, done: seq<Value>) {
    result == Distinct(done) && forall x :: IsScalar(x) ==> (x in seen <==> x in done)
  }

  /** `if (!seen.has(v)) { seen.add(v); result.push(v) }` */
  method Visit(seen: set<Value>, result: seq<Value>, ghost done: seq<Value>, v: Value)
    returns (seen': set<Value>, result': seq<Value>)
    requires Tracks(seen, result, done)
    ensures Tracks(seen', result', done + [v])
  {
    DistinctSnoc(done, v);
    if !SeenBefore(seen, v) {
      seen' := seen + {v};
      result' := result + [v];
    } else {
      seen' := seen;
      result' := result;
    }
  }

  /** Visit every element of vs in turn. */
  method VisitAll(seen: set<Value>, result: seq<Value>, ghost done: seq<Value>, vs: seq<Value>)
    returns (seen': set<Value>, result': seq<Value>)
    requires Tracks(seen, result, done)
    ensures Tracks(seen', result', done + vs)
  {
    seen', result' := seen, result;
    assert done + vs[..0] == done;
    for j := 0 to |vs|
      invariant Tracks(seen', result', done + vs[..j])
    {
      seen', result' := Visit(seen', result', done + vs[..j], vs[j]);
      assert done + vs[..j + 1] == done + vs[..j] + [vs[j]];
    }
    assert vs[..|vs|] == vs;
  }

  /** The code emitted for "$>#prop": walk the input, splice arrays, skip what was seen. */
  method CollectDistinct(input: Value, prop: string) returns (r: Result<seq<Value>, EvalError>)
    ensures r == PluckDistinct(input, prop)
  {
    var elements := Elements(input);
    if elements.Err? {
      return Err(elements.error);
    }
    var items := elements.value;
    var result: seq<Value> := [];
    var seen: set<Value> := {};
    ghost var done: seq<Value> := [];
    for i := 0 to |items|
      invariant Spliced(items[..i], prop) == Ok(done)
      invariant Tracks(seen, result, done)
    {
      var value := Prop(items[i], prop);
      if value.Err? {
        SplicedFailsFrom(items, i + 1, prop);
        return Err(value.error);
      }
      assert items[..i + 1][..i] == items[..i];
      seen, result := VisitAll(seen, result, done, Splice(value.value));
      done := done + Splice(value.value);
    }
    assert items[..|items|] == items;
    return Ok(result);
  }

  /** The objects emitted per element: item[key] = input[i][prop] for each pair, pushed in order. */
  method BuildRows(props: seq<(string, string)>, input: Value) returns (r: Result<seq<Value>, EvalError>)
    ensures r == (var items :- Elements(input); Rows(props, items))
  {
    var elements := Elements(input);
    if elements.Err? {
      return Err(elements.error);
    }
    var items := elements.value;
    var result: seq<Value> := [];
    for i := 0 to |items|
      invariant Rows(props, items[..i]) == Ok(result)
    {
      assert items[..i + 1][..i] == items[..i];
      var item: map<string, Value> := map[];
      for k := 0 to |props|
        invariant Row(props[..k], items[i]) == Ok(item)
      {
        assert props[..k + 1][..k] == props[..k];
        var v := Prop(items[i], props[k].1);
        if v.Err? {
          RowFailsFrom(props, k + 1, items[i]);
          assert props[..|props|] == props;
          RowsFailsFrom(props, items, i + 1);
          return Err(v.error);
        }
        item := item[props[k].0 := v.value];
      }
      assert props[..|props|] == props;
      result := result + [Obj(item)];
    }
    assert items[..|items|] == items;
    return Ok(result);
  }

  /** The objProperties loop of generateMapPhrase. */
  method ObjectProperties(segments: seq<Segment>) returns (props: seq<(string, string)>)
    ensures props == Groups(segments, None)
  {
    props := [];
    var currentKey: Option<string> := None;
    for i := 0 to |segments|
      invariant props + Groups(segments[i..], currentKey) == Groups(segments, None)
    {
      assert segments[i..][1..] == segments[i + 1..];
      match segments[i]
      case PathSegment(v, _) =>
        currentKey := Some(v);
      case PropertyAccess(prop, _) =>
        props := props + [(KeyOr(currentKey), prop)];
        currentKey := None;
      case _ =>
    }
    assert props + [] == props;
  }

  /** The loop of the plain pluck that generateMapPhrase emits: it pushes item[prop] for every element. */
  method PluckEach(items: seq<Value>, prop: string) returns (r: Result<seq<Value>, EvalError>)
    ensures r == Plucked(items, prop)
  {
    var result: seq<Value> := [];
    for i := 0 to |items|
      invariant Plucked(items[..i], prop) == Ok(result)
    {
      assert items[..i + 1][..i] == items[..i];
      var v := Prop(items[i], prop);
      if v.Err? {
        PluckedFailsFrom(items, i + 1, prop);
        return Err(v.error);
      }
      result := result + [v.value];
    }
    assert items[..|items|] == items;
    return Ok(result);
  }

  /** The emitted row loop when no property is read: one {} per element. */
  method EmptyRows(items: seq<Value>) returns (result: seq<Value>)
    ensures Rows([], items) == Ok(result)
  {
    result := [];
    for i := 0 to |items|
      invariant Rows([], items[..i]) == Ok(result)
    {
      assert items[..i + 1][..i] == items[..i];
      result := result + [EmptyObject()];
    }
    assert items[..|items|] == items;
  }

  /** generateMapPhrase and the code it emits. */
  method EvalMapPhrase(p: PhraseNode, input: Value) returns (r: Result<Value, EvalError>)
    ensures r == MapPhraseValue(p, input)
  {
    var segments := Tail(p);
    if |segments| == 1 && segments[0].PropertyAccess? {
      var elements := Elements(input);
      if elements.Err? {
        return Err(elements.error);
      }
      var result := PluckEach(elements.value, segments[0].property);
      if result.Err? {
        return Err(result.error);
      }
      return Ok(Arr(result.value));
    }
    var objProperties := ObjectProperties(segments);
    if |objProperties| == 0 {
      var elements := Elements(input);
      if elements.Err? {
        return Err(elements.error);
      }
      var result := EmptyRows(elements.value);
      return Ok(Arr(result));
    }
    var rows := BuildRows(objProperties, input);
    if rows.Err? {
      return Err(rows.error);
    }
    return Ok(Arr(rows.value));
  }

  /** generateValuePhrase: wrap { key: value } from the innermost PathSegment out. */
  method EvalValuePhrase(p: PhraseNode) returns (v: Value)
    requires |p.segments| > 0
    ensures v == ValuePhraseValue(p)
  {
    var segments := p.segments;
    var valueSegment := segments[|segments| - 1];
    var pathSegments := segments[..|segments| - 1];
    var inner := Obj(map[AssignedKey(valueSegment) := AssignedValue(valueSegment)]);
    var result := inner;
    var i := |pathSegments|;
    while i > 0
      invariant 0 <= i <= |pathSegments|
      invariant result == Nest(PathNames(pathSegments[i..]), inner)
    {
      i := i - 1;
      NestPathNamesCons(pathSegments[i..], inner);
      assert pathSegments[i..][1..] == pathSegments[i + 1..];
      if pathSegments[i].PathSegment? {
        result := Obj(map[pathSegments[i].value := result]);
      }
    }
    assert pathSegments[0..] == pathSegments;
    return result;
  }

  /** Wrap a value in single-key objects, innermost key last in the path. */
  method Wrap(path: seq<string>, target: Value) returns (value: Value)
    ensures value == Nest(path, target)
  {
    value := target;
    var j := |path|;
    while j > 0
      invariant 0 <= j <= |path|
      invariant value == Nest(path[j..], target)
    {
      j := j - 1;
      assert path[j..][1..] == path[j + 1..];
      value := Obj(map[path[j] := value]);
    }
    assert path[0..] == path;
  }

  /** generateObjectPhrase: collect the path up to the first "$" or "#prop", then wrap that target. */
  method EvalObjectPhrase(p: PhraseNode, input: Value) returns (r: Result<Value, EvalError>)
    ensures r == ObjectPhraseValue(p, input)
  {
    var segments := p.segments;
    var currentPath: seq<string> := [];
    for i := 0 to |segments|
      invariant ObjectFrom(segments[i..], currentPath, input) == ObjectFrom(segments, [], input)
    {
      assert segments[i..][1..] == segments[i + 1..];
      var segment := segments[i];
      if segment.PathSegment? {
        currentPath := currentPath + [segment.value];
      } else if segment.InputReference? || segment.PropertyAccess? {
        var target: Value;
        if segment.InputReference? {
          target := input;
        } else {
          var v := Prop(input, segment.property);
          if v.Err? {
            return Err(v.error);
          }
          target := v.value;
        }
        var value := Wrap(currentPath, target);
        return Ok(value);
      }
    }
    return Ok(EmptyObject());
  }

  /** generatePhrase */
  method EvalPhrase(p: PhraseNode, input: Value) returns (r: Result<Value, EvalError>)
    requires Renders(p)
    ensures r == PhraseValue(p, input)
  {
    match p.kind
    case ValuePhrase =>
      var v := EvalValuePhrase(p);
      return Ok(v);
    case MapPhrase =>
      r := EvalMapPhrase(p, input);
    case Phrase =>
      r := EvalObjectPhrase(p, input);
  }

  /** The generation loop of the several-map-phrases branch. */
  method AllMapsProperties(ps: seq<PhraseNode>) returns (r: Option<seq<(string, string)>>)
    ensures r == AllMapsPairs(ps)
  {
    var props: seq<(string, string)> := [];
    for i := 0 to |ps|
      invariant AllMapsPairs(ps[..i]) == Some(props)
    {
      assert ps[..i + 1][..i] == ps[..i];
      var segments := Tail(ps[i]);
      if |segments| == 0 {
        AllMapsPairsFailsFrom(ps, i + 1);
        return None;
      }
      if segments[0].PathSegment? {
        if |segments| < 2 {
          AllMapsPairsFailsFrom(ps, i + 1);
          return None;
        }
        props := props + [(segments[0].value, PropertyName(segments[1]))];
      } else {
        props := props + [("id", PropertyName(segments[0]))];
      }
    }
    assert ps[..|ps|] == ps;
    return Some(props);
  }

  /** The pathSegments loop: every PathSegment of the phrases before phrase i. */
  method PrecedingPathSegments(ps: seq<PhraseNode>, i: nat) returns (names: seq<string>)
    requires i <= |ps|
    ensures names == PrecedingPaths(ps[..i])
  {
    names := [];
    for j := 0 to i
      invariant names == PrecedingPaths(ps[..j])
    {
      assert ps[..j + 1][..j] == ps[..j];
      var segments := ps[j].segments;
      for k := 0 to |segments|
        invariant names == PrecedingPaths(ps[..j]) + PathNames(segments[..k])
      {
        assert segments[..k + 1][..k] == segments[..k];
        if segments[k].PathSegment? {
          names := names + [segments[k].value];
        }
      }
      assert segments[..|segments|] == segments;
    }
  }

  /** The object the general branch spreads for "$>#prop": { p0: ... { pn: { in: mapped } } }. */
  method NestUnderPath(path: seq<string>, mapped: Value) returns (obj: Value)
    requires |path| > 0
    ensures obj == Nest(path, In(mapped))
  {
    obj := mapped;
    var j := |path|;
    while j > 0
      invariant 0 <= j <= |path|
      invariant j == |path| ==> obj == mapped
      invariant j < |path| ==> obj == Nest(path[j..], In(mapped))
    {
      j := j - 1;
      assert path[j..][1..] == path[j + 1..];
      if j == |path| - 1 {
        obj := Obj(map[path[j] := Obj(map["in" := obj])]);
      } else {
        obj := Obj(map[path[j] := obj]);
      }
    }
    assert path[0..] == path;
  }

  /** The general branch: each phrase's part spread over the result, from {}. */
  method CombinePhrases(ps: seq<PhraseNode>, input: Value) returns (r: Result<map<string, Value>, EvalError>)
    requires forall i :: 0 <= i < |ps| ==> Renders(ps[i])
    ensures r == Combine(ps, input, |ps|)
  {
    var result: map<string, Value> := map[];
    for i := 0 to |ps|
      invariant Combine(ps, input, i) == Ok(result)
    {
      var part := PhrasePart(ps, i, input);
      if part.Err? {
        CombineFailsFrom(ps, input, i + 1);
        return Err(part.error);
      }
      result := result + part.value;
    }
    return Ok(result);
  }

  /** One pass of the loop in the general branch: the part that phrase i spreads over the result. */
  method PhrasePart(ps: seq<PhraseNode>, i: nat, input: Value) returns (r: Result<map<string, Value>, EvalError>)
    requires i < |ps| && Renders(ps[i])
    ensures r == Contribution(ps, i, input)
  {
    var phrase := ps[i];
    var part: map<string, Value>;
    if phrase.kind == MapPhrase {
      var pathSegments := PrecedingPathSegments(ps, i);
      var segments := Tail(phrase);
      if |segments| == 1 && segments[0].PropertyAccess? {
        var mapped := CollectDistinct(input, segments[0].property);
        if mapped.Err? {
          return Err(mapped.error);
        }
        if |pathSegments| > 0 {
          var obj := NestUnderPath(pathSegments, Arr(mapped.value));
          part := obj.fields;
        } else {
          part := Where(Arr(mapped.value));
        }
      } else {
        var mapped := EvalMapPhrase(phrase, input);
        if mapped.Err? {
          return Err(mapped.error);
        }
        part := Where(mapped.value);
      }
    } else {
      var value := EvalPhrase(phrase, input);
      if value.Err? {
        return Err(value.error);
      }
      part := Spread(value.value);
    }
    return Ok(part);
  }

  /** generateProgram followed by a run of the generated transform on input. */
  method Transform(prog: Program, input: Value) returns (r: Result<Value, EvalError>)
    ensures r == Eval(prog, input)
  {
    var ps := prog.phrases;
    if |ps| == 1 && |ps[0].segments| == 1 && ps[0].segments[0].InputReference? {
      return Ok(input);
    }
    if |ps| == 1 && ps[0].kind == MapPhrase && |ps[0].segments| == 2 && ps[0].segments[1].PropertyAccess? {
      var vs := CollectDistinct(input, ps[0].segments[1].property);
      if vs.Err? {
        return Err(vs.error);
      }
      return Ok(Arr(vs.value));
    }
    if |ps| > 1 && forall i :: 0 <= i < |ps| ==> ps[i].kind == MapPhrase {
      var props := AllMapsProperties(ps);
      if props.None? {
        return Err(GenerationError);
      }
      var rows := BuildRows(props.value, input);
      if rows.Err? {
        return Err(rows.error);
      }
      return Ok(Arr(rows.value));
    }
    if |ps| == 1 && ps[0].kind == MapPhrase {
      r := EvalMapPhrase(ps[0], input);
      return;
    }
    if |ps| == 1 {
      if !Renders(ps[0]) {
        return Err(GenerationError);
      }
      r := EvalPhrase(ps[0], input);
      return;
    }
    if exists i :: 0 <= i < |ps| && !Renders(ps[i]) {
      return Err(GenerationError);
    }
    var m := CombinePhrases(ps, input);
    if m.Err? {
      return Err(m.error);
    }
    return Ok(Obj(m.value));
  }

  // ---------------------------------------------------------------------------
  // Helper lemmas for the loops: a failure in a prefix is the failure of the whole.

  lemma {:induction false} SplicedFailsFrom(items: seq<Value>, k: nat, prop: string)
    requires k <= |items| && Spliced(items[..k], prop).Err?
    ensures Spliced(items, prop).Err?
    decreases |items| - k
  {
    if k < |items| {
      assert items[..k + 1][..k] == items[..k];
      SplicedFailsFrom(items, k + 1, prop);
    } else {
      assert items[..k] == items;
    }
  }

  lemma {:induction false} PluckedFailsFrom(items: seq<Value>, k: nat, prop: string)
    requires k <= |items| && Plucked(items[..k], prop).Err?
    ensures Plucked(items, prop).Err?
    decreases |items| - k
  {
    if k < |items| {
      assert items[..k + 1][..k] == items[..k];
      PluckedFailsFrom(items, k + 1, prop);
    } else {
      assert items[..k] == items;
    }
  }

  lemma {:induction false} RowFailsFrom(props: seq<(string, string)>, k: nat, item: Value)
    requires k <= |props| && Row(props[..k], item).Err?
    ensures Row(props, item).Err?
    decreases |props| - k
  {
    if k < |props| {
      assert props[..k + 1][..k] == props[..k];
      RowFailsFrom(props, k + 1, item);
    } else {
      assert props[..k] == props;
    }
  }

  lemma {:induction false} RowsFailsFrom(props: seq<(string, string)>, items: seq<Value>, k: nat)
    requires 0 < k <= |items| && Row(props, items[k - 1]).Err?
    ensures Rows(props, items).Err?
    decreases |items| - k
  {
    if k < |items| {
      RowsFailsFrom(props, items[..|items| - 1], k);
    }
  }

  lemma {:induction false} AllMapsPairsFailsFrom(ps: seq<PhraseNode>, k: nat)
    requires 0 < k <= |ps| && AllMapsPair(ps[k - 1]).None?
    ensures AllMapsPairs(ps).None?
    decreases |ps|
  {
    if k < |ps| {
      AllMapsPairsFailsFrom(ps[..|ps| - 1], k);
    }
  }

  lemma {:induction false} CombineFailsFrom(ps: seq<PhraseNode>, input: Value, k: nat)
    requires 0 < k <= |ps| && forall i :: 0 <= i < |ps| ==> Renders(ps[i])
    requires Contribution(ps, k - 1, input).Err?
    ensures Combine(ps, input, |ps|).Err?
  {
    CombineFailsAt(ps, input, k, |ps|);
  }

  lemma {:induction false} CombineFailsAt(ps: seq<PhraseNode>, input: Value, k: nat, n: nat)
    requires 0 < k <= n <= |ps| && forall i :: 0 <= i < |ps| ==> Renders(ps[i])
    requires Contribution(ps, k - 1, input).Err?
    ensures Combine(ps, input, n).Err?
    decreases n
  {
    if k < n {
      CombineFailsAt(ps, input, k, n - 1);
    }
    CombineErrStep(ps, input, n);
  }

  /** A failed result so far, or a failing part, fails the result after one more phrase. */
  lemma {:induction false} CombineErrStep(ps: seq<PhraseNode>, input: Value, n: nat)
    requires 0 < n <= |ps| && forall i :: 0 <= i < |ps| ==> Renders(ps[i])
    ensures Combine(ps, input, n - 1).Err? || Contribution(ps, n - 1, input).Err? ==> Combine(ps, input, n).Err?
  {
  }

  lemma {:induction false} DistinctSnoc(xs: seq<Value>, x: Value)
    ensures Distinct(xs + [x]) == if IsScalar(x) && x in xs then Distinct(xs) else Distinct(xs) + [x]
  {
    assert (xs + [x])[..|xs|] == xs;
  }

  /** PathNames taken from the front. */
  lemma {:induction false} PathNamesCons(segs: seq<Segment>)
    requires |segs| > 0
    ensures PathNames(segs) == (if segs[0].PathSegment? then [segs[0].value] else []) + PathNames(segs[1..])
    decreases |segs|
  {
    if |segs| > 1 {
      var front := segs[..|segs| - 1];
      PathNamesCons(front);
      assert front[1..] == segs[1..][..|segs| - 2];
      assert front[0] == segs[0];
    } else {
      assert segs[1..] == [];
      assert segs[..0] == [];
    }
  }

  lemma {:induction false} NestPathNamesCons(segs: seq<Segment>, inner: Value)
    requires |segs| > 0
    ensures Nest(PathNames(segs), inner)
         == if segs[0].PathSegment? then Obj(map[segs[0].value := Nest(PathNames(segs[1..]), inner)])
            else Nest(PathNames(segs[1..]), inner)
  {
    PathNamesCons(segs);
    var names := PathNames(segs);
    if segs[0].PathSegment? {
      assert names[0] == segs[0].value && names[1..] == PathNames(segs[1..]);
    } else {
      assert names == PathNames(segs[1..]);
    }
  }
}
