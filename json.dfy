/**
 * The JavaScript values that the generated transform(input) reads and builds,
 * restricted to what JSON can carry, and the few operations on them that the
 * generated code uses: reading a property, walking input.length, spreading an
 * object, and nesting single-key objects.
 */
module Json {
  import opened Wrappers

  /** Objects are unordered here: the source compares its results with deepEqual. */
  datatype Value =
    | Undefined
    | Null
    | Num(n: real)
    | Str(s: string)
    | Arr(items: seq<Value>)
    | Obj(fields: map<string, Value>)

  /**
   * Why a transform gives no value: generateProgram threw while building the
   * code, or the generated code read a property of undefined or null.
   */
  datatype EvalError = GenerationError | TypeError

  /** A value the generated code can only meet by value; arrays and objects are references. */
  predicate IsScalar(v: Value) {
    !v.Arr? && !v.Obj?
  }

  function EmptyObject(): Value {
    Obj(map[])
  }

  /**
   * v[key] for a key that is not an array index: undefined and null throw, an
   * object yields its field or undefined, arrays and strings have a length.
   */
  function Prop(v: Value, key: string): (r: Result<Value, EvalError>)
    ensures r.Err? <==> v.Undefined? || v.Null?
    ensures v.Obj? ==> r == Ok(if key in v.fields then v.fields[key] else Undefined)
  {
    match v
    case Undefined => Err(TypeError)
    case Null => Err(TypeError)
    case Obj(fields) => Ok(if key in fields then fields[key] else Undefined)
    case Arr(items) => Ok(if key == "length" then Num(|items| as real) else Undefined)
    case Str(s) => Ok(if key == "length" then Num(|s| as real) else Undefined)
    case Num(_) => Ok(Undefined)
  }

  /**
   * How many passes `for (i = 0; i < n; i++)` makes: the least count that is
   * not below n, so none when n <= 0.
   */
  function Passes(n: real): (k: nat)
    ensures n <= k as real
    ensures k == 0 || ((k - 1) as real) < n
  {
    if n <= 0.0 then 0
    else if n.Floor as real == n then n.Floor
    else n.Floor + 1
  }

  /**
   * input[0], ..., as the loop `for (i = 0; i < input.length; i++)` visits
   * them. Reading length of undefined or null throws; a number has no length,
   * so the loop does not run; an object runs it as often as its own numeric
   * length field says and reads its index keys, or undefined where missing.
   */
  function Elements(v: Value): (r: Result<seq<Value>, EvalError>)
    ensures r.Err? <==> v.Undefined? || v.Null?
    ensures v.Arr? ==> r == Ok(v.items)
    ensures v.Str? ==> r.Ok? && |r.value| == |v.s|
    ensures v.Num? ==> r == Ok([])
    ensures v.Obj? && "length" in v.fields && v.fields["length"].Num? ==>
      && r.Ok? && |r.value| == Passes(v.fields["length"].n)
      && forall i :: 0 <= i < |r.value| ==> Prop(v, IndexKey(i)) == Ok(r.value[i])
    ensures v.Obj? && ("length" !in v.fields || v.fields["length"] in {Undefined, Null} || v.fields["length"].Obj?) ==>
      r == Ok([])
  {
    match v
    case Undefined => Err(TypeError)
    case Null => Err(TypeError)
    case Arr(items) => Ok(items)
    case Str(s) => Ok(seq(|s|, i requires 0 <= i < |s| => Str([s[i]])))
    case Obj(fields) =>
      if "length" in fields && fields["length"].Num? then
        Ok(seq(Passes(fields["length"].n), i requires 0 <= i => if IndexKey(i) in fields then fields[IndexKey(i)] else Undefined))
      else Ok([])
    case Num(_) => Ok([])
  }

  function DigitChar(d: nat): char
    requires d < 10
  {
    "0123456789"[d]
  }

  /** The decimal text of an array index, the key it has once spread into an object. */
  function IndexKey(i: nat): (k: string)
    ensures |k| > 0
    decreases i
  {
    if i < 10 then [DigitChar(i)] else IndexKey(i / 10) + [DigitChar(i % 10)]
  }

  function IndexFields(xs: seq<Value>): map<string, Value> {
    if |xs| == 0 then map[]
    else IndexFields(xs[..|xs| - 1])[IndexKey(|xs| - 1) := xs[|xs| - 1]]
  }

  /**
   * The own enumerable properties that `{ ...v }` copies: an object's fields,
   * an array's or a string's elements under their index keys, nothing else.
   */
  function Spread(v: Value): (m: map<string, Value>)
    ensures v.Obj? ==> m == v.fields
    ensures IsScalar(v) && !v.Str? ==> m == map[]
  {
    match v
    case Obj(fields) => fields
    case Arr(items) => IndexFields(items)
    case Str(s) => IndexFields(seq(|s|, i requires 0 <= i < |s| => Str([s[i]])))
    case _ => map[]
  }

  /** { p0: { p1: ... { pn: v } } }, outermost key first; v itself for no keys. */
  function Nest(path: seq<string>, v: Value): (r: Value)
    ensures |path| > 0 ==> r.Obj? && r.fields.Keys == {path[0]}
  {
    if |path| == 0 then v else Obj(map[path[0] := Nest(path[1..], v)])
  }

  /** Wrapping a nest in one more key is nesting under the longer path. */
  lemma {:induction false} NestAppend(path: seq<string>, key: string, v: Value)
    ensures Nest(path + [key], v) == Nest(path, Obj(map[key := v]))
    decreases |path|
  {
    if |path| > 0 {
      assert (path + [key])[1..] == path[1..] + [key];
      NestAppend(path[1..], key, v);
    } else {
      assert path + [key] == [key];
    }
  }

  /** Following the path back down a nest finds the value that was nested. */
  function Dig(v: Value, path: seq<string>): Option<Value> {
    if |path| == 0 then Some(v)
    else if v.Obj? && path[0] in v.fields then Dig(v.fields[path[0]], path[1..])
    else None
  }

  lemma {:induction false} DigNest(path: seq<string>, v: Value)
    ensures Dig(Nest(path, v), path) == Some(v)
    decreases |path|
  {
    if |path| > 0 {
      DigNest(path[1..], v);
    }
  }
}
