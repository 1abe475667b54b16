/**
 * metaline.js, the earlier one-pass implementation: the text is split on ';',
 * each piece is scanned once into chunks (a key per '.', then an input chunk
 * at '$' or a value chunk at ':'), and the chunks are replayed over an input
 * to build nested single-key objects. The results of the pieces are folded
 * together with a merge function that the model takes as a parameter.
 */
module Metaline {
  import opened Wrappers
  import opened Json
  import Lexing
  import Parsing

  datatype Chunk = KeyChunk(key: string) | InputChunk | ValueChunk(key: string, value: Value)

  // ---------------------------------------------------------------------------
  // str.split(sep)

  /** The pieces of s between occurrences of sep; there is always at least one. */
  function Split(s: string, sep: char): (r: seq<string>)
    ensures |r| > 0
  {
    if |s| == 0 then [""]
    else
      var front := Split(s[..|s| - 1], sep);
      var c := s[|s| - 1];
      if c == sep then front + [""]
      else front[..|front| - 1] + [front[|front| - 1] + [c]]
  }

  /** One more character: a separator opens a new piece, anything else extends the last one. */
  lemma {:induction false} SplitSnoc(s: string, c: char, sep: char)
    ensures var p := Split(s, sep);
            Split(s + [c], sep) == if c == sep then p + [""] else p[..|p| - 1] + [p[|p| - 1] + [c]]
  {
    assert (s + [c])[..|s|] == s;
  }

  /** pieces.join(sep) */
  function Join(pieces: seq<string>, sep: char): string
    requires |pieces| > 0
  {
    if |pieces| == 1 then pieces[0]
    else Join(pieces[..|pieces| - 1], sep) + [sep] + pieces[|pieces| - 1]
  }

  // ---------------------------------------------------------------------------
  // parseInt and parseFloat of the text after ':'.

  /** The length of the run of digits that s starts with. */
  function DigitRun(s: string): (n: nat)
    ensures n <= |s|
    ensures forall j :: 0 <= j < n ==> Lexing.IsDigit(s[j])
    ensures n < |s| ==> !Lexing.IsDigit(s[n])
  {
    if |s| == 0 || !Lexing.IsDigit(s[0]) then 0
    else
      var n := 1 + DigitRun(s[1..]);
      assert forall j :: 1 <= j < n ==> s[j] == s[1..][j - 1];
      n
  }

  /** A leading '-' or '+' as a factor, and the text after it. */
  function Sign(s: string): (real, string) {
    if |s| > 0 && s[0] == '-' then (-1.0, s[1..])
    else if |s| > 0 && s[0] == '+' then (1.0, s[1..])
    else (1.0, s)
  }

  /** parseInt(s): the signed run of leading digits, or None for NaN. */
  function IntPrefix(s: string): Option<real> {
    var (sign, rest) := Sign(s);
    var n := DigitRun(rest);
    if n == 0 then None else Some(sign * Parsing.DigitsValue(rest[..n]) as real)
  }

  /** parseFloat(s) where parseInt(s) is NaN: a signed '.' followed by digits, or None for NaN. */
  function FractionPrefix(s: string): Option<real> {
    var (sign, rest) := Sign(s);
    if |rest| == 0 || rest[0] != '.' then None
    else
      var n := DigitRun(rest[1..]);
      if n == 0 then None
      else Some(sign * Parsing.DigitsValue(rest[1..][..n]) as real / Parsing.Pow10(n) as real)
  }

  /** The value a ':' assigns: parseInt, else parseFloat, else the text itself. */
  function ParseValue(s: string): Value {
    match IntPrefix(s)
    case Some(r) => Num(r)
    case None =>
      match FractionPrefix(s)
      case Some(r) => Num(r)
      case None => Str(s)
  }

  // ---------------------------------------------------------------------------
  // parsePhrase, the scanner.

  predicate IsStop(c: char) {
    c == '$' || c == ':'
  }

  /** The index of the first '$' or ':', where scanning stops, or |s| when there is none. */
  function StopIndex(s: string): (k: nat)
    ensures k <= |s|
    ensures forall j :: 0 <= j < k ==> !IsStop(s[j])
    ensures k < |s| ==> IsStop(s[k])
  {
    if |s| == 0 || IsStop(s[0]) then 0
    else
      var k := 1 + StopIndex(s[1..]);
      assert forall j :: 1 <= j < k ==> s[j] == s[1..][j - 1];
      k
  }

  function KeyChunks(keys: seq<string>): (r: seq<Chunk>)
    ensures |r| == |keys|
    ensures forall i :: 0 <= i < |keys| ==> r[i] == KeyChunk(keys[i])
  {
    if |keys| == 0 then [] else KeyChunks(keys[..|keys| - 1]) + [KeyChunk(keys[|keys| - 1])]
  }

  /**
   * The chunks of a phrase: the text before the first '$' or ':' is cut at its
   * dots, every piece but the last becomes a key, and the stop character adds an
   * input chunk, or a value chunk keyed by the last piece. Without a stop the
   * last piece is dropped.
   */
  function Chunks(phrase: string): seq<Chunk> {
    var k := StopIndex(phrase);
    var pieces := Split(phrase[..k], '.');
    var keys := KeyChunks(pieces[..|pieces| - 1]);
    if k == |phrase| then keys
    else if phrase[k] == '$' then keys + [InputChunk]
    else keys + [ValueChunk(pieces[|pieces| - 1], ParseValue(phrase[k + 1..]))]
  }

  /** One scanned character that is not a stop: a '.' closes a key, anything else extends it. */
  lemma {:induction false} ScanStep(phrase: string, i: nat, startKey: nat, keys: seq<string>)
    requires startKey <= i < |phrase| && !IsStop(phrase[i])
    requires Split(phrase[..i], '.') == keys + [phrase[startKey..i]]
    ensures phrase[i] == '.' ==> Split(phrase[..i + 1], '.') == (keys + [phrase[startKey..i]]) + [phrase[i + 1..i + 1]]
    ensures phrase[i] != '.' ==> Split(phrase[..i + 1], '.') == keys + [phrase[startKey..i + 1]]
  {
    var c := phrase[i];
    assert phrase[..i + 1] == phrase[..i] + [c];
    SplitSnoc(phrase[..i], c, '.');
    if c != '.' {
      assert (keys + [phrase[startKey..i]])[..|keys|] == keys;
      assert phrase[startKey..i + 1] == phrase[startKey..i] + [c];
    } else {
      assert phrase[i + 1..i + 1] == [];
    }
  }

  /** Reaching a first stop '$' at i: the keys scanned so far, then the input chunk. */
  lemma {:induction false} InputStop(phrase: string, i: nat, startKey: nat, keys: seq<string>)
    requires startKey <= i <= StopIndex(phrase) && i < |phrase| && phrase[i] == '$'
    requires Split(phrase[..i], '.') == keys + [phrase[startKey..i]]
    ensures Chunks(phrase) == KeyChunks(keys) + [InputChunk]
  {
    StopAt(phrase, i);
    var pieces := Split(phrase[..i], '.');
    assert pieces[..|pieces| - 1] == keys;
  }

  /** Reaching a first stop ':' at i: the keys scanned so far, then the value chunk. */
  lemma {:induction false} ValueStop(phrase: string, i: nat, startKey: nat, keys: seq<string>)
    requires startKey <= i <= StopIndex(phrase) && i < |phrase| && phrase[i] == ':'
    requires Split(phrase[..i], '.') == keys + [phrase[startKey..i]]
    ensures Chunks(phrase) == KeyChunks(keys) + [ValueChunk(phrase[startKey..i], ParseValue(phrase[i + 1..]))]
  {
    StopAt(phrase, i);
    var pieces := Split(phrase[..i], '.');
    assert pieces[..|pieces| - 1] == keys;
    assert pieces[|pieces| - 1] == phrase[startKey..i];
  }

  lemma {:induction false} StopAt(phrase: string, i: nat)
    requires i <= StopIndex(phrase) && i < |phrase| && IsStop(phrase[i])
    ensures StopIndex(phrase) == i
  {
  }

  /** Scanning to the end without a stop: the keys before the last '.'. */
  lemma {:induction false} EndChunks(phrase: string, startKey: nat, keys: seq<string>)
    requires startKey <= |phrase| == StopIndex(phrase)
    requires Split(phrase[..|phrase|], '.') == keys + [phrase[startKey..|phrase|]]
    ensures Chunks(phrase) == KeyChunks(keys)
  {
    var pieces := Split(phrase[..|phrase|], '.');
    assert pieces[..|pieces| - 1] == keys;
  }

  /** The index loop of parsePhrase, pushing onto path. */
  method ParsePhrase(phrase: string) returns (path: seq<Chunk>)
    ensures path == Chunks(phrase)
  {
    path := [];
    ghost var keys: seq<string> := [];
    var startKey := 0;
    var i := 0;
    while i < |phrase|
      invariant 0 <= startKey <= i <= StopIndex(phrase)
      invariant path == KeyChunks(keys)
      invariant Split(phrase[..i], '.') == keys + [phrase[startKey..i]]
    {
      var c := phrase[i];
      if c == '$' {
        InputStop(phrase, i, startKey, keys);
        path := path + [InputChunk];
        return;
      }
      if c == ':' {
        ValueStop(phrase, i, startKey, keys);
        var value := ParseValue(phrase[i + 1..]);
        path := path + [ValueChunk(phrase[startKey..i], value)];
        return;
      }
      ScanStep(phrase, i, startKey, keys);
      if c == '.' {
        path := path + [KeyChunk(phrase[startKey..i])];
        keys := keys + [phrase[startKey..i]];
        startKey := i + 1;
      }
      i := i + 1;
    }
    EndChunks(phrase, startKey, keys);
  }

  // ---------------------------------------------------------------------------
  // transformPhrase, the builder.

  /**
   * The builder's variables. obj is a reference into out; here it is the path of
   * keys from out down to it, and attached says whether out still contains it
   * (assigning input or a value to out itself leaves obj behind). currentKey is
   * "" where the source has null: the code only tests it for truthiness.
   */
  datatype Builder = Builder(out: Value, at: seq<string>, currentKey: string, attached: bool)

  /** obj[key] = x, for obj at path at inside v. */
  function SetIn(v: Value, at: seq<string>, key: string, x: Value): Value
    decreases |at|
  {
    if |at| == 0 then (if v.Obj? then Obj(v.fields[key := x]) else v)
    else if v.Obj? && at[0] in v.fields then Obj(v.fields[at[0] := SetIn(v.fields[at[0]], at[1..], key, x)])
    else v
  }

  function Start(): Builder {
    Builder(EmptyObject(), [], "", true)
  }

  /** Assign x to obj[currentKey] when currentKey is truthy, else to out. */
  function Assign(b: Builder, x: Value): Builder {
    if b.currentKey != "" then
      if b.attached then b.(out := SetIn(b.out, b.at, b.currentKey, x)) else b
    else
      b.(out := x, attached := false)
  }

  /** One chunk of the for-of loop of transformPhrase. */
  function Visit(b: Builder, chunk: Chunk, input: Value): Builder {
    match chunk
    case InputChunk => Assign(b, input)
    case KeyChunk(key) =>
      var moved :=
        if b.currentKey == "" then b
        else if b.attached then b.(out := SetIn(b.out, b.at, b.currentKey, EmptyObject()), at := b.at + [b.currentKey])
        else b.(at := b.at + [b.currentKey]);
      moved.(currentKey := key)
    case ValueChunk(key, value) => Assign(b, Obj(map[key := value]))
  }

  function Replay(path: seq<Chunk>, input: Value): Builder {
    if |path| == 0 then Start() else Visit(Replay(path[..|path| - 1], input), path[|path| - 1], input)
  }

  /** What transformPhrase(input) returns. */
  function Build(path: seq<Chunk>, input: Value): Value {
    Replay(path, input).out
  }

  /** The closure transformPhrase: walk the path, moving obj down and assigning at the end. */
  method TransformPhrase(path: seq<Chunk>, input: Value) returns (out: Value)
    ensures out == Build(path, input)
  {
    out := EmptyObject();
    var at: seq<string> := [];
    var currentKey := "";
    var attached := true;
    for i := 0 to |path|
      invariant Replay(path[..i], input) == Builder(out, at, currentKey, attached)
    {
      assert path[..i + 1][..i] == path[..i];
      match path[i]
      case InputChunk =>
        if currentKey != "" {
          if attached {
            out := SetIn(out, at, currentKey, input);
          }
        } else {
          out := input;
          attached := false;
        }
      case KeyChunk(key) =>
        if currentKey != "" {
          if attached {
            out := SetIn(out, at, currentKey, EmptyObject());
          }
          at := at + [currentKey];
        }
        currentKey := key;
      case ValueChunk(key, value) =>
        var dest := Obj(map[key := value]);
        if currentKey != "" {
          if attached {
            out := SetIn(out, at, currentKey, dest);
          }
        } else {
          out := dest;
          attached := false;
        }
    }
    assert path[..|path|] == path;
  }

  // ---------------------------------------------------------------------------
  // metaline: split, compile each piece, fold the results.

  /** The chunks of each ';'-separated phrase of str. */
  function Compiled(str: string): (r: seq<seq<Chunk>>)
    ensures |r| == |Split(str, ';')|
    ensures forall i :: 0 <= i < |r| ==> r[i] == Chunks(Split(str, ';')[i])
  {
    var pieces := Split(str, ';');
    seq(|pieces|, i requires 0 <= i < |pieces| => Chunks(pieces[i]))
  }

  /** str.split(';').map(parsePhrase) */
  method Compile(str: string) returns (paths: seq<seq<Chunk>>)
    ensures paths == Compiled(str)
  {
    var phrases := Split(str, ';');
    paths := [];
    for i := 0 to |phrases|
      invariant |paths| == i
      invariant forall j :: 0 <= j < i ==> paths[j] == Chunks(phrases[j])
    {
      var path := ParsePhrase(phrases[i]);
      paths := paths + [path];
    }
  }

  /** out = merge(out, fn(input)) for each phrase in turn, from {}. */
  function MergeAll(merge: (Value, Value) -> Value, paths: seq<seq<Chunk>>, input: Value): Value {
    if |paths| == 0 then EmptyObject()
    else merge(MergeAll(merge, paths[..|paths| - 1], input), Build(paths[|paths| - 1], input))
  }

  /** The transform that metaline returns, for compiled phrases and a merge function. */
  method Transform(merge: (Value, Value) -> Value, paths: seq<seq<Chunk>>, input: Value) returns (out: Value)
    ensures out == MergeAll(merge, paths, input)
  {
    out := EmptyObject();
    for i := 0 to |paths|
      invariant out == MergeAll(merge, paths[..i], input)
    {
      assert paths[..i + 1][..i] == paths[..i];
      var part := TransformPhrase(paths[i], input);
      out := merge(out, part);
    }
    assert paths[..|paths|] == paths;
  }

  /** metaline(str)(input) */
  function Metaline(merge: (Value, Value) -> Value, str: string, input: Value): Value {
    MergeAll(merge, Compiled(str), input)
  }
}
