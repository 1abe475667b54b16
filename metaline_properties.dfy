/**
 * What metaline.js promises: splitting on ';' is undone by joining and cuts the
 * text into independent pieces, the scanner stops at the first '$' or ':', and
 * replaying the chunks builds { k1: { ... { kn: input } } } or puts a value
 * under the last key.
 */
module MetalineProperties {
  import opened Wrappers
  import opened Json
  import opened Metaline

  // ---------------------------------------------------------------------------
  // Splitting.

  function Count(s: string, c: char): nat {
    if |s| == 0 then 0 else Count(s[..|s| - 1], c) + (if s[|s| - 1] == c then 1 else 0)
  }

  /** Joining the pieces back with the separator gives the text again. */
  lemma {:induction false} JoinSplit(s: string, sep: char)
    ensures Join(Split(s, sep), sep) == s
    decreases |s|
  {
    if |s| > 0 {
      var front := s[..|s| - 1];
      var c := s[|s| - 1];
      assert s == front + [c];
      var pieces := Split(front, sep);
      JoinSplit(front, sep);
      SplitSnoc(front, c, sep);
      var n := |pieces|;
      if c == sep {
        assert (pieces + [""])[..n] == pieces;
      } else {
        var r := pieces[..n - 1] + [pieces[n - 1] + [c]];
        if n == 1 {
          assert r == [pieces[0] + [c]];
        } else {
          assert r[..n - 1] == pieces[..n - 1];
          assert Join(pieces, sep) == Join(pieces[..n - 1], sep) + [sep] + pieces[n - 1];
        }
      }
    }
  }

  /** No piece contains the separator, and there is one more piece than separators. */
  lemma {:induction false} SplitPieces(s: string, sep: char)
    ensures forall i :: 0 <= i < |Split(s, sep)| ==> sep !in Split(s, sep)[i]
    ensures |Split(s, sep)| == Count(s, sep) + 1
    decreases |s|
  {
    if |s| > 0 {
      var front := s[..|s| - 1];
      var c := s[|s| - 1];
      assert s == front + [c];
      SplitPieces(front, sep);
      SplitSnoc(front, c, sep);
      var pieces := Split(front, sep);
      if c != sep {
        var r := Split(s, sep);
        assert forall i :: 0 <= i < |pieces| - 1 ==> r[i] == pieces[i];
        assert r[|r| - 1] == pieces[|pieces| - 1] + [c];
      }
    }
  }

  /** Appending text without the separator extends the last piece. */
  lemma {:induction false} SplitAppendFree(s: string, t: string, sep: char)
    requires sep !in t
    ensures var p := Split(s, sep);
            Split(s + t, sep) == p[..|p| - 1] + [p[|p| - 1] + t]
    decreases |t|
  {
    var p := Split(s, sep);
    if |t| == 0 {
      assert s + t == s;
      assert p[|p| - 1] + t == p[|p| - 1];
      assert p == p[..|p| - 1] + [p[|p| - 1]];
    } else {
      var t' := t[..|t| - 1];
      var c := t[|t| - 1];
      assert t == t' + [c];
      assert c != sep && sep !in t';
      SplitAppendFree(s, t', sep);
      assert s + t == (s + t') + [c];
      SplitSnoc(s + t', c, sep);
      ExtendLast(Split(s + t', sep), p, t', c);
    }
  }

  /** Extending the last piece by t' and then by c extends it by t' + [c]. */
  lemma {:induction false} ExtendLast(front: seq<string>, p: seq<string>, t': string, c: char)
    requires |p| > 0 && front == p[..|p| - 1] + [p[|p| - 1] + t']
    ensures front[..|front| - 1] + [front[|front| - 1] + [c]] == p[..|p| - 1] + [p[|p| - 1] + (t' + [c])]
  {
    assert front[..|front| - 1] == p[..|p| - 1];
    assert front[|front| - 1] + [c] == p[|p| - 1] + (t' + [c]);
  }

  /** Splitting a join of separator-free pieces gives the pieces back. */
  lemma {:induction false} SplitJoin(pieces: seq<string>, sep: char)
    requires |pieces| > 0 && forall i :: 0 <= i < |pieces| ==> sep !in pieces[i]
    ensures Split(Join(pieces, sep), sep) == pieces
    decreases |pieces|
  {
    if |pieces| == 1 {
      SplitAppendFree([], pieces[0], sep);
      assert [] + pieces[0] == pieces[0];
    } else {
      var front := pieces[..|pieces| - 1];
      var last := pieces[|pieces| - 1];
      SplitJoin(front, sep);
      var j := Join(front, sep) + [sep];
      SplitSnoc(Join(front, sep), sep, sep);
      SplitAppendFree(j, last, sep);
      assert Join(pieces, sep) == j + last;
      CloseEmptyPiece(Split(j, sep), front, last);
      assert pieces == front + [last];
    }
  }

  /** Filling the empty piece that a trailing separator opened. */
  lemma {:induction false} CloseEmptyPiece(p: seq<string>, front: seq<string>, last: string)
    requires p == front + [""]
    ensures p[..|p| - 1] + [p[|p| - 1] + last] == front + [last]
  {
    assert p[..|p| - 1] == front;
    assert p[|p| - 1] + last == last;
  }

  /** A separator cuts the text into two parts that are split independently. */
  lemma {:induction false} SplitConcat(a: string, b: string, sep: char)
    ensures Split(a + [sep] + b, sep) == Split(a, sep) + Split(b, sep)
    decreases |b|
  {
    if |b| == 0 {
      SplitSnoc(a, sep, sep);
      assert a + [sep] + b == a + [sep];
    } else {
      var b' := b[..|b| - 1];
      var c := b[|b| - 1];
      var w' := a + [sep] + b';
      assert a + [sep] + b == w' + [c];
      assert b == b' + [c];
      SplitConcat(a, b', sep);
      SplitConcatStep(w', Split(a, sep), b', c, sep);
    }
  }

  lemma {:induction false} SplitConcatStep(w: string, sa: seq<string>, b: string, c: char, sep: char)
    requires Split(w, sep) == sa + Split(b, sep)
    ensures Split(w + [c], sep) == sa + Split(b + [c], sep)
  {
    SplitSnoc(w, c, sep);
    SplitSnoc(b, c, sep);
    ConcatSnoc(sa, Split(b, sep), c);
  }

  /** Opening or extending the last piece of sa + sb is doing so on sb. */
  lemma {:induction false} ConcatSnoc(sa: seq<string>, sb: seq<string>, c: char)
    requires |sb| > 0
    ensures (sa + sb) + [""] == sa + (sb + [""])
    ensures var r := sa + sb;
            r[..|r| - 1] + [r[|r| - 1] + [c]] == sa + (sb[..|sb| - 1] + [sb[|sb| - 1] + [c]])
  {
    var r := sa + sb;
    assert r[..|r| - 1] == sa + sb[..|sb| - 1];
    assert r[|r| - 1] == sb[|sb| - 1];
  }

  /** Each ';'-separated part is compiled on its own: the phrases of a;b are those of a, then those of b. */
  lemma {:induction false} CompiledConcat(a: string, b: string)
    ensures Compiled(a + [';'] + b) == Compiled(a) + Compiled(b)
  {
    SplitConcat(a, b, ';');
  }

  // ---------------------------------------------------------------------------
  // Scanning.

  /** The scan stops at k exactly when no stop comes before k and one is at k (or the text ends). */
  lemma {:induction false} StopIndexIs(s: string, k: nat)
    requires k <= |s|
    requires forall j :: 0 <= j < k ==> !IsStop(s[j])
    requires k < |s| ==> IsStop(s[k])
    ensures StopIndex(s) == k
  {
  }

  /** Keeping the text up to and including the stop, whatever follows, keeps the stop where it was. */
  lemma {:induction false} StopKept(phrase: string, rest: string)
    requires StopIndex(phrase) < |phrase|
    ensures var k := StopIndex(phrase);
            var other := phrase[..k + 1] + rest;
            StopIndex(other) == k && other[..k] == phrase[..k] && other[k] == phrase[k] && other[k + 1..] == rest
  {
    var k := StopIndex(phrase);
    var other := phrase[..k + 1] + rest;
    forall j | 0 <= j < k
      ensures !IsStop(other[j])
    {
      assert other[j] == phrase[j];
    }
    assert other[k] == phrase[k];
    StopIndexIs(other, k);
    assert other[..k] == phrase[..k];
    assert other[k + 1..] == rest;
  }

  /** Text after a '$' is never read: anything may follow it. */
  lemma {:induction false} InputStops(phrase: string, rest: string)
    requires StopIndex(phrase) < |phrase| && phrase[StopIndex(phrase)] == '$'
    ensures var k := StopIndex(phrase);
            Chunks(phrase[..k + 1] + rest) == Chunks(phrase) &&
            Chunks(phrase)[|Chunks(phrase)| - 1] == InputChunk
  {
    StopKept(phrase, rest);
  }

  /**
   * A ':' ends the scan with a value chunk keyed by the text since the last '.',
   * whose value is read from all of the rest.
   */
  lemma {:induction false} ValueStops(phrase: string, rest: string)
    requires StopIndex(phrase) < |phrase| && phrase[StopIndex(phrase)] == ':'
    ensures var k := StopIndex(phrase);
            var pieces := Split(phrase[..k], '.');
            Chunks(phrase[..k + 1] + rest)
              == KeyChunks(pieces[..|pieces| - 1]) + [ValueChunk(pieces[|pieces| - 1], ParseValue(rest))]
  {
    StopKept(phrase, rest);
  }

  /** Without '$' or ':', every chunk is a key, one per '.'. */
  lemma {:induction false} KeysOnlyWithoutStop(phrase: string)
    requires StopIndex(phrase) == |phrase|
    ensures |Chunks(phrase)| == Count(phrase, '.')
    ensures forall i :: 0 <= i < |Chunks(phrase)| ==> Chunks(phrase)[i].KeyChunk?
  {
    ChunksWithoutStop(phrase);
    SplitPieces(phrase, '.');
  }

  /** Without '$' or ':', the chunks are the keys before the last '.'. */
  lemma {:induction false} ChunksWithoutStop(phrase: string)
    requires StopIndex(phrase) == |phrase|
    ensures var p := Split(phrase, '.');
            Chunks(phrase) == KeyChunks(p[..|p| - 1])
  {
    assert phrase[..|phrase|] == phrase;
  }

  /** Text after the last '.' with no '$' or ':' never becomes a chunk. */
  lemma {:induction false} TrailingTextDropped(phrase: string, t: string)
    requires StopIndex(phrase) == |phrase|
    requires '.' !in t && '$' !in t && ':' !in t
    ensures Chunks(phrase + t) == Chunks(phrase)
  {
    var whole := phrase + t;
    forall j | 0 <= j < |whole|
      ensures !IsStop(whole[j])
    {
      if j >= |phrase| {
        assert whole[j] == t[j - |phrase|];
      }
    }
    StopIndexIs(whole, |whole|);
    ChunksWithoutStop(phrase);
    ChunksWithoutStop(whole);
    SplitAppendFree(phrase, t, '.');
    var p := Split(phrase, '.');
    var q := Split(whole, '.');
    assert q[..|q| - 1] == p[..|p| - 1];
  }

  /** A key the scanner reads back unchanged: no '.', '$' or ':' in it. */
  predicate Plain(key: string) {
    '.' !in key && '$' !in key && ':' !in key
  }

  lemma {:induction false} JoinPlain(keys: seq<string>)
    requires |keys| > 0 && forall i :: 0 <= i < |keys| ==> Plain(keys[i])
    ensures '$' !in Join(keys, '.') && ':' !in Join(keys, '.')
    decreases |keys|
  {
    if |keys| > 1 {
      JoinPlain(keys[..|keys| - 1]);
      assert Plain(keys[|keys| - 1]);
    }
  }

  /** No stop character anywhere in the joined keys. */
  lemma {:induction false} NoStopInJoin(keys: seq<string>, j: int)
    requires |keys| > 0 && forall i :: 0 <= i < |keys| ==> Plain(keys[i])
    requires 0 <= j < |Join(keys, '.')|
    ensures !IsStop(Join(keys, '.')[j])
  {
    JoinPlain(keys);
    assert Join(keys, '.')[j] in Join(keys, '.');
  }

  /** A text without ';' is one phrase. */
  lemma {:induction false} SinglePhrase(str: string)
    requires ';' !in str
    ensures Split(str, ';') == [str]
  {
    SplitAppendFree([], str, ';');
    assert [] + str == str;
  }

  /** At a '$' the chunks are the keys before the last '.' of the text so far, then an input chunk. */
  lemma {:induction false} ChunksAtInput(phrase: string)
    requires StopIndex(phrase) < |phrase| && phrase[StopIndex(phrase)] == '$'
    ensures var p := Split(phrase[..StopIndex(phrase)], '.');
            Chunks(phrase) == KeyChunks(p[..|p| - 1]) + [InputChunk]
  {
  }

  lemma {:induction false} PathPhraseStop(keys: seq<string>)
    requires |keys| > 0 && forall i :: 0 <= i < |keys| ==> Plain(keys[i])
    ensures var text := Join(keys, '.');
            var phrase := text + ['.', '$'];
            StopIndex(phrase) == |text| + 1 && phrase[|text| + 1] == '$' && phrase[..|text| + 1] == text + ['.']
  {
    var text := Join(keys, '.');
    var phrase := text + ['.', '$'];
    forall j | 0 <= j < |text| + 1
      ensures !IsStop(phrase[j])
    {
      if j < |text| {
        NoStopInJoin(keys, j);
        assert phrase[j] == text[j];
      } else {
        assert phrase[j] == '.';
      }
    }
    StopIndexIs(phrase, |text| + 1);
    assert phrase[..|text| + 1] == text + ['.'];
  }

  /** k1.k2. ... .kn.$ scans to the n keys and an input chunk. */
  lemma {:induction false} PathPhrase(keys: seq<string>)
    requires |keys| > 0 && forall i :: 0 <= i < |keys| ==> Plain(keys[i])
    ensures Chunks(Join(keys, '.') + ['.', '$']) == KeyChunks(keys) + [InputChunk]
  {
    var text := Join(keys, '.');
    PathPhraseStop(keys);
    ChunksAtInput(text + ['.', '$']);
    SplitJoin(keys, '.');
    SplitSnoc(text, '.', '.');
    assert (keys + [""])[..|keys|] == keys;
  }

  /** k1. ... .kn:text scans to the first n - 1 keys and a value chunk for kn with the value read from text. */
  lemma {:induction false} AssignmentPhrase(keys: seq<string>, text: string)
    requires |keys| > 0 && forall i :: 0 <= i < |keys| ==> Plain(keys[i])
    ensures Chunks(Join(keys, '.') + [':'] + text)
         == KeyChunks(Init(keys)) + [ValueChunk(keys[|keys| - 1], ParseValue(text))]
  {
    var j := Join(keys, '.');
    var phrase := j + [':'] + text;
    forall i | 0 <= i < |j|
      ensures !IsStop(phrase[i])
    {
      NoStopInJoin(keys, i);
      assert phrase[i] == j[i];
    }
    StopIndexIs(phrase, |j|);
    assert phrase[..|j|] == j;
    assert phrase[|j| + 1..] == text;
    SplitJoin(keys, '.');
  }

  /** A path phrase of non-empty keys puts the input under them: where.id.in.$ gives { where: { id: { in: input } } }. */
  lemma {:induction false} PathPhraseBuild(keys: seq<string>, input: Value)
    requires |keys| > 0 && forall i :: 0 <= i < |keys| ==> Plain(keys[i]) && keys[i] != ""
    ensures Build(Chunks(Join(keys, '.') + ['.', '$']), input) == Nest(keys, input)
  {
    PathPhrase(keys);
    KeysThenInput(keys, input);
    NonEmptyKeysKept(keys);
  }

  /** An assignment of non-empty keys puts { kn: value } under the others: a.limit:99 gives { a: { limit: 99 } }. */
  lemma {:induction false} AssignmentPhraseBuild(keys: seq<string>, text: string, input: Value)
    requires |keys| > 0 && forall i :: 0 <= i < |keys| ==> Plain(keys[i]) && keys[i] != ""
    ensures Build(Chunks(Join(keys, '.') + [':'] + text), input)
         == Nest(Init(keys), Obj(map[keys[|keys| - 1] := ParseValue(text)]))
  {
    AssignmentPhrase(keys, text);
    var init := Init(keys);
    var dest := Obj(map[keys[|keys| - 1] := ParseValue(text)]);
    KeysThenValue(init, keys[|keys| - 1], ParseValue(text), input);
    InitKept(keys);
    if |init| == 0 {
      assert Nest(init, dest) == dest;
    }
  }

  /** Without empty keys, the keys before the last are kept whole, and the last of them is null only when there are none. */
  lemma {:induction false} InitKept(keys: seq<string>)
    requires forall i :: 0 <= i < |keys| ==> keys[i] != ""
    ensures NonEmpty(Init(keys)) == Init(keys)
    ensures LastKey(Init(keys)) != "" <==> |Init(keys)| > 0
  {
    if |keys| > 0 {
      var init := keys[..|keys| - 1];
      forall i | 0 <= i < |init| ensures init[i] != "" {
        assert init[i] == keys[i];
      }
      NonEmptyKeysKept(init);
      if |init| > 0 {
        assert LastKey(init) == keys[|keys| - 2];
      }
    }
  }

  /** A text without ';' is one phrase, merged into {}. */
  lemma {:induction false} MetalineSingle(merge: (Value, Value) -> Value, str: string, input: Value)
    requires ';' !in str
    ensures Metaline.Metaline(merge, str, input) == merge(EmptyObject(), Build(Chunks(str), input))
  {
    SinglePhrase(str);
    var paths := Compiled(str);
    assert paths == [Chunks(str)];
    assert paths[..0] == [];
    assert MergeAll(merge, paths, input) == merge(MergeAll(merge, paths[..0], input), Build(paths[0], input));
  }

  /** Two phrases: the first merged into {}, then the second into that. */
  lemma {:induction false} MetalineTwo(merge: (Value, Value) -> Value, a: string, b: string, input: Value)
    requires ';' !in a && ';' !in b
    ensures Metaline.Metaline(merge, a + [';'] + b, input)
         == merge(merge(EmptyObject(), Build(Chunks(a), input)), Build(Chunks(b), input))
  {
    CompiledConcat(a, b);
    SinglePhrase(a);
    SinglePhrase(b);
    var paths := Compiled(a + [';'] + b);
    assert paths == [Chunks(a), Chunks(b)];
    assert paths[..1] == [Chunks(a)];
    assert paths[..1][..0] == [];
    assert MergeAll(merge, paths[..1], input) == merge(EmptyObject(), Build(Chunks(a), input));
    assert MergeAll(merge, paths, input) == merge(MergeAll(merge, paths[..1], input), Build(paths[1], input));
  }

  /** A value starting with digits is the whole number they spell: parseInt wins, so a fraction is cut off. */
  lemma {:induction false} LeadingDigitsAreInteger(s: string)
    requires |s| > 0 && Lexing.IsDigit(s[0])
    ensures ParseValue(s) == Num(Parsing.DigitsValue(s[..DigitRun(s)]) as real)
  {
  }

  /** A value with no leading digits, no '.' and no sign stays text. */
  lemma {:induction false} PlainTextStaysText(s: string)
    requires |s| == 0 || (!Lexing.IsDigit(s[0]) && s[0] != '.' && s[0] != '-' && s[0] != '+')
    ensures ParseValue(s) == Str(s)
  {
  }

  // ---------------------------------------------------------------------------
  // Building.

  /** The keys that are truthy. */
  function NonEmpty(keys: seq<string>): seq<string> {
    if |keys| == 0 then []
    else NonEmpty(keys[..|keys| - 1]) + (if keys[|keys| - 1] != "" then [keys[|keys| - 1]] else [])
  }

  function Init(keys: seq<string>): seq<string> {
    if |keys| == 0 then [] else keys[..|keys| - 1]
  }

  /** The currentKey after the keys: the last key, or null ("") when there is none. */
  function LastKey(keys: seq<string>): string {
    if |keys| == 0 then "" else keys[|keys| - 1]
  }

  /** obj[key] = x at the innermost object of a nest. */
  lemma {:induction false} SetInNest(at: seq<string>, m: map<string, Value>, key: string, x: Value)
    ensures SetIn(Nest(at, Obj(m)), at, key, x) == Nest(at, Obj(m[key := x]))
    decreases |at|
  {
    if |at| > 0 {
      SetInNest(at[1..], m, key, x);
    }
  }

  lemma {:induction false} ReplaySnoc(path: seq<Chunk>, chunk: Chunk, input: Value)
    ensures Replay(path + [chunk], input) == Visit(Replay(path, input), chunk, input)
  {
    assert (path + [chunk])[..|path|] == path;
  }

  /**
   * After the keys, out is an empty object nested under every truthy key but the
   * last, obj is that innermost object, and currentKey is the last key.
   */
  lemma {:induction false} ReplayKeys(keys: seq<string>, input: Value)
    ensures Replay(KeyChunks(keys), input)
         == Builder(Nest(NonEmpty(Init(keys)), EmptyObject()), NonEmpty(Init(keys)), LastKey(keys), true)
    decreases |keys|
  {
    if |keys| > 0 {
      var ks := keys[..|keys| - 1];
      var k := keys[|keys| - 1];
      assert Init(keys) == ks && LastKey(keys) == k;
      ReplayKeys(ks, input);
      assert KeyChunks(keys) == KeyChunks(ks) + [KeyChunk(k)];
      ReplaySnoc(KeyChunks(ks), KeyChunk(k), input);
      NonEmptyInit(ks);
      KeyStep(NonEmpty(Init(ks)), LastKey(ks), k, input);
    }
  }

  /** The truthy keys of ks are those of its init, then its last key when truthy. */
  lemma {:induction false} NonEmptyInit(ks: seq<string>)
    ensures NonEmpty(ks) == NonEmpty(Init(ks)) + (if LastKey(ks) != "" then [LastKey(ks)] else [])
  {
    if |ks| > 0 {
      assert ks[..|ks| - 1] == Init(ks);
    }
  }

  /** One key chunk after the keys: a truthy pending key moves obj one level down. */
  lemma {:induction false} KeyStep(p: seq<string>, c: string, k: string, input: Value)
    ensures var q := p + (if c != "" then [c] else []);
            Visit(Builder(Nest(p, EmptyObject()), p, c, true), KeyChunk(k), input)
              == Builder(Nest(q, EmptyObject()), q, k, true)
  {
    if c != "" {
      SetInNest(p, map[], c, EmptyObject());
      assert map[][c := EmptyObject()] == map[c := EmptyObject()];
      NestAppend(p, c, EmptyObject());
    } else {
      assert p + [] == p;
    }
  }


  /** A phrase of keys alone gives {} nested under every truthy key but the last. */
  lemma {:induction false} KeysOnlyBuild(keys: seq<string>, input: Value)
    ensures Build(KeyChunks(keys), input) == Nest(NonEmpty(Init(keys)), EmptyObject())
  {
    ReplayKeys(keys, input);
  }

  /** Keys then '$': the input nested under the truthy keys, or the input itself when the last key is empty or missing. */
  lemma {:induction false} KeysThenInput(keys: seq<string>, input: Value)
    ensures Build(KeyChunks(keys) + [InputChunk], input)
         == if LastKey(keys) != "" then Nest(NonEmpty(keys), input) else input
  {
    KeysThenAssign(keys, InputChunk, input, input);
  }

  /** Keys then ':': { key: value } under the truthy keys, or alone when the last key is empty or missing. */
  lemma {:induction false} KeysThenValue(keys: seq<string>, key: string, value: Value, input: Value)
    ensures Build(KeyChunks(keys) + [ValueChunk(key, value)], input)
         == var dest := Obj(map[key := value]);
            if LastKey(keys) != "" then Nest(NonEmpty(keys), dest) else dest
  {
    KeysThenAssign(keys, ValueChunk(key, value), Obj(map[key := value]), input);
  }

  lemma {:induction false} KeysThenAssign(keys: seq<string>, last: Chunk, x: Value, input: Value)
    requires (last == InputChunk && x == input) || (last.ValueChunk? && x == Obj(map[last.key := last.value]))
    ensures Build(KeyChunks(keys) + [last], input)
         == if LastKey(keys) != "" then Nest(NonEmpty(keys), x) else x
  {
    ReplayKeys(keys, input);
    ReplaySnoc(KeyChunks(keys), last, input);
    var p := NonEmpty(Init(keys));
    var c := LastKey(keys);
    if c != "" {
      assert keys == Init(keys) + [c];
      assert NonEmpty(keys) == p + [c];
      SetInNest(p, map[], c, x);
      NestAppend(p, c, x);
    }
  }

  /** Non-empty keys are all truthy, so filtering out the empty ones keeps every key in order. */
  lemma {:induction false} NonEmptyKeysKept(keys: seq<string>)
    requires forall i :: 0 <= i < |keys| ==> keys[i] != ""
    ensures NonEmpty(keys) == keys
    decreases |keys|
  {
    if |keys| > 0 {
      NonEmptyKeysKept(keys[..|keys| - 1]);
    }
  }

  // ---------------------------------------------------------------------------
  // Folding.

  /** Left fold from acc, taking the parts from the front. */
  function FoldFrom(merge: (Value, Value) -> Value, acc: Value, parts: seq<Value>): Value
    decreases |parts|
  {
    if |parts| == 0 then acc else FoldFrom(merge, merge(acc, parts[0]), parts[1..])
  }

  function Results(paths: seq<seq<Chunk>>, input: Value): seq<Value> {
    seq(|paths|, i requires 0 <= i < |paths| => Build(paths[i], input))
  }

  lemma {:induction false} FoldRest(merge: (Value, Value) -> Value, paths: seq<seq<Chunk>>, input: Value, i: nat)
    requires i <= |paths|
    ensures FoldFrom(merge, MergeAll(merge, paths[..i], input), Results(paths, input)[i..]) == MergeAll(merge, paths, input)
    decreases |paths| - i
  {
    var rs := Results(paths, input);
    if i == |paths| {
      assert paths[..i] == paths;
      assert rs[i..] == [];
    } else {
      assert rs[i..][1..] == rs[i + 1..];
      assert paths[..i + 1][..i] == paths[..i];
      assert MergeAll(merge, paths[..i + 1], input) == merge(MergeAll(merge, paths[..i], input), rs[i]);
      FoldRest(merge, paths, input, i + 1);
    }
  }

  /** transform merges the phrase results left to right, starting from {}. */
  lemma {:induction false} MergeAllIsLeftFold(merge: (Value, Value) -> Value, paths: seq<seq<Chunk>>, input: Value)
    ensures MergeAll(merge, paths, input) == FoldFrom(merge, EmptyObject(), Results(paths, input))
  {
    FoldRest(merge, paths, input, 0);
    assert paths[..0] == [];
    assert Results(paths, input)[0..] == Results(paths, input);
  }
}
