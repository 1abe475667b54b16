/**
 * The character scanner of lib/lexer.js.
 *
 * The pure functions NextToken and Lex say what the scanner produces from a
 * position of the input; the class Lexer is the scanner itself, with the
 * fields that advance() moves, and each of its methods is proved to compute
 * what those functions say.
 */
module Lexing {
  import opened Wrappers

  datatype TokenType = Dot | Dollar | Arrow | Hash | Colon | Semicolon | Identifier | Number | Eof

  /** The upper-case name the source prints for a token type. */
  function TypeName(t: TokenType): string {
    match t
    case Dot => "DOT"
    case Dollar => "DOLLAR"
    case Arrow => "ARROW"
    case Hash => "HASH"
    case Colon => "COLON"
    case Semicolon => "SEMICOLON"
    case Identifier => "IDENTIFIER"
    case Number => "NUMBER"
    case Eof => "EOF"
  }

  /**
   * A token keeps the text it was read from: the punctuation character, the
   * identifier, or the lexeme of a number (whose numeric value is NumberValue
   * of that lexeme). The end-of-input token has the empty text.
   */
  datatype Token = Token(kind: TokenType, text: string, pos: nat)

  datatype LexError = InvalidCharacter(ch: char, pos: nat)

  function End(t: Token): nat { t.pos + |t.text| }

  predicate IsDigit(c: char) { '0' <= c <= '9' }

  predicate IsAlpha(c: char) { ('a' <= c <= 'z') || ('A' <= c <= 'Z') }

  predicate IsAlphaNumeric(c: char) { IsAlpha(c) || IsDigit(c) }

  /** The characters that JavaScript's trim() removes: WhiteSpace and LineTerminator. */
  predicate IsWhitespace(c: char) {
    var n := c as int;
    n == 0x09 || n == 0x0A || n == 0x0B || n == 0x0C || n == 0x0D || n == 0x20 ||
    n == 0xA0 || n == 0x1680 || (0x2000 <= n <= 0x200A) || n == 0x2028 || n == 0x2029 ||
    n == 0x202F || n == 0x205F || n == 0x3000 || n == 0xFEFF
  }

  /** The six characters with a token type of their own. */
  function Punctuation(c: char): Option<TokenType> {
    match c
    case '.' => Some(Dot)
    case '$' => Some(Dollar)
    case '>' => Some(Arrow)
    case '#' => Some(Hash)
    case ':' => Some(Colon)
    case ';' => Some(Semicolon)
    case _ => None
  }

  /** A character the scanner rejects. */
  predicate Invalid(c: char) {
    !IsWhitespace(c) && !IsAlphaNumeric(c) && Punctuation(c).None?
  }

  /** The character at index i, or None (the source's null) past the end. */
  function CharAt(s: string, i: nat): Option<char> {
    if i < |s| then Some(s[i]) else None
  }

  ghost predicate Blank(s: string, i: nat, j: nat)
    requires i <= j <= |s|
  {
    forall k :: i <= k < j ==> IsWhitespace(s[k])
  }

  /** What the text of a token of the given type looks like on its own. */
  ghost predicate LexemeOk(kind: TokenType, text: string) {
    match kind
    case Eof => text == ""
    case Identifier =>
      |text| > 0 && IsAlpha(text[0]) && forall i :: 0 <= i < |text| ==> IsAlphaNumeric(text[i])
    case Number =>
      && |text| > 0 && IsDigit(text[0])
      && (forall i :: 0 <= i < |text| ==> IsDigit(text[i]) || text[i] == '.')
      && (forall i, j :: 0 <= i < j < |text| ==> !(text[i] == '.' && text[j] == '.'))
    case _ => |text| == 1 && Punctuation(text[0]) == Some(kind)
  }

  /** The character after a token (None at the end) could not have extended it. */
  ghost predicate Stops(kind: TokenType, text: string, next: Option<char>) {
    match kind
    case Eof => next.None?
    case Identifier => next.None? || !IsAlphaNumeric(next.value)
    case Number => next.None? || !(IsDigit(next.value) || (next.value == '.' && '.' !in text))
    case _ => true
  }

  /** Token t is a maximal token read from s at its own position. */
  ghost predicate TokenAt(s: string, t: Token) {
    && End(t) <= |s|
    && (forall i :: 0 <= i < |t.text| ==> s[t.pos + i] == t.text[i])
    && LexemeOk(t.kind, t.text)
    && Stops(t.kind, t.text, CharAt(s, End(t)))
  }

  /** skipWhitespace: the first index at or after p that is not whitespace. */
  function SkipWs(s: string, p: nat): (q: nat)
    requires p <= |s|
    ensures p <= q <= |s| && Blank(s, p, q)
    ensures q < |s| ==> !IsWhitespace(s[q])
    decreases |s| - p
  {
    if p < |s| && IsWhitespace(s[p]) then SkipWs(s, p + 1) else p
  }

  /** number(): where a number that has reached p ends, given whether it already has a dot. */
  function NumberEnd(s: string, p: nat, hasDot: bool): (e: nat)
    requires p <= |s|
    ensures p <= e <= |s|
    ensures forall i :: p <= i < e ==> IsDigit(s[i]) || s[i] == '.'
    ensures forall i, j :: p <= i < j < e ==> !(s[i] == '.' && s[j] == '.')
    ensures hasDot ==> forall i :: p <= i < e ==> s[i] != '.'
    ensures e < |s| ==> !IsDigit(s[e]) && (s[e] == '.' ==> hasDot || exists i :: p <= i < e && s[i] == '.')
    decreases |s| - p
  {
    if p < |s| && (IsDigit(s[p]) || (s[p] == '.' && !hasDot)) then
      NumberEnd(s, p + 1, hasDot || s[p] == '.')
    else
      p
  }

  /** identifier(): where a run of letters and digits that has reached p ends. */
  function IdentEnd(s: string, p: nat): (e: nat)
    requires p <= |s|
    ensures p <= e <= |s|
    ensures forall i :: p <= i < e ==> IsAlphaNumeric(s[i])
    ensures e < |s| ==> !IsAlphaNumeric(s[e])
    decreases |s| - p
  {
    if p < |s| && IsAlphaNumeric(s[p]) then IdentEnd(s, p + 1) else p
  }

  /**
   * getNextToken from position p: the token and the position after it, or the
   * invalid character that stops the scan.
   */
  function NextToken(s: string, p: nat): (r: Result<(Token, nat), LexError>)
    requires p <= |s|
    ensures r.Ok? ==>
      && TokenAt(s, r.value.0) && r.value.1 == End(r.value.0)
      && p <= r.value.0.pos && Blank(s, p, r.value.0.pos)
    ensures r.Err? ==>
      && p <= r.error.pos < |s| && Blank(s, p, r.error.pos)
      && s[r.error.pos] == r.error.ch && Invalid(r.error.ch)
  {
    var q := SkipWs(s, p);
    if q == |s| then
      Ok((Token(Eof, "", q), q))
    else if IsDigit(s[q]) then
      var e := NumberEnd(s, q, false);
      NumberTokenAt(s, q);
      Ok((Token(Number, s[q..e], q), e))
    else if IsAlpha(s[q]) then
      var e := IdentEnd(s, q);
      IdentTokenAt(s, q);
      Ok((Token(Identifier, s[q..e], q), e))
    else
      match Punctuation(s[q])
      case Some(k) => Ok((Token(k, [s[q]], q), q + 1))
      case None => Err(InvalidCharacter(s[q], q))
  }

  lemma {:induction false} NumberTokenAt(s: string, q: nat)
    requires q < |s| && IsDigit(s[q])
    ensures TokenAt(s, Token(Number, s[q..NumberEnd(s, q, false)], q))
  {
    var e := NumberEnd(s, q, false);
    var text := s[q..e];
    assert forall i :: 0 <= i < |text| ==> text[i] == s[q + i];
    assert '.' !in text <==> forall i :: q <= i < e ==> s[i] != '.' by {
      if '.' in text {
        var k :| 0 <= k < |text| && text[k] == '.';
        assert s[q + k] == '.';
      }
    }
    assert LexemeOk(Number, text) by {
      forall i, j | 0 <= i < j < |text|
        ensures !(text[i] == '.' && text[j] == '.')
      {
        assert text[i] == s[q + i] && text[j] == s[q + j];
      }
    }
    assert Stops(Number, text, CharAt(s, e));
  }

  lemma {:induction false} IdentTokenAt(s: string, q: nat)
    requires q < |s| && IsAlpha(s[q])
    ensures TokenAt(s, Token(Identifier, s[q..IdentEnd(s, q)], q))
  {
    var e := IdentEnd(s, q);
    var text := s[q..e];
    var t := Token(Identifier, text, q);
    assert IsAlphaNumeric(s[q]);
    assert e > q;
    assert End(t) == e;
    assert forall i :: 0 <= i < |text| ==> s[q + i] == text[i];
    assert IsAlpha(text[0]);
    assert LexemeOk(Identifier, text);
    if e < |s| {
      assert CharAt(s, e) == Some(s[e]);
    }
    assert Stops(Identifier, text, CharAt(s, e));
  }

  lemma {:induction false} NonEofAdvances(s: string, t: Token)
    requires TokenAt(s, t) && t.kind != Eof
    ensures t.pos < End(t) <= |s|
  {
    assert |t.text| > 0 by { assert LexemeOk(t.kind, t.text); }
  }

  /** tokenize from position p: every token up to and including the end-of-input token. */
  function Lex(s: string, p: nat): Result<seq<Token>, LexError>
    requires p <= |s|
    decreases |s| - p
  {
    match NextToken(s, p)
    case Err(e) => Err(e)
    case Ok((t, q)) =>
      if t.kind == Eof then Ok([t])
      else
        NonEofAdvances(s, t);
        Prepend([t], Lex(s, q))
  }

  /** Lex with a first token already read: the rest of what tokenize returns. */
  function LexAfter(s: string, t: Token, q: nat): Result<seq<Token>, LexError>
    requires q <= |s|
  {
    if t.kind == Eof then Ok([t]) else Prepend([t], Lex(s, q))
  }

  /** The scanner. position and charPosition advance together; currentChar is None past the end. */
  class Lexer {
    const input: string
    var position: nat
    var charPosition: nat
    var currentChar: Option<char>

    ghost predicate Valid()
      reads this
    {
      && |input| > 0
      && position <= |input|
      && charPosition == position
      && currentChar == CharAt(input, position)
    }

    /** For the empty input the source sets currentChar to undefined and its next scan crashes. */
    constructor(input: string)
      requires |input| > 0
      ensures Valid() && this.input == input && position == 0
    {
      this.input := input;
      position := 0;
      charPosition := 0;
      currentChar := Some(input[0]);
    }

    /** The token error() reports: the current character at the current position. */
    function Error(): (e: LexError)
      reads this
      requires Valid() && currentChar.Some?
      ensures e.pos < |input| && e.ch == input[e.pos]
      ensures e.pos == charPosition == position && e.ch == input[position]
    {
      InvalidCharacter(currentChar.value, charPosition)
    }

    method Advance()
      requires Valid() && position < |input|
      modifies this
      ensures Valid() && position == old(position) + 1
    {
      position := position + 1;
      charPosition := charPosition + 1;
      if position > |input| - 1 {
        currentChar := None;
      } else {
        currentChar := Some(input[position]);
      }
    }

    method PeekNext() returns (c: Option<char>)
      requires Valid()
      ensures c == CharAt(input, position + 1)
    {
      var peekPos := position + 1;
      if peekPos > |input| - 1 {
        return None;
      }
      return Some(input[peekPos]);
    }

    method SkipWhitespace()
      requires Valid()
      modifies this
      ensures Valid() && position == SkipWs(input, old(position))
    {
      while currentChar.Some? && IsWhitespace(currentChar.value)
        invariant Valid() && old(position) <= position
        invariant SkipWs(input, old(position)) == SkipWs(input, position)
        decreases |input| - position
      {
        Advance();
      }
    }

    method Number() returns (t: Token)
      requires Valid() && position < |input| && IsDigit(input[position])
      modifies this
      ensures Valid() && position == NumberEnd(input, old(position), false)
      ensures t == Token(TokenType.Number, input[old(position)..position], old(position))
    {
      var startPos := charPosition;
      var result := "";
      var hasDot := false;
      while currentChar.Some? && (IsDigit(currentChar.value) || currentChar.value == '.')
        invariant Valid() && startPos <= position
        invariant result == input[startPos..position]
        invariant NumberEnd(input, startPos, false) == NumberEnd(input, position, hasDot)
        decreases |input| - position
      {
        if currentChar.value == '.' {
          if hasDot {
            break;
          }
          hasDot := true;
        }
        result := result + [currentChar.value];
        Advance();
      }
      t := Token(TokenType.Number, result, startPos);
    }

    method Identifier() returns (t: Token)
      requires Valid() && position < |input| && IsAlpha(input[position])
      modifies this
      ensures Valid() && position == IdentEnd(input, old(position))
      ensures t == Token(TokenType.Identifier, input[old(position)..position], old(position))
    {
      var startPos := charPosition;
      var result := "";
      while currentChar.Some? && IsAlphaNumeric(currentChar.value)
        invariant Valid() && startPos <= position
        invariant result == input[startPos..position]
        invariant IdentEnd(input, startPos) == IdentEnd(input, position)
        decreases |input| - position
      {
        result := result + [currentChar.value];
        Advance();
      }
      t := Token(TokenType.Identifier, result, startPos);
    }

    /** getNextToken; the thrown "Invalid character" error is returned as Err. */
    method GetNextToken() returns (r: Result<Token, LexError>)
      requires Valid()
      modifies this
      ensures Valid()
      ensures match NextToken(input, old(position))
        case Ok((t, q)) => r == Ok(t) && position == q
        case Err(e) => r == Err(e)
    {
      while currentChar.Some?
        invariant Valid() && old(position) <= position
        invariant SkipWs(input, old(position)) == SkipWs(input, position)
        decreases |input| - position
      {
        var c := currentChar.value;
        if IsWhitespace(c) {
          SkipWhitespace();
          continue;
        }
        var currentPos := charPosition;
        if IsDigit(c) {
          var t := Number();
          return Ok(t);
        }
        if IsAlpha(c) {
          var t := Identifier();
          return Ok(t);
        }
        match Punctuation(c)
        case Some(k) =>
          Advance();
          return Ok(Token(k, [c], currentPos));
        case None =>
          return Err(Error());
      }
      return Ok(Token(Eof, "", charPosition));
    }

    /** tokenize: the tokens up to and including the end-of-input token. */
    method Tokenize() returns (r: Result<seq<Token>, LexError>)
      requires Valid()
      modifies this
      ensures r == Lex(input, old(position))
    {
      ghost var p0 := position;
      var tokens: seq<Token> := [];
      var next := GetNextToken();
      if next.Err? {
        return Err(next.error);
      }
      var token := next.value;
      PrependNothing(LexAfter(input, token, position));
      while token.kind != Eof
        invariant Valid() && token.pos <= position
        invariant token.kind != Eof ==> token.pos < position
        invariant Lex(input, p0) == Prepend(tokens, LexAfter(input, token, position))
        decreases |input| - position + (if token.kind == Eof then 0 else 1)
      {
        ghost var before := position;
        ghost var done := tokens;
        assert LexAfter(input, token, before) == Prepend([token], Lex(input, before));
        PrependTwice(done, [token], Lex(input, before));
        tokens := tokens + [token];
        next := GetNextToken();
        if next.Err? {
          return Err(next.error);
        }
        token := next.value;
      }
      return Ok(tokens + [token]);
    }
  }

  /** The tokens already collected, in front of whatever the rest of the scan yields. */
  function Prepend(prefix: seq<Token>, r: Result<seq<Token>, LexError>): Result<seq<Token>, LexError> {
    match r
    case Err(e) => Err(e)
    case Ok(ts) => Ok(prefix + ts)
  }

  lemma {:induction false} PrependNothing(r: Result<seq<Token>, LexError>)
    ensures Prepend([], r) == r
  {
    if r.Ok? { assert [] + r.value == r.value; }
  }

  lemma {:induction false} PrependTwice(a: seq<Token>, b: seq<Token>, r: Result<seq<Token>, LexError>)
    ensures Prepend(a, Prepend(b, r)) == Prepend(a + b, r)
  {
    if r.Ok? { assert a + (b + r.value) == (a + b) + r.value; }
  }

  // ---------------------------------------------------------------------------
  // What tokenize returns, stated without the scanner: the input from p on is
  // cut into maximal tokens separated only by whitespace, ending in one
  // end-of-input token at the input's length.

  ghost predicate Tiles(s: string, p: nat, ts: seq<Token>)
    requires p <= |s|
    decreases |ts|
  {
    && |ts| > 0
    && TokenAt(s, ts[0]) && p <= ts[0].pos && Blank(s, p, ts[0].pos)
    && (if ts[0].kind == Eof then |ts| == 1 else Tiles(s, End(ts[0]), ts[1..]))
  }

  lemma {:induction false} LexTiles(s: string, p: nat)
    requires p <= |s|
    ensures Lex(s, p).Ok? ==> Tiles(s, p, Lex(s, p).value)
    decreases |s| - p
  {
    match NextToken(s, p)
    case Err(_) =>
    case Ok((t, q)) =>
      if t.kind != Eof {
        NonEofAdvances(s, t);
        LexTiles(s, q);
        if Lex(s, q).Ok? {
          assert ([t] + Lex(s, q).value)[1..] == Lex(s, q).value;
        }
      }
  }

  lemma {:induction false} SkipWsExact(s: string, p: nat, q: nat)
    requires p <= q <= |s| && Blank(s, p, q)
    requires q < |s| ==> !IsWhitespace(s[q])
    ensures SkipWs(s, p) == q
    decreases q - p
  {
    if p < q { SkipWsExact(s, p + 1, q); }
  }

  lemma {:induction false} NumberEndExact(s: string, p: nat, hasDot: bool, e: nat)
    requires p <= e <= |s|
    requires forall i :: p <= i < e ==> IsDigit(s[i]) || s[i] == '.'
    requires forall i, j :: p <= i < j < e ==> !(s[i] == '.' && s[j] == '.')
    requires hasDot ==> forall i :: p <= i < e ==> s[i] != '.'
    requires e < |s| ==> !IsDigit(s[e]) && (s[e] == '.' ==> hasDot || exists i :: p <= i < e && s[i] == '.')
    ensures NumberEnd(s, p, hasDot) == e
    decreases e - p
  {
    if p < e {
      var hasDot' := hasDot || s[p] == '.';
      assert e < |s| && s[e] == '.' ==> hasDot' || exists i :: p + 1 <= i < e && s[i] == '.';
      NumberEndExact(s, p + 1, hasDot', e);
    }
  }

  lemma {:induction false} IdentEndExact(s: string, p: nat, e: nat)
    requires p <= e <= |s|
    requires forall i :: p <= i < e ==> IsAlphaNumeric(s[i])
    requires e < |s| ==> !IsAlphaNumeric(s[e])
    ensures IdentEnd(s, p) == e
    decreases e - p
  {
    if p < e { IdentEndExact(s, p + 1, e); }
  }

  /** A maximal token after whitespace is exactly what getNextToken reads. */
  lemma {:induction false} NextTokenExact(s: string, p: nat, t: Token)
    requires TokenAt(s, t) && p <= t.pos && Blank(s, p, t.pos)
    ensures NextToken(s, p) == Ok((t, End(t)))
  {
    var q := t.pos;
    var e := End(t);
    assert t.text == s[q..e];
    assert LexemeOk(t.kind, t.text);
    if t.kind == Eof {
      assert CharAt(s, e).None?;
      SkipWsExact(s, p, q);
    } else {
      assert s[q] == t.text[0];
      SkipWsExact(s, p, q);
      if t.kind == Number {
        NumberTokenExact(s, t);
      } else if t.kind == Identifier {
        IdentEndExact(s, q, e);
      } else {
        assert !IsDigit(s[q]) && !IsAlpha(s[q]) && Punctuation(s[q]) == Some(t.kind);
        assert t.text == [s[q]];
      }
    }
  }

  lemma {:induction false} NumberTokenExact(s: string, t: Token)
    requires TokenAt(s, t) && t.kind == Number
    ensures NumberEnd(s, t.pos, false) == End(t)
  {
    assert t.text == s[t.pos..End(t)];
    NumberSpanExact(s, t.pos, End(t));
  }

  lemma {:induction false} NumberSpanExact(s: string, q: nat, e: nat)
    requires q <= e <= |s| && LexemeOk(Number, s[q..e])
    requires e < |s| ==> !(IsDigit(s[e]) || (s[e] == '.' && '.' !in s[q..e]))
    ensures NumberEnd(s, q, false) == e
  {
    var text := s[q..e];
    assert forall i :: q <= i < e ==> s[i] == text[i - q];
    assert forall i, j :: q <= i < j < e ==> !(s[i] == '.' && s[j] == '.') by {
      forall i, j | q <= i < j < e ensures !(s[i] == '.' && s[j] == '.') {
        assert s[i] == text[i - q] && s[j] == text[j - q];
      }
    }
    assert e < |s| && s[e] == '.' ==> exists i :: q <= i < e && s[i] == '.' by {
      if e < |s| && s[e] == '.' {
        var k :| 0 <= k < |text| && text[k] == '.';
        assert s[q + k] == '.';
      }
    }
    NumberEndExact(s, q, false, e);
  }

  lemma {:induction false} TilesLex(s: string, p: nat, ts: seq<Token>)
    requires p <= |s| && Tiles(s, p, ts)
    ensures Lex(s, p) == Ok(ts)
    decreases |ts|
  {
    TilesHead(s, p, ts);
    if ts[0].kind != Eof {
      TilesLex(s, End(ts[0]), ts[1..]);
    }
    LexFromHead(s, p, ts);
  }

  /** The scan from p reads the head token, then goes on as the scan after it. */
  lemma {:induction false} LexFromHead(s: string, p: nat, ts: seq<Token>)
    requires p <= |s| && |ts| > 0 && TokenAt(s, ts[0]) && p <= ts[0].pos && Blank(s, p, ts[0].pos)
    requires ts[0].kind == Eof ==> ts == [ts[0]]
    requires ts[0].kind != Eof ==> End(ts[0]) <= |s| && Lex(s, End(ts[0])) == Ok(ts[1..])
    ensures Lex(s, p) == Ok(ts)
  {
    var t := ts[0];
    NextTokenExact(s, p, t);
    if t.kind != Eof {
      LexStep(s, p, t);
      assert [t] + ts[1..] == ts;
    }
  }

  lemma {:induction false} TilesHead(s: string, p: nat, ts: seq<Token>)
    requires p <= |s| && Tiles(s, p, ts)
    ensures TokenAt(s, ts[0]) && p <= ts[0].pos && Blank(s, p, ts[0].pos)
    ensures ts[0].kind == Eof ==> ts == [ts[0]]
    ensures ts[0].kind != Eof ==> ts[0].pos < End(ts[0]) <= |s| && Tiles(s, End(ts[0]), ts[1..])
  {
    if ts[0].kind != Eof { NonEofAdvances(s, ts[0]); }
  }

  lemma {:induction false} LexStep(s: string, p: nat, t: Token)
    requires p <= |s| && End(t) <= |s| && t.kind != Eof && NextToken(s, p) == Ok((t, End(t)))
    ensures Lex(s, p) == Prepend([t], Lex(s, End(t)))
  {
  }

  /** tokenize succeeds with ts exactly when ts cuts the input into maximal tokens and whitespace. */
  lemma {:induction false} LexIffTiles(s: string, p: nat, ts: seq<Token>)
    requires p <= |s|
    ensures Lex(s, p) == Ok(ts) <==> Tiles(s, p, ts)
  {
    LexTiles(s, p);
    if Tiles(s, p, ts) { TilesLex(s, p, ts); }
  }

  /**
   * The token list ends with the only end-of-input token, placed at the input's
   * length; positions strictly increase, and only whitespace lies between
   * consecutive tokens, so whitespace counts toward positions.
   */
  lemma {:induction false} TilesLayout(s: string, p: nat, ts: seq<Token>)
    requires p <= |s| && Tiles(s, p, ts)
    ensures ts[|ts| - 1].kind == Eof && ts[|ts| - 1].pos == |s|
    ensures forall i :: 0 <= i < |ts| - 1 ==> ts[i].kind != Eof && ts[i].pos < End(ts[i])
    ensures forall i, j :: 0 <= i < j < |ts| ==> End(ts[i]) <= ts[j].pos
    ensures forall i :: 0 <= i < |ts| - 1 ==> Blank(s, End(ts[i]), ts[i + 1].pos)
    ensures forall i :: 0 <= i < |ts| ==> p <= ts[i].pos && TokenAt(s, ts[i])
    decreases |ts|
  {
    var t := ts[0];
    if t.kind == Eof {
      assert CharAt(s, End(t)).None? && LexemeOk(t.kind, t.text);
    } else {
      NonEofAdvances(s, t);
      var rest := ts[1..];
      TilesLayout(s, End(t), rest);
      assert forall i :: 1 <= i < |ts| ==> ts[i] == rest[i - 1];
    }
  }

  lemma {:induction false} TokenizeLayout(s: string, ts: seq<Token>)
    requires |s| > 0 && Lex(s, 0) == Ok(ts)
    ensures ts[|ts| - 1].kind == Eof && ts[|ts| - 1].pos == |s|
    ensures forall i :: 0 <= i < |ts| - 1 ==> ts[i].kind != Eof
    ensures forall i, j :: 0 <= i < j < |ts| ==> ts[i].pos < ts[j].pos
    ensures forall i :: 0 <= i < |ts| - 1 ==> ts[i].pos < |s| && !IsWhitespace(s[ts[i].pos])
  {
    LexTiles(s, 0);
    TilesLayout(s, 0, ts);
    forall i | 0 <= i < |ts| - 1
      ensures ts[i].pos < |s| && !IsWhitespace(s[ts[i].pos])
    {
      TokenStartsSolid(s, ts[i]);
    }
  }

  lemma {:induction false} TokenStartsSolid(s: string, t: Token)
    requires TokenAt(s, t) && t.kind != Eof
    ensures t.pos < |s| && !IsWhitespace(s[t.pos])
  {
    assert LexemeOk(t.kind, t.text);
    assert s[t.pos] == t.text[0];
  }

  // ---------------------------------------------------------------------------
  // Errors: the scan fails exactly when an invalid character occurs, and it
  // reports the first one with its position.

  lemma {:induction false} TokenCharsValid(s: string, t: Token)
    requires TokenAt(s, t)
    ensures forall i :: t.pos <= i < End(t) ==> !Invalid(s[i])
  {
    assert LexemeOk(t.kind, t.text);
    forall i | t.pos <= i < End(t) ensures !Invalid(s[i]) {
      assert s[i] == t.text[i - t.pos];
    }
  }

  lemma {:induction false} LexErrorIsFirstInvalid(s: string, p: nat)
    requires p <= |s|
    ensures Lex(s, p).Err? <==> exists i :: p <= i < |s| && Invalid(s[i])
    ensures Lex(s, p).Err? ==>
      var e := Lex(s, p).error;
      && p <= e.pos < |s| && s[e.pos] == e.ch && Invalid(e.ch)
      && forall i :: p <= i < e.pos ==> !Invalid(s[i])
    decreases |s| - p
  {
    match NextToken(s, p)
    case Err(e) =>
    case Ok((t, q)) =>
      TokenCharsValid(s, t);
      assert forall i :: p <= i < q ==> !Invalid(s[i]);
      if t.kind == Eof {
        assert CharAt(s, End(t)).None? && LexemeOk(t.kind, t.text);
      } else {
        NonEofAdvances(s, t);
        LexErrorIsFirstInvalid(s, q);
      }
  }

  // ---------------------------------------------------------------------------
  // Whitespace between tokens moves positions and nothing else.

  /** Token t moved d places to the right. */
  function Moved(t: Token, d: nat): Token {
    Token(t.kind, t.text, t.pos + d)
  }

  /** Every token of ts moved d places to the right. */
  function Shift(ts: seq<Token>, d: nat): (r: seq<Token>)
    ensures |r| == |ts|
    decreases |ts|
  {
    if ts == [] then [] else [Moved(ts[0], d)] + Shift(ts[1..], d)
  }

  function Insert(s: string, q: nat, w: string): string
    requires q <= |s|
  {
    s[..q] + w + s[q..]
  }

  ghost predicate AllWhitespace(w: string) {
    forall i :: 0 <= i < |w| ==> IsWhitespace(w[i])
  }

  /** s2 holds s's text from lo on, moved d places to the right. */
  ghost predicate MovedFrom(s: string, s2: string, lo: nat, d: nat) {
    && |s2| == |s| + d
    && forall k :: lo <= k < |s| ==> s2[k + d] == s[k]
  }

  /** Tiling from p on only looks at the text from p on, so the text before it may change length. */
  lemma {:induction false} TilesRebase(a: string, a2: string, b: string, p: nat, ts: seq<Token>)
    requires |a| <= p <= |a + b| && |a| <= |a2|
    requires Tiles(a + b, p, ts)
    ensures Tiles(a2 + b, p + (|a2| - |a|), Shift(ts, |a2| - |a|))
  {
    MovedConcat(a, a2, b);
    TilesMove(a + b, a2 + b, |a|, |a2| - |a|, p, ts);
  }

  lemma {:induction false} MovedConcat(a: string, a2: string, b: string)
    requires |a| <= |a2|
    ensures MovedFrom(a + b, a2 + b, |a|, |a2| - |a|)
  {
    var d := |a2| - |a|;
    forall k | |a| <= k < |a + b| ensures (a2 + b)[k + d] == (a + b)[k] {
      assert (a2 + b)[k + d] == b[k - |a|];
    }
  }

  lemma {:induction false} TilesMove(s: string, s2: string, lo: nat, d: nat, p: nat, ts: seq<Token>)
    requires lo <= p <= |s| && MovedFrom(s, s2, lo, d) && Tiles(s, p, ts)
    ensures Tiles(s2, p + d, Shift(ts, d))
    decreases |ts|
  {
    var t := ts[0];
    var t2 := Moved(t, d);
    TilesHead(s, p, ts);
    TokenAtMove(s, s2, lo, d, t);
    BlankMove(s, s2, lo, d, p, t.pos);
    if t.kind != Eof {
      TilesMove(s, s2, lo, d, End(t), ts[1..]);
      TilesCons(s2, p + d, t2, Shift(ts[1..], d));
    } else {
      assert Shift(ts, d) == [t2] by { assert ts == [t]; }
      TilesLast(s2, p + d, t2);
    }
  }

  /** A token in the moved text is a token at its moved position. */
  lemma {:induction false} TokenAtMove(s: string, s2: string, lo: nat, d: nat, t: Token)
    requires lo <= t.pos && MovedFrom(s, s2, lo, d) && TokenAt(s, t)
    ensures TokenAt(s2, Moved(t, d))
  {
    var t2 := Moved(t, d);
    assert CharAt(s2, End(t2)) == CharAt(s, End(t));
    forall i | 0 <= i < |t.text| ensures s2[t2.pos + i] == t2.text[i] {
      assert s2[t.pos + i + d] == s[t.pos + i];
    }
  }

  /** Whitespace in the moved text is whitespace at its moved position. */
  lemma {:induction false} BlankMove(s: string, s2: string, lo: nat, d: nat, i: nat, j: nat)
    requires lo <= i <= j <= |s| && MovedFrom(s, s2, lo, d) && Blank(s, i, j)
    ensures Blank(s2, i + d, j + d)
  {
    forall k | i + d <= k < j + d ensures IsWhitespace(s2[k]) {
      assert s2[k] == s[k - d];
    }
  }

  /** One token followed by a tiling of the rest is a tiling. */
  lemma {:induction false} TilesCons(s: string, p: nat, t: Token, rest: seq<Token>)
    requires p <= t.pos && End(t) <= |s| && TokenAt(s, t) && Blank(s, p, t.pos) && t.kind != Eof
    requires Tiles(s, End(t), rest)
    ensures Tiles(s, p, [t] + rest)
  {
    assert ([t] + rest)[1..] == rest;
  }

  lemma {:induction false} TilesLast(s: string, p: nat, t: Token)
    requires p <= t.pos && p <= |s| && TokenAt(s, t) && Blank(s, p, t.pos) && t.kind == Eof
    ensures Tiles(s, p, [t])
  {
  }

  /** A token after the prefix a stays a token when a is replaced by the longer a2. */
  lemma {:induction false} TokenAtShift(a: string, a2: string, b: string, t: Token)
    requires |a| <= t.pos && |a| <= |a2| && TokenAt(a + b, t)
    ensures TokenAt(a2 + b, Token(t.kind, t.text, t.pos + (|a2| - |a|)))
  {
    var d := |a2| - |a|;
    var s, s2 := a + b, a2 + b;
    var t2 := Token(t.kind, t.text, t.pos + d);
    assert forall k :: |a| <= k < |s| ==> s2[k + d] == s[k];
    assert CharAt(s2, End(t2)) == CharAt(s, End(t));
    forall i | 0 <= i < |t.text| ensures s2[t2.pos + i] == t2.text[i] {
      assert s2[t.pos + i + d] == s[t.pos + i];
    }
  }

  /** Whitespace after the prefix a stays whitespace when a is replaced by the longer a2. */
  lemma {:induction false} BlankShift(a: string, a2: string, b: string, i: nat, j: nat)
    requires |a| <= i <= j <= |a + b| && |a| <= |a2| && Blank(a + b, i, j)
    ensures Blank(a2 + b, i + (|a2| - |a|), j + (|a2| - |a|))
  {
    var d := |a2| - |a|;
    forall k | i + d <= k < j + d ensures IsWhitespace((a2 + b)[k]) {
      assert (a2 + b)[k] == (a + b)[k - d];
    }
  }

  lemma {:induction false} TilesWiden(s: string, p0: nat, p: nat, ts: seq<Token>)
    requires p0 <= p <= |s| && Blank(s, p0, p) && Tiles(s, p, ts)
    ensures Tiles(s, p0, ts)
  {
  }

  lemma {:induction false} TilesInsert(s: string, p: nat, ts: seq<Token>, k: nat, w: string)
    requires p <= |s| && Tiles(s, p, ts) && k < |ts| - 1 && AllWhitespace(w)
    ensures End(ts[k]) <= |s|
    ensures Tiles(Insert(s, End(ts[k]), w), p, ts[..k + 1] + Shift(ts[k + 1..], |w|))
    decreases k
  {
    TilesAt(s, p, ts, k);
    if k == 0 {
      TilesInsertFirst(s, p, ts, w);
    } else {
      TilesHead(s, p, ts);
      TilesInsert(s, End(ts[0]), ts[1..], k - 1, w);
      TilesAt(s, End(ts[0]), ts[1..], k - 1);
      ConsShiftSlices(ts, k, |w|);
      TilesInsertStep(s, End(ts[k]), w, p, ts[0], ts[1..][..k] + Shift(ts[1..][k..], |w|));
    }
  }

  /** Whitespace inserted after token t, and after the tiling that follows it, leaves t in place. */
  lemma {:induction false} TilesInsertStep(s: string, q: nat, w: string, p: nat, t: Token, rest: seq<Token>)
    requires q <= |s| && p <= t.pos && End(t) <= q && TokenAt(s, t) && Blank(s, p, t.pos)
    requires t.kind != Eof && AllWhitespace(w)
    requires Tiles(Insert(s, q, w), End(t), rest)
    ensures Tiles(Insert(s, q, w), p, [t] + rest)
  {
    TokenAtInsert(s, q, w, t);
    BlankInsert(s, q, w, p, t.pos);
    TilesCons(Insert(s, q, w), p, t, rest);
  }

  lemma {:induction false} ConsShiftSlices(ts: seq<Token>, k: nat, d: nat)
    requires 0 < k < |ts|
    ensures ts[1..][k - 1] == ts[k]
    ensures [ts[0]] + (ts[1..][..k] + Shift(ts[1..][k..], d)) == ts[..k + 1] + Shift(ts[k + 1..], d)
  {
    assert ts[1..][k..] == ts[k + 1..];
    assert [ts[0]] + ts[1..][..k] == ts[..k + 1];
  }

  lemma {:induction false} TilesInsertFirst(s: string, p: nat, ts: seq<Token>, w: string)
    requires p <= |s| && Tiles(s, p, ts) && 0 < |ts| - 1 && AllWhitespace(w)
    ensures End(ts[0]) <= |s|
    ensures Tiles(Insert(s, End(ts[0]), w), p, ts[..1] + Shift(ts[1..], |w|))
  {
    var t := ts[0];
    var q := End(t);
    var s2 := Insert(s, q, w);
    var ts2 := ts[..1] + Shift(ts[1..], |w|);
    NonEofAdvances(s, t);
    TokenAtInsert(s, q, w, t);
    BlankInsert(s, q, w, p, t.pos);
    InsertSplit(s, q, w);
    TilesRebase(s[..q], s[..q] + w, s[q..], q, ts[1..]);
    TilesWiden(s2, q, q + |w|, Shift(ts[1..], |w|));
    assert ts2[0] == t;
    assert ts2[1..] == Shift(ts[1..], |w|);
  }

  lemma {:induction false} TilesAt(s: string, p: nat, ts: seq<Token>, i: nat)
    requires p <= |s| && Tiles(s, p, ts) && i < |ts|
    ensures p <= ts[i].pos && End(ts[i]) <= |s|
  {
    TilesLayout(s, p, ts);
  }

  lemma {:induction false} InsertSplit(s: string, q: nat, w: string)
    requires q <= |s| && AllWhitespace(w)
    ensures s == s[..q] + s[q..]
    ensures Insert(s, q, w) == (s[..q] + w) + s[q..]
    ensures Blank(Insert(s, q, w), q, q + |w|)
  {
    assert s == s[..q] + s[q..];
    var s2 := Insert(s, q, w);
    forall i | q <= i < q + |w| ensures IsWhitespace(s2[i]) {
      assert s2[i] == w[i - q];
    }
  }

  lemma {:induction false} TokenAtInsert(s: string, q: nat, w: string, t: Token)
    requires q <= |s| && TokenAt(s, t) && t.kind != Eof && End(t) <= q && AllWhitespace(w)
    ensures TokenAt(Insert(s, q, w), t)
  {
    var s2 := Insert(s, q, w);
    assert forall i :: 0 <= i < q ==> s2[i] == s[i];
    if End(t) == q && |w| > 0 {
      assert CharAt(s2, q) == Some(w[0]);
      assert IsWhitespace(w[0]);
    } else {
      assert CharAt(s2, End(t)) == CharAt(s, End(t));
    }
  }

  lemma {:induction false} BlankInsert(s: string, q: nat, w: string, i: nat, j: nat)
    requires i <= j <= q <= |s| && Blank(s, i, j)
    ensures Blank(Insert(s, q, w), i, j)
  {
    var s2 := Insert(s, q, w);
    assert forall k :: 0 <= k < q ==> s2[k] == s[k];
  }

  /**
   * Inserting whitespace right after token k leaves that token and all before
   * it as they were and moves every later token by the whitespace's length.
   */
  lemma {:induction false} LexInsertWhitespace(s: string, ts: seq<Token>, k: nat, w: string)
    requires |s| > 0 && Lex(s, 0) == Ok(ts) && k < |ts| - 1 && AllWhitespace(w)
    ensures End(ts[k]) <= |s|
    ensures Lex(Insert(s, End(ts[k]), w), 0) == Ok(ts[..k + 1] + Shift(ts[k + 1..], |w|))
  {
    LexTiles(s, 0);
    TilesInsert(s, 0, ts, k, w);
    TilesLex(Insert(s, End(ts[k]), w), 0, ts[..k + 1] + Shift(ts[k + 1..], |w|));
  }

  /** Leading whitespace shifts every token, the end-of-input token included. */
  lemma {:induction false} LexLeadingWhitespace(s: string, ts: seq<Token>, w: string)
    requires Lex(s, 0) == Ok(ts) && AllWhitespace(w)
    ensures Lex(w + s, 0) == Ok(Shift(ts, |w|))
  {
    LexTiles(s, 0);
    TilesLeadingWhitespace(s, ts, w);
    TilesLex(w + s, 0, Shift(ts, |w|));
  }

  lemma {:induction false} TilesLeadingWhitespace(s: string, ts: seq<Token>, w: string)
    requires Tiles(s, 0, ts) && AllWhitespace(w)
    ensures Tiles(w + s, 0, Shift(ts, |w|))
  {
    MovedPrefix(w, s);
    TilesMove(s, w + s, 0, |w|, 0, ts);
    BlankPrefix(w, s);
    TilesWiden(w + s, 0, |w|, Shift(ts, |w|));
  }

  lemma {:induction false} MovedPrefix(w: string, s: string)
    ensures MovedFrom(s, w + s, 0, |w|)
  {
    forall k | 0 <= k < |s| ensures (w + s)[k + |w|] == s[k] {
    }
  }

  lemma {:induction false} BlankPrefix(w: string, s: string)
    requires AllWhitespace(w)
    ensures Blank(w + s, 0, |w|)
  {
    forall k | 0 <= k < |w| ensures IsWhitespace((w + s)[k]) {
      assert (w + s)[k] == w[k];
    }
  }
}
