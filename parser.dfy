/**
 * The recursive-descent parser of lib/parser.js.
 *
 * The parser pulls tokens from the lexer one at a time, so a lexical error
 * behind a syntax error is never reached. The specification functions below
 * therefore work on a Cursor: the current token together with the lexer
 * position after it. The class Parser holds the same state in its fields and
 * each of its methods is proved to compute what the functions say.
 */
module Parsing {
  import opened Wrappers
  import opened Lexing

  /** The value of a ValueAssignment: a NUMBER token's numeric value or an IDENTIFIER's name. */
  datatype Literal = NumberLiteral(number: real) | StringLiteral(text: string)

  datatype PhraseType = Phrase | ValuePhrase | MapPhrase

  datatype Segment =
    | PathSegment(value: string, pos: nat)
    | PropertyAccess(property: string, pos: nat)
    | InputReference(pos: nat)
    | MapOperator(pos: nat)
    | ValueAssignment(key: string, literal: Literal, pos: nat)

  datatype PhraseNode = PhraseNode(kind: PhraseType, segments: seq<Segment>)

  datatype Program = Program(phrases: seq<PhraseNode>)

  /** A lexical error raised while pulling a token, or "Parser error at position pos: message". */
  datatype ParseError = LexFailure(lexError: LexError) | SyntaxError(pos: nat, message: string)

  // ---------------------------------------------------------------------------
  // Numeric value of a NUMBER lexeme (parseFloat, as an exact rational).

  function DigitValue(c: char): nat {
    if IsDigit(c) then c as int - '0' as int else 0
  }

  function DigitsValue(ds: string): nat {
    if |ds| == 0 then 0 else DigitsValue(ds[..|ds| - 1]) * 10 + DigitValue(ds[|ds| - 1])
  }

  function Pow10(k: nat): (r: nat)
    ensures r > 0
  {
    if k == 0 then 1 else 10 * Pow10(k - 1)
  }

  /** The index of the first '.', or the length when there is none. */
  function DotIndex(s: string): (i: nat)
    ensures i <= |s| && (i < |s| ==> s[i] == '.')
    ensures forall j :: 0 <= j < i ==> s[j] != '.'
  {
    if |s| == 0 || s[0] == '.' then 0 else 1 + DotIndex(s[1..])
  }

  /** The digits before the dot as a whole number plus the digits after it as a fraction. */
  function NumberValue(lexeme: string): real {
    var i := DotIndex(lexeme);
    var whole := DigitsValue(lexeme[..i]) as real;
    if i == |lexeme| then whole
    else
      var fraction := lexeme[i + 1..];
      whole + DigitsValue(fraction) as real / Pow10(|fraction|) as real
  }

  // ---------------------------------------------------------------------------
  // The specification, over cursors.

  /** The current token and the lexer position after it. */
  datatype Cursor = Cursor(tok: Token, next: nat)

  /** The cursor's token was read from the input and the lexer stands right after it. */
  ghost predicate Fits(s: string, c: Cursor) {
    c.next <= |s| && TokenAt(s, c.tok) && End(c.tok) == c.next
  }

  /** lexer.getNextToken() from position p. */
  function Pull(s: string, p: nat): (r: Result<Cursor, ParseError>)
    requires p <= |s|
    ensures r.Ok? ==> p <= r.value.tok.pos && p <= r.value.next <= |s| && Fits(s, r.value)
    ensures r.Ok? && r.value.tok.kind != Eof ==> p < r.value.next
    ensures r.Ok? && r.value.tok.kind == Eof ==> r.value.next == |s|
    ensures r.Err? ==> r.error.LexFailure?
  {
    match NextToken(s, p)
    case Ok((t, q)) =>
      NonEofAdvancesOrEnds(s, t);
      Ok(Cursor(t, q))
    case Err(e) => Err(LexFailure(e))
  }

  lemma {:induction false} NonEofAdvancesOrEnds(s: string, t: Token)
    requires TokenAt(s, t)
    ensures t.kind != Eof ==> t.pos < End(t)
    ensures t.kind == Eof ==> End(t) == |s|
  {
    assert LexemeOk(t.kind, t.text);
  }

  /** What is left to read: every eaten token that is not EOF brings it down. */
  function Measure(s: string, c: Cursor): nat
    requires c.next <= |s|
  {
    2 * (|s| - c.next) + (if c.tok.kind == Eof then 0 else 1)
  }

  function ExpectedMessage(kind: TokenType, got: TokenType): string {
    "Expected " + TypeName(kind) + ", got " + TypeName(got)
  }

  /** eat(kind): the current token and the cursor after it, or the "Expected ..." error. */
  function EatToken(s: string, c: Cursor, kind: TokenType): (r: Result<(Token, Cursor), ParseError>)
    requires c.next <= |s|
    ensures r.Ok? ==> r.value.0 == c.tok && c.tok.kind == kind && r.value.1.next <= |s|
    ensures r.Ok? && kind != Eof ==> Measure(s, r.value.1) < Measure(s, c)
    ensures r.Err? && r.error.SyntaxError? ==>
      c.tok.kind != kind && r.error == SyntaxError(c.tok.pos, ExpectedMessage(kind, c.tok.kind))
  {
    if c.tok.kind == kind then
      var c' :- Pull(s, c.next);
      Ok((c.tok, c'))
    else
      Err(SyntaxError(c.tok.pos, ExpectedMessage(kind, c.tok.kind)))
  }

  /** How one pass of the phrase loop ends: go round again, or leave the loop. */
  datatype Outcome = Continue(cursor: Cursor, node: PhraseNode) | Break(cursor: Cursor, node: PhraseNode)

  predicate Ends(c: Cursor) {
    c.tok.kind == Semicolon || c.tok.kind == Eof
  }

  function ValueOf(t: Token): Literal {
    if t.kind == Number then NumberLiteral(NumberValue(t.text)) else StringLiteral(t.text)
  }

  /**
   * One pass of the loop in parsePhrase, at a token that is neither ';' nor EOF.
   * Each successful pass eats at least one token; the segments only grow, by at
   * most one, except that a value assignment replaces them all.
   */
  function Step(s: string, c: Cursor, node: PhraseNode): (r: Result<Outcome, ParseError>)
    requires c.next <= |s| && !Ends(c)
    ensures r.Ok? ==> r.value.cursor.next <= |s| && Measure(s, r.value.cursor) < Measure(s, c)
    ensures r.Ok? && r.value.Continue? ==>
      && node.segments <= r.value.node.segments
      && |r.value.node.segments| <= |node.segments| + 1
      && (r.value.node.kind == node.kind || r.value.node.kind == MapPhrase)
    // '.' adds nothing and must be followed by an identifier, '#' or '$'
    ensures c.tok.kind == Dot && r.Ok? ==>
      && r.value == Continue(r.value.cursor, node)
      && r.value.cursor.tok.kind in {Identifier, Hash, Dollar}
    // '#' must be followed by an identifier, which becomes a PropertyAccess at the '#'
    ensures c.tok.kind == Hash && r.Ok? ==>
      && r.value.Continue? && r.value.node.kind == node.kind
      && |r.value.node.segments| == |node.segments| + 1
      && r.value.node.segments[|node.segments|].PropertyAccess?
      && r.value.node.segments[|node.segments|].pos == c.tok.pos
    ensures c.tok.kind == Hash && r.Err? && r.error.SyntaxError? ==>
      && c.next <= r.error.pos
      && exists k :: k != Identifier && r.error.message == ExpectedMessage(Identifier, k)
    // "$>" appends a MapOperator at the '$' and keeps what came before
    ensures c.tok.kind == Dollar && r.Ok? && r.value.Continue? ==>
      r.value.node == PhraseNode(MapPhrase, node.segments + [MapOperator(c.tok.pos)])
    // a lone '$' appends an InputReference and ends the phrase at ';' or EOF
    ensures c.tok.kind == Dollar && r.Ok? && r.value.Break? ==>
      && r.value.node == node.(segments := node.segments + [InputReference(c.tok.pos)])
      && Ends(r.value.cursor)
    // "IDENT : value" makes a ValuePhrase with that one assignment; a lone identifier is a path segment
    ensures c.tok.kind == Identifier && r.Ok? && r.value.Break? ==>
      && r.value.node.kind == ValuePhrase && |r.value.node.segments| == 1
      && r.value.node.segments[0].ValueAssignment?
      && r.value.node.segments[0].key == c.tok.text && r.value.node.segments[0].pos == c.tok.pos
    ensures c.tok.kind == Identifier && r.Ok? && r.value.Continue? ==>
      r.value.node == node.(segments := node.segments + [PathSegment(c.tok.text, c.tok.pos)])
    // no other token may stand here
    ensures c.tok.kind in {Arrow, Colon, Number} ==> r == Err(SyntaxError(c.tok.pos, "Unexpected token"))
  {
    match c.tok.kind
    case Dollar =>
      var dollarPos := c.tok.pos;
      var e1 :- EatToken(s, c, Dollar);
      var c1 := e1.1;
      if c1.tok.kind == Arrow then
        var e2 :- EatToken(s, c1, Arrow);
        Ok(Continue(e2.1, PhraseNode(MapPhrase, node.segments + [MapOperator(dollarPos)])))
      else
        var node' := node.(segments := node.segments + [InputReference(dollarPos)]);
        if !Ends(c1) then Err(SyntaxError(c1.tok.pos, "Unexpected token"))
        else Ok(Break(c1, node'))
    case Dot =>
      var e1 :- EatToken(s, c, Dot);
      var c1 := e1.1;
      if c1.tok.kind != Identifier && c1.tok.kind != Hash && c1.tok.kind != Dollar then
        Err(SyntaxError(c1.tok.pos, "Unexpected token"))
      else
        Ok(Continue(c1, node))
    case Hash =>
      var hashPos := c.tok.pos;
      var e1 :- EatToken(s, c, Hash);
      var c1 := e1.1;
      if c1.tok.kind != Identifier then
        Err(SyntaxError(c1.tok.pos, ExpectedMessage(Identifier, c1.tok.kind)))
      else
        var e2 :- EatToken(s, c1, Identifier);
        Ok(Continue(e2.1, node.(segments := node.segments + [PropertyAccess(e2.0.text, hashPos)])))
    case Identifier =>
      var e1 :- EatToken(s, c, Identifier);
      var identifier := e1.0;
      var c1 := e1.1;
      if c1.tok.kind == Colon then
        var e2 :- EatToken(s, c1, Colon);
        var c2 := e2.1;
        if c2.tok.kind != Number && c2.tok.kind != Identifier then
          Err(SyntaxError(c2.tok.pos, "Expected number or identifier after colon"))
        else
          var e3 :- EatToken(s, c2, c2.tok.kind);
          var assignment := ValueAssignment(identifier.text, ValueOf(e3.0), identifier.pos);
          Ok(Break(e3.1, PhraseNode(ValuePhrase, [assignment])))
      else
        Ok(Continue(c1, node.(segments := node.segments + [PathSegment(identifier.text, identifier.pos)])))
    case _ =>
      Err(SyntaxError(c.tok.pos, "Unexpected token"))
  }

  /** The while loop of parsePhrase, from cursor c with the node built so far. */
  function PhraseLoop(s: string, c: Cursor, node: PhraseNode): (r: Result<(Cursor, PhraseNode), ParseError>)
    requires c.next <= |s|
    ensures r.Ok? ==> r.value.0.next <= |s| && Measure(s, r.value.0) <= Measure(s, c)
    ensures r.Ok? && !Ends(c) ==> Measure(s, r.value.0) < Measure(s, c)
    decreases Measure(s, c)
  {
    if Ends(c) then Ok((c, node))
    else
      var o :- Step(s, c, node);
      match o
      case Continue(c', node') => PhraseLoop(s, c', node')
      case Break(c', node') => Ok((c', node'))
  }

  /** parsePhrase: the phrase and the cursor after it and after at most one ';'. */
  function PhraseFrom(s: string, c: Cursor): (r: Result<(Cursor, PhraseNode), ParseError>)
    requires c.next <= |s|
    ensures c.tok.kind == Dot ==> r == Err(SyntaxError(c.tok.pos, ExpectedMessage(Identifier, Dot)))
    ensures r.Ok? ==> r.value.0.next <= |s| && Measure(s, r.value.0) <= Measure(s, c)
    ensures r.Ok? && c.tok.kind != Eof ==> Measure(s, r.value.0) < Measure(s, c)
  {
    if c.tok.kind == Dot then
      Err(SyntaxError(c.tok.pos, ExpectedMessage(Identifier, Dot)))
    else
      var p :- PhraseLoop(s, c, PhraseNode(Phrase, []));
      if p.0.tok.kind == Semicolon then
        var e :- EatToken(s, p.0, Semicolon);
        Ok((e.1, p.1))
      else
        Ok(p)
  }

  /** The do-while loop of parse, from a cursor that is not at EOF. */
  function Phrases(s: string, c: Cursor, done: seq<PhraseNode>): (r: Result<seq<PhraseNode>, ParseError>)
    requires c.next <= |s| && c.tok.kind != Eof
    ensures r.Ok? ==> done < r.value
    decreases Measure(s, c)
  {
    var p :- PhraseFrom(s, c);
    var done' := done + [p.1];
    assert done < done';
    if p.0.tok.kind == Eof then Ok(done') else Phrases(s, p.0, done')
  }

  /** parse(): no phrases when the first token is EOF, otherwise at least one. */
  function ProgramFrom(s: string, c: Cursor): (r: Result<Program, ParseError>)
    requires c.next <= |s|
    ensures c.tok.kind == Eof <==> r == Ok(Program([]))
  {
    if c.tok.kind == Eof then Ok(Program([]))
    else
      var ps :- Phrases(s, c, []);
      Ok(Program(ps))
  }

  /** parse(input) for a non-empty input (the empty string makes the lexer crash). */
  function ParseText(s: string): Result<Program, ParseError>
    requires |s| > 0
  {
    var c :- Pull(s, 0);
    ProgramFrom(s, c)
  }

  // ---------------------------------------------------------------------------
  // The parser object.

  class Parser {
    const lexer: Lexer
    var currentToken: Token

    ghost predicate Valid()
      reads this, lexer
    {
      lexer.Valid()
    }

    function At(): Cursor
      reads this, lexer
    {
      Cursor(currentToken, lexer.position)
    }

    /**
     * The source's constructor also pulls the first token, which may fail; here
     * the caller pulls it (see ParseInput) and hands it over.
     */
    constructor(lexer: Lexer, first: Token)
      requires lexer.Valid()
      ensures Valid() && this.lexer == lexer && currentToken == first
    {
      this.lexer := lexer;
      currentToken := first;
    }

    /** error(message): the error is reported at the current token. */
    function Error(message: string): (e: ParseError)
      reads this
      ensures e.SyntaxError? && e.pos == currentToken.pos && e.message == message
    {
      SyntaxError(currentToken.pos, message)
    }

    method Eat(kind: TokenType) returns (r: Result<Token, ParseError>)
      requires Valid()
      modifies this, lexer
      ensures Valid()
      ensures match EatToken(lexer.input, old(At()), kind)
        case Ok((t, c)) => r == Ok(t) && At() == c
        case Err(e) => r == Err(e)
    {
      if currentToken.kind == kind {
        var token := currentToken;
        var next := lexer.GetNextToken();
        if next.Err? {
          return Err(LexFailure(next.error));
        }
        currentToken := next.value;
        return Ok(token);
      }
      return Err(Error(ExpectedMessage(kind, currentToken.kind)));
    }

    /**
     * One pass of parsePhrase's loop at a '$': "$>" appends a MapOperator and
     * goes on, a lone '$' appends an InputReference and must end the phrase.
     * The boolean of the result says that the loop stops after this pass.
     */
    method StepDollar(node: PhraseNode) returns (r: Result<(PhraseNode, bool), ParseError>)
      requires Valid() && currentToken.kind == Dollar
      modifies this, lexer
      ensures Valid()
      ensures match Step(lexer.input, old(At()), node)
        case Ok(o) => r == Ok((o.node, o.Break?)) && At() == o.cursor
        case Err(e) => r == Err(e)
    {
      StepDollarCases(lexer.input, At(), node);
      var dollarPos := currentToken.pos;
      var e := Eat(Dollar);
      if e.Err? {
        return Err(e.error);
      }
      if currentToken.kind == Arrow {
        e := Eat(Arrow);
        if e.Err? {
          return Err(e.error);
        }
        return Ok((PhraseNode(MapPhrase, node.segments + [MapOperator(dollarPos)]), false));
      }
      if currentToken.kind != Semicolon && currentToken.kind != Eof {
        return Err(Error("Unexpected token"));
      }
      return Ok((node.(segments := node.segments + [InputReference(dollarPos)]), true));
    }

    /** One pass at a '.': it adds nothing and must be followed by an identifier, '#' or '$'. */
    method StepDot(node: PhraseNode) returns (r: Result<(PhraseNode, bool), ParseError>)
      requires Valid() && currentToken.kind == Dot
      modifies this, lexer
      ensures Valid()
      ensures match Step(lexer.input, old(At()), node)
        case Ok(o) => r == Ok((o.node, o.Break?)) && At() == o.cursor
        case Err(e) => r == Err(e)
    {
      StepDotCases(lexer.input, At(), node);
      var e := Eat(Dot);
      if e.Err? {
        return Err(e.error);
      }
      if currentToken.kind != Identifier && currentToken.kind != Hash && currentToken.kind != Dollar {
        return Err(Error("Unexpected token"));
      }
      return Ok((node, false));
    }

    /** One pass at a '#': the identifier after it becomes a PropertyAccess. */
    method StepHash(node: PhraseNode) returns (r: Result<(PhraseNode, bool), ParseError>)
      requires Valid() && currentToken.kind == Hash
      modifies this, lexer
      ensures Valid()
      ensures match Step(lexer.input, old(At()), node)
        case Ok(o) => r == Ok((o.node, o.Break?)) && At() == o.cursor
        case Err(e) => r == Err(e)
    {
      StepHashCases(lexer.input, At(), node);
      var hashPos := currentToken.pos;
      var e := Eat(Hash);
      if e.Err? {
        return Err(e.error);
      }
      if currentToken.kind != Identifier {
        return Err(Error(ExpectedMessage(Identifier, currentToken.kind)));
      }
      var propertyToken := Eat(Identifier);
      if propertyToken.Err? {
        return Err(propertyToken.error);
      }
      return Ok((node.(segments := node.segments + [PropertyAccess(propertyToken.value.text, hashPos)]), false));
    }

    /**
     * One pass at an identifier: "IDENT : value" replaces the phrase by a
     * ValuePhrase and ends it, a lone identifier appends a PathSegment.
     */
    method StepIdentifier(node: PhraseNode) returns (r: Result<(PhraseNode, bool), ParseError>)
      requires Valid() && currentToken.kind == Identifier
      modifies this, lexer
      ensures Valid()
      ensures match Step(lexer.input, old(At()), node)
        case Ok(o) => r == Ok((o.node, o.Break?)) && At() == o.cursor
        case Err(e) => r == Err(e)
    {
      StepIdentifierCases(lexer.input, At(), node);
      var identifier := Eat(Identifier);
      if identifier.Err? {
        return Err(identifier.error);
      }
      if currentToken.kind != Colon {
        return Ok((node.(segments := node.segments + [PathSegment(identifier.value.text, identifier.value.pos)]), false));
      }
      var e := Eat(Colon);
      if e.Err? {
        return Err(e.error);
      }
      var value: Literal;
      if currentToken.kind == Number {
        var v := Eat(Number);
        if v.Err? {
          return Err(v.error);
        }
        value := NumberLiteral(NumberValue(v.value.text));
      } else if currentToken.kind == Identifier {
        var v := Eat(Identifier);
        if v.Err? {
          return Err(v.error);
        }
        value := StringLiteral(v.value.text);
      } else {
        return Err(Error("Expected number or identifier after colon"));
      }
      return Ok((PhraseNode(ValuePhrase, [ValueAssignment(identifier.value.text, value, identifier.value.pos)]), true));
    }

    method ParsePhrase() returns (r: Result<PhraseNode, ParseError>)
      requires Valid()
      modifies this, lexer
      ensures Valid()
      ensures match PhraseFrom(lexer.input, old(At()))
        case Ok((c, node)) => r == Ok(node) && At() == c
        case Err(e) => r == Err(e)
    {
      var node := PhraseNode(Phrase, []);
      if currentToken.kind == Dot {
        return Err(Error(ExpectedMessage(Identifier, Dot)));
      }
      ghost var s := lexer.input;
      ghost var c0 := At();
      while currentToken.kind != Semicolon && currentToken.kind != Eof
        invariant Valid() && lexer.input == s
        invariant PhraseLoop(s, c0, PhraseNode(Phrase, [])) == PhraseLoop(s, At(), node)
        decreases Measure(s, At())
      {
        ghost var c := At();
        ghost var before := node;
        var pass: Result<(PhraseNode, bool), ParseError>;
        if currentToken.kind == Dollar {
          pass := StepDollar(node);
        } else if currentToken.kind == Dot {
          pass := StepDot(node);
        } else if currentToken.kind == Hash {
          pass := StepHash(node);
        } else if currentToken.kind == Identifier {
          pass := StepIdentifier(node);
        } else {
          pass := Err(Error("Unexpected token"));
        }
        if pass.Err? {
          LoopFails(s, c0, c, before, pass.error);
          return Err(pass.error);
        }
        node := pass.value.0;
        if pass.value.1 {
          LoopBreak(s, c, before, At(), node);
          break;
        }
        LoopContinue(s, c, before, At(), node);
      }
      if Ends(At()) {
        LoopEnds(s, At(), node);
      }
      assert PhraseLoop(s, c0, PhraseNode(Phrase, [])) == Ok((At(), node));
      if currentToken.kind == Semicolon {
        var e := Eat(Semicolon);
        if e.Err? {
          return Err(e.error);
        }
      }
      return Ok(node);
    }

    method Parse() returns (r: Result<Program, ParseError>)
      requires Valid()
      modifies this, lexer
      ensures r == ProgramFrom(lexer.input, old(At()))
    {
      if currentToken.kind == Eof {
        return Ok(Program([]));
      }
      ghost var s := lexer.input;
      ghost var c0 := At();
      var phrases: seq<PhraseNode> := [];
      while true
        invariant Valid() && lexer.input == s && currentToken.kind != Eof
        invariant Phrases(s, c0, []) == Phrases(s, At(), phrases)
        decreases Measure(s, At())
      {
        var phrase := ParsePhrase();
        if phrase.Err? {
          return Err(phrase.error);
        }
        phrases := phrases + [phrase.value];
        if currentToken.kind == Eof {
          break;
        }
      }
      return Ok(Program(phrases));
    }
  }

  /** parse(input): build the lexer, pull the first token, parse. */
  method ParseInput(input: string) returns (r: Result<Program, ParseError>)
    requires |input| > 0
    ensures r == ParseText(input)
  {
    var lexer := new Lexer(input);
    var first := lexer.GetNextToken();
    if first.Err? {
      return Err(LexFailure(first.error));
    }
    var parser := new Parser(lexer, first.value);
    r := parser.Parse();
  }

  // ---------------------------------------------------------------------------
  // Empty input.

  /** The program has no phrases exactly when the input is whitespace only. */
  lemma {:induction false} ParseNothingIffBlank(s: string)
    requires |s| > 0
    ensures ParseText(s) == Ok(Program([])) <==> AllWhitespace(s)
  {
    if AllWhitespace(s) {
      SkipWsExact(s, 0, |s|);
    }
    if ParseText(s) == Ok(Program([])) {
      var t := Pull(s, 0).value.tok;
      assert t.kind == Eof;
      NonEofAdvancesOrEnds(s, t);
      assert LexemeOk(t.kind, t.text);
      assert Blank(s, 0, |s|);
    }
  }

  // ---------------------------------------------------------------------------
  // The shape of a phrase and where its segments come from.

  /**
   * A ValuePhrase is one ValueAssignment and nothing else; a MapPhrase is one
   * that holds a MapOperator; an InputReference can only be last.
   */
  ghost predicate WellShaped(n: PhraseNode) {
    && (n.kind == ValuePhrase ==> |n.segments| == 1)
    && (forall i :: 0 <= i < |n.segments| ==> (n.segments[i].ValueAssignment? <==> n.kind == ValuePhrase))
    && (n.kind == MapPhrase <==> exists i :: 0 <= i < |n.segments| && n.segments[i].MapOperator?)
    && (forall i :: 0 <= i < |n.segments| - 1 ==> !n.segments[i].InputReference?)
  }

  /** Each segment sits at the source offset of the token it was made from. */
  ghost predicate Anchored(s: string, seg: Segment) {
    match seg
    case PathSegment(name, pos) => TokenAt(s, Token(Identifier, name, pos))
    case PropertyAccess(property, pos) =>
      && pos < |s| && s[pos] == '#'
      && exists q :: pos < q && TokenAt(s, Token(Identifier, property, q))
    case InputReference(pos) => pos < |s| && s[pos] == '$'
    case MapOperator(pos) => pos < |s| && s[pos] == '$'
    case ValueAssignment(key, _, pos) => TokenAt(s, Token(Identifier, key, pos))
  }

  ghost predicate AllAnchored(s: string, n: PhraseNode) {
    forall i :: 0 <= i < |n.segments| ==> Anchored(s, n.segments[i])
  }

  /** A node the loop may still extend. */
  ghost predicate Open(s: string, n: PhraseNode) {
    && n.kind != ValuePhrase && WellShaped(n) && AllAnchored(s, n)
    && forall i :: 0 <= i < |n.segments| ==> !n.segments[i].InputReference?
  }

  lemma {:induction false} PunctuationAt(s: string, t: Token, k: TokenType, c: char)
    requires TokenAt(s, t) && t.kind == k && Punctuation(c) == Some(k)
    ensures t.pos < |s| && s[t.pos] == c
  {
    assert LexemeOk(t.kind, t.text);
    assert s[t.pos] == t.text[0];
  }

  lemma {:induction false} AppendOpen(s: string, n: PhraseNode, seg: Segment, kind: PhraseType)
    requires Open(s, n) && Anchored(s, seg)
    requires !seg.InputReference? && !seg.ValueAssignment?
    requires kind == (if seg.MapOperator? then MapPhrase else n.kind)
    ensures Open(s, PhraseNode(kind, n.segments + [seg]))
  {
    var n' := PhraseNode(kind, n.segments + [seg]);
    if seg.MapOperator? {
      assert n'.segments[|n.segments|].MapOperator?;
    }
    if kind == MapPhrase && !seg.MapOperator? {
      var i :| 0 <= i < |n.segments| && n.segments[i].MapOperator?;
      assert n'.segments[i].MapOperator?;
    }
    if kind != MapPhrase {
      assert forall i :: 0 <= i < |n'.segments| ==> !n'.segments[i].MapOperator? by {
        forall i | 0 <= i < |n'.segments| ensures !n'.segments[i].MapOperator? {
          if i < |n.segments| { assert n'.segments[i] == n.segments[i]; }
        }
      }
    }
  }

  /** A finished phrase: well shaped, every segment anchored. */
  ghost predicate Good(s: string, n: PhraseNode) {
    WellShaped(n) && AllAnchored(s, n)
  }

  /** What a pass of the loop keeps: the cursor fits, the node stays open or is finished. */
  ghost predicate StepKept(s: string, r: Result<Outcome, ParseError>) {
    r.Ok? ==>
      && r.value.cursor.next <= |s| && Fits(s, r.value.cursor)
      && (r.value.Continue? ==> Open(s, r.value.node))
      && (r.value.Break? ==> Good(s, r.value.node))
  }

  lemma {:induction false} StepKeepsShape(s: string, c: Cursor, node: PhraseNode)
    requires Fits(s, c) && !Ends(c) && Open(s, node)
    ensures StepKept(s, Step(s, c, node))
  {
    match c.tok.kind
    case Dollar => DollarKeepsShape(s, c, node);
    case Dot =>
    case Hash => HashKeepsShape(s, c, node);
    case Identifier => IdentifierKeepsShape(s, c, node);
    case _ =>
  }

  lemma {:induction false} DollarKeepsShape(s: string, c: Cursor, node: PhraseNode)
    requires Fits(s, c) && c.tok.kind == Dollar && Open(s, node)
    ensures StepKept(s, Step(s, c, node))
  {
    var r := Step(s, c, node);
    if r.Ok? {
      PunctuationAt(s, c.tok, Dollar, '$');
      var c1 := Pull(s, c.next).value;
      if c1.tok.kind == Arrow {
        AppendOpen(s, node, MapOperator(c.tok.pos), MapPhrase);
      } else {
        var n' := r.value.node;
        assert n'.segments == node.segments + [InputReference(c.tok.pos)];
        assert forall i :: 0 <= i < |node.segments| ==> n'.segments[i] == node.segments[i];
        assert !n'.segments[|node.segments|].MapOperator?;
      }
    }
  }

  lemma {:induction false} HashKeepsShape(s: string, c: Cursor, node: PhraseNode)
    requires Fits(s, c) && c.tok.kind == Hash && Open(s, node)
    ensures StepKept(s, Step(s, c, node))
  {
    var r := Step(s, c, node);
    if r.Ok? {
      PunctuationAt(s, c.tok, Hash, '#');
      var c1 := Pull(s, c.next).value;
      var seg := PropertyAccess(c1.tok.text, c.tok.pos);
      assert c1.tok == Token(Identifier, c1.tok.text, c1.tok.pos);
      assert c.tok.pos < c1.tok.pos by { NonEofAdvancesOrEnds(s, c.tok); }
      AppendOpen(s, node, seg, node.kind);
    }
  }

  lemma {:induction false} IdentifierKeepsShape(s: string, c: Cursor, node: PhraseNode)
    requires Fits(s, c) && c.tok.kind == Identifier && Open(s, node)
    ensures StepKept(s, Step(s, c, node))
  {
    var r := Step(s, c, node);
    if r.Ok? {
      var c1 := Pull(s, c.next).value;
      assert c.tok == Token(Identifier, c.tok.text, c.tok.pos);
      if c1.tok.kind != Colon {
        AppendOpen(s, node, PathSegment(c.tok.text, c.tok.pos), node.kind);
      }
    }
  }

  lemma {:induction false} LoopKeepsShape(s: string, c: Cursor, node: PhraseNode)
    requires Fits(s, c) && Open(s, node)
    ensures PhraseLoop(s, c, node).Ok? ==>
      Fits(s, PhraseLoop(s, c, node).value.0) && Good(s, PhraseLoop(s, c, node).value.1)
    decreases Measure(s, c)
  {
    if !Ends(c) {
      StepKeepsShape(s, c, node);
      var r := Step(s, c, node);
      assert StepKept(s, r);
      if r.Ok? && r.value.Continue? {
        LoopKeepsShape(s, r.value.cursor, r.value.node);
      }
    }
  }

  lemma {:induction false} PhraseKeepsShape(s: string, c: Cursor)
    requires Fits(s, c)
    ensures PhraseFrom(s, c).Ok? ==>
      Fits(s, PhraseFrom(s, c).value.0) && Good(s, PhraseFrom(s, c).value.1)
  {
    if c.tok.kind != Dot {
      var empty := PhraseNode(Phrase, []);
      LoopKeepsShape(s, c, empty);
      var p := PhraseLoop(s, c, empty);
      if p.Ok? {
        PhraseEatsOneSemicolon(s, c, p.value.0, p.value.1);
      }
    }
  }

  lemma {:induction false} PhrasesKeepShape(s: string, c: Cursor, done: seq<PhraseNode>)
    requires Fits(s, c) && c.tok.kind != Eof
    requires forall i :: 0 <= i < |done| ==> Good(s, done[i])
    ensures Phrases(s, c, done).Ok? ==> forall i :: 0 <= i < |Phrases(s, c, done).value| ==> Good(s, Phrases(s, c, done).value[i])
    decreases Measure(s, c)
  {
    PhraseKeepsShape(s, c);
    var p := PhraseFrom(s, c);
    if p.Ok? {
      var done' := done + [p.value.1];
      assert forall i :: 0 <= i < |done'| ==> Good(s, done'[i]);
      if p.value.0.tok.kind != Eof {
        PhrasesKeepShape(s, p.value.0, done');
      }
    }
  }

  /**
   * Every parsed phrase is well shaped, and every segment sits at the offset of
   * the token it came from: path segments and assignment keys are the maximal
   * identifiers at their positions, '#' and '$' stand where their segments say.
   */
  lemma {:induction false} ParsedShape(s: string)
    requires |s| > 0
    ensures ParseText(s).Ok? ==>
      forall i :: 0 <= i < |ParseText(s).value.phrases| ==> Good(s, ParseText(s).value.phrases[i])
  {
    var c := Pull(s, 0);
    if c.Ok? && c.value.tok.kind != Eof {
      PhrasesKeepShape(s, c.value, []);
    }
  }

  // ---------------------------------------------------------------------------
  // The parser reads the token stream up to EOF: it succeeds only on input that
  // tokenize accepts, and a lexical error it reports is the one tokenize reports.

  /** What tokenize still yields from a cursor: its token and everything after it. */
  ghost function Rest(s: string, c: Cursor): Result<seq<Token>, LexError>
    requires c.next <= |s|
  {
    LexAfter(s, c.tok, c.next)
  }

  /** From c the scan fails exactly when it fails from c', and with the same error. */
  ghost predicate SameFate(s: string, c: Cursor, c': Cursor)
    requires c.next <= |s| && c'.next <= |s|
  {
    (Rest(s, c).Ok? <==> Rest(s, c').Ok?) && (Rest(s, c').Err? ==> Rest(s, c) == Rest(s, c'))
  }

  lemma {:induction false} PullRest(s: string, p: nat)
    requires p <= |s|
    ensures Pull(s, p).Ok? ==> Lex(s, p) == Rest(s, Pull(s, p).value)
    ensures Pull(s, p).Err? ==> Lex(s, p) == Err(Pull(s, p).error.lexError)
  {
  }

  lemma {:induction false} EatRest(s: string, c: Cursor, kind: TokenType)
    requires c.next <= |s| && kind != Eof
    ensures EatToken(s, c, kind).Ok? ==> SameFate(s, c, EatToken(s, c, kind).value.1)
    ensures EatToken(s, c, kind).Err? && EatToken(s, c, kind).error.LexFailure? ==>
      Rest(s, c) == Err(EatToken(s, c, kind).error.lexError)
  {
    if c.tok.kind == kind {
      PullRest(s, c.next);
    }
  }

  lemma {:induction false} StepRest(s: string, c: Cursor, node: PhraseNode)
    requires c.next <= |s| && !Ends(c)
    ensures Step(s, c, node).Ok? ==> SameFate(s, c, Step(s, c, node).value.cursor)
    ensures Step(s, c, node).Err? && Step(s, c, node).error.LexFailure? ==>
      Rest(s, c) == Err(Step(s, c, node).error.lexError)
  {
    match c.tok.kind
    case Dollar => StepRestDollar(s, c, node);
    case Dot => EatRest(s, c, Dot);
    case Hash => StepRestHash(s, c, node);
    case Identifier => StepRestIdentifier(s, c, node);
    case _ =>
  }

  lemma {:induction false} StepRestDollar(s: string, c: Cursor, node: PhraseNode)
    requires c.next <= |s| && c.tok.kind == Dollar
    ensures Step(s, c, node).Ok? ==> SameFate(s, c, Step(s, c, node).value.cursor)
    ensures Step(s, c, node).Err? && Step(s, c, node).error.LexFailure? ==>
      Rest(s, c) == Err(Step(s, c, node).error.lexError)
  {
    EatRest(s, c, Dollar);
    var e1 := EatToken(s, c, Dollar);
    if e1.Ok? && e1.value.1.tok.kind == Arrow {
      EatRest(s, e1.value.1, Arrow);
    }
  }

  lemma {:induction false} StepRestHash(s: string, c: Cursor, node: PhraseNode)
    requires c.next <= |s| && c.tok.kind == Hash
    ensures Step(s, c, node).Ok? ==> SameFate(s, c, Step(s, c, node).value.cursor)
    ensures Step(s, c, node).Err? && Step(s, c, node).error.LexFailure? ==>
      Rest(s, c) == Err(Step(s, c, node).error.lexError)
  {
    EatRest(s, c, Hash);
    var e1 := EatToken(s, c, Hash);
    if e1.Ok? && e1.value.1.tok.kind == Identifier {
      EatRest(s, e1.value.1, Identifier);
    }
  }

  lemma {:induction false} StepRestIdentifier(s: string, c: Cursor, node: PhraseNode)
    requires c.next <= |s| && c.tok.kind == Identifier
    ensures Step(s, c, node).Ok? ==> SameFate(s, c, Step(s, c, node).value.cursor)
    ensures Step(s, c, node).Err? && Step(s, c, node).error.LexFailure? ==>
      Rest(s, c) == Err(Step(s, c, node).error.lexError)
  {
    var r := Step(s, c, node);
    StepIdentifierCases(s, c, node);
    EatRest(s, c, Identifier);
    var e1 := EatToken(s, c, Identifier);
    if e1.Ok? && e1.value.1.tok.kind == Colon {
      ColonRest(s, e1.value.1, c.tok, r);
      if r.Ok? {
        FateChain(s, c, e1.value.1, r.value.cursor);
      }
    }
  }

  /** How the identifier branch of a pass ends, once ':' stands after the identifier id. */
  ghost predicate ColonOutcome(s: string, c1: Cursor, id: Token, r: Result<Outcome, ParseError>)
    requires c1.next <= |s|
  {
    var e2 := EatToken(s, c1, Colon);
    && (e2.Err? ==> r == Err(e2.error))
    && (e2.Ok? && e2.value.1.tok.kind !in {Number, Identifier} ==>
          r == Err(SyntaxError(e2.value.1.tok.pos, "Expected number or identifier after colon")))
    && (e2.Ok? && e2.value.1.tok.kind in {Number, Identifier} ==>
          var e3 := EatToken(s, e2.value.1, e2.value.1.tok.kind);
          && (e3.Err? ==> r == Err(e3.error))
          && (e3.Ok? ==> r == Ok(Break(e3.value.1,
                PhraseNode(ValuePhrase, [ValueAssignment(id.text, ValueOf(e3.value.0), id.pos)])))))
  }

  lemma {:induction false} StepIdentifierCases(s: string, c: Cursor, node: PhraseNode)
    requires c.next <= |s| && c.tok.kind == Identifier
    ensures var r := Step(s, c, node);
            var e1 := EatToken(s, c, Identifier);
      && (e1.Err? ==> r == Err(e1.error))
      && (e1.Ok? && e1.value.1.tok.kind != Colon ==>
            r == Ok(Continue(e1.value.1, node.(segments := node.segments + [PathSegment(c.tok.text, c.tok.pos)]))))
      && (e1.Ok? && e1.value.1.tok.kind == Colon ==> ColonOutcome(s, e1.value.1, c.tok, r))
  {
  }

  lemma {:induction false} StepDollarCases(s: string, c: Cursor, node: PhraseNode)
    requires c.next <= |s| && c.tok.kind == Dollar
    ensures var r := Step(s, c, node);
            var e1 := EatToken(s, c, Dollar);
      && (e1.Err? ==> r == Err(e1.error))
      && (e1.Ok? && e1.value.1.tok.kind == Arrow ==>
            var e2 := EatToken(s, e1.value.1, Arrow);
            && (e2.Err? ==> r == Err(e2.error))
            && (e2.Ok? ==> r == Ok(Continue(e2.value.1, PhraseNode(MapPhrase, node.segments + [MapOperator(c.tok.pos)])))))
      && (e1.Ok? && e1.value.1.tok.kind != Arrow && !Ends(e1.value.1) ==>
            r == Err(SyntaxError(e1.value.1.tok.pos, "Unexpected token")))
      && (e1.Ok? && e1.value.1.tok.kind != Arrow && Ends(e1.value.1) ==>
            r == Ok(Break(e1.value.1, node.(segments := node.segments + [InputReference(c.tok.pos)]))))
  {
  }

  lemma {:induction false} StepDotCases(s: string, c: Cursor, node: PhraseNode)
    requires c.next <= |s| && c.tok.kind == Dot
    ensures var r := Step(s, c, node);
            var e1 := EatToken(s, c, Dot);
      && (e1.Err? ==> r == Err(e1.error))
      && (e1.Ok? && e1.value.1.tok.kind !in {Identifier, Hash, Dollar} ==>
            r == Err(SyntaxError(e1.value.1.tok.pos, "Unexpected token")))
      && (e1.Ok? && e1.value.1.tok.kind in {Identifier, Hash, Dollar} ==> r == Ok(Continue(e1.value.1, node)))
  {
  }

  lemma {:induction false} StepHashCases(s: string, c: Cursor, node: PhraseNode)
    requires c.next <= |s| && c.tok.kind == Hash
    ensures var r := Step(s, c, node);
            var e1 := EatToken(s, c, Hash);
      && (e1.Err? ==> r == Err(e1.error))
      && (e1.Ok? && e1.value.1.tok.kind != Identifier ==>
            r == Err(SyntaxError(e1.value.1.tok.pos, ExpectedMessage(Identifier, e1.value.1.tok.kind))))
      && (e1.Ok? && e1.value.1.tok.kind == Identifier ==>
            var e2 := EatToken(s, e1.value.1, Identifier);
            && (e2.Err? ==> r == Err(e2.error))
            && (e2.Ok? ==> r == Ok(Continue(e2.value.1,
                  node.(segments := node.segments + [PropertyAccess(e2.value.0.text, c.tok.pos)])))))
  {
  }

  /** After an identifier, ": value" keeps the scan's fate, or fails with the scan's own error. */
  lemma {:induction false} ColonRest(s: string, c1: Cursor, id: Token, r: Result<Outcome, ParseError>)
    requires c1.next <= |s| && c1.tok.kind == Colon && ColonOutcome(s, c1, id, r)
    requires r.Ok? ==> r.value.cursor.next <= |s|
    ensures r.Ok? ==> SameFate(s, c1, r.value.cursor)
    ensures r.Err? && r.error.LexFailure? ==> Rest(s, c1) == Err(r.error.lexError)
  {
    EatRest(s, c1, Colon);
    var e2 := EatToken(s, c1, Colon);
    if e2.Ok? && e2.value.1.tok.kind in {Number, Identifier} {
      var c2 := e2.value.1;
      EatRest(s, c2, c2.tok.kind);
      var e3 := EatToken(s, c2, c2.tok.kind);
      if e3.Ok? {
        FateChain(s, c1, c2, e3.value.1);
      }
    }
  }

  lemma {:induction false} LoopContinue(s: string, c: Cursor, node: PhraseNode, c': Cursor, node': PhraseNode)
    requires c.next <= |s| && !Ends(c) && Step(s, c, node) == Ok(Continue(c', node'))
    ensures c'.next <= |s| && PhraseLoop(s, c, node) == PhraseLoop(s, c', node')
  {
  }

  lemma {:induction false} LoopBreak(s: string, c: Cursor, node: PhraseNode, c': Cursor, node': PhraseNode)
    requires c.next <= |s| && !Ends(c) && Step(s, c, node) == Ok(Break(c', node'))
    ensures PhraseLoop(s, c, node) == Ok((c', node'))
  {
  }

  lemma {:induction false} LoopEnds(s: string, c: Cursor, node: PhraseNode)
    requires c.next <= |s| && Ends(c)
    ensures PhraseLoop(s, c, node) == Ok((c, node))
  {
  }

  /** A pass that fails makes the whole phrase fail, with the same error. */
  lemma {:induction false} LoopFails(s: string, c0: Cursor, c: Cursor, node: PhraseNode, e: ParseError)
    requires c0.next <= |s| && c.next <= |s| && c0.tok.kind != Dot && !Ends(c)
    requires PhraseLoop(s, c0, PhraseNode(Phrase, [])) == PhraseLoop(s, c, node)
    requires Step(s, c, node) == Err(e)
    ensures PhraseFrom(s, c0) == Err(e)
  {
  }

  /** At a ';' parsePhrase builds the empty phrase and eats that one ';' and nothing more. */
  lemma {:induction false} PhraseAtSemicolon(s: string, c: Cursor)
    requires c.next <= |s| && c.tok.kind == Semicolon
    ensures PhraseFrom(s, c) == (var n :- Pull(s, c.next); Ok((n, PhraseNode(Phrase, []))))
  {
    LoopEnds(s, c, PhraseNode(Phrase, []));
  }

  /**
   * After its loop parsePhrase eats at most one ';': the phrase ends just past
   * the ';' the loop stopped at, or at the loop's stop when that is no ';'.
   */
  lemma {:induction false} PhraseEatsOneSemicolon(s: string, c: Cursor, stop: Cursor, node: PhraseNode)
    requires c.next <= |s| && c.tok.kind != Dot
    requires PhraseLoop(s, c, PhraseNode(Phrase, [])) == Ok((stop, node))
    ensures stop.next <= |s|
    ensures stop.tok.kind == Semicolon ==> PhraseFrom(s, c) == (var n :- Pull(s, stop.next); Ok((n, node)))
    ensures stop.tok.kind != Semicolon ==> PhraseFrom(s, c) == Ok((stop, node))
  {
  }

  lemma {:induction false} FateChain(s: string, c: Cursor, c1: Cursor, c2: Cursor)
    requires c.next <= |s| && c1.next <= |s| && c2.next <= |s|
    requires SameFate(s, c, c1) && SameFate(s, c1, c2)
    ensures SameFate(s, c, c2)
  {
  }

  lemma {:induction false} LoopRest(s: string, c: Cursor, node: PhraseNode)
    requires c.next <= |s|
    ensures PhraseLoop(s, c, node).Ok? ==> SameFate(s, c, PhraseLoop(s, c, node).value.0)
    ensures PhraseLoop(s, c, node).Err? && PhraseLoop(s, c, node).error.LexFailure? ==>
      Rest(s, c) == Err(PhraseLoop(s, c, node).error.lexError)
    decreases Measure(s, c)
  {
    if !Ends(c) {
      StepRest(s, c, node);
      var r := Step(s, c, node);
      if r.Ok? && r.value.Continue? {
        LoopRest(s, r.value.cursor, r.value.node);
      }
    }
  }

  lemma {:induction false} PhraseRest(s: string, c: Cursor)
    requires c.next <= |s|
    ensures PhraseFrom(s, c).Ok? ==> SameFate(s, c, PhraseFrom(s, c).value.0)
    ensures PhraseFrom(s, c).Err? && PhraseFrom(s, c).error.LexFailure? ==>
      Rest(s, c) == Err(PhraseFrom(s, c).error.lexError)
  {
    if c.tok.kind != Dot {
      LoopRest(s, c, PhraseNode(Phrase, []));
      var p := PhraseLoop(s, c, PhraseNode(Phrase, []));
      if p.Ok? && p.value.0.tok.kind == Semicolon {
        EatRest(s, p.value.0, Semicolon);
      }
    }
  }

  lemma {:induction false} PhrasesRest(s: string, c: Cursor, done: seq<PhraseNode>)
    requires c.next <= |s| && c.tok.kind != Eof
    ensures Phrases(s, c, done).Ok? ==> Rest(s, c).Ok?
    ensures Phrases(s, c, done).Err? && Phrases(s, c, done).error.LexFailure? ==>
      Rest(s, c) == Err(Phrases(s, c, done).error.lexError)
    decreases Measure(s, c)
  {
    PhraseRest(s, c);
    var p := PhraseFrom(s, c);
    if p.Ok? && p.value.0.tok.kind != Eof {
      PhrasesRest(s, p.value.0, done + [p.value.1]);
    }
  }

  /**
   * parse(input) succeeds only when tokenize(input) does, so only when the input
   * holds no invalid character; a lexical error it raises is tokenize's, the
   * first invalid character.
   */
  lemma {:induction false} ParseReadsAllTokens(s: string)
    requires |s| > 0
    ensures ParseText(s).Ok? ==> Lex(s, 0).Ok?
    ensures ParseText(s).Ok? ==> forall i :: 0 <= i < |s| ==> !Invalid(s[i])
    ensures ParseText(s).Err? && ParseText(s).error.LexFailure? ==>
      Lex(s, 0) == Err(ParseText(s).error.lexError)
  {
    PullRest(s, 0);
    var c := Pull(s, 0);
    if c.Ok? && c.value.tok.kind != Eof {
      PhrasesRest(s, c.value, []);
    }
    LexErrorIsFirstInvalid(s, 0);
  }
}
