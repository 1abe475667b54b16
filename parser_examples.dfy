/**
 * Inputs from test/parser.test.js and test/parser-bug.test.js, worked through
 * the parser specification.
 */
module ParserExamples {
  import opened Wrappers
  import opened Lexing
  import opened Parsing

  lemma {:induction false} PullToken(s: string, p: nat, t: Token)
    requires TokenAt(s, t) && p <= t.pos && Blank(s, p, t.pos)
    ensures Pull(s, p) == Ok(Cursor(t, End(t)))
  {
    NextTokenExact(s, p, t);
  }

  /** A punctuation character with no whitespace before it is a token of its own. */
  lemma {:induction false} PullPunct(s: string, p: nat, kind: TokenType)
    requires p < |s| && Punctuation(s[p]) == Some(kind)
    ensures Pull(s, p) == Ok(Cursor(Token(kind, [s[p]], p), p + 1))
  {
    var t := Token(kind, [s[p]], p);
    assert !IsWhitespace(s[p]);
    assert TokenAt(s, t);
    PullToken(s, p, t);
  }

  /** An identifier from p to e, with no whitespace before it. */
  lemma {:induction false} PullWord(s: string, p: nat, e: nat)
    requires p < e <= |s| && IsAlpha(s[p]) && forall i :: p <= i < e ==> IsAlphaNumeric(s[i])
    requires e < |s| ==> !IsAlphaNumeric(s[e])
    ensures Pull(s, p) == Ok(Cursor(Token(Identifier, s[p..e], p), e))
  {
    IdentEndExact(s, p, e);
    IdentTokenAt(s, p);
    PullToken(s, p, Token(Identifier, s[p..e], p));
  }

  /** At the end of the input the token is EOF. */
  lemma {:induction false} PullEnd(s: string)
    ensures Pull(s, |s|) == Ok(Cursor(Token(Eof, "", |s|), |s|))
  {
    PullToken(s, |s|, Token(Eof, "", |s|));
  }

  /** A character the scanner rejects, with no whitespace before it, fails the pull. */
  lemma {:induction false} PullInvalid(s: string, p: nat)
    requires p < |s| && Invalid(s[p])
    ensures Pull(s, p) == Err(LexFailure(InvalidCharacter(s[p], p)))
  {
    assert !IsWhitespace(s[p]);
    assert SkipWs(s, p) == p;
  }

  lemma {:induction false} StepPath(s: string, c: Cursor, node: PhraseNode, c1: Cursor)
    requires c.next <= |s| && c.tok.kind == Identifier && Pull(s, c.next) == Ok(c1) && c1.tok.kind != Colon
    ensures Step(s, c, node) == Ok(Continue(c1, node.(segments := node.segments + [PathSegment(c.tok.text, c.tok.pos)])))
  {
  }

  lemma {:induction false} StepDot(s: string, c: Cursor, node: PhraseNode, c1: Cursor)
    requires c.next <= |s| && c.tok.kind == Dot && Pull(s, c.next) == Ok(c1) && c1.tok.kind in {Identifier, Hash, Dollar}
    ensures Step(s, c, node) == Ok(Continue(c1, node))
  {
  }

  lemma {:induction false} FromSemicolon(s: string, c: Cursor, c': Cursor, node: PhraseNode, c'': Cursor)
    requires c.next <= |s| && c.tok.kind != Dot && PhraseLoop(s, c, PhraseNode(Phrase, [])) == Ok((c', node))
    requires c'.tok.kind == Semicolon && c'.next <= |s| && Pull(s, c'.next) == Ok(c'')
    ensures PhraseFrom(s, c) == Ok((c'', node))
  {
  }

  lemma {:induction false} PhrasesMore(s: string, c: Cursor, done: seq<PhraseNode>, c': Cursor, node: PhraseNode)
    requires c.next <= |s| && c.tok.kind != Eof && PhraseFrom(s, c) == Ok((c', node)) && c'.tok.kind != Eof
    ensures c'.next <= |s| && Phrases(s, c, done) == Phrases(s, c', done + [node])
  {
  }

  lemma {:induction false} LoopErr(s: string, c: Cursor, node: PhraseNode, e: ParseError)
    requires c.next <= |s| && !Ends(c) && Step(s, c, node) == Err(e)
    ensures PhraseLoop(s, c, node) == Err(e)
  {
  }

  lemma {:induction false} FromErr(s: string, c: Cursor, e: ParseError)
    requires c.next <= |s| && c.tok.kind != Dot && PhraseLoop(s, c, PhraseNode(Phrase, [])) == Err(e)
    ensures PhraseFrom(s, c) == Err(e)
  {
  }

  lemma {:induction false} FromDone(s: string, c: Cursor, c': Cursor, node: PhraseNode)
    requires c.next <= |s| && c.tok.kind != Dot && PhraseLoop(s, c, PhraseNode(Phrase, [])) == Ok((c', node))
    requires c'.tok.kind != Semicolon
    ensures PhraseFrom(s, c) == Ok((c', node))
  {
  }

  lemma {:induction false} PhrasesErr(s: string, c: Cursor, done: seq<PhraseNode>, e: ParseError)
    requires c.next <= |s| && c.tok.kind != Eof && PhraseFrom(s, c) == Err(e)
    ensures Phrases(s, c, done) == Err(e)
  {
  }

  lemma {:induction false} PhrasesEnd(s: string, c: Cursor, done: seq<PhraseNode>, c': Cursor, node: PhraseNode)
    requires c.next <= |s| && c.tok.kind != Eof && PhraseFrom(s, c) == Ok((c', node)) && c'.tok.kind == Eof
    ensures Phrases(s, c, done) == Ok(done + [node])
  {
  }

  lemma {:induction false} ParseTextErr(s: string, c: Cursor, e: ParseError)
    requires |s| > 0 && Pull(s, 0) == Ok(c) && c.tok.kind != Eof && Phrases(s, c, []) == Err(e)
    ensures ParseText(s) == Err(e)
  {
  }

  lemma {:induction false} ParseTextOk(s: string, c: Cursor, ps: seq<PhraseNode>)
    requires |s| > 0 && Pull(s, 0) == Ok(c) && c.tok.kind != Eof && Phrases(s, c, []) == Ok(ps)
    ensures ParseText(s) == Ok(Program(ps))
  {
  }

  lemma {:induction false} FooToken()
    ensures Pull("foo#", 0) == Ok(Cursor(Token(Identifier, "foo", 0), 3))
  {
    var s := "foo#";
    assert s[0] == 'f' && s[1] == 'o' && s[2] == 'o' && s[3] == '#';
    PullWord(s, 0, 3);
    assert s[0..3] == "foo";
  }

  lemma {:induction false} FooHashTokens()
    ensures Pull("foo#", 3) == Ok(Cursor(Token(Hash, "#", 3), 4))
    ensures Pull("foo#", 4) == Ok(Cursor(Token(Eof, "", 4), 4))
  {
    var s := "foo#";
    assert s[3] == '#';
    PullPunct(s, 3, Hash);
    PullEnd(s);
  }

  lemma {:induction false} FooHashFirstStep()
    ensures Step("foo#", Cursor(Token(Identifier, "foo", 0), 3), PhraseNode(Phrase, []))
      == Ok(Continue(Cursor(Token(Hash, "#", 3), 4), PhraseNode(Phrase, [PathSegment("foo", 0)])))
  {
    FooHashTokens();
    var c0 := Cursor(Token(Identifier, "foo", 0), 3);
    var c1 := Cursor(Token(Hash, "#", 3), 4);
    assert EatToken("foo#", c0, Identifier) == Ok((c0.tok, c1));
    assert [] + [PathSegment("foo", 0)] == [PathSegment("foo", 0)];
  }

  lemma {:induction false} FooHashSecondStep()
    ensures Step("foo#", Cursor(Token(Hash, "#", 3), 4), PhraseNode(Phrase, [PathSegment("foo", 0)]))
      == Err(SyntaxError(4, ExpectedMessage(Identifier, Eof)))
  {
    FooHashTokens();
    var c1 := Cursor(Token(Hash, "#", 3), 4);
    var c2 := Cursor(Token(Eof, "", 4), 4);
    assert EatToken("foo#", c1, Hash) == Ok((c1.tok, c2));
  }

  /** A '#' straight after a path segment is accepted; only the EOF after it is an error. */
  lemma {:induction false} HashWithoutProperty()
    ensures ParseText("foo#") == Err(SyntaxError(4, "Expected IDENTIFIER, got EOF"))
  {
    FooToken();
    FooHashFirstStep();
    FooHashSecondStep();
    var s := "foo#";
    var c0 := Cursor(Token(Identifier, "foo", 0), 3);
    var c1 := Cursor(Token(Hash, "#", 3), 4);
    var node1 := PhraseNode(Phrase, [PathSegment("foo", 0)]);
    var err := SyntaxError(4, ExpectedMessage(Identifier, Eof));
    LoopErr(s, c1, node1, err);
    LoopContinue(s, c0, PhraseNode(Phrase, []), c1, node1);
    FromErr(s, c0, err);
    PhrasesErr(s, c0, [], err);
    ParseTextErr(s, c0, err);
    EofMessage();
  }

  lemma {:induction false} EofMessage()
    ensures ExpectedMessage(Identifier, Eof) == "Expected IDENTIFIER, got EOF"
  {
  }

  // ---------------------------------------------------------------------------
  // "a.limit:99.9": the assignment replaces the path segment before it.

  lemma {:induction false} ValueTokens()
    ensures Pull("a.limit:99.9", 0) == Ok(Cursor(Token(Identifier, "a", 0), 1))
    ensures Pull("a.limit:99.9", 1) == Ok(Cursor(Token(Dot, ".", 1), 2))
    ensures Pull("a.limit:99.9", 2) == Ok(Cursor(Token(Identifier, "limit", 2), 7))
    ensures Pull("a.limit:99.9", 7) == Ok(Cursor(Token(Colon, ":", 7), 8))
    ensures Pull("a.limit:99.9", 8) == Ok(Cursor(Token(Number, "99.9", 8), 12))
    ensures Pull("a.limit:99.9", 12) == Ok(Cursor(Token(Eof, "", 12), 12))
  {
    ValuePathTokens();
    ValueNumberTokens();
  }

  lemma {:induction false} ValuePathTokens()
    ensures Pull("a.limit:99.9", 0) == Ok(Cursor(Token(Identifier, "a", 0), 1))
    ensures Pull("a.limit:99.9", 1) == Ok(Cursor(Token(Dot, ".", 1), 2))
    ensures Pull("a.limit:99.9", 2) == Ok(Cursor(Token(Identifier, "limit", 2), 7))
  {
    ValueFirstToken();
    LimitToken();
  }

  lemma {:induction false} ValueFirstToken()
    ensures Pull("a.limit:99.9", 0) == Ok(Cursor(Token(Identifier, "a", 0), 1))
    ensures Pull("a.limit:99.9", 1) == Ok(Cursor(Token(Dot, ".", 1), 2))
  {
    var s := "a.limit:99.9";
    assert s[0] == 'a' && s[1] == '.';
    PullWord(s, 0, 1);
    assert s[0..1] == "a";
    PullPunct(s, 1, Dot);
  }

  lemma {:induction false} LimitToken()
    ensures Pull("a.limit:99.9", 2) == Ok(Cursor(Token(Identifier, "limit", 2), 7))
  {
    var s := "a.limit:99.9";
    assert s[2] == 'l' && s[3] == 'i' && s[4] == 'm' && s[5] == 'i' && s[6] == 't' && s[7] == ':';
    PullWord(s, 2, 7);
    assert s[2..7] == "limit";
  }

  lemma {:induction false} ValueNumberTokens()
    ensures Pull("a.limit:99.9", 7) == Ok(Cursor(Token(Colon, ":", 7), 8))
    ensures Pull("a.limit:99.9", 8) == Ok(Cursor(Token(Number, "99.9", 8), 12))
    ensures Pull("a.limit:99.9", 12) == Ok(Cursor(Token(Eof, "", 12), 12))
  {
    var s := "a.limit:99.9";
    assert s[7] == ':';
    PullPunct(s, 7, Colon);
    NumberToken();
    PullEnd(s);
  }

  lemma {:induction false} NumberToken()
    ensures Pull("a.limit:99.9", 8) == Ok(Cursor(Token(Number, "99.9", 8), 12))
  {
    var s := "a.limit:99.9";
    var t := "99.9";
    assert s[8] == '9' && s[9] == '9' && s[10] == '.' && s[11] == '9';
    assert t[0] == '9' && t[1] == '9' && t[2] == '.' && t[3] == '9';
    assert LexemeOk(Number, t);
    assert TokenAt(s, Token(Number, t, 8));
    PullToken(s, 8, Token(Number, t, 8));
  }

  lemma {:induction false} NinetyNinePointNine()
    ensures NumberValue("99.9") == 99.9
  {
    var t := "99.9";
    assert DotIndex(t) == 2 by {
      assert t[0] == '9' && t[1] == '9' && t[2] == '.';
      assert DotIndex(t[1..]) == 1 by {
        assert t[1..][1..] == t[2..];
        assert DotIndex(t[2..]) == 0;
      }
    }
    assert t[..2] == "99" && t[3..] == "9";
    assert DigitsValue("9") == 9 by { assert "9"[..0] == ""; }
    assert DigitsValue("99") == 99 by { assert "99"[..1] == "9"; }
  }

  lemma {:induction false} ValueSteps()
    ensures Step("a.limit:99.9", Cursor(Token(Identifier, "a", 0), 1), PhraseNode(Phrase, []))
      == Ok(Continue(Cursor(Token(Dot, ".", 1), 2), PhraseNode(Phrase, [PathSegment("a", 0)])))
    ensures Step("a.limit:99.9", Cursor(Token(Dot, ".", 1), 2), PhraseNode(Phrase, [PathSegment("a", 0)]))
      == Ok(Continue(Cursor(Token(Identifier, "limit", 2), 7), PhraseNode(Phrase, [PathSegment("a", 0)])))
  {
    ValuePathTokens();
    var s := "a.limit:99.9";
    var path := PhraseNode(Phrase, [PathSegment("a", 0)]);
    assert [] + [PathSegment("a", 0)] == [PathSegment("a", 0)];
    StepPath(s, Cursor(Token(Identifier, "a", 0), 1), PhraseNode(Phrase, []), Cursor(Token(Dot, ".", 1), 2));
    StepDot(s, Cursor(Token(Dot, ".", 1), 2), path, Cursor(Token(Identifier, "limit", 2), 7));
  }

  lemma {:induction false} ValueLastStep()
    ensures Step("a.limit:99.9", Cursor(Token(Identifier, "limit", 2), 7), PhraseNode(Phrase, [PathSegment("a", 0)]))
      == Ok(Break(Cursor(Token(Eof, "", 12), 12),
                  PhraseNode(ValuePhrase, [ValueAssignment("limit", NumberLiteral(99.9), 2)])))
  {
    ValueTokens();
    NinetyNinePointNine();
    var s := "a.limit:99.9";
    var c2 := Cursor(Token(Identifier, "limit", 2), 7);
    var c3 := Cursor(Token(Colon, ":", 7), 8);
    var c4 := Cursor(Token(Number, "99.9", 8), 12);
    var eof := Cursor(Token(Eof, "", 12), 12);
    assert EatToken(s, c2, Identifier) == Ok((c2.tok, c3));
    assert EatToken(s, c3, Colon) == Ok((c3.tok, c4));
    assert EatToken(s, c4, Number) == Ok((c4.tok, eof));
    assert ValueOf(c4.tok) == NumberLiteral(99.9);
  }

  /** The path before a value assignment is lost: "a.limit:99.9" is just {limit: 99.9}. */
  lemma {:induction false} ValuePhraseDropsPath()
    ensures ParseText("a.limit:99.9")
      == Ok(Program([PhraseNode(ValuePhrase, [ValueAssignment("limit", NumberLiteral(99.9), 2)])]))
  {
    ValueTokens();
    ValueSteps();
    ValueLastStep();
    var s := "a.limit:99.9";
    var c0 := Cursor(Token(Identifier, "a", 0), 1);
    var c1 := Cursor(Token(Dot, ".", 1), 2);
    var c2 := Cursor(Token(Identifier, "limit", 2), 7);
    var path := PhraseNode(Phrase, [PathSegment("a", 0)]);
    var node := PhraseNode(ValuePhrase, [ValueAssignment("limit", NumberLiteral(99.9), 2)]);
    var eof := Cursor(Token(Eof, "", 12), 12);
    LoopBreak(s, c2, path, eof, node);
    LoopContinue(s, c1, path, c2, path);
    LoopContinue(s, c0, PhraseNode(Phrase, []), c1, path);
    FromDone(s, c0, eof, node);
    PhrasesEnd(s, c0, [], eof, node);
    assert [] + [node] == [node];
    ParseTextOk(s, c0, [node]);
  }

  // ---------------------------------------------------------------------------
  // "a;;b": each phrase eats one ';', so the second ';' makes an empty phrase.

  lemma {:induction false} SemicolonFirstToken()
    ensures Pull("a;;b", 0) == Ok(Cursor(Token(Identifier, "a", 0), 1))
  {
    var s := "a;;b";
    assert s[0] == 'a' && s[1] == ';';
    PullWord(s, 0, 1);
    assert s[0..1] == "a";
  }

  lemma {:induction false} SemicolonMarks()
    ensures Pull("a;;b", 1) == Ok(Cursor(Token(Semicolon, ";", 1), 2))
    ensures Pull("a;;b", 2) == Ok(Cursor(Token(Semicolon, ";", 2), 3))
  {
    var s := "a;;b";
    assert s[1] == ';' && s[2] == ';';
    PullPunct(s, 1, Semicolon);
    PullPunct(s, 2, Semicolon);
  }

  lemma {:induction false} SemicolonLastTokens()
    ensures Pull("a;;b", 3) == Ok(Cursor(Token(Identifier, "b", 3), 4))
    ensures Pull("a;;b", 4) == Ok(Cursor(Token(Eof, "", 4), 4))
  {
    var s := "a;;b";
    assert s[3] == 'b';
    PullWord(s, 3, 4);
    assert s[3..4] == "b";
    PullEnd(s);
  }

  lemma {:induction false} SemicolonPhrases()
    ensures PhraseFrom("a;;b", Cursor(Token(Identifier, "a", 0), 1))
      == Ok((Cursor(Token(Semicolon, ";", 2), 3), PhraseNode(Phrase, [PathSegment("a", 0)])))
    ensures PhraseFrom("a;;b", Cursor(Token(Semicolon, ";", 2), 3))
      == Ok((Cursor(Token(Identifier, "b", 3), 4), PhraseNode(Phrase, [])))
    ensures PhraseFrom("a;;b", Cursor(Token(Identifier, "b", 3), 4))
      == Ok((Cursor(Token(Eof, "", 4), 4), PhraseNode(Phrase, [PathSegment("b", 3)])))
  {
    SemicolonMarks();
    SemicolonLastTokens();
    var s := "a;;b";
    var a := Cursor(Token(Identifier, "a", 0), 1);
    var semi1 := Cursor(Token(Semicolon, ";", 1), 2);
    var semi2 := Cursor(Token(Semicolon, ";", 2), 3);
    var b := Cursor(Token(Identifier, "b", 3), 4);
    var eof := Cursor(Token(Eof, "", 4), 4);
    var empty := PhraseNode(Phrase, []);
    var pa := PhraseNode(Phrase, [PathSegment("a", 0)]);
    var pb := PhraseNode(Phrase, [PathSegment("b", 3)]);
    assert [] + [PathSegment("a", 0)] == [PathSegment("a", 0)];
    assert [] + [PathSegment("b", 3)] == [PathSegment("b", 3)];
    StepPath(s, a, empty, semi1);
    LoopContinue(s, a, empty, semi1, pa);
    LoopEnds(s, semi1, pa);
    FromSemicolon(s, a, semi1, pa, semi2);
    LoopEnds(s, semi2, empty);
    FromSemicolon(s, semi2, semi2, empty, b);
    StepPath(s, b, empty, eof);
    LoopContinue(s, b, empty, eof, pb);
    LoopEnds(s, eof, pb);
    FromDone(s, b, eof, pb);
  }

  lemma {:induction false} EmptyPhraseBetweenSemicolons()
    ensures ParseText("a;;b") == Ok(Program([
      PhraseNode(Phrase, [PathSegment("a", 0)]),
      PhraseNode(Phrase, []),
      PhraseNode(Phrase, [PathSegment("b", 3)])]))
  {
    SemicolonFirstToken();
    SemicolonPhrases();
    ThreePhrases("a;;b", Cursor(Token(Identifier, "a", 0), 1), Cursor(Token(Semicolon, ";", 2), 3),
      Cursor(Token(Identifier, "b", 3), 4), Cursor(Token(Eof, "", 4), 4),
      PhraseNode(Phrase, [PathSegment("a", 0)]), PhraseNode(Phrase, []), PhraseNode(Phrase, [PathSegment("b", 3)]));
  }

  /** Three phrases in a row, the last one ending at EOF, make the program. */
  lemma {:induction false} ThreePhrases(s: string, c0: Cursor, c1: Cursor, c2: Cursor, c3: Cursor,
                                        p0: PhraseNode, p1: PhraseNode, p2: PhraseNode)
    requires |s| > 0 && Pull(s, 0) == Ok(c0) && c0.tok.kind != Eof
    requires PhraseFrom(s, c0) == Ok((c1, p0)) && c1.tok.kind != Eof
    requires c1.next <= |s| && PhraseFrom(s, c1) == Ok((c2, p1)) && c2.tok.kind != Eof
    requires c2.next <= |s| && PhraseFrom(s, c2) == Ok((c3, p2)) && c3.tok.kind == Eof
    ensures ParseText(s) == Ok(Program([p0, p1, p2]))
  {
    AllThreePhrases(s, c0, c1, c2, c3, p0, p1, p2);
    ParseTextOk(s, c0, [p0, p1, p2]);
  }

  lemma {:induction false} AllThreePhrases(s: string, c0: Cursor, c1: Cursor, c2: Cursor, c3: Cursor,
                                           p0: PhraseNode, p1: PhraseNode, p2: PhraseNode)
    requires c0.next <= |s| && c0.tok.kind != Eof
    requires PhraseFrom(s, c0) == Ok((c1, p0)) && c1.tok.kind != Eof
    requires c1.next <= |s| && PhraseFrom(s, c1) == Ok((c2, p1)) && c2.tok.kind != Eof
    requires c2.next <= |s| && PhraseFrom(s, c2) == Ok((c3, p2)) && c3.tok.kind == Eof
    ensures Phrases(s, c0, []) == Ok([p0, p1, p2])
  {
    var none: seq<PhraseNode> := [];
    PhrasesMore(s, c0, none, c1, p0);
    LastTwoPhrases(s, c1, c2, c3, none + [p0], p1, p2);
    AppendThree(none, p0, p1, p2);
  }

  lemma AppendThree(none: seq<PhraseNode>, p0: PhraseNode, p1: PhraseNode, p2: PhraseNode)
    requires none == []
    ensures none + [p0] + [p1, p2] == [p0, p1, p2]
  {
  }

  lemma {:induction false} LastTwoPhrases(s: string, c1: Cursor, c2: Cursor, c3: Cursor,
                                          done: seq<PhraseNode>, p1: PhraseNode, p2: PhraseNode)
    requires c1.next <= |s| && c1.tok.kind != Eof && PhraseFrom(s, c1) == Ok((c2, p1)) && c2.tok.kind != Eof
    requires c2.next <= |s| && PhraseFrom(s, c2) == Ok((c3, p2)) && c3.tok.kind == Eof
    ensures Phrases(s, c1, done) == Ok(done + [p1, p2])
  {
    PhrasesEnd(s, c2, done + [p1], c3, p2);
    PhrasesMore(s, c1, done, c2, p1);
    assert done + [p1] + [p2] == done + [p1, p2];
  }

  // ---------------------------------------------------------------------------
  // The error cases of test/parser.test.js.

  lemma {:induction false} LeadingDot()
    ensures ParseText(".#") == Err(SyntaxError(0, "Expected IDENTIFIER, got DOT"))
  {
    var s := ".#";
    assert s[0] == '.' && s[1] == '#';
    PullPunct(s, 0, Dot);
    DotMessage();
  }

  lemma {:induction false} DotMessage()
    ensures ExpectedMessage(Identifier, Dot) == "Expected IDENTIFIER, got DOT"
  {
  }

  lemma {:induction false} ColonTokens()
    ensures Pull("limit:", 0) == Ok(Cursor(Token(Identifier, "limit", 0), 5))
    ensures Pull("limit:", 5) == Ok(Cursor(Token(Colon, ":", 5), 6))
    ensures Pull("limit:", 6) == Ok(Cursor(Token(Eof, "", 6), 6))
  {
    var s := "limit:";
    assert s[0] == 'l' && s[1] == 'i' && s[2] == 'm' && s[3] == 'i' && s[4] == 't' && s[5] == ':';
    PullWord(s, 0, 5);
    assert s[0..5] == "limit";
    PullPunct(s, 5, Colon);
    PullEnd(s);
  }

  lemma {:induction false} ColonWithoutValue()
    ensures ParseText("limit:") == Err(SyntaxError(6, "Expected number or identifier after colon"))
  {
    ColonTokens();
    var s := "limit:";
    var c0 := Cursor(Token(Identifier, "limit", 0), 5);
    var c1 := Cursor(Token(Colon, ":", 5), 6);
    var c2 := Cursor(Token(Eof, "", 6), 6);
    var err := SyntaxError(6, "Expected number or identifier after colon");
    assert EatToken(s, c0, Identifier) == Ok((c0.tok, c1));
    assert EatToken(s, c1, Colon) == Ok((c1.tok, c2));
    assert Step(s, c0, PhraseNode(Phrase, [])) == Err(err);
    assert PhraseFrom(s, c0) == Err(err);
  }

  lemma {:induction false} InvalidCharacterTokens()
    ensures Pull("foo@bar", 0) == Ok(Cursor(Token(Identifier, "foo", 0), 3))
    ensures Pull("foo@bar", 3) == Err(LexFailure(InvalidCharacter('@', 3)))
  {
    FooAtToken();
    AtInvalid();
  }

  lemma {:induction false} FooAtToken()
    ensures Pull("foo@bar", 0) == Ok(Cursor(Token(Identifier, "foo", 0), 3))
  {
    var s := "foo@bar";
    assert s[0] == 'f' && s[1] == 'o' && s[2] == 'o' && s[3] == '@';
    PullWord(s, 0, 3);
    assert s[0..3] == "foo";
  }

  lemma {:induction false} AtInvalid()
    ensures Pull("foo@bar", 3) == Err(LexFailure(InvalidCharacter('@', 3)))
  {
    var s := "foo@bar";
    assert s[3] == '@';
    PullInvalid(s, 3);
  }

  /** The lexer's error surfaces unchanged when the parser pulls the offending token. */
  lemma {:induction false} InvalidCharacterInPath()
    ensures ParseText("foo@bar") == Err(LexFailure(InvalidCharacter('@', 3)))
  {
    InvalidCharacterTokens();
    var s := "foo@bar";
    var c0 := Cursor(Token(Identifier, "foo", 0), 3);
    var err := LexFailure(InvalidCharacter('@', 3));
    assert EatToken(s, c0, Identifier) == Err(err);
    assert Step(s, c0, PhraseNode(Phrase, [])) == Err(err);
    assert PhraseFrom(s, c0) == Err(err);
  }
}
