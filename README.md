# metaline, modelled in Dafny

metaline turns a short mapping language into a function from an input value
to an output value. `where.directorId.in.$` puts the input under
`where.directorId.in`. `limit:99` builds `{ limit: 99 }`. `$>#id` plucks `id`
from every element of an input array. Phrases are separated by `;`.

The repository has two implementations, and both are modelled:

- **The compiler pipeline** (`lib/lexer.js`, `lib/parser.js`, `lib/generator.js`):
  - the lexer cuts the text into tokens;
  - a recursive-descent parser pulls those tokens one at a time and builds a
    tree of phrases and segments;
  - the generator writes the JavaScript source of `transform(input)`.
- **The one-pass `metaline.js`**: it splits the text on `;`, scans each phrase
  once into chunks (keys, input, value), replays the chunks over the input,
  and deep-merges the results.

The project's modules:

- `wrappers.dfy` (`Wrappers`): the Option and Result types.
- `lexer.dfy` (`Lexing`):
  - the `Lexer` class with the fields its methods advance;
  - the functions `NextToken` and `Lex` that specify it;
  - lemmas on the token layout, the error reported, and whitespace.
- `parser.dfy` (`Parsing`):
  - the `Parser` class over a `Lexer`, with `parsePhrase`'s loop body split
    into one method per token type the loop accepts;
  - specification functions over a cursor (the current token plus the lexer
    position after it), so a lexical error behind a syntax error is never
    reached, just as in the source;
  - lemmas on the shape of the tree and on agreement with the lexer.
- `json.dfy` (`Json`): the values the generated code reads and builds, and
  property reads, `input.length` loops, object spread and nesting.
- `generator.dfy` (`Generator`):
  - `Eval(program, input)`, what running the generated transform gives, branch
    by branch as `generateProgram` chooses;
  - one method per loop of the generator or of the emitted code, each proved
    equal to its function.
- `generator_properties.dfy` (`GeneratorProperties`): deduplication, plucking,
  grouping, object phrases and combining, each against an independent
  description.
- `metaline.dfy` (`Metaline`): `split` as a function with `SplitSnoc` as its
  step lemma, and the `parsePhrase` scanner, the `transformPhrase` builder and
  the compile and merge loops as methods, with the functions that specify them.
- `metaline_properties.dfy` (`MetalineProperties`):
  - split and join are inverse;
  - the scan stops at the first `$` or `:`;
  - phrase shapes build nested objects;
  - the fold is a left fold.
- `parser_examples.dfy`, `generator_examples.dfy`, `metaline_examples.dfy`: the
  repository's test cases as lemmas.

Quirks of the code are modelled as written:

- An empty input string crashes the lexer. It is a precondition of `Lexer`, of
  `ParseText` and of `ParseInput`.
- A value assignment replaces the segments collected before it. So
  `a.limit:99.9` parses to the single assignment `limit: 99.9`.
  - test/generator.test.js:37-39 and test/parser-bug.test.js:21 expect
    `{ a: { limit: 99.9 } }`.
  - The code gives `{ limit: 99.9 }`, and the model follows the code
    (`GeneratorExamples.NestedValueFromText`).
- `foo#` is rejected only when the EOF token after `#` is read.
- Several phrases combine with a shallow object spread, not a deep merge.
- The map branches use `segments.slice(1)` without checking that the first
  segment is `$>`.
- The branch for several map phrases throws while generating when a phrase
  lacks the segments it reads.
- In `metaline.js`, the value after `:` is read by `parseInt` first. So
  `a.limit:99.9` gives `{ a: { limit: 99 } }` there.

## Model

| member | source | states |
|---|---|---|
| Lexing.IsDigit | lib/lexer.js:90-92 | the characters '0' to '9'; used by NumberEnd and NextToken |
| Lexing.IsAlpha | lib/lexer.js:94-96 | the ASCII letters; used by IdentEnd and NextToken |
| Lexing.IsAlphaNumeric | lib/lexer.js:98-100 | a letter or a digit; used by IdentEnd |
| Lexing.IsWhitespace | lib/lexer.js:54 | the characters trim() removes; used by SkipWs, TokenStartsSolid and the whitespace lemmas |
| Lexing.SkipWs | lib/lexer.js:53-57 | the index reached is the first non-whitespace one at or after the start, and everything skipped is whitespace |
| Lexing.NumberEnd | lib/lexer.js:64-73 | a number run covers only digits and at most one dot, and stops at a non-digit, or at a second dot |
| Lexing.IdentEnd | lib/lexer.js:82-85 | an identifier run covers only letters and digits and stops at the first other character |
| Lexing.NextToken | lib/lexer.js:102-144 | after skipping whitespace, either a maximal token sits at its own position and the scan resumes at its end, or the first non-blank character is invalid and is reported with its position |
| Lexing.NumberTokenAt | lib/lexer.js:59-76 | the text number() reads from a digit is a maximal NUMBER token |
| Lexing.IdentTokenAt | lib/lexer.js:78-88 | the text identifier() reads from a letter is a maximal IDENTIFIER token |
| Lexing.NonEofAdvances | lib/lexer.js:102-141 | every token except EOF consumes at least one character |
| Lexing.NextTokenExact | lib/lexer.js:102-144 | conversely, any maximal token preceded only by whitespace is exactly what getNextToken returns |
| Lexing.Lex | lib/lexer.js:146-157 | tokenize from a position: every token through EOF, or the first error; characterised by LexIffTiles, TilesLayout and LexErrorIsFirstInvalid |
| Lexing.Lexer.constructor | lib/lexer.js:24-29 | a lexer over a non-empty input starts at position 0 with the first character current |
| Lexing.Lexer.Error | lib/lexer.js:31-33 | the error names the current character, input[position], at charPosition, which is the current position |
| Lexing.Lexer.Advance | lib/lexer.js:35-43 | position and charPosition move by one and currentChar becomes the next character or null |
| Lexing.Lexer.PeekNext | lib/lexer.js:45-51 | returns the character after the current one, or null past the end |
| Lexing.Lexer.SkipWhitespace | lib/lexer.js:53-57 | moves to SkipWs of the old position |
| Lexing.Lexer.Number | lib/lexer.js:59-76 | moves to NumberEnd and returns the NUMBER token of the text read, at the start position |
| Lexing.Lexer.Identifier | lib/lexer.js:78-88 | moves to IdentEnd and returns the IDENTIFIER token of the text read, at the start position |
| Lexing.Lexer.GetNextToken | lib/lexer.js:102-144 | returns NextToken from the old position and moves past it, or returns its invalid-character error |
| Lexing.Lexer.Tokenize | lib/lexer.js:146-157 | returns Lex from the old position: every token up to and including EOF, or the first error |
| Lexing.LexTiles | lib/lexer.js:146-157 | a successful tokenize cuts the input into maximal tokens separated by whitespace |
| Lexing.LexIffTiles | lib/lexer.js:146-157 | tokenize returns a list exactly when that list tiles the input that way |
| Lexing.TilesLayout | lib/lexer.js:146-157 | the list ends with the only EOF token, at the input's length; positions increase; only whitespace lies between tokens |
| Lexing.TokenizeLayout | lib/lexer.js:146-157 | from the start of a non-empty input: EOF last, at the length; strictly increasing positions; every other token starts on a non-whitespace character |
| Lexing.TokenStartsSolid | lib/lexer.js:103-107 | a token other than EOF never starts on whitespace |
| Lexing.TokenCharsValid | lib/lexer.js:111-140 | no character inside a token is invalid |
| Lexing.LexErrorIsFirstInvalid | lib/lexer.js:138-139 | tokenize fails exactly when some character is invalid, and then it reports the first one with its position |
| Lexing.LexInsertWhitespace | lib/lexer.js:103-107 | inserting whitespace after token k keeps tokens up to k and shifts every later one by the inserted length |
| Lexing.LexLeadingWhitespace | lib/lexer.js:103-107 | leading whitespace shifts every token, EOF included, because positions count whitespace |
| Parsing.Pull | lib/parser.js:19 | a pulled token lies at or after the lexer position; the lexer moves past it, or to the end at EOF; a failure is a lexical error |
| Parsing.EatToken | lib/parser.js:16-23 | eat returns the current token when its type matches and advances; otherwise it fails with "Expected T, got U" at the current token |
| Parsing.Step | lib/parser.js:39-129 | one loop pass consumes input; segments only grow, by at most one, unless an assignment replaces them; a '.' must be followed by an identifier, '#' or '$' |
| Parsing.PhraseLoop | lib/parser.js:36-130 | the loop never moves backwards, and it consumes input unless it starts at ';' or EOF |
| Parsing.PhraseFrom | lib/parser.js:25-138 | a phrase starting with '.' fails with "Expected IDENTIFIER, got DOT" at that token; otherwise the phrase consumes input unless at EOF |
| Parsing.PhraseAtSemicolon | lib/parser.js:132-135 | at a ';' the phrase is empty and ends just past that one ';', or fails with the lexical error after it |
| Parsing.PhraseEatsOneSemicolon | lib/parser.js:132-135 | after the loop at most one ';' is eaten: the phrase ends just past the ';' the loop stopped at, or at the loop's stop when that is no ';' |
| Parsing.Phrases | lib/parser.js:155-157 | the do-while loop adds at least one phrase |
| Parsing.ProgramFrom | lib/parser.js:140-160 | the program is empty exactly when the first token is EOF |
| Parsing.ParseText | lib/parser.js:163-167 | parse(input) from the first pulled token; characterised by ParseNothingIffBlank, ParsedShape and ParseReadsAllTokens, and computed by ParseInput |
| Parsing.Parser.constructor | lib/parser.js:6-9 | the parser holds the lexer and the first token |
| Parsing.Parser.Error | lib/parser.js:11-14 | a syntax error is reported at the current token's position with the given message |
| Parsing.Parser.Eat | lib/parser.js:16-23 | eat returns EatToken's token and leaves the parser at its cursor, or returns its error |
| Parsing.Parser.StepDollar | lib/parser.js:39-66 | a pass at '$' returns Step's node and whether the loop stops, and leaves the parser at Step's cursor, or returns Step's error |
| Parsing.Parser.StepDot | lib/parser.js:68-77 | a pass at '.' returns Step's outcome and cursor, or its error |
| Parsing.Parser.StepHash | lib/parser.js:79-93 | a pass at '#' returns Step's outcome and cursor, or its error |
| Parsing.Parser.StepIdentifier | lib/parser.js:95-127 | a pass at an identifier returns Step's outcome and cursor, or its error |
| Parsing.Parser.ParsePhrase | lib/parser.js:25-138 | parsePhrase returns PhraseFrom's phrase and cursor, or its error |
| Parsing.Parser.Parse | lib/parser.js:140-160 | parse returns ProgramFrom of the current cursor |
| Parsing.ParseInput | lib/parser.js:163-167 | parse(input) builds the lexer and parser and returns ParseText(input) |
| Parsing.ParseNothingIffBlank | lib/parser.js:141-147 | a non-empty input parses to no phrases exactly when it is all whitespace |
| Parsing.ParsedShape | lib/parser.js:25-138 | every phrase is well shaped: a value phrase is one assignment; '$' only ends a phrase; a map phrase holds a map operator; every segment sits at the offset of its token |
| Parsing.ParseReadsAllTokens | lib/parser.js:19 | a successful parse implies a successful tokenize, so no invalid character; a lexical error from parse is tokenize's first-invalid-character error |
| ParserExamples.HashWithoutProperty | test/parser.test.js:181-185 | `foo#` fails with "Expected IDENTIFIER, got EOF" at position 4, only at the EOF token |
| ParserExamples.ValuePhraseDropsPath | lib/parser.js:111-118 | `a.limit:99.9` parses to one value phrase holding only the assignment `limit: 99.9` |
| ParserExamples.NinetyNinePointNine | lib/lexer.js:75 | the NUMBER lexeme `99.9` has the value 99.9 |
| ParserExamples.EmptyPhraseBetweenSemicolons | lib/parser.js:133-135 | `a;;b` parses to three phrases, the middle one empty |
| ParserExamples.LeadingDot | test/parser.test.js:175-179 | `.#` fails with "Expected IDENTIFIER, got DOT" at position 0 |
| ParserExamples.ColonWithoutValue | test/parser.test.js:193-197 | `limit:` fails with "Expected number or identifier after colon" at position 6 |
| ParserExamples.InvalidCharacterInPath | test/parser.test.js:199-203 | `foo@bar` fails with the lexer's invalid-character error for '@' at 3 |
| Json.Prop | lib/generator.js:223 | reading a property throws exactly on undefined and null, and on an object yields the field or undefined |
| Json.Elements | lib/generator.js:222 | the `input.length` loop throws exactly on undefined and null, visits an array's items in order, gives one element per character of a string, none for a number, and for an object reads its index keys as many times as its numeric `length` says (none without a length) |
| Json.Passes | lib/generator.js:35 | the loop `i < n` runs the least count of passes that is not below n, none when n <= 0 |
| Json.Spread | lib/generator.js:172 | spreading an object copies its fields, and spreading a non-string scalar copies nothing |
| Json.NestAppend | lib/generator.js:274-276 | wrapping a nest in one more key is nesting under the longer path |
| Json.DigNest | lib/generator.js:274-276 | following the path down a nest finds the nested value |
| Generator.Distinct | lib/generator.js:42-54 | the first occurrence of every scalar and every array or object, in order; characterised by DistinctMembers, DistinctNoRepeats, DistinctKeepsUnique and DistinctIdempotent, and computed by CollectDistinct |
| Generator.Spliced | lib/generator.js:37-54 | the deduplicating pluck can only fail with a TypeError |
| Generator.PluckDistinct | lib/generator.js:32-59 | the "$>#prop" program can only fail with a TypeError |
| Generator.Groups | lib/generator.js:229-240 | the objProperties pairs; characterised by GroupsMatchReference and GroupsRefWithoutProperties, and computed by ObjectProperties |
| Generator.Row | lib/generator.js:246-253 | building one element's object can only fail with a TypeError |
| Generator.Rows | lib/generator.js:250-256 | building all the objects can only fail with a TypeError |
| Generator.Plucked | lib/generator.js:219-226 | the plain pluck can only fail with a TypeError |
| Generator.MapPhraseValue | lib/generator.js:216-257 | a map phrase's code can only fail with a TypeError |
| Generator.ObjectFrom | lib/generator.js:264-280 | the object loop can only fail with a TypeError |
| Generator.ObjectPhraseValue | lib/generator.js:259-283 | an object phrase's code can only fail with a TypeError |
| Generator.PhraseValue | lib/generator.js:182-193 | a phrase's code can only fail with a TypeError |
| Generator.AllMapsPairs | lib/generator.js:72-79 | when generation succeeds there is one pair per phrase |
| Generator.Contribution | lib/generator.js:108-173 | a phrase's part of the combined result can only fail with a TypeError |
| Generator.Combine | lib/generator.js:106-174 | combining the parts can only fail with a TypeError |
| Generator.Visit | lib/generator.js:42-45 | checking the seen set keeps the invariant: seen holds exactly the scalars met, and the result is the first occurrences of what was visited |
| Generator.VisitAll | lib/generator.js:40-49 | visiting a spliced array keeps the same invariant over all its items |
| Generator.CollectDistinct | lib/generator.js:32-59 | the emitted deduplicating loop computes PluckDistinct: the properties, arrays spliced, first occurrences only |
| Generator.BuildRows | lib/generator.js:250-256 | the emitted row loop computes Rows over the input's elements |
| Generator.ObjectProperties | lib/generator.js:229-240 | the objProperties loop computes Groups, which GroupsMatchReference ties to the reference pairing |
| Generator.PluckEach | lib/generator.js:219-226 | the plain pluck loop computes Plucked over the elements |
| Generator.EmptyRows | lib/generator.js:242-244 | the loop without properties computes Rows with no pairs: one {} per element |
| Generator.EvalMapPhrase | lib/generator.js:216-257 | generateMapPhrase's code computes MapPhraseValue: a plain pluck for "#prop", else one object per element |
| Generator.ValuePhraseValue | lib/generator.js:195-214 | `{ key: value }` under the path names before the last segment; computed by EvalValuePhrase and characterised by ValuePhraseFindsLiteral |
| Generator.EvalValuePhrase | lib/generator.js:195-214 | generateValuePhrase gives `{ key: value }` nested under the phrase's path names |
| Generator.Wrap | lib/generator.js:274-276 | wrapping from the innermost key outward gives the nest of the path |
| Generator.EvalObjectPhrase | lib/generator.js:259-283 | generateObjectPhrase's code computes ObjectPhraseValue, characterized by ObjectPhraseReference |
| Generator.EvalPhrase | lib/generator.js:182-193 | generatePhrase dispatches on the phrase type and computes PhraseValue |
| Generator.AllMapsProperties | lib/generator.js:72-79 | the loop reads one (key, property) pair per phrase, or throws as AllMapsPairs says |
| Generator.PrecedingPathSegments | lib/generator.js:112-121 | collects the path names of all phrases before phrase i, in order |
| Generator.NestUnderPath | lib/generator.js:152-161 | the spread object is `{ p0: ... { pn: { in: mapped } } }` |
| Generator.CombinePhrases | lib/generator.js:106-174 | the general branch computes Combine: each phrase's part spread over the result, from {} |
| Generator.PhrasePart | lib/generator.js:108-172 | one pass of the general branch computes Contribution: the part phrase i spreads over the result, or its TypeError |
| Generator.Eval | lib/generator.js:13-180 | what the generated transform returns, branch by branch; computed by Transform and characterised by EmptyProgram, CombineSucceeds, CombineIsUnion, LaterPhraseWins, MapPartPlacement and the examples |
| Generator.Transform | lib/generator.js:13-180 | generating and running the code gives Eval: identity, distinct pluck, all maps, single map, single phrase, or the general branch, with GenerationError where generation throws |
| GeneratorProperties.DistinctMembers | lib/generator.js:42-54 | deduplication keeps every value that occurs and adds none |
| GeneratorProperties.DistinctNoRepeats | lib/generator.js:42-54 | after deduplication no scalar occurs twice |
| GeneratorProperties.DistinctKeepsUnique | lib/generator.js:42-54 | a sequence without repeated scalars is unchanged |
| GeneratorProperties.DistinctIdempotent | lib/generator.js:42-54 | deduplicating twice equals deduplicating once |
| GeneratorProperties.SplicedWithoutArrays | lib/generator.js:38-51 | when no property value is an array, splicing is the plain pluck |
| GeneratorProperties.PluckedPerElement | lib/generator.js:222-224 | the pluck succeeds iff every element's property read does, and then holds them in order |
| GeneratorProperties.RowFails | lib/generator.js:246-253 | building an element's object fails iff there is a property to read and the element is undefined or null |
| GeneratorProperties.RowKeys | lib/generator.js:246-253 | the object has exactly the keys of the pairs |
| GeneratorProperties.RowLastWins | lib/generator.js:246-253 | each key holds the property named by the last pair with that key |
| GeneratorProperties.RowsPerElement | lib/generator.js:252-254 | rows succeed iff every element's object does, one object per element, in order |
| GeneratorProperties.RowsWithoutProperties | lib/generator.js:242-244 | with no properties every element gives {} |
| GeneratorProperties.AllMapsPairsPerPhrase | lib/generator.js:72-79 | the several-map-phrases branch succeeds iff every phrase yields a pair, and then the pairs are per phrase |
| GeneratorProperties.GroupsMatchReference | lib/generator.js:229-240 | the objProperties loop pairs each PropertyAccess with the nearest preceding unused path name, or "id" |
| GeneratorProperties.GroupsRefWithoutProperties | lib/generator.js:229-240 | segments without PropertyAccess give no pairs |
| GeneratorProperties.MapPhraseWithoutProperties | lib/generator.js:242-244 | a map phrase naming no property gives one empty object per element |
| GeneratorProperties.PathNamesOfPathSegments | lib/generator.js:206-211 | for segments that are all path segments, the path names are their values |
| GeneratorProperties.ValuePhraseFindsLiteral | lib/generator.js:195-214 | following the path names and then the key in a value phrase's result finds the literal |
| GeneratorProperties.FirstTarget | lib/generator.js:264-279 | the index of the first "$" or "#prop" segment, or the length |
| GeneratorProperties.ObjectFromReference | lib/generator.js:264-280 | the object loop, resumed before the first target, gives the target nested under the path names before it |
| GeneratorProperties.ObjectPhraseReference | lib/generator.js:259-283 | an object phrase gives the input, or its property, under the path names before the first "$" or "#prop", ignores what follows, and gives {} with neither |
| GeneratorProperties.UnionLastWins | lib/generator.js:161-172 | a key of the union comes from some part and holds the value of the last part that has it |
| GeneratorProperties.CombineSucceeds | lib/generator.js:106-174 | the general branch succeeds iff every phrase's part does |
| GeneratorProperties.CombineIsUnion | lib/generator.js:106-174 | on success the general branch gives the union of the parts |
| GeneratorProperties.LaterPhraseWins | lib/generator.js:161-172 | a top-level key holds the value of the last phrase whose part has it |
| GeneratorProperties.EmptyProgram | lib/generator.js:106-179 | no phrases give {} |
| GeneratorProperties.MapPartPlacement | lib/generator.js:152-164 | a "$>#prop" phrase among others puts its array under "in" below the preceding path names, or under where.id.in when there are none |
| GeneratorExamples.IdentityProgram | lib/generator.js:18-25 | a lone "$" returns the input unchanged |
| GeneratorExamples.ObjectWithInput | test/generator.test.js:25-31 | `where.directorId.in.$` on [1, 2] gives `{ where: { directorId: { in: [1, 2] } } }` |
| GeneratorExamples.ValueAssignmentLimit | test/generator.test.js:33-35 | `limit:99` on null gives `{ limit: 99 }` |
| GeneratorExamples.NestedValueWithPath | lib/generator.js:195-214 | a value phrase still holding its path segment nests the value under it |
| GeneratorExamples.NestedValueFromText | test/generator.test.js:37-39 | parsed from text, `a.limit:99.9` gives `{ limit: 99.9 }`, not the test's `{ a: { limit: 99.9 } }` |
| GeneratorExamples.NestedValueParsed | lib/parser.js:111-118 | the tree the parser builds for `a.limit:99.9` gives `{ limit: 99.9 }` |
| GeneratorExamples.MultiplePhrases | test/generator.test.js:41-47 | `where.directorId.in.$;limit:99` on [1, 2] gives both keys |
| GeneratorExamples.ArrayMapping | test/generator.test.js:49-55 | `$>#id` on [{id: 1}, {id: 2}] gives [1, 2] |
| GeneratorExamples.LengthFieldObject | lib/generator.js:35-37 | `$>#id` on `{ length: 1 }` reads input[0], which is undefined, and throws a TypeError |
| GeneratorExamples.ComplexMapping | test/generator.test.js:57-63 | `$>id.#directorId;$>foo.#bar` gives one { id, foo } object per element |
| GeneratorExamples.ShallowCombine | lib/generator.js:171-172 | `a.b.$;a.c.$` keeps only the second phrase's "a" |
| GeneratorExamples.BareMapOperatorThrows | lib/generator.js:73-77 | `$>;$>#x` throws while generating |
| Metaline.Split | metaline.js:97 | splitting always gives at least one piece |
| Metaline.DigitRun | metaline.js:48 | the length of the leading run of digits: all digits before it, none at it |
| Metaline.ParseValue | metaline.js:47-54 | parseInt, else parseFloat, else the text; characterised by LeadingDigitsAreInteger and PlainTextStaysText |
| Metaline.StopIndex | metaline.js:12-61 | the index of the first '$' or ':', or the length |
| Metaline.KeyChunks | metaline.js:15-21 | one key chunk per key, in order |
| Metaline.Chunks | metaline.js:7-62 | the chunks of a phrase: keys up to the first '$' or ':', then input or a value; computed by ParsePhrase and characterised by StopIndexIs, InputStops, ValueStops, ChunksWithoutStop, PathPhrase and AssignmentPhrase |
| Metaline.ParsePhrase | metaline.js:7-62 | the scanning loop yields Chunks(phrase): a key per '.', then an input chunk at '$' or a value chunk at ':' |
| Metaline.Build | metaline.js:64-93 | what the phrase closure returns; computed by TransformPhrase and characterised by KeysThenInput, KeysThenValue, PathPhraseBuild and AssignmentPhraseBuild |
| Metaline.SetIn | metaline.js:71 | obj[key] = x for the obj at a path inside out; characterised by SetInNest |
| Metaline.Assign | metaline.js:69-74 | the assignment to obj[currentKey] when currentKey is truthy, else to out; used by KeysThenInput and KeysThenValue |
| Metaline.Visit | metaline.js:68-90 | one pass of the for-of loop over the chunks; characterised by ReplaySnoc and ReplayKeys |
| Metaline.Replay | metaline.js:64-93 | the builder after the loop over a chunk prefix; characterised by ReplaySnoc and ReplayKeys |
| Metaline.TransformPhrase | metaline.js:64-93 | replaying the chunks over the input, with obj moving down and assignments at the end, yields Build(path, input) |
| Metaline.Compiled | metaline.js:97-99 | one chunk list per ';'-separated phrase, each that phrase's Chunks |
| Metaline.Compile | metaline.js:97-99 | splitting and scanning every phrase gives Compiled(str) |
| Metaline.Metaline | metaline.js:96-107 | metaline(str)(input): the phrase results merged in order from {}; characterised by MetalineSingle, MetalineTwo and MergeAllIsLeftFold, and computed by Compile followed by Transform |
| Metaline.MergeAll | metaline.js:101-107 | out = merge(out, fn(input)) over the phrases from {}; computed by Transform and characterised by FoldRest and MergeAllIsLeftFold |
| Metaline.Transform | metaline.js:101-107 | merging the phrase results in order from {} gives MergeAll |
| Metaline.SplitSnoc | metaline.js:97 | one more character either opens a new piece (the separator) or extends the last |
| MetalineProperties.JoinSplit | metaline.js:97 | joining the pieces with the separator gives the text back |
| MetalineProperties.SplitPieces | metaline.js:97 | no piece contains the separator, and there is one more piece than separators |
| MetalineProperties.SplitAppendFree | metaline.js:97 | text without the separator extends the last piece |
| MetalineProperties.SplitJoin | metaline.js:97 | splitting a join of separator-free pieces gives the pieces back |
| MetalineProperties.SplitConcat | metaline.js:97 | a separator cuts the text into two parts that are split independently |
| MetalineProperties.CompiledConcat | metaline.js:97-99 | the phrases of `a;b` are those of a, then those of b |
| MetalineProperties.StopIndexIs | metaline.js:12-61 | the scan stops at k exactly when no stop comes before k and one is at k, or the text ends |
| MetalineProperties.StopKept | metaline.js:27-60 | text after the stop does not move the stop |
| MetalineProperties.InputStops | metaline.js:23-28 | after '$' nothing is read: any text may follow, and the last chunk is input |
| MetalineProperties.ValueStops | metaline.js:46-60 | ':' ends the scan with a value chunk keyed by the text since the last '.' and valued from all the rest |
| MetalineProperties.ChunksWithoutStop | metaline.js:12-21 | without '$' or ':' the chunks are the keys before the last '.' |
| MetalineProperties.KeysOnlyWithoutStop | metaline.js:12-21 | without '$' or ':' every chunk is a key, one per '.' |
| MetalineProperties.TrailingTextDropped | metaline.js:15-21 | text after the last '.' with no '$' or ':' never becomes a chunk |
| MetalineProperties.SinglePhrase | metaline.js:97 | a text without ';' is one phrase |
| MetalineProperties.ChunksAtInput | metaline.js:23-28 | at '$' the chunks are the keys before it, then input |
| MetalineProperties.PathPhrase | metaline.js:12-28 | `k1. ... .kn.$` scans to the n keys and an input chunk |
| MetalineProperties.AssignmentPhrase | metaline.js:12-60 | `k1. ... .kn:text` scans to the first n-1 keys and a value chunk for kn read from text |
| MetalineProperties.PathPhraseBuild | metaline.js:64-93 | a path phrase of non-empty keys puts the input under them |
| MetalineProperties.AssignmentPhraseBuild | metaline.js:64-93 | an assignment of non-empty keys puts `{ kn: value }` under the others |
| MetalineProperties.MetalineSingle | metaline.js:96-107 | a text without ';' gives merge({}, its phrase's result) |
| MetalineProperties.MetalineTwo | metaline.js:96-107 | two phrases merge into {} in order |
| MetalineProperties.LeadingDigitsAreInteger | metaline.js:48 | a value starting with digits is the integer they spell; parseInt cuts any fraction |
| MetalineProperties.PlainTextStaysText | metaline.js:47-53 | a value with no leading digit, sign or '.' stays text |
| MetalineProperties.SetInNest | metaline.js:71-77 | assigning through obj sets the key in the innermost object of the nest |
| MetalineProperties.ReplaySnoc | metaline.js:68 | replaying one more chunk is one more loop pass |
| MetalineProperties.ReplayKeys | metaline.js:75-80 | after the keys, out is {} nested under every truthy key but the last, obj is that innermost object, and the last key is pending |
| MetalineProperties.KeysOnlyBuild | metaline.js:75-80 | keys alone give {} nested under every truthy key but the last |
| MetalineProperties.KeysThenInput | metaline.js:69-74 | keys then '$' give the input under the truthy keys, or the input itself when the last key is empty or missing |
| MetalineProperties.KeysThenValue | metaline.js:81-89 | keys then ':' give `{ key: value }` under the truthy keys, or alone when the last key is empty or missing |
| MetalineProperties.KeysThenAssign | metaline.js:69-89 | the common case of the two lemmas above |
| MetalineProperties.NonEmptyKeysKept | metaline.js:70-76 | non-empty keys are all truthy |
| MetalineProperties.FoldRest | metaline.js:103-105 | finishing the loop from phrase i gives the full merge |
| MetalineProperties.MergeAllIsLeftFold | metaline.js:101-107 | transform is a left fold of merge over the phrase results from {} |
| MetalineExamples.NinetyNine | metaline.js:48 | `99` reads as 99 |
| MetalineExamples.NinetyNinePointNine | metaline.js:48 | `99.9` reads as 99 by parseInt |
| MetalineExamples.WherePhrase | metaline.js:64-93 | `where.directorId.in.$` builds `{ where: { directorId: { in: input } } }` |
| MetalineExamples.LimitPhrase | metaline.js:81-89 | `limit:99` builds `{ limit: 99 }` |
| MetalineExamples.WhereDirectorIdIn | test.js:14 | `where.directorId.in.$` on [1, 2] is merge({}, `{ where: { directorId: { in: [1, 2] } } }`) |
| MetalineExamples.Limit | test.js:15 | `limit:99` is merge({}, `{ limit: 99 }`) |
| MetalineExamples.WhereAndLimit | test.js:16 | `where.directorId.in.$;limit:99` merges the two results in order |
| MetalineExamples.FractionPhrase | metaline.js:46-60 | `a.limit:99.9` builds `{ a: { limit: 99 } }` |
| MetalineExamples.FractionCutOff | metaline.js:46-60 | `a.limit:99.9` keeps the path and loses the fraction |
| MetalineExamples.EmptyLastKey | metaline.js:70-74 | an empty last key is falsy, so `a..$` returns the input itself |

## Left out

- Lexing: characters are Dafny chars, not UTF-16 code units, so surrogate pairs are not modelled. `trim()` whitespace is the fixed ECMAScript set.
- Lexing.Lexer.constructor: requires a non-empty input. The empty string sets currentChar to undefined, and the next `trim()` call crashes.
- Lexing: a NUMBER token keeps its lexeme, and its value is the exact rational the digits spell. Floating-point rounding of parseFloat is not modelled.
- Parsing.Parser.constructor: the source's constructor pulls the first token and may throw. Here the caller pulls it (ParseInput), because a Dafny constructor cannot return an error.
- Parsing: the EOF token's value is the empty text rather than null. Error messages are compared as strings, and thrown errors are Result values.
- Generator: the generated JavaScript text, its indentation and the Function constructor are not modelled. Eval gives what running that text computes.
- Generator: the "Unknown phrase type" error is unreachable, because the phrase type is a closed datatype.
- Generator.Distinct: `Set` membership is by identity. The model treats two equal arrays or objects as distinct, which holds for inputs without aliasing.
- Json: numbers are exact reals. Objects are unordered maps, because the repository compares results with deepEqual. Object key order, numeric-string keys, prototypes and getters are left out.
- Json.Elements: the body yields a string's characters one by one, but the contract states only their number.
- Json.Elements: an object whose own `length` is a string or an array, which JavaScript's `<` converts to a number, is taken to have no elements; a numeric, missing, undefined, null or object `length` is modelled.
- Metaline.Transform: `@fastify/deepmerge` is a parameter, so every statement holds for any merge function, not only that library's.
- Metaline.ParseValue: parseInt and parseFloat are modelled for an optional sign, decimal digits and a leading '.'. Leading whitespace, hexadecimal, exponents and Infinity are left out.
- Metaline.Builder: obj is modelled as a path from out plus a flag saying whether out still contains it. After `out = input`, writes through obj no longer reach out. No two phrases share objects.
- Test harnesses and console output are not part of this model.
