# SimpleInterpreter front end in Dafny

This project models the front end of SimpleInterpreter, a small interpreter for a
Pascal-like language, and proves properties of the model. Three pieces are modelled.

- **The statement parser** `de.werkelmann.interpreter.Parser`. It is a recursive-descent
  parser over a token list. It reads programs `BEGIN ... END .` made of assignments,
  nested blocks and empty statements, and expressions over integers and variables.
  The expressions have prefix operators, the four binary operators and round brackets.
  Its `OperatorToken` class is modelled as the Operator variant of the token datatype.
- **The earlier arithmetic parser** `interpreter.Parser`. It reads expressions made of
  integers, the four binary operators and brackets, with no prefix operators.
- **The earlier scanner** `interpreter.Scanner`. It is a cursor over a text. It skips
  whitespace, reads maximal digit runs as integers, accepts only `+` and `-` as
  operators, and rejects every other character.

Each parser production is a pure function. It takes the token sequence and the index
of the current token. It returns either the tree it built with the index of the token
current afterwards, or the failure that would escape. Reading past the end of the
sequence yields EndOfFile. A `ParseException` carries `TokenList.getPosition()`, which
is the index of the token after the current one (`Parser.Position`). Below, "fails with
the getPosition() of a token" means the value getPosition() returns while that token
is current: its index plus one. The scanner is a
step function from the scanner state (text, cursor) to the token and the next state.
The loop-based methods `GetNextToken` and `ReadNumber` follow the source's loops and are
proved to compute that function.

Modules and files:

| file | module | contents |
|---|---|---|
| wrappers.dfy | Wrappers | `Option`, `Result` |
| java_text.dfy | JavaText | `int` range, `Character.isWhitespace`/`isDigit`, `toLowerCase`, `Integer.parseInt`/`toString` |
| tokens.dfy | Tokens | token kinds and tokens of the statement parser, `OperatorToken` |
| syntax.dfy | Syntax | the AST and the shapes of trees each production builds |
| parser.dfy | Parser | the statement parser |
| parser_facts.dfy | ParserFacts | token tests, entry points, keywords, prefix operators, brackets, identifiers, precedence |
| rendering.dfy, windows.dfy | Rendering, Windows | fully bracketed rendering of trees as tokens, and where its tokens stand |
| parser_round_trip.dfy | ParserRoundTrip | the statement parser reads every tree back from its rendering |
| flat_expressions.dfy | FlatExpressions | the conventional reading of `n0 op1 n1 op2 n2 ...`, both parsers' reference |
| arith_parser.dfy, arith_facts.dfy | ArithmeticParser, ArithmeticFacts | the arithmetic parser and its properties |
| scanner.dfy, scanner_facts.dfy | ArithmeticScanner, ScannerFacts | the scanner and its properties |

The identifier branch of `factor` (Parser.java:189-191) consumes the identifier and then
reads the variable from the token after it. The statement parser is therefore
parameterised by `IdentifierFactor`:

- `AsWritten` is the code as it stands;
- `Corrected` reads the identifier itself.

Every general statement about the statement parser is proved for both (see Findings).

Some behaviours of the code are easy to misread; the model follows the code:

- The prefix branch of `factor` (Parser.java:169-174) tests only the token's class, so
  every Operator token at the start of a factor is a prefix operator, `*` and `/`
  included (`ParserFacts.PrefixOperatorExamples`).
- `checkTokenForTypeAndValue` lowercases both sides (Parser.java:197), so
  `compoundStatement` accepts BEGIN and END in any case (`ParserFacts.CompoundKeywords`).
  Yet `statement` compares the identifier with `"END"` exactly (Parser.java:99). So
  `BEGIN end .` is rejected, because the lower-case `end` starts an assignment
  (`ParserFacts.LowerCaseEndFails`), while `begin x := 1 End .` is accepted
  (`ParserFacts.KeywordsIgnoreCase`).
- Any Sign token ends a program, not only `.` (`ParserFacts.AnySignEndsProgram`).
- Error positions are token positions, not character offsets. `Integer.parseInt` and the
  operator casts can also escape as unchecked exceptions (`NumberFormatError`,
  `ClassCastError`). The arithmetic parser catches them and turns them into positions.
- The earlier scanner knows only digits, `+` and `-`. Its error offset is the length of
  the text, not the cursor (Scanner.java:38).

## Model

| member | source | states |
|---|---|---|
| Tokens.OperatorFromString | src/main/java/de/werkelmann/interpreter/tokens/OperatorToken.java:11-13 | the String constructor makes an Operator token holding the value unchanged |
| Tokens.OperatorFromChar | src/main/java/de/werkelmann/interpreter/tokens/OperatorToken.java:7-9 | the Character constructor makes an Operator token whose value is the one character |
| Tokens.OperatorTypeIsConstant | src/main/java/de/werkelmann/interpreter/tokens/OperatorToken.java:15-18 | getType is "Operator" for every operator token whatever its value, and for no other kind |
| Tokens.CharAndStringConstructorsAgree | src/main/java/de/werkelmann/interpreter/tokens/OperatorToken.java:7-13 | the Character constructor agrees with the String constructor applied to String.valueOf |
| JavaText.ParseInt | src/main/java/de/werkelmann/interpreter/Parser.java:176 | Integer.parseInt accepts a non-empty digit run exactly when its value fits in an int, and yields that value |
| JavaText.ParseIntOfIntToString | src/main/java/de/werkelmann/interpreter/Parser.java:176 | parseInt reads back every int written in decimal, negative ones included |
| Parser.Parse | src/main/java/de/werkelmann/interpreter/Parser.java:29-38 | a successful parse is a non-empty block of statements; a ParseError lies within the token list plus one |
| Parser.ParseExpression | src/main/java/de/werkelmann/interpreter/Parser.java:40-49 | a successful expr(tokens) is an expression tree; a ParseError lies within the token list plus one |
| Parser.Program | src/main/java/de/werkelmann/interpreter/Parser.java:51-59 | program yields a block and consumes at least one token |
| Parser.CompoundStatement | src/main/java/de/werkelmann/interpreter/Parser.java:61-77 | compoundStatement yields a non-empty block of statements and consumes at least one token |
| Parser.StatementList | src/main/java/de/werkelmann/interpreter/Parser.java:79-91 | statementList yields at least one statement, each a well-formed statement |
| Parser.Statement | src/main/java/de/werkelmann/interpreter/Parser.java:93-104 | statement yields an empty statement, an assignment to an assignable name, or a block |
| Parser.AssignStatement | src/main/java/de/werkelmann/interpreter/Parser.java:106-115 | an assignment's target is the variable named by the current identifier and its value is an expression |
| Parser.Variable | src/main/java/de/werkelmann/interpreter/Parser.java:117-124 | variable succeeds exactly on an identifier, consuming it; otherwise it fails with the getPosition() of the current token |
| Parser.Expr | src/main/java/de/werkelmann/interpreter/Parser.java:130-143 | expr yields an expression tree and consumes at least one token |
| Parser.ExprTail | src/main/java/de/werkelmann/interpreter/Parser.java:132-140 | the loop of expr keeps an expression tree and never moves backwards |
| Parser.Term | src/main/java/de/werkelmann/interpreter/Parser.java:149-161 | term yields an expression tree and consumes at least one token |
| Parser.TermTail | src/main/java/de/werkelmann/interpreter/Parser.java:151-158 | the loop of term keeps an expression tree and never moves backwards |
| Parser.Factor | src/main/java/de/werkelmann/interpreter/Parser.java:167-194 | factor yields an expression tree and consumes at least one token |
| ParserFacts.EatTestsClassOnly | src/main/java/de/werkelmann/interpreter/Parser.java:200-202 | Parser.Eat: eat holds iff the TOKEN_TYPE strings are equal, that is iff the token is of the expected class; it never advances and ignores the value |
| ParserFacts.NamesAreDistinct | src/main/java/de/werkelmann/interpreter/tokens/OperatorToken.java:5 | the TOKEN_TYPE strings of different classes differ, so comparing them compares classes |
| ParserFacts.CheckFoldsEachCharacter | src/main/java/de/werkelmann/interpreter/Parser.java:196-198 | Parser.CheckTokenForTypeAndValue: holds iff the class matches and the value equals the expected text character by character after toLowerCase |
| ParserFacts.OperatorTests | src/main/java/de/werkelmann/interpreter/Parser.java:145-147 | Parser.IsExprOperator and Parser.IsTermOperator (also :163-165): a present value that is exactly `+` or `-`, respectively `*` or `/`; no value is both |
| ParserFacts.ParseNeedsEndOfFile | src/main/java/de/werkelmann/interpreter/Parser.java:29-38 | parse succeeds iff program succeeds and EndOfFile follows; otherwise it fails with the getPosition() of the token after program |
| ParserFacts.ParseExpressionNeedsEndOfFile | src/main/java/de/werkelmann/interpreter/Parser.java:40-49 | expr(tokens) succeeds iff expr succeeds and EndOfFile follows; otherwise it fails after the expression |
| ParserFacts.AnySignEndsProgram | src/main/java/de/werkelmann/interpreter/Parser.java:51-59 | after a block, program succeeds iff a Sign token follows, whatever its value, and consumes it |
| ParserFacts.EmptyBlock | src/main/java/de/werkelmann/interpreter/Parser.java:93-104 | `BEGIN END .` and `BEGIN END ;` are a block of one empty statement |
| ParserFacts.EmptyBlockWith | src/main/java/de/werkelmann/interpreter/Parser.java:51-77 | `BEGIN END` followed by any Sign token is a block of one empty statement |
| ParserFacts.KeywordsIgnoreCase | src/main/java/de/werkelmann/interpreter/Parser.java:196-198 | example: `begin x := 1 End .` is the block of one assignment |
| ParserFacts.CompoundKeywords | src/main/java/de/werkelmann/interpreter/Parser.java:61-77 | compoundStatement succeeds iff an identifier folding to "begin", a statement list and an identifier folding to "end" follow one another, and then yields the block of that list |
| ParserFacts.BlockKeywordsIgnoreCase | src/main/java/de/werkelmann/interpreter/Parser.java:61-77 | BEGIN and END in every spelling toLowerCase equates, around a statement list, make the block of that list |
| ParserFacts.StatementOfIdentifier | src/main/java/de/werkelmann/interpreter/Parser.java:99-103 | on an identifier other than BEGIN, exactly "END" is the empty statement and every other name starts an assignment |
| ParserFacts.LowerCaseEndFails | src/main/java/de/werkelmann/interpreter/Parser.java:99 | `BEGIN end .` fails where `:=` is expected |
| ParserFacts.NestedUnary | src/main/java/de/werkelmann/interpreter/Parser.java:169-174 | k operator tokens before a factor nest k unary nodes around it, with their values, outermost first |
| ParserFacts.PrefixOperatorExamples | src/main/java/de/werkelmann/interpreter/Parser.java:167-174 | `---4` is three nested unary minus nodes; `*4` is accepted as a unary `*` |
| ParserFacts.FactorStart | src/main/java/de/werkelmann/interpreter/Parser.java:167-194 | factor succeeds only on an operator, integer, identifier or `(`; any other token fails with its getPosition() |
| ParserFacts.FactorOfIntegerToken | src/main/java/de/werkelmann/interpreter/Parser.java:175-179 | an integer token is one leaf of its parseInt value; a text parseInt rejects escapes as NumberFormatException |
| ParserFacts.MissingCloseBracket | src/main/java/de/werkelmann/interpreter/Parser.java:180-185 | `(` and an expression without `)` fail with the getPosition() of the token found instead |
| ParserFacts.BracketsAreTransparent | src/main/java/de/werkelmann/interpreter/Parser.java:180-188 | `( e )` is the tree of e with no wrapper node, and consumes the `)` |
| ParserFacts.IdentifierInFactor | src/main/java/de/werkelmann/interpreter/Parser.java:189-192 | as written, an identifier factor reads the variable from the following token; corrected, from itself |
| ParserFacts.AsWrittenVariable | src/main/java/de/werkelmann/interpreter/Parser.java:189-191 | as written, `x` alone fails and `x y` reads as the variable y |
| ParserFacts.AsWrittenAssignment | src/main/java/de/werkelmann/interpreter/Parser.java:189-191 | as written, `BEGIN x := y END .` is rejected |
| ParserFacts.CorrectedVariable | src/main/java/de/werkelmann/interpreter/Parser.java:189-191 | corrected, `x` is a variable and `BEGIN x := y END .` is the assignment of y to x |
| ParserFacts.IntegerOperand | src/main/java/de/werkelmann/interpreter/Parser.java:175-179 | an integer token written by Integer.toString is a leaf of that value |
| ParserFacts.MultiplicativeLink | src/main/java/de/werkelmann/interpreter/Parser.java:151-158 | a `*` or `/` link extends the running product |
| ParserFacts.AdditiveLink | src/main/java/de/werkelmann/interpreter/Parser.java:132-140 | a `+` or `-` link closes the product into the pending sum and starts a new product |
| ParserFacts.LinksRead | src/main/java/de/werkelmann/interpreter/Parser.java:130-161 | from a link boundary, expr builds the conventional reading of the remaining links |
| ParserFacts.FlatExpression | src/main/java/de/werkelmann/interpreter/Parser.java:130-165 | on every flat expression, expr yields the reference reading: products bind tighter than sums and both group to the left |
| ParserFacts.PrecedenceExample | src/main/java/de/werkelmann/interpreter/Parser.java:149-161 | `2 + 3 * 5` is 2 + (3 * 5) |
| ParserFacts.GroupingExample | src/main/java/de/werkelmann/interpreter/Parser.java:130-143 | `8 - 3 - 2` is (8 - 3) - 2 |
| ParserFacts.TermOfFactor | src/main/java/de/werkelmann/interpreter/Parser.java:149-161 | a factor not followed by `*` or `/` is a whole term |
| ParserFacts.ExprOfTerm | src/main/java/de/werkelmann/interpreter/Parser.java:130-143 | a term not followed by `+` or `-` is a whole expression |
| ParserFacts.ExprOfFactor | src/main/java/de/werkelmann/interpreter/Parser.java:130-161 | a factor followed by neither kind of operator is a whole expression |
| ParserRoundTrip.BinaryInBrackets | src/main/java/de/werkelmann/interpreter/Parser.java:180-188 | `( l op r )` is one factor holding the binary node |
| ParserRoundTrip.UnaryInBrackets | src/main/java/de/werkelmann/interpreter/Parser.java:167-188 | `( op a )` is one factor holding the unary node |
| ParserRoundTrip.AssignOfParts | src/main/java/de/werkelmann/interpreter/Parser.java:106-115 | an assignable identifier, `:=` and an expression make an assignment statement |
| ParserRoundTrip.BlockOfParts | src/main/java/de/werkelmann/interpreter/Parser.java:61-77 | BEGIN, a statement list and END make a block holding the list in order |
| ParserRoundTrip.NextStatement | src/main/java/de/werkelmann/interpreter/Parser.java:85-88 | a statement, `;` and a list make the longer list, in source order |
| ParserRoundTrip.FactorReadsLayout | src/main/java/de/werkelmann/interpreter/Parser.java:167-194 | factor reads every expression tree back from its bracketed tokens, wherever they stand |
| ParserRoundTrip.StatementReadsLayout | src/main/java/de/werkelmann/interpreter/Parser.java:93-115 | statement reads every statement back from its tokens when `;` or END follows |
| ParserRoundTrip.CompoundReadsLayout | src/main/java/de/werkelmann/interpreter/Parser.java:61-77 | compoundStatement reads every block back from its tokens, wherever they stand |
| ParserRoundTrip.ListReadsLayout | src/main/java/de/werkelmann/interpreter/Parser.java:79-91 | statementList reads every non-empty statement list back, in order, when END follows |
| ParserRoundTrip.ExpressionRoundTrip | src/main/java/de/werkelmann/interpreter/Parser.java:40-49 | expr(tokens) inverts the fully bracketed rendering of every expression tree |
| ParserRoundTrip.ProgramRoundTrip | src/main/java/de/werkelmann/interpreter/Parser.java:29-38 | parse inverts the rendering of every block |
| ParserRoundTrip.ParseResultsRoundTrip | src/main/java/de/werkelmann/interpreter/Parser.java:29-38 | every tree parse returns is read back from its rendering |
| ArithmeticParser.Eat | src/main/java/interpreter/Parser.java:37-44 | eat matches iff the current type is the expected one, then advances by exactly one token, else not at all |
| ArithmeticParser.Parse | src/main/java/interpreter/Parser.java:21-35 | a successful parse is an arithmetic tree; a failure position lies within the token list plus one |
| ArithmeticParser.Expr | src/main/java/interpreter/Parser.java:46-56 | expr yields an arithmetic tree and consumes at least one token |
| ArithmeticParser.ExprTail | src/main/java/interpreter/Parser.java:48-53 | the loop of expr keeps an arithmetic tree and never moves backwards |
| ArithmeticParser.Term | src/main/java/interpreter/Parser.java:62-72 | term yields an arithmetic tree and consumes at least one token |
| ArithmeticParser.TermTail | src/main/java/interpreter/Parser.java:64-69 | the loop of term keeps an arithmetic tree and never moves backwards |
| ArithmeticParser.Factor | src/main/java/interpreter/Parser.java:78-94 | factor yields an integer leaf or a bracketed tree and consumes at least one token |
| ArithmeticFacts.OperatorTests | src/main/java/interpreter/Parser.java:58-60 | ArithmeticParser.IsExprOperator and ArithmeticParser.IsTermOperator (also :74-76): a present value that is exactly `+` or `-`, respectively `*` or `/`; no value is both |
| ArithmeticFacts.ParseNeedsEndOfFile | src/main/java/interpreter/Parser.java:21-35 | parse succeeds iff expr succeeds and EndOfFile follows; a trailing token fails with its getPosition() |
| ArithmeticFacts.EmptyInputFails | src/main/java/interpreter/Parser.java:78-94 | an empty token list is not an expression |
| ArithmeticFacts.FactorStart | src/main/java/interpreter/Parser.java:78-94 | factor succeeds only on an integer or `(`; anything else fails with its getPosition() |
| ArithmeticFacts.NoPrefixMinus | src/main/java/interpreter/Parser.java:93 | `-4` is rejected: there are no prefix operators |
| ArithmeticFacts.FactorOfIntegerToken | src/main/java/interpreter/Parser.java:81-83 | an integer token is a leaf of its parseInt value; a rejected text fails with the getPosition() of the token after it, since eat has already advanced |
| ArithmeticFacts.TooLargeInteger | src/main/java/interpreter/Parser.java:82 | a digit run above the largest int fails |
| ArithmeticFacts.MissingCloseBracket | src/main/java/interpreter/Parser.java:84-90 | `(` and an expression without `)` fail with the getPosition() of the token found instead |
| ArithmeticFacts.BracketsAreTransparent | src/main/java/interpreter/Parser.java:84-91 | `( e )` is the tree of e with no wrapper node |
| ArithmeticFacts.OperatorTextOnOtherToken | src/main/java/interpreter/Parser.java:48-49 | a non-operator token carrying `+`, `-`, `*` or `/` fails the cast with its getPosition() |
| ArithmeticFacts.ExprOfFactor | src/main/java/interpreter/Parser.java:46-72 | a factor followed by neither kind of operator is a whole expression |
| ArithmeticFacts.MultiplicativeLink | src/main/java/interpreter/Parser.java:64-69 | a `*` or `/` link extends the running product |
| ArithmeticFacts.AdditiveLink | src/main/java/interpreter/Parser.java:48-53 | a `+` or `-` link closes the product into the pending sum and starts a new product |
| ArithmeticFacts.LinksRead | src/main/java/interpreter/Parser.java:46-72 | from a link boundary, expr builds the conventional reading of the remaining links |
| ArithmeticFacts.FlatExpression | src/main/java/interpreter/Parser.java:21-76 | on every flat expression, parse yields the reference reading: products bind tighter than sums, both group to the left |
| ArithmeticFacts.PrecedenceExample | src/main/java/interpreter/Parser.java:46-72 | `2 * 3 - 4 / 2` is (2 * 3) - (4 / 2) |
| ArithmeticFacts.BinaryInBrackets | src/main/java/interpreter/Parser.java:84-91 | `( l op r )` is one factor holding the binary node |
| ArithmeticFacts.FactorReadsLayout | src/main/java/interpreter/Parser.java:78-94 | factor reads every arithmetic tree back from its bracketed tokens, wherever they stand |
| ArithmeticFacts.RoundTrip | src/main/java/interpreter/Parser.java:21-35 | parse inverts the fully bracketed rendering of every arithmetic tree |
| ArithmeticScanner.Init | src/main/java/interpreter/Scanner.java:13-16 | init keeps the text and puts the cursor at 0, which is on a character exactly when the text is non-empty |
| ArithmeticScanner.IsOperatorChar | src/main/java/interpreter/Scanner.java:41-43 | isOperator is membership in the OPERATORS table, which accepts exactly `+` and `-` |
| ArithmeticScanner.IsPositionInRange | src/main/java/interpreter/Scanner.java:64-66 | `position <= text.length() - 1` holds exactly when the cursor stands on a character, the empty text included |
| ArithmeticScanner.SkipWhitespace | src/main/java/interpreter/Scanner.java:20-24 | the whitespace loop stops at the first non-whitespace character or the end, passing only whitespace |
| ArithmeticScanner.DigitRunEnd | src/main/java/interpreter/Scanner.java:45-58 | a digit run ends at the first non-digit or at the end of the text |
| ArithmeticScanner.NextToken | src/main/java/interpreter/Scanner.java:18-39 | end of file leaves the cursor at or past the end; other tokens advance it; an error has the text length as offset and stops on a rejected character |
| ArithmeticScanner.ReadNumber | src/main/java/interpreter/Scanner.java:45-58 | readNumber returns the maximal digit run at the cursor and leaves the cursor just past it, also when the run ends the text |
| ArithmeticScanner.GetNextToken | src/main/java/interpreter/Scanner.java:18-39 | the loop-based getNextToken computes NextToken |
| ArithmeticScanner.TokensFrom | src/main/java/interpreter/Scanner.java:18-39 | repeated calls end in exactly one end-of-file token, or fail with the text length |
| ScannerFacts.EofIsSticky | src/main/java/interpreter/Scanner.java:34-36 | after end of file, every further call returns it again with the cursor unchanged |
| ScannerFacts.IntegerIsMaximalRun | src/main/java/interpreter/Scanner.java:26-27 | an integer token is the whole non-empty digit run at the first non-whitespace character |
| ScannerFacts.OperatorIsOneCharacter | src/main/java/interpreter/Scanner.java:30-33 | an operator token is the single `+` or `-` there, and the cursor moves past it |
| ScannerFacts.PassesAllowed | src/main/java/interpreter/Scanner.java:18-33 | a successful call passes over whitespace, digits and operator characters only |
| ScannerFacts.ScansIffAllowed | src/main/java/interpreter/Scanner.java:18-39 | a text scans without error iff every remaining character is whitespace, a digit, `+` or `-` |
| ScannerFacts.ValuesAreVisibleText | src/main/java/interpreter/Scanner.java:20-33 | the token texts in order are the remaining text with its whitespace removed |
| ScannerFacts.TokenizeText | src/main/java/interpreter/Scanner.java:13-16 | from init, the whole text scans iff it is allowed, keeps all but whitespace, and errors at its length |
| ScannerFacts.ScanExample | src/main/java/interpreter/Scanner.java:45-58 | ` 12+3` scans to 12, +, 3 and end of file, with a digit run ending the text |
| ScannerFacts.StarIsRejected | src/main/java/interpreter/Scanner.java:8 | `*` is not an operator: `1*2` fails with offset 3 |

## Left out

- The token classes other than `OperatorToken` and `TokenList` are not part of this
  model. Tokens are a closed datatype whose type tags are assumed distinct. The list is
  a sequence that yields EndOfFile past its end. EndOfFile is assumed to have a null
  value. `getPosition()` is the index of the next token.
- The scanner of the `de.werkelmann` package is not part of this model. The parsers take
  token sequences. `interpreter.Scanner` produces `interpreter.Token` values, a separate
  type from the tokens the arithmetic parser reads, so the two are not composed.
- Exception messages and the `ParseException` class itself are left out. A failure is
  its position, or for the statement parser its kind.
- `AssignNode` keeps the `:=` token and `BinaryOperationNode` keeps the operator token.
  The model keeps only the operator text and drops the `:=` token, which never varies.
- Unicode is left out. `Character.isWhitespace`, `Character.isDigit` and `toLowerCase`
  are modelled on ASCII only. A text is a sequence of chars without surrogate handling.
- Parser.CheckTokenForTypeAndValue: `String.toLowerCase()` (Parser.java:197) uses the
  default locale. The model folds ASCII letters as a non-Turkic locale does. Under a
  Turkish or Azerbaijani locale `"BEGIN".toLowerCase()` is `"begın"` (dotless i), so every
  block would fail in compoundStatement; locales are not modelled.
- Tokens.OperatorFromChar: `new OperatorToken((Character) null)` stores the text `"null"`,
  because `String.valueOf(Object)` is chosen for a Character (OperatorToken.java:7-9). The
  model takes a `char`, which cannot be null, so this case is left out.
- A `null` text given to `init` is left out: the source would throw NullPointerException.
- The call-stack limit is left out. The source fails with StackOverflowError on deeply
  nested input. The model has no depth bound.
- The test file LISPTranslatorTest is left out. It drives classes that are not part of
  this model.
- Parser.Parse: the bound on error positions covers ParseError only. The NumberFormat
  and ClassCast failures carry no position, as the escaping exceptions carry none.
- Parser.Factor: the factor-level contracts give shape and bounds only. The exact trees
  are stated by the ParserFacts and ParserRoundTrip lemmas.

## Findings

| source | as written | input that shows it | evidently intended | confidence | as-written member | corrected member |
|---|---|---|---|---|---|---|
| src/main/java/de/werkelmann/interpreter/Parser.java:189-191 | the identifier branch of factor calls nextToken before variable, so the variable is read from the token after the identifier | `BEGIN x := y END .` (rejected at position 6); the bare expression `x` (rejected at position 2) | a variable in an expression is the identifier itself, as `assignStatement` reads its target with `variable()` on the current identifier (Parser.java:107) | high (not executed) | ParserFacts.AsWrittenAssignment | ParserFacts.CorrectedVariable |
