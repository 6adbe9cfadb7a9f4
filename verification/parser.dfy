/**
 * The recursive-descent parser of de.werkelmann.interpreter.Parser.
 *
 * The parser's mutable state (the token list and the current token) is threaded
 * explicitly: every production takes the token sequence and the index of the
 * current token, and returns the tree it built with the index of the token that
 * is current afterwards. Reading past the end of the sequence yields EndOfFile.
 * `eat` and `checkTokenForTypeAndValue` only test the current token; advancing
 * is always a separate step (`nextToken`), written here as `+ 1`.
 */
module Parser {
  import opened Wrappers
  import opened JavaText
  import opened Tokens
  import opened Syntax

  /**
   * How factor treats an identifier. AsWritten is the source: it consumes the
   * identifier and then reads the variable from the token after it. Corrected
   * reads the variable from the identifier itself.
   */
  datatype IdentifierFactor = AsWritten | Corrected

  /**
   * Why a parse stopped. ParseError carries TokenList.getPosition(); the other two
   * are the unchecked exceptions that escape: Integer.parseInt on an integer token
   * and the cast of the current token to OperatorToken.
   */
  datatype Failure = ParseError(position: nat) | NumberFormatError | ClassCastError

  /** A production's tree and the index of the token current after it. */
  datatype Step = Step(tree: Ast, next: nat)
  datatype Steps = Steps(trees: seq<Ast>, next: nat)

  type Parsed = Result<Step, Failure>

  /** The token at index i; past the end the list keeps yielding EndOfFile. */
  function Cur(toks: seq<Token>, i: nat): Token {
    if i < |toks| then toks[i] else EndOfFileToken
  }

  /** TokenList.getPosition() while the token at index i is current: the index of the next token. */
  function Position(i: nat): nat {
    i + 1
  }

  /**
   * eat: the current token's TOKEN_TYPE string equals the expected one. It
   * never advances and never looks at the value.
   */
  predicate Eat(t: Token, expected: TokenType) {
    t.GetType() == expected
  }

  /**
   * checkTokenForTypeAndValue: the type tag matches and the value matches ignoring
   * case, character by character as toLowerCase folds them.
   */
  predicate CheckTokenForTypeAndValue(t: Token, expected: TokenType, value: string) {
    Eat(t, expected) && t.GetValue().Some? && ToLower(t.GetValue().value) == ToLower(value)
  }

  /** isExprOperator: a present value that is exactly `+` or `-`. */
  predicate IsExprOperator(value: Option<string>) {
    value.Some? && (value.value == "+" || value.value == "-")
  }

  /** isTermOperator: a present value that is exactly `*` or `/`. */
  predicate IsTermOperator(value: Option<string>) {
    value.Some? && (value.value == "*" || value.value == "/")
  }

  /** A ParseError raised while some token at index k >= i, k <= |toks|, is current. */
  predicate ErrorWithin(r: Failure, i: nat, n: nat) {
    r.ParseError? ==> i < r.position <= n + 1
  }

  // ---------------------------------------------------------------- entry points

  /** parse(tokens): a program, which must be followed by EndOfFile. */
  function Parse(toks: seq<Token>, v: IdentifierFactor): (r: Result<Ast, Failure>)
    ensures r.Success? ==> IsBlock(r.value)
    ensures r.Failure? ==> ErrorWithin(r.error, 0, |toks|)
  {
    var p :- Program(toks, 0, v);
    if Cur(toks, p.next).EndOfFileToken? then Success(p.tree)
    else Failure(ParseError(Position(p.next)))
  }

  /** expr(tokens): a bare expression, which must be followed by EndOfFile. */
  function ParseExpression(toks: seq<Token>, v: IdentifierFactor): (r: Result<Ast, Failure>)
    ensures r.Success? ==> IsExpression(r.value)
    ensures r.Failure? ==> ErrorWithin(r.error, 0, |toks|)
  {
    var e :- Expr(toks, 0, v);
    if Cur(toks, e.next).EndOfFileToken? then Success(e.tree)
    else Failure(ParseError(Position(e.next)))
  }

  // ---------------------------------------------------------------- statements

  /** program: a compound statement followed by a token of type Sign, which is consumed. */
  function Program(toks: seq<Token>, i: nat, v: IdentifierFactor): (r: Parsed)
    requires i <= |toks|
    ensures r.Success? ==> IsBlock(r.value.tree) && i < r.value.next <= |toks|
    ensures r.Failure? ==> ErrorWithin(r.error, i, |toks|)
  {
    var c :- CompoundStatement(toks, i, v);
    if !Eat(Cur(toks, c.next), SignType) then Failure(ParseError(Position(c.next)))
    else Success(Step(c.tree, c.next + 1))
  }

  /** compoundStatement: BEGIN statementList END, both keywords matched ignoring case. */
  function CompoundStatement(toks: seq<Token>, i: nat, v: IdentifierFactor): (r: Parsed)
    requires i <= |toks|
    ensures r.Success? ==> IsBlock(r.value.tree) && i < r.value.next <= |toks|
    ensures r.Failure? ==> ErrorWithin(r.error, i, |toks|)
    decreases |toks| - i, 1
  {
    if !CheckTokenForTypeAndValue(Cur(toks, i), IdentifierType, "BEGIN") then
      Failure(ParseError(Position(i)))
    else
      var body :- StatementList(toks, i + 1, v);
      if !CheckTokenForTypeAndValue(Cur(toks, body.next), IdentifierType, "END") then
        Failure(ParseError(Position(body.next)))
      else
        Success(Step(CompoundNode(body.trees), body.next + 1))
  }

  /** statementList: statement (';' statement)*, the statements in source order. */
  function StatementList(toks: seq<Token>, i: nat, v: IdentifierFactor): (r: Result<Steps, Failure>)
    requires i <= |toks|
    ensures r.Success? ==> |r.value.trees| > 0 && i <= r.value.next <= |toks|
    ensures r.Success? ==> AllStatements(r.value.trees)
    ensures r.Failure? ==> ErrorWithin(r.error, i, |toks|)
    decreases |toks| - i, 3
  {
    var s :- Statement(toks, i, v);
    if CheckTokenForTypeAndValue(Cur(toks, s.next), SignType, ";") then
      var rest :- StatementList(toks, s.next + 1, v);
      assert ([s.tree] + rest.trees)[1..] == rest.trees;
      Success(Steps([s.tree] + rest.trees, rest.next))
    else
      Success(Steps([s.tree], s.next))
  }

  /**
   * statement: a nested block when the current token is BEGIN (any case); an
   * assignment when it is an identifier other than "END" (exact case); otherwise
   * the empty statement, which consumes nothing.
   */
  function Statement(toks: seq<Token>, i: nat, v: IdentifierFactor): (r: Parsed)
    requires i <= |toks|
    ensures r.Success? ==> IsStatement(r.value.tree) && i <= r.value.next <= |toks|
    ensures r.Failure? ==> ErrorWithin(r.error, i, |toks|)
    decreases |toks| - i, 2
  {
    if CheckTokenForTypeAndValue(Cur(toks, i), IdentifierType, "BEGIN") then
      CompoundStatement(toks, i, v)
    else if Eat(Cur(toks, i), IdentifierType) && Cur(toks, i).text != "END" then
      AssignStatement(toks, i, v)
    else
      Success(Step(NoOp, i))
  }

  /** assignStatement: variable ':=' expr. */
  function AssignStatement(toks: seq<Token>, i: nat, v: IdentifierFactor): (r: Parsed)
    requires i <= |toks|
    ensures r.Success? ==> Cur(toks, i).IdentifierToken? && r.value.tree.AssignNode?
    ensures r.Success? ==> r.value.tree.left == VarLeaf(Cur(toks, i).text)
    ensures r.Success? ==> IsExpression(r.value.tree.right) && i < r.value.next <= |toks|
    ensures r.Failure? ==> ErrorWithin(r.error, i, |toks|)
  {
    var left :- Variable(toks, i);
    if !CheckTokenForTypeAndValue(Cur(toks, left.next), SignType, ":=") then
      Failure(ParseError(Position(left.next)))
    else
      var right :- Expr(toks, left.next + 1, v);
      Success(Step(AssignNode(left.tree, right.tree), right.next))
  }

  /** variable: an identifier token, consumed, as a VarLeaf of its value. */
  function Variable(toks: seq<Token>, i: nat): (r: Parsed)
    requires i <= |toks|
    ensures r.Success? <==> Cur(toks, i).IdentifierToken?
    ensures r.Success? ==> r.value == Step(VarLeaf(Cur(toks, i).text), i + 1) && i < |toks|
    ensures r.Failure? ==> r.error == ParseError(Position(i))
  {
    if !Eat(Cur(toks, i), IdentifierType) then Failure(ParseError(Position(i)))
    else Success(Step(VarLeaf(Cur(toks, i).text), i + 1))
  }

  // ---------------------------------------------------------------- expressions

  /** expr: term (('+'|'-') term)*, folded to the left. */
  function Expr(toks: seq<Token>, i: nat, v: IdentifierFactor): (r: Parsed)
    requires i <= |toks|
    ensures r.Success? ==> IsExpression(r.value.tree) && i < r.value.next <= |toks|
    ensures r.Failure? ==> ErrorWithin(r.error, i, |toks|)
    decreases |toks| - i, 3
  {
    var t :- Term(toks, i, v);
    ExprTail(toks, t.tree, t.next, v)
  }

  /** The loop of expr: while the current value is + or -, fold the next term into the result. */
  function ExprTail(toks: seq<Token>, acc: Ast, j: nat, v: IdentifierFactor): (r: Parsed)
    requires j <= |toks| && IsExpression(acc)
    ensures r.Success? ==> IsExpression(r.value.tree) && j <= r.value.next <= |toks|
    ensures r.Failure? ==> ErrorWithin(r.error, j, |toks|)
    decreases |toks| - j, 0
  {
    var op := Cur(toks, j);
    if !IsExprOperator(op.GetValue()) then Success(Step(acc, j))
    else if !op.OperatorToken? then Failure(ClassCastError)
    else
      var t :- Term(toks, j + 1, v);
      ExprTail(toks, BinaryOperationNode(acc, op.text, t.tree), t.next, v)
  }

  /** term: factor (('*'|'/') factor)*, folded to the left. */
  function Term(toks: seq<Token>, i: nat, v: IdentifierFactor): (r: Parsed)
    requires i <= |toks|
    ensures r.Success? ==> IsExpression(r.value.tree) && i < r.value.next <= |toks|
    ensures r.Failure? ==> ErrorWithin(r.error, i, |toks|)
    decreases |toks| - i, 2
  {
    var f :- Factor(toks, i, v);
    TermTail(toks, f.tree, f.next, v)
  }

  /** The loop of term: while the current value is * or /, fold the next factor into the result. */
  function TermTail(toks: seq<Token>, acc: Ast, j: nat, v: IdentifierFactor): (r: Parsed)
    requires j <= |toks| && IsExpression(acc)
    ensures r.Success? ==> IsExpression(r.value.tree) && j <= r.value.next <= |toks|
    ensures r.Failure? ==> ErrorWithin(r.error, j, |toks|)
    decreases |toks| - j, 0
  {
    var op := Cur(toks, j);
    if !IsTermOperator(op.GetValue()) then Success(Step(acc, j))
    else if !op.OperatorToken? then Failure(ClassCastError)
    else
      var f :- Factor(toks, j + 1, v);
      TermTail(toks, BinaryOperationNode(acc, op.text, f.tree), f.next, v)
  }

  /**
   * factor: an operator token of any value as a unary prefix of the next factor;
   * an integer; '(' expr ')'; or an identifier (see IdentifierFactor).
   */
  function Factor(toks: seq<Token>, i: nat, v: IdentifierFactor): (r: Parsed)
    requires i <= |toks|
    ensures r.Success? ==> IsExpression(r.value.tree) && i < r.value.next <= |toks|
    ensures r.Failure? ==> ErrorWithin(r.error, i, |toks|)
    decreases |toks| - i, 1
  {
    var t := Cur(toks, i);
    if Eat(t, OperatorType) then
      var operand :- Factor(toks, i + 1, v);
      Success(Step(UnaryOperationNode(t.text, operand.tree), operand.next))
    else if Eat(t, IntegerType) then
      match ParseInt(t.text)
      case None => Failure(NumberFormatError)
      case Some(n) => Success(Step(IntegerLeaf(n), i + 1))
    else if CheckTokenForTypeAndValue(t, BracketType, "(") then
      var inner :- Expr(toks, i + 1, v);
      if !CheckTokenForTypeAndValue(Cur(toks, inner.next), BracketType, ")") then
        Failure(ParseError(Position(inner.next)))
      else
        Success(Step(inner.tree, inner.next + 1))
    else if Eat(t, IdentifierType) then
      match v
      case AsWritten => Variable(toks, i + 1)
      case Corrected => Variable(toks, i)
    else
      Failure(ParseError(Position(i)))
  }
}
