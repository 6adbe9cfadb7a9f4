/**
 * The statement parser reads every well-formed tree back from its fully
 * parenthesised rendering: programs, blocks in source order, statements and
 * expressions. The inductive proofs work on layouts (where each token of a tree
 * stands); the rendering lemmas of Rendering connect them to token sequences.
 */
module ParserRoundTrip {
  import opened Wrappers
  import opened JavaText
  import opened Tokens
  import opened Syntax
  import opened Parser
  import opened Windows
  import opened Rendering
  import opened ParserFacts

  // ---------------------------------------------------------------- expressions

  /** A bracketed expression is a factor whose tree is the inner tree itself. */
  lemma FactorOfBracketed(toks: seq<Token>, i: nat, e: Ast, b: nat, v: IdentifierFactor)
    requires Cur(toks, i) == Open
    requires Expr(toks, i + 1, v) == Success(Step(e, b)) && Cur(toks, b) == Close
    ensures Factor(toks, i, v) == Success(Step(e, b + 1))
  {
  }

  lemma FactorOfVariable(toks: seq<Token>, i: nat, x: string, v: IdentifierFactor)
    requires ExprLayout(toks, i, VarLeaf(x), v)
    ensures Factor(toks, i, v) == Success(Step(VarLeaf(x), i + ExprWidth(VarLeaf(x), v)))
  {
  }

  lemma UnaryInBrackets(toks: seq<Token>, i: nat, op: string, a: Ast, b: nat, v: IdentifierFactor)
    requires Cur(toks, i) == Open && Cur(toks, i + 1) == OperatorToken(op)
    requires Factor(toks, i + 2, v) == Success(Step(a, b)) && Cur(toks, b) == Close
    ensures Factor(toks, i, v) == Success(Step(UnaryOperationNode(op, a), b + 1))
  {
    assert Factor(toks, i + 1, v) == Success(Step(UnaryOperationNode(op, a), b));
    ExprOfFactor(toks, i + 1, v);
    FactorOfBracketed(toks, i, UnaryOperationNode(op, a), b, v);
  }

  lemma MultiplicativeTerm(toks: seq<Token>, i: nat, l: Ast, op: string, r: Ast, a: nat, b: nat, v: IdentifierFactor)
    requires i <= |toks| && (op == "*" || op == "/") && IsExpression(l) && IsExpression(r)
    requires Factor(toks, i, v) == Success(Step(l, a)) && Cur(toks, a) == OperatorToken(op)
    requires Factor(toks, a + 1, v) == Success(Step(r, b)) && Closes(Cur(toks, b))
    ensures Expr(toks, i, v) == Success(Step(BinaryOperationNode(l, op, r), b))
  {
    var e := BinaryOperationNode(l, op, r);
    assert TermTail(toks, e, b, v) == Success(Step(e, b));
    assert TermTail(toks, l, a, v) == Success(Step(e, b));
    assert Term(toks, i, v) == Success(Step(e, b));
    ExprOfTerm(toks, i, v);
  }

  lemma AdditiveExpr(toks: seq<Token>, i: nat, l: Ast, op: string, r: Ast, a: nat, b: nat, v: IdentifierFactor)
    requires i <= |toks| && (op == "+" || op == "-") && IsExpression(l) && IsExpression(r)
    requires Factor(toks, i, v) == Success(Step(l, a)) && Cur(toks, a) == OperatorToken(op)
    requires Factor(toks, a + 1, v) == Success(Step(r, b)) && Closes(Cur(toks, b))
    ensures Expr(toks, i, v) == Success(Step(BinaryOperationNode(l, op, r), b))
  {
    var e := BinaryOperationNode(l, op, r);
    TermOfFactor(toks, i, v);
    TermOfFactor(toks, a + 1, v);
    assert ExprTail(toks, e, b, v) == Success(Step(e, b));
    assert ExprTail(toks, l, a, v) == Success(Step(e, b));
  }

  lemma BinaryInBrackets(toks: seq<Token>, i: nat, l: Ast, op: string, r: Ast, a: nat, b: nat, v: IdentifierFactor)
    requires Cur(toks, i) == Open && IsBinaryOperator(op) && IsExpression(l) && IsExpression(r)
    requires Factor(toks, i + 1, v) == Success(Step(l, a)) && Cur(toks, a) == OperatorToken(op)
    requires Factor(toks, a + 1, v) == Success(Step(r, b)) && Cur(toks, b) == Close
    ensures Factor(toks, i, v) == Success(Step(BinaryOperationNode(l, op, r), b + 1))
  {
    if op == "*" || op == "/" {
      MultiplicativeTerm(toks, i + 1, l, op, r, a, b, v);
    } else {
      AdditiveExpr(toks, i + 1, l, op, r, a, b, v);
    }
    FactorOfBracketed(toks, i, BinaryOperationNode(l, op, r), b, v);
  }

  /** factor reads an expression back from its layout, wherever it stands. */
  lemma {:induction false} FactorReadsLayout(toks: seq<Token>, i: nat, e: Ast, v: IdentifierFactor)
    requires i <= |toks| && IsExpression(e) && ExprLayout(toks, i, e, v)
    ensures Factor(toks, i, v) == Success(Step(e, i + ExprWidth(e, v)))
    decreases e, 2
  {
    match e
    case IntegerLeaf(n) =>
      IntegerOperand(toks, i, n, v);
    case VarLeaf(x) =>
      FactorOfVariable(toks, i, x, v);
    case UnaryOperationNode(op, a) =>
      UnaryReadsLayout(toks, i, op, a, v);
    case BinaryOperationNode(l, op, r) =>
      BinaryReadsLayout(toks, i, l, op, r, v);
  }

  lemma {:induction false} UnaryReadsLayout(toks: seq<Token>, i: nat, op: string, a: Ast, v: IdentifierFactor)
    requires i <= |toks| && IsExpression(a) && ExprLayout(toks, i, UnaryOperationNode(op, a), v)
    ensures Factor(toks, i, v) == Success(Step(UnaryOperationNode(op, a), i + ExprWidth(a, v) + 3))
    decreases UnaryOperationNode(op, a), 1
  {
    FactorReadsLayout(toks, i + 2, a, v);
    UnaryInBrackets(toks, i, op, a, i + 2 + ExprWidth(a, v), v);
  }

  lemma {:induction false} BinaryReadsLayout(toks: seq<Token>, i: nat, l: Ast, op: string, r: Ast, v: IdentifierFactor)
    requires i <= |toks| && IsExpression(BinaryOperationNode(l, op, r))
    requires ExprLayout(toks, i, BinaryOperationNode(l, op, r), v)
    ensures Factor(toks, i, v) == Success(Step(BinaryOperationNode(l, op, r), i + ExprWidth(l, v) + ExprWidth(r, v) + 3))
    decreases BinaryOperationNode(l, op, r), 1
  {
    FactorReadsLayout(toks, i + 1, l, v);
    RightOperandReadsLayout(toks, i, l, op, r, i + 1 + ExprWidth(l, v), v);
  }

  /** With the left operand read, the operator, the right operand and `)` complete the binary node. */
  lemma {:induction false} RightOperandReadsLayout(toks: seq<Token>, i: nat, l: Ast, op: string, r: Ast, a: nat, v: IdentifierFactor)
    requires Cur(toks, i) == Open && IsBinaryOperator(op) && IsExpression(l) && IsExpression(r)
    requires Factor(toks, i + 1, v) == Success(Step(l, a)) && Cur(toks, a) == OperatorToken(op)
    requires ExprLayout(toks, a + 1, r, v) && Cur(toks, a + 1 + ExprWidth(r, v)) == Close
    ensures Factor(toks, i, v) == Success(Step(BinaryOperationNode(l, op, r), a + ExprWidth(r, v) + 2))
    decreases BinaryOperationNode(l, op, r), 0
  {
    FactorReadsLayout(toks, a + 1, r, v);
    BinaryInBrackets(toks, i, l, op, r, a, a + 1 + ExprWidth(r, v), v);
  }

  /** expr reads an expression back from its layout when a token that closes it follows. */
  lemma ExprReadsLayout(toks: seq<Token>, i: nat, e: Ast, v: IdentifierFactor)
    requires i <= |toks| && IsExpression(e) && ExprLayout(toks, i, e, v)
    requires Closes(Cur(toks, i + ExprWidth(e, v)))
    ensures Expr(toks, i, v) == Success(Step(e, i + ExprWidth(e, v)))
  {
    FactorReadsLayout(toks, i, e, v);
    ExprOfFactor(toks, i, v);
  }

  /** The bare-expression entry point inverts RenderExpr. */
  lemma ExpressionRoundTrip(e: Ast, v: IdentifierFactor)
    requires IsExpression(e)
    ensures ParseExpression(RenderExpr(e, v), v) == Success(e)
  {
    var toks := RenderExpr(e, v);
    AtWhole(toks);
    ExprLayoutOfRendering(toks, 0, e, v);
    ExprWidthIsLength(e, v);
    ExprReadsLayout(toks, 0, e, v);
  }

  // ---------------------------------------------------------------- statements

  /** Tokens that may follow a statement inside a block. */
  predicate EndsStatement(t: Token) {
    t == Semicolon || t == End
  }

  /** An assignable identifier, `:=` and an expression make an assignment statement. */
  lemma AssignOfParts(toks: seq<Token>, i: nat, x: string, e: Ast, n: nat, v: IdentifierFactor)
    requires IsAssignable(x) && Cur(toks, i) == IdentifierToken(x) && Cur(toks, i + 1) == Becomes
    requires Expr(toks, i + 2, v) == Success(Step(e, n))
    ensures Statement(toks, i, v) == Success(Step(AssignNode(VarLeaf(x), e), n))
  {
    assert AssignStatement(toks, i, v) == Success(Step(AssignNode(VarLeaf(x), e), n));
  }

  /** BEGIN, a statement list and END make a block, both as a compound statement and as a statement. */
  lemma BlockOfParts(toks: seq<Token>, i: nat, cs: seq<Ast>, m: nat, v: IdentifierFactor)
    requires Cur(toks, i) == Begin
    requires StatementList(toks, i + 1, v) == Success(Steps(cs, m)) && Cur(toks, m) == End
    ensures CompoundStatement(toks, i, v) == Success(Step(CompoundNode(cs), m + 1))
    ensures Statement(toks, i, v) == CompoundStatement(toks, i, v)
  {
  }

  /** A statement followed by END is the whole list. */
  lemma LastStatement(toks: seq<Token>, i: nat, cs: seq<Ast>, j: nat, v: IdentifierFactor)
    requires i <= |toks| && |cs| == 1 && Statement(toks, i, v) == Success(Step(cs[0], j)) && Cur(toks, j) == End
    ensures StatementList(toks, i, v) == Success(Steps(cs, j))
  {
    assert [cs[0]] == cs;
  }

  /** A statement, a semicolon and a list make a longer list. */
  lemma NextStatement(toks: seq<Token>, i: nat, cs: seq<Ast>, j: nat, k: nat, v: IdentifierFactor)
    requires i <= |toks| && |cs| > 1 && Statement(toks, i, v) == Success(Step(cs[0], j)) && Cur(toks, j) == Semicolon
    requires StatementList(toks, j + 1, v) == Success(Steps(cs[1..], k))
    ensures StatementList(toks, i, v) == Success(Steps(cs, k))
  {
    assert [cs[0]] + cs[1..] == cs;
  }

  lemma {:induction false} StatementReadsLayout(toks: seq<Token>, i: nat, s: Ast, v: IdentifierFactor)
    requires i <= |toks| && IsStatement(s) && StatementLayout(toks, i, s, v)
    requires EndsStatement(Cur(toks, i + StatementWidth(s, v)))
    ensures Statement(toks, i, v) == Success(Step(s, i + StatementWidth(s, v)))
    decreases s, 4
  {
    if s.AssignNode? {
      AssignReadsLayout(toks, i, s.left.name, s.right, v);
    } else if s.CompoundNode? {
      CompoundReadsLayout(toks, i, s.children, v);
    }
  }

  lemma {:induction false} AssignReadsLayout(toks: seq<Token>, i: nat, x: string, e: Ast, v: IdentifierFactor)
    requires i <= |toks| && IsAssignable(x) && IsExpression(e)
    requires Cur(toks, i) == IdentifierToken(x) && Cur(toks, i + 1) == Becomes && ExprLayout(toks, i + 2, e, v)
    requires EndsStatement(Cur(toks, i + 2 + ExprWidth(e, v)))
    ensures Statement(toks, i, v) == Success(Step(AssignNode(VarLeaf(x), e), i + 2 + ExprWidth(e, v)))
    decreases e, 3
  {
    ExprReadsLayout(toks, i + 2, e, v);
    AssignOfParts(toks, i, x, e, i + 2 + ExprWidth(e, v), v);
  }

  lemma {:induction false} CompoundReadsLayout(toks: seq<Token>, i: nat, cs: seq<Ast>, v: IdentifierFactor)
    requires i <= |toks| && IsStatement(CompoundNode(cs)) && StatementLayout(toks, i, CompoundNode(cs), v)
    ensures CompoundStatement(toks, i, v) == Success(Step(CompoundNode(cs), i + ListWidth(cs, v) + 2))
    ensures Statement(toks, i, v) == CompoundStatement(toks, i, v)
    decreases cs, 3
  {
    ListReadsLayout(toks, i + 1, cs, v);
    BlockOfParts(toks, i, cs, i + 1 + ListWidth(cs, v), v);
  }

  lemma {:induction false} ListReadsLayout(toks: seq<Token>, i: nat, cs: seq<Ast>, v: IdentifierFactor)
    requires i <= |toks| && |cs| > 0 && AllStatements(cs) && ListLayout(toks, i, cs, v)
    requires Cur(toks, i + ListWidth(cs, v)) == End
    ensures StatementList(toks, i, v) == Success(Steps(cs, i + ListWidth(cs, v)))
    decreases cs, 2
  {
    if |cs| == 1 {
      SingleReadsLayout(toks, i, cs, v);
    } else {
      ConsReadsLayout(toks, i, cs, v);
    }
  }

  lemma {:induction false} SingleReadsLayout(toks: seq<Token>, i: nat, cs: seq<Ast>, v: IdentifierFactor)
    requires i <= |toks| && |cs| == 1 && AllStatements(cs) && ListLayout(toks, i, cs, v)
    requires Cur(toks, i + ListWidth(cs, v)) == End
    ensures StatementList(toks, i, v) == Success(Steps(cs, i + ListWidth(cs, v)))
    decreases cs, 1
  {
    SingleLayout(toks, i, cs, v);
    LastReadsLayout(toks, i, cs, i + StatementWidth(cs[0], v), v);
  }

  /** The layout of a one-statement list is the layout of that statement. */
  lemma SingleLayout(toks: seq<Token>, i: nat, cs: seq<Ast>, v: IdentifierFactor)
    requires |cs| == 1 && AllStatements(cs) && ListLayout(toks, i, cs, v)
    ensures IsStatement(cs[0]) && StatementLayout(toks, i, cs[0], v) && ListWidth(cs, v) == StatementWidth(cs[0], v)
  {
  }

  lemma {:induction false} LastReadsLayout(toks: seq<Token>, i: nat, cs: seq<Ast>, j: nat, v: IdentifierFactor)
    requires i <= |toks| && |cs| == 1 && IsStatement(cs[0]) && StatementLayout(toks, i, cs[0], v)
    requires j == i + StatementWidth(cs[0], v) && Cur(toks, j) == End
    ensures StatementList(toks, i, v) == Success(Steps(cs, j))
    decreases cs, 0
  {
    StatementReadsLayout(toks, i, cs[0], v);
    LastStatement(toks, i, cs, j, v);
  }

  lemma {:induction false} ConsReadsLayout(toks: seq<Token>, i: nat, cs: seq<Ast>, v: IdentifierFactor)
    requires i <= |toks| && |cs| > 1 && AllStatements(cs) && ListLayout(toks, i, cs, v)
    requires Cur(toks, i + ListWidth(cs, v)) == End
    ensures StatementList(toks, i, v) == Success(Steps(cs, i + ListWidth(cs, v)))
    decreases cs, 1
  {
    var j := i + StatementWidth(cs[0], v);
    ListReadsLayout(toks, j + 1, cs[1..], v);
    HeadReadsLayout(toks, i, cs, j, i + ListWidth(cs, v), v);
  }

  /** With the tail read, the head statement and its semicolon complete the list. */
  lemma {:induction false} HeadReadsLayout(toks: seq<Token>, i: nat, cs: seq<Ast>, j: nat, k: nat, v: IdentifierFactor)
    requires i <= |toks| && |cs| > 1 && IsStatement(cs[0])
    requires StatementLayout(toks, i, cs[0], v) && j == i + StatementWidth(cs[0], v) && Cur(toks, j) == Semicolon
    requires StatementList(toks, j + 1, v) == Success(Steps(cs[1..], k))
    ensures StatementList(toks, i, v) == Success(Steps(cs, k))
    decreases cs, 0
  {
    StatementReadsLayout(toks, i, cs[0], v);
    NextStatement(toks, i, cs, j, k, v);
  }

  /** The program entry point inverts RenderProgram. */
  lemma ProgramRoundTrip(p: Ast, v: IdentifierFactor)
    requires IsBlock(p)
    ensures Parse(RenderProgram(p, v), v) == Success(p)
  {
    var toks := RenderProgram(p, v);
    var w := RenderStatement(p, v);
    AtWhole(toks);
    AtSplit(toks, 0, w, [Dot]);
    AtOne(toks, |w|, Dot);
    StatementLayoutOfRendering(toks, 0, p, v);
    StatementWidthIsLength(p, v);
    CompoundReadsLayout(toks, 0, p.children, v);
  }

  /**
   * Every tree parse returns can be rendered and parsed back to itself: the
   * parser's results are exactly the trees RenderProgram covers.
   */
  lemma ParseResultsRoundTrip(toks: seq<Token>, v: IdentifierFactor)
    requires Parse(toks, v).Success?
    ensures Parse(RenderProgram(Parse(toks, v).value, v), v) == Parse(toks, v)
  {
    ProgramRoundTrip(Parse(toks, v).value, v);
  }
}
