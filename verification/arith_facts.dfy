/**
 * What the arithmetic parser does: its entry point, eat, factor (no prefix
 * operators, brackets leave no node), the precedence and grouping of flat
 * expressions, and reading every tree back from its fully bracketed rendering.
 */
module ArithmeticFacts {
  import opened Wrappers
  import opened JavaText
  import opened Syntax
  import opened ArithmeticParser
  import opened Windows
  import opened FlatExpressions

  const LeftBracket: Token := RoundOpeningBracketToken("(")
  const RightBracket: Token := RoundClosingBracketToken(")")

  // ---------------------------------------------------------------- operator tests

  /** isExprOperator and isTermOperator accept exactly the one-character values `+`, `-` and `*`, `/`, and never the same value. */
  lemma OperatorTests(value: Option<string>)
    ensures IsExprOperator(value) <==> value.Some? && |value.value| == 1 && value.value[0] in "+-"
    ensures IsTermOperator(value) <==> value.Some? && |value.value| == 1 && value.value[0] in "*/"
    ensures !(IsExprOperator(value) && IsTermOperator(value))
  {
    if value.Some? && |value.value| == 1 {
      assert value.value == [value.value[0]];
    }
  }

  // ---------------------------------------------------------------- entry point

  /** parse succeeds exactly when expr succeeds and leaves EndOfFile current; otherwise it fails after that token. */
  lemma ParseNeedsEndOfFile(toks: seq<Token>)
    ensures Parse(toks).Success? <==> Expr(toks, 0).Success? && Cur(toks, Expr(toks, 0).value.next).EndOfFileToken?
    ensures Parse(toks).Success? ==> Parse(toks).value == Expr(toks, 0).value.tree
    ensures Expr(toks, 0).Failure? ==> Parse(toks) == Failure(Expr(toks, 0).error)
    ensures Expr(toks, 0).Success? && !Cur(toks, Expr(toks, 0).value.next).EndOfFileToken?
      ==> Parse(toks) == Failure(Expr(toks, 0).value.next + 1)
  {
  }

  /** Nothing but EndOfFile is not an expression: factor fails on the first token. */
  lemma EmptyInputFails()
    ensures Parse([]) == Failure(1)
    ensures Parse([EndOfFileToken]) == Failure(1)
  {
    assert Factor([], 0) == Failure(1);
    assert Factor([EndOfFileToken], 0) == Failure(1);
  }

  // ---------------------------------------------------------------- factor

  /**
   * factor accepts an integer or `(` first; anything else, and in particular a
   * binary operator such as a leading `-`, fails at the position of the token
   * after it, since there are no prefix operators.
   */
  lemma FactorStart(toks: seq<Token>, i: nat)
    requires i <= |toks|
    ensures Factor(toks, i).Success? ==> Cur(toks, i).IntegerToken? || Cur(toks, i).RoundOpeningBracketToken?
    ensures !Cur(toks, i).IntegerToken? && !Cur(toks, i).RoundOpeningBracketToken? ==> Factor(toks, i) == Failure(i + 1)
  {
  }

  /** `-4` is not an expression: the operator cannot start a factor. */
  lemma NoPrefixMinus()
    ensures Parse([BinaryOperatorToken("-"), IntegerToken("4")]) == Failure(1)
  {
    FactorStart([BinaryOperatorToken("-"), IntegerToken("4")], 0);
  }

  /**
   * An integer token is eaten before Integer.parseInt reads its text, so a text
   * it rejects fails one position further on.
   */
  lemma FactorOfIntegerToken(toks: seq<Token>, i: nat, s: string)
    requires i <= |toks| && Cur(toks, i) == IntegerToken(s)
    ensures ParseInt(s).Some? ==> Factor(toks, i) == Success(Step(IntegerLeaf(ParseInt(s).value), i + 1))
    ensures ParseInt(s).None? ==> Factor(toks, i) == Failure(i + 2)
  {
  }

  /** An integer token whose digits denote more than the largest int fails, however the value was written. */
  lemma TooLargeInteger(toks: seq<Token>, i: nat, n: int)
    requires i <= |toks| && n > IntMax && Cur(toks, i) == IntegerToken(IntToString(n))
    ensures Factor(toks, i) == Failure(i + 2)
  {
    NatToStringValue(n);
  }

  /** `(` and an expression not followed by `)` fail at the position after the token found instead. */
  lemma MissingCloseBracket(toks: seq<Token>, i: nat, e: Ast, b: nat)
    requires i < |toks| && Cur(toks, i).RoundOpeningBracketToken?
    requires Expr(toks, i + 1) == Success(Step(e, b)) && !Cur(toks, b).RoundClosingBracketToken?
    ensures Factor(toks, i) == Failure(b + 1)
  {
  }

  /** `( e )` is the tree of e itself; any text on the bracket tokens is ignored. */
  lemma BracketsAreTransparent(toks: seq<Token>, i: nat, e: Ast, b: nat)
    requires i < |toks| && Cur(toks, i).RoundOpeningBracketToken?
    requires Expr(toks, i + 1) == Success(Step(e, b)) && Cur(toks, b).RoundClosingBracketToken?
    ensures Factor(toks, i) == Success(Step(e, b + 1))
  {
  }

  /** A token of another type carrying an operator's text fails the cast to BinaryOperatorToken. */
  lemma OperatorTextOnOtherToken(toks: seq<Token>, j: nat, acc: Ast)
    requires j <= |toks| && IsArithmetic(acc) && !Cur(toks, j).BinaryOperatorToken?
    ensures IsExprOperator(Cur(toks, j).GetValue()) ==> ExprTail(toks, acc, j) == Failure(j + 1)
    ensures IsTermOperator(Cur(toks, j).GetValue()) ==> TermTail(toks, acc, j) == Failure(j + 1)
  {
  }

  // ---------------------------------------------------------------- where expressions end

  /** Tokens that end an expression: neither an additive nor a multiplicative operator. */
  predicate Closes(t: Token) {
    !IsExprOperator(t.GetValue()) && !IsTermOperator(t.GetValue())
  }

  lemma ExprOfFactor(toks: seq<Token>, i: nat)
    requires i <= |toks| && Factor(toks, i).Success? && Closes(Cur(toks, Factor(toks, i).value.next))
    ensures Expr(toks, i) == Factor(toks, i)
  {
    assert Term(toks, i) == Factor(toks, i);
  }

  // ---------------------------------------------------------------- precedence and grouping

  function LinkTokens(links: seq<Link>): (w: seq<Token>)
    ensures |w| == 2 * |links|
    decreases |links|
  {
    if |links| == 0 then []
    else [BinaryOperatorToken(links[0].op), IntegerToken(IntToString(links[0].operand))] + LinkTokens(links[1..])
  }

  /** The tokens of a flat expression: the first integer, then each link. */
  function FlatTokens(first: int, links: seq<Link>): seq<Token> {
    [IntegerToken(IntToString(first))] + LinkTokens(links)
  }

  /** The tokens of links stand at index j and after. */
  predicate LinksLayout(toks: seq<Token>, j: nat, links: seq<Link>)
    decreases |links|
  {
    |links| == 0 ||
      (Cur(toks, j) == BinaryOperatorToken(links[0].op) && Cur(toks, j + 1) == IntegerToken(IntToString(links[0].operand))
       && LinksLayout(toks, j + 2, links[1..]))
  }

  predicate SumOk(sum: Pending) {
    sum.Sum? ==> IsArithmetic(sum.left) && (sum.op == "+" || sum.op == "-")
  }

  /** The rest of a term, then the rest of the expression, as expr runs them after a factor. */
  function TermThenExpr(toks: seq<Token>, sum: Pending, product: Ast, j: nat): Parsed
    requires j <= |toks| && IsArithmetic(product) && SumOk(sum)
  {
    var t :- TermTail(toks, product, j);
    ExprTail(toks, Complete(sum, t.tree), t.next)
  }

  lemma IntegerOperand(toks: seq<Token>, j: nat, n: int)
    requires j <= |toks| && IsInt(n) && Cur(toks, j) == IntegerToken(IntToString(n))
    ensures Factor(toks, j) == Success(Step(IntegerLeaf(n), j + 1))
  {
    ParseIntOfIntToString(n);
  }

  /** A multiplicative link extends the running product. */
  lemma MultiplicativeLink(toks: seq<Token>, sum: Pending, product: Ast, j: nat, l: Link)
    requires j + 2 <= |toks| && IsArithmetic(product) && SumOk(sum) && IsInt(l.operand) && (l.op == "*" || l.op == "/")
    requires Cur(toks, j) == BinaryOperatorToken(l.op) && Cur(toks, j + 1) == IntegerToken(IntToString(l.operand))
    ensures TermThenExpr(toks, sum, product, j)
      == TermThenExpr(toks, sum, BinaryOperationNode(product, l.op, IntegerLeaf(l.operand)), j + 2)
  {
    IntegerOperand(toks, j + 1, l.operand);
  }

  /** An additive link closes the product into the pending sum and starts a new product. */
  lemma AdditiveLink(toks: seq<Token>, sum: Pending, product: Ast, j: nat, l: Link)
    requires j + 2 <= |toks| && IsArithmetic(product) && SumOk(sum) && IsInt(l.operand) && (l.op == "+" || l.op == "-")
    requires Cur(toks, j) == BinaryOperatorToken(l.op) && Cur(toks, j + 1) == IntegerToken(IntToString(l.operand))
    ensures TermThenExpr(toks, sum, product, j)
      == TermThenExpr(toks, Sum(Complete(sum, product), l.op), IntegerLeaf(l.operand), j + 2)
  {
    assert TermTail(toks, product, j) == Success(Step(product, j));
    IntegerOperand(toks, j + 1, l.operand);
    AdditiveStep(toks, Complete(sum, product), j, l);
  }

  lemma AdditiveStep(toks: seq<Token>, acc: Ast, j: nat, l: Link)
    requires j + 2 <= |toks| && IsArithmetic(acc) && (l.op == "+" || l.op == "-") && Cur(toks, j) == BinaryOperatorToken(l.op)
    requires Factor(toks, j + 1) == Success(Step(IntegerLeaf(l.operand), j + 2))
    ensures ExprTail(toks, acc, j) == TermThenExpr(toks, Sum(acc, l.op), IntegerLeaf(l.operand), j + 2)
  {
    assert Term(toks, j + 1) == TermTail(toks, IntegerLeaf(l.operand), j + 2);
  }

  /** From a link boundary on, expr builds the conventional reading of the remaining links. */
  lemma {:induction false} LinksRead(toks: seq<Token>, sum: Pending, product: Ast, j: nat, links: seq<Link>)
    requires j <= |toks| && IsArithmetic(product) && SumOk(sum) && IsLinks(links) && LinksLayout(toks, j, links)
    requires Closes(Cur(toks, j + 2 * |links|))
    ensures TermThenExpr(toks, sum, product, j) == Success(Step(Reading(sum, product, links), j + 2 * |links|))
    decreases |links|
  {
    if |links| > 0 {
      var l := links[0];
      assert j + 2 <= |toks| by {
        assert Cur(toks, j + 1).IntegerToken?;
      }
      if l.op == "*" || l.op == "/" {
        MultiplicativeLink(toks, sum, product, j, l);
        LinksRead(toks, sum, BinaryOperationNode(product, l.op, IntegerLeaf(l.operand)), j + 2, links[1..]);
      } else {
        AdditiveLink(toks, sum, product, j, l);
        LinksRead(toks, Sum(Complete(sum, product), l.op), IntegerLeaf(l.operand), j + 2, links[1..]);
      }
    }
  }

  lemma {:induction false} LinksLayoutOfTokens(toks: seq<Token>, j: nat, links: seq<Link>)
    requires At(toks, j, LinkTokens(links))
    ensures LinksLayout(toks, j, links)
    decreases |links|
  {
    if |links| > 0 {
      var w := [BinaryOperatorToken(links[0].op), IntegerToken(IntToString(links[0].operand))];
      AtSplit(toks, j, w, LinkTokens(links[1..]));
      AtIndex(toks, j, w, 0);
      AtIndex(toks, j, w, 1);
      LinksLayoutOfTokens(toks, j + 2, links[1..]);
    }
  }

  /**
   * parse on a flat expression builds its conventional reading: `*` and `/` bind
   * tighter than `+` and `-`, and each chain groups to the left.
   */
  lemma FlatExpression(first: int, links: seq<Link>)
    requires IsInt(first) && IsLinks(links)
    ensures Parse(FlatTokens(first, links)) == Success(SumOfProducts(first, links))
  {
    var toks := FlatTokens(first, links);
    AtWhole(toks);
    AtSplit(toks, 0, [IntegerToken(IntToString(first))], LinkTokens(links));
    LinksLayoutOfTokens(toks, 1, links);
    IntegerOperand(toks, 0, first);
    LinksRead(toks, NoSum, IntegerLeaf(first), 1, links);
    assert Expr(toks, 0) == TermThenExpr(toks, NoSum, IntegerLeaf(first), 1);
  }

  /** `2 * 3 - 4 / 2` is (2 * 3) - (4 / 2). */
  lemma PrecedenceExample()
    ensures Parse([IntegerToken("2"), BinaryOperatorToken("*"), IntegerToken("3"), BinaryOperatorToken("-"),
                   IntegerToken("4"), BinaryOperatorToken("/"), IntegerToken("2")])
      == Success(BinaryOperationNode(BinaryOperationNode(IntegerLeaf(2), "*", IntegerLeaf(3)), "-",
                                     BinaryOperationNode(IntegerLeaf(4), "/", IntegerLeaf(2))))
  {
    var links := [Link("*", 3), Link("-", 4), Link("/", 2)];
    assert links[1..] == [Link("-", 4), Link("/", 2)] && links[1..][1..] == [Link("/", 2)] && links[1..][1..][1..] == [];
    assert IntToString(2) == "2" && IntToString(3) == "3" && IntToString(4) == "4";
    assert LinkTokens(links) == [BinaryOperatorToken("*"), IntegerToken("3"), BinaryOperatorToken("-"),
                                 IntegerToken("4"), BinaryOperatorToken("/"), IntegerToken("2")];
    assert FlatTokens(2, links) == [IntegerToken("2"), BinaryOperatorToken("*"), IntegerToken("3"), BinaryOperatorToken("-"),
                                    IntegerToken("4"), BinaryOperatorToken("/"), IntegerToken("2")];
    assert SumOfProducts(2, links) == BinaryOperationNode(BinaryOperationNode(IntegerLeaf(2), "*", IntegerLeaf(3)), "-",
                                                          BinaryOperationNode(IntegerLeaf(4), "/", IntegerLeaf(2)));
    FlatExpression(2, links);
  }

  // ---------------------------------------------------------------- fully bracketed round trip

  /** An integer token, or `(` left operator right `)`. */
  function Render(e: Ast): (w: seq<Token>)
    ensures IsArithmetic(e) ==> |w| > 0
  {
    match e
    case IntegerLeaf(n) => [IntegerToken(IntToString(n))]
    case BinaryOperationNode(l, op, r) => [LeftBracket] + Render(l) + [BinaryOperatorToken(op)] + Render(r) + [RightBracket]
    case _ => []
  }

  /** The number of tokens Render writes. */
  function Width(e: Ast): nat {
    match e
    case IntegerLeaf(_) => 1
    case BinaryOperationNode(l, _, r) => Width(l) + Width(r) + 3
    case _ => 0
  }

  lemma {:induction false} WidthIsLength(e: Ast)
    ensures |Render(e)| == Width(e)
  {
    match e
    case BinaryOperationNode(l, _, r) =>
      WidthIsLength(l);
      WidthIsLength(r);
    case _ =>
  }

  /** The tokens of e's rendering stand at index i and after. */
  predicate Layout(toks: seq<Token>, i: nat, e: Ast)
    decreases e
  {
    match e
    case IntegerLeaf(n) => Cur(toks, i) == IntegerToken(IntToString(n))
    case BinaryOperationNode(l, op, r) =>
      && Cur(toks, i) == LeftBracket && Layout(toks, i + 1, l)
      && Cur(toks, i + 1 + Width(l)) == BinaryOperatorToken(op)
      && Layout(toks, i + 2 + Width(l), r)
      && Cur(toks, i + 2 + Width(l) + Width(r)) == RightBracket
    case _ => true
  }

  lemma Pieces(toks: seq<Token>, i: nat, wl: seq<Token>, op: string, wr: seq<Token>)
    requires At(toks, i, [LeftBracket] + wl + [BinaryOperatorToken(op)] + wr + [RightBracket])
    ensures Cur(toks, i) == LeftBracket && At(toks, i + 1, wl) && Cur(toks, i + 1 + |wl|) == BinaryOperatorToken(op)
    ensures At(toks, i + 2 + |wl|, wr) && Cur(toks, i + 2 + |wl| + |wr|) == RightBracket
  {
    AtSplit(toks, i, [LeftBracket] + wl + [BinaryOperatorToken(op)] + wr, [RightBracket]);
    AtSplit(toks, i, [LeftBracket] + wl + [BinaryOperatorToken(op)], wr);
    AtSplit3(toks, i, [LeftBracket], wl, [BinaryOperatorToken(op)]);
    AtIndex(toks, i, [LeftBracket], 0);
    AtIndex(toks, i + 1 + |wl|, [BinaryOperatorToken(op)], 0);
    AtIndex(toks, i + 2 + |wl| + |wr|, [RightBracket], 0);
  }

  /** Wherever the rendering of e stands, its layout stands there. */
  lemma {:induction false} LayoutOfRendering(toks: seq<Token>, i: nat, e: Ast)
    requires At(toks, i, Render(e))
    ensures Layout(toks, i, e)
    decreases e, 1
  {
    match e
    case IntegerLeaf(n) =>
      AtIndex(toks, i, Render(e), 0);
    case BinaryOperationNode(l, op, r) =>
      BinaryLayoutOfRendering(toks, i, l, op, r);
    case _ =>
  }

  lemma {:induction false} BinaryLayoutOfRendering(toks: seq<Token>, i: nat, l: Ast, op: string, r: Ast)
    requires At(toks, i, Render(BinaryOperationNode(l, op, r)))
    ensures Layout(toks, i, BinaryOperationNode(l, op, r))
    decreases BinaryOperationNode(l, op, r), 0
  {
    Pieces(toks, i, Render(l), op, Render(r));
    WidthIsLength(l);
    WidthIsLength(r);
    LayoutOfRendering(toks, i + 1, l);
    LayoutOfRendering(toks, i + 2 + Width(l), r);
  }

  /** A factor, `*` or `/`, and a factor that closes the expression make one binary term. */
  lemma MultiplicativeExpr(toks: seq<Token>, i: nat, l: Ast, op: string, r: Ast, a: nat, b: nat)
    requires i <= a < |toks| && (op == "*" || op == "/") && IsArithmetic(l) && IsArithmetic(r)
    requires Factor(toks, i) == Success(Step(l, a)) && Cur(toks, a) == BinaryOperatorToken(op)
    requires Factor(toks, a + 1) == Success(Step(r, b)) && Closes(Cur(toks, b))
    ensures Expr(toks, i) == Success(Step(BinaryOperationNode(l, op, r), b))
  {
    var e := BinaryOperationNode(l, op, r);
    assert TermTail(toks, e, b) == Success(Step(e, b));
    assert TermTail(toks, l, a) == Success(Step(e, b));
    assert Term(toks, i) == Success(Step(e, b));
  }

  /** A factor, `+` or `-`, and a factor that closes the expression make one binary sum. */
  lemma AdditiveExpr(toks: seq<Token>, i: nat, l: Ast, op: string, r: Ast, a: nat, b: nat)
    requires i <= a < |toks| && (op == "+" || op == "-") && IsArithmetic(l) && IsArithmetic(r)
    requires Factor(toks, i) == Success(Step(l, a)) && Cur(toks, a) == BinaryOperatorToken(op)
    requires Factor(toks, a + 1) == Success(Step(r, b)) && Closes(Cur(toks, b))
    ensures Expr(toks, i) == Success(Step(BinaryOperationNode(l, op, r), b))
  {
    var e := BinaryOperationNode(l, op, r);
    assert Term(toks, i) == Success(Step(l, a));
    assert Term(toks, a + 1) == Success(Step(r, b));
    assert ExprTail(toks, e, b) == Success(Step(e, b));
  }

  /** `( l op r )` with both operands read as factors is a factor holding the binary node. */
  lemma BinaryInBrackets(toks: seq<Token>, i: nat, l: Ast, op: string, r: Ast, a: nat, b: nat)
    requires a < |toks| && Cur(toks, i) == LeftBracket && IsBinaryOperator(op) && IsArithmetic(l) && IsArithmetic(r)
    requires Factor(toks, i + 1) == Success(Step(l, a)) && Cur(toks, a) == BinaryOperatorToken(op)
    requires Factor(toks, a + 1) == Success(Step(r, b)) && Cur(toks, b) == RightBracket
    ensures Factor(toks, i) == Success(Step(BinaryOperationNode(l, op, r), b + 1))
  {
    if op == "*" || op == "/" {
      MultiplicativeExpr(toks, i + 1, l, op, r, a, b);
    } else {
      AdditiveExpr(toks, i + 1, l, op, r, a, b);
    }
  }

  /** factor reads a tree back from its layout, wherever it stands. */
  lemma {:induction false} FactorReadsLayout(toks: seq<Token>, i: nat, e: Ast)
    requires i <= |toks| && IsArithmetic(e) && Layout(toks, i, e)
    ensures Factor(toks, i) == Success(Step(e, i + Width(e)))
    decreases e, 1
  {
    match e
    case IntegerLeaf(n) =>
      IntegerOperand(toks, i, n);
    case BinaryOperationNode(l, op, r) =>
      FactorReadsLayout(toks, i + 1, l);
      RightOperandReadsLayout(toks, i, l, op, r, i + 1 + Width(l));
  }

  /** With the left operand read, the operator, the right operand and `)` complete the binary node. */
  lemma {:induction false} RightOperandReadsLayout(toks: seq<Token>, i: nat, l: Ast, op: string, r: Ast, a: nat)
    requires a < |toks| && Cur(toks, i) == LeftBracket && IsBinaryOperator(op) && IsArithmetic(l) && IsArithmetic(r)
    requires Factor(toks, i + 1) == Success(Step(l, a)) && Cur(toks, a) == BinaryOperatorToken(op)
    requires Layout(toks, a + 1, r) && Cur(toks, a + 1 + Width(r)) == RightBracket
    ensures Factor(toks, i) == Success(Step(BinaryOperationNode(l, op, r), a + Width(r) + 2))
    decreases BinaryOperationNode(l, op, r), 0
  {
    FactorReadsLayout(toks, a + 1, r);
    BinaryInBrackets(toks, i, l, op, r, a, a + 1 + Width(r));
  }

  /** parse inverts Render on every tree it can build. */
  lemma RoundTrip(e: Ast)
    requires IsArithmetic(e)
    ensures Parse(Render(e)) == Success(e)
  {
    var toks := Render(e);
    AtWhole(toks);
    LayoutOfRendering(toks, 0, e);
    WidthIsLength(e);
    FactorReadsLayout(toks, 0, e);
    ExprOfFactor(toks, 0);
  }
}
