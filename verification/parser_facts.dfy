/**
 * What the statement parser does on the inputs that decide its branches: the
 * token tests, the entry points, the program terminator, BEGIN and END, prefix operators,
 * brackets, identifiers in factor position, and the precedence and grouping of
 * binary operators.
 */
module ParserFacts {
  import opened Wrappers
  import opened JavaText
  import opened Tokens
  import opened Syntax
  import opened Parser
  import opened Windows
  import opened Rendering
  import opened FlatExpressions

  // ---------------------------------------------------------------- token tests

  /**
   * eat compares TOKEN_TYPE strings, and the tags' strings are distinct, so it
   * tests the token's class and nothing else.
   */
  lemma EatTestsClassOnly(t: Token, expected: TokenType)
    ensures Eat(t, expected) <==> t.GetType().Name() == expected.Name()
    ensures Eat(t, IdentifierType) <==> t.IdentifierToken?
    ensures Eat(t, OperatorType) <==> t.OperatorToken?
    ensures Eat(t, SignType) <==> t.SignToken?
  {
    NamesAreDistinct(t.GetType(), expected);
  }

  /** The TOKEN_TYPE strings of different classes differ. */
  lemma NamesAreDistinct(x: TokenType, y: TokenType)
    ensures x.Name() == y.Name() ==> x == y
  {
    if x != y {
      var a, b := x.Name(), y.Name();
      assert |a| != |b| || a[0] != b[0];
    }
  }

  /**
   * checkTokenForTypeAndValue: the class matches and the value equals the
   * expected text character by character once both are folded by toLowerCase.
   */
  lemma CheckFoldsEachCharacter(t: Token, expected: TokenType, value: string)
    ensures CheckTokenForTypeAndValue(t, expected, value) <==>
      && Eat(t, expected) && t.GetValue().Some? && |t.GetValue().value| == |value|
      && forall k | 0 <= k < |value| :: ToLowerChar(t.GetValue().value[k]) == ToLowerChar(value[k])
  {
    if Eat(t, expected) && t.GetValue().Some? && |t.GetValue().value| == |value|
      && forall k | 0 <= k < |value| :: ToLowerChar(t.GetValue().value[k]) == ToLowerChar(value[k])
    {
      assert ToLower(t.GetValue().value) == ToLower(value);
    }
  }

  /** isExprOperator and isTermOperator accept exactly the one-character values `+`, `-` and `*`, `/`, and never the same value. */
  lemma OperatorTests(value: Option<string>)
    ensures IsExprOperator(value) <==> value.Some? && |value.value| == 1 && value.value[0] in "+-"
    ensures IsTermOperator(value) <==> value.Some? && |value.value| == 1 && value.value[0] in "*/"
    ensures !(IsExprOperator(value) && IsTermOperator(value))
  {
    if value.Some? && |value.value| == 1 {
      assert value.value == [value.value[0]];
    }
  }

  // ---------------------------------------------------------------- entry points

  /** parse succeeds exactly when program succeeds and leaves EndOfFile current; otherwise it fails there. */
  lemma ParseNeedsEndOfFile(toks: seq<Token>, v: IdentifierFactor)
    ensures Parse(toks, v).Success? <==>
      Program(toks, 0, v).Success? && Cur(toks, Program(toks, 0, v).value.next).EndOfFileToken?
    ensures Parse(toks, v).Success? ==> Parse(toks, v).value == Program(toks, 0, v).value.tree
    ensures Program(toks, 0, v).Success? && !Cur(toks, Program(toks, 0, v).value.next).EndOfFileToken? ==>
      Parse(toks, v) == Failure(ParseError(Program(toks, 0, v).value.next + 1))
    ensures Program(toks, 0, v).Failure? ==> Parse(toks, v) == Failure(Program(toks, 0, v).error)
  {
  }

  /** expr(tokens) succeeds exactly when expr succeeds and leaves EndOfFile current; otherwise it fails there. */
  lemma ParseExpressionNeedsEndOfFile(toks: seq<Token>, v: IdentifierFactor)
    ensures ParseExpression(toks, v).Success? <==>
      Expr(toks, 0, v).Success? && Cur(toks, Expr(toks, 0, v).value.next).EndOfFileToken?
    ensures ParseExpression(toks, v).Success? ==> ParseExpression(toks, v).value == Expr(toks, 0, v).value.tree
    ensures Expr(toks, 0, v).Success? && !Cur(toks, Expr(toks, 0, v).value.next).EndOfFileToken? ==>
      ParseExpression(toks, v) == Failure(ParseError(Expr(toks, 0, v).value.next + 1))
    ensures Expr(toks, 0, v).Failure? ==> ParseExpression(toks, v) == Failure(Expr(toks, 0, v).error)
  {
  }

  // ---------------------------------------------------------------- program and blocks

  /** The terminator is any token of kind Sign, whatever its value, and it is consumed. */
  lemma AnySignEndsProgram(toks: seq<Token>, i: nat, v: IdentifierFactor)
    requires i <= |toks| && CompoundStatement(toks, i, v).Success?
    ensures Program(toks, i, v).Success? <==> Cur(toks, CompoundStatement(toks, i, v).value.next).SignToken?
    ensures Program(toks, i, v).Success? ==>
      Program(toks, i, v).value == Step(CompoundStatement(toks, i, v).value.tree, CompoundStatement(toks, i, v).value.next + 1)
  {
  }

  /** BEGIN END is a block of one empty statement, and a semicolon is as good a terminator as a dot. */
  lemma EmptyBlock(v: IdentifierFactor)
    ensures Parse([Begin, End, Dot], v) == Success(CompoundNode([NoOp]))
    ensures Parse([Begin, End, Semicolon], v) == Success(CompoundNode([NoOp]))
  {
    EmptyBlockWith(Dot, v);
    EmptyBlockWith(Semicolon, v);
  }

  lemma EmptyBlockWith(t: Token, v: IdentifierFactor)
    requires t.SignToken?
    ensures Parse([Begin, End, t], v) == Success(CompoundNode([NoOp]))
  {
    var toks := [Begin, End, t];
    assert Statement(toks, 1, v) == Success(Step(NoOp, 1));
    assert StatementList(toks, 1, v) == Success(Steps([NoOp], 1));
    assert CompoundStatement(toks, 0, v) == Success(Step(CompoundNode([NoOp]), 2));
    assert Program(toks, 0, v) == Success(Step(CompoundNode([NoOp]), 3));
  }

  /**
   * The block keywords are matched ignoring case where compoundStatement reads
   * them; statement compares with END exactly (see StatementOfIdentifier).
   */
  lemma KeywordsIgnoreCase(v: IdentifierFactor)
    ensures Parse([IdentifierToken("begin"), IdentifierToken("x"), Becomes, IntegerToken("1"), IdentifierToken("End"), Dot], v)
      == Success(CompoundNode([AssignNode(VarLeaf("x"), IntegerLeaf(1))]))
  {
    var toks := [IdentifierToken("begin"), IdentifierToken("x"), Becomes, IntegerToken("1"), IdentifierToken("End"), Dot];
    var a := AssignNode(VarLeaf("x"), IntegerLeaf(1));
    assert ToLower("begin") == ToLower("BEGIN");
    assert ToLower("End") == ToLower("END");
    assert ToLower("x") != ToLower("BEGIN") by {
      assert |ToLower("x")| != |ToLower("BEGIN")|;
    }
    assert ParseInt("1") == Some(1) by {
      assert AllDigits("1") && DigitsValue("1") == 1;
    }
    assert Factor(toks, 3, v) == Success(Step(IntegerLeaf(1), 4));
    ExprOfFactor(toks, 3, v);
    assert Statement(toks, 1, v) == Success(Step(a, 4));
    assert StatementList(toks, 1, v) == Success(Steps([a], 4));
    assert CompoundStatement(toks, 0, v) == Success(Step(CompoundNode([a]), 5));
  }

  /**
   * compoundStatement accepts BEGIN and END in every spelling toLowerCase
   * equates: a block is read exactly when the current token is an identifier
   * folding to "begin", a statement list follows, and an identifier folding to
   * "end" comes after it.
   */
  lemma CompoundKeywords(toks: seq<Token>, i: nat, v: IdentifierFactor)
    requires i <= |toks|
    ensures CompoundStatement(toks, i, v).Success? <==>
      && Cur(toks, i).IdentifierToken? && ToLower(Cur(toks, i).text) == ToLower("BEGIN")
      && StatementList(toks, i + 1, v).Success?
      && Cur(toks, StatementList(toks, i + 1, v).value.next).IdentifierToken?
      && ToLower(Cur(toks, StatementList(toks, i + 1, v).value.next).text) == ToLower("END")
    ensures CompoundStatement(toks, i, v).Success? ==>
      CompoundStatement(toks, i, v).value
        == Step(CompoundNode(StatementList(toks, i + 1, v).value.trees), StatementList(toks, i + 1, v).value.next + 1)
  {
  }

  /** BEGIN and END in any spelling toLowerCase equates, around a statement list, make the block of that list. */
  lemma BlockKeywordsIgnoreCase(toks: seq<Token>, i: nat, b: string, e: string, cs: seq<Ast>, m: nat, v: IdentifierFactor)
    requires Cur(toks, i) == IdentifierToken(b) && ToLower(b) == ToLower("BEGIN")
    requires StatementList(toks, i + 1, v) == Success(Steps(cs, m))
    requires Cur(toks, m) == IdentifierToken(e) && ToLower(e) == ToLower("END")
    ensures CompoundStatement(toks, i, v) == Success(Step(CompoundNode(cs), m + 1))
  {
  }

  /**
   * statement on an identifier that is not BEGIN: exactly "END" is the empty
   * statement, and every other spelling, "end" included, starts an assignment.
   */
  lemma StatementOfIdentifier(toks: seq<Token>, i: nat, x: string, v: IdentifierFactor)
    requires i <= |toks| && Cur(toks, i) == IdentifierToken(x) && ToLower(x) != ToLower("BEGIN")
    ensures x == "END" ==> Statement(toks, i, v) == Success(Step(NoOp, i))
    ensures x != "END" ==> Statement(toks, i, v) == AssignStatement(toks, i, v)
  {
  }

  /** So a lower-case end closing an empty block is read as an assignment target and fails where `:=` is expected. */
  lemma LowerCaseEndFails(v: IdentifierFactor)
    ensures Parse([Begin, IdentifierToken("end"), Dot], v) == Failure(ParseError(3))
  {
    var toks := [Begin, IdentifierToken("end"), Dot];
    assert ToLower("end") != ToLower("BEGIN") by {
      assert |ToLower("end")| != |ToLower("BEGIN")|;
    }
    assert ToLower(".") != ToLower(":=") by {
      assert |ToLower(".")| != |ToLower(":=")|;
    }
    StatementOfIdentifier(toks, 1, "end", v);
    assert AssignStatement(toks, 1, v) == Failure(ParseError(3));
    assert StatementList(toks, 1, v) == Failure(ParseError(3));
  }

  // ---------------------------------------------------------------- factors

  /** A sequence of tokens that are all of kind Operator, with the given values. */
  predicate OperatorsAt(toks: seq<Token>, i: nat, ops: seq<string>)
    decreases |ops|
  {
    |ops| == 0 || (Cur(toks, i) == OperatorToken(ops[0]) && OperatorsAt(toks, i + 1, ops[1..]))
  }

  /** The tree of prefix operators ops applied, outermost first, to e. */
  function Nest(ops: seq<string>, e: Ast): (r: Ast)
    ensures IsExpression(e) ==> IsExpression(r)
    decreases |ops|
  {
    if |ops| == 0 then e else UnaryOperationNode(ops[0], Nest(ops[1..], e))
  }

  /** Any k operator tokens before a factor, whatever their values, nest k unary nodes around it. */
  lemma {:induction false} NestedUnary(toks: seq<Token>, i: nat, ops: seq<string>, e: Ast, n: nat, v: IdentifierFactor)
    requires i + |ops| <= |toks| && OperatorsAt(toks, i, ops)
    requires Factor(toks, i + |ops|, v) == Success(Step(e, n))
    ensures Factor(toks, i, v) == Success(Step(Nest(ops, e), n))
    decreases |ops|
  {
    if |ops| > 0 {
      NestedUnary(toks, i + 1, ops[1..], e, n, v);
    }
  }

  /** The tokens factor accepts first: an operator, an integer, `(` or an identifier; anything else fails there. */
  lemma FactorStart(toks: seq<Token>, i: nat, v: IdentifierFactor)
    requires i <= |toks|
    ensures Factor(toks, i, v).Success? ==>
      || Cur(toks, i).OperatorToken? || Cur(toks, i).IntegerToken? || Cur(toks, i).IdentifierToken?
      || CheckTokenForTypeAndValue(Cur(toks, i), BracketType, "(")
    ensures
      && !Cur(toks, i).OperatorToken? && !Cur(toks, i).IntegerToken? && !Cur(toks, i).IdentifierToken?
      && !CheckTokenForTypeAndValue(Cur(toks, i), BracketType, "(")
      ==> Factor(toks, i, v) == Failure(ParseError(Position(i)))
  {
  }

  /** An integer token is read with Integer.parseInt; a value it rejects escapes as NumberFormatException. */
  lemma FactorOfIntegerToken(toks: seq<Token>, i: nat, s: string, v: IdentifierFactor)
    requires i <= |toks| && Cur(toks, i) == IntegerToken(s)
    ensures ParseInt(s).Some? ==> Factor(toks, i, v) == Success(Step(IntegerLeaf(ParseInt(s).value), i + 1))
    ensures ParseInt(s).None? ==> Factor(toks, i, v) == Failure(NumberFormatError)
  {
  }

  /** `(` and an expression not followed by `)` fail where the `)` was expected. */
  lemma MissingCloseBracket(toks: seq<Token>, i: nat, e: Ast, b: nat, v: IdentifierFactor)
    requires Cur(toks, i) == Open && i < |toks|
    requires Expr(toks, i + 1, v) == Success(Step(e, b)) && !CheckTokenForTypeAndValue(Cur(toks, b), BracketType, ")")
    ensures Factor(toks, i, v) == Failure(ParseError(Position(b)))
  {
  }

  /** `( e )` is the tree of e itself: brackets leave no node behind. */
  lemma BracketsAreTransparent(toks: seq<Token>, i: nat, e: Ast, b: nat, v: IdentifierFactor)
    requires Cur(toks, i) == Open && i < |toks|
    requires Expr(toks, i + 1, v) == Success(Step(e, b)) && Cur(toks, b) == Close
    ensures Factor(toks, i, v).Success? && Factor(toks, i, v).value.tree == Expr(toks, i + 1, v).value.tree
    ensures Factor(toks, i, v).value.next == b + 1
  {
  }

  /**
   * An identifier in factor position: as written, factor consumes it and reads
   * the variable from the token after it; corrected, it reads the identifier itself.
   */
  lemma IdentifierInFactor(toks: seq<Token>, i: nat, x: string)
    requires i <= |toks| && Cur(toks, i) == IdentifierToken(x)
    ensures Factor(toks, i, AsWritten) == Variable(toks, i + 1)
    ensures Factor(toks, i, Corrected) == Success(Step(VarLeaf(x), i + 1))
  {
  }

  /** As written, a lone variable is not an expression, and two identifiers read as the second. */
  lemma AsWrittenVariable()
    ensures ParseExpression([IdentifierToken("x")], AsWritten) == Failure(ParseError(2))
    ensures ParseExpression([IdentifierToken("x"), IdentifierToken("y")], AsWritten) == Success(VarLeaf("y"))
  {
    assert Factor([IdentifierToken("x")], 0, AsWritten) == Failure(ParseError(2));
    var toks := [IdentifierToken("x"), IdentifierToken("y")];
    assert Factor(toks, 0, AsWritten) == Success(Step(VarLeaf("y"), 2));
  }

  /** As written, `BEGIN x := y END .` is rejected: y is skipped and END is taken as the variable. */
  lemma AsWrittenAssignment()
    ensures Parse([Begin, IdentifierToken("x"), Becomes, IdentifierToken("y"), End, Dot], AsWritten)
      == Failure(ParseError(6))
  {
    var toks := [Begin, IdentifierToken("x"), Becomes, IdentifierToken("y"), End, Dot];
    assert ToLower("x") != ToLower("BEGIN") by {
      assert |ToLower("x")| != |ToLower("BEGIN")|;
    }
    assert Factor(toks, 3, AsWritten) == Success(Step(VarLeaf("END"), 5));
    ExprOfFactor(toks, 3, AsWritten);
    assert Statement(toks, 1, AsWritten) == Success(Step(AssignNode(VarLeaf("x"), VarLeaf("END")), 5));
    assert StatementList(toks, 1, AsWritten) == Success(Steps([AssignNode(VarLeaf("x"), VarLeaf("END"))], 5));
  }

  /** Corrected, a lone variable is an expression and `BEGIN x := y END .` is the expected assignment. */
  lemma CorrectedVariable()
    ensures ParseExpression([IdentifierToken("x")], Corrected) == Success(VarLeaf("x"))
    ensures Parse([Begin, IdentifierToken("x"), Becomes, IdentifierToken("y"), End, Dot], Corrected)
      == Success(CompoundNode([AssignNode(VarLeaf("x"), VarLeaf("y"))]))
  {
    assert Factor([IdentifierToken("x")], 0, Corrected) == Success(Step(VarLeaf("x"), 1));
    var toks := [Begin, IdentifierToken("x"), Becomes, IdentifierToken("y"), End, Dot];
    assert ToLower("x") != ToLower("BEGIN") by {
      assert |ToLower("x")| != |ToLower("BEGIN")|;
    }
    assert Factor(toks, 3, Corrected) == Success(Step(VarLeaf("y"), 4));
    ExprOfFactor(toks, 3, Corrected);
    assert Statement(toks, 1, Corrected) == Success(Step(AssignNode(VarLeaf("x"), VarLeaf("y")), 4));
    assert StatementList(toks, 1, Corrected) == Success(Steps([AssignNode(VarLeaf("x"), VarLeaf("y"))], 4));
  }

  /** `---4` is three unary minus nodes around 4; a `*` in prefix position is accepted the same way. */
  lemma PrefixOperatorExamples(v: IdentifierFactor)
    ensures ParseExpression([OperatorToken("-"), OperatorToken("-"), OperatorToken("-"), IntegerToken("4")], v)
      == Success(UnaryOperationNode("-", UnaryOperationNode("-", UnaryOperationNode("-", IntegerLeaf(4)))))
    ensures ParseExpression([OperatorToken("*"), IntegerToken("4")], v) == Success(UnaryOperationNode("*", IntegerLeaf(4)))
  {
    assert ParseInt("4") == Some(4) by {
      assert AllDigits("4") && DigitsValue("4") == 4;
    }
    var toks := [OperatorToken("-"), OperatorToken("-"), OperatorToken("-"), IntegerToken("4")];
    var ops := ["-", "-", "-"];
    assert OperatorsAt(toks, 0, ops) by {
      assert ops[1..] == ["-", "-"] && ops[1..][1..] == ["-"] && ops[1..][1..][1..] == [];
    }
    assert Factor(toks, 3, v) == Success(Step(IntegerLeaf(4), 4));
    NestedUnary(toks, 0, ops, IntegerLeaf(4), 4, v);
    ExprOfFactor(toks, 0, v);
    var toks2 := [OperatorToken("*"), IntegerToken("4")];
    assert Factor(toks2, 0, v) == Success(Step(UnaryOperationNode("*", IntegerLeaf(4)), 2));
    ExprOfFactor(toks2, 0, v);
  }

  // ---------------------------------------------------------------- precedence and grouping

  function LinkTokens(links: seq<Link>): (w: seq<Token>)
    ensures |w| == 2 * |links|
    decreases |links|
  {
    if |links| == 0 then []
    else [OperatorToken(links[0].op), IntegerToken(IntToString(links[0].operand))] + LinkTokens(links[1..])
  }

  /** The tokens of a flat expression: the first integer, then each link. */
  function FlatTokens(first: int, links: seq<Link>): seq<Token> {
    [IntegerToken(IntToString(first))] + LinkTokens(links)
  }

  /** The tokens of links stand at index j and after. */
  predicate LinksLayout(toks: seq<Token>, j: nat, links: seq<Link>)
    decreases |links|
  {
    |links| == 0 ||
      (Cur(toks, j) == OperatorToken(links[0].op) && Cur(toks, j + 1) == IntegerToken(IntToString(links[0].operand))
       && LinksLayout(toks, j + 2, links[1..]))
  }

  /** The rest of a term, then the rest of the expression, as expr runs them after a factor. */
  function TermThenExpr(toks: seq<Token>, sum: Pending, product: Ast, j: nat, v: IdentifierFactor): Parsed
    requires j <= |toks| && IsExpression(product) && PendingOk(sum)
  {
    var t :- TermTail(toks, product, j, v);
    ExprTail(toks, Complete(sum, t.tree), t.next, v)
  }

  lemma IntegerOperand(toks: seq<Token>, j: nat, n: int, v: IdentifierFactor)
    requires IsInt(n) && Cur(toks, j) == IntegerToken(IntToString(n))
    ensures Factor(toks, j, v) == Success(Step(IntegerLeaf(n), j + 1))
  {
    ParseIntOfIntToString(n);
  }

  /** A multiplicative link extends the running product. */
  lemma MultiplicativeLink(toks: seq<Token>, sum: Pending, product: Ast, j: nat, l: Link, v: IdentifierFactor)
    requires j <= |toks| && IsExpression(product) && PendingOk(sum) && IsInt(l.operand) && (l.op == "*" || l.op == "/")
    requires Cur(toks, j) == OperatorToken(l.op) && Cur(toks, j + 1) == IntegerToken(IntToString(l.operand))
    ensures TermThenExpr(toks, sum, product, j, v)
      == TermThenExpr(toks, sum, BinaryOperationNode(product, l.op, IntegerLeaf(l.operand)), j + 2, v)
  {
    IntegerOperand(toks, j + 1, l.operand, v);
  }

  /** An additive link closes the product into the pending sum and starts a new product. */
  lemma AdditiveLink(toks: seq<Token>, sum: Pending, product: Ast, j: nat, l: Link, v: IdentifierFactor)
    requires j <= |toks| && IsExpression(product) && PendingOk(sum) && IsInt(l.operand) && (l.op == "+" || l.op == "-")
    requires Cur(toks, j) == OperatorToken(l.op) && Cur(toks, j + 1) == IntegerToken(IntToString(l.operand))
    ensures TermThenExpr(toks, sum, product, j, v)
      == TermThenExpr(toks, Sum(Complete(sum, product), l.op), IntegerLeaf(l.operand), j + 2, v)
  {
    assert TermTail(toks, product, j, v) == Success(Step(product, j));
    IntegerOperand(toks, j + 1, l.operand, v);
    AdditiveStep(toks, Complete(sum, product), j, l, v);
  }

  lemma AdditiveStep(toks: seq<Token>, acc: Ast, j: nat, l: Link, v: IdentifierFactor)
    requires j < |toks| && IsExpression(acc) && (l.op == "+" || l.op == "-") && Cur(toks, j) == OperatorToken(l.op)
    requires Factor(toks, j + 1, v) == Success(Step(IntegerLeaf(l.operand), j + 2))
    ensures ExprTail(toks, acc, j, v) == TermThenExpr(toks, Sum(acc, l.op), IntegerLeaf(l.operand), j + 2, v)
  {
    assert Term(toks, j + 1, v) == TermTail(toks, IntegerLeaf(l.operand), j + 2, v);
  }

  /** From a link boundary on, expr builds the conventional reading of the remaining links. */
  lemma {:induction false} LinksRead(toks: seq<Token>, sum: Pending, product: Ast, j: nat, links: seq<Link>, v: IdentifierFactor)
    requires j <= |toks| && IsExpression(product) && PendingOk(sum) && IsLinks(links) && LinksLayout(toks, j, links)
    requires Closes(Cur(toks, j + 2 * |links|))
    ensures TermThenExpr(toks, sum, product, j, v) == Success(Step(Reading(sum, product, links), j + 2 * |links|))
    decreases |links|
  {
    if |links| > 0 {
      var l := links[0];
      assert j + 2 <= |toks| by {
        assert Cur(toks, j + 1).IntegerToken?;
      }
      if l.op == "*" || l.op == "/" {
        MultiplicativeLink(toks, sum, product, j, l, v);
        LinksRead(toks, sum, BinaryOperationNode(product, l.op, IntegerLeaf(l.operand)), j + 2, links[1..], v);
      } else {
        AdditiveLink(toks, sum, product, j, l, v);
        LinksRead(toks, Sum(Complete(sum, product), l.op), IntegerLeaf(l.operand), j + 2, links[1..], v);
      }
    }
  }

  lemma {:induction false} LinksLayoutOfTokens(toks: seq<Token>, j: nat, links: seq<Link>)
    requires At(toks, j, LinkTokens(links))
    ensures LinksLayout(toks, j, links)
    decreases |links|
  {
    if |links| > 0 {
      var w := [OperatorToken(links[0].op), IntegerToken(IntToString(links[0].operand))];
      AtSplit(toks, j, w, LinkTokens(links[1..]));
      AtCur(toks, j, w, 0);
      AtCur(toks, j, w, 1);
      LinksLayoutOfTokens(toks, j + 2, links[1..]);
    }
  }

  /**
   * expr(tokens) on a flat expression builds its conventional reading: `*` and
   * `/` bind tighter than `+` and `-`, and each chain groups to the left.
   */
  lemma FlatExpression(first: int, links: seq<Link>, v: IdentifierFactor)
    requires IsInt(first) && IsLinks(links)
    ensures ParseExpression(FlatTokens(first, links), v) == Success(SumOfProducts(first, links))
  {
    var toks := FlatTokens(first, links);
    AtWhole(toks);
    AtSplit(toks, 0, [IntegerToken(IntToString(first))], LinkTokens(links));
    AtOne(toks, 0, IntegerToken(IntToString(first)));
    LinksLayoutOfTokens(toks, 1, links);
    IntegerOperand(toks, 0, first, v);
    LinksRead(toks, NoSum, IntegerLeaf(first), 1, links, v);
    assert Expr(toks, 0, v) == TermThenExpr(toks, NoSum, IntegerLeaf(first), 1, v);
  }

  /** `2 + 3 * 5` is 2 + (3 * 5). */
  lemma PrecedenceExample(v: IdentifierFactor)
    ensures ParseExpression([IntegerToken("2"), OperatorToken("+"), IntegerToken("3"), OperatorToken("*"), IntegerToken("5")], v)
      == Success(BinaryOperationNode(IntegerLeaf(2), "+", BinaryOperationNode(IntegerLeaf(3), "*", IntegerLeaf(5))))
  {
    var links := [Link("+", 3), Link("*", 5)];
    assert links[1..] == [Link("*", 5)] && links[1..][1..] == [];
    assert IntToString(2) == "2" && IntToString(3) == "3" && IntToString(5) == "5";
    assert LinkTokens(links) == [OperatorToken("+"), IntegerToken("3"), OperatorToken("*"), IntegerToken("5")];
    assert FlatTokens(2, links) == [IntegerToken("2"), OperatorToken("+"), IntegerToken("3"), OperatorToken("*"), IntegerToken("5")];
    assert SumOfProducts(2, links) == BinaryOperationNode(IntegerLeaf(2), "+", BinaryOperationNode(IntegerLeaf(3), "*", IntegerLeaf(5)));
    FlatExpression(2, links, v);
  }

  /** `8 - 3 - 2` is (8 - 3) - 2. */
  lemma GroupingExample(v: IdentifierFactor)
    ensures ParseExpression([IntegerToken("8"), OperatorToken("-"), IntegerToken("3"), OperatorToken("-"), IntegerToken("2")], v)
      == Success(BinaryOperationNode(BinaryOperationNode(IntegerLeaf(8), "-", IntegerLeaf(3)), "-", IntegerLeaf(2)))
  {
    var links := [Link("-", 3), Link("-", 2)];
    assert links[1..] == [Link("-", 2)] && links[1..][1..] == [];
    assert IntToString(8) == "8" && IntToString(3) == "3" && IntToString(2) == "2";
    assert LinkTokens(links) == [OperatorToken("-"), IntegerToken("3"), OperatorToken("-"), IntegerToken("2")];
    assert FlatTokens(8, links) == [IntegerToken("8"), OperatorToken("-"), IntegerToken("3"), OperatorToken("-"), IntegerToken("2")];
    assert SumOfProducts(8, links) == BinaryOperationNode(BinaryOperationNode(IntegerLeaf(8), "-", IntegerLeaf(3)), "-", IntegerLeaf(2));
    FlatExpression(8, links, v);
  }

  // ---------------------------------------------------------------- where expressions end

  /** A factor followed by a token that is not * or / is a whole term. */
  lemma TermOfFactor(toks: seq<Token>, i: nat, v: IdentifierFactor)
    requires i <= |toks| && Factor(toks, i, v).Success?
    requires !IsTermOperator(Cur(toks, Factor(toks, i, v).value.next).GetValue())
    ensures Term(toks, i, v) == Factor(toks, i, v)
  {
  }

  /** A term followed by a token that is not + or - is a whole expression. */
  lemma ExprOfTerm(toks: seq<Token>, i: nat, v: IdentifierFactor)
    requires i <= |toks| && Term(toks, i, v).Success?
    requires !IsExprOperator(Cur(toks, Term(toks, i, v).value.next).GetValue())
    ensures Expr(toks, i, v) == Term(toks, i, v)
  {
  }

  /** Tokens that end an expression: neither an additive nor a multiplicative operator. */
  predicate Closes(t: Token) {
    !IsExprOperator(t.GetValue()) && !IsTermOperator(t.GetValue())
  }

  lemma ExprOfFactor(toks: seq<Token>, i: nat, v: IdentifierFactor)
    requires i <= |toks| && Factor(toks, i, v).Success?
    requires Closes(Cur(toks, Factor(toks, i, v).value.next))
    ensures Expr(toks, i, v) == Factor(toks, i, v)
  {
    TermOfFactor(toks, i, v);
    ExprOfTerm(toks, i, v);
  }
}
