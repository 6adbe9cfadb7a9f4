/**
 * The earlier, arithmetic-only parser interpreter.Parser: integers, the four
 * binary operators and round brackets, with no unary operators and no
 * statements.
 *
 * Unlike the statement parser, its eat consumes the current token when the type
 * matches. Every failure inside parse (a ParseException, the
 * NumberFormatException of Integer.parseInt, the ClassCastException of the
 * operator cast) is caught and rethrown as one ParseException carrying
 * TokenList.getPosition() at that moment, so a failure here is just that position.
 * It builds trees with the IntegerLeaf and BinaryOperationNode kinds of Syntax.Ast.
 */
module ArithmeticParser {
  import opened Wrappers
  import opened JavaText
  import opened Syntax

  /** The type tags of the interpreter.tokens classes the parser names; they are taken to be distinct. */
  datatype Kind = IntegerKind | BinaryOperatorKind | RoundOpeningBracketKind | RoundClosingBracketKind | EndOfFileKind

  /** The tokens of the interpreter.tokens package; the end-of-file token has no value. */
  datatype Token =
    | IntegerToken(text: string)
    | BinaryOperatorToken(text: string)
    | RoundOpeningBracketToken(text: string)
    | RoundClosingBracketToken(text: string)
    | EndOfFileToken
  {
    function GetType(): Kind {
      match this
      case IntegerToken(_) => IntegerKind
      case BinaryOperatorToken(_) => BinaryOperatorKind
      case RoundOpeningBracketToken(_) => RoundOpeningBracketKind
      case RoundClosingBracketToken(_) => RoundClosingBracketKind
      case EndOfFileToken => EndOfFileKind
    }

    function GetValue(): Option<string> {
      if EndOfFileToken? then None else Some(text)
    }
  }

  /** A production's tree and the index of the token current after it. */
  datatype Step = Step(tree: Ast, next: nat)

  /** Success, or the TokenList position at which parsing stopped. */
  type Parsed = Result<Step, nat>

  /** Trees this parser builds: integer leaves holding Java `int` values and binary nodes. */
  predicate IsArithmetic(e: Ast) {
    match e
    case IntegerLeaf(n) => IsInt(n)
    case BinaryOperationNode(l, op, r) => IsBinaryOperator(op) && IsArithmetic(l) && IsArithmetic(r)
    case _ => false
  }

  /** The token at index i; past the end the list keeps yielding EndOfFile. */
  function Cur(toks: seq<Token>, i: nat): Token {
    if i < |toks| then toks[i] else EndOfFileToken
  }

  /** TokenList.getPosition() while the token at index i is current: the index of the next token. */
  function Position(i: nat): nat {
    i + 1
  }

  /** The outcome of eat: whether the type matched, and the index of the token current afterwards. */
  datatype Eaten = Eaten(matched: bool, next: nat)

  /** eat(expected): on a match, advance by exactly one token; otherwise change nothing. */
  function Eat(toks: seq<Token>, i: nat, expected: Kind): (r: Eaten)
    ensures r.matched <==> Cur(toks, i).GetType() == expected
    ensures r.matched ==> r.next == i + 1
    ensures !r.matched ==> r.next == i
  {
    if Cur(toks, i).GetType() == expected then Eaten(true, i + 1) else Eaten(false, i)
  }

  /** isExprOperator: a present value that is exactly `+` or `-`. */
  predicate IsExprOperator(value: Option<string>) {
    value.Some? && (value.value == "+" || value.value == "-")
  }

  /** isTermOperator: a present value that is exactly `*` or `/`. */
  predicate IsTermOperator(value: Option<string>) {
    value.Some? && (value.value == "*" || value.value == "/")
  }

  /** A failure raised while some token at index k, i <= k <= |toks|, is current, or right after eating it. */
  predicate FailsWithin(position: nat, i: nat, n: nat) {
    i < position <= n + 1
  }

  /** parse(tokens): an expression, which must be followed by EndOfFile. */
  function Parse(toks: seq<Token>): (r: Result<Ast, nat>)
    ensures r.Success? ==> IsArithmetic(r.value)
    ensures r.Failure? ==> FailsWithin(r.error, 0, |toks|)
  {
    var e :- Expr(toks, 0);
    if Cur(toks, e.next).EndOfFileToken? then Success(e.tree)
    else Failure(Position(e.next))
  }

  /** expr: term (('+'|'-') term)*, folded to the left. */
  function Expr(toks: seq<Token>, i: nat): (r: Parsed)
    requires i <= |toks|
    ensures r.Success? ==> IsArithmetic(r.value.tree) && i < r.value.next <= |toks|
    ensures r.Failure? ==> FailsWithin(r.error, i, |toks|)
    decreases |toks| - i, 3
  {
    var t :- Term(toks, i);
    ExprTail(toks, t.tree, t.next)
  }

  /**
   * The loop of expr. The current token is cast to BinaryOperatorToken before it
   * is eaten; a token of another type whose value is + or - fails the cast.
   */
  function ExprTail(toks: seq<Token>, acc: Ast, j: nat): (r: Parsed)
    requires j <= |toks| && IsArithmetic(acc)
    ensures r.Success? ==> IsArithmetic(r.value.tree) && j <= r.value.next <= |toks|
    ensures r.Failure? ==> FailsWithin(r.error, j, |toks|)
    decreases |toks| - j, 0
  {
    var op := Cur(toks, j);
    if !IsExprOperator(op.GetValue()) then Success(Step(acc, j))
    else if !op.BinaryOperatorToken? then Failure(Position(j))
    else
      var t :- Term(toks, Eat(toks, j, BinaryOperatorKind).next);
      ExprTail(toks, BinaryOperationNode(acc, op.text, t.tree), t.next)
  }

  /** term: factor (('*'|'/') factor)*, folded to the left. */
  function Term(toks: seq<Token>, i: nat): (r: Parsed)
    requires i <= |toks|
    ensures r.Success? ==> IsArithmetic(r.value.tree) && i < r.value.next <= |toks|
    ensures r.Failure? ==> FailsWithin(r.error, i, |toks|)
    decreases |toks| - i, 2
  {
    var f :- Factor(toks, i);
    TermTail(toks, f.tree, f.next)
  }

  function TermTail(toks: seq<Token>, acc: Ast, j: nat): (r: Parsed)
    requires j <= |toks| && IsArithmetic(acc)
    ensures r.Success? ==> IsArithmetic(r.value.tree) && j <= r.value.next <= |toks|
    ensures r.Failure? ==> FailsWithin(r.error, j, |toks|)
    decreases |toks| - j, 0
  {
    var op := Cur(toks, j);
    if !IsTermOperator(op.GetValue()) then Success(Step(acc, j))
    else if !op.BinaryOperatorToken? then Failure(Position(j))
    else
      var f :- Factor(toks, Eat(toks, j, BinaryOperatorKind).next);
      TermTail(toks, BinaryOperationNode(acc, op.text, f.tree), f.next)
  }

  /**
   * factor: an integer, read with Integer.parseInt after it has been eaten, or
   * '(' expr ')'. Anything else, a leading '-' included, fails where it stands.
   */
  function Factor(toks: seq<Token>, i: nat): (r: Parsed)
    requires i <= |toks|
    ensures r.Success? ==> IsArithmetic(r.value.tree) && i < r.value.next <= |toks|
    ensures r.Failure? ==> FailsWithin(r.error, i, |toks|)
    decreases |toks| - i, 1
  {
    var temp := Cur(toks, i);
    var integer := Eat(toks, i, IntegerKind);
    if integer.matched then
      match ParseInt(temp.text)
      case None => Failure(Position(integer.next))
      case Some(n) => Success(Step(IntegerLeaf(n), integer.next))
    else
      var open := Eat(toks, i, RoundOpeningBracketKind);
      if open.matched then
        var inner :- Expr(toks, open.next);
        var close := Eat(toks, inner.next, RoundClosingBracketKind);
        if !close.matched then Failure(Position(close.next))
        else Success(Step(inner.tree, close.next))
      else
        Failure(Position(i))
  }
}
