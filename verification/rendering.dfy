/**
 * Rendering trees back to token sequences, and where the tokens of a rendered
 * tree stand in a longer stream.
 *
 * Render* build the fully parenthesised token sequence of a tree. The Layout
 * predicates say the same thing position by position: the tokens of a tree
 * start at index i of a stream and occupy the next Width* indices. The lemmas
 * at the end prove that a rendering placed anywhere in a stream has its layout
 * there, so that the parser proofs can work with positions only.
 */
module Rendering {
  import opened JavaText
  import opened Tokens
  import opened Syntax
  import opened Parser
  import opened Windows

  const Open: Token := BracketToken("(")
  const Close: Token := BracketToken(")")
  const Semicolon: Token := SignToken(";")
  const Becomes: Token := SignToken(":=")
  const Begin: Token := IdentifierToken("BEGIN")
  const End: Token := IdentifierToken("END")
  const Dot: Token := SignToken(".")

  // ---------------------------------------------------------------- renderers

  /**
   * An expression with a bracket pair around every unary and binary operation.
   * A variable is one identifier token; the as-written factor skips an identifier
   * and reads the variable from the next token, so there it takes two.
   */
  function RenderExpr(e: Ast, v: IdentifierFactor): (w: seq<Token>)
    ensures IsExpression(e) ==> |w| > 0
  {
    match e
    case IntegerLeaf(n) => [IntegerToken(IntToString(n))]
    case VarLeaf(x) => if v == AsWritten then [IdentifierToken(x), IdentifierToken(x)] else [IdentifierToken(x)]
    case UnaryOperationNode(op, a) => [Open, OperatorToken(op)] + RenderExpr(a, v) + [Close]
    case BinaryOperationNode(l, op, r) => [Open] + RenderExpr(l, v) + [OperatorToken(op)] + RenderExpr(r, v) + [Close]
    case _ => []
  }

  /** A statement: nothing for NoOp, `x := e` for an assignment, BEGIN ... END for a block. */
  function RenderStatement(s: Ast, v: IdentifierFactor): seq<Token> {
    match s
    case AssignNode(VarLeaf(x), right) => [IdentifierToken(x), Becomes] + RenderExpr(right, v)
    case CompoundNode(cs) => [Begin] + RenderList(cs, v) + [End]
    case _ => []
  }

  /** Statements separated by semicolons. */
  function RenderList(cs: seq<Ast>, v: IdentifierFactor): seq<Token> {
    if |cs| <= 1 then (if |cs| == 0 then [] else RenderStatement(cs[0], v))
    else RenderStatement(cs[0], v) + [Semicolon] + RenderList(cs[1..], v)
  }

  /** A program: its outermost block followed by the terminator. */
  function RenderProgram(p: Ast, v: IdentifierFactor): seq<Token> {
    RenderStatement(p, v) + [Dot]
  }

  // ---------------------------------------------------------------- layouts

  /** The number of tokens RenderExpr writes. */
  function ExprWidth(e: Ast, v: IdentifierFactor): nat {
    match e
    case IntegerLeaf(_) => 1
    case VarLeaf(_) => if v == AsWritten then 2 else 1
    case UnaryOperationNode(_, a) => ExprWidth(a, v) + 3
    case BinaryOperationNode(l, _, r) => ExprWidth(l, v) + ExprWidth(r, v) + 3
    case _ => 0
  }

  /** The number of tokens RenderStatement writes. */
  function StatementWidth(s: Ast, v: IdentifierFactor): nat {
    match s
    case AssignNode(VarLeaf(_), right) => ExprWidth(right, v) + 2
    case CompoundNode(cs) => ListWidth(cs, v) + 2
    case _ => 0
  }

  /** The number of tokens RenderList writes. */
  function ListWidth(cs: seq<Ast>, v: IdentifierFactor): nat {
    if |cs| <= 1 then (if |cs| == 0 then 0 else StatementWidth(cs[0], v))
    else StatementWidth(cs[0], v) + 1 + ListWidth(cs[1..], v)
  }

  /** The tokens of e's rendering stand at index i and after. */
  predicate ExprLayout(toks: seq<Token>, i: nat, e: Ast, v: IdentifierFactor)
    decreases e
  {
    match e
    case IntegerLeaf(n) => Cur(toks, i) == IntegerToken(IntToString(n))
    case VarLeaf(x) => Cur(toks, i) == IdentifierToken(x) && (v == AsWritten ==> Cur(toks, i + 1) == IdentifierToken(x))
    case UnaryOperationNode(op, a) =>
      && Cur(toks, i) == Open && Cur(toks, i + 1) == OperatorToken(op)
      && ExprLayout(toks, i + 2, a, v) && Cur(toks, i + 2 + ExprWidth(a, v)) == Close
    case BinaryOperationNode(l, op, r) =>
      && Cur(toks, i) == Open && ExprLayout(toks, i + 1, l, v)
      && Cur(toks, i + 1 + ExprWidth(l, v)) == OperatorToken(op)
      && ExprLayout(toks, i + 2 + ExprWidth(l, v), r, v)
      && Cur(toks, i + 2 + ExprWidth(l, v) + ExprWidth(r, v)) == Close
    case _ => true
  }

  /** The tokens of s's rendering stand at index i and after. */
  predicate StatementLayout(toks: seq<Token>, i: nat, s: Ast, v: IdentifierFactor)
    decreases s, 1
  {
    match s
    case AssignNode(VarLeaf(x), right) =>
      Cur(toks, i) == IdentifierToken(x) && Cur(toks, i + 1) == Becomes && ExprLayout(toks, i + 2, right, v)
    case CompoundNode(cs) =>
      Cur(toks, i) == Begin && ListLayout(toks, i + 1, cs, v) && Cur(toks, i + 1 + ListWidth(cs, v)) == End
    case _ => true
  }

  /** The tokens of the rendering of cs stand at index i and after. */
  predicate ListLayout(toks: seq<Token>, i: nat, cs: seq<Ast>, v: IdentifierFactor)
    decreases cs, 0
  {
    if |cs| <= 1 then |cs| == 0 || StatementLayout(toks, i, cs[0], v)
    else
      && StatementLayout(toks, i, cs[0], v)
      && Cur(toks, i + StatementWidth(cs[0], v)) == Semicolon
      && ListLayout(toks, i + StatementWidth(cs[0], v) + 1, cs[1..], v)
  }

  // ---------------------------------------------------------------- token windows

  /** The k-th token of a window. */
  lemma AtCur(toks: seq<Token>, i: nat, w: seq<Token>, k: nat)
    requires At(toks, i, w) && k < |w|
    ensures Cur(toks, i + k) == w[k]
  {
    AtIndex(toks, i, w, k);
  }

  /** A one-token window is the current token. */
  lemma AtOne(toks: seq<Token>, i: nat, t: Token)
    requires At(toks, i, [t])
    ensures Cur(toks, i) == t
  {
    AtCur(toks, i, [t], 0);
  }

  /** One token, a middle part and one token. */
  lemma Enclosed(toks: seq<Token>, i: nat, a: Token, w: seq<Token>, c: Token)
    requires At(toks, i, [a] + w + [c])
    ensures Cur(toks, i) == a && At(toks, i + 1, w) && Cur(toks, i + 1 + |w|) == c
  {
    AtSplit3(toks, i, [a], w, [c]);
    AtOne(toks, i, a);
    AtOne(toks, i + 1 + |w|, c);
  }

  // ---------------------------------------------------------------- renderings have their layouts

  lemma {:induction false} ExprWidthIsLength(e: Ast, v: IdentifierFactor)
    ensures |RenderExpr(e, v)| == ExprWidth(e, v)
  {
    match e
    case UnaryOperationNode(_, a) =>
      ExprWidthIsLength(a, v);
    case BinaryOperationNode(l, _, r) =>
      ExprWidthIsLength(l, v);
      ExprWidthIsLength(r, v);
    case _ =>
  }

  lemma {:induction false} StatementWidthIsLength(s: Ast, v: IdentifierFactor)
    ensures |RenderStatement(s, v)| == StatementWidth(s, v)
    decreases s, 1
  {
    match s
    case AssignNode(VarLeaf(_), right) =>
      ExprWidthIsLength(right, v);
    case CompoundNode(cs) =>
      ListWidthIsLength(cs, v);
    case _ =>
  }

  lemma {:induction false} ListWidthIsLength(cs: seq<Ast>, v: IdentifierFactor)
    ensures |RenderList(cs, v)| == ListWidth(cs, v)
    decreases cs, 0
  {
    if |cs| == 1 {
      StatementWidthIsLength(cs[0], v);
    } else if |cs| > 1 {
      StatementWidthIsLength(cs[0], v);
      ListWidthIsLength(cs[1..], v);
    }
  }

  /** Wherever the rendering of an expression stands, its layout stands there. */
  lemma {:induction false} ExprLayoutOfRendering(toks: seq<Token>, i: nat, e: Ast, v: IdentifierFactor)
    requires At(toks, i, RenderExpr(e, v))
    ensures ExprLayout(toks, i, e, v)
    decreases e, 1
  {
    match e
    case IntegerLeaf(n) =>
      AtOne(toks, i, IntegerToken(IntToString(n)));
    case VarLeaf(x) =>
      AtCur(toks, i, RenderExpr(e, v), 0);
      if v == AsWritten {
        AtCur(toks, i, RenderExpr(e, v), 1);
      }
    case UnaryOperationNode(op, a) =>
      UnaryLayoutOfRendering(toks, i, op, a, v);
    case BinaryOperationNode(l, op, r) =>
      BinaryLayoutOfRendering(toks, i, l, op, r, v);
    case _ =>
  }

  lemma {:induction false} UnaryLayoutOfRendering(toks: seq<Token>, i: nat, op: string, a: Ast, v: IdentifierFactor)
    requires At(toks, i, RenderExpr(UnaryOperationNode(op, a), v))
    ensures ExprLayout(toks, i, UnaryOperationNode(op, a), v)
    decreases UnaryOperationNode(op, a), 0
  {
    UnaryPieces(toks, i, op, RenderExpr(a, v));
    ExprWidthIsLength(a, v);
    ExprLayoutOfRendering(toks, i + 2, a, v);
  }

  lemma {:induction false} BinaryLayoutOfRendering(toks: seq<Token>, i: nat, l: Ast, op: string, r: Ast, v: IdentifierFactor)
    requires At(toks, i, RenderExpr(BinaryOperationNode(l, op, r), v))
    ensures ExprLayout(toks, i, BinaryOperationNode(l, op, r), v)
    decreases BinaryOperationNode(l, op, r), 0
  {
    BinaryPieces(toks, i, RenderExpr(l, v), op, RenderExpr(r, v));
    ExprWidthIsLength(l, v);
    ExprWidthIsLength(r, v);
    ExprLayoutOfRendering(toks, i + 1, l, v);
    ExprLayoutOfRendering(toks, i + 2 + ExprWidth(l, v), r, v);
  }

  lemma UnaryPieces(toks: seq<Token>, i: nat, op: string, wa: seq<Token>)
    requires At(toks, i, [Open, OperatorToken(op)] + wa + [Close])
    ensures Cur(toks, i) == Open && Cur(toks, i + 1) == OperatorToken(op)
    ensures At(toks, i + 2, wa) && Cur(toks, i + 2 + |wa|) == Close
  {
    AtSplit3(toks, i, [Open, OperatorToken(op)], wa, [Close]);
    AtCur(toks, i, [Open, OperatorToken(op)], 0);
    AtCur(toks, i, [Open, OperatorToken(op)], 1);
    AtOne(toks, i + 2 + |wa|, Close);
  }

  lemma BinaryPieces(toks: seq<Token>, i: nat, wl: seq<Token>, op: string, wr: seq<Token>)
    requires At(toks, i, [Open] + wl + [OperatorToken(op)] + wr + [Close])
    ensures Cur(toks, i) == Open && At(toks, i + 1, wl) && Cur(toks, i + 1 + |wl|) == OperatorToken(op)
    ensures At(toks, i + 2 + |wl|, wr) && Cur(toks, i + 2 + |wl| + |wr|) == Close
  {
    AtSplit(toks, i, [Open] + wl + [OperatorToken(op)] + wr, [Close]);
    AtSplit(toks, i, [Open] + wl + [OperatorToken(op)], wr);
    AtSplit3(toks, i, [Open], wl, [OperatorToken(op)]);
    AtOne(toks, i, Open);
    AtOne(toks, i + 1 + |wl|, OperatorToken(op));
    AtOne(toks, i + 2 + |wl| + |wr|, Close);
  }

  /** Wherever the rendering of a statement stands, its layout stands there. */
  lemma {:induction false} StatementLayoutOfRendering(toks: seq<Token>, i: nat, s: Ast, v: IdentifierFactor)
    requires At(toks, i, RenderStatement(s, v))
    ensures StatementLayout(toks, i, s, v)
    decreases s, 1
  {
    match s
    case AssignNode(VarLeaf(x), right) =>
      var w := RenderStatement(s, v);
      AtSplit(toks, i, [IdentifierToken(x), Becomes], RenderExpr(right, v));
      AtCur(toks, i, [IdentifierToken(x), Becomes], 0);
      AtCur(toks, i, [IdentifierToken(x), Becomes], 1);
      ExprLayoutOfRendering(toks, i + 2, right, v);
    case CompoundNode(cs) =>
      Enclosed(toks, i, Begin, RenderList(cs, v), End);
      ListWidthIsLength(cs, v);
      ListLayoutOfRendering(toks, i + 1, cs, v);
    case _ =>
  }

  lemma {:induction false} ListLayoutOfRendering(toks: seq<Token>, i: nat, cs: seq<Ast>, v: IdentifierFactor)
    requires At(toks, i, RenderList(cs, v))
    ensures ListLayout(toks, i, cs, v)
    decreases cs, 0
  {
    if |cs| == 1 {
      StatementLayoutOfRendering(toks, i, cs[0], v);
    } else if |cs| > 1 {
      var w0 := RenderStatement(cs[0], v);
      AtSplit3(toks, i, w0, [Semicolon], RenderList(cs[1..], v));
      AtOne(toks, i + |w0|, Semicolon);
      StatementWidthIsLength(cs[0], v);
      StatementLayoutOfRendering(toks, i, cs[0], v);
      ListLayoutOfRendering(toks, i + |w0| + 1, cs[1..], v);
    }
  }
}
