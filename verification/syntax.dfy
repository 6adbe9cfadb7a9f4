/** The abstract syntax tree the statement parser builds (package de.werkelmann.interpreter.ast). */
module Syntax {
  import opened JavaText

  datatype Ast =
    | IntegerLeaf(value: int)
    | VarLeaf(name: string)
    | UnaryOperationNode(op: string, operand: Ast)
    | BinaryOperationNode(left: Ast, op: string, right: Ast)
    | AssignNode(left: Ast, right: Ast)
    | CompoundNode(children: seq<Ast>)
    | NoOp

  predicate IsBinaryOperator(op: string) {
    op == "+" || op == "-" || op == "*" || op == "/"
  }

  /**
   * Names statement reads as an assignment target: not "END" (compared exactly)
   * and not BEGIN (compared ignoring case).
   */
  predicate IsAssignable(name: string) {
    name != "END" && ToLower(name) != ToLower("BEGIN")
  }

  /** Trees that expr, term and factor can build; literals are Java `int` values. */
  predicate IsExpression(a: Ast) {
    match a
    case IntegerLeaf(n) => IsInt(n)
    case VarLeaf(_) => true
    case UnaryOperationNode(_, operand) => IsExpression(operand)
    case BinaryOperationNode(left, op, right) => IsBinaryOperator(op) && IsExpression(left) && IsExpression(right)
    case _ => false
  }

  /** Trees that statement can build: an empty statement, an assignment to a variable, or a non-empty block. */
  predicate IsStatement(a: Ast) {
    match a
    case NoOp => true
    case AssignNode(left, right) => left.VarLeaf? && IsAssignable(left.name) && IsExpression(right)
    case CompoundNode(children) => |children| > 0 && AllStatements(children)
    case _ => false
  }

  /** Every tree of the sequence is a statement. */
  predicate AllStatements(cs: seq<Ast>) {
    |cs| == 0 || (IsStatement(cs[0]) && AllStatements(cs[1..]))
  }

  /** Trees that compoundStatement can build. */
  predicate IsBlock(a: Ast) {
    a.CompoundNode? && IsStatement(a)
  }
}
