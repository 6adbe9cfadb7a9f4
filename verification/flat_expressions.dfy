/**
 * Flat expressions `n0 op1 n1 op2 n2 ...` of integers and binary operators, and
 * their conventional reading, which both parsers are measured against.
 */
module FlatExpressions {
  import opened JavaText
  import opened Syntax

  /** An operator and the integer after it, in a flat expression `n0 op1 n1 op2 n2 ...`. */
  datatype Link = Link(op: string, operand: int)

  predicate IsLinks(links: seq<Link>)
    decreases |links|
  {
    |links| == 0 || (IsBinaryOperator(links[0].op) && IsInt(links[0].operand) && IsLinks(links[1..]))
  }

  /** An additive operator still waiting for its right operand, with the tree on its left. */
  datatype Pending = NoSum | Sum(left: Ast, op: string)

  function Complete(sum: Pending, product: Ast): Ast {
    match sum
    case NoSum => product
    case Sum(left, op) => BinaryOperationNode(left, op, product)
  }

  /**
   * The conventional reading of a flat expression, left to right with one pending
   * sum and one running product: `*` and `/` extend the product, `+` and `-` close
   * it into the sum and start a new one. So products bind tighter than sums and
   * both group to the left. It does not follow the parser's recursion.
   */
  function Reading(sum: Pending, product: Ast, links: seq<Link>): Ast
    decreases |links|
  {
    if |links| == 0 then Complete(sum, product)
    else if links[0].op == "*" || links[0].op == "/" then
      Reading(sum, BinaryOperationNode(product, links[0].op, IntegerLeaf(links[0].operand)), links[1..])
    else
      Reading(Sum(Complete(sum, product), links[0].op), IntegerLeaf(links[0].operand), links[1..])
  }

  function SumOfProducts(first: int, links: seq<Link>): Ast {
    Reading(NoSum, IntegerLeaf(first), links)
  }

  predicate PendingOk(sum: Pending) {
    sum.Sum? ==> IsExpression(sum.left) && (sum.op == "+" || sum.op == "-")
  }
}
