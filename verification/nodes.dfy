/** The syntax tree: four node kinds, each spanning its tokens. */
module Nodes {
  import opened Positions
  import opened Tokens

  datatype Node =
    | NumberNode(tok: Token)
    | IngredientAccessNode(nameTok: Token)
    | IngredientAssignNode(nameTok: Token, value: Node)
    | BinOpNode(left: Node, opTok: Token, right: Node)

  /** Where a node starts: its token, its name token, or its left operand. */
  function Start(n: Node): Position
  {
    match n
    case NumberNode(t) => t.start
    case IngredientAccessNode(t) => t.start
    case IngredientAssignNode(t, _) => t.start
    case BinOpNode(l, _, _) => Start(l)
  }

  /** Where a node ends: its token, or its value or right operand. */
  function End(n: Node): Position
  {
    match n
    case NumberNode(t) => t.end
    case IngredientAccessNode(t) => t.end
    case IngredientAssignNode(_, v) => End(v)
    case BinOpNode(_, _, r) => End(r)
  }

  predicate IsAtomKind(k: TokenKind)
  {
    k.INT? || k.FLOAT? || k.INGREDIENT?
  }

  predicate IsSumOp(k: TokenKind)
  {
    k == PLUS || k == MINUS
  }

  predicate IsProductOp(k: TokenKind)
  {
    k == MUL || k == DIV
  }

  predicate IsOperator(k: TokenKind)
  {
    IsSumOp(k) || IsProductOp(k)
  }

  /** The tokens stored in a node have the kinds its constructor expects;
      this is what the evaluator relies on. */
  predicate WellFormed(n: Node)
  {
    match n
    case NumberNode(t) => t.kind.INT? || t.kind.FLOAT?
    case IngredientAccessNode(t) => t.kind.INGREDIENT?
    case IngredientAssignNode(t, v) => t.kind.INGREDIENT? && WellFormed(v)
    case BinOpNode(l, op, r) => IsOperator(op.kind) && WellFormed(l) && WellFormed(r)
  }
}
