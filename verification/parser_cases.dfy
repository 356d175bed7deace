/** Precedence and association as consequences of the round trip, and which
    error message each kind of malformed input reports. */
module ParserCases {
  import opened Wrappers
  import opened Tokens
  import opened Nodes
  import opened Parser
  import opened ParserProperties

  /** The tree `atom` builds for a number or name token. */
  function Leaf(t: Token): Node
  {
    if t.kind.INGREDIENT? then IngredientAccessNode(t) else NumberNode(t)
  }

  lemma LeafShape(t: Token)
    requires IsAtomKind(t.kind)
    ensures AtomShape(Leaf(t)) && Flatten(Leaf(t)) == [t]
  {
  }

  // ---- precedence and association ------------------------------------------------

  /** A lone number or name is an expression by itself. */
  lemma SingleAtom(a: Token, eof: Token)
    requires IsAtomKind(a.kind) && eof.kind == EOF
    ensures Parse([a, eof]) == ParseResult(Some(Leaf(a)), None, 1)
  {
    LeafShape(a);
    assert LevelShape(Product, Leaf(a)) && LevelShape(Sum, Leaf(a));
    ParseFlatten(Leaf(a), eof);
    assert Flatten(Leaf(a)) + [eof] == [a, eof];
  }

  /** One operator between two operands, of either level. */
  lemma SingleOperation(a: Token, op: Token, b: Token, eof: Token)
    requires IsAtomKind(a.kind) && IsOperator(op.kind) && IsAtomKind(b.kind) && eof.kind == EOF
    ensures Parse([a, op, b, eof]) == ParseResult(Some(BinOpNode(Leaf(a), op, Leaf(b))), None, 3)
  {
    var n := BinOpNode(Leaf(a), op, Leaf(b));
    LeafShape(a); LeafShape(b);
    assert LevelShape(Product, Leaf(a)) && LevelShape(Product, Leaf(b)) && LevelShape(Sum, Leaf(a));
    if IsProductOp(op.kind) {
      assert LevelShape(Product, n);
    }
    assert ExprShape(n);
    assert Flatten(n) == [a, op, b];
    ParseFlatten(n, eof);
    assert Flatten(n) + [eof] == [a, op, b, eof];
  }

  /** `a + b * c` parses as `a + (b * c)`: `* /` bind tighter than `+ -`. */
  lemma ProductBindsTighter(a: Token, op1: Token, b: Token, op2: Token, c: Token, eof: Token)
    requires IsAtomKind(a.kind) && IsAtomKind(b.kind) && IsAtomKind(c.kind)
    requires IsSumOp(op1.kind) && IsProductOp(op2.kind) && eof.kind == EOF
    ensures Parse([a, op1, b, op2, c, eof])
         == ParseResult(Some(BinOpNode(Leaf(a), op1, BinOpNode(Leaf(b), op2, Leaf(c)))), None, 5)
  {
    var n := BinOpNode(Leaf(a), op1, BinOpNode(Leaf(b), op2, Leaf(c)));
    LeafShape(a); LeafShape(b); LeafShape(c);
    assert Flatten(n) == [a, op1, b, op2, c];
    ParseFlatten(n, eof);
    assert Flatten(n) + [eof] == [a, op1, b, op2, c, eof];
  }

  /** `a * b + c` parses as `(a * b) + c`. */
  lemma ProductBeforeSum(a: Token, op1: Token, b: Token, op2: Token, c: Token, eof: Token)
    requires IsAtomKind(a.kind) && IsAtomKind(b.kind) && IsAtomKind(c.kind)
    requires IsProductOp(op1.kind) && IsSumOp(op2.kind) && eof.kind == EOF
    ensures Parse([a, op1, b, op2, c, eof])
         == ParseResult(Some(BinOpNode(BinOpNode(Leaf(a), op1, Leaf(b)), op2, Leaf(c))), None, 5)
  {
    var n := BinOpNode(BinOpNode(Leaf(a), op1, Leaf(b)), op2, Leaf(c));
    LeafShape(a); LeafShape(b); LeafShape(c);
    assert LevelShape(Product, Leaf(a)) && LevelShape(Product, Leaf(c));
    assert LevelShape(Product, n.left);
    assert LevelShape(Sum, n.left);
    assert ExprShape(n);
    assert Flatten(n) == [a, op1, b, op2, c];
    ParseFlatten(n, eof);
    assert Flatten(n) + [eof] == [a, op1, b, op2, c, eof];
  }

  /** Two operators of one level fold to the left: `a - b - c` is `(a - b) - c`. */
  lemma SameLevelFoldsLeft(a: Token, op1: Token, b: Token, op2: Token, c: Token, eof: Token)
    requires IsAtomKind(a.kind) && IsAtomKind(b.kind) && IsAtomKind(c.kind)
    requires (IsSumOp(op1.kind) && IsSumOp(op2.kind)) || (IsProductOp(op1.kind) && IsProductOp(op2.kind))
    requires eof.kind == EOF
    ensures Parse([a, op1, b, op2, c, eof])
         == ParseResult(Some(BinOpNode(BinOpNode(Leaf(a), op1, Leaf(b)), op2, Leaf(c))), None, 5)
  {
    var n := BinOpNode(BinOpNode(Leaf(a), op1, Leaf(b)), op2, Leaf(c));
    LeafShape(a); LeafShape(b); LeafShape(c);
    assert LevelShape(Product, Leaf(a)) && LevelShape(Product, Leaf(b)) && LevelShape(Product, Leaf(c));
    if IsSumOp(op1.kind) {
      assert LevelShape(Sum, Leaf(a));
      assert LevelShape(Sum, n.left);
    } else {
      assert LevelShape(Product, n.left);
      assert LevelShape(Product, n);
    }
    assert ExprShape(n);
    assert Flatten(n) == [a, op1, b, op2, c];
    ParseFlatten(n, eof);
    assert Flatten(n) + [eof] == [a, op1, b, op2, c, eof];
  }

  /** An assignment's value is a whole expression, so assignments nest to the right:
      `ingredient x = ingredient y = v`. */
  lemma AssignmentNests(kw1: Token, x: Token, eq1: Token, kw2: Token, y: Token, eq2: Token, v: Token, eof: Token)
    requires kw1.kind == KEYWORD(IngredientKeyword) && kw2.kind == KEYWORD(IngredientKeyword)
    requires x.kind.INGREDIENT? && y.kind.INGREDIENT? && eq1.kind == EQ && eq2.kind == EQ
    requires IsAtomKind(v.kind) && eof.kind == EOF
    ensures Parse([kw1, x, eq1, kw2, y, eq2, v, eof])
         == ParseResult(Some(IngredientAssignNode(x, IngredientAssignNode(y, Leaf(v)))), None, 7)
  {
    var n := IngredientAssignNode(x, IngredientAssignNode(y, Leaf(v)));
    var ts := [kw1, x, eq1, kw2, y, eq2, v, eof];
    LeafShape(v);
    assert LevelShape(Product, Leaf(v));
    assert LevelShape(Sum, Leaf(v));
    assert ExprShape(n.value);
    assert ExprShape(n);
    assert Flatten(n) == [KeywordToken(x), x, EqToken(x), KeywordToken(y), y, EqToken(y), v];
    assert Matches(ts, 0, Flatten(n)) by {
      forall k | 0 <= k < 7 ensures SameToken(ts[0 + k], Flatten(n)[k]) {
      }
    }
    ParseIffFlatten(ts, n);
  }

  /** `ingredient NAME = v` with a single operand as its value. */
  lemma SimpleAssignment(kw: Token, x: Token, eq: Token, v: Token, eof: Token)
    requires kw.kind == KEYWORD(IngredientKeyword) && x.kind.INGREDIENT? && eq.kind == EQ
    requires IsAtomKind(v.kind) && eof.kind == EOF
    ensures Parse([kw, x, eq, v, eof]) == ParseResult(Some(IngredientAssignNode(x, Leaf(v))), None, 4)
  {
    var n := IngredientAssignNode(x, Leaf(v));
    var ts := [kw, x, eq, v, eof];
    LeafShape(v);
    assert LevelShape(Product, Leaf(v));
    assert LevelShape(Sum, Leaf(v));
    assert ExprShape(n);
    assert Flatten(n) == [KeywordToken(x), x, EqToken(x), v];
    assert Matches(ts, 0, Flatten(n)) by {
      forall k | 0 <= k < 4 ensures SameToken(ts[0 + k], Flatten(n)[k]) {
      }
    }
    ParseIffFlatten(ts, n);
  }

  // ---- which error is reported --------------------------------------------------------

  /** Input that cannot start an expression (a sign, `=`, `*`, `/`, EOF, or a
      keyword other than `ingredient`) reports the generic message at the first
      token: nothing was consumed, so the message of `expr` replaces the inner one. */
  lemma NoExpressionStart(ts: seq<Token>)
    requires |ts| > 0
    requires !IsAtomKind(ts[0].kind) && ts[0].kind != KEYWORD(IngredientKeyword)
    ensures Parse(ts) == ParseResult(None, Some(SyntaxError(ts[0], ExpectedExpr)), 0)
  {
    var inner := if IsSumOp(ts[0].kind) then ExpectedFactor else ExpectedAtom;
    assert Factor(ts, 0) == Parsed(ParseResult(None, Some(SyntaxError(ts[0], inner)), 0), 0);
    assert BinOp(Product, ts, 0) == Parsed(ParseResult(None, Some(SyntaxError(ts[0], inner)), 0), 0);
    assert BinOp(Sum, ts, 0) == Parsed(ParseResult(None, Some(SyntaxError(ts[0], inner)), 0), 0);
    assert Expr(ts, 0) == Parsed(ParseResult(None, Some(SyntaxError(ts[0], ExpectedExpr)), 0), 0);
  }

  /** An operator followed by something that is not an operand keeps the
      operand's own message at that token: a token was consumed, so the message
      of `expr` does not replace it. A sign there is rejected by `factor`. */
  lemma DanglingOperator(ts: seq<Token>)
    requires |ts| >= 3
    requires IsAtomKind(ts[0].kind) && IsOperator(ts[1].kind) && !IsAtomKind(ts[2].kind)
    ensures Parse(ts)
         == ParseResult(None, Some(SyntaxError(ts[2], if IsSumOp(ts[2].kind) then ExpectedFactor else ExpectedAtom)), 2)
  {
    var err := SyntaxError(ts[2], if IsSumOp(ts[2].kind) then ExpectedFactor else ExpectedAtom);
    assert Next(ts, 0) == 1 && Next(ts, 1) == 2;
    assert Factor(ts, 0) == Parsed(ParseResult(Some(Leaf(ts[0])), None, 1), 1);
    assert Factor(ts, 2) == Parsed(ParseResult(None, Some(err), 0), 2);
    if IsSumOp(ts[1].kind) {
      assert BinOp(Product, ts, 0) == Parsed(ParseResult(Some(Leaf(ts[0])), None, 1), 1);
      assert BinOp(Product, ts, 2) == Parsed(ParseResult(None, Some(err), 0), 2);
      assert BinOp(Sum, ts, 0) == Parsed(ParseResult(None, Some(err), 2), 2);
    } else {
      assert BinOp(Product, ts, 0) == Parsed(ParseResult(None, Some(err), 2), 2);
      assert BinOp(Sum, ts, 0) == Parsed(ParseResult(None, Some(err), 2), 2);
    }
    assert Expr(ts, 0) == Parsed(ParseResult(None, Some(err), 2), 2);
  }

  /** `ingredient` must be followed by a name. */
  lemma MissingName(ts: seq<Token>)
    requires |ts| >= 2
    requires ts[0].kind == KEYWORD(IngredientKeyword) && !ts[1].kind.INGREDIENT?
    ensures Parse(ts) == ParseResult(None, Some(SyntaxError(ts[1], ExpectedName)), 1)
  {
    assert Next(ts, 0) == 1;
  }

  /** The name must be followed by `=`. */
  lemma MissingEquals(ts: seq<Token>)
    requires |ts| >= 3
    requires ts[0].kind == KEYWORD(IngredientKeyword) && ts[1].kind.INGREDIENT? && ts[2].kind != EQ
    ensures Parse(ts) == ParseResult(None, Some(SyntaxError(ts[2], ExpectedEq)), 2)
  {
    assert Next(ts, 0) == 1 && Next(ts, 1) == 2;
  }

  /** An error in an assignment's value is reported unchanged by the assignment. */
  lemma AssignmentValueError(ts: seq<Token>)
    requires |ts| >= 4
    requires ts[0].kind == KEYWORD(IngredientKeyword) && ts[1].kind.INGREDIENT? && ts[2].kind == EQ
    requires Expr(ts, 3).res.error.Some?
    ensures Parse(ts).error == Expr(ts, 3).res.error
    ensures Parse(ts).advanceCount == 3 + Expr(ts, 3).res.advanceCount
  {
    assert Next(ts, 0) == 1 && Next(ts, 1) == 2 && Next(ts, 2) == 3;
  }

  /** A complete expression followed by a token that is neither an operator nor
      EOF is rejected at that token; the tree is kept beside the error. */
  lemma TrailingToken(ts: seq<Token>, n: Node)
    requires ExprShape(n) && Matches(ts, 0, Flatten(n)) && |Flatten(n)| < |ts|
    requires !IsOperator(ts[|Flatten(n)|].kind) && ts[|Flatten(n)|].kind != EOF
    ensures Parse(ts) == ParseResult(Some(n), Some(SyntaxError(ts[|Flatten(n)|], ExpectedOperator)), |Flatten(n)|)
  {
    ExprRoundTrip(n, ts, 0);
  }
}
