/** The parser (`ChefParser`, `ParseResult`): recursive descent with one token of lookahead. */
module Parser {
  import opened Wrappers
  import opened Errors
  import opened Tokens
  import opened Nodes

  // ---- ParseResult -----------------------------------------------------------

  /** A node or an error, and how many tokens were consumed on the way. */
  datatype ParseResult = ParseResult(node: Option<Node>, error: Option<Error>, advanceCount: nat)

  /** A fresh `ParseResult()`: no node, no error, nothing consumed. */
  const NoResult: ParseResult := ParseResult(None, None, 0)

  function RegisterAdvancement(r: ParseResult): ParseResult
  {
    r.(advanceCount := r.advanceCount + 1)
  }

  /** `register`: absorbs a sub-result's count and error (the caller reads its node). */
  function Register(r: ParseResult, sub: ParseResult): (q: ParseResult)
    ensures q.node == r.node
    ensures q.advanceCount == r.advanceCount + sub.advanceCount
    ensures sub.error.Some? ==> q.error == sub.error
    ensures sub.error.None? ==> q.error == r.error
  {
    ParseResult(r.node, if sub.error.Some? then sub.error else r.error, r.advanceCount + sub.advanceCount)
  }

  function Succeed(r: ParseResult, n: Node): ParseResult
  {
    r.(node := Some(n))
  }

  /** `failure`: an existing error is replaced only when nothing was consumed. */
  function Fail(r: ParseResult, e: Error): (q: ParseResult)
    ensures q.node == r.node && q.advanceCount == r.advanceCount
    ensures q.error.Some?
    ensures r.advanceCount == 0 || r.error.None? ==> q.error == Some(e)
    ensures r.advanceCount > 0 && r.error.Some? ==> q == r
  {
    if r.error.None? || r.advanceCount == 0 then r.(error := Some(e)) else r
  }

  // ---- the parser ------------------------------------------------------------

  /** A parse result and the cursor it leaves (the index of the current token). */
  datatype Parsed = Parsed(res: ParseResult, cursor: nat)

  /** `advance`: the current token stays on the last token once past the end. */
  function Next(ts: seq<Token>, c: nat): (n: nat)
    requires c < |ts|
    ensures c <= n < |ts|
    ensures n == c <==> c == |ts| - 1
    ensures n != c ==> n == c + 1
  {
    if c + 1 < |ts| then c + 1 else c
  }

  function SyntaxError(t: Token, details: string): Error
  {
    Error(InvalidSyntax, Some(t.start), Some(t.end), details)
  }

  const ExpectedAtom: string := "Expected int, float, identifier, '+', or '-'"
  const ExpectedFactor: string := "Expected ingredient, number, '+', '-' or '*'"
  const ExpectedExpr: string := "Expected 'ingredient', number, '+', '-' or '*'"
  const ExpectedName: string := "Expected ingredient name"
  const ExpectedEq: string := "Expected '='"
  const ExpectedOperator: string := "Expected '+', '-', '*' or '/'"

  /** The two levels of `bin_op`: `+ -` over terms, `* /` over factors. */
  datatype Level = Sum | Product

  predicate IsLevelOp(level: Level, k: TokenKind)
  {
    if level == Sum then IsSumOp(k) else IsProductOp(k)
  }

  /** `atom`: a number or a name. */
  function Atom(ts: seq<Token>, c: nat): (p: Parsed)
    requires c < |ts|
    ensures c <= p.cursor < |ts|
    ensures p.res.error.None? ==> p.res.node.Some? && IsAtomKind(ts[c].kind)
    decreases |ts| - c, 1
  {
    var tok := ts[c];
    if tok.kind.INT? || tok.kind.FLOAT? then
      Parsed(Succeed(RegisterAdvancement(NoResult), NumberNode(tok)), Next(ts, c))
    else if tok.kind.INGREDIENT? then
      Parsed(Succeed(RegisterAdvancement(NoResult), IngredientAccessNode(tok)), Next(ts, c))
    else
      Parsed(Fail(NoResult, SyntaxError(tok, ExpectedAtom)), c)
  }

  /** `factor`: an atom; a leading sign is rejected rather than read as unary. */
  function Factor(ts: seq<Token>, c: nat): (p: Parsed)
    requires c < |ts|
    ensures c <= p.cursor < |ts|
    ensures p.res.error.None? ==> p.res.node.Some? && IsAtomKind(ts[c].kind)
    decreases |ts| - c, 2
  {
    var tok := ts[c];
    if tok.kind == PLUS || tok.kind == MINUS then
      Parsed(Fail(NoResult, SyntaxError(tok, ExpectedFactor)), c)
    else
      Atom(ts, c)
  }

  /** `bin_op`: one operand of the level below, then a left fold over this level's operators.
      `term` is `BinOp(Product, ..)`, the additive part of `expr` is `BinOp(Sum, ..)`. */
  function BinOp(level: Level, ts: seq<Token>, c: nat): (p: Parsed)
    requires c < |ts|
    ensures c <= p.cursor < |ts|
    ensures p.res.error.None? ==> p.res.node.Some? && IsAtomKind(ts[c].kind)
    decreases |ts| - c, if level == Sum then 6 else 4
  {
    var first := if level == Sum then BinOp(Product, ts, c) else Factor(ts, c);
    var res := Register(NoResult, first.res);
    if res.error.Some? then Parsed(res, first.cursor)
    else BinOpLoop(level, ts, first.cursor, res, first.res.node.value)
  }

  /** The `while` loop of `bin_op`, from cursor `c` with the tree folded so far. */
  function BinOpLoop(level: Level, ts: seq<Token>, c: nat, res: ParseResult, left: Node): (p: Parsed)
    requires c < |ts|
    requires res.error.None?
    ensures c <= p.cursor < |ts|
    ensures p.res.error.None? ==> p.res.node.Some?
    decreases |ts| - c, if level == Sum then 5 else 3
  {
    if IsLevelOp(level, ts[c].kind) then
      var op := ts[c];
      var c1 := Next(ts, c);
      var right := if level == Sum then BinOp(Product, ts, c1) else Factor(ts, c1);
      var res1 := Register(RegisterAdvancement(res), right.res);
      if res1.error.Some? then Parsed(res1, right.cursor)
      else BinOpLoop(level, ts, right.cursor, res1, BinOpNode(left, op, right.res.node.value))
    else
      Parsed(Succeed(res, left), c)
  }

  /** `expr`: `ingredient NAME = expr`, or the additive level. */
  function Expr(ts: seq<Token>, c: nat): (p: Parsed)
    requires c < |ts|
    ensures c <= p.cursor < |ts|
    ensures p.res.error.None? ==> p.res.node.Some?
    decreases |ts| - c, 7
  {
    if ts[c].kind == KEYWORD(IngredientKeyword) then
      var res1 := RegisterAdvancement(NoResult);
      var c1 := Next(ts, c);
      if !ts[c1].kind.INGREDIENT? then
        Parsed(Fail(res1, SyntaxError(ts[c1], ExpectedName)), c1)
      else
        var name := ts[c1];
        var res2 := RegisterAdvancement(res1);
        var c2 := Next(ts, c1);
        if ts[c2].kind != EQ then
          Parsed(Fail(res2, SyntaxError(ts[c2], ExpectedEq)), c2)
        else
          var value := Expr(ts, Next(ts, c2));
          var res3 := Register(RegisterAdvancement(res2), value.res);
          if res3.error.Some? then Parsed(res3, value.cursor)
          else Parsed(Succeed(res3, IngredientAssignNode(name, value.res.node.value)), value.cursor)
    else
      var sum := BinOp(Sum, ts, c);
      var res1 := Register(NoResult, sum.res);
      if res1.error.Some? then
        Parsed(Fail(res1, SyntaxError(ts[sum.cursor], ExpectedExpr)), sum.cursor)
      else
        Parsed(Succeed(res1, sum.res.node.value), sum.cursor)
  }

  /** `parse`: one expression, then the EOF token. */
  function Parse(ts: seq<Token>): (r: ParseResult)
    requires |ts| > 0
    ensures r.error.Some? || r.node.Some?
  {
    var p := Expr(ts, 0);
    if p.res.error.None? && ts[p.cursor].kind != EOF then
      Fail(p.res, SyntaxError(ts[p.cursor], ExpectedOperator))
    else
      p.res
  }
}
