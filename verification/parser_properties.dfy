/** What the parser promises. Trees in the grammar's shape flatten back to the
    tokens they came from, and parsing is exactly the inverse of flattening:
    precedence, left association and right-nested assignment all follow.
    Separate lemmas fix which error message is reported. */
module ParserProperties {
  import opened Wrappers
  import opened Errors
  import opened Tokens
  import opened Nodes
  import opened Parser

  // ---- the grammar's trees and their tokens ------------------------------------

  predicate AtomShape(n: Node)
  {
    || (n.NumberNode? && (n.tok.kind.INT? || n.tok.kind.FLOAT?))
    || (n.IngredientAccessNode? && n.nameTok.kind.INGREDIENT?)
  }

  /** A left-leaning chain of this level's operators over operands of the level below. */
  predicate LevelShape(level: Level, n: Node)
    decreases n, if level == Sum then 1 else 0
  {
    if n.BinOpNode? && IsLevelOp(level, n.opTok.kind) then
      LevelShape(level, n.left) && (if level == Sum then LevelShape(Product, n.right) else AtomShape(n.right))
    else
      if level == Sum then LevelShape(Product, n) else AtomShape(n)
  }

  /** An assignment whose value is again an expression, or an additive chain. */
  predicate ExprShape(n: Node)
  {
    if n.IngredientAssignNode? then n.nameTok.kind.INGREDIENT? && ExprShape(n.value)
    else LevelShape(Sum, n)
  }

  /** The keyword and `=` tokens of an assignment are not kept in the tree;
      flattening puts them back at the name's position. */
  function KeywordToken(name: Token): Token
  {
    Token(KEYWORD(IngredientKeyword), name.start, name.start)
  }

  function EqToken(name: Token): Token
  {
    Token(EQ, name.end, name.end)
  }

  /** The tokens a tree was parsed from, in order. */
  function Flatten(n: Node): (s: seq<Token>)
    ensures |s| >= 1
  {
    match n
    case NumberNode(t) => [t]
    case IngredientAccessNode(t) => [t]
    case IngredientAssignNode(t, v) => [KeywordToken(t), t, EqToken(t)] + Flatten(v)
    case BinOpNode(l, op, r) => Flatten(l) + [op] + Flatten(r)
  }

  /** Equal tokens, except that the position of a keyword or `=` token does not matter. */
  predicate SameToken(a: Token, b: Token)
  {
    a == b || (a.kind == b.kind && (a.kind == EQ || a.kind == KEYWORD(IngredientKeyword)))
  }

  /** `s` appears in `ts` from index `c`, up to `SameToken`. */
  predicate Matches(ts: seq<Token>, c: nat, s: seq<Token>)
  {
    c + |s| <= |ts| && forall k :: 0 <= k < |s| ==> SameToken(ts[c + k], s[k])
  }

  lemma MatchesConcat(ts: seq<Token>, c: nat, a: seq<Token>, b: seq<Token>)
    ensures Matches(ts, c, a + b) <==> Matches(ts, c, a) && Matches(ts, c + |a|, b)
  {
    if Matches(ts, c, a) && Matches(ts, c + |a|, b) {
      forall k | 0 <= k < |a + b| ensures SameToken(ts[c + k], (a + b)[k]) {
        if k >= |a| {
          assert ts[c + k] == ts[(c + |a|) + (k - |a|)];
        }
      }
    }
    if Matches(ts, c, a + b) {
      forall k | 0 <= k < |a| ensures SameToken(ts[c + k], a[k]) {
        assert (a + b)[k] == a[k];
      }
      forall k | 0 <= k < |b| ensures SameToken(ts[c + |a| + k], b[k]) {
        assert (a + b)[|a| + k] == b[k];
      }
    }
  }

  /** Splits a match of a binary node's tokens into its three parts. */
  lemma MatchesBinOp(ts: seq<Token>, c: nat, n: Node)
    requires n.BinOpNode?
    ensures Matches(ts, c, Flatten(n)) <==>
      && Matches(ts, c, Flatten(n.left))
      && Matches(ts, c + |Flatten(n.left)|, [n.opTok])
      && Matches(ts, c + |Flatten(n.left)| + 1, Flatten(n.right))
  {
    MatchesConcat(ts, c, Flatten(n.left) + [n.opTok], Flatten(n.right));
    MatchesConcat(ts, c, Flatten(n.left), [n.opTok]);
  }

  /** Splits a match of an assignment's tokens into keyword, name, `=` and value. */
  lemma MatchesAssign(ts: seq<Token>, c: nat, n: Node)
    requires n.IngredientAssignNode? && n.nameTok.kind.INGREDIENT?
    ensures Matches(ts, c, Flatten(n)) <==>
      && c + 3 <= |ts|
      && SameToken(ts[c], KeywordToken(n.nameTok))
      && ts[c + 1] == n.nameTok
      && SameToken(ts[c + 2], EqToken(n.nameTok))
      && Matches(ts, c + 3, Flatten(n.value))
  {
    var head := [KeywordToken(n.nameTok), n.nameTok, EqToken(n.nameTok)];
    MatchesConcat(ts, c, head, Flatten(n.value));
    if Matches(ts, c, head) {
      assert SameToken(ts[c + 0], head[0]);
      assert SameToken(ts[c + 1], head[1]);
      assert SameToken(ts[c + 2], head[2]);
    }
    if c + 3 <= |ts| && SameToken(ts[c], head[0]) && ts[c + 1] == n.nameTok && SameToken(ts[c + 2], head[2]) {
      forall k | 0 <= k < 3 ensures SameToken(ts[c + k], head[k]) {
      }
    }
  }

  /** A chain starts with an atom's token. */
  lemma {:induction false} LevelStartsWithAtom(level: Level, n: Node)
    requires LevelShape(level, n)
    ensures IsAtomKind(Flatten(n)[0].kind)
    decreases n, if level == Sum then 1 else 0
  {
    if n.BinOpNode? && IsLevelOp(level, n.opTok.kind) {
      LevelStartsWithAtom(level, n.left);
      assert Flatten(n)[0] == Flatten(n.left)[0];
    } else if level == Sum {
      LevelStartsWithAtom(Product, n);
    }
  }

  /** Every tree in the grammar's shape ends with an atom's token. */
  lemma {:induction false} EndsWithAtom(level: Level, n: Node)
    requires LevelShape(level, n)
    ensures IsAtomKind(Flatten(n)[|Flatten(n)| - 1].kind)
    decreases n, if level == Sum then 1 else 0
  {
    if n.BinOpNode? && IsLevelOp(level, n.opTok.kind) {
      if level == Sum {
        EndsWithAtom(Product, n.right);
      }
    } else if level == Sum {
      EndsWithAtom(Product, n);
    }
  }

  // ---- flattening, then parsing, gives the tree back -------------------------------

  /** The token after a chain ends it: nothing there continues this level or the one below. */
  predicate Stops(level: Level, k: TokenKind)
  {
    if level == Sum then !IsOperator(k) else !IsProductOp(k)
  }

  lemma AtomRoundTrip(n: Node, ts: seq<Token>, c: nat)
    requires AtomShape(n) && Matches(ts, c, Flatten(n)) && c + 1 < |ts|
    ensures Factor(ts, c) == Parsed(ParseResult(Some(n), None, 1), c + 1)
  {
    assert SameToken(ts[c + 0], Flatten(n)[0]);
  }

  /** The operand parser of a level: `term` below `+ -`, `factor` below `* /`. */
  function Operand(level: Level, ts: seq<Token>, c: nat): Parsed
    requires c < |ts|
  {
    if level == Sum then BinOp(Product, ts, c) else Factor(ts, c)
  }

  /** `bin_op` after its first operand parsed to `n` from `k` tokens. */
  lemma FirstStep(level: Level, ts: seq<Token>, c: nat, n: Node, k: nat)
    requires c + k < |ts|
    requires Operand(level, ts, c) == Parsed(ParseResult(Some(n), None, k), c + k)
    ensures BinOp(level, ts, c) == BinOpLoop(level, ts, c + k, ParseResult(None, None, k), n)
  {
    assert Register(NoResult, ParseResult(Some(n), None, k)) == ParseResult(None, None, k);
  }

  /** One turn of the loop of `bin_op`: an operator, then an operand of `k` tokens. */
  lemma LoopStep(level: Level, ts: seq<Token>, m: nat, j: nat, l: Node, r: Node, k: nat, e: nat, total: nat)
    requires e == m + 1 + k && total == j + 1 + k && e < |ts|
    requires IsLevelOp(level, ts[m].kind)
    requires Operand(level, ts, m + 1) == Parsed(ParseResult(Some(r), None, k), e)
    ensures BinOpLoop(level, ts, m, ParseResult(None, None, j), l)
         == BinOpLoop(level, ts, e, ParseResult(None, None, total), BinOpNode(l, ts[m], r))
  {
    assert Next(ts, m) == m + 1;
  }

  /** Parsing a chain's tokens runs the loop of `bin_op` up to the chain's end
      with the whole chain folded. */
  lemma {:induction false} LevelPrefix(level: Level, n: Node, ts: seq<Token>, c: nat)
    requires LevelShape(level, n) && Matches(ts, c, Flatten(n))
    requires c + |Flatten(n)| < |ts|
    requires level == Sum ==> !IsProductOp(ts[c + |Flatten(n)|].kind)
    ensures BinOp(level, ts, c)
         == BinOpLoop(level, ts, c + |Flatten(n)|, ParseResult(None, None, |Flatten(n)|), n)
    decreases n, if level == Sum then 6 else 2
  {
    if n.BinOpNode? && IsLevelOp(level, n.opTok.kind) {
      ChainPrefix(level, n, ts, c);
    } else {
      OperandRoundTrip(level, n, ts, c);
      FirstStep(level, ts, c, n, |Flatten(n)|);
    }
  }

  /** The parts of a chain with an operator at its root, and where they sit in the tokens. */
  lemma ChainParts(level: Level, n: Node, ts: seq<Token>, c: nat)
    requires n.BinOpNode? && IsLevelOp(level, n.opTok.kind)
    requires LevelShape(level, n) && Matches(ts, c, Flatten(n))
    requires c + |Flatten(n)| < |ts|
    ensures var m := c + |Flatten(n.left)|;
      && LevelShape(level, n.left) && Matches(ts, c, Flatten(n.left))
      && m + 1 + |Flatten(n.right)| == c + |Flatten(n)|
      && ts[m] == n.opTok
      && (if level == Sum then LevelShape(Product, n.right) else AtomShape(n.right))
      && Matches(ts, m + 1, Flatten(n.right))
  {
    MatchesBinOp(ts, c, n);
    var m := c + |Flatten(n.left)|;
    assert |Flatten(n)| == |Flatten(n.left)| + 1 + |Flatten(n.right)|;
    assert SameToken(ts[m + 0], [n.opTok][0]);
  }

  /** Transitivity of a chain prefix and one turn of the loop, which folds `n`
      and ends at `e` having consumed `total` tokens. */
  lemma ChainStep(level: Level, ts: seq<Token>, c: nat, m: nat, n: Node, j: nat, k: nat, e: nat, total: nat)
    requires n.BinOpNode? && c < |ts| && m + 1 + k < |ts| && ts[m] == n.opTok && IsLevelOp(level, n.opTok.kind)
    requires e == m + 1 + k && total == j + 1 + k
    requires BinOp(level, ts, c) == BinOpLoop(level, ts, m, ParseResult(None, None, j), n.left)
    requires Operand(level, ts, m + 1) == Parsed(ParseResult(Some(n.right), None, k), m + 1 + k)
    ensures BinOp(level, ts, c) == BinOpLoop(level, ts, e, ParseResult(None, None, total), n)
  {
    assert BinOpNode(n.left, ts[m], n.right) == n;
    LoopStep(level, ts, m, j, n.left, n.right, k, e, total);
  }

  /** The case of `LevelPrefix` where the chain has an operator at its root. */
  lemma {:induction false} ChainPrefix(level: Level, n: Node, ts: seq<Token>, c: nat)
    requires n.BinOpNode? && IsLevelOp(level, n.opTok.kind)
    requires LevelShape(level, n) && Matches(ts, c, Flatten(n))
    requires c + |Flatten(n)| < |ts|
    requires level == Sum ==> !IsProductOp(ts[c + |Flatten(n)|].kind)
    ensures BinOp(level, ts, c)
         == BinOpLoop(level, ts, c + |Flatten(n)|, ParseResult(None, None, |Flatten(n)|), n)
    decreases n, if level == Sum then 5 else 1
  {
    var l, op, r := n.left, n.opTok, n.right;
    ChainParts(level, n, ts, c);
    var m := c + |Flatten(l)|;
    var e := c + |Flatten(n)|;
    assert m + 1 + |Flatten(r)| == e;
    OperandRoundTrip(level, r, ts, m + 1);
    LevelPrefix(level, l, ts, c);
    ChainStep(level, ts, c, m, n, |Flatten(l)|, |Flatten(r)|, e, |Flatten(n)|);
  }


  /** An operand's tokens parse to that operand. */
  lemma {:induction false} OperandRoundTrip(level: Level, n: Node, ts: seq<Token>, c: nat)
    requires if level == Sum then LevelShape(Product, n) else AtomShape(n)
    requires Matches(ts, c, Flatten(n))
    requires c + |Flatten(n)| < |ts|
    requires level == Sum ==> !IsProductOp(ts[c + |Flatten(n)|].kind)
    ensures Operand(level, ts, c) == Parsed(ParseResult(Some(n), None, |Flatten(n)|), c + |Flatten(n)|)
    decreases n, if level == Sum then 4 else 0
  {
    if level == Sum {
      LevelRoundTrip(Product, n, ts, c);
    } else {
      AtomRoundTrip(n, ts, c);
    }
  }

  /** A chain's tokens, followed by a token that ends it, parse to exactly that chain. */
  lemma {:induction false} LevelRoundTrip(level: Level, n: Node, ts: seq<Token>, c: nat)
    requires LevelShape(level, n) && Matches(ts, c, Flatten(n))
    requires c + |Flatten(n)| < |ts|
    requires Stops(level, ts[c + |Flatten(n)|].kind)
    ensures BinOp(level, ts, c) == Parsed(ParseResult(Some(n), None, |Flatten(n)|), c + |Flatten(n)|)
    decreases n, if level == Sum then 7 else 3
  {
    LevelPrefix(level, n, ts, c);
  }

  /** An expression's tokens, followed by a token that is not an operator, parse
      to exactly that expression, consuming all of its tokens. */
  lemma {:induction false} ExprRoundTrip(n: Node, ts: seq<Token>, c: nat)
    requires ExprShape(n) && Matches(ts, c, Flatten(n))
    requires c + |Flatten(n)| < |ts|
    requires !IsOperator(ts[c + |Flatten(n)|].kind)
    ensures Expr(ts, c) == Parsed(ParseResult(Some(n), None, |Flatten(n)|), c + |Flatten(n)|)
    decreases n
  {
    if n.IngredientAssignNode? {
      MatchesAssign(ts, c, n);
      ExprRoundTrip(n.value, ts, c + 3);
      assert Next(ts, c) == c + 1 && Next(ts, c + 1) == c + 2 && Next(ts, c + 2) == c + 3;
    } else {
      LevelStartsWithAtom(Sum, n);
      assert SameToken(ts[c + 0], Flatten(n)[0]);
      LevelRoundTrip(Sum, n, ts, c);
    }
  }

  /** Parsing inverts flattening: a tree in the grammar's shape, flattened and
      closed by an EOF token, parses back to itself. */
  lemma ParseFlatten(n: Node, eof: Token)
    requires ExprShape(n) && eof.kind == EOF
    ensures Parse(Flatten(n) + [eof]) == ParseResult(Some(n), None, |Flatten(n)|)
  {
    var ts := Flatten(n) + [eof];
    assert Matches(ts, 0, Flatten(n)) by {
      forall k | 0 <= k < |Flatten(n)| ensures SameToken(ts[0 + k], Flatten(n)[k]) {
      }
    }
    ExprRoundTrip(n, ts, 0);
  }

  // ---- every successful parse is such a tree -------------------------------------------

  /** The token sequences the lexer produces end with an EOF token. */
  predicate EndsWithEof(ts: seq<Token>)
  {
    |ts| > 0 && ts[|ts| - 1].kind == EOF
  }

  lemma AtomSound(ts: seq<Token>, c: nat)
    requires EndsWithEof(ts) && c < |ts|
    requires Factor(ts, c).res.error.None?
    ensures var n := Factor(ts, c).res.node.value;
      && AtomShape(n) && Flatten(n) == [ts[c]] && c + 1 < |ts|
      && Factor(ts, c) == Parsed(ParseResult(Some(n), None, 1), c + 1)
  {
  }

  /** A successful operand parse yields an operand tree matching the tokens it consumed. */
  lemma {:induction false} OperandSound(level: Level, ts: seq<Token>, c: nat)
    requires EndsWithEof(ts) && c < |ts|
    requires Operand(level, ts, c).res.error.None?
    ensures var p := Operand(level, ts, c);
      var n := p.res.node.value;
      && (if level == Sum then LevelShape(Product, n) else AtomShape(n))
      && Matches(ts, c, Flatten(n))
      && c + |Flatten(n)| < |ts|
      && p == Parsed(ParseResult(Some(n), None, |Flatten(n)|), c + |Flatten(n)|)
      && (level == Sum ==> !IsProductOp(ts[p.cursor].kind))
    decreases |ts| - c, if level == Sum then 4 else 0
  {
    if level == Sum {
      LevelSound(Product, ts, c);
    } else {
      AtomSound(ts, c);
      assert SameToken(ts[c + 0], [ts[c]][0]);
    }
  }

  /** The loop of `bin_op`, started after a chain `left` that matches the tokens
      from `c0` to `c`, ends with a longer chain that matches from `c0` up to
      where it stops. */
  lemma {:induction false} LoopSound(level: Level, ts: seq<Token>, c0: nat, c: nat, left: Node)
    requires EndsWithEof(ts) && c < |ts|
    requires LevelShape(level, left)
    requires c0 + |Flatten(left)| == c && Matches(ts, c0, Flatten(left))
    requires level == Sum ==> !IsProductOp(ts[c].kind)
    requires BinOpLoop(level, ts, c, ParseResult(None, None, |Flatten(left)|), left).res.error.None?
    ensures ChainParsed(level, ts, c0, BinOpLoop(level, ts, c, ParseResult(None, None, |Flatten(left)|), left))
    decreases |ts| - c, if level == Sum then 6 else 2
  {
    if IsLevelOp(level, ts[c].kind) {
      LoopSoundStep(level, ts, c0, c, left);
    }
  }

  /** The case of `LoopSound` where the loop meets one more operator. */
  lemma {:induction false} LoopSoundStep(level: Level, ts: seq<Token>, c0: nat, c: nat, left: Node)
    requires EndsWithEof(ts) && c < |ts|
    requires IsLevelOp(level, ts[c].kind)
    requires LevelShape(level, left)
    requires c0 + |Flatten(left)| == c && Matches(ts, c0, Flatten(left))
    requires BinOpLoop(level, ts, c, ParseResult(None, None, |Flatten(left)|), left).res.error.None?
    ensures ChainParsed(level, ts, c0, BinOpLoop(level, ts, c, ParseResult(None, None, |Flatten(left)|), left))
    decreases |ts| - c, if level == Sum then 5 else 1
  {
    OperandSound(level, ts, c + 1);
    var r := Operand(level, ts, c + 1).res.node.value;
    var n1 := BinOpNode(left, ts[c], r);
    ExtendChain(level, ts, c0, left, r);
    var e := c + 1 + |Flatten(r)|;
    LoopStep(level, ts, c, |Flatten(left)|, left, r, |Flatten(r)|, e, |Flatten(n1)|);
    LoopSound(level, ts, c0, e, n1);
  }

  /** Folding one more operator and operand onto a matching chain gives a longer matching chain. */
  lemma ExtendChain(level: Level, ts: seq<Token>, c0: nat, left: Node, r: Node)
    requires LevelShape(level, left) && Matches(ts, c0, Flatten(left))
    requires c0 + |Flatten(left)| < |ts| && IsLevelOp(level, ts[c0 + |Flatten(left)|].kind)
    requires if level == Sum then LevelShape(Product, r) else AtomShape(r)
    requires Matches(ts, c0 + |Flatten(left)| + 1, Flatten(r))
    ensures var n1 := BinOpNode(left, ts[c0 + |Flatten(left)|], r);
      && LevelShape(level, n1)
      && Matches(ts, c0, Flatten(n1))
      && |Flatten(n1)| == |Flatten(left)| + 1 + |Flatten(r)|
  {
    var n1 := BinOpNode(left, ts[c0 + |Flatten(left)|], r);
    MatchesBinOp(ts, c0, n1);
    assert SameToken(ts[c0 + |Flatten(left)| + 0], [n1.opTok][0]);
  }

  /** `p` parsed a chain of `level` from exactly its tokens at `c`, and
      stopped at a token that does not continue it. */
  predicate ChainParsed(level: Level, ts: seq<Token>, c: nat, p: Parsed)
  {
    && p.res.node.Some?
    && LevelShape(level, p.res.node.value)
    && Matches(ts, c, Flatten(p.res.node.value))
    && c + |Flatten(p.res.node.value)| < |ts|
    && p == Parsed(ParseResult(p.res.node, None, |Flatten(p.res.node.value)|), c + |Flatten(p.res.node.value)|)
    && Stops(level, ts[p.cursor].kind)
  }

  /** A successful `bin_op` yields a chain matching the tokens it consumed, and
      stops at a token that does not continue it. */
  lemma {:induction false} LevelSound(level: Level, ts: seq<Token>, c: nat)
    requires EndsWithEof(ts) && c < |ts|
    requires BinOp(level, ts, c).res.error.None?
    ensures ChainParsed(level, ts, c, BinOp(level, ts, c))
    decreases |ts| - c, if level == Sum then 7 else 3
  {
    OperandSound(level, ts, c);
    var n0 := Operand(level, ts, c).res.node.value;
    assert LevelShape(level, n0);
    FirstStep(level, ts, c, n0, |Flatten(n0)|);
    LoopSound(level, ts, c, c + |Flatten(n0)|, n0);
  }

  /** A successful `expr` yields a tree in the grammar's shape matching the
      tokens it consumed, followed by a token that is not an operator. */
  lemma {:induction false} ExprSound(ts: seq<Token>, c: nat)
    requires EndsWithEof(ts) && c < |ts|
    requires Expr(ts, c).res.error.None?
    ensures var p := Expr(ts, c);
      var n := p.res.node.value;
      && ExprShape(n)
      && Matches(ts, c, Flatten(n))
      && c + |Flatten(n)| < |ts|
      && p == Parsed(ParseResult(Some(n), None, |Flatten(n)|), c + |Flatten(n)|)
      && !IsOperator(ts[p.cursor].kind)
    decreases |ts| - c
  {
    if ts[c].kind == KEYWORD(IngredientKeyword) {
      assert Next(ts, c) == c + 1 && Next(ts, c + 1) == c + 2 && Next(ts, c + 2) == c + 3;
      ExprSound(ts, c + 3);
      var v := Expr(ts, c + 3).res.node.value;
      var n := IngredientAssignNode(ts[c + 1], v);
      assert Expr(ts, c) == Parsed(ParseResult(Some(n), None, 3 + |Flatten(v)|), c + 3 + |Flatten(v)|);
      MatchesAssign(ts, c, n);
    } else {
      LevelSound(Sum, ts, c);
      var sum := BinOp(Sum, ts, c);
      var n := sum.res.node.value;
      assert !n.IngredientAssignNode? by {
        if !(n.BinOpNode? && IsSumOp(n.opTok.kind)) {
          assert LevelShape(Product, n);
        }
      }
      assert Expr(ts, c) == sum;
    }
  }

  /** Over a token sequence that ends with EOF, `parse` succeeds with `n` exactly
      when `n` has the grammar's shape and the tokens are `n` flattened, then EOF. */
  lemma ParseIffFlatten(ts: seq<Token>, n: Node)
    requires EndsWithEof(ts)
    ensures Parse(ts) == ParseResult(Some(n), None, |Flatten(n)|)
        <==> ExprShape(n) && Matches(ts, 0, Flatten(n)) && |Flatten(n)| < |ts| && ts[|Flatten(n)|].kind == EOF
  {
    if Parse(ts) == ParseResult(Some(n), None, |Flatten(n)|) {
      ParseSound(ts);
    }
    if ExprShape(n) && Matches(ts, 0, Flatten(n)) && |Flatten(n)| < |ts| && ts[|Flatten(n)|].kind == EOF {
      ExprRoundTrip(n, ts, 0);
    }
  }

  /** A successful parse consumes everything up to an EOF token and yields a
      well-formed tree in the grammar's shape. */
  lemma ParseSound(ts: seq<Token>)
    requires EndsWithEof(ts)
    requires Parse(ts).error.None?
    ensures var n := Parse(ts).node.value;
      && ExprShape(n) && WellFormed(n)
      && Matches(ts, 0, Flatten(n)) && |Flatten(n)| < |ts| && ts[|Flatten(n)|].kind == EOF
      && Parse(ts) == ParseResult(Some(n), None, |Flatten(n)|)
  {
    ExprSound(ts, 0);
    ShapeIsWellFormed(Parse(ts).node.value);
  }

  lemma {:induction false} LevelWellFormed(level: Level, n: Node)
    requires LevelShape(level, n)
    ensures WellFormed(n)
    decreases n, if level == Sum then 1 else 0
  {
    if n.BinOpNode? && IsLevelOp(level, n.opTok.kind) {
      LevelWellFormed(level, n.left);
      if level == Sum {
        LevelWellFormed(Product, n.right);
      }
    } else if level == Sum {
      LevelWellFormed(Product, n);
    }
  }

  /** Trees in the grammar's shape carry tokens of the kinds the evaluator expects. */
  lemma {:induction false} ShapeIsWellFormed(n: Node)
    requires ExprShape(n)
    ensures WellFormed(n)
  {
    if n.IngredientAssignNode? {
      ShapeIsWellFormed(n.value);
    } else {
      LevelWellFormed(Sum, n);
    }
  }

  // ---- spans ----------------------------------------------------------------------

  /** A chain spans from its first token's start to its last token's end. */
  lemma {:induction false} LevelSpan(level: Level, n: Node)
    requires LevelShape(level, n)
    ensures Start(n) == Flatten(n)[0].start
    ensures End(n) == Flatten(n)[|Flatten(n)| - 1].end
    decreases n, if level == Sum then 1 else 0
  {
    if n.BinOpNode? && IsLevelOp(level, n.opTok.kind) {
      LevelSpan(level, n.left);
      if level == Sum {
        LevelSpan(Product, n.right);
      }
    } else if level == Sum {
      LevelSpan(Product, n);
    }
  }

  /** An expression ends where its last token ends; an assignment starts at its
      name token, anything else at its first token. */
  lemma {:induction false} ExprSpan(n: Node)
    requires ExprShape(n)
    ensures Start(n) == Flatten(n)[if n.IngredientAssignNode? then 1 else 0].start
    ensures End(n) == Flatten(n)[|Flatten(n)| - 1].end
    ensures IsAtomKind(Flatten(n)[|Flatten(n)| - 1].kind)
  {
    if n.IngredientAssignNode? {
      ExprSpan(n.value);
    } else {
      LevelSpan(Sum, n);
      EndsWithAtom(Sum, n);
    }
  }

  /** The tree of a successful parse spans its tokens: from the first token (the
      name token, for an assignment) to the last token before EOF. */
  lemma ParseSpan(ts: seq<Token>)
    requires EndsWithEof(ts)
    requires Parse(ts).error.None?
    ensures var n := Parse(ts).node.value;
      var last := |Flatten(n)| - 1;
      && 0 <= last < |ts| - 1
      && End(n) == ts[last].end
      && Start(n) == ts[if ts[0].kind == KEYWORD(IngredientKeyword) then 1 else 0].start
  {
    ParseSound(ts);
    var n := Parse(ts).node.value;
    var f := Flatten(n);
    ExprSpan(n);
    assert SameToken(ts[0 + (|f| - 1)], f[|f| - 1]);
    if n.IngredientAssignNode? {
      MatchesAssign(ts, 0, n);
    } else {
      LevelStartsWithAtom(Sum, n);
      assert SameToken(ts[0 + 0], f[0]);
    }
  }

  // ---- error kinds ----------------------------------------------------------------

  /** Every error the parser reports is an `Invalid Syntax` error. */
  predicate SyntaxOnly(p: Parsed)
  {
    p.res.error.Some? ==> p.res.error.value.kind == InvalidSyntax
  }

  lemma {:induction false} OperandErrorKind(level: Level, ts: seq<Token>, c: nat)
    requires c < |ts|
    ensures SyntaxOnly(Operand(level, ts, c))
    decreases |ts| - c, if level == Sum then 4 else 0
  {
    if level == Sum {
      LevelErrorKind(Product, ts, c);
    }
  }

  lemma {:induction false} LevelErrorKind(level: Level, ts: seq<Token>, c: nat)
    requires c < |ts|
    ensures SyntaxOnly(BinOp(level, ts, c))
    decreases |ts| - c, if level == Sum then 6 else 2
  {
    OperandErrorKind(level, ts, c);
    var first := Operand(level, ts, c);
    if first.res.error.None? {
      LoopErrorKind(level, ts, first.cursor, Register(NoResult, first.res), first.res.node.value);
    }
  }

  lemma {:induction false} LoopErrorKind(level: Level, ts: seq<Token>, c: nat, res: ParseResult, left: Node)
    requires c < |ts| && res.error.None?
    ensures SyntaxOnly(BinOpLoop(level, ts, c, res, left))
    decreases |ts| - c, if level == Sum then 5 else 1
  {
    if IsLevelOp(level, ts[c].kind) {
      var c1 := Next(ts, c);
      OperandErrorKind(level, ts, c1);
      var right := Operand(level, ts, c1);
      if right.res.error.None? {
        var res1 := Register(RegisterAdvancement(res), right.res);
        LoopErrorKind(level, ts, right.cursor, res1, BinOpNode(left, ts[c], right.res.node.value));
      }
    }
  }

  lemma {:induction false} ExprErrorKind(ts: seq<Token>, c: nat)
    requires c < |ts|
    ensures SyntaxOnly(Expr(ts, c))
    decreases |ts| - c
  {
    if ts[c].kind == KEYWORD(IngredientKeyword) {
      var c1 := Next(ts, c);
      if ts[c1].kind.INGREDIENT? {
        var c2 := Next(ts, c1);
        if ts[c2].kind == EQ {
          ExprErrorKind(ts, Next(ts, c2));
        }
      }
    } else {
      LevelErrorKind(Sum, ts, c);
    }
  }

  /** `parse` reports only `Invalid Syntax` errors. */
  lemma ParseErrorKind(ts: seq<Token>)
    requires |ts| > 0
    ensures Parse(ts).error.Some? ==> Parse(ts).error.value.kind == InvalidSyntax
  {
    ExprErrorKind(ts, 0);
  }
}
