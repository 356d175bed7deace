/** Whole lines run through `run`, from text to value or error message. */
module ChefCases {
  import opened Wrappers
  import opened Positions
  import opened Errors
  import opened Tokens
  import opened Nodes
  import opened Lexer
  import opened LexerProperties
  import opened Parser
  import opened ParserProperties
  import opened ParserCases
  import opened Values
  import opened Interpreter
  import opened Chef

  /** The one-character token of kind `k` at index `i`. */
  function Tok(k: TokenKind, i: int): Token
  {
    TokenAt(k, At(i))
  }

  // ---- lexing, one character at a time ---------------------------------------

  lemma LexEnd(text: string)
    ensures Lex(text, |text|) == Success([Tok(EOF, |text|)])
  {
  }

  lemma LexBlank(text: string, i: nat)
    requires i < |text| && IsBlank(text[i])
    ensures Lex(text, i) == Lex(text, i + 1)
  {
  }

  lemma LexOperator(text: string, i: nat, rest: seq<Token>)
    requires i < |text| && OperatorKind(text[i]).Some?
    requires Lex(text, i + 1) == Success(rest)
    ensures Lex(text, i) == Success([Tok(OperatorKind(text[i]).value, i)] + rest)
  {
  }

  /** A one-digit number. */
  lemma LexDigit(text: string, i: nat, rest: seq<Token>)
    requires i < |text| && IsDigit(text[i])
    requires i + 1 == |text| || !IsNumberChar(text[i + 1])
    requires Lex(text, i + 1) == Success(rest)
    ensures Lex(text, i) == Success([Tok(INT(DigitValue(text[i])), i)] + rest)
  {
    assert ScanNumber(text, i + 1, 0) == (i + 1, 0);
    assert ScanNumber(text, i, 0) == (i + 1, 0);
    assert text[i..i + 1] == [text[i]];
    assert DigitsValue([text[i]]) == DigitValue(text[i]) by {
      assert [text[i]][..0] == [];
    }
  }

  /** A name or the keyword: the maximal run of name characters from a letter. */
  lemma LexWord(text: string, i: nat, j: nat, rest: seq<Token>)
    requires i < j <= |text| && IsLetter(text[i])
    requires forall k :: i <= k < j ==> IsIdentChar(text[k])
    requires j == |text| || !IsIdentChar(text[j])
    requires Lex(text, j) == Success(rest)
    ensures var word := text[i..j];
      Lex(text, i) == Success([Token(if word == IngredientKeyword then KEYWORD(word) else INGREDIENT(word), At(i), At(j))] + rest)
  {
    IdentRunUnique(text, i, ScanIdent(text, i), j);
  }

  // ---- whole lines ----------------------------------------------------------------

  lemma LexProductFirstTail(t: string)
    requires t == "3 + 4 * 2"
    ensures Lex(t, 4) == Success([Tok(INT(4), 4), Tok(MUL, 6), Tok(INT(2), 8), Tok(EOF, 9)])
  {
    LexEnd(t);
    var r := [Tok(EOF, 9)];
    LexDigit(t, 8, r);
    r := [Tok(INT(2), 8)] + r;
    LexBlank(t, 7);
    LexOperator(t, 6, r);
    r := [Tok(MUL, 6)] + r;
    LexBlank(t, 5);
    LexDigit(t, 4, r);
    r := [Tok(INT(4), 4)] + r;
    assert r == [Tok(INT(4), 4), Tok(MUL, 6), Tok(INT(2), 8), Tok(EOF, 9)];
  }

  lemma LexProductFirst(t: string)
    requires t == "3 + 4 * 2"
    ensures MakeTokens(t)
         == Success([Tok(INT(3), 0), Tok(PLUS, 2), Tok(INT(4), 4), Tok(MUL, 6), Tok(INT(2), 8), Tok(EOF, 9)])
  {
    var r := [Tok(INT(4), 4), Tok(MUL, 6), Tok(INT(2), 8), Tok(EOF, 9)];
    LexProductFirstTail(t);
    LexBlank(t, 3);
    LexOperator(t, 2, r);
    r := [Tok(PLUS, 2)] + r;
    LexBlank(t, 1);
    LexDigit(t, 0, r);
    r := [Tok(INT(3), 0)] + r;
    assert r == [Tok(INT(3), 0), Tok(PLUS, 2), Tok(INT(4), 4), Tok(MUL, 6), Tok(INT(2), 8), Tok(EOF, 9)];
  }

  /** A line that lexes and parses evaluates its tree against the table. */
  lemma RunParsed(table: SymbolTable, text: string, ts: seq<Token>, n: Node, k: nat)
    requires MakeTokens(text) == Success(ts)
    requires Parse(ts) == ParseResult(Some(n), None, k)
    ensures WellFormed(n) && Run(table, text) == Eval(n, table)
  {
    ParseSound(ts);
  }

  /** `3 + 4 * 2` is 11: the product is taken first. */
  lemma ProductFirst(t: string)
    requires t == "3 + 4 * 2"
    ensures Run(InitialTable, t) == Outcome(Success(Number(Int(11), Some(At(0)), Some(At(9)))), InitialTable)
  {
    var a, plus, b, mul, c, eof := Tok(INT(3), 0), Tok(PLUS, 2), Tok(INT(4), 4), Tok(MUL, 6), Tok(INT(2), 8), Tok(EOF, 9);
    LexProductFirst(t);
    ProductBindsTighter(a, plus, b, mul, c, eof);
    var product := BinOpNode(NumberNode(b), mul, NumberNode(c));
    var sum := BinOpNode(NumberNode(a), plus, product);
    RunParsed(InitialTable, t, [a, plus, b, mul, c, eof], sum, 5);
    assert Eval(product, InitialTable) == Outcome(Success(Number(Int(8), Some(At(4)), Some(At(9)))), InitialTable);
  }

  /** A line that lexes but does not parse reports the parse error and keeps the table. */
  lemma RunParseFailed(table: SymbolTable, text: string, ts: seq<Token>, e: Error)
    requires MakeTokens(text) == Success(ts)
    requires Parse(ts).error == Some(e)
    ensures Run(table, text) == Outcome(Failure(e), table)
  {
  }

  /** `1 / 0` fails at the divisor with the runtime error's traceback text. */
  lemma LexDivisionTail(t: string)
    requires t == "1 / 0"
    ensures Lex(t, 2) == Success([Tok(DIV, 2), Tok(INT(0), 4), Tok(EOF, 5)])
  {
    LexEnd(t);
    var r := [Tok(EOF, 5)];
    LexDigit(t, 4, r);
    r := [Tok(INT(0), 4)] + r;
    LexBlank(t, 3);
    LexOperator(t, 2, r);
    r := [Tok(DIV, 2)] + r;
    assert r == [Tok(DIV, 2), Tok(INT(0), 4), Tok(EOF, 5)];
  }

  lemma LexDivision(t: string)
    requires t == "1 / 0"
    ensures MakeTokens(t) == Success([Tok(INT(1), 0), Tok(DIV, 2), Tok(INT(0), 4), Tok(EOF, 5)])
  {
    var r := [Tok(DIV, 2), Tok(INT(0), 4), Tok(EOF, 5)];
    LexDivisionTail(t);
    LexBlank(t, 1);
    LexDigit(t, 0, r);
    r := [Tok(INT(1), 0)] + r;
    assert r == [Tok(INT(1), 0), Tok(DIV, 2), Tok(INT(0), 4), Tok(EOF, 5)];
  }

  lemma ParseDivision(t: string)
    requires t == "1 / 0"
    ensures Run(InitialTable, t) == Eval(BinOpNode(NumberNode(Tok(INT(1), 0)), Tok(DIV, 2), NumberNode(Tok(INT(0), 4))), InitialTable)
  {
    var a, div, b, eof := Tok(INT(1), 0), Tok(DIV, 2), Tok(INT(0), 4), Tok(EOF, 5);
    LexDivision(t);
    SingleOperation(a, div, b, eof);
    RunParsed(InitialTable, t, [a, div, b, eof], BinOpNode(NumberNode(a), div, NumberNode(b)), 3);
  }

  lemma DivisionByZero(t: string)
    requires t == "1 / 0"
    ensures Run(InitialTable, t)
         == Outcome(Failure(Error(RuntimeError, Some(At(4)), Some(At(5)), "Division by zero")), InitialTable)
  {
    ParseDivision(t);
    var zero := NumberNode(Tok(INT(0), 4));
    assert Eval(zero, InitialTable) == Outcome(Success(Number(Int(0), Some(At(4)), Some(At(5)))), InitialTable);
  }

  /** `+5`: a leading sign is not unary; nothing was consumed, so the message
      of `expr` is reported at the sign. */
  lemma LexLeadingSign(t: string)
    requires t == "+5"
    ensures MakeTokens(t) == Success([Tok(PLUS, 0), Tok(INT(5), 1), Tok(EOF, 2)])
  {
    LexEnd(t);
    var r := [Tok(EOF, 2)];
    LexDigit(t, 1, r);
    r := [Tok(INT(5), 1)] + r;
    LexOperator(t, 0, r);
    r := [Tok(PLUS, 0)] + r;
    assert r == [Tok(PLUS, 0), Tok(INT(5), 1), Tok(EOF, 2)];
  }

  lemma LeadingSign(t: string)
    requires t == "+5"
    ensures Run(InitialTable, t)
         == Outcome(Failure(Error(InvalidSyntax, Some(At(0)), Some(At(1)), ExpectedExpr)), InitialTable)
  {
    LexLeadingSign(t);
    var ts := MakeTokens(t).value;
    assert ts[0] == Tok(PLUS, 0);
    NoExpressionStart(ts);
    RunParseFailed(InitialTable, t, ts, SyntaxError(ts[0], ExpectedExpr));
  }

  /** An empty line has nothing but EOF, so it fails like `+5`, at EOF. */
  lemma EmptyLine(t: string)
    requires t == ""
    ensures Run(InitialTable, t)
         == Outcome(Failure(Error(InvalidSyntax, Some(At(0)), Some(At(1)), ExpectedExpr)), InitialTable)
  {
    LexEnd(t);
    var ts := MakeTokens(t).value;
    assert ts[0] == Tok(EOF, 0);
    NoExpressionStart(ts);
    RunParseFailed(InitialTable, t, ts, SyntaxError(ts[0], ExpectedExpr));
  }

  /** `5 +`: the operator was consumed, so the operand's own message survives, at EOF. */
  lemma LexDanglingPlus(t: string)
    requires t == "5 +"
    ensures MakeTokens(t) == Success([Tok(INT(5), 0), Tok(PLUS, 2), Tok(EOF, 3)])
  {
    LexEnd(t);
    var r := [Tok(EOF, 3)];
    LexOperator(t, 2, r);
    r := [Tok(PLUS, 2)] + r;
    LexBlank(t, 1);
    LexDigit(t, 0, r);
    r := [Tok(INT(5), 0)] + r;
    assert r == [Tok(INT(5), 0), Tok(PLUS, 2), Tok(EOF, 3)];
  }

  lemma DanglingPlus(t: string)
    requires t == "5 +"
    ensures Run(InitialTable, t)
         == Outcome(Failure(Error(InvalidSyntax, Some(At(3)), Some(At(4)), ExpectedAtom)), InitialTable)
  {
    LexDanglingPlus(t);
    var ts := MakeTokens(t).value;
    assert ts[2] == Tok(EOF, 3);
    DanglingOperator(ts);
    RunParseFailed(InitialTable, t, ts, SyntaxError(ts[2], ExpectedAtom));
  }

  /** An unbound name is a runtime error spanning the name. */
  lemma Undefined(t: string)
    requires t == "y"
    ensures Run(InitialTable, t)
         == Outcome(Failure(Error(RuntimeError, Some(At(0)), Some(At(1)), "'" + "y" + "' is not defined")), InitialTable)
  {
    var y, eof := Tok(INGREDIENT("y"), 0), Tok(EOF, 1);
    LexEnd(t);
    assert t[0..1] == "y" && "y" != IngredientKeyword;
    LexWord(t, 0, 1, [eof]);
    assert [y] + [eof] == [y, eof];
    SingleAtom(y, eof);
    RunParsed(InitialTable, t, [y, eof], IngredientAccessNode(y), 1);
  }

  /** The seeded `null` is found although it holds zero. */
  lemma NullIsZero(t: string)
    requires t == "null"
    ensures Run(InitialTable, t) == Outcome(Success(Number(Int(0), Some(At(0)), Some(At(4)))), InitialTable)
  {
    var name, eof := Token(INGREDIENT("null"), At(0), At(4)), Tok(EOF, 4);
    LexEnd(t);
    assert t[0..4] == "null" && "null" != IngredientKeyword;
    LexWord(t, 0, 4, [eof]);
    assert [name] + [eof] == [name, eof];
    SingleAtom(name, eof);
    RunParsed(InitialTable, t, [name, eof], IngredientAccessNode(name), 1);
  }

  /** The table after `ingredient x = 5`. */
  function AfterAssignment(): SymbolTable
  {
    InitialTable["x" := Number(Int(5), Some(At(15)), Some(At(16)))]
  }

  lemma LexAssignmentValue(t: string)
    requires t == "ingredient x = 5"
    ensures Lex(t, 13) == Success([Tok(EQ, 13), Tok(INT(5), 15), Tok(EOF, 16)])
  {
    LexEnd(t);
    var r := [Tok(EOF, 16)];
    LexDigit(t, 15, r);
    r := [Tok(INT(5), 15)] + r;
    LexBlank(t, 14);
    LexOperator(t, 13, r);
    r := [Tok(EQ, 13)] + r;
    assert r == [Tok(EQ, 13), Tok(INT(5), 15), Tok(EOF, 16)];
  }

  lemma LexAssignmentTail(t: string)
    requires t == "ingredient x = 5"
    ensures Lex(t, 11) == Success([Token(INGREDIENT("x"), At(11), At(12)), Tok(EQ, 13), Tok(INT(5), 15), Tok(EOF, 16)])
  {
    var r := [Tok(EQ, 13), Tok(INT(5), 15), Tok(EOF, 16)];
    LexAssignmentValue(t);
    LexBlank(t, 12);
    assert t[11..12] == "x";
    LexWord(t, 11, 12, r);
    r := [Token(INGREDIENT("x"), At(11), At(12))] + r;
    assert r == [Token(INGREDIENT("x"), At(11), At(12)), Tok(EQ, 13), Tok(INT(5), 15), Tok(EOF, 16)];
  }

  lemma LexAssignment(t: string)
    requires t == "ingredient x = 5"
    ensures MakeTokens(t) == Success([Token(KEYWORD("ingredient"), At(0), At(10)),
      Token(INGREDIENT("x"), At(11), At(12)), Tok(EQ, 13), Tok(INT(5), 15), Tok(EOF, 16)])
  {
    var r := [Token(INGREDIENT("x"), At(11), At(12)), Tok(EQ, 13), Tok(INT(5), 15), Tok(EOF, 16)];
    LexAssignmentTail(t);
    LexBlank(t, 10);
    assert t[0..10] == "ingredient";
    LexWord(t, 0, 10, r);
    r := [Token(KEYWORD("ingredient"), At(0), At(10))] + r;
    assert r == [Token(KEYWORD("ingredient"), At(0), At(10)),
      Token(INGREDIENT("x"), At(11), At(12)), Tok(EQ, 13), Tok(INT(5), 15), Tok(EOF, 16)];
  }

  /** An assignment returns its value, spanned by the value, and binds the name. */
  lemma Assignment(t: string)
    requires t == "ingredient x = 5"
    ensures Run(InitialTable, t)
         == Outcome(Success(Number(Int(5), Some(At(15)), Some(At(16)))), AfterAssignment())
  {
    var kw, x, eq, v, eof := Token(KEYWORD("ingredient"), At(0), At(10)),
      Token(INGREDIENT("x"), At(11), At(12)), Tok(EQ, 13), Tok(INT(5), 15), Tok(EOF, 16);
    LexAssignment(t);
    SimpleAssignment(kw, x, eq, v, eof);
    RunParsed(InitialTable, t, [kw, x, eq, v, eof], IngredientAssignNode(x, NumberNode(v)), 4);
  }

  /** The binding persists into the next line. */
  lemma LexIncrement(t: string)
    requires t == "x + 1"
    ensures MakeTokens(t) == Success([Tok(INGREDIENT("x"), 0), Tok(PLUS, 2), Tok(INT(1), 4), Tok(EOF, 5)])
  {
    LexEnd(t);
    var r := [Tok(EOF, 5)];
    LexDigit(t, 4, r);
    r := [Tok(INT(1), 4)] + r;
    LexBlank(t, 3);
    LexOperator(t, 2, r);
    r := [Tok(PLUS, 2)] + r;
    LexBlank(t, 1);
    assert t[0..1] == "x";
    LexWord(t, 0, 1, r);
    r := [Tok(INGREDIENT("x"), 0)] + r;
    assert r == [Tok(INGREDIENT("x"), 0), Tok(PLUS, 2), Tok(INT(1), 4), Tok(EOF, 5)];
  }

  lemma BindingPersists(t: string)
    requires t == "x + 1"
    ensures Run(AfterAssignment(), t) == Outcome(Success(Number(Int(6), Some(At(0)), Some(At(5)))), AfterAssignment())
  {
    var x, plus, one, eof := Tok(INGREDIENT("x"), 0), Tok(PLUS, 2), Tok(INT(1), 4), Tok(EOF, 5);
    LexIncrement(t);
    SingleOperation(x, plus, one, eof);
    RunParsed(AfterAssignment(), t, [x, plus, one, eof], BinOpNode(IngredientAccessNode(x), plus, NumberNode(one)), 3);
  }

  // ---- the messages the user sees ---------------------------------------------------

  /** A runtime error's text is the traceback header run straight into the message. */
  lemma DivisionByZeroText()
    ensures AsString(Error(RuntimeError, Some(At(4)), Some(At(5)), "Division by zero"))
         == TracebackHeader + "Runtime Error: " + "Division by zero"
  {
    assert "Runtime Error" + ": " == "Runtime Error: ";
  }

  lemma LeadingSignText()
    ensures AsString(Error(InvalidSyntax, Some(At(0)), Some(At(1)), ExpectedExpr)) == "Invalid Syntax: " + ExpectedExpr
  {
    assert "Invalid Syntax" + ": " == "Invalid Syntax: ";
  }
}
