# Chef: a model of the `chef.py` interpreter

`chef.py` interprets a small language of one-line arithmetic over named
ingredients. Each line is lexed, parsed and evaluated by `run`. The line runs
against a symbol table that persists from line to line and starts out with
`null = 0`. Each line ends with a value or with the first error: an illegal
character, invalid syntax, or a runtime error.

This project models that pipeline in Dafny as pure functions over immutable
data, and proves what each stage promises.

| module | file | models |
|---|---|---|
| `Wrappers` | wrappers.dfy | `Option` and `Result` |
| `Positions` | positions.dfy | `Position` and `advance` |
| `Errors` | errors.dfy | `Error`, its subclasses, and `as_string` |
| `Tokens` | tokens.dfy | token kinds, `Token` and `KEYWORDS` |
| `Lexer` | lexer.dfy | `ChefLexer` (`make_tokens`, `make_number`, `make_ingredient`) |
| `LexerProperties` | lexer_properties.dfy | maximal munch, all-or-nothing lexing, and that every token decodes its own text |
| `Nodes` | nodes.dfy | the four node classes and their spans |
| `Parser` | parser.dfy | `ParseResult` and `ChefParser` |
| `ParserProperties` | parser_properties.dfy | parsing inverts flattening, spans, error kinds |
| `ParserCases` | parser_cases.dfy | precedence, association, and which error message survives |
| `Values` | values.dfy | `Number` and its arithmetic |
| `Interpreter` | interpreter.dfy | `SymbolTable`, `RTResult` and `Interpreter.visit_*` |
| `InterpreterProperties` | interpreter_properties.dfy | evaluation order, arithmetic, and the table |
| `Chef` | chef.dfy | `run` and the seeded table |
| `ChefCases` | chef_cases.dfy | whole lines from text to outcome |

How the model is set up:

- **Token payloads.** Token kinds carry their payload: `INT(int)`, `FLOAT(real)`, `INGREDIENT(name)` and `KEYWORD(word)`.
- **Lexer positions.** Positions are `(idx, ln, col)` values.
  - A successful lex never passes a newline, because a newline is an illegal character (`LexerProperties.LexNoNewline`).
  - So the lexer writes the position at index `i` as `(i, 0, i)`. `LexerProperties.LexPositionsAreWalked` proves that every token start, and every token end but EOF's, is the position `advance` reaches at that index; EOF's end is one `advance` step past the end of the text.
  - `Positions.WalkClosedForm` states what `advance` computes on any text: the line is the number of newlines passed, the column the characters since the last one.
- **Lexer.** The lexer is a recursive function on an index into the text. It returns the tokens or the first error.
- **Parser cursor.** The parser is a family of functions on a cursor into the token list.
  - Each function returns the literal `ParseResult` (node, error, advance count) and the new cursor.
  - The cursor stays on the last token once it reaches the end, as `advance` does.
  - `term` and the additive part of `expr` are one function, `BinOp`, with a `Level` argument.
- **Symbol table.** It is a `map<string, Number>` threaded explicitly.
  - `Eval` returns an `Outcome`: the result plus the table as it stands after the line.
  - `Run(table, text)` returns the outcome of one line. `InitialTable` binds `null` to the int 0.
- **Numbers.** A number is `Int(int)` or `Float(real)`, as Python keeps ints and floats apart.

Three behaviours of the program that the model keeps:

- `*` binds tighter than `+`, so `3 + 4 * 2` is 11 (`ChefCases.ProductFirst`).
- Reading a name bound to zero, such as `null`, succeeds.
  - `if not value` only fires on `None`, since every `Number` object is truthy.
  - See `ChefCases.NullIsZero`.
- A number stops before a second dot, and that dot is then an illegal character, as in `1.2.3` (`LexerProperties.SecondDotAborts`, `LexerProperties.SecondDotIsIllegal`).

## Model

| member | source | states |
|---|---|---|
| Positions.WalkClosedForm | chef.py:69-77 | after n characters the position is index n, line = the number of newlines among them, column = n minus one past the last newline (n when there is none) |
| Positions.WalkWithoutNewline | chef.py:132-139 | the lexer's position, started at (-1, 0, -1) and advanced once per character, is (n, 0, n) at index n as long as no newline has been passed |
| Tokens.TokenAt | chef.py:107-110 | a token given only its start position ends one character later on the same line |
| Errors.FromStringAsString | chef.py:19-54 | an error's text is its name, ": " and its details, with the traceback header in front for runtime errors; kind and details can be read back from the text |
| Lexer.ScanNumber | chef.py:181-186 | the number loop takes only digits and dots, stops before a second dot or any other character, counts the dots it took, and takes at least the first digit |
| Lexer.MakeNumber | chef.py:176-191 | `make_number` consumes at least the digit it starts from and stays within the text |
| Lexer.ScanIdent | chef.py:197-199 | the name loop takes exactly the maximal run of letters, digits and `_` |
| Lexer.MakeIngredient | chef.py:193-202 | `make_ingredient` consumes at least the letter it starts from and stays within the text |
| Lexer.Lex | chef.py:142-174 | a successful lex ends with exactly one EOF token, at index len(text), spanning one character, and holds no other EOF token |
| LexerProperties.LexNumber | chef.py:176-191 | from a digit the first token spans exactly the maximal run of digits and dots holding at most one dot; it is FLOAT exactly when the run holds a dot, and its value is the numeral's |
| LexerProperties.NumberToken | chef.py:176-191 | the token `make_number` builds is the numeral of the maximal run, INT without a dot and FLOAT with one |
| LexerProperties.NumberRunUnique | chef.py:181-186 | the maximal number run from a digit is unique |
| LexerProperties.SecondDotAborts | chef.py:167-186 | in any text, a dot that ends a number run (a second dot) aborts lexing with an illegal-character error at that dot |
| LexerProperties.SecondDotIsIllegal | chef.py:167-186 | `1.2.3` fails with an illegal-character error for the second dot, whose text is `Illegal Character: '.'` |
| LexerProperties.IdentRunUnique | chef.py:197-199 | the maximal name run from a letter is unique |
| LexerProperties.LexName | chef.py:193-202 | from a letter the first token spans exactly the maximal name run; it is KEYWORD exactly when the name is `ingredient`, INGREDIENT otherwise |
| LexerProperties.LexFailureIsIllegalChar | chef.py:145-171 | every lexing failure is an illegal-character error at a character the main loop does not accept, with that character in quotes and a span of exactly that character; the text before that character lexes; no tokens are returned |
| LexerProperties.FirstForeignCharAborts | chef.py:145-171 | conversely, a character no token can hold, after text that lexes (numbers, floats and names included), aborts lexing with its own error, whatever follows |
| LexerProperties.TokenStartsLex | chef.py:145-174 | a text made only of blanks, ASCII letters, digits and `+ - * / =` always lexes |
| LexerProperties.NewlineIsIllegal | chef.py:167-171 | a newline after text that lexes aborts lexing with an illegal-character error spanning from (k, 0, k) to column 0 of the next line, with text `'\n'` |
| LexerProperties.LexNoNewline | chef.py:145-171 | a text that lexes holds no newline |
| LexerProperties.LexErrorIsWalked | chef.py:132-171 | a failed lex reports the position `advance` reaches at the illegal character, and the one it reaches a character later |
| LexerProperties.LexPositionsAreWalked | chef.py:132-174 | every token start, and every token end but EOF's, is exactly the position `advance` reaches at that index from (-1, 0, -1); EOF's end is one `advance` step past the walk's end |
| LexerProperties.LexTiles | chef.py:142-202 | a successful lex tiles the text: blanks, then a token whose own text decodes to its kind and whose span is exactly that text, and so on, up to the EOF token |
| Parser.Register | chef.py:257-260 | `register` adds the sub-result's count and takes its error when it has one, keeping the caller's node; `ParserProperties.ParseIffFlatten` relies on the counts it sums |
| Parser.Fail | chef.py:266-269 | `failure` always leaves an error; it replaces an existing one only when nothing was consumed, and otherwise returns the result unchanged (`ParserCases.NoExpressionStart`, `ParserCases.DanglingOperator`) |
| Parser.Next | chef.py:280-284 | `advance` moves the current token one forward, except that it stays on the last token (`ParserProperties.ParseIffFlatten`) |
| Parser.Atom | chef.py:297-315 | `atom` succeeds only on an INT, FLOAT or INGREDIENT token and never moves the cursor past the last token |
| Parser.Factor | chef.py:317-328 | `factor` succeeds only where `atom` does; a leading sign is never accepted |
| Parser.BinOp | chef.py:375-392 | `bin_op` succeeds only from an operand token and stays within the tokens |
| Parser.BinOpLoop | chef.py:384-392 | a loop that does not fail yields a node and stays within the tokens |
| Parser.Expr | chef.py:334-372 | `expr` either fails or yields a node, and stays within the tokens |
| Parser.Parse | chef.py:286-294 | `parse` always yields an error or a node |
| ParserProperties.AtomRoundTrip | chef.py:297-309 | a number or name token parses, as a factor, to its leaf, consuming one token |
| ParserProperties.LevelRoundTrip | chef.py:375-392 | a left-leaning chain's tokens, followed by a token that ends it, parse back to exactly that chain |
| ParserProperties.ExprRoundTrip | chef.py:334-372 | an expression's tokens, followed by a token that is not an operator, parse back to exactly that expression, consuming all its tokens |
| ParserProperties.ParseFlatten | chef.py:286-294 | a tree in the grammar's shape, flattened and closed by EOF, parses back to itself |
| ParserProperties.LoopSound | chef.py:384-392 | the loop of `bin_op`, started after a chain matching the tokens before it, ends without error only with a longer chain of its level matching every token consumed, stopped by a token that does not continue it |
| ParserProperties.LevelSound | chef.py:375-392 | a successful `bin_op` yields a chain of that level matching the tokens it consumed, stopped by a token that does not continue it |
| ParserProperties.ExprSound | chef.py:334-372 | a successful `expr` yields a tree in the grammar's shape matching the tokens it consumed, followed by a token that is not an operator |
| ParserProperties.ParseIffFlatten | chef.py:286-392 | over tokens ending with EOF, `parse` yields the tree n without error exactly when n has the grammar's shape and the tokens are n flattened, then EOF |
| ParserProperties.ParseSound | chef.py:286-294 | a successful parse consumes everything up to an EOF token and yields a well-formed tree in the grammar's shape |
| ParserProperties.ShapeIsWellFormed | chef.py:297-309 | trees in the grammar's shape hold tokens of the kinds the evaluator expects |
| ParserProperties.LevelSpan | chef.py:232-239 | a chain spans from its first token's start to its last token's end |
| ParserProperties.ExprSpan | chef.py:224-239 | an expression ends where its last token ends, and an assignment starts at its name token |
| ParserProperties.ParseSpan | chef.py:207-239 | the tree of a successful parse spans from its first token (its name token, for an assignment) to the last token before EOF |
| ParserProperties.ParseErrorKind | chef.py:286-372 | every error the parser reports is an `Invalid Syntax` error |
| ParserCases.SingleAtom | chef.py:297-309 | a lone number or name parses to its leaf |
| ParserCases.SingleOperation | chef.py:375-392 | one operator between two operands parses to one operation node |
| ParserCases.ProductBindsTighter | chef.py:330-392 | `a + b * c` parses as `a + (b * c)` |
| ParserCases.ProductBeforeSum | chef.py:330-392 | `a * b + c` parses as `(a * b) + c` |
| ParserCases.SameLevelFoldsLeft | chef.py:384-392 | two operators of one level fold to the left: `a - b - c` is `(a - b) - c` |
| ParserCases.AssignmentNests | chef.py:338-362 | `ingredient x = ingredient y = v` parses, with the inner assignment as the value of the outer one |
| ParserCases.SimpleAssignment | chef.py:338-362 | `ingredient x = v` parses to an assignment of v to x, consuming four tokens |
| ParserCases.NoExpressionStart | chef.py:364-370 | a line that cannot start an expression (a sign, `=`, `*`, `/`, EOF) reports "Expected 'ingredient', number, '+', '-' or '*'" at the first token, having consumed nothing |
| ParserCases.DanglingOperator | chef.py:257-269 | after an operand and an operator, a missing operand keeps the inner message at the offending token, since a token was consumed |
| ParserCases.MissingName | chef.py:342-346 | `ingredient` not followed by a name reports "Expected ingredient name" at that token |
| ParserCases.MissingEquals | chef.py:352-356 | a name not followed by `=` reports "Expected '='" at that token |
| ParserCases.AssignmentValueError | chef.py:358-361 | an error in an assignment's value is reported unchanged, after the three consumed tokens |
| ParserCases.TrailingToken | chef.py:286-294 | a complete expression followed by a token that is neither an operator nor EOF fails at that token with "Expected '+', '-', '*' or '/'" |
| Values.AddedTo | chef.py:432-434 | the sum is an int exactly when both operands are; its value is the exact sum; it has no span |
| Values.SubbedBy | chef.py:436-438 | the difference is an int exactly when both operands are; its value is the exact difference; it has no span |
| Values.MultedBy | chef.py:440-442 | the product is an int exactly when both operands are; its value is the exact product; it has no span |
| Values.DivedBy | chef.py:444-453 | division fails on a zero divisor, int or float, with "Division by zero" at the divisor's span, and on nothing else the model can express; otherwise it yields a float q with q * divisor = dividend |
| Interpreter.Get | chef.py:486-490 | `get` finds exactly the bound names and returns the stored number, zero included (`InterpreterProperties.AssignThenRead`, `ChefCases.NullIsZero`) |
| Interpreter.Eval | chef.py:513-565 | a result is spanned by the evaluated expression; every error is a runtime error; the table changes only at names the tree assigns and never loses a name |
| InterpreterProperties.AssignThenRead | chef.py:519-543 | after a successful assignment, reading the name gives the assigned value |
| InterpreterProperties.AssignFreeFirstErrorWins | chef.py:519-565 | first error wins in a tree that assigns nothing: list the reads and divisions in visit order (left operand, right operand, then the operation's own division); the evaluation succeeds exactly when none fails (an unbound name, a divisor that is zero), and otherwise reports the error of the first one that fails, with its own span |
| InterpreterProperties.OperationFirstError | chef.py:545-565 | at an operation, the left operand's failure wins over everything after it, the right operand's over the division, and a zero divisor fails last with "Division by zero" spanned by the divisor's expression |
| InterpreterProperties.ParsedFirstErrorWins | chef.py:513-565 | first error wins for every tree the parser builds: an assignment's value is visited before the binding, so `y + 1/0` reports the unbound `y` and `1/0 + y` reports the division by zero |
| InterpreterProperties.ApplyArithmetic | chef.py:553-560 | the operator token picks the arithmetic: `+ - *` stay int on ints and are exact; `/` yields the exact quotient as a float or fails on a zero divisor |
| InterpreterProperties.BinOpArithmetic | chef.py:553-565 | with both operands evaluated, the arithmetic decides the outcome; a result is re-spanned by the whole operation, and a division by zero is reported at the divisor's expression |
| InterpreterProperties.FailureKeepsTable | chef.py:535-565 | in a tree the parser can produce, a failed evaluation leaves the table as it was |
| Chef.Run | chef.py:573-590 | a failing line leaves the table alone; it fails with an illegal character exactly when lexing fails, and with invalid syntax exactly when lexing succeeds and parsing reports an error; a successful line loses no name |
| ChefCases.RunParsed | chef.py:584-590 | a line that lexes and parses evaluates its tree against the table |
| ChefCases.ProductFirst | chef.py:573-590 | `3 + 4 * 2` evaluates to the int 11, spanning the whole line |
| ChefCases.DivisionByZero | chef.py:444-453 | `1 / 0` fails with "Division by zero" spanning the `0` |
| ChefCases.LeadingSign | chef.py:322-326 | `+5` fails at the sign with the message of `expr` |
| ChefCases.EmptyLine | chef.py:364-370 | an empty line fails at EOF with the message of `expr` |
| ChefCases.DanglingPlus | chef.py:311-315 | `5 +` fails at EOF with the message of `atom` |
| ChefCases.Undefined | chef.py:525-530 | `y` fails with "'y' is not defined" spanning the name |
| ChefCases.NullIsZero | chef.py:570-571 | `null` evaluates to the int 0, spanned by the read |
| ChefCases.Assignment | chef.py:535-543 | `ingredient x = 5` returns 5, spanned by the value, and binds x in the table |
| ChefCases.BindingPersists | chef.py:586-588 | after that assignment, `x + 1` evaluates to 6 against the table it left |
| ChefCases.DivisionByZeroText | chef.py:38-54 | a runtime error's text is the traceback header run straight into "Runtime Error: Division by zero" |
| ChefCases.LeadingSignText | chef.py:19-21 | a syntax error's text is "Invalid Syntax: " followed by its details |

## Left out

- Floating point: FLOAT literals and the results of `/` are exact reals. The model does not round in `float(num_str)` or in `/`.
- Values.AddedTo: the sum is exact, without the rounding of IEEE doubles. An int too large for a double added to a float raises OverflowError in Python (a 400-digit int `+ 0.5`); the model yields the exact sum.
- Values.SubbedBy: the difference is exact, without the rounding of IEEE doubles. An int too large for a double meeting a float raises OverflowError in Python; the model yields the exact difference.
- Values.MultedBy: the product is exact, without the rounding of IEEE doubles. An int too large for a double meeting a float raises OverflowError in Python; the model yields the exact product.
- Values.DivedBy: the quotient is exact, without the rounding of IEEE doubles. Python's `/` also raises OverflowError when a quotient or an operand is too large for a double (a 400-digit int `/ 1`). The model yields the exact quotient there, so "fails exactly on a zero divisor" holds only for operands and quotients within double range.
- InterpreterProperties.ApplyArithmetic: it inherits the exact arithmetic above, so its "fails exactly on a zero divisor" has the same OverflowError exception.
- `powed_by`: there is no power token and no parser rule that reaches it.
- The reflective dispatch of `visit`/`no_visit_method`: evaluation is a `match` over a closed node datatype, and `Eval` requires a well-formed tree. The parser only builds such trees (`ParserProperties.ShapeIsWellFormed`).
- `Context`, `set_context`, `Number.context` and the traceback walk: they only feed the traceback, whose body is always empty. A runtime error's text is the constant header followed by the error name and details.
- `Position.fn` and `ftxt`: positions are `(idx, ln, col)` values, so copying and aliasing do not arise. `Number.copy` is value semantics: a read re-spans a copy and never touches the stored entry.
- `SymbolTable.remove` and the `parent` link: `remove` is never called and `parent` is never set. The table is one flat map, and `set` is map update.
- The module-level table: it is a parameter of `Run`, and the table a line leaves behind is returned with the result. The REPL loop that reads lines, and the printing of results, are not part of this model.
- Lexer.MakeNumber: its own contract only states that the lexer moves forward. The token it builds is characterised by `LexerProperties.NumberToken`.
- Lexer.MakeNumber: an INT numeral of more than 4300 digits makes `int(num_str)` raise ValueError in CPython 3.11 and later, and a FLOAT numeral too large for a double reads as `inf`. The model gives the exact value of any numeral.
- Lexer.MakeIngredient: its own contract only states that the lexer moves forward. The token it builds is characterised by `LexerProperties.LexName`.
- Parser.Atom: its own contract only bounds the cursor and ties success to the token's kind. `ParserProperties.AtomRoundTrip` states the result.
- Parser.Factor: its own contract only bounds the cursor and ties success to the token's kind. `ParserProperties.AtomRoundTrip` states the result.
- Parser.BinOp: its own contract only bounds the cursor and says where success can start. `ParserProperties.LevelRoundTrip` and `ParserProperties.LevelSound` state the result.
- Parser.BinOpLoop: its own contract only bounds the cursor. `ParserProperties.LoopSound` states what a loop that does not fail yields, and `ParserProperties.LevelRoundTrip` the converse.
- Parser.Expr: its own contract only bounds the cursor. `ParserProperties.ExprRoundTrip` and `ParserProperties.ExprSound` state the result.
- Parser.Expr: Python's `expr` calls itself once per nested assignment, so a line of several hundred nested `ingredient x =` raises RecursionError. The model has no depth limit.
- Interpreter.Eval: Python's `visit` recurses twice per tree level, so a tree about 500 levels deep raises RecursionError, for example a left-deep chain `1+1+…+1` of about 500 operators. The model has no depth limit and evaluates such trees.
- Parser.Parse: its own contract only says that an error or a node comes back. `ParserProperties.ParseIffFlatten` states the result.
- A parse that ends with an error but keeps a node is modelled exactly. Only `parse`'s trailing-token error (`ParserCases.TrailingToken`) produces one.
