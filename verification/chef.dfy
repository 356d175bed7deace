/** `run`: lex, parse and evaluate one line against a table that persists
    from line to line, stopping at the first error. */
module Chef {
  import opened Wrappers
  import opened Errors
  import opened Lexer
  import opened LexerProperties
  import opened Parser
  import opened ParserProperties
  import opened Values
  import opened Interpreter
  import opened InterpreterProperties

  /** The table every session starts from: `null` is bound to the int 0, with no span. */
  const InitialTable: SymbolTable := map["null" := Number(Int(0), None, None)]

  /** `run`. The table is the one the line leaves behind. An error's kind names
      the stage that stopped the line, and a line that fails leaves the table
      as it found it. */
  function Run(table: SymbolTable, text: string): (o: Outcome)
    ensures o.result.Failure? ==> o.table == table
    ensures (o.result.Failure? && o.result.error.kind == IllegalCharacter) <==> MakeTokens(text).Failure?
    ensures (o.result.Failure? && o.result.error.kind == InvalidSyntax)
        <==> MakeTokens(text).Success? && Parse(MakeTokens(text).value).error.Some?
    ensures o.result.Success? ==> forall x :: x in table ==> x in o.table
  {
    var lexed := MakeTokens(text);
    if lexed.Failure? then
      LexFailureIsIllegalChar(text, 0);
      Outcome(Failure(lexed.error), table)
    else
      var ts := lexed.value;
      var ast := Parse(ts);
      ParseErrorKind(ts);
      if ast.error.Some? then Outcome(Failure(ast.error.value), table)
      else
        ParseSound(ts);
        var o := Eval(ast.node.value, table);
        if o.result.Failure? then
          FailureKeepsTable(ast.node.value, table);
          o
        else o
  }
}
