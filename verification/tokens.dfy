/** Tokens: a kind (carrying the literal value or name where there is one) and a span. */
module Tokens {
  import opened Wrappers
  import opened Positions

  datatype TokenKind =
    | INT(intValue: int)
    | FLOAT(floatValue: real)
    | INGREDIENT(name: string)
    | KEYWORD(word: string)
    | PLUS | MINUS | MUL | DIV | EQ | EOF

  datatype Token = Token(kind: TokenKind, start: Position, end: Position)

  /** A token built from its start position alone ends one character later. */
  function TokenAt(kind: TokenKind, start: Position): (t: Token)
    ensures t.end.idx == start.idx + 1 && t.end.ln == start.ln && t.end.col == start.col + 1
  {
    Token(kind, start, Advance(start, None))
  }

  /** The one keyword of the language. */
  const IngredientKeyword: string := "ingredient"

  const Keywords: seq<string> := [IngredientKeyword]
}
