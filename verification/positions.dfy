/** Source positions: an index, a line and a column, advanced one character at a time. */
module Positions {
  import opened Wrappers

  datatype Position = Position(idx: int, ln: int, col: int)

  /** The position a fresh lexer starts from, one before the first character. */
  const Initial: Position := Position(-1, 0, -1)

  /** Move past the current character; a newline starts a new line at column 0.
      `None` stands for "no current character" (Python's default argument). */
  function Advance(p: Position, current: Option<char>): Position
  {
    if current == Some('\n') then Position(p.idx + 1, p.ln + 1, 0)
    else Position(p.idx + 1, p.ln, p.col + 1)
  }

  /** The position of index `i` on a first line that holds no newline. */
  function At(i: int): Position
  {
    Position(i, 0, i)
  }

  /** The position reached from `Initial` by the lexer's first advance and then
      one advance per character of `text[..n]`. */
  function Walk(text: string, n: nat): Position
    requires n <= |text|
  {
    if n == 0 then Advance(Initial, None)
    else Advance(Walk(text, n - 1), Some(text[n - 1]))
  }

  /** One past the last newline of `s`, or 0 when it holds none: the index
      where the line holding the end of `s` begins. */
  function LineStart(s: string): (b: nat)
    ensures b <= |s|
    ensures b == 0 || s[b - 1] == '\n'
    ensures forall k :: b <= k < |s| ==> s[k] != '\n'
  {
    if |s| == 0 then 0
    else if s[|s| - 1] == '\n' then |s|
    else LineStart(s[..|s| - 1])
  }

  /** The scanning position in closed form: after `n` characters the index is
      `n`, the line is the number of newlines passed, and the column counts the
      characters since the last newline (since the start when there is none). */
  lemma {:induction false} WalkClosedForm(text: string, n: nat)
    requires n <= |text|
    ensures Walk(text, n) == Position(n, multiset(text[..n])['\n'], n - LineStart(text[..n]))
  {
    if n > 0 {
      WalkClosedForm(text, n - 1);
      assert text[..n] == text[..n - 1] + [text[n - 1]];
      assert text[..n][..n - 1] == text[..n - 1];
    }
  }

  /** While no newline has been passed, the scanning position at index `n` is
      line 0, column `n`. This is why the lexer can compute positions from indices. */
  lemma {:induction false} WalkWithoutNewline(text: string, n: nat)
    requires n <= |text|
    requires forall k :: 0 <= k < n ==> text[k] != '\n'
    ensures Walk(text, n) == At(n)
  {
    if n > 0 {
      WalkWithoutNewline(text, n - 1);
    }
  }
}
