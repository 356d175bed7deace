/** The lexer (`ChefLexer`): text to tokens, all or nothing. */
module Lexer {
  import opened Wrappers
  import opened Positions
  import opened Errors
  import opened Tokens

  predicate IsDigit(c: char) { '0' <= c <= '9' }

  /** ASCII letters only (Python's `string.ascii_letters`). */
  predicate IsLetter(c: char) { 'a' <= c <= 'z' || 'A' <= c <= 'Z' }

  predicate IsIdentChar(c: char) { IsLetter(c) || IsDigit(c) || c == '_' }

  predicate IsNumberChar(c: char) { IsDigit(c) || c == '.' }

  predicate IsBlank(c: char) { c == ' ' || c == '\t' }

  predicate IsDigits(s: string)
  {
    forall k :: 0 <= k < |s| ==> IsDigit(s[k])
  }

  /** The single-character operators and the token each one makes. */
  function OperatorKind(c: char): Option<TokenKind>
  {
    if c == '+' then Some(PLUS)
    else if c == '-' then Some(MINUS)
    else if c == '*' then Some(MUL)
    else if c == '/' then Some(DIV)
    else if c == '=' then Some(EQ)
    else None
  }

  /** The characters the main loop accepts where a token may begin (blanks are skipped). */
  predicate IsTokenStart(c: char)
  {
    IsBlank(c) || IsDigit(c) || IsLetter(c) || OperatorKind(c).Some?
  }

  function CountDots(s: string): nat
  {
    if |s| == 0 then 0 else (if s[0] == '.' then 1 else 0) + CountDots(s[1..])
  }

  // ---- numbers -------------------------------------------------------------

  function DigitValue(c: char): nat
    requires IsDigit(c)
  {
    c as int - '0' as int
  }

  /** The value of a run of decimal digits (Python's `int(num_str)`). */
  function DigitsValue(s: string): nat
    requires IsDigits(s)
  {
    if |s| == 0 then 0 else DigitsValue(s[..|s| - 1]) * 10 + DigitValue(s[|s| - 1])
  }

  function Pow10(n: nat): (r: nat)
    ensures r >= 1
  {
    if n == 0 then 1 else 10 * Pow10(n - 1)
  }

  /** The index of the first dot of `s`. */
  function DotIndex(s: string): (d: nat)
    requires CountDots(s) >= 1
    ensures d < |s| && s[d] == '.'
    ensures forall k :: 0 <= k < d ==> s[k] != '.'
  {
    if s[0] == '.' then 0 else 1 + DotIndex(s[1..])
  }

  /** A numeral with exactly one dot: digits, a dot, digits. */
  predicate IsDecimal(s: string)
  {
    CountDots(s) == 1 && forall k :: 0 <= k < |s| && s[k] != '.' ==> IsDigit(s[k])
  }

  /** The exact value of a decimal numeral (Python's `float(num_str)`, without rounding). */
  function DecimalValue(s: string): real
    requires IsDecimal(s)
  {
    var d := DotIndex(s);
    DotsAfterFirst(s);
    DigitsValue(s[..d]) as real + DigitsValue(s[d + 1..]) as real / Pow10(|s| - d - 1) as real
  }

  /** Everything after the only dot of a decimal is a digit. */
  lemma {:induction false} DotsAfterFirst(s: string)
    requires IsDecimal(s)
    ensures IsDigits(s[..DotIndex(s)]) && IsDigits(s[DotIndex(s) + 1..])
  {
    var d := DotIndex(s);
    if s[0] == '.' {
      NoDotsLeft(s[1..]);
    } else {
      assert IsDecimal(s[1..]);
      DotsAfterFirst(s[1..]);
      assert s[..d] == [s[0]] + s[1..][..d - 1];
      assert s[d + 1..] == s[1..][d..];
    }
  }

  /** A string without dots holds exactly its non-dot characters. */
  lemma {:induction false} NoDotsLeft(s: string)
    requires CountDots(s) == 0
    ensures forall k :: 0 <= k < |s| ==> s[k] != '.'
  {
    if |s| > 0 {
      NoDotsLeft(s[1..]);
      assert forall k :: 1 <= k < |s| ==> s[k] == s[1..][k - 1];
    }
  }

  /** Scans the number run from `j`, having taken `dots` dots already; stops
      at the first character that is neither a digit nor a dot, or at a second dot.
      Returns the end index and the dot count. */
  function ScanNumber(text: string, j: nat, dots: nat): (r: (nat, nat))
    requires j <= |text| && dots <= 1
    ensures j <= r.0 <= |text| && dots <= r.1 <= 1
    ensures forall k :: j <= k < r.0 ==> IsNumberChar(text[k])
    ensures r.1 == dots + CountDots(text[j..r.0])
    ensures j < |text| && IsDigit(text[j]) ==> r.0 > j
    ensures r.0 == |text| || !IsNumberChar(text[r.0]) || (text[r.0] == '.' && r.1 == 1)
    decreases |text| - j
  {
    if j < |text| && IsNumberChar(text[j]) then
      if text[j] == '.' then
        if dots == 1 then (j, dots)
        else
          var r := ScanNumber(text, j + 1, dots + 1);
          assert text[j..r.0][1..] == text[j + 1..r.0];
          r
      else
        var r := ScanNumber(text, j + 1, dots);
        assert text[j..r.0][1..] == text[j + 1..r.0];
        r
    else (j, dots)
  }

  /** A token and the index the lexer continues from. */
  datatype Scanned = Scanned(token: Token, next: nat)

  /** `make_number`: INT when no dot was taken, FLOAT otherwise; spans the run. */
  function MakeNumber(text: string, i: nat): (s: Scanned)
    requires i < |text| && IsDigit(text[i])
    ensures i < s.next <= |text|
  {
    var (j, dots) := ScanNumber(text, i, 0);
    var numeral := text[i..j];
    if dots == 0 then
      NoDotsLeft(numeral);
      Scanned(Token(INT(DigitsValue(numeral)), At(i), At(j)), j)
    else
      Scanned(Token(FLOAT(DecimalValue(numeral)), At(i), At(j)), j)
  }

  // ---- identifiers ---------------------------------------------------------

  function ScanIdent(text: string, j: nat): (r: nat)
    requires j <= |text|
    ensures j <= r <= |text|
    ensures forall k :: j <= k < r ==> IsIdentChar(text[k])
    ensures r == |text| || !IsIdentChar(text[r])
    decreases |text| - j
  {
    if j < |text| && IsIdentChar(text[j]) then ScanIdent(text, j + 1) else j
  }

  /** `make_ingredient`: a name, or the keyword when it is one. */
  function MakeIngredient(text: string, i: nat): (s: Scanned)
    requires i < |text| && IsLetter(text[i])
    ensures i < s.next <= |text|
  {
    var j := ScanIdent(text, i);
    var word := text[i..j];
    var kind := if word in Keywords then KEYWORD(word) else INGREDIENT(word);
    Scanned(Token(kind, At(i), At(j)), j)
  }

  // ---- the main loop -------------------------------------------------------

  /** The error for an illegal character at index `k`: the character in single
      quotes, spanning exactly that character. */
  function IllegalCharAt(text: string, k: nat): Error
    requires k < |text|
  {
    Error(IllegalCharacter, Some(At(k)), Some(Advance(At(k), Some(text[k]))), "'" + [text[k]] + "'")
  }

  /** `make_tokens` from index `i`. A success ends with the one EOF token at the
      end of the text and holds no other EOF token. */
  function Lex(text: string, i: nat): (r: Result<seq<Token>, Error>)
    requires i <= |text|
    ensures r.Success? ==> |r.value| >= 1
    ensures r.Success? ==> r.value[|r.value| - 1] == TokenAt(EOF, At(|text|))
    ensures r.Success? ==> forall k :: 0 <= k < |r.value| - 1 ==> r.value[k].kind != EOF
    decreases |text| - i
  {
    if i == |text| then Success([TokenAt(EOF, At(i))])
    else
      var c := text[i];
      if IsBlank(c) then Lex(text, i + 1)
      else if IsDigit(c) then
        var s := MakeNumber(text, i);
        var rest :- Lex(text, s.next);
        Success([s.token] + rest)
      else if IsLetter(c) then
        var s := MakeIngredient(text, i);
        var rest :- Lex(text, s.next);
        Success([s.token] + rest)
      else if OperatorKind(c).Some? then
        var rest :- Lex(text, i + 1);
        Success([TokenAt(OperatorKind(c).value, At(i))] + rest)
      else
        Failure(IllegalCharAt(text, i))
  }

  function MakeTokens(text: string): Result<seq<Token>, Error>
  {
    Lex(text, 0)
  }
}
