/** What the lexer promises: maximal munch for numbers and names, the
    first illegal character aborts, and every token decodes its own text. */
module LexerProperties {
  import opened Wrappers
  import opened Positions
  import opened Errors
  import opened Tokens
  import opened Lexer

  // ---- numbers -------------------------------------------------------------

  /** `text[i..j]` is the longest run of digits and dots from the digit at `i`
      that holds at most one dot. */
  predicate IsNumberRun(text: string, i: nat, j: nat)
  {
    && i < j <= |text|
    && IsDigit(text[i])
    && (forall k :: i <= k < j ==> IsNumberChar(text[k]))
    && CountDots(text[i..j]) <= 1
    && (j == |text| || !IsNumberChar(text[j]) || (text[j] == '.' && CountDots(text[i..j]) == 1))
  }

  lemma {:induction false} CountDotsConcat(a: string, b: string)
    ensures CountDots(a + b) == CountDots(a) + CountDots(b)
  {
    if |a| > 0 {
      assert (a + b)[1..] == a[1..] + b;
      CountDotsConcat(a[1..], b);
    } else {
      assert a + b == b;
    }
  }

  /** A string holds a dot exactly when its dot count is positive. */
  lemma {:induction false} DotsCounted(s: string)
    ensures '.' in s <==> CountDots(s) > 0
  {
    if |s| > 0 {
      DotsCounted(s[1..]);
      assert s == [s[0]] + s[1..];
    }
  }

  /** There is only one such run. */
  lemma NumberRunUnique(text: string, i: nat, j1: nat, j2: nat)
    requires IsNumberRun(text, i, j1) && IsNumberRun(text, i, j2)
    ensures j1 == j2
  {
    if j1 < j2 {
      DotsBeyondRun(text, i, j1, j2);
      assert false;
    } else if j2 < j1 {
      DotsBeyondRun(text, i, j2, j1);
      assert false;
    }
  }

  /** A run that reaches past a shorter run's end contains that run's dots plus the next dot. */
  lemma DotsBeyondRun(text: string, i: nat, j1: nat, j2: nat)
    requires i < j1 < j2 <= |text|
    ensures CountDots(text[i..j2]) >= CountDots(text[i..j1]) + (if text[j1] == '.' then 1 else 0)
  {
    assert text[i..j2] == text[i..j1] + [text[j1]] + text[j1 + 1..j2];
    CountDotsConcat(text[i..j1] + [text[j1]], text[j1 + 1..j2]);
    CountDotsConcat(text[i..j1], [text[j1]]);
  }

  /** The value a numeral denotes: INT without a dot, FLOAT with one. */
  function NumeralKind(s: string): TokenKind
    requires |s| > 0 && CountDots(s) <= 1
    requires forall k :: 0 <= k < |s| ==> IsNumberChar(s[k])
  {
    if CountDots(s) == 0 then
      NoDotsLeft(s);
      assert IsDigits(s) by {
        forall k | 0 <= k < |s| ensures IsDigit(s[k]) {
          assert IsNumberChar(s[k]) && s[k] != '.';
        }
      }
      INT(DigitsValue(s))
    else
      assert IsDecimal(s) by {
        forall k | 0 <= k < |s| && s[k] != '.' ensures IsDigit(s[k]) {
          assert IsNumberChar(s[k]);
        }
      }
      FLOAT(DecimalValue(s))
  }

  /** From a digit, the lexer emits one number token spanning exactly the
      maximal run; it is FLOAT exactly when the run holds a dot. */
  lemma LexNumber(text: string, i: nat)
    requires i < |text| && IsDigit(text[i])
    requires Lex(text, i).Success?
    ensures IsNumberRun(text, i, MakeNumber(text, i).next)
    ensures var j := MakeNumber(text, i).next;
      Lex(text, i).value[0] == Token(NumeralKind(text[i..j]), At(i), At(j))
    ensures var j := MakeNumber(text, i).next;
      Lex(text, i).value[0].kind.FLOAT? <==> '.' in text[i..j]
  {
    var j := MakeNumber(text, i).next;
    NumberToken(text, i);
    DotsCounted(text[i..j]);
  }

  /** The token `make_number` builds is the numeral of the maximal run. */
  lemma NumberToken(text: string, i: nat)
    requires i < |text| && IsDigit(text[i])
    ensures IsNumberRun(text, i, MakeNumber(text, i).next)
    ensures var j := MakeNumber(text, i).next;
      MakeNumber(text, i).token == Token(NumeralKind(text[i..j]), At(i), At(j))
  {
  }

  /** A second dot ends the number and is then an illegal character. */
  lemma SecondDotIsIllegal()
    ensures MakeTokens("1.2.3") == Failure(IllegalCharAt("1.2.3", 3))
    ensures AsString(MakeTokens("1.2.3").error) == "Illegal Character: '.'"
  {
    var t := "1.2.3";
    assert ScanNumber(t, 3, 1) == (3, 1);
    assert ScanNumber(t, 2, 1) == (3, 1);
    assert ScanNumber(t, 1, 0) == (3, 1);
    assert ScanNumber(t, 0, 0) == (3, 1);
    assert MakeNumber(t, 0).next == 3;
  }

  /** In any text, a dot that ends a number run (so a second dot) aborts the
      lex with an illegal-character error at that dot. */
  lemma SecondDotAborts(text: string, i: nat, j: nat)
    requires IsNumberRun(text, i, j) && j < |text| && text[j] == '.'
    ensures Lex(text, i) == Failure(IllegalCharAt(text, j))
  {
    NumberToken(text, i);
    NumberRunUnique(text, i, MakeNumber(text, i).next, j);
    assert Lex(text, j) == Failure(IllegalCharAt(text, j));
  }

  // ---- names and the keyword -------------------------------------------------

  /** `text[i..j]` is the longest run of letters, digits and `_` from the letter at `i`. */
  predicate IsIdentRun(text: string, i: nat, j: nat)
  {
    && i < j <= |text|
    && IsLetter(text[i])
    && (forall k :: i <= k < j ==> IsIdentChar(text[k]))
    && (j == |text| || !IsIdentChar(text[j]))
  }

  lemma IdentRunUnique(text: string, i: nat, j1: nat, j2: nat)
    requires IsIdentRun(text, i, j1) && IsIdentRun(text, i, j2)
    ensures j1 == j2
  {
  }

  /** From a letter, the lexer emits one token for the maximal name run; it is
      KEYWORD exactly when the name is `ingredient`, INGREDIENT otherwise. */
  lemma LexName(text: string, i: nat)
    requires i < |text| && IsLetter(text[i])
    requires Lex(text, i).Success?
    ensures IsIdentRun(text, i, MakeIngredient(text, i).next)
    ensures var j := MakeIngredient(text, i).next;
      var t := Lex(text, i).value[0];
      && t.start == At(i) && t.end == At(j)
      && (t.kind == KEYWORD(text[i..j]) <==> text[i..j] == "ingredient")
      && (t.kind == INGREDIENT(text[i..j]) <==> text[i..j] != "ingredient")
  {
  }

  // ---- illegal characters ------------------------------------------------------

  /** A character that no token can start with or contain. */
  predicate IsForeign(c: char)
  {
    !IsTokenStart(c) && c != '.' && c != '_'
  }

  // ---- failures ------------------------------------------------------------

  /** Scanning a number from `j` gives the same run in `text` and in any prefix
      of it that still holds the whole run. */
  lemma {:induction false} ScanNumberPrefix(text: string, k: nat, j: nat, dots: nat)
    requires j <= k <= |text| && dots <= 1
    requires ScanNumber(text, j, dots).0 <= k
    ensures ScanNumber(text[..k], j, dots) == ScanNumber(text, j, dots)
    decreases k - j
  {
    if j < k {
      assert text[..k][j] == text[j];
      if IsNumberChar(text[j]) {
        if text[j] != '.' {
          ScanNumberPrefix(text, k, j + 1, dots);
        } else if dots == 0 {
          ScanNumberPrefix(text, k, j + 1, 1);
        }
      }
    }
  }

  /** Scanning a name from `j` gives the same run in `text` and in any prefix
      of it that still holds the whole run. */
  lemma {:induction false} ScanIdentPrefix(text: string, k: nat, j: nat)
    requires j <= k <= |text|
    requires ScanIdent(text, j) <= k
    ensures ScanIdent(text[..k], j) == ScanIdent(text, j)
    decreases k - j
  {
    if j < k {
      assert text[..k][j] == text[j];
      if IsIdentChar(text[j]) {
        ScanIdentPrefix(text, k, j + 1);
      }
    }
  }

  /** `make_number` builds the same token from a prefix that holds the whole number. */
  lemma MakeNumberPrefix(text: string, k: nat, i: nat)
    requires i < k <= |text| && IsDigit(text[i])
    requires MakeNumber(text, i).next <= k
    ensures MakeNumber(text[..k], i) == MakeNumber(text, i)
  {
    ScanNumberPrefix(text, k, i, 0);
    var j := MakeNumber(text, i).next;
    assert text[..k][i..j] == text[i..j];
  }

  /** `make_ingredient` builds the same token from a prefix that holds the whole name. */
  lemma MakeIngredientPrefix(text: string, k: nat, i: nat)
    requires i < k <= |text| && IsLetter(text[i])
    requires MakeIngredient(text, i).next <= k
    ensures MakeIngredient(text[..k], i) == MakeIngredient(text, i)
  {
    ScanIdentPrefix(text, k, i);
    var j := MakeIngredient(text, i).next;
    assert text[..k][i..j] == text[i..j];
  }

  /** Lexing from `i` stops at the illegal character at `k`, and the text
      before that character lexes. */
  predicate AbortsAt(text: string, i: nat, k: nat)
  {
    && i <= k < |text|
    && !IsTokenStart(text[k])
    && Lex(text[..k], i).Success?
    && Lex(text, i) == Failure(IllegalCharAt(text, k))
  }

  /** Every failure is an illegal-character error at a character the main loop
      does not accept, with that character in quotes and a one-character span;
      the text before that character lexes. */
  lemma {:induction false} LexFailureIsIllegalChar(text: string, i: nat)
    requires i <= |text|
    requires Lex(text, i).Failure?
    ensures exists k :: AbortsAt(text, i, k)
    decreases |text| - i, 1
  {
    var c := text[i];
    if IsBlank(c) {
      LexFailureIsIllegalChar(text, i + 1);
      var k: nat :| AbortsAt(text, i + 1, k);
      assert text[..k][i] == c;
      assert AbortsAt(text, i, k);
    } else if IsDigit(c) {
      FailureAfterNumber(text, i);
    } else if IsLetter(c) {
      FailureAfterName(text, i);
    } else if OperatorKind(c).Some? {
      LexFailureIsIllegalChar(text, i + 1);
      var k: nat :| AbortsAt(text, i + 1, k);
      assert text[..k][i] == c;
      assert AbortsAt(text, i, k);
    } else {
      assert Lex(text, i).error == IllegalCharAt(text, i);
      assert Lex(text[..i], i).Success?;
      assert AbortsAt(text, i, i);
    }
  }

  /** The case of `LexFailureIsIllegalChar` at a number. */
  lemma {:induction false} FailureAfterNumber(text: string, i: nat)
    requires i < |text| && IsDigit(text[i])
    requires Lex(text, i).Failure?
    ensures exists k :: AbortsAt(text, i, k)
    decreases |text| - i, 0
  {
    var j := MakeNumber(text, i).next;
    LexFailureIsIllegalChar(text, j);
    var k: nat :| AbortsAt(text, j, k);
    MakeNumberPrefix(text, k, i);
    assert text[..k][i] == text[i];
    assert AbortsAt(text, i, k);
  }

  /** The case of `LexFailureIsIllegalChar` at a name. */
  lemma {:induction false} FailureAfterName(text: string, i: nat)
    requires i < |text| && IsLetter(text[i])
    requires Lex(text, i).Failure?
    ensures exists k :: AbortsAt(text, i, k)
    decreases |text| - i, 0
  {
    var j := MakeIngredient(text, i).next;
    LexFailureIsIllegalChar(text, j);
    var k: nat :| AbortsAt(text, j, k);
    MakeIngredientPrefix(text, k, i);
    assert text[..k][i] == text[i];
    assert AbortsAt(text, i, k);
  }

  /** The converse: when the text before it lexes, a character that no token
      can hold aborts lexing with its own error, whatever follows it. */
  lemma {:induction false} FirstForeignCharAborts(text: string, i: nat, k: nat)
    requires i <= k < |text|
    requires Lex(text[..k], i).Success?
    requires IsForeign(text[k])
    ensures Lex(text, i) == Failure(IllegalCharAt(text, k))
    decreases k - i, 1
  {
    if i < k {
      var c := text[i];
      assert text[..k][i] == c;
      if IsDigit(c) {
        ForeignCharAfterNumber(text, i, k);
      } else if IsLetter(c) {
        ForeignCharAfterName(text, i, k);
      } else {
        FirstForeignCharAborts(text, i + 1, k);
      }
    }
  }

  /** The case of `FirstForeignCharAborts` at a number: the number stops at
      the foreign character at the latest. */
  lemma {:induction false} ForeignCharAfterNumber(text: string, i: nat, k: nat)
    requires i < k < |text| && IsDigit(text[i])
    requires Lex(text[..k], i).Success?
    requires IsForeign(text[k])
    ensures Lex(text, i) == Failure(IllegalCharAt(text, k))
    decreases k - i, 0
  {
    var j := MakeNumber(text, i).next;
    assert !IsNumberChar(text[k]);
    assert j <= k;
    MakeNumberPrefix(text, k, i);
    assert text[..k][i] == text[i];
    FirstForeignCharAborts(text, j, k);
  }

  /** The case of `FirstForeignCharAborts` at a name. */
  lemma {:induction false} ForeignCharAfterName(text: string, i: nat, k: nat)
    requires i < k < |text| && IsLetter(text[i])
    requires Lex(text[..k], i).Success?
    requires IsForeign(text[k])
    ensures Lex(text, i) == Failure(IllegalCharAt(text, k))
    decreases k - i, 0
  {
    var j := MakeIngredient(text, i).next;
    assert !IsIdentChar(text[k]);
    assert j <= k;
    MakeIngredientPrefix(text, k, i);
    assert text[..k][i] == text[i];
    FirstForeignCharAborts(text, j, k);
  }

  /** A text made only of characters that can start a token always lexes. */
  lemma {:induction false} TokenStartsLex(text: string, i: nat)
    requires i <= |text|
    requires forall m :: i <= m < |text| ==> IsTokenStart(text[m])
    ensures Lex(text, i).Success?
    decreases |text| - i
  {
    if i < |text| {
      var c := text[i];
      if IsBlank(c) {
        TokenStartsLex(text, i + 1);
      } else if IsDigit(c) {
        TokenStartsLex(text, MakeNumber(text, i).next);
      } else if IsLetter(c) {
        TokenStartsLex(text, MakeIngredient(text, i).next);
      } else {
        TokenStartsLex(text, i + 1);
      }
    }
  }

  /** A newline is illegal too: when the text before it lexes, it aborts the
      lex, and its error span ends at column 0 of the next line. */
  lemma NewlineIsIllegal(text: string, k: nat)
    requires k < |text| && text[k] == '\n'
    requires Lex(text[..k], 0).Success?
    ensures MakeTokens(text) == Failure(Error(IllegalCharacter, Some(At(k)), Some(Position(k + 1, 1, 0)), "'\n'"))
  {
    FirstForeignCharAborts(text, 0, k);
    assert [text[k]] == "\n";
    assert IllegalCharAt(text, k).details == "'\n'";
  }

  // ---- every token decodes its own text ------------------------------------------

  /** What a lexeme denotes, read independently of the scanning loop. */
  function LexemeKind(s: string): Option<TokenKind>
  {
    if |s| == 1 && OperatorKind(s[0]).Some? then OperatorKind(s[0])
    else if |s| > 0 && IsLetter(s[0]) && (forall k :: 0 <= k < |s| ==> IsIdentChar(s[k])) then
      Some(if s == "ingredient" then KEYWORD(s) else INGREDIENT(s))
    else if |s| > 0 && IsDigit(s[0]) && CountDots(s) <= 1 && (forall k :: 0 <= k < |s| ==> IsNumberChar(s[k])) then
      Some(NumeralKind(s))
    else None
  }

  predicate AllBlank(s: string)
  {
    forall k :: 0 <= k < |s| ==> IsBlank(s[k])
  }

  /** `ts` tiles `text[i..]`: blanks, then a token whose text decodes to its
      kind, and so on, ending with the EOF token at the end of the text. */
  predicate Tiles(text: string, i: nat, ts: seq<Token>)
    requires i <= |text|
    decreases |ts|
  {
    && |ts| >= 1
    && var s := ts[0].start.idx;
    && i <= s <= |text|
    && ts[0].start == At(s)
    && AllBlank(text[i..s])
    && if |ts| == 1 then ts[0] == TokenAt(EOF, At(|text|))
       else
         var e := ts[0].end.idx;
         && s < e <= |text|
         && ts[0].end == At(e)
         && LexemeKind(text[s..e]) == Some(ts[0].kind)
         && Tiles(text, e, ts[1..])
  }

  /** One token followed by a tiling of the rest tiles from its start. */
  lemma TilesCons(text: string, i: nat, t: Token, rest: seq<Token>)
    requires i < t.end.idx <= |text|
    requires t.start == At(i) && t.end == At(t.end.idx)
    requires LexemeKind(text[i..t.end.idx]) == Some(t.kind)
    requires Tiles(text, t.end.idx, rest)
    ensures Tiles(text, i, [t] + rest)
  {
    assert ([t] + rest)[1..] == rest;
    assert text[i..i] == [];
  }

  /** A blank may be put in front of a tiling. */
  lemma TilesBlank(text: string, i: nat, ts: seq<Token>)
    requires i < |text| && IsBlank(text[i])
    requires Tiles(text, i + 1, ts)
    ensures Tiles(text, i, ts)
  {
    var s := ts[0].start.idx;
    assert text[i..s] == [text[i]] + text[i + 1..s];
  }

  lemma NumberLexeme(text: string, i: nat)
    requires i < |text| && IsDigit(text[i])
    ensures var sc := MakeNumber(text, i);
      LexemeKind(text[i..sc.next]) == Some(sc.token.kind)
  {
    NumberToken(text, i);
  }

  lemma NameLexeme(text: string, i: nat)
    requires i < |text| && IsLetter(text[i])
    ensures var sc := MakeIngredient(text, i);
      LexemeKind(text[i..sc.next]) == Some(sc.token.kind)
  {
  }

  /** A successful lex tiles the whole text. */
  lemma {:induction false} LexTiles(text: string, i: nat)
    requires i <= |text|
    requires Lex(text, i).Success?
    ensures Tiles(text, i, Lex(text, i).value)
    decreases |text| - i, 1
  {
    if i == |text| {
      assert text[i..i] == [];
    } else {
      var c := text[i];
      if IsBlank(c) {
        LexTiles(text, i + 1);
        TilesBlank(text, i, Lex(text, i + 1).value);
      } else if IsDigit(c) {
        NumberTiles(text, i);
      } else if IsLetter(c) {
        NameTiles(text, i);
      } else {
        LexTiles(text, i + 1);
        assert text[i..i + 1] == [c];
        TilesCons(text, i, TokenAt(OperatorKind(c).value, At(i)), Lex(text, i + 1).value);
      }
    }
  }

  /** The case of `LexTiles` at a number. */
  lemma {:induction false} NumberTiles(text: string, i: nat)
    requires i < |text| && IsDigit(text[i])
    requires Lex(text, i).Success?
    ensures Tiles(text, i, Lex(text, i).value)
    decreases |text| - i, 0
  {
    var sc := MakeNumber(text, i);
    LexTiles(text, sc.next);
    NumberLexeme(text, i);
    TilesCons(text, i, sc.token, Lex(text, sc.next).value);
  }

  /** The case of `LexTiles` at a name or the keyword. */
  lemma {:induction false} NameTiles(text: string, i: nat)
    requires i < |text| && IsLetter(text[i])
    requires Lex(text, i).Success?
    ensures Tiles(text, i, Lex(text, i).value)
    decreases |text| - i, 0
  {
    var sc := MakeIngredient(text, i);
    LexTiles(text, sc.next);
    NameLexeme(text, i);
    TilesCons(text, i, sc.token, Lex(text, sc.next).value);
  }

  // ---- positions -----------------------------------------------------------

  /** A text that lexes holds no newline from the starting index on. */
  lemma {:induction false} LexNoNewline(text: string, i: nat)
    requires i <= |text|
    requires Lex(text, i).Success?
    ensures forall k :: i <= k < |text| ==> text[k] != '\n'
    decreases |text| - i
  {
    if i < |text| {
      var c := text[i];
      if IsDigit(c) {
        LexNoNewline(text, MakeNumber(text, i).next);
      } else if IsLetter(c) {
        LexNoNewline(text, MakeIngredient(text, i).next);
      } else {
        LexNoNewline(text, i + 1);
      }
    }
  }

  /** The positions of a tiling: every start, and every end but the EOF
      token's, is `At` of an index inside the tiled text. */
  lemma {:induction false} TilesPositions(text: string, i: nat, ts: seq<Token>)
    requires i <= |text|
    requires Tiles(text, i, ts)
    ensures forall k :: 0 <= k < |ts| ==> i <= ts[k].start.idx <= |text| && ts[k].start == At(ts[k].start.idx)
    ensures forall k :: 0 <= k < |ts| - 1 ==> i <= ts[k].end.idx <= |text| && ts[k].end == At(ts[k].end.idx)
    decreases |ts|
  {
    if |ts| > 1 {
      TilesPositions(text, ts[0].end.idx, ts[1..]);
      assert forall k :: 1 <= k < |ts| ==> ts[k] == ts[1..][k - 1];
    }
  }

  /** The lexer writes positions as `At(index)`, yet they are exactly the
      positions `advance` reaches: for every token of a successful lex, its
      start, and its end unless it is the EOF token, is the scanning position
      at that index. */
  lemma LexPositionsAreWalked(text: string)
    requires MakeTokens(text).Success?
    ensures var ts := MakeTokens(text).value;
      forall k :: 0 <= k < |ts| ==> 0 <= ts[k].start.idx <= |text| && ts[k].start == Walk(text, ts[k].start.idx)
    ensures var ts := MakeTokens(text).value;
      forall k :: 0 <= k < |ts| - 1 ==> 0 <= ts[k].end.idx <= |text| && ts[k].end == Walk(text, ts[k].end.idx)
    ensures var ts := MakeTokens(text).value;
      |ts| > 0 && ts[|ts| - 1].end == Advance(Walk(text, |text|), None)
  {
    var ts := MakeTokens(text).value;
    EofEndIsWalked(text);
    LexNoNewline(text, 0);
    LexTiles(text, 0);
    TilesPositions(text, 0, ts);
    forall n: nat | n <= |text|
      ensures Walk(text, n) == At(n)
    {
      WalkWithoutNewline(text, n);
    }
  }

  /** The end of the EOF token of a successful lex is one `advance` step past
      the position the walk reaches at the end of the text. */
  lemma EofEndIsWalked(text: string)
    requires MakeTokens(text).Success?
    ensures var ts := MakeTokens(text).value;
      |ts| > 0 && ts[|ts| - 1].end == Advance(Walk(text, |text|), None)
  {
    LexNoNewline(text, 0);
    WalkWithoutNewline(text, |text|);
  }

  /** A failed lex reports positions `advance` reaches too: the error starts
      at the scanning position of the illegal character and ends one character on. */
  lemma LexErrorIsWalked(text: string)
    requires MakeTokens(text).Failure?
    ensures var e := MakeTokens(text).error;
      && e.start.Some? && e.end.Some?
      && 0 <= e.start.value.idx < |text|
      && e.start.value == Walk(text, e.start.value.idx)
      && e.end.value == Walk(text, e.start.value.idx + 1)
  {
    LexFailureIsIllegalChar(text, 0);
    var k: nat :| AbortsAt(text, 0, k);
    LexNoNewline(text[..k], 0);
    assert forall m :: 0 <= m < k ==> text[m] == text[..k][m];
    WalkWithoutNewline(text, k);
  }
}
