/** What the lexer promises about the tokens it produces and the errors it reports. */
module LexerProps {
  import opened Tokens
  import opened LexerSpec

  /**
   * The tokens are pieces of the input, in order and without overlap, all before
   * `bound`: each is non-empty, its literal is the input from its offset on, and it
   * starts neither with whitespace nor with a line terminator.
   */
  ghost predicate Tiles(s: string, ts: seq<Token>, bound: nat) {
    bound <= |s|
    && (forall k :: 0 <= k < |ts| ==>
          0 <= ts[k].index && ts[k].index + |ts[k].literal| <= bound
          && |ts[k].literal| > 0
          && ts[k].literal == s[ts[k].index..ts[k].index + |ts[k].literal|]
          && !Matches(Whitespace, ts[k].literal[0]) && !IsLineTerminator(ts[k].literal[0]))
    && (forall k :: 0 < k < |ts| ==> ts[k - 1].index + |ts[k - 1].literal| <= ts[k].index)
  }

  lemma {:induction false} LexFromTiles(s: string, i: nat, acc: seq<Token>)
    requires i <= |s| && Tiles(s, acc, i)
    ensures LexFrom(s, i, acc).Ok? ==> Tiles(s, LexFrom(s, i, acc).value, |s|)
    decreases |s| - i, 1
  {
    if !PeekAt(s, i, [AnyButLineTerminator]) {
      assert LexFrom(s, i, acc) == Ok(acc);
    } else if PeekAt(s, i, [Whitespace]) {
      WhitespaceTiles(s, i, acc);
    } else {
      TokenTiles(s, i, acc);
    }
  }

  /** The step of LexFromTiles that skips a whitespace character. */
  lemma {:induction false} WhitespaceTiles(s: string, i: nat, acc: seq<Token>)
    requires i <= |s| && Tiles(s, acc, i)
    requires PeekAt(s, i, [AnyButLineTerminator]) && PeekAt(s, i, [Whitespace])
    ensures LexFrom(s, i, acc).Ok? ==> Tiles(s, LexFrom(s, i, acc).value, |s|)
    decreases |s| - i, 0
  {
    assert LexFrom(s, i, acc) == LexFrom(s, i + 1, acc);
    LexFromTiles(s, i + 1, acc);
  }

  /** The step of LexFromTiles that reads a token. */
  lemma {:induction false} TokenTiles(s: string, i: nat, acc: seq<Token>)
    requires i <= |s| && Tiles(s, acc, i)
    requires PeekAt(s, i, [AnyButLineTerminator]) && !PeekAt(s, i, [Whitespace])
    ensures LexFrom(s, i, acc).Ok? ==> Tiles(s, LexFrom(s, i, acc).value, |s|)
    decreases |s| - i, 0
  {
    match LexToken(s, i)
    case Failed(_) =>
    case Scanned(t, next) =>
      assert t.literal == s[i..next] && |t.literal| > 0;
      assert t.literal[0] == s[i];
      TilesExtend(s, acc, t, next);
      LexFromTiles(s, next, acc + [t]);
  }

  /** A token read at the bound of the tiles so far extends them. */
  lemma TilesExtend(s: string, acc: seq<Token>, t: Token, next: nat)
    requires 0 <= t.index && Tiles(s, acc, t.index) && t.index + |t.literal| == next <= |s| && |t.literal| > 0
    requires t.literal == s[t.index..next]
    requires !Matches(Whitespace, t.literal[0]) && !IsLineTerminator(t.literal[0])
    ensures Tiles(s, acc + [t], next)
  {
    var acc' := acc + [t];
    forall k | 0 < k < |acc'|
      ensures acc'[k - 1].index + |acc'[k - 1].literal| <= acc'[k].index
    {
      if k < |acc| {
        assert acc'[k - 1] == acc[k - 1] && acc'[k] == acc[k];
      }
    }
  }

  /**
   * lex returns the input's own text, token by token: every literal is the input at
   * its offset, no token is empty or starts with whitespace, and the offsets strictly
   * increase.
   */
  lemma LexTiles(s: string)
    ensures Lex(s).Ok? ==> Tiles(s, Lex(s).value, |s|)
    ensures Lex(s).Ok? ==> forall k :: 0 < k < |Lex(s).value| ==> Lex(s).value[k - 1].index < Lex(s).value[k].index
  {
    LexFromTiles(s, 0, []);
  }

  /** A line feed or carriage return at position j. */
  predicate NewlineAt(s: string, j: nat) {
    j < |s| && (s[j] == '\n' || s[j] == '\r')
  }

  lemma {:induction false} RunStopsAtNewline(s: string, i: nat, p: Pattern, j: nat)
    requires i <= j && NewlineAt(s, j) && !Matches(p, s[j])
    ensures Run(s, i, p) <= j
    decreases j - i
  {
    if i < j && PeekAt(s, i, [p]) {
      RunStopsAtNewline(s, i + 1, p, j);
    }
  }

  lemma {:induction false} StringContentStopsAtNewline(s: string, i: nat, j: nat)
    requires i <= j && NewlineAt(s, j)
    ensures StringContent(s, i).Next? ==> StringContent(s, i).pos <= j
    decreases |s| - i
  {
    if PeekAt(s, i, [StringBody]) {
      if PeekAt(s, i, [Is('\\')]) {
        if LexEscape(s, i).Next? {
          StringContentStopsAtNewline(s, i + 2, j);
        }
      } else if PeekAt(s, i, [AnyButLineTerminator]) {
        StringContentStopsAtNewline(s, i + 1, j);
      }
    }
  }

  lemma NumberStopsAtNewline(s: string, i: nat, j: nat)
    requires i <= j && NewlineAt(s, j)
    ensures LexNumber(s, i).next <= j
  {
    if PeekAt(s, i, [Sign, Digit]) {
      var x := i + 2;
      if !(PeekAt(s, x, [Is('0')]) && PeekAt(s, x + 1, [Is('.'), Digit])) {
        NumberTailStopsAtNewline(s, i, if PeekAt(s, x, [Is('0')]) then x + 1 else x, j);
      }
    } else if PeekAt(s, i, [Is('0')]) {
      if PeekAt(s, i + 1, [Is('.'), Digit]) {
        RunStopsAtNewline(s, i + 2, Digit, j);
      }
    } else {
      NumberTailStopsAtNewline(s, i, i, j);
    }
  }

  lemma NumberTailStopsAtNewline(s: string, start: nat, x: nat, j: nat)
    requires start <= x <= j && NewlineAt(s, j)
    ensures NumberTail(s, start, x).next <= j
  {
    RunStopsAtNewline(s, x, Digit, j);
    var k := Run(s, x, Digit);
    if PeekAt(s, k, [Is('.'), Digit]) {
      RunStopsAtNewline(s, k + 2, Digit, j);
    }
  }

  lemma StringStopsAtNewline(s: string, i: nat, j: nat)
    requires i <= j && NewlineAt(s, j)
    ensures LexString(s, i).Scanned? ==> LexString(s, i).next <= j
  {
    var triple := PeekAt(s, i, [Is('"'), Is('"'), Is('"')]);
    if triple || PeekAt(s, i, [Is('"')]) {
      var start := if triple then i + 3 else i + 1;
      assert start <= j;
      StringContentStopsAtNewline(s, start, j);
      match StringContent(s, start)
      case Stop(_) =>
      case Next(k) =>
        assert k <= j;
        assert PeekAt(s, k, [Is('"'), Is('"'), Is('"')]) ==> k + 3 <= j;
        assert PeekAt(s, k, [Is('"')]) ==> k + 1 <= j;
    }
  }

  /** No token read from before a line feed or carriage return reaches past it. */
  lemma LexTokenStopsAtNewline(s: string, i: nat, j: nat)
    requires i <= j && NewlineAt(s, j)
    ensures LexToken(s, i).Scanned? ==> LexToken(s, i).next <= j
  {
    if PeekAt(s, i, [IdentifierStart]) {
      IdentifierStopsAtNewline(s, i, j);
    } else if PeekAt(s, i, [Is('-'), NonZeroDigit]) || PeekAt(s, i, [Digit]) {
      NumberStopsAtNewline(s, i, j);
    } else if PeekAt(s, i, [Is('\'')]) {
      CharacterStopsAtNewline(s, i, j);
    } else if PeekAt(s, i, [Is('"')]) {
      StringStopsAtNewline(s, i, j);
    } else {
      OperatorStopsAtNewline(s, i, j);
    }
  }

  lemma IdentifierStopsAtNewline(s: string, i: nat, j: nat)
    requires i <= j && NewlineAt(s, j) && PeekAt(s, i, [IdentifierStart])
    ensures LexIdentifier(s, i).next <= j
  {
    RunStopsAtNewline(s, i + 1, IdentifierPart, j);
  }

  lemma CharacterStopsAtNewline(s: string, i: nat, j: nat)
    requires i <= j && NewlineAt(s, j)
    ensures LexCharacter(s, i).Scanned? ==> LexCharacter(s, i).next <= j
  {
  }

  lemma OperatorStopsAtNewline(s: string, i: nat, j: nat)
    requires i <= j && NewlineAt(s, j)
    ensures LexOperator(s, i).next <= j
  {
  }

  /** Every token ends at or before position j. */
  ghost predicate EndBy(ts: seq<Token>, j: nat) {
    forall k :: 0 <= k < |ts| ==> ts[k].index + |ts[k].literal| <= j
  }

  lemma {:induction false} LexFromStopsAtNewline(s: string, i: nat, acc: seq<Token>, j: nat)
    requires i <= j && NewlineAt(s, j) && EndBy(acc, j)
    ensures LexFrom(s, i, acc).Ok? ==> EndBy(LexFrom(s, i, acc).value, j)
    decreases |s| - i, 1
  {
    if !PeekAt(s, i, [AnyButLineTerminator]) {
      assert LexFrom(s, i, acc) == Ok(acc);
    } else if PeekAt(s, i, [Whitespace]) {
      WhitespaceStopsAtNewline(s, i, acc, j);
    } else if LexToken(s, i).Scanned? {
      TokenStopsAtNewline(s, i, acc, j);
    } else {
      assert LexFrom(s, i, acc).Fail?;
    }
  }

  /** LexFromStopsAtNewline, when the loop of lex skips a whitespace character. */
  lemma {:induction false} WhitespaceStopsAtNewline(s: string, i: nat, acc: seq<Token>, j: nat)
    requires i <= j && NewlineAt(s, j) && EndBy(acc, j)
    requires PeekAt(s, i, [AnyButLineTerminator]) && PeekAt(s, i, [Whitespace])
    ensures LexFrom(s, i, acc).Ok? ==> EndBy(LexFrom(s, i, acc).value, j)
    decreases |s| - i, 0
  {
    assert i < j;
    assert LexFrom(s, i, acc) == LexFrom(s, i + 1, acc);
    LexFromStopsAtNewline(s, i + 1, acc, j);
  }

  /** LexFromStopsAtNewline, when the loop of lex reads a token. */
  lemma {:induction false} TokenStopsAtNewline(s: string, i: nat, acc: seq<Token>, j: nat)
    requires i <= j && NewlineAt(s, j) && EndBy(acc, j)
    requires PeekAt(s, i, [AnyButLineTerminator]) && !PeekAt(s, i, [Whitespace]) && LexToken(s, i).Scanned?
    ensures LexFrom(s, i, acc).Ok? ==> EndBy(LexFrom(s, i, acc).value, j)
    decreases |s| - i, 0
  {
    var r := LexToken(s, i);
    TokenEndsBy(s, i, acc, j);
    LexFromStopsAtNewline(s, r.next, acc + [r.token], j);
  }

  /** One token of the loop of lex, read before the newline at j, ends by j too. */
  lemma TokenEndsBy(s: string, i: nat, acc: seq<Token>, j: nat)
    requires i <= j && NewlineAt(s, j) && EndBy(acc, j)
    requires PeekAt(s, i, [AnyButLineTerminator]) && !PeekAt(s, i, [Whitespace]) && LexToken(s, i).Scanned?
    ensures var r := LexToken(s, i);
            i < r.next <= j && LexFrom(s, i, acc) == LexFrom(s, r.next, acc + [r.token]) && EndBy(acc + [r.token], j)
  {
    var r := LexToken(s, i);
    LexTokenStopsAtNewline(s, i, j);
    assert r.token.index == i && |r.token.literal| == r.next - i;
  }

  /** lex stops at the first line feed or carriage return: every token ends before it. */
  lemma LexStopsAtNewline(s: string, j: nat)
    requires NewlineAt(s, j)
    ensures Lex(s).Ok? ==> forall t :: t in Lex(s).value ==> t.index + |t.literal| <= j
  {
    LexFromStopsAtNewline(s, 0, [], j);
  }

  /** An identifier token is a letter or '@' followed by the longest run of [A-Za-z0-9_-]. */
  lemma IdentifierShape(s: string, i: nat)
    requires i < |s| && Matches(IdentifierStart, s[i])
    ensures LexToken(s, i).Scanned? && LexToken(s, i).token.kind == IDENTIFIER
    ensures var r := LexToken(s, i);
      r.token.literal[0] == s[i]
      && (forall k :: 1 <= k < |r.token.literal| ==> Matches(IdentifierPart, r.token.literal[k]))
      && (r.next == |s| || !Matches(IdentifierPart, s[r.next]))
  {
    var j := if PeekAt(s, i, [Is('@')]) then i + 1 else i;
    var r := LexToken(s, i);
    assert r == LexIdentifier(s, i);
    assert r.next == Run(s, j, IdentifierPart);
    forall k | 1 <= k < |r.token.literal|
      ensures Matches(IdentifierPart, r.token.literal[k])
    {
      assert r.token.literal[k] == s[i + k];
    }
  }

  /** A DECIMAL token has a '.' followed by a digit, and ends with a digit. */
  lemma DecimalShape(s: string, i: nat)
    requires i <= |s|
    ensures var r := LexNumber(s, i);
      r.token.kind == DECIMAL ==>
        (exists k :: 0 <= k < |r.token.literal| - 1 && r.token.literal[k] == '.' && IsDigit(r.token.literal[k + 1]))
        && IsDigit(r.token.literal[|r.token.literal| - 1])
  {
    if PeekAt(s, i, [Sign, Digit]) {
      var j := i + 2;
      if PeekAt(s, j, [Is('0')]) && PeekAt(s, j + 1, [Is('.'), Digit]) {
        DecimalAt(s, i, j + 1, j + 3);
      } else {
        TailShape(s, i, if PeekAt(s, j, [Is('0')]) then j + 1 else j);
      }
    } else if PeekAt(s, i, [Is('0')]) {
      if PeekAt(s, i + 1, [Is('.'), Digit]) {
        DecimalAt(s, i, i + 1, Run(s, i + 2, Digit));
      }
    } else {
      TailShape(s, i, i);
    }
  }

  /** A '.' at d followed by a digit, and a digit at the end: the shape of a DECIMAL literal from i to n. */
  lemma DecimalAt(s: string, i: nat, d: nat, n: nat)
    requires i <= d && d + 2 <= n <= |s| && s[d] == '.' && IsDigit(s[d + 1]) && IsDigit(s[n - 1])
    ensures var lit := s[i..n];
      (exists k :: 0 <= k < |lit| - 1 && lit[k] == '.' && IsDigit(lit[k + 1])) && IsDigit(lit[|lit| - 1])
  {
    var lit := s[i..n];
    assert lit[d - i] == '.' && lit[d - i + 1] == s[d + 1];
  }

  /** The DECIMAL that NumberTail scans has a '.' followed by a digit and ends with a digit. */
  lemma TailShape(s: string, start: nat, j: nat)
    requires start <= j <= |s|
    ensures var r := NumberTail(s, start, j);
      r.token.kind == DECIMAL ==>
        (exists k :: 0 <= k < |r.token.literal| - 1 && r.token.literal[k] == '.' && IsDigit(r.token.literal[k + 1]))
        && IsDigit(r.token.literal[|r.token.literal| - 1])
  {
    var k := Run(s, j, Digit);
    if PeekAt(s, k, [Is('.'), Digit]) {
      DecimalAt(s, start, k, Run(s, k + 2, Digit));
    }
  }

  /** A leading '0' not followed by '.digit' is the INTEGER "0" on its own. */
  lemma LeadingZeroAlone(s: string, i: nat)
    requires i < |s| && s[i] == '0' && !PeekAt(s, i + 1, [Is('.'), Digit])
    ensures LexToken(s, i) == Scanned(Token(INTEGER, "0", i), i + 1)
  {
    assert LexNumber(s, i) == Emit(s, i, i + 1, INTEGER);
    assert !PeekAt(s, i, [IdentifierStart]);
    assert PeekAt(s, i, [Digit]);
    assert LexToken(s, i) == LexNumber(s, i);
    assert s[i..i + 1] == "0";
  }

  /** The body of a string with no quote, backslash or line terminator runs to the end of the input. */
  lemma {:induction false} PlainContentToEnd(s: string, j: nat)
    requires j <= |s|
    requires forall k :: j <= k < |s| ==> s[k] != '"' && s[k] != '\\' && !IsLineTerminator(s[k])
    ensures StringContent(s, j) == Next(|s|)
    decreases |s| - j
  {
    if j < |s| {
      PlainContentToEnd(s, j + 1);
    }
  }

  /** A string missing its closing quote fails at the end of the input. */
  lemma UnterminatedString(s: string)
    requires |s| > 0 && s[0] == '"'
    requires forall k :: 1 <= k < |s| ==> s[k] != '"' && s[k] != '\\' && !IsLineTerminator(s[k])
    ensures Lex(s) == Fail(ParseException(UnterminatedStringError, |s|))
  {
    PlainContentToEnd(s, 1);
    assert !PeekAt(s, 0, [Is('"'), Is('"'), Is('"')]) by {
      if |s| > 2 {
        assert s[1] != '"';
      }
    }
    assert LexString(s, 0) == Failed(ParseException(UnterminatedStringError, |s|));
    assert LexToken(s, 0) == LexString(s, 0);
  }

  /** The message of the source's own example: "\"unterminated" fails at offset 13. */
  lemma UnterminatedExample()
    ensures Lex("\"unterminated") == Fail(ParseException(UnterminatedStringError, 13))
  {
    UnterminatedString("\"unterminated");
  }

  /** An escape other than \b \n \r \t \' \" \\ fails at the backslash. */
  lemma InvalidEscapeInCharacter()
    ensures LexToken("'\\q'", 0) == Failed(ParseException(EscapeError, 1))
  {
    var s := "'\\q'";
    assert s[0] == '\'' && s[1] == '\\' && s[2] == 'q';
    CharacterLeads(s);
    InvalidEscapeBody(s);
  }

  /** The character literal '\q' stops at its escape. */
  lemma InvalidEscapeBody(s: string)
    requires s == "'\\q'"
    ensures LexCharacter(s, 0) == Failed(ParseException(EscapeError, 1))
  {
    assert s[0] == '\'' && s[1] == '\\' && s[2] == 'q';
    assert !PeekAt(s, 1, [Is('\'')]) && PeekAt(s, 1, [Is('\\')]);
    assert !PeekAt(s, 1, [Is('\\'), EscapeCode]);
    assert LexEscape(s, 1) == Stop(ParseException(EscapeError, 1));
  }

  /** A token that starts with a single quote is a character literal. */
  lemma CharacterLeads(s: string)
    requires |s| > 0 && s[0] == '\''
    ensures LexToken(s, 0) == LexCharacter(s, 0)
  {
    assert !PeekAt(s, 0, [IdentifierStart]);
    assert !PeekAt(s, 0, [Is('-'), NonZeroDigit]) && !PeekAt(s, 0, [Digit]);
    assert PeekAt(s, 0, [Is('\'')]);
  }

  /** '' is an empty character literal, reported at the second quote. */
  lemma EmptyCharacter()
    ensures LexToken("''", 0) == Failed(ParseException(EmptyCharacterError, 1))
  {
    var s := "''";
    assert s[0] == '\'' && s[1] == '\'';
    CharacterLeads(s);
    assert PeekAt(s, 1, [Is('\'')]);
  }

  /** '@' may only lead an identifier: "gm@il" starts with the identifier "gm". */
  lemma AtOnlyLeads()
    ensures LexToken("gm@il", 0) == Scanned(Token(IDENTIFIER, "gm", 0), 2)
  {
    assert "gm@il"[0..2] == "gm";
  }

  /** !=, ||, && and == are read as one two-character operator; any other character as an operator on its own. */
  lemma OperatorWidth(s: string, i: nat)
    requires i < |s| && !IsLineTerminator(s[i])
    ensures var r := LexOperator(s, i);
      r.token.kind == OPERATOR
      && (i + 1 < |s| && s[i..i + 2] in {"!=", "||", "&&", "=="} ==> r.next == i + 2)
      && (!(i + 1 < |s| && s[i..i + 2] in {"!=", "||", "&&", "=="}) ==> r.next == i + 1)
  {
    if i + 1 < |s| {
      var pair := s[i..i + 2];
      assert pair[0] == s[i] && pair[1] == s[i + 1];
      assert pair == "!=" <==> pair[0] == '!' && pair[1] == '=';
      assert pair == "||" <==> pair[0] == '|' && pair[1] == '|';
      assert pair == "&&" <==> pair[0] == '&' && pair[1] == '&';
      assert pair == "==" <==> pair[0] == '=' && pair[1] == '=';
    }
  }

  /** The loop of lex past a token that does not start with whitespace. */
  lemma TokenThen(s: string, i: nat, acc: seq<Token>, t: Token, next: nat)
    requires i < |s| && !IsLineTerminator(s[i]) && !Matches(Whitespace, s[i]) && LexToken(s, i) == Scanned(t, next)
    ensures LexFrom(s, i, acc) == LexFrom(s, next, acc + [t])
  {
  }

  /** The loop of lex past a space. */
  lemma SpaceThen(s: string, i: nat, acc: seq<Token>)
    requires i < |s| && s[i] == ' '
    ensures LexFrom(s, i, acc) == LexFrom(s, i + 1, acc)
  {
  }

  /** The characters of "LET x = 5;", one by one. */
  predicate LetSource(s: string) {
    |s| == 10 && s[0] == 'L' && s[1] == 'E' && s[2] == 'T' && s[3] == ' ' && s[4] == 'x'
    && s[5] == ' ' && s[6] == '=' && s[7] == ' ' && s[8] == '5' && s[9] == ';'
  }

  /** "LET x = 5;" is five tokens, at offsets 0, 4, 6, 8 and 9. */
  lemma LetExample(s: string)
    requires LetSource(s)
    ensures Lex(s) == Ok([Token(IDENTIFIER, "LET", 0), Token(IDENTIFIER, "x", 4),
      Token(OPERATOR, "=", 6), Token(INTEGER, "5", 8), Token(OPERATOR, ";", 9)])
  {
    LetHead(s);
    LetTail(s);
  }

  /** The two identifiers of "LET x = 5;" and the spaces after them. */
  lemma LetHead(s: string)
    requires LetSource(s)
    ensures Lex(s) == LexFrom(s, 6, [Token(IDENTIFIER, "LET", 0), Token(IDENTIFIER, "x", 4)])
  {
    var t0, t1 := Token(IDENTIFIER, "LET", 0), Token(IDENTIFIER, "x", 4);
    LetWords(s);
    TokenThen(s, 0, [], t0, 3);
    SpaceThen(s, 3, [t0]);
    TokenThen(s, 4, [t0], t1, 5);
    SpaceThen(s, 5, [t0, t1]);
    assert [] + [t0] == [t0] && [t0] + [t1] == [t0, t1];
  }

  /** The rest of "LET x = 5;" from the "=" on. */
  lemma LetTail(s: string)
    requires LetSource(s)
    ensures LexFrom(s, 6, [Token(IDENTIFIER, "LET", 0), Token(IDENTIFIER, "x", 4)])
      == Ok([Token(IDENTIFIER, "LET", 0), Token(IDENTIFIER, "x", 4),
        Token(OPERATOR, "=", 6), Token(INTEGER, "5", 8), Token(OPERATOR, ";", 9)])
  {
    var t0, t1, t2 := Token(IDENTIFIER, "LET", 0), Token(IDENTIFIER, "x", 4), Token(OPERATOR, "=", 6);
    var t3, t4 := Token(INTEGER, "5", 8), Token(OPERATOR, ";", 9);
    LetEquals(s);
    LetNumber(s);
    LetSemicolon(s);
    TokenThen(s, 6, [t0, t1], t2, 7);
    SpaceThen(s, 7, [t0, t1, t2]);
    TokenThen(s, 8, [t0, t1, t2], t3, 9);
    TokenThen(s, 9, [t0, t1, t2, t3], t4, 10);
    assert LexFrom(s, 10, [t0, t1, t2, t3, t4]) == Ok([t0, t1, t2, t3, t4]);
    assert [t0, t1] + [t2] == [t0, t1, t2] && [t0, t1, t2] + [t3] == [t0, t1, t2, t3];
    assert [t0, t1, t2, t3] + [t4] == [t0, t1, t2, t3, t4];
  }

  /** The identifiers of "LET x = 5;". */
  lemma LetWords(s: string)
    requires LetSource(s)
    ensures LexToken(s, 0) == Scanned(Token(IDENTIFIER, "LET", 0), 3)
    ensures LexToken(s, 4) == Scanned(Token(IDENTIFIER, "x", 4), 5)
  {
    assert Run(s, 3, IdentifierPart) == 3;
    assert Run(s, 0, IdentifierPart) == 3;
    assert s[0..3] == "LET";
    assert Run(s, 5, IdentifierPart) == 5;
    assert Run(s, 4, IdentifierPart) == 5;
    assert s[4..5] == "x";
  }

  /** The operator "=" of "LET x = 5;". */
  lemma LetEquals(s: string)
    requires LetSource(s)
    ensures LexToken(s, 6) == Scanned(Token(OPERATOR, "=", 6), 7)
  {
    assert !TwoCharOperator(s, 6);
    assert s[6..7] == "=";
  }

  /** The number "5" of "LET x = 5;". */
  lemma LetNumber(s: string)
    requires LetSource(s)
    ensures LexToken(s, 8) == Scanned(Token(INTEGER, "5", 8), 9)
  {
    assert Run(s, 9, Digit) == 9;
    assert Run(s, 8, Digit) == 9;
    assert s[8..9] == "5";
  }

  /** The closing ";" of "LET x = 5;". */
  lemma LetSemicolon(s: string)
    requires LetSource(s)
    ensures LexToken(s, 9) == Scanned(Token(OPERATOR, ";", 9), 10)
  {
    assert s[9..10] == ";";
  }
}
