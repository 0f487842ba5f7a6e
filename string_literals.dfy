/**
 * The values of CHARACTER and STRING literal tokens. The lexer keeps a literal's
 * quotes and escapes in the token; the parser turns the token text into the
 * character or string it denotes.
 */
module StringLiterals {
  import opened Ast

  /** The character an escape letter after a backslash stands for (\b \n \r \t \' \" \\). */
  function EscapeValue(c: char): (r: Option<char>)
    ensures r.Some? <==> c in {'b', 'n', 'r', 't', '\'', '"', '\\'}
  {
    match c
    case 'b' => Some('\U{0008}')
    case 'n' => Some('\n')
    case 'r' => Some('\r')
    case 't' => Some('\t')
    case '\'' => Some('\'')
    case '"' => Some('"')
    case '\\' => Some('\\')
    case _ => None
  }

  /** The escape letter that writes a character, for the seven characters that have one. */
  function EscapeLetter(c: char): (r: Option<char>)
    ensures r.Some? ==> EscapeValue(r.value) == Some(c)
    ensures r.None? ==> forall e :: EscapeValue(e) != Some(c)
  {
    match c
    case '\U{0008}' => Some('b')
    case '\n' => Some('n')
    case '\r' => Some('r')
    case '\t' => Some('t')
    case '\'' => Some('\'')
    case '"' => Some('"')
    case '\\' => Some('\\')
    case _ => None
  }

  /** Writes a string as literal text: each of the seven escapable characters as a backslash and its letter. */
  function Escape(s: string): string {
    if |s| == 0 then ""
    else (match EscapeLetter(s[0]) case Some(e) => ['\\', e] case None => [s[0]]) + Escape(s[1..])
  }

  /** Reads escapes left to right: a backslash and an escape letter become one character. */
  function Unescape(s: string): string
    decreases |s|
  {
    if |s| == 0 then ""
    else if s[0] == '\\' && |s| >= 2 && EscapeValue(s[1]).Some? then [EscapeValue(s[1]).value] + Unescape(s[2..])
    else [s[0]] + Unescape(s[1..])
  }

  /** The text is kept exactly, escapes and all, by writing and then reading it. */
  lemma {:induction false} UnescapeEscape(s: string)
    ensures Unescape(Escape(s)) == s
  {
    if |s| > 0 {
      UnescapeEscape(s[1..]);
      var rest := Escape(s[1..]);
      match EscapeLetter(s[0])
      case Some(e) =>
        assert Escape(s) == ['\\', e] + rest;
        assert (['\\', e] + rest)[2..] == rest;
      case None =>
        assert Escape(s) == [s[0]] + rest;
        assert ([s[0]] + rest)[1..] == rest;
        assert EscapeValue('\\') == Some('\\');
    }
  }

  /** The value of a STRING token: the escapes read inside the quotes; None where Java's substring throws. */
  function StringValue(lit: string): (r: Option<string>)
    ensures r.Some? <==> |lit| >= 2
    ensures |lit| >= 2 ==> r.value == Unescape(lit[1..|lit| - 1])
  {
    if |lit| >= 2 then Some(Unescape(lit[1..|lit| - 1])) else None
  }

  /** A quoted, escaped string reads back as the string. */
  lemma StringRoundTrip(s: string)
    ensures StringValue("\"" + Escape(s) + "\"") == Some(s)
  {
    var lit := "\"" + Escape(s) + "\"";
    assert lit[1..|lit| - 1] == Escape(s);
    UnescapeEscape(s);
  }

  /**
   * String.replace: every non-overlapping occurrence of pat, from left to right,
   * becomes rep.
   */
  function ReplaceAll(s: string, pat: string, rep: string): (r: string)
    requires |pat| > 0
    ensures |pat| <= |rep| ==> |s| <= |r|
    ensures |rep| <= |pat| ==> |r| <= |s|
    decreases |s|
  {
    if |s| < |pat| then s
    else if s[..|pat|] == pat then rep + ReplaceAll(s[|pat|..], pat, rep)
    else [s[0]] + ReplaceAll(s[1..], pat, rep)
  }

  /** pat occurs in s at position k. */
  predicate OccursAt(s: string, pat: string, k: nat) {
    k + |pat| <= |s| && s[k..k + |pat|] == pat
  }

  /** Text that does not contain pat is left alone. */
  lemma {:induction false} ReplaceAbsent(s: string, pat: string, rep: string)
    requires |pat| > 0
    requires forall k: nat :: !OccursAt(s, pat, k)
    ensures ReplaceAll(s, pat, rep) == s
    decreases |s|
  {
    if |s| >= |pat| {
      assert !OccursAt(s, pat, 0) && s[0..|pat|] == s[..|pat|];
      forall k: nat
        ensures !OccursAt(s[1..], pat, k)
      {
        assert !OccursAt(s, pat, k + 1);
        if k + |pat| <= |s[1..]| {
          assert s[1..][k..k + |pat|] == s[k + 1..k + 1 + |pat|];
        }
      }
      ReplaceAbsent(s[1..], pat, rep);
    }
  }

  /**
   * The STRING value as the parser computes it: seven replace passes over the whole
   * token, one escape at a time, then the quotes dropped; None where substring throws.
   */
  function ReplaceDecoding(lit: string): (r: Option<string>)
    ensures r.Some? ==> |r.value| <= |lit| - 2
  {
    var s := ReplaceAll(lit, "\\n", "\n");
    var s := ReplaceAll(s, "\\t", "\t");
    var s := ReplaceAll(s, "\\b", "\U{0008}");
    var s := ReplaceAll(s, "\\r", "\r");
    var s := ReplaceAll(s, "\\'", "'");
    var s := ReplaceAll(s, "\\\\", "\\");
    var s := ReplaceAll(s, "\\\"", "\"");
    if |s| >= 2 then Some(s[1..|s| - 1]) else None
  }

  predicate NoBackslash(s: string) { forall k :: 0 <= k < |s| ==> s[k] != '\\' }

  lemma NoBackslashUnchanged(s: string, pat: string, rep: string)
    requires NoBackslash(s) && |pat| > 0 && pat[0] == '\\'
    ensures ReplaceAll(s, pat, rep) == s
  {
    forall k: nat
      ensures !OccursAt(s, pat, k)
    {
      if k + |pat| <= |s| {
        assert s[k..k + |pat|][0] == s[k];
      }
    }
    ReplaceAbsent(s, pat, rep);
  }

  lemma {:induction false} UnescapePlain(s: string)
    requires NoBackslash(s)
    ensures Unescape(s) == s
    decreases |s|
  {
    if |s| > 0 {
      UnescapePlain(s[1..]);
    }
  }

  /** On text without a backslash the replace passes and the escape reader agree. */
  lemma ReplaceDecodingPlain(lit: string)
    requires NoBackslash(lit)
    ensures ReplaceDecoding(lit) == StringValue(lit)
  {
    NoBackslashUnchanged(lit, "\\n", "\n");
    NoBackslashUnchanged(lit, "\\t", "\t");
    NoBackslashUnchanged(lit, "\\b", "\U{0008}");
    NoBackslashUnchanged(lit, "\\r", "\r");
    NoBackslashUnchanged(lit, "\\'", "'");
    NoBackslashUnchanged(lit, "\\\\", "\\");
    NoBackslashUnchanged(lit, "\\\"", "\"");
    if |lit| >= 2 {
      UnescapePlain(lit[1..|lit| - 1]);
    }
  }

  /**
   * The token "\\n" (an escaped backslash, then the letter n) denotes a backslash and
   * an n; the replace passes read "\n" first and give a backslash and a line feed.
   */
  lemma ReplaceDecodingMisreadsEscapedBackslash()
    ensures ReplaceDecoding("\"\\\\n\"") == Some("\\\n")
    ensures StringValue("\"\\\\n\"") == Some("\\n")
  {
    ReplacePassesMisread();
    UnescapeEscapedBackslashN();
  }

  /** The seven replace passes on the token "\\n". */
  lemma ReplacePassesMisread()
    ensures ReplaceDecoding("\"\\\\n\"") == Some("\\\n")
  {
    var s := "\"\\\n\"";
    FirstPass();
    LaterPass(s, "\\t", "\t");
    LaterPass(s, "\\b", "\U{0008}");
    LaterPass(s, "\\r", "\r");
    LaterPass(s, "\\'", "'");
    LaterPass(s, "\\\\", "\\");
    LaterPass(s, "\\\"", "\"");
    assert s[1..|s| - 1] == "\\\n";
  }

  lemma FirstPass()
    ensures ReplaceAll("\"\\\\n\"", "\\n", "\n") == "\"\\\n\""
  {
    var lit := "\"\\\\n\"";
    assert lit[..2][0] == '"';
    assert lit[..2] != "\\n";
    assert lit[1..][..2][1] == '\\';
    assert lit[1..][..2] != "\\n";
    assert lit[2..][..2] == "\\n";
    assert lit[2..][2..] == "\"";
    assert ReplaceAll("\"", "\\n", "\n") == "\"";
  }

  lemma LaterPass(s: string, pat: string, rep: string)
    requires s == "\"\\\n\"" && |pat| == 2 && pat[0] == '\\' && pat[1] != '\n'
    ensures ReplaceAll(s, pat, rep) == s
  {
    forall k: nat
      ensures !OccursAt(s, pat, k)
    {
      if k + 2 <= |s| {
        assert s[k..k + 2][0] == s[k] && s[k..k + 2][1] == s[k + 1];
      }
    }
    ReplaceAbsent(s, pat, rep);
  }

  lemma UnescapeEscapedBackslashN()
    ensures StringValue("\"\\\\n\"") == Some("\\n")
  {
    var lit := "\"\\\\n\"";
    assert lit[1..|lit| - 1] == "\\\\n";
    var t := "\\\\n";
    assert t[0] == '\\' && t[1] == '\\' && t[2..] == "n";
    assert Unescape("n") == "n";
    assert Unescape(t) == "\\n";
  }

  /** The value of a CHARACTER token as the parser computes it: the character after the opening quote. */
  function CharAtOne(lit: string): (r: Option<char>)
    ensures r.Some? <==> |lit| >= 2
  {
    if |lit| >= 2 then Some(lit[1]) else None
  }

  /** The value of a CHARACTER token with its escape read: a backslash and an escape letter are one character. */
  function CharValue(lit: string): (r: Option<char>)
    ensures r.Some? <==> |lit| >= 2
    ensures |lit| >= 2 && lit[1] != '\\' ==> r == CharAtOne(lit)
  {
    if |lit| >= 3 && lit[1] == '\\' && EscapeValue(lit[2]).Some? then EscapeValue(lit[2])
    else if |lit| >= 2 then Some(lit[1])
    else None
  }

  /** A quoted, escaped character reads back as the character. */
  lemma CharRoundTrip(c: char)
    ensures CharValue("'" + Escape([c]) + "'") == Some(c)
  {
    assert [c][1..] == [];
    var lit := "'" + Escape([c]) + "'";
    match EscapeLetter(c)
    case Some(e) =>
      assert Escape([c]) == ['\\', e] + Escape([]);
      assert lit == ['\'', '\\', e, '\''];
    case None =>
      assert Escape([c]) == [c] + Escape([]);
      assert lit == ['\'', c, '\''];
  }

  /** The token '\n' denotes a line feed; the character after the quote is the backslash. */
  lemma CharAtOneMisreadsEscape()
    ensures CharAtOne("'\\n'") == Some('\\')
    ensures CharValue("'\\n'") == Some('\n')
  {
    var lit := "'\\n'";
    assert |lit| == 4 && lit[1] == '\\' && lit[2] == 'n';
  }
}
