/**
 * The lexer as the source writes it: a character stream whose index and pending
 * lexeme length are updated in place, and a lexer whose methods peek and match
 * patterns against it. Every lexing method is proved to return what the
 * corresponding function of LexerSpec returns, and to leave the stream where that
 * function says.
 */
module LexerImpl {
  import opened Tokens
  import S = LexerSpec

  /** The input, the current position and the length of the lexeme being built. */
  class CharStream {
    const input: string
    var index: nat
    var length: nat

    /** The pending lexeme lies inside the input, just before the current position. */
    ghost predicate Valid()
      reads this
    {
      length <= index <= |input|
    }

    constructor (input: string)
      ensures this.input == input && index == 0 && length == 0
    {
      this.input := input;
      index := 0;
      length := 0;
    }

    /** has: a character exists `offset` places ahead. */
    function Has(offset: nat): (b: bool)
      reads this
      ensures b <==> index + offset < |input|
    {
      index + offset < |input|
    }

    /** get: the character `offset` places ahead. */
    function Get(offset: nat): (c: char)
      reads this
      requires Has(offset)
      ensures c == input[index + offset]
    {
      input[index + offset]
    }

    /** advance: take the next character into the lexeme. */
    method Advance()
      modifies this
      ensures index == old(index) + 1 && length == old(length) + 1
    {
      index := index + 1;
      length := length + 1;
    }

    /** skip: drop the pending lexeme. */
    method Skip()
      modifies this
      ensures index == old(index) && length == 0
    {
      length := 0;
    }

    /** emit: the token made of the pending lexeme, which is then dropped. */
    method Emit(kind: TokenType) returns (t: Token)
      requires Valid()
      modifies this
      ensures Valid() && index == old(index) && length == 0
      ensures t == Token(kind, input[old(index) - old(length)..index], old(index) - old(length))
    {
      var start := index - length;
      Skip();
      t := Token(kind, input[start..index], start);
    }
  }

  class Lexer {
    const chars: CharStream

    constructor (input: string)
      ensures chars.input == input && chars.index == 0 && chars.length == 0
    {
      chars := new CharStream(input);
    }

    /** peek: the characters ahead match the patterns one by one. */
    method Peek(ps: seq<S.Pattern>) returns (b: bool)
      ensures b == S.PeekAt(chars.input, chars.index, ps)
    {
      for k := 0 to |ps|
        invariant S.PeekAt(chars.input, chars.index, ps) == S.PeekAt(chars.input, chars.index + k, ps[k..])
      {
        assert ps[k..][1..] == ps[k + 1..];
        if !chars.Has(k) || !S.Matches(ps[k], chars.Get(k)) {
          return false;
        }
      }
      return true;
    }

    /** match: peek, and on success advance over the matched characters. */
    method Match(ps: seq<S.Pattern>) returns (b: bool)
      modifies chars
      ensures b == S.PeekAt(chars.input, old(chars.index), ps)
      ensures chars.index == old(chars.index) + (if b then |ps| else 0)
      ensures chars.length == old(chars.length) + (if b then |ps| else 0)
    {
      b := Peek(ps);
      if b {
        for k := 0 to |ps|
          invariant chars.index == old(chars.index) + k
          invariant chars.length == old(chars.length) + k
        {
          chars.Advance();
        }
      }
    }

    /** `while (peek(p)) advance;` (the source also spells it `while (peek(p)) match(p);`). */
    method AdvanceWhile(p: S.Pattern)
      requires chars.Valid()
      modifies chars
      ensures chars.Valid()
      ensures chars.index == S.Run(chars.input, old(chars.index), p)
      ensures chars.length == old(chars.length) + (chars.index - old(chars.index))
    {
      var more := Peek([p]);
      while more
        invariant chars.Valid()
        invariant more == S.PeekAt(chars.input, chars.index, [p])
        invariant S.Run(chars.input, chars.index, p) == S.Run(chars.input, old(chars.index), p)
        invariant chars.length == old(chars.length) + (chars.index - old(chars.index))
        decreases |chars.input| - chars.index
      {
        chars.Advance();
        more := Peek([p]);
      }
    }

    /** emit, wrapped as the outcome of a lexing method. */
    method EmitScan(kind: TokenType) returns (r: S.Scan)
      requires chars.Valid()
      modifies chars
      ensures chars.Valid() && chars.index == old(chars.index) && chars.length == 0
      ensures r == S.Emit(chars.input, old(chars.index) - old(chars.length), chars.index, kind)
    {
      var t := chars.Emit(kind);
      r := S.Scanned(t, chars.index);
    }

    method LexIdentifier() returns (r: S.Scan)
      requires chars.Valid() && chars.length == 0
      modifies chars
      ensures r == S.LexIdentifier(chars.input, old(chars.index))
      ensures chars.Valid() && chars.index == r.next && chars.length == 0
    {
      var at := Peek([S.Is('@')]);
      if at {
        chars.Advance();
      }
      AdvanceWhile(S.IdentifierPart);
      r := EmitScan(IDENTIFIER);
    }

    /** The end of lexNumber: digits, then an optional fraction, emitted from `start`. */
    method NumberTail(ghost start: nat) returns (r: S.Scan)
      requires chars.Valid() && start == chars.index - chars.length
      modifies chars
      ensures r == S.NumberTail(chars.input, start, old(chars.index))
      ensures chars.Valid() && chars.index == r.next && chars.length == 0
    {
      AdvanceWhile(S.Digit);
      var fraction := Peek([S.Is('.'), S.Digit]);
      if fraction {
        fraction := Match([S.Is('.'), S.Digit]);
        AdvanceWhile(S.Digit);
        r := EmitScan(DECIMAL);
      } else {
        r := EmitScan(INTEGER);
      }
    }

    method LexNumber() returns (r: S.Scan)
      requires chars.Valid() && chars.length == 0
      modifies chars
      ensures r == S.LexNumber(chars.input, old(chars.index))
      ensures chars.Valid() && chars.index == r.next && chars.length == 0
    {
      var signed := Match([S.Sign, S.Digit]);
      if signed {
        r := LexSignedNumber(old(chars.index));
      } else {
        var zero := Match([S.Is('0')]);
        if zero {
          r := LexZeroNumber(old(chars.index));
        } else {
          r := NumberTail(old(chars.index));
        }
      }
    }

    /** lexNumber after a sign and a digit: a leading zero with a fraction is emitted at once. */
    method LexSignedNumber(ghost start: nat) returns (r: S.Scan)
      requires chars.Valid() && start <= |chars.input| && S.PeekAt(chars.input, start, [S.Sign, S.Digit])
      requires chars.index == start + 2 && chars.length == 2
      modifies chars
      ensures r == S.LexNumber(chars.input, start)
      ensures chars.Valid() && chars.index == r.next && chars.length == 0
    {
      var zero := Match([S.Is('0')]);
      if zero {
        var fraction := Match([S.Is('.'), S.Digit]);
        if fraction {
          r := EmitScan(DECIMAL);
          return;
        }
      }
      r := NumberTail(start);
    }

    /** lexNumber after an unsigned leading zero: a fraction, or the integer 0. */
    method LexZeroNumber(ghost start: nat) returns (r: S.Scan)
      requires chars.Valid() && start <= |chars.input| && !S.PeekAt(chars.input, start, [S.Sign, S.Digit])
      requires S.PeekAt(chars.input, start, [S.Is('0')])
      requires chars.index == start + 1 && chars.length == 1
      modifies chars
      ensures r == S.LexNumber(chars.input, start)
      ensures chars.Valid() && chars.index == r.next && chars.length == 0
    {
      var fraction := Peek([S.Is('.'), S.Digit]);
      if fraction {
        fraction := Match([S.Is('.')]);
        AdvanceWhile(S.Digit);
        r := EmitScan(DECIMAL);
      } else {
        r := EmitScan(INTEGER);
      }
    }

    /**
     * lexEscape. Its first test, peek("\\\\u"), matches a single character against a
     * two-character pattern, so it never holds and is not modelled.
     */
    method LexEscape() returns (r: S.Step)
      requires chars.Valid()
      modifies chars
      ensures r == S.LexEscape(chars.input, old(chars.index))
      ensures chars.Valid()
      ensures r.Next? ==> chars.index == r.pos && chars.length == old(chars.length) + 2
    {
      var ok := Peek([S.Is('\\'), S.EscapeCode]);
      if ok {
        ok := Match([S.Is('\\'), S.EscapeCode]);
        r := S.Next(chars.index);
      } else {
        r := S.Stop(S.ParseException(S.EscapeError, chars.index));
      }
    }

    method LexCharacter() returns (r: S.Scan)
      requires chars.Valid() && chars.length == 0
      modifies chars
      ensures r == S.LexCharacter(chars.input, old(chars.index))
      ensures chars.Valid() && (r.Scanned? ==> chars.index == r.next && chars.length == 0)
    {
      var open := Match([S.Is('\'')]);
      var empty := Peek([S.Is('\'')]);
      if !empty {
        var escape := Peek([S.Is('\\')]);
        if escape {
          var e := LexEscape();
          if e.Stop? {
            return S.Failed(e.failure);
          }
        } else {
          var body := Match([S.CharacterBody]);
        }
      } else {
        return S.Failed(S.ParseException(S.EmptyCharacterError, chars.index));
      }
      r := CloseCharacter(old(chars.index));
    }

    /** The closing quote of a character literal that started at `start`. */
    method CloseCharacter(ghost start: nat) returns (r: S.Scan)
      requires chars.Valid() && start == chars.index - chars.length
      modifies chars
      ensures r == S.CloseCharacter(chars.input, start, old(chars.index))
      ensures chars.Valid() && (r.Scanned? ==> chars.index == r.next && chars.length == 0)
    {
      var close := Match([S.Is('\'')]);
      if close {
        r := EmitScan(CHARACTER);
      } else {
        r := S.Failed(S.ParseException(S.UnterminatedCharacterError, chars.index));
      }
    }

    /** The body loop of lexString; a failed match(".") leaves the loop spinning in place. */
    method StringContent() returns (r: S.Step)
      requires chars.Valid()
      modifies chars
      ensures r == S.StringContent(chars.input, old(chars.index))
      ensures chars.Valid()
      ensures r.Next? ==> chars.index == r.pos && chars.length == old(chars.length) + (chars.index - old(chars.index))
    {
      var more := Peek([S.StringBody]);
      while more
        invariant chars.Valid()
        invariant old(chars.index) <= chars.index
        invariant more == S.PeekAt(chars.input, chars.index, [S.StringBody])
        invariant S.StringContent(chars.input, chars.index) == S.StringContent(chars.input, old(chars.index))
        invariant chars.length == old(chars.length) + (chars.index - old(chars.index))
        decreases |chars.input| - chars.index
      {
        var escape := Peek([S.Is('\\')]);
        if escape {
          var e := LexEscape();
          if e.Stop? {
            return e;
          }
        } else {
          var any := Match([S.AnyButLineTerminator]);
          if !any {
            return S.Stop(S.Diverges(chars.index));
          }
        }
        more := Peek([S.StringBody]);
      }
      r := S.Next(chars.index);
    }

    method LexString() returns (r: S.Scan)
      requires chars.Valid() && chars.length == 0
      modifies chars
      ensures r == S.LexString(chars.input, old(chars.index))
      ensures chars.Valid() && (r.Scanned? ==> chars.index == r.next && chars.length == 0)
    {
      var triple := Peek([S.Is('"'), S.Is('"'), S.Is('"')]);
      if triple {
        triple := Match([S.Is('"'), S.Is('"'), S.Is('"')]);
      } else {
        var single := Peek([S.Is('"')]);
        if single {
          single := Match([S.Is('"')]);
        } else {
          return S.Failed(S.ParseException(S.InvalidStringError, chars.index));
        }
      }
      var body := StringContent();
      if body.Stop? {
        return S.Failed(body.failure);
      }
      r := CloseString(old(chars.index));
    }

    /** The closing quotes of a string literal that started at `start`. */
    method CloseString(ghost start: nat) returns (r: S.Scan)
      requires chars.Valid() && start == chars.index - chars.length
      modifies chars
      ensures r == S.CloseString(chars.input, start, old(chars.index))
      ensures chars.Valid() && (r.Scanned? ==> chars.index == r.next && chars.length == 0)
    {
      var closing := Peek([S.Is('"'), S.Is('"'), S.Is('"')]);
      if closing {
        closing := Match([S.Is('"'), S.Is('"'), S.Is('"')]);
      } else {
        closing := Peek([S.Is('"')]);
        if closing {
          closing := Match([S.Is('"')]);
        } else {
          return S.Failed(S.ParseException(S.UnterminatedStringError, chars.index));
        }
      }
      r := EmitScan(STRING);
    }

    method LexOperator() returns (r: S.Scan)
      requires chars.Valid() && chars.length == 0
      modifies chars
      ensures r == S.LexOperator(chars.input, old(chars.index))
      ensures chars.Valid() && chars.index == r.next && chars.length == 0
    {
      var pair := Match([S.Is('!'), S.Is('=')]);
      if !pair {
        pair := Match([S.Is('|'), S.Is('|')]);
      }
      if !pair {
        pair := Match([S.Is('&'), S.Is('&')]);
      }
      if !pair {
        pair := Match([S.Is('='), S.Is('=')]);
      }
      assert pair == S.TwoCharOperator(chars.input, old(chars.index));
      if !pair {
        var any := Match([S.AnyButLineTerminator]);
      }
      r := EmitScan(OPERATOR);
    }

    method LexToken() returns (r: S.Scan)
      requires chars.Valid() && chars.length == 0
      modifies chars
      ensures r == S.LexToken(chars.input, old(chars.index))
      ensures chars.Valid() && (r.Scanned? ==> chars.index == r.next && chars.length == 0)
    {
      var identifier := Peek([S.IdentifierStart]);
      if identifier {
        r := LexIdentifier();
        return;
      }
      var negative := Peek([S.Is('-'), S.NonZeroDigit]);
      var digit := Peek([S.Digit]);
      if negative || digit {
        r := LexNumber();
        return;
      }
      var quote := Peek([S.Is('\'')]);
      if quote {
        r := LexCharacter();
        return;
      }
      var doubleQuote := Peek([S.Is('"')]);
      if doubleQuote {
        r := LexString();
        return;
      }
      r := LexOperator();
    }

    /** lex: skip whitespace and lex tokens until the next character is a line terminator or the end. */
    method Lex() returns (r: S.Result<seq<Token>>)
      requires chars.Valid() && chars.length == 0
      modifies chars
      ensures r == S.LexFrom(chars.input, old(chars.index), [])
    {
      var tokens: seq<Token> := [];
      var more := Peek([S.AnyButLineTerminator]);
      while more
        invariant chars.Valid() && chars.length == 0
        invariant more == S.PeekAt(chars.input, chars.index, [S.AnyButLineTerminator])
        invariant S.LexFrom(chars.input, chars.index, tokens) == S.LexFrom(chars.input, old(chars.index), [])
        decreases |chars.input| - chars.index
      {
        var step := LexStep(tokens);
        if step.Fail? {
          return step;
        }
        tokens := step.value;
        more := Peek([S.AnyButLineTerminator]);
      }
      r := S.Ok(tokens);
    }

    /** One turn of the loop of lex: a whitespace character skipped, or a token added to those before it. */
    method LexStep(tokens: seq<Token>) returns (r: S.Result<seq<Token>>)
      requires chars.Valid() && chars.length == 0 && S.PeekAt(chars.input, chars.index, [S.AnyButLineTerminator])
      modifies chars
      ensures chars.Valid()
      ensures r.Fail? ==> S.LexFrom(chars.input, old(chars.index), tokens) == r
      ensures r.Ok? ==> chars.length == 0 && old(chars.index) < chars.index
                        && S.LexFrom(chars.input, old(chars.index), tokens) == S.LexFrom(chars.input, chars.index, r.value)
    {
      var whitespace := Peek([S.Whitespace]);
      if whitespace {
        assert S.LexFrom(chars.input, chars.index, tokens) == S.LexFrom(chars.input, chars.index + 1, tokens);
        chars.Advance();
        chars.Skip();
        r := S.Ok(tokens);
      } else {
        r := TokenStep(tokens);
      }
    }

    /** The turn of the loop of lex that reads a token. */
    method TokenStep(tokens: seq<Token>) returns (r: S.Result<seq<Token>>)
      requires chars.Valid() && chars.length == 0
      requires S.PeekAt(chars.input, chars.index, [S.AnyButLineTerminator]) && !S.PeekAt(chars.input, chars.index, [S.Whitespace])
      modifies chars
      ensures chars.Valid()
      ensures r.Fail? ==> S.LexFrom(chars.input, old(chars.index), tokens) == r
      ensures r.Ok? ==> chars.length == 0 && old(chars.index) < chars.index
                        && S.LexFrom(chars.input, old(chars.index), tokens) == S.LexFrom(chars.input, chars.index, r.value)
    {
      var t := LexToken();
      if t.Failed? {
        return S.Fail(t.failure);
      }
      r := S.Ok(tokens + [t.token]);
    }
  }
}
