/**
 * The lexer as functions over the input text: each function takes the input and the
 * position where the Java method starts, and returns what the method returns (or the
 * exception it throws) together with the position it leaves the character stream at.
 * The class in LexerImpl is proved to compute exactly these functions.
 */
module LexerSpec {
  import opened Tokens

  // ---------------------------------------------------------------- messages

  const EscapeError := "Invalid Escape"
  const EmptyCharacterError := "Empty character literal"
  const UnterminatedCharacterError := "Unterminated character literal"
  const InvalidStringError := "Invalid String"
  const UnterminatedStringError := "Unterminated String"

  /**
   * The character classes the lexer passes to peek/match, one constructor per regular
   * expression of the source.
   */
  datatype Pattern =
    | AnyButLineTerminator   // "."  (Java's dot: every character but \n \r U+0085 U+2028 U+2029)
    | Whitespace             // "[ \t\n\f\r\u000B\u000C]"
    | IdentifierStart        // "[A-Za-z@]"
    | IdentifierPart         // "[A-Za-z0-9_-]"
    | Sign                   // "[-\\+]"
    | Digit                  // "[0-9]"
    | NonZeroDigit           // "[1-9]"
    | CharacterBody          // "[^'\n\r]"
    | StringBody             // "[^\"\\n\\r]"
    | EscapeCode             // "[bnrt'\"\\\\]"
    | Is(c: char)            // a one-character literal such as "@" or "\""

  predicate IsLetter(c: char) { 'A' <= c <= 'Z' || 'a' <= c <= 'z' }

  predicate IsDigit(c: char) { '0' <= c <= '9' }

  predicate IsLineTerminator(c: char) {
    c == '\n' || c == '\r' || c == '\U{85}' || c == '\U{2028}' || c == '\U{2029}'
  }

  predicate Matches(p: Pattern, c: char) {
    match p
    case AnyButLineTerminator => !IsLineTerminator(c)
    case Whitespace => c == ' ' || c == '\t' || c == '\n' || c == '\U{C}' || c == '\r' || c == '\U{B}'
    case IdentifierStart => IsLetter(c) || c == '@'
    case IdentifierPart => IsLetter(c) || IsDigit(c) || c == '_' || c == '-'
    case Sign => c == '-' || c == '+'
    case Digit => IsDigit(c)
    case NonZeroDigit => '1' <= c <= '9'
    case CharacterBody => c != '\'' && c != '\n' && c != '\r'
    case StringBody => c != '"' && c != '\n' && c != '\r'
    case EscapeCode => c == 'b' || c == 'n' || c == 'r' || c == 't' || c == '\'' || c == '"' || c == '\\'
    case Is(x) => c == x
  }

  /** peek: from position i on, a character exists for each pattern and matches it. */
  predicate PeekAt(s: string, i: nat, ps: seq<Pattern>)
    // the zero- to three-pattern peeks the lexer makes, spelled out
    ensures |ps| == 0 ==> PeekAt(s, i, ps)
    ensures |ps| == 1 ==> (PeekAt(s, i, ps) <==> i < |s| && Matches(ps[0], s[i]))
    ensures |ps| == 2 ==> (PeekAt(s, i, ps) <==> i + 1 < |s| && Matches(ps[0], s[i]) && Matches(ps[1], s[i + 1]))
    ensures |ps| == 3 ==> (PeekAt(s, i, ps) <==>
      i + 2 < |s| && Matches(ps[0], s[i]) && Matches(ps[1], s[i + 1]) && Matches(ps[2], s[i + 2]))
    decreases ps
  {
    |ps| == 0 || (i < |s| && Matches(ps[0], s[i]) && PeekAt(s, i + 1, ps[1..]))
  }

  /** What lexing reports instead of a token. */
  datatype Failure =
    | ParseException(message: string, index: nat)  // the exception the source throws
    | Diverges(index: nat)                          // the source loops forever at this position

  /** The outcome of a lexX method: a token and where the stream stands afterwards, or a failure. */
  datatype Scan = Scanned(token: Token, next: nat) | Failed(failure: Failure)

  /** The outcome of lexEscape and of a string body: the next position, or a failure. */
  datatype Step = Next(pos: nat) | Stop(failure: Failure)

  datatype Result<T> = Ok(value: T) | Fail(failure: Failure)

  /** `r` is a token read from position i whose literal is the input between i and r.next. */
  ghost predicate SpansFrom(s: string, i: nat, r: Scan) {
    r.Scanned? ==> i <= r.next <= |s| && r.token.literal == s[i..r.next] && r.token.index == i
  }

  /** CharStream.emit after the characters from start to end were advanced over. */
  function Emit(s: string, start: nat, end: nat, kind: TokenType): (r: Scan)
    requires start <= end <= |s|
  {
    Scanned(Token(kind, s[start..end], start), end)
  }

  /** `while (peek(p)) advance;` started at position i: the end of the longest run of p. */
  function Run(s: string, i: nat, p: Pattern): (j: nat)
    requires i <= |s|
    ensures i <= j <= |s|
    ensures forall k :: i <= k < j ==> Matches(p, s[k])
    ensures j == |s| || !Matches(p, s[j])
    decreases |s| - i
  {
    if PeekAt(s, i, [p]) then Run(s, i + 1, p) else i
  }

  /** lexIdentifier: an optional leading '@', then the longest run of [A-Za-z0-9_-]. */
  function LexIdentifier(s: string, i: nat): (r: Scan)
    requires i <= |s|
    ensures r.Scanned? && SpansFrom(s, i, r) && r.token.kind == IDENTIFIER
  {
    var j := if PeekAt(s, i, [Is('@')]) then i + 1 else i;
    Emit(s, i, Run(s, j, IdentifierPart), IDENTIFIER)
  }

  /** The digits of a number after its sign and leading digit, and an optional fraction. */
  function NumberTail(s: string, start: nat, j: nat): (r: Scan)
    requires start <= j <= |s|
    ensures r.Scanned? && SpansFrom(s, start, r) && r.next >= j
  {
    var k := Run(s, j, Digit);
    if PeekAt(s, k, [Is('.'), Digit]) then Emit(s, start, Run(s, k + 2, Digit), DECIMAL)
    else Emit(s, start, k, INTEGER)
  }

  /** lexNumber, branch for branch. */
  function LexNumber(s: string, i: nat): (r: Scan)
    requires i <= |s|
    ensures r.Scanned? && SpansFrom(s, i, r)
    ensures r.token.kind in {INTEGER, DECIMAL}
  {
    if PeekAt(s, i, [Sign, Digit]) then
      var j := i + 2;
      if PeekAt(s, j, [Is('0')]) && PeekAt(s, j + 1, [Is('.'), Digit]) then
        Emit(s, i, j + 3, DECIMAL)
      else
        NumberTail(s, i, if PeekAt(s, j, [Is('0')]) then j + 1 else j)
    else if PeekAt(s, i, [Is('0')]) then
      if PeekAt(s, i + 1, [Is('.'), Digit]) then Emit(s, i, Run(s, i + 2, Digit), DECIMAL)
      else Emit(s, i, i + 1, INTEGER)
    else
      NumberTail(s, i, i)
  }

  /**
   * lexEscape at position j: a backslash and one of b n r t ' " \.  (Its first test,
   * peek("\\\\u"), compares one character with a two-character pattern and never holds.)
   */
  function LexEscape(s: string, j: nat): (r: Step)
    ensures r.Next? ==> r.pos == j + 2 <= |s| && s[j] == '\\' && Matches(EscapeCode, s[j + 1])
    ensures r.Stop? ==> r.failure == ParseException(EscapeError, j)
  {
    if PeekAt(s, j, [Is('\\'), EscapeCode]) then Next(j + 2)
    else Stop(ParseException(EscapeError, j))
  }

  /** lexCharacter. */
  function LexCharacter(s: string, i: nat): (r: Scan)
    requires i <= |s|
    ensures SpansFrom(s, i, r)
    ensures r.Scanned? ==> r.token.kind == CHARACTER
  {
    var j := if PeekAt(s, i, [Is('\'')]) then i + 1 else i;
    if !PeekAt(s, j, [Is('\'')]) then
      var body := if PeekAt(s, j, [Is('\\')]) then LexEscape(s, j)
                  else Next(if PeekAt(s, j, [CharacterBody]) then j + 1 else j);
      match body
      case Stop(f) => Failed(f)
      case Next(k) => CloseCharacter(s, i, k)
    else
      Failed(ParseException(EmptyCharacterError, j))
  }

  /** The end of lexCharacter: the closing quote at k, after the literal's one character. */
  function CloseCharacter(s: string, i: nat, k: nat): (r: Scan)
    requires i <= k <= |s|
    ensures SpansFrom(s, i, r)
    ensures r.Scanned? ==> r.token.kind == CHARACTER
  {
    if PeekAt(s, k, [Is('\'')]) then Emit(s, i, k + 1, CHARACTER)
    else Failed(ParseException(UnterminatedCharacterError, k))
  }

  /** The loop of lexString over the characters between the quotes. */
  function StringContent(s: string, j: nat): (r: Step)
    requires j <= |s|
    ensures r.Next? ==> j <= r.pos <= |s|
    decreases |s| - j
  {
    if PeekAt(s, j, [StringBody]) then
      if PeekAt(s, j, [Is('\\')]) then
        match LexEscape(s, j)
        case Stop(f) => Stop(f)
        case Next(k) => StringContent(s, k)
      else if PeekAt(s, j, [AnyButLineTerminator]) then StringContent(s, j + 1)
      else Stop(Diverges(j))   // match(".") fails and nothing moves: the loop spins forever
    else Next(j)
  }

  /** lexString: one or three opening quotes, the body, then three or one closing quotes. */
  function LexString(s: string, i: nat): (r: Scan)
    requires i <= |s|
    ensures SpansFrom(s, i, r)
    ensures r.Scanned? ==> r.token.kind == STRING
  {
    var triple := PeekAt(s, i, [Is('"'), Is('"'), Is('"')]);
    if !triple && !PeekAt(s, i, [Is('"')]) then Failed(ParseException(InvalidStringError, i))
    else
      match StringContent(s, if triple then i + 3 else i + 1)
      case Stop(f) => Failed(f)
      case Next(k) => CloseString(s, i, k)
  }

  /** The end of lexString: three closing quotes at k, or one, or the string is unterminated. */
  function CloseString(s: string, i: nat, k: nat): (r: Scan)
    requires i <= k <= |s|
    ensures SpansFrom(s, i, r)
    ensures r.Scanned? ==> r.token.kind == STRING
  {
    if PeekAt(s, k, [Is('"'), Is('"'), Is('"')]) then Emit(s, i, k + 3, STRING)
    else if PeekAt(s, k, [Is('"')]) then Emit(s, i, k + 1, STRING)
    else Failed(ParseException(UnterminatedStringError, k))
  }

  /** The four two-character operators. */
  predicate TwoCharOperator(s: string, i: nat) {
    PeekAt(s, i, [Is('!'), Is('=')]) || PeekAt(s, i, [Is('|'), Is('|')])
    || PeekAt(s, i, [Is('&'), Is('&')]) || PeekAt(s, i, [Is('='), Is('=')])
  }

  /** lexOperator: a two-character operator, or else whatever single character `.` matches. */
  function LexOperator(s: string, i: nat): (r: Scan)
    requires i <= |s|
    ensures r.Scanned? && SpansFrom(s, i, r) && r.token.kind == OPERATOR
  {
    if TwoCharOperator(s, i) then Emit(s, i, i + 2, OPERATOR)
    else Emit(s, i, if PeekAt(s, i, [AnyButLineTerminator]) then i + 1 else i, OPERATOR)
  }

  /** lexToken: dispatch on the next one or two characters. */
  function LexToken(s: string, i: nat): (r: Scan)
    requires i <= |s|
    ensures SpansFrom(s, i, r)
    ensures r.Scanned? && PeekAt(s, i, [AnyButLineTerminator]) ==> r.next > i
  {
    if PeekAt(s, i, [IdentifierStart]) then LexIdentifier(s, i)
    else if PeekAt(s, i, [Is('-'), NonZeroDigit]) || PeekAt(s, i, [Digit]) then LexNumber(s, i)
    else if PeekAt(s, i, [Is('\'')]) then LexCharacter(s, i)
    else if PeekAt(s, i, [Is('"')]) then LexString(s, i)
    else LexOperator(s, i)
  }

  /** The loop of lex from position i, with the tokens collected so far. */
  function LexFrom(s: string, i: nat, acc: seq<Token>): (r: Result<seq<Token>>)
    requires i <= |s|
    ensures r.Ok? ==> |r.value| >= |acc|
    decreases |s| - i
  {
    if PeekAt(s, i, [AnyButLineTerminator]) then
      if PeekAt(s, i, [Whitespace]) then LexFrom(s, i + 1, acc)
      else
        match LexToken(s, i)
        case Failed(f) => Fail(f)
        case Scanned(t, next) => LexFrom(s, next, acc + [t])
    else Ok(acc)
  }

  /** lex on a fresh lexer. */
  function Lex(s: string): Result<seq<Token>> {
    LexFrom(s, 0, [])
  }
}
