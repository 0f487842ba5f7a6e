/** Tokens shared by the lexer and the parser. */
module Tokens {

  /** The six token kinds the lexer emits. */
  datatype TokenType = IDENTIFIER | INTEGER | DECIMAL | CHARACTER | STRING | OPERATOR

  /** A lexeme: its kind, its text and the offset of its first character in the input. */
  datatype Token = Token(kind: TokenType, literal: string, index: int)

  /** The name Java's enum gives a token kind (used in the parser's error message). */
  function KindName(t: TokenType): string
  {
    match t
    case IDENTIFIER => "IDENTIFIER"
    case INTEGER => "INTEGER"
    case DECIMAL => "DECIMAL"
    case CHARACTER => "CHARACTER"
    case STRING => "STRING"
    case OPERATOR => "OPERATOR"
  }
}
