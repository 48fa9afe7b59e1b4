/**
 * The values the Lox scanner produces: token kinds, tokens with their
 * optional literal, and the (line, message) reports it hands to the
 * error reporter.
 */
module Tokens {

  datatype Option<+T> = None | Some(value: T)

  /** Up to one element, as a sequence. */
  function OptionToSeq<T>(o: Option<T>): (s: seq<T>)
    ensures |s| <= 1
    ensures o.Some? <==> |s| == 1
    ensures o.Some? ==> s[0] == o.value
  {
    match o
    case None => []
    case Some(v) => [v]
  }

  /** The closed set of token kinds of the Lox language. */
  datatype TokenType =
    // single-character punctuation
    | LEFT_PAREN | RIGHT_PAREN | LEFT_BRACE | RIGHT_BRACE
    | COMMA | DOT | MINUS | PLUS | SEMICOLON | SLASH | STAR
    // one- or two-character operators
    | BANG | BANG_EQUAL | EQUAL | EQUAL_EQUAL
    | GREATER | GREATER_EQUAL | LESS | LESS_EQUAL
    // literals
    | IDENTIFIER | STRING | NUMBER
    // reserved words
    | AND | CLASS | ELSE | FALSE | FOR | FUN | IF | NIL | OR
    | PRINT | RETURN | SUPER | THIS | TRUE | VAR | WHILE
    // end of input
    | EOF

  /**
   * The decoded value a token carries.  A number keeps the text of its
   * lexeme (the decimal it denotes) rather than a floating-point value;
   * a string keeps the raw text between its quotes.
   */
  datatype Literal = NoLit | NumLit(digits: string) | StrLit(text: string)

  datatype Token = Token(kind: TokenType, lexeme: string, literal: Literal, line: int)

  /** One call of the error reporter: the line and the message. */
  datatype LexError = LexError(line: int, message: string)

  const UnexpectedCharacter: string := "Unexpected character."
  const UnterminatedString: string := "Unterminated String"
  const UnterminatedComment: string := "Unterminated MultiLine char"

  /** The token that closes every scan. */
  function EofToken(line: int): Token {
    Token(EOF, "", NoLit, line)
  }
}
