/** Token values produced by the scanner: the kind of a lexical unit, its
    literal payload and the token record itself. */
module Tokens {

  /** The closed set of Lox token kinds. */
  datatype TokenType =
    // single-character punctuation
    | LeftParen | RightParen | LeftBrace | RightBrace
    | Comma | Dot | Minus | Plus | Semicolon | Slash | Star
    // one- or two-character operators
    | Bang | BangEqual | Equal | EqualEqual
    | Greater | GreaterEqual | Less | LessEqual
    // literal-bearing kinds
    | Identifier | String | Number
    // reserved words
    | And | Class | Else | False | Fun | For | If | Nil | Or
    | Print | Return | Super | This | True | Var | While
    // end of input
    | Eof

  /** The decoded literal of a token; the scanner only ever attaches `Nil`. */
  datatype Literal = Nil

  /** One lexical unit: its kind, the source text it was made from, its
      literal and the 1-based line it was found on. */
  datatype Token = Token(tokenType: TokenType, lexeme: string, literal: Literal, line: nat)

  /** The end-of-input marker appended after the last real token. */
  function EofToken(line: nat): Token
  {
    Token(Eof, "", Literal.Nil, line)
  }
}
