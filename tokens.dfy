/** The token vocabulary of the canonical tokenizer (lexer.h). */
module Tokens {

  /** The fourteen token kinds of lexer.h; there is no kind for the open or close tag. */
  datatype TokenKind =
    | EOF
    | Text
    | Echo
    | Db
    | Http
    | Number
    | Str
    | Variable
    | Operator
    | Assign
    | Semicolon
    | LParen
    | RParen
    | Comma

  /** A token is a kind and the lexeme it was read from. */
  datatype Token = Token(kind: TokenKind, value: string)

  const EndToken := Token(EOF, "")
}
