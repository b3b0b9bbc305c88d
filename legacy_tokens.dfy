/** The token vocabulary of the single-file variant (php.cpp). Unlike the canonical lexer it
  * has kinds for the open and close tags, calls the `echo` keyword PRINT, and has no `http`
  * and no comma. */
module LegacyTokens {

  /** The fourteen token kinds of php.cpp. */
  datatype TokenKind =
    | EOF
    | OpenTag
    | CloseTag
    | Print
    | Str
    | Semicolon
    | Db
    | Text
    | Variable
    | Operator
    | Assign
    | Number
    | LParen
    | RParen

  /** A token is a kind and the lexeme it was read from. */
  datatype Token = Token(kind: TokenKind, value: string)

  const EndToken := Token(EOF, "")

  /** The two kinds only the tag tests emit. */
  predicate IsTag(k: TokenKind) { k == OpenTag || k == CloseTag }
}
