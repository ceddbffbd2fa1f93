/**
 * The token record shared by the tokenizer, the engine and the exceptions.
 * Token.cs is not part of this model; the shape below is the one its uses
 * imply: `new Token(kind, text, line, column)` in the tokenizer and the
 * `Kind`, `Value`, `Line` and `Column` accessors in the engine and in
 * ScriptException.
 */
module Tokens {

  datatype TokenKind = EOF | WhiteSpace | EOL | Word | Number | QuotedString | Symbol

  datatype Token = Token(kind: TokenKind, value: string, line: int, column: int)

  /** The kinds the engine drops while filling its buffer. */
  predicate IsLayout(t: Token) {
    t.kind == WhiteSpace || t.kind == EOL
  }
}
