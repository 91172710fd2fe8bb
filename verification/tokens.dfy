/** Token kinds and tokens (tokens.py). Only the kinds are transcribed; the
    keyword table is data the modelled code never consults. */
module Tokens {

  datatype TokenType =
    // single-character tokens
    | LPAREN | RPAREN | LCURLY | RCURLY | LSQUAR | RSQUAR
    | COMMA | DOT | PLUS | MINUS | STAR | SLASH | CARET | MOD
    | COLON | SEMICOLON | QUESTION | NOT | GT | LT | EQ
    // two-character tokens
    | GE | LE | NE | EQEQ | ASSIGN | GTGT | LTLT
    // literals
    | IDENTIFIER | STRING | INTEGER | FLOAT
    // keywords
    | IF | THEN | ELSE | TRUE | FALSE | AND | OR | WHILE | DO | FOR
    | FUNC | NULL | END | PRINT | PRINTLN | RET | LOCAL

  /** The numeric value a literal token carries. The conversion of the
      lexeme text by `int(...)`/`float(...)` is not modelled: a numeric
      token brings its value with it, and any other token carries none. */
  datatype Literal = NoLiteral | IntLiteral(i: int) | FloatLiteral(f: real)

  /** A token: its kind, the source text it covers and the line it is on. */
  datatype Token = Token(kind: TokenType, lexeme: string, line: int, literal: Literal)
}
