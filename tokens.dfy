/** The token model shared by every stage: token kinds, literal values and tokens. */
module Tokens {

  /** Token kinds, in the declaration order of the interpreter's enumeration. */
  datatype TokenType =
    // literals
    | IDENTIFIER | STRING | NUMBER
    // single-character tokens
    | LEFT_PAREN | RIGHT_PAREN | LEFT_BRACE | RIGHT_BRACE
    | COMMA | DOT | MINUS | PLUS | STAR | SEMICOLON | SLASH
    // one- or two-character tokens
    | BANG | BANG_EQUAL
    | EQUAL | EQUAL_EQUAL
    | GREATER_EQUAL | LESS_EQUAL
    | LESS_THAN | GREATER_THAN
    // keywords
    | AND | CLASS | ELSE | FALSE | FUN | FOR | IF | NIL | OR
    | PRINT | RETURN | SUPER | THIS | TRUE | VAR | WHILE
    | EOF

  /** The integer a kind converts to: its position in the enumeration. */
  function Ordinal(t: TokenType): (n: nat)
    ensures n == 0 <==> t == IDENTIFIER
    ensures n <= 38
  {
    match t
    case IDENTIFIER => 0
    case STRING => 1
    case NUMBER => 2
    case LEFT_PAREN => 3
    case RIGHT_PAREN => 4
    case LEFT_BRACE => 5
    case RIGHT_BRACE => 6
    case COMMA => 7
    case DOT => 8
    case MINUS => 9
    case PLUS => 10
    case STAR => 11
    case SEMICOLON => 12
    case SLASH => 13
    case BANG => 14
    case BANG_EQUAL => 15
    case EQUAL => 16
    case EQUAL_EQUAL => 17
    case GREATER_EQUAL => 18
    case LESS_EQUAL => 19
    case LESS_THAN => 20
    case GREATER_THAN => 21
    case AND => 22
    case CLASS => 23
    case ELSE => 24
    case FALSE => 25
    case FUN => 26
    case FOR => 27
    case IF => 28
    case NIL => 29
    case OR => 30
    case PRINT => 31
    case RETURN => 32
    case SUPER => 33
    case THIS => 34
    case TRUE => 35
    case VAR => 36
    case WHILE => 37
    case EOF => 38
  }

  /** The value a kind variable holds before anything is stored in it: the kind numbered 0. */
  const DefaultTokenType: TokenType := IDENTIFIER

  /**
   * A double-precision number, kept symbolic: the text it was parsed from,
   * or the operation that produced it. Nothing here depends on IEEE arithmetic.
   */
  datatype Number =
    | Parsed(text: string)
    | Negated(operand: Number)
    | Sum(left: Number, right: Number)
    | Difference(left: Number, right: Number)
    | Product(left: Number, right: Number)
    | Quotient(left: Number, right: Number)

  /** The object a token or a literal node carries: null, a boolean, a number or a string. */
  datatype LiteralValue =
    | NilLiteral
    | BoolLiteral(b: bool)
    | NumberLiteral(n: Number)
    | StringLiteral(s: string)

  /** An immutable token: its kind, the exact source text, its literal and its line. */
  datatype Token = Token(kind: TokenType, lexeme: string, literal: LiteralValue, line: int)
}
