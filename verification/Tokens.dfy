/** Token kinds, numbered as the lexer's enum numbers them, and tokens. */
module Tokens {

  type Kind = nat

  // what is not a fixed spelling
  const EOF: Kind := 0
  const ERROR: Kind := 1
  const IDENT: Kind := 2
  const INT: Kind := 3
  const FLOAT: Kind := 4
  const CHAR: Kind := 5
  const STRING: Kind := 6

  // keywords, core types last
  const KW_LET: Kind := 7
  const KW_FN: Kind := 8
  const KW_IF: Kind := 9
  const KW_ELSE: Kind := 10
  const KW_WHILE: Kind := 11
  const KW_BREAK: Kind := 12
  const KW_CONTINUE: Kind := 13
  const KW_RETURN: Kind := 14
  const KW_STRUCT: Kind := 15
  const KW_ENUM: Kind := 16
  const KW_EXTERN: Kind := 17
  const KW_MUT: Kind := 18
  const KW_AS: Kind := 19
  const KW_SIZEOF: Kind := 20
  const KW_MATCH: Kind := 21
  const KW_TRUE: Kind := 22
  const KW_FALSE: Kind := 23
  const KW_NULL: Kind := 24
  const KW_I8: Kind := 25
  const KW_U8: Kind := 26
  const KW_I32: Kind := 27
  const KW_U32: Kind := 28
  const KW_I64: Kind := 29
  const KW_U64: Kind := 30
  const KW_F32: Kind := 31
  const KW_F64: Kind := 32
  const KW_B8: Kind := 33
  const KW_B32: Kind := 34
  const KW_B64: Kind := 35
  const KW_VOID: Kind := 36

  // punctuation, longest spelling first
  const SHL_EQ: Kind := 37
  const SHR_EQ: Kind := 38
  const ELLIPSIS: Kind := 39
  const AMP_AMP: Kind := 40
  const PIPE_PIPE: Kind := 41
  const SHL: Kind := 42
  const SHR: Kind := 43
  const LE: Kind := 44
  const GE: Kind := 45
  const EQ_EQ: Kind := 46
  const BANG_EQ: Kind := 47
  const PLUS_EQ: Kind := 48
  const MINUS_EQ: Kind := 49
  const STAR_EQ: Kind := 50
  const SLASH_EQ: Kind := 51
  const PERCENT_EQ: Kind := 52
  const AMP_EQ: Kind := 53
  const PIPE_EQ: Kind := 54
  const CARET_EQ: Kind := 55
  const ARROW: Kind := 56
  const FAT_ARROW: Kind := 57
  const PLUS: Kind := 58
  const MINUS: Kind := 59
  const STAR: Kind := 60
  const SLASH: Kind := 61
  const PERCENT: Kind := 62
  const BANG: Kind := 63
  const AMP: Kind := 64
  const PIPE: Kind := 65
  const CARET: Kind := 66
  const TILDE: Kind := 67
  const LT: Kind := 68
  const GT: Kind := 69
  const EQ: Kind := 70
  const LPAREN: Kind := 71
  const RPAREN: Kind := 72
  const LBRACE: Kind := 73
  const RBRACE: Kind := 74
  const LBRACKET: Kind := 75
  const RBRACKET: Kind := 76
  const DOT: Kind := 77
  const COMMA: Kind := 78
  const SEMI: Kind := 79
  const COLON: Kind := 80

  predicate IsCoreType(k: Kind) {
    KW_I8 <= k <= KW_VOID
  }

  /** A token as the parser sees it: `text` is its spelling, `value` the value
      of an integer or character, `str` the decoded bytes of a string, `float` the
      value of a floating-point literal. */
  datatype Token = Token(kind: Kind, text: string, value: nat, str: string, float: nat)
}
