/** Types and constants of the tokenizer's public header: the byte source,
    the buffer capacity, token kinds, tokens and source positions. */
module TokenDefs {

  /** One byte of the character source, as `fgetc` delivers it (0..255). */
  type Byte = x: int | 0 <= x < 256

  /** `fgetc`'s end-of-stream value. */
  const EOF: int := -1

  /** The byte that `(char)EOF` stores into the buffer. */
  const EOF_BYTE: Byte := 255

  /** Capacity of the accumulation buffer, terminating NUL included. */
  const BUFFER_SIZE: nat := 256

  const NEWLINE: int := '\n' as int
  const DQUOTE: int := '"' as int
  const EQUALS: int := '=' as int

  datatype Option<T> = None | Some(value: T)

  /** The token kinds the tokenizer uses (plus the header's EOF and UNKNOWN kinds). */
  datatype TokenKind =
    | Ident | NumLit | StrLit
    | Assign | LessThan | LessEqual | GreatThan | GreatEqual
    | Add | Sub | Mult | Divi | Modulo | LogNot
    | LParen | RParen | LBrace | RBrace | Comma | Semi | DbQuote | Quote
    | FnDec | VarDec | Rtn | If | Unless | Else | While | For | ForInter
    | True | False | And | Or
    | Eof | Unknown

  /** A 1-based source position. */
  datatype Pos = Pos(line: int, col: int)
  {
    /** Lexicographic order: this position comes strictly before q. */
    predicate Precedes(q: Pos) {
      line < q.line || (line == q.line && col < q.col)
    }
  }

  /** A token: its kind, its text and the position recorded for it. */
  datatype Token = Token(kind: TokenKind, value: seq<Byte>, line: int, col: int)
  {
    function Position(): Pos { Pos(line, col) }
  }
}

/** ASCII ("C" locale) model of the `<ctype.h>` classifiers, applied to an
    `int` as `fgetc` returns it; EOF belongs to no class. */
module CType {
  import opened TokenDefs

  predicate IsSpace(c: int) { c == ' ' as int || 9 <= c <= 13 }

  predicate IsDigit(c: int) { '0' as int <= c <= '9' as int }

  predicate IsAlpha(c: int) {
    'A' as int <= c <= 'Z' as int || 'a' as int <= c <= 'z' as int
  }

  predicate IsAlnum(c: int) { IsAlpha(c) || IsDigit(c) }

  /** What continues an identifier: `isalnum(c) || c == '_'`. */
  predicate IsIdentChar(c: int) { IsAlnum(c) || c == '_' as int }

  /** The conversion `(char)c` performed when an `int` lookahead is appended. */
  function ToChar(c: int): (b: Byte)
    requires -1 <= c < 256
    ensures 0 <= c < 256 ==> b == c
    ensures c == EOF ==> b == EOF_BYTE
  {
    if c == EOF then EOF_BYTE else c
  }
}
