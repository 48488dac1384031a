/** A pure description of what the tokenizer does: the effect of consuming
    bytes on the position, of appending them to the bounded buffer and of
    copying it out with `strndup`; the keyword and operator tables; every
    scanner as a function of the input and an index into it; and `Lex`, the
    token sequence of a whole input. */
module ScanSpec {
  import opened TokenDefs
  import opened CType

  /** The byte at index i of s, or EOF past its end: what `fgetc` (or
      `peek`) yields there. */
  function Look(s: seq<Byte>, i: nat): (c: int)
    ensures -1 <= c < 256
    ensures c == EOF <==> i >= |s|
  {
    if i < |s| then s[i] else EOF
  }

  // ---------------------------------------------------------------------
  // Positions

  /** `consume` on lookahead c: a newline starts the next line at column 1,
      any other byte moves one column right, EOF moves nothing. */
  function Advance(p: Pos, c: int): Pos
  {
    if c == NEWLINE then Pos(p.line + 1, 1)
    else if c != EOF then Pos(p.line, p.col + 1)
    else p
  }

  /** The position after consuming s[i..j] one byte at a time from p. */
  function Moved(p: Pos, s: seq<Byte>, i: nat, j: nat): Pos
    requires i <= j <= |s|
    decreases j - i
  {
    if j == i then p else Advance(Moved(p, s, i, j - 1), s[j - 1])
  }

  /** Consuming s[i..j] is consuming s[i..k] and then s[k..j]. */
  lemma {:induction false} MovedSplit(p: Pos, s: seq<Byte>, i: nat, k: nat, j: nat)
    requires i <= k <= j <= |s|
    ensures Moved(p, s, i, j) == Moved(Moved(p, s, i, k), s, k, j)
    decreases j - k
  {
    if k < j {
      MovedSplit(p, s, i, k, j - 1);
    }
  }

  // Here and below, lemmas called from methods take the terms they relate
  // (q, b) as parameters fixed by `requires q == ...`, so that a caller can
  // pass its current state directly and the verifier need not match the
  // lemma's terms against that state itself.

  /** Consuming and appending one more byte, s[j], after s[i..j] gave the
      position q and the buffer b. */
  lemma ConsumedOne(p: Pos, buf: seq<Byte>, s: seq<Byte>, i: nat, j: nat, q: Pos, b: seq<Byte>)
    requires |buf| < BUFFER_SIZE && i <= j < |s|
    requires q == Moved(p, s, i, j) && b == Collected(buf, s, i, j)
    ensures Moved(p, s, i, j + 1) == Advance(q, s[j]) && Collected(buf, s, i, j + 1) == AppendOne(b, s[j])
  {
  }

  /** Every consumed byte moves the position strictly forward. */
  lemma {:induction false} MovedForward(p: Pos, s: seq<Byte>, i: nat, j: nat)
    requires i <= j <= |s|
    ensures i == j ==> Moved(p, s, i, j) == p
    ensures i < j ==> p.Precedes(Moved(p, s, i, j))
    decreases j - i
  {
    if i < j {
      MovedForward(p, s, i, j - 1);
    }
  }

  // ---------------------------------------------------------------------
  // The accumulation buffer

  /** One `append_buffer`: the byte is kept only while fewer than
      BUFFER_SIZE - 1 bytes are held (one slot stays for the NUL). */
  function AppendOne(buf: seq<Byte>, c: Byte): seq<Byte>
  {
    if |buf| < BUFFER_SIZE - 1 then buf + [c] else buf
  }

  function Min(a: int, b: int): int { if a <= b then a else b }

  /** The buffer after appending the bytes s[i..j] one at a time. */
  function Collected(buf: seq<Byte>, s: seq<Byte>, i: nat, j: nat): (b: seq<Byte>)
    requires |buf| < BUFFER_SIZE && i <= j <= |s|
    ensures |b| < BUFFER_SIZE
    decreases j - i
  {
    if j == i then buf else AppendOne(Collected(buf, s, i, j - 1), s[j - 1])
  }

  /** Appending s[i..j] is appending s[i..k] and then s[k..j]. */
  lemma {:induction false} CollectedSplit(buf: seq<Byte>, s: seq<Byte>, i: nat, k: nat, j: nat)
    requires |buf| < BUFFER_SIZE && i <= k <= j <= |s|
    ensures Collected(buf, s, i, j) == Collected(Collected(buf, s, i, k), s, k, j)
    decreases j - k
  {
    if k < j {
      CollectedSplit(buf, s, i, k, j - 1);
    }
  }

  /** The buffer keeps the first BUFFER_SIZE - 1 bytes of buf + s[i..j] and
      silently drops the rest. */
  lemma {:induction false} CollectedTruncates(buf: seq<Byte>, s: seq<Byte>, i: nat, j: nat)
    requires |buf| < BUFFER_SIZE && i <= j <= |s|
    ensures Collected(buf, s, i, j) == (buf + s[i..j])[..Min(|buf| + (j - i), BUFFER_SIZE - 1)]
    decreases j - i
  {
    if j == i {
      assert buf + s[i..j] == buf;
    } else {
      CollectedTruncates(buf, s, i, j - 1);
      assert (buf + s[i..j])[..|buf| + (j - i) - 1] == buf + s[i..j - 1];
    }
  }

  /** The buffer after n appends of `(char)EOF`. */
  function Padded(buf: seq<Byte>, n: nat): (b: seq<Byte>)
    requires |buf| < BUFFER_SIZE
    ensures |b| < BUFFER_SIZE
  {
    if n == 0 then buf else AppendOne(Padded(buf, n - 1), EOF_BYTE)
  }

  /** What `strndup(buffer, n)` copies: the bytes before the first NUL. */
  function CStr(s: seq<Byte>): seq<Byte>
  {
    if s == [] || s[0] == 0 then [] else [s[0]] + CStr(s[1..])
  }

  /** CStr is the longest NUL-free prefix of s. */
  lemma {:induction false} CStrPrefix(s: seq<Byte>)
    ensures |CStr(s)| <= |s| && CStr(s) == s[..|CStr(s)|]
    ensures forall i :: 0 <= i < |CStr(s)| ==> CStr(s)[i] != 0
    ensures |CStr(s)| < |s| ==> s[|CStr(s)|] == 0
  {
    if s != [] && s[0] != 0 {
      CStrPrefix(s[1..]);
    }
  }

  /** A NUL-free buffer is copied whole. */
  lemma CStrNoNul(s: seq<Byte>)
    requires forall i :: 0 <= i < |s| ==> s[i] != 0
    ensures CStr(s) == s
  {
    CStrPrefix(s);
  }

  // ---------------------------------------------------------------------
  // Runs

  /** What the string scanner's loop keeps consuming: `c != '"' && c >= 0`. */
  predicate IsStrBodyChar(c: int) { c != DQUOTE && c >= 0 }

  /** The byte classes the scanners collect runs of. */
  datatype CharClass = Spaces | IdentChars | Digits | StrBody

  predicate InClass(cls: CharClass, c: int)
  {
    match cls
    case Spaces => IsSpace(c)
    case IdentChars => IsIdentChar(c)
    case Digits => IsDigit(c)
    case StrBody => IsStrBodyChar(c)
  }

  /** The length of the longest run of bytes of cls in s starting at index j. */
  function Run(s: seq<Byte>, j: nat, cls: CharClass): (n: nat)
    requires j <= |s|
    ensures j + n <= |s|
    decreases |s| - j
  {
    if j == |s| || !InClass(cls, s[j]) then 0 else 1 + Run(s, j + 1, cls)
  }

  /** Every byte of the run lies in cls, and the byte after it does not. */
  lemma {:induction false} RunMaximal(s: seq<Byte>, j: nat, cls: CharClass)
    requires j <= |s|
    ensures forall i :: j <= i < j + Run(s, j, cls) ==> InClass(cls, s[i])
    ensures j + Run(s, j, cls) < |s| ==> !InClass(cls, s[j + Run(s, j, cls)])
    decreases |s| - j
  {
    if j < |s| && InClass(cls, s[j]) {
      RunMaximal(s, j + 1, cls);
    }
  }

  // ---------------------------------------------------------------------
  // Keywords

  // The reserved words, byte by byte.
  const KW_FN: seq<Byte> := ['f' as int, 'n' as int]
  const KW_LET: seq<Byte> := ['l' as int, 'e' as int, 't' as int]
  const KW_BACK: seq<Byte> := ['b' as int, 'a' as int, 'c' as int, 'k' as int]
  const KW_IF: seq<Byte> := ['i' as int, 'f' as int]
  const KW_UNLESS: seq<Byte> := ['u' as int, 'n' as int, 'l' as int, 'e' as int, 's' as int, 's' as int]
  const KW_ELSE: seq<Byte> := ['e' as int, 'l' as int, 's' as int, 'e' as int]
  const KW_WHILE: seq<Byte> := ['W' as int, 'H' as int, 'I' as int, 'L' as int, 'E' as int]
  const KW_FOR: seq<Byte> := ['f' as int, 'o' as int, 'r' as int]
  const KW_IN: seq<Byte> := ['i' as int, 'n' as int]
  const KW_TRUE: seq<Byte> := ['t' as int, 'r' as int, 'u' as int, 'e' as int]
  const KW_FALSE: seq<Byte> := ['f' as int, 'a' as int, 'l' as int, 's' as int, 'e' as int]
  const KW_AND: seq<Byte> := ['a' as int, 'n' as int, 'd' as int]
  const KW_OR: seq<Byte> := ['o' as int, 'r' as int]

  /** The keyword table, tested against the exact token text. */
  function KeywordKind(v: seq<Byte>): Option<TokenKind>
  {
    if v == KW_FN then Some(FnDec)
    else if v == KW_LET then Some(VarDec)
    else if v == KW_BACK then Some(Rtn)
    else if v == KW_IF then Some(If)
    else if v == KW_UNLESS then Some(Unless)
    else if v == KW_ELSE then Some(Else)
    else if v == KW_WHILE then Some(While)
    else if v == KW_FOR then Some(For)
    else if v == KW_IN then Some(ForInter)
    else if v == KW_TRUE then Some(True)
    else if v == KW_FALSE then Some(False)
    else if v == KW_AND then Some(And)
    else if v == KW_OR then Some(Or)
    else None
  }

  /** The reserved word of each keyword kind, stated kind by kind. */
  function Spelling(k: TokenKind): Option<seq<Byte>>
  {
    match k
    case FnDec => Some(KW_FN)
    case VarDec => Some(KW_LET)
    case Rtn => Some(KW_BACK)
    case If => Some(KW_IF)
    case Unless => Some(KW_UNLESS)
    case Else => Some(KW_ELSE)
    case While => Some(KW_WHILE)
    case For => Some(KW_FOR)
    case ForInter => Some(KW_IN)
    case True => Some(KW_TRUE)
    case False => Some(KW_FALSE)
    case And => Some(KW_AND)
    case Or => Some(KW_OR)
    case _ => None
  }

  /** Each keyword kind is what the table gives for its own spelling. */
  lemma SpelledKeyword(k: TokenKind)
    ensures Spelling(k).Some? ==> KeywordKind(Spelling(k).value) == Some(k)
  {
  }

  /** The table gives a kind only for that kind's spelling. */
  lemma KeywordSpelled(v: seq<Byte>)
    ensures KeywordKind(v).Some? ==> Spelling(KeywordKind(v).value) == Some(v)
  {
  }

  /** The table maps a text to a kind exactly when that kind is spelled so. */
  lemma KeywordTableExact(v: seq<Byte>, k: TokenKind)
    ensures KeywordKind(v) == Some(k) <==> Spelling(k) == Some(v)
  {
    SpelledKeyword(k);
    KeywordSpelled(v);
  }

  /** `keyword_token_pass`: retags a token whose text is a reserved word. */
  function KeywordTokenPass(t: Token): (r: Token)
    ensures r.value == t.value && r.line == t.line && r.col == t.col
  {
    match KeywordKind(t.value)
    case Some(k) => t.(kind := k)
    case None => t
  }

  /** `keyword_token_pass` changes the kind exactly when the text spells a
      reserved word, and then to that word's kind; otherwise it keeps it. */
  lemma KeywordTokenPassKinds(t: Token)
    ensures forall k :: Spelling(k) == Some(t.value) ==> KeywordTokenPass(t).kind == k
    ensures (forall k :: Spelling(k) != Some(t.value)) ==> KeywordTokenPass(t).kind == t.kind
  {
    match KeywordKind(t.value)
    case Some(k) =>
      KeywordTableExact(t.value, k);
      forall k' | Spelling(k') == Some(t.value) ensures k' == k {
        KeywordTableExact(t.value, k');
      }
    case None =>
      forall k' ensures Spelling(k') != Some(t.value) {
        KeywordTableExact(t.value, k');
      }
  }

  // ---------------------------------------------------------------------
  // Operators and delimiters

  /** The `switch` of `create_single_char_token`: the kind of each
      character it lists. */
  const SINGLE_CHAR: map<int, TokenKind> :=
    map['=' as int := Assign, '<' as int := LessThan, '>' as int := GreatThan,
        '+' as int := Add, '-' as int := Sub, '*' as int := Mult, '/' as int := Divi,
        '%' as int := Modulo, '!' as int := LogNot, '(' as int := LParen,
        ')' as int := RParen, '{' as int := LBrace, '}' as int := RBrace,
        ',' as int := Comma, ';' as int := Semi, '"' as int := DbQuote, '\'' as int := Quote]

  /** The one-character kind of c, if the table lists it. */
  function SingleCharKind(c: int): Option<TokenKind>
  {
    if c in SINGLE_CHAR then Some(SINGLE_CHAR[c]) else None
  }

  /** The kind a character takes when an `=` follows it (`==` keeps Assign). */
  function TwoCharKind(c: int): (k: Option<TokenKind>)
    ensures k.Some? ==> SingleCharKind(c).Some?
  {
    if c == '=' as int then Some(Assign)
    else if c == '<' as int then Some(LessEqual)
    else if c == '>' as int then Some(GreatEqual)
    else None
  }

  /** A recognised operator: its kind and the number of bytes it spans. */
  datatype Op = Op(kind: TokenKind, len: nat)

  /** `create_single_char_token` on lookahead c with next byte `next`: the
      one-character kind, upgraded to the two-character kind when an `=` follows. */
  function OpScan(c: int, next: int): (o: Option<Op>)
    ensures o.Some? ==> 1 <= o.value.len <= 2 && c != EOF && (o.value.len == 2 ==> next != EOF)
  {
    if TwoCharKind(c).Some? && next == EQUALS then Some(Op(TwoCharKind(c).value, 2))
    else if SingleCharKind(c).Some? then Some(Op(SingleCharKind(c).value, 1))
    else None
  }

  /** An operator is recognised exactly at the characters the table lists;
      it is never of the kinds the scanner leaves unused here, and it spans
      two bytes exactly when `=`, `<` or `>` is followed by `=`. */
  lemma OpScanShape(c: int, next: int)
    ensures var o := OpScan(c, next);
      (o.None? <==> SingleCharKind(c).None?) &&
      (o.Some? ==> o.value.kind != Unknown && o.value.kind != Eof && o.value.kind != Ident) &&
      (o.Some? ==> (o.value.len == 2 <==> TwoCharKind(c).Some? && next == EQUALS))
  {
  }

  // ---------------------------------------------------------------------
  // String literals

  /** What the string scanner consumes: len input bytes, after which the
      buffer receives eofs further `(char)EOF` bytes. */
  datatype Scanned = Scanned(len: nat, eofs: nat)

  /** `create_str_literal_token` at index o of s. */
  function StrScan(s: seq<Byte>, o: nat): (sc: Scanned)
    requires o <= |s|
    ensures o + sc.len <= |s|
  {
    if o == |s| then Scanned(0, 2)
    else
      var m := Run(s, o + 1, StrBody);
      if o + 1 + m < |s| then Scanned(m + 2, 0) else Scanned(|s| - o, 1)
  }

  /** A string literal runs from its opening byte to the first double quote
      after it; without one it takes the rest of the input and gains one
      `(char)EOF` byte; at the end of input it is two such bytes. */
  lemma StrScanShape(s: seq<Byte>, o: nat)
    requires o <= |s|
    ensures var sc := StrScan(s, o);
      (o < |s| ==> 1 <= sc.len) &&
      ((exists j :: o < j < |s| && s[j] == DQUOTE) ==>
        2 <= sc.len && sc.eofs == 0 && s[o + sc.len - 1] == DQUOTE &&
        forall i :: o < i < o + sc.len - 1 ==> s[i] != DQUOTE) &&
      (o < |s| && (forall j :: o < j < |s| ==> s[j] != DQUOTE) ==>
        o + sc.len == |s| && sc.eofs == 1) &&
      (o == |s| ==> sc == Scanned(0, 2))
  {
    if o < |s| {
      RunMaximal(s, o + 1, StrBody);
    }
  }

  /** Where the string scanner stops: after the lookahead at e on which its
      loop ended, or at e itself when that is EOF. */
  lemma StrScanEnd(s: seq<Byte>, o: nat, o1: nat, e: nat)
    requires o <= |s|
    requires o1 == (if o < |s| then o + 1 else o) && e == o1 + Run(s, o1, StrBody)
    ensures o + StrScan(s, o).len == (if e < |s| then e + 1 else e)
  {
    if o < |s| && e < |s| {
      RunMaximal(s, o + 1, StrBody);
    }
  }

  /** The position after the string scanner's steps: having consumed the
      lookahead at o, the run of body bytes from o1 to e, then the lookahead
      at e, it stands at index j and position q. */
  lemma StrScanMoved(s: seq<Byte>, o: nat, p: Pos, o1: nat, e: nat, j: nat, q: Pos)
    requires o <= |s|
    requires o1 == (if o < |s| then o + 1 else o) && e == o1 + Run(s, o1, StrBody)
    requires j == (if e < |s| then e + 1 else e)
    requires q == Advance(Moved(Advance(p, Look(s, o)), s, o1, e), Look(s, e))
    ensures j == o + StrScan(s, o).len && q == Moved(p, s, o, j)
  {
    StrScanEnd(s, o, o1, e);
    if o < |s| {
      MovedSplit(p, s, o, o + 1, e);
      assert Moved(p, s, o, o + 1) == Advance(p, s[o]);
      if e < |s| {
        assert Moved(p, s, o, e + 1) == Advance(Moved(p, s, o, e), s[e]);
      }
    }
  }

  /** The buffer after the string scanner's steps: starting from b, it
      receives the lookahead at o, the body bytes from o1 to e, then
      `(char)` of the lookahead at e, and holds bb. */
  lemma StrScanCollected(s: seq<Byte>, o: nat, b: seq<Byte>, o1: nat, e: nat, j: nat, bb: seq<Byte>)
    requires o <= |s| && |b| < BUFFER_SIZE
    requires o1 == (if o < |s| then o + 1 else o) && e == o1 + Run(s, o1, StrBody)
    requires j == (if e < |s| then e + 1 else e)
    requires bb == AppendOne(Collected(AppendOne(b, ToChar(Look(s, o))), s, o1, e), ToChar(Look(s, e)))
    ensures j == o + StrScan(s, o).len && bb == Padded(Collected(b, s, o, j), StrScan(s, o).eofs)
  {
    StrScanEnd(s, o, o1, e);
    if o == |s| {
      assert StrScan(s, o) == Scanned(0, 2);
      assert Padded(b, 2) == AppendOne(Padded(b, 1), EOF_BYTE);
      assert Padded(b, 1) == AppendOne(b, EOF_BYTE);
    } else {
      CollectedSplit(b, s, o, o + 1, e);
      assert Collected(b, s, o, o + 1) == AppendOne(b, s[o]);
      if e < |s| {
        assert StrScan(s, o).eofs == 0;
        assert Collected(b, s, o, e + 1) == AppendOne(Collected(b, s, o, e), s[e]);
      } else {
        assert StrScan(s, o).eofs == 1;
        assert Padded(Collected(b, s, o, e), 1) == AppendOne(Collected(b, s, o, e), EOF_BYTE);
      }
    }
  }

  // ---------------------------------------------------------------------
  // One token and the whole input

  /** A character that no scanner accepts. */
  predicate Unmapped(c: int)
  {
    !IsAlpha(c) && !IsDigit(c) && c != DQUOTE && SingleCharKind(c).None?
  }

  /** What one scanner call matched: the kind of the token it makes (none
      for a character no scanner accepts), the number of input bytes
      consumed, and how many `(char)EOF` bytes were appended after them. */
  datatype Lexeme = Lexeme(kind: Option<TokenKind>, len: nat, eofs: nat)

  /** The dispatch in the body of `tokenize`'s loop at index o of s, where
      the lookahead s[o] is not white space. A character no scanner accepts
      is consumed by `tokenize` itself. */
  function Classify(s: seq<Byte>, o: nat): (lx: Lexeme)
    requires o < |s| && !IsSpace(s[o])
    ensures 1 <= lx.len <= |s| - o
    ensures lx.kind.None? ==> lx.len == 1
  {
    var c := s[o];
    if IsAlpha(c) then Lexeme(Some(Ident), Run(s, o, IdentChars), 0)
    else if IsDigit(c) then Lexeme(Some(NumLit), Run(s, o, Digits), 0)
    else if c == DQUOTE then
      var sc := StrScan(s, o);
      Lexeme(Some(StrLit), sc.len, sc.eofs)
    else
      match OpScan(c, Look(s, o + 1))
      case None => Lexeme(None, 1, 0)
      case Some(op) => Lexeme(Some(op.kind), op.len, 0)
  }

  /** The token a lexeme at index o of s becomes, starting at position p:
      its text is what `strndup` copies from the buffer, its position the
      one after the lexeme, and an identifier goes through
      `keyword_token_pass`. */
  function TokenOf(s: seq<Byte>, o: nat, p: Pos, lx: Lexeme): (t: Option<Token>)
    requires o + lx.len <= |s|
    ensures t.None? <==> lx.kind.None?
  {
    match lx.kind
    case None => None
    case Some(k) =>
      var q := Moved(p, s, o, o + lx.len);
      var t := Token(k, CStr(Padded(Collected([], s, o, o + lx.len), lx.eofs)), q.line, q.col);
      Some(if k == Ident then KeywordTokenPass(t) else t)
  }

  /** The tokens a scanner call contributes: its token, if any. */
  function Emitted(t: Option<Token>): (r: seq<Token>)
    ensures |r| <= 1
  {
    if t.Some? then [t.value] else []
  }

  /** Appending the token t, if any, to the list acc, followed by rest. */
  lemma AppendEmitted(acc: seq<Token>, t: Option<Token>, rest: seq<Token>)
    ensures (if t.Some? then acc + [t.value] else acc) + rest == acc + (Emitted(t) + rest)
  {
    if t.None? {
      assert Emitted(t) + rest == rest;
    }
  }

  /** The tokens `tokenize` produces from index o of the input s on, starting at position p. */
  function Lex(s: seq<Byte>, o: nat, p: Pos): seq<Token>
    requires o <= |s|
    decreases |s| - o
  {
    if o == |s| then []
    else if IsSpace(s[o]) then Lex(s, o + 1, Advance(p, s[o]))
    else
      var lx := Classify(s, o);
      Emitted(TokenOf(s, o, p, lx)) + Lex(s, o + lx.len, Moved(p, s, o, o + lx.len))
  }

  /** Skipping the run of white space from o to j contributes no token. */
  lemma {:induction false} LexSkipSpace(s: seq<Byte>, o: nat, p: Pos, j: nat, q: Pos)
    requires o <= |s| && j == o + Run(s, o, Spaces) && q == Moved(p, s, o, j)
    ensures Lex(s, o, p) == Lex(s, j, q)
    decreases |s| - o
  {
    if o < |s| && IsSpace(s[o]) {
      MovedSplit(p, s, o, o + 1, j);
      assert Moved(p, s, o, o + 1) == Advance(p, s[o]);
      LexSkipSpace(s, o + 1, Advance(p, s[o]), j, q);
    }
  }

  /** One scanner call at a byte that is not white space: its token t, if
      any, comes first, and scanning resumes at index j and position q
      after the bytes it consumed. */
  lemma LexToken(s: seq<Byte>, o: nat, p: Pos, t: Option<Token>, j: nat, q: Pos)
    requires o < |s| && !IsSpace(s[o])
    requires var lx := Classify(s, o);
      j == o + lx.len && q == Moved(p, s, o, j) && t == TokenOf(s, o, p, lx)
    ensures Lex(s, o, p) == Emitted(t) + Lex(s, j, q)
  {
  }
}
