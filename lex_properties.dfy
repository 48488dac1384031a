/** What the tokenizer promises about its output: the text and kind of each
    token a scanner builds, that every token `tokenize` returns is well
    formed, that their positions strictly increase, that there are no more
    of them than input bytes, and when the list is empty. */
module LexProperties {
  import opened TokenDefs
  import opened CType
  import opened ScanSpec

  // ---------------------------------------------------------------------
  // Single steps

  /** `consume`'s three cases: a newline moves to column 1 of the next line,
      any other byte one column right on the same line, EOF nowhere. */
  lemma ConsumeCases(p: Pos, c: int)
    ensures c == NEWLINE ==> Advance(p, c) == Pos(p.line + 1, 1)
    ensures c != NEWLINE && c != EOF ==> Advance(p, c) == Pos(p.line, p.col + 1)
    ensures c == EOF ==> Advance(p, c) == p
  {
  }

  /** `append_buffer`: the buffer never reaches BUFFER_SIZE bytes; once it
      holds BUFFER_SIZE - 1 the byte is dropped and nothing changes. */
  lemma AppendOneCases(buf: seq<Byte>, c: Byte)
    requires |buf| < BUFFER_SIZE
    ensures |AppendOne(buf, c)| < BUFFER_SIZE
    ensures |buf| == BUFFER_SIZE - 1 ==> AppendOne(buf, c) == buf
    ensures |buf| < BUFFER_SIZE - 1 ==> AppendOne(buf, c) == buf + [c]
  {
  }

  /** No byte of v is NUL, so `strndup` copies all of it. */
  predicate NoNul(v: seq<Byte>)
  {
    forall i :: 0 <= i < |v| ==> v[i] != 0
  }

  /** Appending `(char)EOF` bytes keeps what the buffer already held. */
  lemma {:induction false} PaddedKeeps(buf: seq<Byte>, n: nat)
    requires |buf| < BUFFER_SIZE
    ensures |buf| <= |Padded(buf, n)| && Padded(buf, n)[..|buf|] == buf
  {
    if n > 0 {
      PaddedKeeps(buf, n - 1);
      assert Padded(buf, n - 1)[..|buf|] == buf;
    }
  }

  /** The text of a token built from the NUL-free bytes s[o..j] on an empty
      buffer: those bytes, cut off after BUFFER_SIZE - 1 of them. */
  lemma TextOfBytes(s: seq<Byte>, o: nat, j: nat)
    requires o <= j <= |s| && NoNul(s[o..j])
    ensures CStr(Collected([], s, o, j)) == s[o..o + Min(j - o, BUFFER_SIZE - 1)]
  {
    CollectedTruncates([], s, o, j);
    assert [] + s[o..j] == s[o..j];
    assert s[o..j][..Min(j - o, BUFFER_SIZE - 1)] == s[o..o + Min(j - o, BUFFER_SIZE - 1)];
    CStrNoNul(s[o..o + Min(j - o, BUFFER_SIZE - 1)]);
  }

  // ---------------------------------------------------------------------
  // The four scanners

  /** A run of identifier characters or digits starting in its class is
      not empty, is maximal and has no NUL byte. */
  lemma WordRun(s: seq<Byte>, o: nat, cls: CharClass)
    requires o < |s| && (cls == IdentChars || cls == Digits) && InClass(cls, s[o])
    ensures var n := Run(s, o, cls);
      1 <= n && (forall i :: o <= i < o + n ==> InClass(cls, s[i])) &&
      (o + n < |s| ==> !InClass(cls, s[o + n])) && NoNul(s[o..o + n])
  {
    var n := Run(s, o, cls);
    RunMaximal(s, o, cls);
    var v := s[o..o + n];
    assert NoNul(v) by {
      forall i | 0 <= i < |v| ensures v[i] != 0 {
        assert InClass(cls, s[o + i]);
      }
    }
  }

  /** An identifier starts at a letter and takes the longest run of letters,
      digits and underscores; its text is that run (cut off after
      BUFFER_SIZE - 1 bytes), its kind the keyword it spells or Ident. */
  lemma IdentText(s: seq<Byte>, o: nat, p: Pos)
    requires o < |s| && IsAlpha(s[o])
    ensures var lx := Classify(s, o);
      var t := TokenOf(s, o, p, lx);
      1 <= lx.len == Run(s, o, IdentChars) &&
      (forall i :: o <= i < o + lx.len ==> IsIdentChar(s[i])) &&
      (o + lx.len < |s| ==> !IsIdentChar(s[o + lx.len])) &&
      t.Some? && t.value.value == s[o..o + Min(lx.len, BUFFER_SIZE - 1)] &&
      t.value.kind == (if KeywordKind(t.value.value).Some? then KeywordKind(t.value.value).value else Ident) &&
      t.value.Position() == Moved(p, s, o, o + lx.len)
  {
    var n := Run(s, o, IdentChars);
    WordRun(s, o, IdentChars);
    TextOfBytes(s, o, o + n);
    assert Classify(s, o) == Lexeme(Some(Ident), n, 0);
  }

  /** A number takes the longest run of digits; its text is that run (cut
      off after BUFFER_SIZE - 1 bytes). */
  lemma NumberText(s: seq<Byte>, o: nat, p: Pos)
    requires o < |s| && IsDigit(s[o])
    ensures var n := Classify(s, o).len;
      1 <= n == Run(s, o, Digits) &&
      (forall i :: o <= i < o + n ==> IsDigit(s[i])) &&
      (o + n < |s| ==> !IsDigit(s[o + n]))
    ensures var lx := Classify(s, o);
      var t := TokenOf(s, o, p, lx);
      t.Some? && t.value.kind == NumLit && t.value.value == s[o..o + Min(lx.len, BUFFER_SIZE - 1)] &&
      t.value.Position() == Moved(p, s, o, o + lx.len)
  {
    var n := Run(s, o, Digits);
    WordRun(s, o, Digits);
    TextOfBytes(s, o, o + n);
    assert Classify(s, o) == Lexeme(Some(NumLit), n, 0);
  }

  /** The text `strndup` copies after n bytes from o, the first of them a
      double quote, and then e bytes `(char)EOF`: it starts with that quote,
      and without NUL bytes and with room to spare it is those bytes. */
  lemma QuotedText(s: seq<Byte>, o: nat, n: nat, e: nat, v: seq<Byte>)
    requires o < o + n <= |s| && s[o] == DQUOTE && e <= 1
    requires v == CStr(Padded(Collected([], s, o, o + n), e))
    ensures |v| >= 1 && v[0] == DQUOTE
    ensures NoNul(s[o..o + n]) && n < BUFFER_SIZE - 1 ==>
      v == s[o..o + n] + (if e == 1 then [EOF_BYTE] else [])
  {
    var c := Collected([], s, o, o + n);
    CollectedTruncates([], s, o, o + n);
    assert [] + s[o..o + n] == s[o..o + n];
    assert c[0] == DQUOTE;
    var b := Padded(c, e);
    PaddedKeeps(c, e);
    assert b[0] == c[0];
    if NoNul(s[o..o + n]) && n < BUFFER_SIZE - 1 {
      var tail: seq<Byte> := if e == 1 then [EOF_BYTE] else [];
      assert b == c + tail by {
        if e == 1 {
          assert Padded(c, 1) == AppendOne(Padded(c, 0), EOF_BYTE);
        }
      }
      CStrNoNul(c + tail);
    }
  }

  /** A string literal's text starts with its double quote. When it has no
      NUL byte and fits in the buffer, the text is exactly the bytes
      consumed, plus the `(char)EOF` byte when the closing quote is missing. */
  lemma StringText(s: seq<Byte>, o: nat, p: Pos)
    requires o < |s| && s[o] == DQUOTE
    ensures var lx := Classify(s, o);
      var t := TokenOf(s, o, p, lx);
      t.Some? && t.value.kind == StrLit && |t.value.value| >= 1 && t.value.value[0] == DQUOTE &&
      lx.eofs <= 1 &&
      (NoNul(s[o..o + lx.len]) && lx.len < BUFFER_SIZE - 1 ==>
        t.value.value == s[o..o + lx.len] + (if lx.eofs == 1 then [EOF_BYTE] else [])) &&
      t.value.Position() == Moved(p, s, o, o + lx.len)
  {
    var sc := StrScan(s, o);
    StrScanShape(s, o);
    assert Classify(s, o) == Lexeme(Some(StrLit), sc.len, sc.eofs);
    var t := TokenOf(s, o, p, Classify(s, o));
    QuotedText(s, o, sc.len, sc.eofs, t.value.value);
  }

  /** An operator or delimiter: two bytes exactly when `=`, `<` or `>` is
      followed by `=`, one otherwise; its text is those bytes, and its kind
      is never DbQuote, the double quote going to the string scanner. */
  lemma OperatorText(s: seq<Byte>, o: nat, p: Pos)
    requires o < |s| && !IsSpace(s[o]) && !IsAlpha(s[o]) && !IsDigit(s[o]) && s[o] != DQUOTE
    requires SingleCharKind(s[o]).Some?
    ensures var lx := Classify(s, o);
      var t := TokenOf(s, o, p, lx);
      (lx.len == 2 <==> TwoCharKind(s[o]).Some? && Look(s, o + 1) == EQUALS) &&
      t.Some? && t.value.value == s[o..o + lx.len] &&
      t.value.kind == (if lx.len == 2 then TwoCharKind(s[o]).value else SingleCharKind(s[o]).value) &&
      t.value.kind != DbQuote &&
      t.value.Position() == Moved(p, s, o, o + lx.len)
  {
    OpScanShape(s[o], Look(s, o + 1));
    var n := Classify(s, o).len;
    assert NoNul(s[o..o + n]) by {
      assert s[o] != 0;
      assert n == 2 ==> s[o + 1] == EQUALS;
    }
    TextOfBytes(s, o, o + n);
  }

  /** No scanner accepts exactly the characters outside every class and
      the operator table; `tokenize` then consumes that one character. */
  lemma ClassifyNone(s: seq<Byte>, o: nat)
    requires o < |s| && !IsSpace(s[o])
    ensures Classify(s, o).kind.None? <==> Unmapped(s[o])
    ensures Classify(s, o).kind.None? ==> Classify(s, o).len == 1
  {
    OpScanShape(s[o], Look(s, o + 1));
  }

  // ---------------------------------------------------------------------
  // Well-formed tokens

  /** The operator and delimiter kinds. */
  predicate IsOperatorKind(k: TokenKind)
  {
    k != Ident && k != NumLit && k != StrLit && Spelling(k).None?
  }

  /** What every token `tokenize` returns looks like: its kind is never
      Unknown, Eof or DbQuote; an identifier is a letter followed by
      letters, digits and underscores and is not a reserved word; a keyword
      token's text is its reserved word; a number is all digits; a string
      literal starts with a double quote; an operator's text scans back to
      the same operator. */
  predicate WellFormed(t: Token)
  {
    t.kind != Unknown && t.kind != Eof && t.kind != DbQuote && |t.value| >= 1 &&
    (t.kind == Ident ==>
      IsAlpha(t.value[0]) && (forall i :: 0 <= i < |t.value| ==> IsIdentChar(t.value[i])) &&
      KeywordKind(t.value).None?) &&
    (Spelling(t.kind).Some? ==> Spelling(t.kind) == Some(t.value)) &&
    (t.kind == NumLit ==> forall i :: 0 <= i < |t.value| ==> IsDigit(t.value[i])) &&
    (t.kind == StrLit ==> t.value[0] == DQUOTE) &&
    (IsOperatorKind(t.kind) ==> OpScan(t.value[0], Look(t.value, 1)) == Some(Op(t.kind, |t.value|)))
  }

  /** An identifier's text and kind make it well formed. */
  lemma IdentWellFormed(t: Token, s: seq<Byte>, o: nat, n: nat)
    requires o < o + n <= |s| && IsAlpha(s[o]) && (forall i :: o <= i < o + n ==> IsIdentChar(s[i]))
    requires t.value == s[o..o + Min(n, BUFFER_SIZE - 1)]
    requires t.kind == (if KeywordKind(t.value).Some? then KeywordKind(t.value).value else Ident)
    ensures WellFormed(t)
  {
    assert forall i :: 0 <= i < |t.value| ==> t.value[i] == s[o + i];
    if KeywordKind(t.value).Some? {
      KeywordTableExact(t.value, t.kind);
    }
  }

  /** A number's text makes it well formed. */
  lemma NumberWellFormed(t: Token, s: seq<Byte>, o: nat, n: nat)
    requires o < o + n <= |s| && (forall i :: o <= i < o + n ==> IsDigit(s[i]))
    requires t.kind == NumLit && t.value == s[o..o + Min(n, BUFFER_SIZE - 1)]
    ensures WellFormed(t)
  {
    assert forall i :: 0 <= i < |t.value| ==> t.value[i] == s[o + i];
  }

  /** An operator's text and kind make it well formed. */
  lemma OperatorWellFormed(t: Token, s: seq<Byte>, o: nat, n: nat)
    requires o < |s| && SingleCharKind(s[o]).Some?
    requires n == (if TwoCharKind(s[o]).Some? && Look(s, o + 1) == EQUALS then 2 else 1)
    requires o + n <= |s| && t.value == s[o..o + n] && t.kind != DbQuote
    requires t.kind == (if n == 2 then TwoCharKind(s[o]).value else SingleCharKind(s[o]).value)
    ensures WellFormed(t)
  {
    var c := s[o];
    assert t.value[0] == c;
    assert Look(t.value, 1) == (if n == 2 then EQUALS else EOF);
    OpScanShape(c, Look(t.value, 1));
  }

  /** The token a scanner call at index o yields, if any, is well formed
      and carries the position after its lexeme, which lies after the
      position p the call started from. */
  predicate TokenOk(s: seq<Byte>, o: nat, p: Pos)
    requires o < |s| && !IsSpace(s[o])
  {
    var t := TokenOf(s, o, p, Classify(s, o));
    t.Some? ==>
      WellFormed(t.value) && t.value.Position() == Moved(p, s, o, o + Classify(s, o).len) &&
      p.Precedes(t.value.Position())
  }

  /** The token an identifier scan yields is well formed. */
  lemma IdentTokenOk(s: seq<Byte>, o: nat, p: Pos)
    requires o < |s| && IsAlpha(s[o])
    ensures TokenOk(s, o, p)
  {
    IdentText(s, o, p);
    MovedForward(p, s, o, o + Classify(s, o).len);
    IdentWellFormed(TokenOf(s, o, p, Classify(s, o)).value, s, o, Classify(s, o).len);
  }

  /** The token a number scan yields is well formed. */
  lemma NumberTokenOk(s: seq<Byte>, o: nat, p: Pos)
    requires o < |s| && IsDigit(s[o])
    ensures TokenOk(s, o, p)
  {
    NumberText(s, o, p);
    MovedForward(p, s, o, o + Classify(s, o).len);
    NumberWellFormed(TokenOf(s, o, p, Classify(s, o)).value, s, o, Classify(s, o).len);
  }

  /** The token a string scan yields is well formed. */
  lemma StringTokenOk(s: seq<Byte>, o: nat, p: Pos)
    requires o < |s| && s[o] == DQUOTE
    ensures TokenOk(s, o, p)
  {
    StringText(s, o, p);
    MovedForward(p, s, o, o + Classify(s, o).len);
  }

  /** The token an operator scan yields is well formed. */
  lemma OperatorTokenOk(s: seq<Byte>, o: nat, p: Pos)
    requires o < |s| && !IsSpace(s[o]) && !IsAlpha(s[o]) && !IsDigit(s[o]) && s[o] != DQUOTE
    requires SingleCharKind(s[o]).Some?
    ensures TokenOk(s, o, p)
  {
    OperatorText(s, o, p);
    OpScanShape(s[o], Look(s, o + 1));
    MovedForward(p, s, o, o + Classify(s, o).len);
    OperatorWellFormed(TokenOf(s, o, p, Classify(s, o)).value, s, o, Classify(s, o).len);
  }

  /** Every token a scanner call yields is well formed and lies after the
      position the call started from. */
  lemma TokenWellFormed(s: seq<Byte>, o: nat, p: Pos)
    requires o < |s| && !IsSpace(s[o])
    ensures TokenOk(s, o, p)
  {
    var c := s[o];
    if IsAlpha(c) {
      IdentTokenOk(s, o, p);
    } else if IsDigit(c) {
      NumberTokenOk(s, o, p);
    } else if c == DQUOTE {
      StringTokenOk(s, o, p);
    } else if SingleCharKind(c).Some? {
      OperatorTokenOk(s, o, p);
    } else {
      ClassifyNone(s, o);
    }
  }

  /** Every token of the list is well formed. */
  predicate AllWellFormed(ts: seq<Token>)
  {
    forall u :: u in ts ==> WellFormed(u)
  }

  /** Every token of the list lies after position p. */
  predicate AllAfter(ts: seq<Token>, p: Pos)
  {
    forall u :: u in ts ==> p.Precedes(u.Position())
  }

  /** Positions in the list strictly increase. */
  predicate Ascending(ts: seq<Token>)
  {
    forall i, j :: 0 <= i < j < |ts| ==> ts[i].Position().Precedes(ts[j].Position())
  }

  /** Putting a well-formed token, if any, before well-formed tokens. */
  lemma ConsWellFormed(t: Option<Token>, rest: seq<Token>)
    requires AllWellFormed(rest)
    requires t.Some? ==> WellFormed(t.value)
    ensures AllWellFormed(Emitted(t) + rest)
  {
  }

  /** Putting a token at position q, if any, before tokens in ascending
      order after q keeps them ascending and all after p, when p precedes q. */
  lemma ConsAscending(t: Option<Token>, rest: seq<Token>, p: Pos, q: Pos)
    requires AllAfter(rest, q) && Ascending(rest) && p.Precedes(q)
    requires t.Some? ==> t.value.Position() == q
    ensures AllAfter(Emitted(t) + rest, p) && Ascending(Emitted(t) + rest)
  {
    if t.None? {
      assert Emitted(t) + rest == rest;
    } else {
      var ts := Emitted(t) + rest;
      forall i, j | 0 <= i < j < |ts| ensures ts[i].Position().Precedes(ts[j].Position()) {
        if i > 0 {
          assert ts[i] == rest[i - 1] && ts[j] == rest[j - 1];
        } else {
          assert ts[j] == rest[j - 1] && ts[j] in rest;
        }
      }
    }
  }

  /** Every token `tokenize` returns from index o on is well formed and lies
      after the starting position, and the positions strictly increase, so
      the tokens come in source order. */
  lemma {:induction false} LexWellFormed(s: seq<Byte>, o: nat, p: Pos)
    requires o <= |s|
    ensures AllWellFormed(Lex(s, o, p)) && AllAfter(Lex(s, o, p), p) && Ascending(Lex(s, o, p))
    decreases |s| - o
  {
    if o < |s| {
      if IsSpace(s[o]) {
        var q := Advance(p, s[o]);
        LexWellFormed(s, o + 1, q);
        ConsAscending(None, Lex(s, o + 1, q), p, q);
        assert Lex(s, o, p) == Emitted(None) + Lex(s, o + 1, q);
      } else {
        var lx := Classify(s, o);
        var t := TokenOf(s, o, p, lx);
        var q := Moved(p, s, o, o + lx.len);
        LexWellFormed(s, o + lx.len, q);
        TokenWellFormed(s, o, p);
        MovedForward(p, s, o, o + lx.len);
        LexToken(s, o, p, t, o + lx.len, q);
        ConsWellFormed(t, Lex(s, o + lx.len, q));
        ConsAscending(t, Lex(s, o + lx.len, q), p, q);
      }
    }
  }

  /** Each token takes at least one input byte. */
  lemma {:induction false} LexLength(s: seq<Byte>, o: nat, p: Pos)
    requires o <= |s|
    ensures |Lex(s, o, p)| <= |s| - o
    decreases |s| - o
  {
    if o < |s| {
      if IsSpace(s[o]) {
        LexLength(s, o + 1, Advance(p, s[o]));
      } else {
        var lx := Classify(s, o);
        var t, q := TokenOf(s, o, p, lx), Moved(p, s, o, o + lx.len);
        LexLength(s, o + lx.len, q);
        LexToken(s, o, p, t, o + lx.len, q);
      }
    }
  }

  /** `tokenize` returns no token exactly when every byte is white space or
      a character no scanner accepts; in particular for empty and
      all-white-space input. */
  lemma {:induction false} LexEmpty(s: seq<Byte>, o: nat, p: Pos)
    requires o <= |s|
    ensures Lex(s, o, p) == [] <==> forall i :: o <= i < |s| ==> IsSpace(s[i]) || Unmapped(s[i])
    decreases |s| - o
  {
    if o < |s| {
      if IsSpace(s[o]) {
        LexEmpty(s, o + 1, Advance(p, s[o]));
      } else {
        ClassifyNone(s, o);
        var lx := Classify(s, o);
        if lx.kind.None? {
          LexEmpty(s, o + 1, Moved(p, s, o, o + 1));
        } else {
          assert Lex(s, o, p) != [];
        }
      }
    }
  }
}
