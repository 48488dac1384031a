/** Concrete inputs worked out: the tokens `tokenize` returns for them,
    with the position after each token. */
module LexExamples {
  import opened TokenDefs
  import opened CType
  import opened ScanSpec
  import opened LexProperties
  import opened Lexer

  // The step lemmas take the run length, text and next position as
  // parameters fixed by `requires`, so each example supplies them as values.

  /** One identifier that fits in the buffer and is no reserved word. */
  lemma IdentStep(s: seq<Byte>, o: nat, p: Pos, n: nat, v: seq<Byte>, q: Pos)
    requires o < |s| && IsAlpha(s[o]) && n == Run(s, o, IdentChars) && n < BUFFER_SIZE
    requires v == s[o..o + n] && KeywordKind(v).None? && q == Moved(p, s, o, o + n)
    ensures Lex(s, o, p) == [Token(Ident, v, q.line, q.col)] + Lex(s, o + n, q)
  {
    IdentText(s, o, p);
    LexToken(s, o, p, Some(Token(Ident, v, q.line, q.col)), o + n, q);
  }

  /** One number that fits in the buffer. */
  lemma NumberStep(s: seq<Byte>, o: nat, p: Pos, n: nat, v: seq<Byte>, q: Pos)
    requires o < |s| && IsDigit(s[o]) && n == Run(s, o, Digits) && n < BUFFER_SIZE
    requires v == s[o..o + n] && q == Moved(p, s, o, o + n)
    ensures Lex(s, o, p) == [Token(NumLit, v, q.line, q.col)] + Lex(s, o + n, q)
  {
    NumberText(s, o, p);
    LexToken(s, o, p, Some(Token(NumLit, v, q.line, q.col)), o + n, q);
  }

  /** A character no scanner accepts is dropped. */
  lemma UnmappedStep(s: seq<Byte>, o: nat, p: Pos, q: Pos)
    requires o < |s| && !IsSpace(s[o]) && Unmapped(s[o]) && q == Advance(p, s[o])
    ensures Lex(s, o, p) == Lex(s, o + 1, q)
  {
    ClassifyNone(s, o);
    assert Moved(p, s, o, o + 1) == q;
    LexToken(s, o, p, None, o + 1, q);
  }

  /** The runs and positions the scanners meet in `12abc`. */
  lemma NumberThenIdentScans(s: seq<Byte>)
    requires s == ['1' as int, '2' as int, 'a' as int, 'b' as int, 'c' as int]
    ensures Run(s, 0, Digits) == 2 && Moved(Pos(1, 1), s, 0, 2) == Pos(1, 3)
    ensures Run(s, 2, IdentChars) == 3 && Moved(Pos(1, 3), s, 2, 5) == Pos(1, 6)
    ensures s[0..2] == ['1' as int, '2' as int] && s[2..5] == ['a' as int, 'b' as int, 'c' as int]
    ensures KeywordKind(['a' as int, 'b' as int, 'c' as int]).None?
  {
    assert Run(s, 2, Digits) == 0;
    assert Run(s, 1, Digits) == 1;
    assert Moved(Pos(1, 1), s, 0, 1) == Pos(1, 2);
    assert Run(s, 4, IdentChars) == 1;
    assert Run(s, 3, IdentChars) == 2;
    assert Moved(Pos(1, 3), s, 2, 3) == Pos(1, 4);
    assert Moved(Pos(1, 3), s, 2, 4) == Pos(1, 5);
  }

  /** `12abc`: maximal munch splits a number from the identifier after it. */
  lemma NumberThenIdent(s: seq<Byte>)
    requires s == ['1' as int, '2' as int, 'a' as int, 'b' as int, 'c' as int]
    ensures Lex(s, 0, Pos(1, 1)) ==
      [Token(NumLit, ['1' as int, '2' as int], 1, 3), Token(Ident, ['a' as int, 'b' as int, 'c' as int], 1, 6)]
  {
    NumberThenIdentScans(s);
    NumberStep(s, 0, Pos(1, 1), 2, ['1' as int, '2' as int], Pos(1, 3));
    IdentStep(s, 2, Pos(1, 3), 3, ['a' as int, 'b' as int, 'c' as int], Pos(1, 6));
  }

  /** `<=` is one two-byte token. */
  lemma LessEqualToken()
    ensures Lex(['<' as int, '=' as int], 0, Pos(1, 1)) == [Token(LessEqual, ['<' as int, '=' as int], 1, 3)]
  {
    var s: seq<Byte> := ['<' as int, '=' as int];
    var t := Token(LessEqual, s, 1, 3);
    OperatorText(s, 0, Pos(1, 1));
    assert s[0..2] == s;
    assert Moved(Pos(1, 1), s, 0, 1) == Pos(1, 2);
    assert Moved(Pos(1, 1), s, 0, 2) == Pos(1, 3);
    LexToken(s, 0, Pos(1, 1), Some(t), 2, Pos(1, 3));
  }

  /** `==` is one two-byte token of kind Assign, as `=` is. */
  lemma DoubleEqualsIsAssign()
    ensures Lex(['=' as int, '=' as int], 0, Pos(1, 1)) == [Token(Assign, ['=' as int, '=' as int], 1, 3)]
  {
    var s: seq<Byte> := ['=' as int, '=' as int];
    var t := Token(Assign, s, 1, 3);
    OperatorText(s, 0, Pos(1, 1));
    assert s[0..2] == s;
    assert Moved(Pos(1, 1), s, 0, 1) == Pos(1, 2);
    assert Moved(Pos(1, 1), s, 0, 2) == Pos(1, 3);
    LexToken(s, 0, Pos(1, 1), Some(t), 2, Pos(1, 3));
  }

  /** White space is skipped. */
  lemma SpaceStep(s: seq<Byte>, o: nat, p: Pos, q: Pos)
    requires o < |s| && IsSpace(s[o]) && q == Advance(p, s[o])
    ensures Lex(s, o, p) == Lex(s, o + 1, q)
  {
  }

  /** The runs and positions the scanners meet in `x @ y`. */
  lemma UnmappedDroppedScans(s: seq<Byte>)
    requires s == ['x' as int, ' ' as int, '@' as int, ' ' as int, 'y' as int]
    ensures Run(s, 0, IdentChars) == 1 && Run(s, 4, IdentChars) == 1
    ensures Moved(Pos(1, 1), s, 0, 1) == Pos(1, 2) && Moved(Pos(1, 5), s, 4, 5) == Pos(1, 6)
    ensures s[0..1] == ['x' as int] && s[4..5] == ['y' as int]
    ensures IsSpace(s[1]) && IsSpace(s[3]) && Unmapped(s[2])
    ensures Advance(Pos(1, 2), s[1]) == Pos(1, 3) && Advance(Pos(1, 3), s[2]) == Pos(1, 4)
    ensures Advance(Pos(1, 4), s[3]) == Pos(1, 5)
  {
    assert Run(s, 1, IdentChars) == 0;
  }

  /** `x @ y`: white space is skipped and the unmapped `@` is dropped. */
  lemma UnmappedDropped(s: seq<Byte>)
    requires s == ['x' as int, ' ' as int, '@' as int, ' ' as int, 'y' as int]
    ensures Lex(s, 0, Pos(1, 1)) == [Token(Ident, ['x' as int], 1, 2), Token(Ident, ['y' as int], 1, 6)]
  {
    UnmappedDroppedScans(s);
    IdentStep(s, 0, Pos(1, 1), 1, ['x' as int], Pos(1, 2));
    SpaceStep(s, 1, Pos(1, 2), Pos(1, 3));
    UnmappedStep(s, 2, Pos(1, 3), Pos(1, 4));
    SpaceStep(s, 3, Pos(1, 4), Pos(1, 5));
    IdentStep(s, 4, Pos(1, 5), 1, ['y' as int], Pos(1, 6));
  }

  /** `"ab` without a closing quote takes the rest of the input and ends
      in the byte `(char)EOF`. */
  lemma UnterminatedString()
    ensures Lex(['"' as int, 'a' as int, 'b' as int], 0, Pos(1, 1)) ==
      [Token(StrLit, ['"' as int, 'a' as int, 'b' as int, EOF_BYTE], 1, 4)]
  {
    var s: seq<Byte> := ['"' as int, 'a' as int, 'b' as int];
    var t := Token(StrLit, ['"' as int, 'a' as int, 'b' as int, EOF_BYTE], 1, 4);
    assert t.value == s + [EOF_BYTE];
    assert Run(s, 2, StrBody) == 1;
    assert StrScan(s, 0) == Scanned(3, 1);
    assert s[0..3] == s && NoNul(s);
    StringText(s, 0, Pos(1, 1));
    assert Moved(Pos(1, 1), s, 0, 1) == Pos(1, 2);
    assert Moved(Pos(1, 1), s, 0, 2) == Pos(1, 3);
    assert Moved(Pos(1, 1), s, 0, 3) == Pos(1, 4);
    LexToken(s, 0, Pos(1, 1), Some(t), 3, Pos(1, 4));
  }

  /** The runs and positions the scanners meet in `a` newline `b`. */
  lemma NewlinePositionsScans(s: seq<Byte>)
    requires s == ['a' as int, '\n' as int, 'b' as int]
    ensures Run(s, 0, IdentChars) == 1 && Run(s, 2, IdentChars) == 1
    ensures Moved(Pos(1, 1), s, 0, 1) == Pos(1, 2) && Moved(Pos(2, 1), s, 2, 3) == Pos(2, 2)
    ensures s[0..1] == ['a' as int] && s[2..3] == ['b' as int]
    ensures IsSpace(s[1]) && Advance(Pos(1, 2), s[1]) == Pos(2, 1)
  {
    assert Run(s, 1, IdentChars) == 0;
  }

  /** `a` newline `b`: the newline starts line 2 at column 1. */
  lemma NewlinePositions(s: seq<Byte>)
    requires s == ['a' as int, '\n' as int, 'b' as int]
    ensures Lex(s, 0, Pos(1, 1)) == [Token(Ident, ['a' as int], 1, 2), Token(Ident, ['b' as int], 2, 2)]
  {
    NewlinePositionsScans(s);
    IdentStep(s, 0, Pos(1, 1), 1, ['a' as int], Pos(1, 2));
    SpaceStep(s, 1, Pos(1, 2), Pos(2, 1));
    IdentStep(s, 2, Pos(2, 1), 1, ['b' as int], Pos(2, 2));
  }

  /** Keywords match exactly: `WHILE` and `if` are reserved, lower-case
      `while` and `iffy` stay identifiers. */
  lemma KeywordsExact()
    ensures KeywordTokenPass(Token(Ident, ['W' as int, 'H' as int, 'I' as int, 'L' as int, 'E' as int], 1, 6)).kind == While
    ensures KeywordTokenPass(Token(Ident, ['i' as int, 'f' as int], 1, 3)).kind == If
    ensures KeywordTokenPass(Token(Ident, ['w' as int, 'h' as int, 'i' as int, 'l' as int, 'e' as int], 1, 6)).kind == Ident
    ensures KeywordTokenPass(Token(Ident, ['i' as int, 'f' as int, 'f' as int, 'y' as int], 1, 5)).kind == Ident
  {
  }

  /** `init_tokenizer` and `tokenize` on the file `12abc`. */
  method TokenizeNumberThenIdent() returns (tokens: seq<Token>)
    ensures tokens == [Token(NumLit, ['1' as int, '2' as int], 1, 3), Token(Ident, ['a' as int, 'b' as int, 'c' as int], 1, 6)]
  {
    var t := new Tokenizer(['1' as int, '2' as int, 'a' as int, 'b' as int, 'c' as int]);
    assert t.Offset() == 0;
    tokens := t.Tokenize();
    NumberThenIdent(t.src);
  }
}
