/** The tokenizer itself: a state machine over a `Tokenizer` record whose
    fields are updated in place, one byte at a time. The character source is
    the byte sequence `src`, read through the index `readPos` as `fgetc`
    reads a file. */
module Lexer {
  import opened TokenDefs
  import opened CType
  import opened ScanSpec
  import opened LexProperties

  class Tokenizer {
    /** The bytes of the source file, and how many of them `fgetc` has read. */
    const src: seq<Byte>
    var readPos: nat

    var currChar: int
    var line: int
    var col: int
    const buffer: array<Byte>
    var buffPos: nat

    /** The lookahead is the last byte read, or EOF once the source is exhausted. */
    ghost predicate StreamOk()
      reads this`currChar, this`readPos
    {
      readPos <= |src| &&
      if currChar == EOF then readPos == |src|
      else 1 <= readPos && currChar == src[readPos - 1]
    }

    /** The buffer holds buffPos bytes followed by a NUL. */
    ghost predicate BufferOk()
      reads this`buffPos, buffer
    {
      buffer.Length == BUFFER_SIZE && buffPos < BUFFER_SIZE && buffer[buffPos] == 0
    }

    ghost predicate Valid()
      reads this`currChar, this`readPos, this`buffPos, buffer
    {
      StreamOk() && BufferOk()
    }

    /** The index in src of the lookahead (|src| once it is EOF). */
    ghost function Offset(): (o: nat)
      reads this`currChar, this`readPos
      requires StreamOk()
      ensures o <= |src| && Look(src, o) == currChar
    {
      if currChar == EOF then |src| else readPos - 1
    }

    /** The unread input, lookahead first. */
    ghost function Rest(): seq<Byte>
      reads this`currChar, this`readPos
      requires StreamOk()
    {
      src[Offset()..]
    }

    ghost function Position(): Pos
      reads this`line, this`col
    {
      Pos(line, col)
    }

    /** The bytes of the token being built. */
    ghost function Contents(): seq<Byte>
      reads this`buffPos, buffer
      requires BufferOk()
    {
      buffer[..buffPos]
    }

    /** `init_tokenizer`: primes the lookahead with the first byte. */
    constructor (file: seq<Byte>)
      ensures Valid() && fresh(buffer)
      ensures src == file && Rest() == file
      ensures Position() == Pos(1, 1) && Contents() == []
    {
      src := file;
      buffer := new Byte[BUFFER_SIZE](_ => 0);
      if |file| > 0 {
        currChar, readPos := file[0], 1;
      } else {
        currChar, readPos := EOF, 0;
      }
      line, col := 1, 1;
      buffPos := 0;
    }

    /** `fgetc`: the next byte of the source, or EOF past its end. */
    method Fgetc() returns (c: int)
      requires readPos <= |src|
      modifies this`readPos
      ensures readPos <= |src|
      ensures old(readPos) < |src| ==> c == src[old(readPos)] && readPos == old(readPos) + 1
      ensures old(readPos) == |src| ==> c == EOF && readPos == old(readPos)
    {
      if readPos < |src| {
        c := src[readPos];
        readPos := readPos + 1;
      } else {
        c := EOF;
      }
    }

    /** `clear_buffer`. */
    method ClearBuffer()
      requires buffer.Length == BUFFER_SIZE
      modifies this`buffPos, buffer
      ensures BufferOk() && Contents() == []
    {
      buffPos := 0;
      buffer[0] := 0;
    }

    /** `consume`: moves the position past the lookahead and reads the next byte. */
    method Consume()
      requires StreamOk()
      modifies this`currChar, this`readPos, this`line, this`col
      ensures StreamOk()
      ensures Position() == Advance(old(Position()), old(currChar))
      ensures Offset() == if old(currChar) == EOF then old(Offset()) else old(Offset()) + 1
    {
      if currChar == NEWLINE {
        line := line + 1;
        col := 1;
      } else if currChar != EOF {
        col := col + 1;
      }
      currChar := Fgetc();
    }

    /** `peek`: the byte after the lookahead; reading it and pushing it back
        with `ungetc` leaves the state as it was. */
    method Peek() returns (c: int)
      requires StreamOk()
      ensures c == Look(Rest(), 1)
      ensures currChar != EOF ==> c == Look(src, Offset() + 1)
    {
      if readPos < |src| {
        c := src[readPos];
      } else {
        c := EOF;
      }
    }

    /** `append_buffer`: keeps the byte while there is room before the NUL slot. */
    method AppendBuffer(c: Byte)
      requires BufferOk()
      modifies this`buffPos, buffer
      ensures BufferOk()
      ensures Contents() == AppendOne(old(Contents()), c)
    {
      if buffPos < BUFFER_SIZE - 1 {
        buffer[buffPos] := c;
        buffPos := buffPos + 1;
        buffer[buffPos] := 0;
        assert buffer[..buffPos] == old(buffer[..buffPos]) + [c];
      }
    }

    /** `create_token`: the text is `strndup(buffer, buff_pos)`, the position
        is the current one, and the buffer is emptied. */
    method CreateToken(kind: TokenKind) returns (tok: Token)
      requires BufferOk()
      modifies this`buffPos, buffer
      ensures BufferOk() && Contents() == []
      ensures tok == Token(kind, CStr(old(Contents())), line, col)
    {
      tok := Token(kind, CStr(buffer[..buffPos]), line, col);
      ClearBuffer();
    }

    /** The bytes src[o0..Offset()] have been consumed from position p0 and
        appended to the buffer, which held b0 before them. */
    ghost predicate Tracks(o0: nat, p0: Pos, b0: seq<Byte>)
      reads this`currChar, this`readPos, this`line, this`col, this`buffPos, buffer
    {
      Valid() && o0 <= Offset() && |b0| < BUFFER_SIZE &&
      Position() == Moved(p0, src, o0, Offset()) &&
      Contents() == Collected(b0, src, o0, Offset())
    }

    /** The `append_buffer(t, t->curr_char); consume(t);` pair every scanner uses. */
    method AppendConsume()
      requires Valid()
      modifies this`currChar, this`readPos, this`line, this`col, this`buffPos, buffer
      ensures Valid()
      ensures Contents() == AppendOne(old(Contents()), ToChar(old(currChar)))
      ensures Position() == Advance(old(Position()), old(currChar))
      ensures Offset() == if old(currChar) == EOF then old(Offset()) else old(Offset()) + 1
    {
      AppendBuffer(ToChar(currChar));
      Consume();
    }

    /** The loop shared by the identifier, number and string scanners:
        appends and consumes the lookahead while it belongs to cls, so the
        longest run of cls is consumed and appended. */
    method AppendRun(cls: CharClass)
      requires Valid()
      modifies this`currChar, this`readPos, this`line, this`col, this`buffPos, buffer
      ensures Valid()
      ensures Offset() == old(Offset()) + Run(src, old(Offset()), cls)
      ensures Position() == Moved(old(Position()), src, old(Offset()), Offset())
      ensures Contents() == Collected(old(Contents()), src, old(Offset()), Offset())
    {
      ghost var o0, p0, b0 := Offset(), Position(), Contents();
      while InClass(cls, currChar)
        invariant Tracks(o0, p0, b0)
        invariant Run(src, o0, cls) == (Offset() - o0) + Run(src, Offset(), cls)
        decreases |src| - Offset()
      {
        ghost var k := Offset();
        AppendConsume();
        assert Collected(b0, src, o0, k + 1) == AppendOne(Collected(b0, src, o0, k), src[k]);
        assert Moved(p0, src, o0, k + 1) == Advance(Moved(p0, src, o0, k), src[k]);
      }
    }

    /** `create_ident_token`: appends and consumes the longest run of
        identifier characters. */
    method CreateIdentToken() returns (tok: Token)
      requires Valid()
      modifies this`currChar, this`readPos, this`line, this`col, this`buffPos, buffer
      ensures Valid() && Contents() == []
      ensures Offset() == old(Offset()) + Run(src, old(Offset()), IdentChars)
      ensures Position() == Moved(old(Position()), src, old(Offset()), Offset())
      ensures tok == Token(Ident, CStr(Collected(old(Contents()), src, old(Offset()), Offset())), line, col)
    {
      AppendRun(IdentChars);
      tok := CreateToken(Ident);
    }

    /** `create_num_literal_token`: appends and consumes the longest run of digits. */
    method CreateNumLiteralToken() returns (tok: Token)
      requires Valid()
      modifies this`currChar, this`readPos, this`line, this`col, this`buffPos, buffer
      ensures Valid() && Contents() == []
      ensures Offset() == old(Offset()) + Run(src, old(Offset()), Digits)
      ensures Position() == Moved(old(Position()), src, old(Offset()), Offset())
      ensures tok == Token(NumLit, CStr(Collected(old(Contents()), src, old(Offset()), Offset())), line, col)
    {
      AppendRun(Digits);
      tok := CreateToken(NumLit);
    }

    /** `create_str_literal_token`: appends the lookahead, then everything up
        to a double quote or the end of input, then the lookahead it stopped
        on (the closing quote, or `(char)EOF`). */
    method CreateStrLiteralToken() returns (tok: Token)
      requires Valid()
      modifies this`currChar, this`readPos, this`line, this`col, this`buffPos, buffer
      ensures Valid() && Contents() == []
      ensures Offset() == old(Offset()) + StrScan(src, old(Offset())).len
      ensures Position() == Moved(old(Position()), src, old(Offset()), Offset())
      ensures tok == Token(StrLit, CStr(Padded(Collected(old(Contents()), src, old(Offset()), Offset()), StrScan(src, old(Offset())).eofs)), line, col)
    {
      ghost var o0, p0, b0 := Offset(), Position(), Contents();
      AppendConsume();
      ghost var o1 := Offset();
      AppendRun(StrBody);
      ghost var e := Offset();
      AppendConsume();
      StrScanMoved(src, o0, p0, o1, e, Offset(), Position());
      StrScanCollected(src, o0, b0, o1, e, Offset(), Contents());
      tok := CreateToken(StrLit);
    }

    /** The `switch` of `create_single_char_token`: the kind the lookahead
        starts, if any; when `=`, `<` or `>` is followed by `=`, the first of
        the two bytes is appended and consumed. */
    method OperatorSwitch() returns (kind: Option<TokenKind>)
      requires Valid()
      modifies this`currChar, this`readPos, this`line, this`col, this`buffPos, buffer
      ensures Valid()
      ensures var op := OpScan(Look(src, old(Offset())), Look(src, old(Offset()) + 1));
        kind == (if op.Some? then Some(op.value.kind) else None) &&
        Offset() == old(Offset()) + (if op.Some? then op.value.len - 1 else 0) &&
        (kind.Some? ==> currChar != EOF) &&
        Position() == Moved(old(Position()), src, old(Offset()), Offset()) &&
        Contents() == Collected(old(Contents()), src, old(Offset()), Offset())
    {
      ghost var o0 := Offset();
      OpScanShape(currChar, Look(src, o0 + 1));
      kind := SingleCharKind(currChar);
      var two := TwoCharKind(currChar);
      if two.Some? {
        var next := Peek();
        if next == EQUALS {
          ghost var p0, b0 := Position(), Contents();
          AppendConsume();
          assert Moved(p0, src, o0, o0 + 1) == Advance(p0, src[o0]);
          assert Collected(b0, src, o0, o0 + 1) == AppendOne(b0, src[o0]);
          kind := two;
        }
      }
    }

    /** The end of `create_single_char_token` once the switch found a kind:
        the lookahead is appended and consumed, and the token built from
        everything consumed since o0. */
    method EmitOperator(kind: TokenKind, ghost o0: nat, ghost p0: Pos) returns (tok: Token)
      requires Valid() && currChar != EOF && Tracks(o0, p0, [])
      modifies this`currChar, this`readPos, this`line, this`col, this`buffPos, buffer
      ensures Valid() && Contents() == [] && Offset() == old(Offset()) + 1
      ensures Position() == Moved(p0, src, o0, Offset())
      ensures tok == Token(kind, CStr(Collected([], src, o0, Offset())), line, col)
    {
      ghost var o1, p1, b1 := Offset(), Position(), Contents();
      AppendConsume();
      ConsumedOne(p0, [], src, o0, o1, p1, b1);
      tok := CreateToken(kind);
    }

    /** `create_single_char_token`: an operator or delimiter of one byte, or
        of two when `=`, `<` or `>` is followed by `=`; none for any other
        lookahead, which is then left unconsumed. */
    method CreateSingleCharToken() returns (tok: Option<Token>)
      requires Valid()
      modifies this`currChar, this`readPos, this`line, this`col, this`buffPos, buffer
      ensures Valid() && Contents() == []
      ensures var op := OpScan(Look(src, old(Offset())), Look(src, old(Offset()) + 1));
        Offset() == old(Offset()) + (if op.Some? then op.value.len else 0) &&
        Position() == Moved(old(Position()), src, old(Offset()), Offset()) &&
        tok == if op.None? then None else Some(Token(op.value.kind, CStr(Collected([], src, old(Offset()), Offset())), line, col))
    {
      ghost var o0, p0 := Offset(), Position();
      ghost var op := OpScan(Look(src, o0), Look(src, o0 + 1));
      ClearBuffer();
      assert Offset() == o0 && Position() == p0;
      var kind := OperatorSwitch();
      assert kind == (if op.Some? then Some(op.value.kind) else None);
      if kind.Some? {
        var t := EmitOperator(kind.value, o0, p0);
        tok := Some(t);
      } else {
        tok := None;
      }
    }

    /** The identifier branch of `tokenize`'s dispatch: `create_ident_token`
        followed by `keyword_token_pass`. */
    method IdentBranch() returns (current: Option<Token>)
      requires Valid() && Contents() == [] && IsAlpha(currChar)
      modifies this`currChar, this`readPos, this`line, this`col, this`buffPos, buffer
      ensures Valid() && Contents() == []
      ensures var lx := Classify(src, old(Offset()));
        current == TokenOf(src, old(Offset()), old(Position()), lx) &&
        Offset() == old(Offset()) + (if current.Some? then lx.len else 0) &&
        Position() == Moved(old(Position()), src, old(Offset()), Offset())
    {
      var t := CreateIdentToken();
      t := KeywordTokenPass(t);
      current := Some(t);
    }

    /** The number branch of `tokenize`'s dispatch. */
    method NumberBranch() returns (current: Option<Token>)
      requires Valid() && Contents() == [] && IsDigit(currChar)
      modifies this`currChar, this`readPos, this`line, this`col, this`buffPos, buffer
      ensures Valid() && Contents() == []
      ensures var lx := Classify(src, old(Offset()));
        current == TokenOf(src, old(Offset()), old(Position()), lx) &&
        Offset() == old(Offset()) + (if current.Some? then lx.len else 0) &&
        Position() == Moved(old(Position()), src, old(Offset()), Offset())
    {
      var t := CreateNumLiteralToken();
      current := Some(t);
    }

    /** The string branch of `tokenize`'s dispatch. */
    method StringBranch() returns (current: Option<Token>)
      requires Valid() && Contents() == [] && currChar == DQUOTE
      modifies this`currChar, this`readPos, this`line, this`col, this`buffPos, buffer
      ensures Valid() && Contents() == []
      ensures var lx := Classify(src, old(Offset()));
        current == TokenOf(src, old(Offset()), old(Position()), lx) &&
        Offset() == old(Offset()) + (if current.Some? then lx.len else 0) &&
        Position() == Moved(old(Position()), src, old(Offset()), Offset())
    {
      var t := CreateStrLiteralToken();
      current := Some(t);
    }

    /** The last branch of `tokenize`'s dispatch: anything else goes to
        `create_single_char_token`. */
    method OperatorBranch() returns (current: Option<Token>)
      requires Valid() && Contents() == [] && currChar != EOF && !IsSpace(currChar)
      requires !IsAlpha(currChar) && !IsDigit(currChar) && currChar != DQUOTE
      modifies this`currChar, this`readPos, this`line, this`col, this`buffPos, buffer
      ensures Valid() && Contents() == []
      ensures var lx := Classify(src, old(Offset()));
        current == TokenOf(src, old(Offset()), old(Position()), lx) &&
        Offset() == old(Offset()) + (if current.Some? then lx.len else 0) &&
        Position() == Moved(old(Position()), src, old(Offset()), Offset())
    {
      current := CreateSingleCharToken();
    }

    /** The dispatch in the body of `tokenize`'s loop: picks the scanner by
        the lookahead and runs it; none when no operator starts here, and
        then nothing is consumed. */
    method ScanNext() returns (current: Option<Token>)
      requires Valid() && Contents() == [] && currChar != EOF && !IsSpace(currChar)
      modifies this`currChar, this`readPos, this`line, this`col, this`buffPos, buffer
      ensures Valid() && Contents() == []
      ensures var lx := Classify(src, old(Offset()));
        current == TokenOf(src, old(Offset()), old(Position()), lx) &&
        Offset() == old(Offset()) + (if current.Some? then lx.len else 0) &&
        Position() == Moved(old(Position()), src, old(Offset()), Offset())
    {
      if IsAlpha(currChar) {
        current := IdentBranch();
      } else if IsDigit(currChar) {
        current := NumberBranch();
      } else if currChar == DQUOTE {
        current := StringBranch();
      } else {
        current := OperatorBranch();
      }
    }

    /** The white-space loop of `tokenize`: consumes the longest run of
        white space. */
    method SkipSpace()
      requires StreamOk()
      modifies this`currChar, this`readPos, this`line, this`col
      ensures StreamOk() && !IsSpace(currChar)
      ensures Offset() == old(Offset()) + Run(src, old(Offset()), Spaces)
      ensures Position() == Moved(old(Position()), src, old(Offset()), Offset())
    {
      ghost var o0, p0 := Offset(), Position();
      while IsSpace(currChar)
        invariant StreamOk() && o0 <= Offset()
        invariant Position() == Moved(p0, src, o0, Offset())
        invariant Run(src, o0, Spaces) == (Offset() - o0) + Run(src, Offset(), Spaces)
        decreases |src| - Offset()
      {
        Consume();
      }
    }

    /** The second half of the body of `tokenize`'s loop, at a lookahead
        that is neither EOF nor white space: dispatches on it, and consumes
        a character no scanner accepts. */
    method LexStep() returns (current: Option<Token>)
      requires Valid() && Contents() == [] && currChar != EOF && !IsSpace(currChar)
      modifies this`currChar, this`readPos, this`line, this`col, this`buffPos, buffer
      ensures Valid() && Contents() == []
      ensures Offset() == old(Offset()) + Classify(src, old(Offset())).len
      ensures Position() == Moved(old(Position()), src, old(Offset()), Offset())
      ensures Lex(src, old(Offset()), old(Position())) == Emitted(current) + Lex(src, Offset(), Position())
    {
      ghost var o, q := Offset(), Position();
      current := ScanNext();
      if current.None? {
        assert Moved(q, src, o, o + 1) == Advance(q, src[o]);
        Consume();
      }
      LexToken(src, o, q, current, Offset(), Position());
    }

    /** One pass of the body of `tokenize`'s loop: skips white space, stops
        at EOF, and otherwise scans one lexeme. The token it yields, if any,
        is the next one of the list. */
    method NextToken() returns (current: Option<Token>)
      requires Valid() && Contents() == []
      modifies this`currChar, this`readPos, this`line, this`col, this`buffPos, buffer
      ensures Valid() && Contents() == [] && old(Offset()) <= Offset()
      ensures currChar == EOF || old(Offset()) < Offset()
      ensures var o1 := old(Offset()) + Run(src, old(Offset()), Spaces);
        Offset() == o1 + (if o1 < |src| && !IsSpace(src[o1]) then Classify(src, o1).len else 0)
      ensures Position() == Moved(old(Position()), src, old(Offset()), Offset())
      ensures Lex(src, old(Offset()), old(Position())) == Emitted(current) + Lex(src, Offset(), Position())
    {
      ghost var o, q := Offset(), Position();
      SkipSpace();
      ghost var o1 := Offset();
      LexSkipSpace(src, o, q, o1, Position());
      if currChar == EOF {
        current := None;
        assert Emitted(current) == [];
      } else {
        current := LexStep();
        MovedSplit(q, src, o, o1, Offset());
      }
    }

    /** `tokenize`: collects the tokens in order until the input is
        exhausted. They are well formed, their positions strictly increase,
        and each takes at least one byte of the input. */
    method Tokenize() returns (tokens: seq<Token>)
      requires Valid() && Contents() == []
      modifies this`currChar, this`readPos, this`line, this`col, this`buffPos, buffer
      ensures Valid() && Contents() == []
      ensures tokens == Lex(src, old(Offset()), old(Position()))
      ensures currChar == EOF && Rest() == []
      ensures Position() == Moved(old(Position()), src, old(Offset()), |src|)
      ensures AllWellFormed(tokens) && AllAfter(tokens, old(Position()))
      ensures Ascending(tokens) && |tokens| <= |old(Rest())|
    {
      ghost var o0, p0 := Offset(), Position();
      tokens := [];
      while currChar != EOF
        invariant Valid() && Contents() == []
        invariant o0 <= Offset() && Position() == Moved(p0, src, o0, Offset())
        invariant Lex(src, o0, p0) == tokens + Lex(src, Offset(), Position())
        decreases |src| - Offset()
      {
        ghost var k := Offset();
        var current := NextToken();
        MovedSplit(p0, src, o0, k, Offset());
        AppendEmitted(tokens, current, Lex(src, Offset(), Position()));
        if current.Some? {
          tokens := tokens + [current.value];
        }
      }
      AppendEmitted(tokens, None, Lex(src, Offset(), Position()));
      LexWellFormed(src, o0, p0);
      LexLength(src, o0, p0);
    }
  }
}
