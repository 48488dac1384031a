# A verified model of the Bootstrap tokenizer

This project models the lexer of the Bootstrap compiler front end, `src/tokenizer.c`, in Dafny and proves what it promises.

The lexer is a state machine over a `Tokenizer` record. The record holds a one-byte lookahead, 1-based line and column counters, and a 256-byte accumulation buffer with its fill index. `consume` moves the position past the lookahead and reads the next byte. `append_buffer` adds a byte while there is room. Four scanners build tokens: identifiers (with a reserved-word pass), numbers, string literals, and one- and two-character operators. `tokenize` skips white space, dispatches on the lookahead, drops characters no scanner accepts, and chains the tokens in source order.

The project has five files:

- `token_defs.dfy` (modules `TokenDefs` and `CType`): bytes, EOF, `BUFFER_SIZE`, the token kinds, tokens, positions and the ASCII `<ctype.h>` classifiers.
- `scan_spec.dfy` (module `ScanSpec`): a pure description of the lexer.
  - `Advance`/`Moved` model the position, and `AppendOne`/`Collected`/`Padded` the bounded buffer.
  - `CStr` is `strndup`'s copy. `Run` is a maximal run of one byte class.
  - It holds the keyword table and the operator switch as lookup functions.
  - `StrScan` is the string scanner, `Classify` the dispatch, `TokenOf` the token one scan yields.
  - `Lex` is the token sequence of a whole input.
- `tokenizer.dfy` (module `Lexer`): class `Tokenizer` with the record's fields, updated in place.
  - The `FILE *` becomes the byte sequence `src` read through the index `readPos`.
  - The buffer is an `array<Byte>` of `BUFFER_SIZE` bytes.
  - `init_tokenizer` is the class's constructor.
  - `keyword_token_pass` only retags a token, so it is the pure function `ScanSpec.KeywordTokenPass`, applied in `IdentBranch`.
  - Every other C function is a method proved against the `ScanSpec` functions. `Tokenize` returns exactly `Lex` of the unread input.
- `lex_properties.dfy` (module `LexProperties`): lemmas about the scanners and `Lex`.
  - They give each token's text and kind, that each scan is maximal, and that every returned token is well formed.
  - They prove that positions strictly increase, that the list is no longer than the input, and when the list is empty.
- `lex_examples.dfy` (module `LexExamples`): concrete inputs worked out to their exact token lists.

Conventions of the code as written:

- No end-of-stream token is emitted. `TKN_EOF` and `TKN_UNKNOWN` exist as kinds but never appear in the output.
- A token records the line and column *after* its last byte, read at `create_token` time (`src/tokenizer.c:41-42`). That is not the position of its first byte.
- The while keyword is the upper-case `WHILE` (`src/tokenizer.c:206`). Lower-case `while` is an identifier.
- `==` is one two-byte token of kind `Assign`, exactly like `=` (`src/tokenizer.c:113-120`). No separate equality kind exists.
- A string literal without a closing quote takes the rest of the input. The scanner then appends `(char)EOF`, the byte 0xFF (`src/tokenizer.c:104`). When the literal has no NUL byte and at most 254 bytes, the text is the opening quote, the body and a trailing 0xFF, not just the quote and the body. A longer literal is cut to its first 255 bytes by `append_buffer` (`src/tokenizer.c:76-81`) and loses the 0xFF. A NUL byte ends the text early, because `strndup` stops there (`src/tokenizer.c:36`).
- White space is whatever `isspace` accepts in the C locale: space and bytes 9 to 13. That includes vertical tab and form feed.
- `TKN_DB_QUOTE` is in the operator switch but never produced, because `tokenize` routes `"` to the string scanner first.
- Token kinds are the names `tokenizer.c` uses. The enum in `include/tokenizer.h:11-22` is stale and lacks most of them.

## Model

| member | source | states |
|---|---|---|
| Lexer.Tokenizer.constructor | src/tokenizer.c:4-16 | the lookahead is the first byte of the file (EOF for an empty one), the position is line 1 column 1, and the buffer is empty and NUL-terminated |
| Lexer.Tokenizer.ClearBuffer | src/tokenizer.c:18-21 | the buffer is empty with a NUL in slot 0 |
| Lexer.Tokenizer.CreateToken | src/tokenizer.c:31-48 | the token's text is `strndup` of the buffer (its bytes up to the first NUL), its line and column are the tokenizer's current ones, and the buffer is empty afterwards |
| ScanSpec.CStr | src/tokenizer.c:36 | the bytes `strndup` copies out of the buffer, up to the first NUL; characterised by `CStrPrefix` |
| ScanSpec.CStrPrefix | src/tokenizer.c:36 | `strndup`'s copy is the longest NUL-free prefix of the buffer |
| Lexer.Tokenizer.Consume | src/tokenizer.c:60-68 | the position advances by `consume`'s rule on the old lookahead, and the next byte is read, except at EOF, where nothing moves |
| LexProperties.ConsumeCases | src/tokenizer.c:60-68 | a newline gives the next line at column 1, another byte the next column on the same line, EOF the same position |
| ScanSpec.Advance | src/tokenizer.c:60-66 | `consume`'s position rule on one lookahead (next line at column 1 for a newline, next column otherwise, unchanged at EOF); its cases are stated by `ConsumeCases` |
| ScanSpec.Moved | src/tokenizer.c:60-68 | the position after `consume` has been applied to each byte of a stretch of input in turn, starting from a given position |
| ScanSpec.MovedForward | src/tokenizer.c:60-68 | consuming at least one byte moves the position strictly forward in (line, column) order |
| Lexer.Tokenizer.Peek | src/tokenizer.c:70-74 | returns the byte after the lookahead (EOF past the end) and changes nothing |
| Lexer.Tokenizer.AppendBuffer | src/tokenizer.c:76-81 | the byte is kept exactly while fewer than BUFFER_SIZE - 1 bytes are held; the fill index stays below BUFFER_SIZE with a NUL in its slot |
| ScanSpec.AppendOne | src/tokenizer.c:76-81 | one `append_buffer` on the buffer contents: the byte is added only while fewer than BUFFER_SIZE - 1 bytes are held; its cases are stated by `AppendOneCases` |
| LexProperties.AppendOneCases | src/tokenizer.c:76-81 | the buffer never reaches BUFFER_SIZE bytes; when it holds 255 the byte is dropped and the buffer is unchanged, otherwise the byte is appended |
| ScanSpec.Collected | src/tokenizer.c:76-81 | the buffer contents after `append_buffer` of each byte of a stretch of input in turn; stays below BUFFER_SIZE bytes |
| ScanSpec.CollectedTruncates | src/tokenizer.c:76-81 | appending a run of bytes keeps the first BUFFER_SIZE - 1 bytes of old contents plus run, and drops the rest |
| ScanSpec.Padded | src/tokenizer.c:98-104 | the buffer contents after the string scanner's appends of `(char)EOF`, the byte 0xFF, when its lookahead was EOF; stays below BUFFER_SIZE bytes |
| CType.ToChar | src/tokenizer.c:104 | `(char)c` keeps a byte and turns EOF into the byte 0xFF |
| Lexer.Tokenizer.Fgetc | src/tokenizer.c:67 | `fgetc` on the in-memory source: the byte at the read index and one step on, or EOF at the end with the index unchanged |
| ScanSpec.Look | src/tokenizer.c:67 | `fgetc` at an index gives the byte there, and EOF exactly past the end |
| Lexer.Tokenizer.AppendConsume | src/tokenizer.c:85-86 | one `append_buffer(curr_char)` plus `consume`: the buffer gains `(char)` of the lookahead, the position advances, and the index moves unless at EOF |
| Lexer.Tokenizer.AppendRun | src/tokenizer.c:84-87 | the loop consumes and appends exactly the longest run of its byte class from the lookahead |
| CType.IsSpace | src/tokenizer.c:234 | `isspace` in the C locale: space and bytes 9 to 13; EOF is not white space |
| CType.IsAlpha | src/tokenizer.c:242 | `isalpha` in the C locale: the ASCII letters `A`-`Z` and `a`-`z` |
| CType.IsDigit | src/tokenizer.c:91 | `isdigit`: the ASCII digits `0`-`9`, tested by the number loop and by the dispatch at line 245 |
| CType.IsAlnum | src/tokenizer.c:84 | `isalnum` in the C locale: a letter or a digit |
| CType.IsIdentChar | src/tokenizer.c:84 | the identifier loop's guard: `isalnum(c)` or `c == '_'` |
| ScanSpec.IsStrBodyChar | src/tokenizer.c:100 | the string loop's guard `c != '"' && c >= 0`: any byte but the double quote, and not EOF |
| ScanSpec.Run | src/tokenizer.c:84-100 | the number of bytes a `while` loop of the scanners (and the white-space loop at line 234) consumes from an index: it stays within the input, and `RunMaximal` states it is the longest run of its class |
| ScanSpec.RunMaximal | src/tokenizer.c:84-96 | every byte of a run is in its class, and the byte after it is not |
| Lexer.Tokenizer.CreateIdentToken | src/tokenizer.c:83-89 | consumes the longest run of identifier characters and returns an Ident token of the buffered run at the position after it |
| Lexer.Tokenizer.CreateNumLiteralToken | src/tokenizer.c:90-96 | consumes the longest run of digits and returns a NumLit token of the buffered run at the position after it |
| LexProperties.WordRun | src/tokenizer.c:83-96 | an identifier or digit run from a byte of its class is non-empty and maximal, and has no NUL byte |
| LexProperties.IdentText | src/tokenizer.c:83-89 | an identifier spans the longest run of `[A-Za-z0-9_]` from a letter; its text is that run cut to 255 bytes; its kind is the keyword kind the text spells, else Ident; its position is after the run |
| LexProperties.NumberText | src/tokenizer.c:90-96 | a number spans the longest run of digits; its text is that run cut to 255 bytes; its kind is NumLit; its position is after the run |
| Lexer.Tokenizer.CreateStrLiteralToken | src/tokenizer.c:97-107 | consumes what `StrScan` says; the text is `strndup` of the buffered bytes plus the `(char)EOF` bytes it appends |
| ScanSpec.StrScan | src/tokenizer.c:97-107 | how many bytes the string scanner consumes from an index and how many `(char)EOF` bytes it then appends; it stays within the input, and `StrScanShape` states its cases |
| ScanSpec.StrScanShape | src/tokenizer.c:97-107 | with a closing quote ahead, the literal ends at the first one with no quote inside; without one it takes the rest of the input plus one `(char)EOF`; at end of input it is two `(char)EOF` |
| ScanSpec.StrScanMoved | src/tokenizer.c:98-105 | the scanner's three steps leave the index and position after the bytes `StrScan` counts |
| ScanSpec.StrScanCollected | src/tokenizer.c:98-105 | the scanner's three steps leave the consumed bytes, then the `(char)EOF` bytes, in the buffer |
| LexProperties.QuotedText | src/tokenizer.c:97-107 | the copied text starts with the opening quote; without NUL bytes and within the buffer it is the consumed bytes, followed by 0xFF when one `(char)EOF` was appended |
| LexProperties.StringText | src/tokenizer.c:97-107 | a string token's text starts with `"`; at most one 0xFF is appended; without NUL bytes and within the buffer it is exactly the consumed bytes, plus 0xFF when the closing quote is missing |
| ScanSpec.TwoCharKind | src/tokenizer.c:113-135 | only `=`, `<` and `>` have a two-byte form, and each also has a one-byte kind |
| ScanSpec.SingleCharKind | src/tokenizer.c:112-179 | the `switch`'s one-byte kind of each of its 17 characters, none for any other |
| ScanSpec.OpScan | src/tokenizer.c:112-179 | the operator at a lookahead and the byte after it: at most two bytes, a lookahead that is not EOF, and a second byte only when one follows; `OpScanShape` states when it is two bytes |
| ScanSpec.OpScanShape | src/tokenizer.c:112-179 | an operator is recognised exactly at the switch's characters; it spans two bytes exactly when `=`, `<` or `>` is followed by `=`; its kind is never Unknown, Eof or Ident |
| Lexer.Tokenizer.OperatorSwitch | src/tokenizer.c:112-179 | yields the switch's kind for the lookahead, upgraded when `=` follows `=`, `<` or `>`, in which case the first byte is appended and consumed |
| Lexer.Tokenizer.EmitOperator | src/tokenizer.c:180-184 | the lookahead is appended and consumed, and the token holds every byte consumed since the scan began, at the position after them |
| Lexer.Tokenizer.CreateSingleCharToken | src/tokenizer.c:109-186 | consumes the one or two bytes of the recognised operator and returns its token, or consumes nothing and returns none |
| LexProperties.OperatorText | src/tokenizer.c:109-186 | two bytes exactly when `=`, `<` or `>` is followed by `=`; the text is the bytes consumed; the kind is the two-byte kind or the one-byte kind (Assign for `==`) and never DbQuote |
| ScanSpec.KeywordKind | src/tokenizer.c:188-226 | the reserved-word table: the kind of each of the 13 words, compared with the whole text; `KeywordTableExact` proves it inverse to `Spelling` |
| ScanSpec.KeywordTokenPass | src/tokenizer.c:187-227 | the pass keeps the token's text and position |
| ScanSpec.KeywordTokenPassKinds | src/tokenizer.c:187-227 | the kind becomes k exactly when the text is k's reserved word, and is unchanged when the text is no reserved word |
| ScanSpec.KeywordTableExact | src/tokenizer.c:187-227 | the table maps a text to kind k if and only if k is spelled so |
| ScanSpec.SpelledKeyword | src/tokenizer.c:187-227 | each reserved word maps to its own kind |
| ScanSpec.KeywordSpelled | src/tokenizer.c:187-227 | the table gives a kind only for that kind's reserved word |
| Lexer.Tokenizer.SkipSpace | src/tokenizer.c:234-236 | consumes exactly the longest run of `isspace` bytes |
| ScanSpec.LexSkipSpace | src/tokenizer.c:234-236 | skipping a run of white space contributes no token |
| ScanSpec.Classify | src/tokenizer.c:242-255 | every dispatch consumes at least one byte, and a character no scanner accepts exactly one |
| ScanSpec.TokenOf | src/tokenizer.c:252-255 | a dispatch yields a token exactly when a scanner accepted the lookahead |
| Lexer.Tokenizer.IdentBranch | src/tokenizer.c:242-244 | the identifier scan and keyword pass yield the token and position the dispatch specifies |
| Lexer.Tokenizer.NumberBranch | src/tokenizer.c:245-246 | the number scan yields the token and position the dispatch specifies |
| Lexer.Tokenizer.StringBranch | src/tokenizer.c:247-248 | the string scan yields the token and position the dispatch specifies |
| Lexer.Tokenizer.OperatorBranch | src/tokenizer.c:249-250 | the operator scan yields the token the dispatch specifies, or none with nothing consumed |
| Lexer.Tokenizer.ScanNext | src/tokenizer.c:242-251 | the dispatch picks the scanner by the lookahead and yields the specified token and position |
| ScanSpec.Unmapped | src/tokenizer.c:252-254 | a byte no scanner takes: not a letter, digit or `"`, and not in the `switch`, so `create_single_char_token` returns NULL (line 185) and `tokenize` consumes it |
| LexProperties.ClassifyNone | src/tokenizer.c:252-254 | no scanner accepts exactly the bytes that are no letter, digit, `"` or switch character, and such a byte is consumed alone |
| Lexer.Tokenizer.LexStep | src/tokenizer.c:240-255 | a dispatch consumes exactly the lexeme `Classify` gives (at least one byte), leaves the position after it, and its token, if any, is the next of the specified list |
| Lexer.Tokenizer.NextToken | src/tokenizer.c:233-261 | one loop pass consumes the white-space run and then the next lexeme, if any, leaves the position after them, and yields the next token of the specified list |
| Lexer.Tokenizer.Tokenize | src/tokenizer.c:229-264 | consumes the whole input, ends at the position after it, and returns exactly `Lex` of it; the tokens are well formed, lie after the start, strictly increase in position, and number at most the input's bytes |
| ScanSpec.Lex | src/tokenizer.c:229-264 | the reference token list of an input: white space skipped, one `Classify` dispatch per lexeme, unmapped characters dropped; `Tokenize` is proved equal to it, and `LexWellFormed`, `LexLength` and `LexEmpty` state its properties |
| LexProperties.TokenWellFormed | src/tokenizer.c:240-255 | every token a scan yields is well formed and lies strictly after the position where the scan began |
| LexProperties.LexWellFormed | src/tokenizer.c:229-264 | every token is well formed: never Unknown, Eof or DbQuote, non-empty, with text that fits its kind; positions strictly increase, so tokens come in source order |
| LexProperties.LexLength | src/tokenizer.c:229-264 | each token takes at least one input byte, so there are at most as many tokens as bytes |
| LexProperties.LexEmpty | src/tokenizer.c:229-264 | the list is empty if and only if every byte is white space or a character no scanner accepts, as for empty or all-white-space input |
| LexExamples.NumberThenIdent | src/tokenizer.c:83-96 | `12abc` gives NumLit `12` at (1,3), then Ident `abc` at (1,6) |
| LexExamples.TokenizeNumberThenIdent | src/tokenizer.c:229-264 | `init_tokenizer` and `tokenize` on the file `12abc` return exactly those two tokens |
| LexExamples.LessEqualToken | src/tokenizer.c:121-127 | `<=` is one LessEqual token with text `<=` |
| LexExamples.DoubleEqualsIsAssign | src/tokenizer.c:113-120 | `==` is one Assign token with text `==` |
| LexExamples.UnmappedDropped | src/tokenizer.c:252-254 | `x @ y` gives just Ident `x` and Ident `y` |
| LexExamples.UnterminatedString | src/tokenizer.c:97-107 | `"ab` gives one StrLit token of text `"ab` followed by 0xFF |
| LexExamples.NewlinePositions | src/tokenizer.c:60-68 | after a newline the next token is on line 2 |
| LexExamples.KeywordsExact | src/tokenizer.c:187-227 | `WHILE` and `if` are reserved; `while` and `iffy` stay identifiers |

## Left out

- File I/O: the `FILE *` is the in-memory byte sequence `src`, and `fgetc`/`ungetc` are reads of it at an index. Stream read errors, `fclose` and opening the file are not modelled.
- `src/main.c` (argument checks, `fopen`, exit codes) is not part of this model, being process plumbing.
- `print_tokens` prints diagnostics only and is not modelled.
- `free_tokenizer` and `free_tokens` release memory and are not modelled.
- Allocation failure is not modelled. `calloc` and `strndup` are assumed to succeed, so the `NULL` returns of `init_tokenizer` and `create_token` never happen.
- The linked list threaded through `head`/`prev` is the returned `seq<Token>`, in the same order. List node identity and the `next` pointers are not modelled.
- Integer width of `line` and `col` is not modelled. They are C `int` (`include/tokenizer.h:27-28`, `include/tokenizer.h:35-36`), and `consume` increments them without a bound (`src/tokenizer.c:62-65`). The model's integers are unbounded, so signed overflow past INT_MAX lines or columns is not captured.
- `<ctype.h>` is modelled for the C locale only (ASCII letters, digits and space classes). A byte of 128 or more belongs to no class.
- Lexer.Tokenizer.Tokenize: requires an empty buffer on entry. `init_tokenizer` leaves it empty, and every scanner empties it again.
- LexProperties.StringText: gives the exact text only when the literal has no NUL byte and fits in the buffer. Otherwise `strndup` stops at the NUL or the buffer truncates, and the lemma states only the leading quote.
