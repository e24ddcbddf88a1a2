# A verified model of the Lain lexer

This project models the lexical scanner of the Lain compiler (`src/lexer.c`) and the token-kind spelling table in `include/lexer.h`.

The scanner keeps a cursor into a NUL-terminated source buffer and a line counter. Each `get_token()` call does three things:

1. It skips spaces, tabs, line breaks and `//` comments.
2. It reads one character and dispatches on it: an identifier or reserved word, a number, a string literal, an operator with one character of lookahead, punctuation, EOF or an error token.
3. It returns the token, stamped with the current line.

The model has two layers.

- **Module `Scan`** describes the scanner as functions of the buffer and the cursor `(pos, line)`.
  - `SkipStep` is one turn of `skip_whitespace`'s `for (;;)` loop, and `SkipWs` runs those turns until the loop returns.
  - `IdentifierAt`, `NumberAt` and `StringAt` are the three sub-scanners.
  - `Dispatch` is the switch in `get_token`. `Next` is one whole `get_token` call.
  - `Tokenize` is the stream a caller gets by calling `get_token` until it returns EOF or ERROR, as the loop in `lexer_debug` (`src/main.c`) does.
- **Class `Scanner.Lexer`** is the C's global lexer as an object.
  - Its fields are `pos` and `line`, and the methods update them in place with the same loops the C uses.
  - Each method is proved to leave exactly the cursor and token that the matching `Scan` function describes.
  - `Peek`, `Finished` and `AtNewline` are the C's `peek`, `finished` and `newline`, read directly from the buffer.

The properties are proved about the `Scan` functions. Some are stated against independent references:

- a reserved-word table (`Keywords.ReservedWords`);
- a count of line breaks (`Whitespace.LineBreaks`);
- tables of the operators and punctuation (`Dispatching`);
- the inverse of the spelling table (`Tokens.KindOfSpelling`).

Concrete sources are treated in `Examples`, `Words` and `Spelling`; blanks and `//` comments, alone or before a token, are treated in `Layout`.

The model keeps the behaviour of the code as written:

- `while` is not a reserved word.
- `,` and `;` are errors.
- `skip_whitespace` swallows a `/` that does not start a comment and does not put it back. As a result, the SLASH and SLASH_EQUAL branches of `get_token` are never reached (`UnreachableKinds`).
- `number()` always consumes one more character after the literal, even a line break, and does not count that line break.
- `.5` is INT and `.5.3` is FLOAT, because the kind depends only on a `.` that `number()` itself consumes.
- A comment ended by CR LF counts two lines.

Token kinds are the union of what `src/lexer.c` builds, the cases of `token_to_string`, and BOOL (which only the header's enum and `type_to_string` name). `TypeToString` is total over this set. Every kind outside the header's twenty-value enum falls to the `"invalid token"` fallback.

## Model

| member | source | states |
|---|---|---|
| Tokens.TypeToString | include/lexer.h:36-80 | the result is the "invalid token" fallback exactly for kinds outside the header's enum |
| Tokens.SpellingInverse | include/lexer.h:36-79 | reading a spelling back through the inverse table gives the kind for every enum value, and gives no kind for the fallback |
| Tokens.TypeToStringInjective | include/lexer.h:36-78 | two enum values with the same spelling are the same value |
| Chars.ClassesAreDisjoint | src/lexer.c:52-63 | letters are not digits; letters, digits and `_` are never blanks, never a character get_token's switch names (the terminator among them), and never `,` or `;` |
| Words.WordStopsAtDelimiter | src/lexer.c:154-161 | a word run ends at any blank, at any character get_token's switch names (the terminator among them) and at `,` or `;`, with no blank needed, and the run up to there is one token |
| Keywords.KeywordKindMatchesTable | src/lexer.c:65-152 | the nested switch with compare_str gives a reserved kind exactly when the whole span equals that reserved word (length and bytes), and IDENTIFIER otherwise |
| Scan.RunEnd | src/lexer.c:166-168 | a scanning loop (also those at 156-158, 173-175, 188-190, 209-211) stops at the first character it does not step over, inside the buffer |
| Scan.SkipStep | src/lexer.c:205-233 | each turn that goes round again consumes at least one character and adds at most one line per consumed character; a returning turn leaves the line unchanged |
| Scan.SkipWs | src/lexer.c:203-235 | skip_whitespace never moves the cursor back, never lowers the line and stops inside the buffer |
| Scan.SkipWsStops | src/lexer.c:203-235 | skip_whitespace never stops on a `/`; it stops on a blank only right after a lone `/` it swallowed; the line rises by at most the number of characters consumed |
| Scan.IdentifierAt | src/lexer.c:154-161 | the span is the maximal run of letters, digits and `_` from the first letter; the token is the reserved kind of the span, or IDENTIFIER with the span as lexeme |
| Scan.NumberAt | src/lexer.c:163-184 | the token is INT or FLOAT with a lexeme starting at the literal's first character; the cursor ends one character past the span with the line unchanged |
| Scan.NumberSpan | src/lexer.c:163-184 | the span after the first character is digits with at most one `.`, followed by a non-digit; FLOAT exactly when that part holds a `.`; an INT is never followed by `.` |
| Scan.StringAt | src/lexer.c:186-201 | STRING with exactly the text between the quotes and the closing quote consumed; or ERROR "unexpected terminated string literal" with the cursor left on the line break or terminator met first |
| Scan.Dispatch | src/lexer.c:239-368 | one dispatch consumes at least one character, stays inside the buffer and stamps the token with the unchanged line |
| Scan.Next | src/lexer.c:237-369 | a get_token call moves the cursor forward, never lowers the line, and the token carries the line the cursor is left on |
| Scan.Tokenize | src/main.c:38-42 | in the stream, lines never decrease and none is below the starting line; only the last token can be EOF or ERROR; every lexeme span lies inside the buffer |
| Scanner.Lexer.constructor | src/lexer.c:16-20 | init_lexer: cursor at the start of the buffer, line 1 |
| Scanner.Lexer.Advance | src/lexer.c:46 | advance returns the character under the cursor and steps past it |
| Scanner.Lexer.SkipWhitespace | src/lexer.c:203-235 | the in-place loop leaves the cursor and line that SkipWs describes |
| Scanner.Lexer.SkipCommentText | src/lexer.c:209-211 | the comment loop stops on the first line break or terminator |
| Scanner.Lexer.Identifier | src/lexer.c:154-161 | the in-place loop and keyword_identifier give the token and cursor of IdentifierAt |
| Scanner.Lexer.Number | src/lexer.c:163-184 | the two digit loops, the optional `.` and the extra advance give the token and cursor of NumberAt |
| Scanner.Lexer.StringLiteral | src/lexer.c:186-201 | the in-place loop and the two error exits give the token and cursor of StringAt |
| Scanner.Lexer.GetToken | src/lexer.c:237-369 | get_token on the object gives the token and new cursor of Next |
| Scanner.Lexer.Classify | src/lexer.c:239-368 | the switch after skip_whitespace gives the token and cursor of Dispatch |
| Scanner.Lexer.OneLookahead | src/lexer.c:288-335 | the shared `if (peek() == '=')` shape takes the second character only when it matches |
| Whitespace.SkipBlankRun | src/lexer.c:220-232 | a run of spaces, tabs, CRs and LFs ending on a character that is neither blank nor `/` is skipped whole; the line rises by one per LF, per CR LF pair and per lone CR; the cursor is left on that character |
| Whitespace.NothingToSkip | src/lexer.c:230-232 | on a character that is neither blank nor `/`, skip_whitespace returns at once with cursor and line unchanged |
| Whitespace.SkipComment | src/lexer.c:206-216 | a `//` comment is skipped up to its line break, which is consumed and counted; a comment that runs into the terminator leaves the cursor on it |
| Whitespace.CommentEndingInCrLf | src/lexer.c:212-225 | a comment ended by CR LF adds two lines |
| Whitespace.CommentCrLfExample | src/lexer.c:206-226 | `//a` CR LF `x` reaches `x` on line 3, the same text without the comment reaches it on line 2 |
| Whitespace.LoneSlashSwallowed | src/lexer.c:206-218 | a `/` not followed by `/` is consumed and not restored, and get_token scans from the next character |
| Whitespace.BlankSource | src/lexer.c:203-235 | a source of nothing but blanks yields EOF alone, on the line reached by counting its line breaks |
| Layout.SkipLayout | src/lexer.c:203-235 | over any sequence of blanks and `//` comments followed by a character that is neither blank nor `/` (by the terminator, when the last comment is left open), skip_whitespace stops on that character, one turn per blank or comment, adding one line per line-break blank and per comment closed by a line break |
| Layout.LayoutBeforeToken | src/lexer.c:203-235 | over blanks and `//` comments written out in the buffer and followed by a character that is neither blank nor `/`, skip_whitespace stops on that character, on the starting line plus the text's line breaks plus one for every comment ended by CR LF |
| Layout.LayoutThenToken | src/lexer.c:237-240 | get_token after such layout scans the token that starts right after it, on that line |
| Layout.CommentLineThenWord | src/lexer.c:203-240 | a blank, `// c` LF and a tab before `x` give IDENTIFIER `x` on line 2 |
| Layout.CrLfCommentThenWord | src/lexer.c:206-240 | `// a` CR LF before `y` gives IDENTIFIER `y` on line 3, though the text holds one line break |
| Layout.LayoutLineCount | src/lexer.c:206-226 | the lines skip_whitespace counts over such a text are its line breaks plus one for every comment ended by CR LF |
| Layout.LayoutSource | src/lexer.c:203-235 | a source of blanks and complete or unfinished `//` comments yields EOF alone, on the starting line plus the text's line breaks plus the number of comments ended by CR LF |
| Layout.CrLfCommentSource | src/lexer.c:206-226 | `//a` CR LF gives EOF on line 3, though the text holds one line break |
| Dispatching.TwoCharOperatorTaken | src/lexer.c:260-351 | when the first two characters spell one of `+= ++ -= -- *= /= == <= >= != &&` or the double bar that operator is the token and both characters are consumed |
| Dispatching.OneCharOperatorKept | src/lexer.c:260-335 | otherwise `+ - * / = < > !` is its one-character operator with exactly one character consumed (a `-` before a digit or `.` aside) |
| Dispatching.LoneAmpersandOrBar | src/lexer.c:336-351 | a lone `&` or a lone bar is ERROR "invalid syntax", consuming one character |
| Dispatching.MinusDispatch | src/lexer.c:272-287 | a `-` followed by a digit or `.` is a number whose lexeme starts at the `-`; otherwise MINUS_EQUAL, MINUS_MINUS or MINUS |
| Dispatching.PunctuationDispatch | src/lexer.c:248-259 | `( ) { } [ ]`, and `% ? :` at 352-363, are one token of one character |
| Dispatching.DotDispatch | src/lexer.c:354-359 | `.` before a digit starts a number whose lexeme begins at the `.`; otherwise DOT |
| Dispatching.EofDispatch | src/lexer.c:364-365 | the terminator gives EOF and the cursor steps past it |
| Dispatching.UnexpectedDispatch | src/lexer.c:366-367 | any character that is not a letter, a digit or one the switch names is ERROR "Encountered unexpected character", consuming one character |
| Dispatching.CommaAndSemicolonAreErrors | src/lexer.c:366-367 | `,` and `;` are ERROR "Encountered unexpected character" |
| Dispatching.ErrorCases | src/lexer.c:237-369 | a dispatch gives ERROR exactly for an unexpected character, a lone `&` or a lone bar, or a string literal not closed by a quote |
| Dispatching.ErrorMessages | src/lexer.c:38-44 | an ERROR token carries one of the three messages as its lexeme |
| Dispatching.UnreachableKinds | src/lexer.c:296-303 | get_token never returns SLASH, SLASH_EQUAL, BOOL or WHILE |
| Words.RunEndAt | src/lexer.c:156-158 | a scanning loop run over a stretch it steps over stops exactly at the first character it does not |
| Words.WordToken | src/lexer.c:154-161 | a maximal word run is one token: its reserved kind if the whole run is reserved, else IDENTIFIER spanning the run |
| Words.LetterBeforeTerminator | src/lexer.c:154-161 | a single lower-case letter just before the terminator is IDENTIFIER of size one |
| Words.LoneWord | src/lexer.c:237-243 | a word alone in the buffer is scanned from position 0 as that token |
| Words.ReservedWordsRescan | src/lexer.c:72-152 | each of the twelve reserved words, alone, scans as its own kind |
| Words.NotReserved | src/lexer.c:151 | a word not in the reserved table scans as IDENTIFIER with the whole word as lexeme |
| Words.ForeverIsIdentifier | src/lexer.c:100-114 | `forever` is an identifier |
| Words.FoIsIdentifier | src/lexer.c:107-111 | `fo` is an identifier |
| Words.WhileIsIdentifier | src/lexer.c:72-152 | `while` is an identifier |
| Examples.FloatLiterals | src/lexer.c:163-184 | `3.14` and `3.` are FLOAT, and the terminator after them is consumed too |
| Examples.DotLiterals | src/lexer.c:354-359 | `.5` is INT and `.5.3` is FLOAT, the `.` included in the lexeme |
| Examples.SignedLiterals | src/lexer.c:272-287 | `-3` is INT and `-.5` is FLOAT, the sign included in the lexeme |
| Examples.OperatorSplitsWordsTokens | src/lexer.c:154-184 | `x+1` is the three tokens IDENTIFIER `x`, PLUS, INT `1`, and the number's extra step ends the stream on the terminator |
| Examples.OperatorSplitsWord | src/lexer.c:154-161 | in `x+1` the identifier is `x` alone |
| Examples.OperatorAfterWord | src/lexer.c:260-271 | in `x+1` the `+` is PLUS, one character |
| Examples.NumberAfterOperator | src/lexer.c:163-184 | in `x+1` the `1` is INT and the terminator after it is consumed |
| Examples.NulAfterNumberSkipped | src/lexer.c:176-178 | a NUL right after a number is stepped over and scanning goes on behind it: `1` NUL `x` gives INT `1` and then IDENTIFIER `x` on line 1 |
| Examples.NumberSwallowsNewline | src/lexer.c:176-178 | in `42` LF `x` the line break is dropped uncounted, so `x` is reported on line 1 |
| Examples.TerminatorEndsStream | src/lexer.c:364-365 | the terminator under the cursor is the last token of the stream |
| Examples.TokenStartsHere | src/lexer.c:230-232 | on a character that is neither blank nor `/`, skip_whitespace puts it back and the token starts there |
| Examples.ClosedString | src/lexer.c:186-201 | `"abc"` is STRING with lexeme `abc` and the closing quote consumed |
| Examples.StringCutByTerminator | src/lexer.c:194-196 | `"abc` at the end of the buffer is the unterminated-string error with the cursor on the terminator |
| Examples.StringCutByNewline | src/lexer.c:191-193 | a string broken by LF is the unterminated-string error on its opening line, with the cursor on the LF |
| Examples.TokenAfterBlankLines | src/lexer.c:224-226 | three LFs before `x` put it on line 4 |
| Examples.BlankOnlySource | src/lexer.c:220-226 | space, tab, CR LF and a lone CR give EOF alone on line 3 |
| Spelling.OperatorSpellingsRescan | include/lexer.h:38-77 | each operator spelling of the header's table, scanned alone, gives back its kind, except `/`, which gives EOF |
| Spelling.KindNamesAreIdentifiers | include/lexer.h:42-59 | the names `bool`, `EOF`, `error`, `float` and `int` scan as identifiers |

## Left out

- `src/main.c` is not part of this model, apart from the loop of `lexer_debug` that calls get_token until EOF or ERROR (src/main.c:38-42), which `Scan.Tokenize` models. The rest of the file reads the file, appends the terminator, handles arguments and exit codes, and prints the token dump. The model takes the terminated buffer as a parameter (`Terminated`).
- `token_to_string` (src/lexer.c:371-523) only formats output with `printf`, so it is left out.
- `src/parser.c` and `include/parser.h` are not part of this model. The parser is an unfinished stub.
- The single shared token slot (`glexer.tkn`): each call returns a fresh `Token` value instead, so aliasing of that slot by earlier results is not modelled.
- C `int` overflow of the line counter is not modelled; lines are unbounded integers.
- Reading past the terminator is undefined behaviour in the C (after EOF, or after a number at the very end of the buffer). It becomes the precondition `pos < |src|` of `GetToken` and `Next`, and `Tokenize` ends the stream when the cursor has passed the terminator.
- A NUL inside the buffer is not excluded, and the model treats it as the C does. One that the dispatch, a comment or a string reaches ends the input there. One right after a number is stepped over by the number's extra advance, so scanning goes on behind it (`Examples.NulAfterNumberSkipped`).
- Characters outside ASCII fall in no character class, whether `char` is signed or not; no encoding is modelled.
- The header declares `init_lexer(char *source)` with one argument and a token without a `size` field; the model follows `src/lexer.c`, whose `init_lexer` also takes the token slot and whose tokens have a size.
- Scanner.Lexer.Peek, Scanner.Lexer.Finished and Scanner.Lexer.AtNewline carry no contract of their own: each is one read of the buffer, used by the methods whose contracts cover them.
- Keywords.KeywordKind and Keywords.CompareStr (src/lexer.c:65-152) carry no contract of their own; Keywords.KeywordKindMatchesTable states what they compute together.
- Tokens.BasicToken, Tokens.FullToken and Tokens.ErrorToken (src/lexer.c:22-44) only build a token record; their fields are stated by the contracts of the `Scan` functions that use them and by Dispatching.ErrorMessages.
- Chars.IsAlpha, Chars.IsDigit, Chars.IsAlphanum and Chars.IsNewline (src/lexer.c:52-63) are the C's character ranges written out; Chars.ClassesAreDisjoint and Words.WordStopsAtDelimiter state how they relate to the rest of the scanner.
- Scan.Lookahead (src/lexer.c:288-335) carries no contract of its own; Dispatching.TwoCharOperatorTaken, Dispatching.OneCharOperatorKept and Scanner.Lexer.OneLookahead state it.
- Tokens.TypeToString: its own contract only separates the fallback from the enum values; the spelling of each value is stated by Tokens.SpellingInverse and Spelling.OperatorSpellingsRescan.
