/** Whole-buffer behaviour of the scanner on small sources. */
module Examples {
  import opened Tokens
  import opened Chars
  import opened Scan
  import opened Words
  import opened Whitespace
  import opened Dispatching

  /** `3.14` and `3.` are FLOAT, and the character after the literal (here
      the terminator) is consumed as well. */
  lemma FloatLiterals()
    ensures Next("3.14\0", Cursor(0, 1)) == Scanned(FullToken(Float, 1, 0, 4), Cursor(5, 1))
    ensures Next("3.\0", Cursor(0, 1)) == Scanned(FullToken(Float, 1, 0, 2), Cursor(3, 1))
  {
    RunEndAt("3.14\0", 1, 1, Digits);
    RunEndAt("3.14\0", 2, 4, Digits);
    RunEndAt("3.\0", 1, 1, Digits);
    RunEndAt("3.\0", 2, 2, Digits);
  }

  /** A leading `.` does not count towards the kind: `.5` is INT and
      `.5.3` is FLOAT, both with the `.` in the lexeme. */
  lemma DotLiterals()
    ensures Next(".5\0", Cursor(0, 1)).token == FullToken(Int, 1, 0, 2)
    ensures Next(".5.3\0", Cursor(0, 1)).token == FullToken(Float, 1, 0, 4)
  {
    RunEndAt(".5\0", 1, 2, Digits);
    RunEndAt(".5.3\0", 1, 2, Digits);
    RunEndAt(".5.3\0", 3, 4, Digits);
  }

  /** A sign followed by a digit or `.` is part of the literal. */
  lemma SignedLiterals()
    ensures Next("-3\0", Cursor(0, 1)).token == FullToken(Int, 1, 0, 2)
    ensures Next("-.5\0", Cursor(0, 1)).token == FullToken(Float, 1, 0, 3)
  {
    RunEndAt("-3\0", 1, 2, Digits);
    RunEndAt("-.5\0", 1, 1, Digits);
    RunEndAt("-.5\0", 2, 3, Digits);
  }

  /** The character number() drops may be a line break, which then goes
      uncounted: the identifier on the second line is reported on line 1. */
  lemma NumberSwallowsNewline()
    ensures Tokenize("42\nx\0", Cursor(0, 1)) ==
      [FullToken(Int, 1, 0, 2), FullToken(Identifier, 1, 3, 1), BasicToken(Eof, 1)]
  {
    var src := "42\nx\0";
    NumberBeforeNewline();
    IdentifierAfterNumber();
    TerminatorEndsStream(src, 4, 1);
    TokenizeStep(src, Cursor(3, 1));
    TokenizeStep(src, Cursor(0, 1));
  }

  /** A token other than EOF and ERROR is followed by the rest of the stream. */
  lemma TokenizeStep(src: seq<char>, cur: Cursor)
    requires Terminated(src) && cur.pos < |src|
    requires Next(src, cur).token.kind != Eof && Next(src, cur).token.kind != Error
    ensures Tokenize(src, cur) == [Next(src, cur).token] + Tokenize(src, Next(src, cur).next)
  {
  }

  /** Under the cursor, the terminator is the last token of the stream. */
  lemma TerminatorEndsStream(src: seq<char>, pos: nat, line: int)
    requires Terminated(src) && pos < |src| && src[pos] == '\0'
    ensures Tokenize(src, Cursor(pos, line)) == [BasicToken(Eof, line)]
  {
    assert SkipStep(src, pos, line) == Done(Cursor(pos, line));
    EofDispatch(src, pos, line);
  }

  /** `x+1` is three tokens: the identifier stops at the operator. The
      number's extra step consumes the terminator, so the stream ends
      without an EOF token. */
  lemma OperatorSplitsWordsTokens()
    ensures Tokenize("x+1\0", Cursor(0, 1)) ==
      [FullToken(Identifier, 1, 0, 1), BasicToken(Plus, 1), FullToken(Int, 1, 2, 1)]
  {
    var src := "x+1\0";
    OperatorSplitsWord();
    TokenizeStep(src, Cursor(0, 1));
    OperatorAfterWord();
    TokenizeStep(src, Cursor(1, 1));
    NumberAfterOperator();
    TokenizeStep(src, Cursor(2, 1));
  }

  lemma OperatorSplitsWord()
    ensures Next("x+1\0", Cursor(0, 1)) == Scanned(FullToken(Identifier, 1, 0, 1), Cursor(1, 1))
  {
    var src := "x+1\0";
    NothingToSkip(src, 0, 1);
    assert src[0..1] == "x";
    WordStopsAtDelimiter(src, 0, 1, 1);
  }

  lemma OperatorAfterWord()
    ensures Next("x+1\0", Cursor(1, 1)) == Emit(Plus, 1, 2)
  {
    NothingToSkip("x+1\0", 1, 1);
  }

  lemma NumberAfterOperator()
    ensures Next("x+1\0", Cursor(2, 1)) == Scanned(FullToken(Int, 1, 2, 1), Cursor(4, 1))
  {
    NothingToSkip("x+1\0", 2, 1);
    RunEndAt("x+1\0", 3, 3, Digits);
  }

  /** A NUL right after a number does not end the input: number() steps
      over it, and scanning goes on behind it. */
  lemma NulAfterNumberSkipped()
    ensures Next("1\0x\0", Cursor(0, 1)) == Scanned(FullToken(Int, 1, 0, 1), Cursor(2, 1))
    ensures Next("1\0x\0", Cursor(2, 1)) == Scanned(FullToken(Identifier, 1, 2, 1), Cursor(3, 1))
  {
    var src := "1\0x\0";
    NothingToSkip(src, 0, 1);
    RunEndAt(src, 1, 1, Digits);
    NothingToSkip(src, 2, 1);
    assert src[2..3] == "x";
    WordToken(src, 2, 3, 1);
  }

  lemma NumberBeforeNewline()
    ensures Next("42\nx\0", Cursor(0, 1)) == Scanned(FullToken(Int, 1, 0, 2), Cursor(3, 1))
  {
    RunEndAt("42\nx\0", 1, 2, Digits);
    RunEndAt("42\nx\0", 2, 2, Digits);
  }

  lemma IdentifierAfterNumber()
    ensures Next("42\nx\0", Cursor(3, 1)) == Scanned(FullToken(Identifier, 1, 3, 1), Cursor(4, 1))
  {
    var src := "42\nx\0";
    assert SkipStep(src, 3, 1) == Done(Cursor(3, 1));
    assert src[3..4] == "x";
    WordToken(src, 3, 4, 1);
  }

  /** A cursor on a character that is neither blank nor `/` starts the
      token there. */
  lemma TokenStartsHere(src: seq<char>, pos: nat, line: int)
    requires Terminated(src) && pos < |src| && !IsBlank(src[pos]) && src[pos] != '/'
    ensures Next(src, Cursor(pos, line)) == Dispatch(src, pos, line)
  {
    assert SkipStep(src, pos, line) == Done(Cursor(pos, line));
  }

  /** A string's lexeme is the text between the quotes. */
  lemma ClosedString()
    ensures Next("\"abc\"\0", Cursor(0, 1)) == Scanned(FullToken(String, 1, 1, 3), Cursor(5, 1))
  {
    var src := "\"abc\"\0";
    TokenStartsHere(src, 0, 1);
    assert Dispatch(src, 0, 1) == StringAt(src, 1, 1);
    RunEndAt(src, 1, 4, StringBody);
  }

  /** A literal cut off by the terminator is an error that stops on it... */
  lemma StringCutByTerminator()
    ensures Next("\"abc\0", Cursor(0, 1)) == Scanned(ErrorToken(UnterminatedString, 1), Cursor(4, 1))
  {
    var src := "\"abc\0";
    TokenStartsHere(src, 0, 1);
    assert Dispatch(src, 0, 1) == StringAt(src, 1, 1);
    RunEndAt(src, 1, 4, StringBody);
  }

  /** ... and so is one cut off by a line break. */
  lemma StringCutByNewline()
    ensures Next("\"ab\ncd\"\0", Cursor(0, 1)) == Scanned(ErrorToken(UnterminatedString, 1), Cursor(3, 1))
  {
    var src := "\"ab\ncd\"\0";
    TokenStartsHere(src, 0, 1);
    assert Dispatch(src, 0, 1) == StringAt(src, 1, 1);
    RunEndAt(src, 1, 3, StringBody);
  }

  /** Line breaks before a token are counted before it is built. */
  lemma TokenAfterBlankLines()
    ensures Tokenize("\n\n\nx\0", Cursor(0, 1)) == [FullToken(Identifier, 4, 3, 1), BasicToken(Eof, 4)]
  {
    IdentifierAfterBlankLines();
    TerminatorEndsStream("\n\n\nx\0", 4, 4);
    TokenizeStep("\n\n\nx\0", Cursor(0, 1));
  }

  lemma IdentifierAfterBlankLines()
    ensures Next("\n\n\nx\0", Cursor(0, 1)) == Scanned(FullToken(Identifier, 4, 3, 1), Cursor(4, 4))
  {
    var src := "\n\n\nx\0";
    SkipBlankRun(src, 0, 3, 1);
    assert src[0..3] == "\n\n\n";
    assert src[3..4] == "x";
    WordToken(src, 3, 4, 4);
  }

  /** A CR LF pair is one line break, a lone CR another: a source of blanks
      alone gives EOF on line 3. */
  lemma BlankOnlySource()
    ensures Tokenize(" \t\r\n\r\0", Cursor(0, 1)) == [BasicToken(Eof, 3)]
  {
    var b := " \t\r\n\r";
    assert " \t\r\n\r\0" == b + "\0";
    BlankSource(b, 1);
    assert LineBreaks(b) == 2 by {
      assert b[1..][1..][1..] == "\n\r";
    }
  }
}
