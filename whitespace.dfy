/** What skip_whitespace consumes and how it counts lines, stated against
    reference definitions that do not walk the loop. */
module Whitespace {
  import opened Tokens
  import opened Chars
  import opened Scan

  /** Whether position i of s ends a line: a LF, or a CR that no LF follows. */
  predicate EndsLine(s: seq<char>, i: nat)
    requires i < |s|
  {
    s[i] == '\n' || (s[i] == '\r' && (i + 1 == |s| || s[i + 1] != '\n'))
  }

  /** Reference count of line breaks in s: one per LF, one per CR-LF pair
      and one per lone CR. */
  function LineBreaks(s: seq<char>): nat
  {
    if |s| == 0 then 0 else (if EndsLine(s, 0) then 1 else 0) + LineBreaks(s[1..])
  }

  /** A run of spaces, tabs, CRs and LFs is skipped whole, and the line goes
      up by its number of line breaks; when the run ends on a character that
      is neither blank nor `/`, the cursor is left on that character. */
  lemma {:induction false} SkipBlankRun(src: seq<char>, pos: nat, q: nat, line: int)
    requires Terminated(src) && pos <= q < |src|
    requires forall k :: pos <= k < q ==> IsBlank(src[k])
    requires !IsBlank(src[q]) && src[q] != '/'
    ensures SkipWs(src, pos, line) == Cursor(q, line + LineBreaks(src[pos..q]))
    decreases q - pos
  {
    if pos < q {
      var n := pos + BlankWidth(src, pos);
      BlankPrefix(src, pos, q);
      BlankTurn(src, pos, line);
      SkipBlankRun(src, n, q, line + LineBreaks(src[pos..n]));
    } else {
      assert src[pos..q] == [];
      NothingToSkip(src, pos, line);
    }
  }

  /** How many characters one turn of the loop consumes on a blank: two for
      a CR LF pair, one otherwise. */
  function BlankWidth(src: seq<char>, pos: nat): nat
    requires pos < |src|
  {
    if src[pos] == '\r' && pos + 1 < |src| && src[pos + 1] == '\n' then 2 else 1
  }

  /** One turn of the loop over a blank consumes it and counts its line
      break, if any. */
  lemma BlankTurn(src: seq<char>, pos: nat, line: int)
    requires Terminated(src) && pos < |src| && IsBlank(src[pos])
    ensures pos + BlankWidth(src, pos) < |src|
    ensures SkipWs(src, pos, line) ==
      SkipWs(src, pos + BlankWidth(src, pos), line + LineBreaks(src[pos..pos + BlankWidth(src, pos)]))
  {
    var n := pos + BlankWidth(src, pos);
    if n == pos + 2 {
      SliceBreaks(src, pos, n);
      SliceBreaks(src, pos + 1, n);
    } else {
      SliceBreaks(src, pos, n);
    }
    assert src[n..n] == [];
  }

  /** A blank run splits after its first blank or CR LF pair. */
  lemma BlankPrefix(src: seq<char>, pos: nat, q: nat)
    requires Terminated(src) && pos < q < |src| && !IsBlank(src[q])
    requires forall k :: pos <= k < q ==> IsBlank(src[k])
    ensures pos + BlankWidth(src, pos) <= q
    ensures LineBreaks(src[pos..q]) ==
      LineBreaks(src[pos..pos + BlankWidth(src, pos)]) + LineBreaks(src[pos + BlankWidth(src, pos)..q])
  {
    var n := pos + BlankWidth(src, pos);
    SliceBreaks(src, pos, q);
    SliceBreaks(src, pos, n);
    if n == pos + 2 {
      SliceBreaks(src, pos + 1, q);
      SliceBreaks(src, pos + 1, n);
    }
    assert src[n..n] == [];
  }

  /** The first step of LineBreaks over a slice of the buffer. */
  lemma SliceBreaks(src: seq<char>, pos: nat, q: nat)
    requires pos < q <= |src|
    ensures LineBreaks(src[pos..q]) ==
      (if src[pos] == '\n' || (src[pos] == '\r' && (pos + 1 == q || src[pos + 1] != '\n')) then 1 else 0)
      + LineBreaks(src[pos + 1..q])
  {
    var s := src[pos..q];
    assert s[0] == src[pos];
    assert s[1..] == src[pos + 1..q];
    if pos + 1 < q {
      assert s[1] == src[pos + 1];
    }
  }

  /** On a character that is neither blank nor `/` there is nothing to
      skip: the default branch puts it back. */
  lemma NothingToSkip(src: seq<char>, pos: nat, line: int)
    requires Terminated(src) && pos < |src| && !IsBlank(src[pos]) && src[pos] != '/'
    ensures SkipWs(src, pos, line) == Cursor(pos, line)
  {
    assert SkipStep(src, pos, line) == Done(Cursor(pos, line));
  }

  /** A `//` comment is skipped up to its line break, which is consumed and
      counted; a comment that runs into the terminator leaves the cursor on
      it. */
  lemma SkipComment(src: seq<char>, pos: nat, line: int)
    requires Terminated(src) && pos + 1 < |src| && src[pos] == '/' && src[pos + 1] == '/'
    ensures var e := RunEnd(src, pos + 2, Run.CommentBody);
      && (forall k :: pos + 2 <= k < e ==> !IsNewline(src[k]) && src[k] != '\0')
      && (src[e] == '\0' ==> SkipWs(src, pos, line) == Cursor(e, line))
      && (src[e] != '\0' ==> IsNewline(src[e]) && SkipWs(src, pos, line) == SkipWs(src, e + 1, line + 1))
  {
  }

  /** A comment ended by CR LF counts two lines: one when the comment loop
      consumes the CR, one more when the LF is skipped as whitespace. */
  lemma {:induction false} CommentEndingInCrLf(src: seq<char>, pos: nat, line: int)
    requires Terminated(src) && pos + 1 < |src| && src[pos] == '/' && src[pos + 1] == '/'
    requires var e := RunEnd(src, pos + 2, Run.CommentBody); src[e] == '\r' && src[e + 1] == '\n'
    ensures var e := RunEnd(src, pos + 2, Run.CommentBody);
      SkipWs(src, pos, line) == SkipWs(src, e + 2, line + 2)
  {
    var e := RunEnd(src, pos + 2, Run.CommentBody);
    SkipComment(src, pos, line);
    assert SkipStep(src, e + 1, line + 1) == Again(Cursor(e + 2, line + 2));
  }

  /** The same text without the comment counts one line fewer. */
  lemma CommentCrLfExample()
    ensures SkipWs("//a\r\nx\0", 0, 1) == Cursor(5, 3)
    ensures SkipWs("\r\nx\0", 0, 1) == Cursor(2, 2)
  {
    var src := "//a\r\nx\0";
    assert RunEnd(src, 2, Run.CommentBody) == 3;
    CommentEndingInCrLf(src, 0, 1);
    NothingToSkip(src, 5, 3);
    SkipBlankRun("\r\nx\0", 0, 2, 1);
    assert "\r\nx\0"[0..2] == "\r\n";
  }

  /** A `/` that does not start a comment is consumed by skip_whitespace
      and not put back, so get_token scans from the character after it. */
  lemma LoneSlashSwallowed(src: seq<char>, pos: nat, line: int)
    requires Terminated(src) && pos < |src| && src[pos] == '/' && src[pos + 1] != '/'
    ensures SkipWs(src, pos, line) == Cursor(pos + 1, line)
    ensures Next(src, Cursor(pos, line)) == Dispatch(src, pos + 1, line)
  {
  }

  /** A source of nothing but blanks yields EOF alone, on the line reached
      by counting its line breaks. */
  lemma {:induction false} BlankSource(b: seq<char>, line: int)
    requires forall k :: 0 <= k < |b| ==> IsBlank(b[k])
    ensures Tokenize(b + "\0", Cursor(0, line)) == [BasicToken(Eof, line + LineBreaks(b))]
  {
    var src := b + "\0";
    assert src[|b|] == '\0' && src[0..|b|] == b;
    SkipBlankRun(src, 0, |b|, line);
  }
}
