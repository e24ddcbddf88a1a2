/** Blanks and `//` comments: skip_whitespace consumes all of them and stops
    on the next token, and a source made of nothing else yields EOF alone.
    The text is built from pieces, each of which one turn of the skipping
    loop consumes. */
module Layout {
  import opened Tokens
  import opened Chars
  import opened Scan
  import opened Whitespace
  import opened Words
  import opened Dispatching

  /** A piece of layout: a blank (CR LF written as one unit), a comment with
      the line break that ends it, or a comment that runs into the end of
      the source. */
  datatype Piece = Space(unit: string) | Comment(body: string, brk: char) | OpenComment(body: string)

  /** A comment's text: no line break and no terminator. */
  predicate CommentText(body: string)
  {
    forall k :: 0 <= k < |body| ==> !IsNewline(body[k]) && body[k] != '\0'
  }

  predicate PieceOk(p: Piece)
  {
    match p
    case Space(u) => u in {" ", "\t", "\n", "\r", "\r\n"}
    case Comment(body, brk) => CommentText(body) && IsNewline(brk)
    case OpenComment(body) => CommentText(body)
  }

  function Spell(p: Piece): string
  {
    match p
    case Space(u) => u
    case Comment(body, brk) => "//" + body + [brk]
    case OpenComment(body) => "//" + body
  }

  function Text(ps: seq<Piece>): string
  {
    if |ps| == 0 then [] else Spell(ps[0]) + Text(ps[1..])
  }

  predicate LoneCr(p: Piece) { p == Space("\r") }

  predicate LoneLf(p: Piece) { p == Space("\n") }

  /** Each piece is well formed, an open comment comes last, and a CR and a
      following LF are written as the one unit "\r\n". */
  predicate WellFormed(ps: seq<Piece>)
  {
    |ps| == 0 ||
    (&& PieceOk(ps[0])
     && (|ps| > 1 ==> !ps[0].OpenComment? && !(LoneCr(ps[0]) && LoneLf(ps[1])))
     && WellFormed(ps[1..]))
  }

  /** The lines one turn of the loop adds for a piece. */
  function PieceBreaks(p: Piece): nat
  {
    match p
    case Space(u) => if u in {"\n", "\r", "\r\n"} then 1 else 0
    case Comment(_, _) => 1
    case OpenComment(_) => 0
  }

  function PieceLines(ps: seq<Piece>): nat
  {
    if |ps| == 0 then 0 else PieceBreaks(ps[0]) + PieceLines(ps[1..])
  }

  /** How many comments end in a CR that a LF follows. */
  function CrLfComments(ps: seq<Piece>): nat
  {
    if |ps| == 0 then 0
    else (if ps[0].Comment? && ps[0].brk == '\r' && |ps| > 1 && LoneLf(ps[1]) then 1 else 0)
         + CrLfComments(ps[1..])
  }

  /** 1 when a ends in CR and b starts with LF: the pair LineBreaks counts once. */
  function Join(a: string, b: string): nat
  {
    if |a| > 0 && |b| > 0 && a[|a| - 1] == '\r' && b[0] == '\n' then 1 else 0
  }

  lemma {:induction false} LineBreaksAppend(a: string, b: string)
    ensures LineBreaks(a + b) + Join(a, b) == LineBreaks(a) + LineBreaks(b)
    decreases |a|
  {
    if |a| > 0 {
      assert (a + b)[1..] == a[1..] + b;
      assert (a + b)[0] == a[0];
      LineBreaksAppend(a[1..], b);
      assert LineBreaks(a) == (if EndsLine(a, 0) then 1 else 0) + LineBreaks(a[1..]);
      assert LineBreaks(a + b) == (if EndsLine(a + b, 0) then 1 else 0) + LineBreaks(a[1..] + b);
      if |a| > 1 {
        assert (a + b)[1] == a[1];
        assert a[1..][|a| - 2] == a[|a| - 1];
        assert EndsLine(a + b, 0) == EndsLine(a, 0);
        assert Join(a, b) == Join(a[1..], b);
      } else if |b| > 0 {
        assert (a + b)[1] == b[0];
        assert a[1..] == [];
      } else {
        assert a + b == a;
      }
    } else {
      assert a + b == b;
    }
  }

  lemma {:induction false} NoBreaks(s: string)
    requires forall k :: 0 <= k < |s| ==> !IsNewline(s[k])
    ensures LineBreaks(s) == 0
    decreases |s|
  {
    if |s| > 0 {
      NoBreaks(s[1..]);
    }
  }

  /** Each piece holds as many line breaks as its turn of the loop counts. */
  lemma {:induction false} SpellBreaks(p: Piece)
    requires PieceOk(p)
    ensures |Spell(p)| > 0
    ensures LineBreaks(Spell(p)) == PieceBreaks(p)
    ensures Spell(p)[0] == '\n' <==> LoneLf(p)
    ensures Spell(p)[|Spell(p)| - 1] == '\r' <==> LoneCr(p) || (p.Comment? && p.brk == '\r')
  {
    match p
    case Space(u) =>
      assert u == " " || u == "\t" || u == "\n" || u == "\r" || u == "\r\n";
      assert "\r\n"[1..] == "\n";
    case Comment(body, brk) =>
      var head := "//" + body;
      assert forall k :: 0 <= k < |head| ==> head[k] == '/' || head[k] == body[k - 2];
      NoBreaks(head);
      LineBreaksAppend(head, [brk]);
    case OpenComment(body) =>
      var head := "//" + body;
      assert forall k :: 0 <= k < |head| ==> head[k] == '/' || head[k] == body[k - 2];
      NoBreaks(head);
  }

  /** The lines skip_whitespace counts over layout are the text's line
      breaks plus one for every comment ended by CR LF. */
  lemma {:induction false} LayoutLineCount(ps: seq<Piece>)
    requires WellFormed(ps)
    ensures PieceLines(ps) == LineBreaks(Text(ps)) + CrLfComments(ps)
    decreases |ps|
  {
    if |ps| > 0 {
      var rest := ps[1..];
      SpellBreaks(ps[0]);
      LineBreaksAppend(Spell(ps[0]), Text(rest));
      LayoutLineCount(rest);
      if |rest| > 0 {
        SpellBreaks(rest[0]);
        assert Text(rest)[0] == Spell(rest[0])[0];
      }
    }
  }

  /** The two halves of a slice that spells t + u. */
  lemma {:induction false} SliceSplit(src: seq<char>, pos: nat, t: string, u: string)
    requires pos + |t| + |u| <= |src| && src[pos..pos + |t| + |u|] == t + u
    ensures src[pos..pos + |t|] == t && src[pos + |t|..pos + |t| + |u|] == u
  {
    assert src[pos..pos + |t|] == src[pos..pos + |t| + |u|][..|t|];
    assert src[pos + |t|..pos + |t| + |u|] == src[pos..pos + |t| + |u|][|t|..];
  }

  /** One turn of the loop over a blank. */
  lemma {:induction false} StepSpace(src: seq<char>, pos: nat, p: Piece, line: int)
    requires Terminated(src) && p.Space? && PieceOk(p) && pos + |Spell(p)| < |src|
    requires src[pos..pos + |Spell(p)|] == Spell(p)
    requires LoneCr(p) ==> src[pos + 1] != '\n'
    ensures SkipWs(src, pos, line) == SkipWs(src, pos + |Spell(p)|, line + PieceBreaks(p))
  {
    var u := p.unit;
    if u == "\r\n" {
      StepCrLf(src, pos, line, pos + |Spell(p)|, line + PieceBreaks(p));
    } else {
      assert src[pos] == src[pos..pos + |u|][0] == u[0];
      if u == " " || u == "\t" {
        assert PieceBreaks(p) == 0;
      } else {
        assert u == "\n" || u == "\r";
        assert PieceBreaks(p) == 1;
      }
      StepBlank(src, pos, line, pos + |Spell(p)|, line + PieceBreaks(p));
    }
  }

  /** A turn over one blank character. */
  lemma {:induction false} StepBlank(src: seq<char>, pos: nat, line: int, next: nat, last: int)
    requires Terminated(src) && pos + 1 < |src| && src[pos] in " \t\n\r"
    requires src[pos] == '\r' ==> src[pos + 1] != '\n'
    requires next == pos + 1 && last == line + if src[pos] in "\n\r" then 1 else 0
    ensures SkipWs(src, pos, line) == SkipWs(src, next, last)
  {
  }

  /** A turn over CR LF, which counts once. */
  lemma {:induction false} StepCrLf(src: seq<char>, pos: nat, line: int, next: nat, last: int)
    requires Terminated(src) && pos + 2 < |src| && src[pos..pos + 2] == "\r\n"
    requires next == pos + 2 && last == line + 1
    ensures SkipWs(src, pos, line) == SkipWs(src, next, last)
  {
    assert src[pos] == src[pos..pos + 2][0] && src[pos + 1] == src[pos..pos + 2][1];
  }

  /** One turn of the loop over a comment and the line break ending it. */
  lemma {:induction false} StepComment(src: seq<char>, pos: nat, p: Piece, line: int)
    requires Terminated(src) && p.Comment? && PieceOk(p) && pos + |Spell(p)| < |src|
    requires src[pos..pos + |Spell(p)|] == Spell(p)
    ensures SkipWs(src, pos, line) == SkipWs(src, pos + |Spell(p)|, line + PieceBreaks(p))
  {
    var body, w := p.body, Spell(p);
    assert w == "//" + body + [p.brk];
    assert src[pos] == w[0] && src[pos + 1] == w[1] by {
      assert src[pos..pos + |w|][0] == src[pos];
      assert src[pos..pos + |w|][1] == src[pos + 1];
    }
    forall k | pos + 2 <= k < pos + 2 + |body| ensures Continues(CommentBody, src[k]) {
      assert src[k] == src[pos..pos + |w|][k - pos] == w[k - pos] == body[k - pos - 2];
    }
    assert src[pos + 2 + |body|] == src[pos..pos + |w|][|body| + 2] == w[|body| + 2] == p.brk;
    RunEndAt(src, pos + 2, pos + 2 + |body|, CommentBody);
  }

  /** The last turn of the loop: a comment that runs into the terminator. */
  lemma {:induction false} StepOpenComment(src: seq<char>, pos: nat, p: Piece, line: int)
    requires Terminated(src) && p.OpenComment? && PieceOk(p) && pos + |Spell(p)| < |src|
    requires src[pos..pos + |Spell(p)|] == Spell(p) && src[pos + |Spell(p)|] == '\0'
    ensures SkipWs(src, pos, line) == Cursor(pos + |Spell(p)|, line)
  {
    var body, w := p.body, Spell(p);
    assert w == "//" + body;
    assert src[pos] == w[0] && src[pos + 1] == w[1] by {
      assert src[pos..pos + |w|][0] == src[pos];
      assert src[pos..pos + |w|][1] == src[pos + 1];
    }
    forall k | pos + 2 <= k < pos + 2 + |body| ensures Continues(CommentBody, src[k]) {
      assert src[k] == src[pos..pos + |w|][k - pos] == w[k - pos] == body[k - pos - 2];
    }
    RunEndAt(src, pos + 2, pos + 2 + |body|, CommentBody);
  }

  /** One turn of the loop over one piece of layout. */
  lemma {:induction false} StepPiece(src: seq<char>, pos: nat, p: Piece, line: int)
    requires Terminated(src) && PieceOk(p) && pos + |Spell(p)| < |src|
    requires src[pos..pos + |Spell(p)|] == Spell(p)
    requires LoneCr(p) ==> src[pos + 1] != '\n'
    requires p.OpenComment? ==> src[pos + |Spell(p)|] == '\0'
    ensures p.OpenComment? ==> SkipWs(src, pos, line) == Cursor(pos + |Spell(p)|, line)
    ensures !p.OpenComment? ==> SkipWs(src, pos, line) == SkipWs(src, pos + |Spell(p)|, line + PieceBreaks(p))
  {
    if p.Space? {
      StepSpace(src, pos, p, line);
    } else if p.Comment? {
      StepComment(src, pos, p, line);
    } else {
      StepOpenComment(src, pos, p, line);
    }
  }

  /** A character skip_whitespace stops on: neither blank nor `/`. The
      terminator is one. */
  predicate Stops(c: char)
  {
    !IsBlank(c) && c != '/'
  }

  /** The pieces are spelled out in the buffer from `pos` on, one after
      another, followed by a character skip_whitespace stops on; a comment
      left open is followed by the terminator. */
  predicate Laid(src: seq<char>, pos: nat, ps: seq<Piece>)
    decreases |ps|
  {
    pos < |src| &&
    if |ps| == 0 then Stops(src[pos])
    else
      var n := pos + |Spell(ps[0])|;
      && n < |src| && src[pos..n] == Spell(ps[0])
      && (ps[0].OpenComment? ==> src[n] == '\0')
      && Laid(src, n, ps[1..])
  }

  lemma {:induction false} LaidFromSlice(src: seq<char>, pos: nat, ps: seq<Piece>, e: nat)
    requires WellFormed(ps) && e == pos + |Text(ps)| < |src|
    requires src[pos..e] == Text(ps) && Stops(src[e])
    requires |ps| > 0 && ps[|ps| - 1].OpenComment? ==> src[e] == '\0'
    ensures Laid(src, pos, ps)
    decreases |ps|
  {
    if |ps| > 0 {
      var n, rest := pos + |Spell(ps[0])|, ps[1..];
      SliceHead(src, pos, ps, e, n, rest);
      LaidFromSlice(src, n, rest, e);
      LaidCons(src, pos, ps);
    }
  }

  lemma {:induction false} LaidCons(src: seq<char>, pos: nat, ps: seq<Piece>)
    requires |ps| > 0 && pos + |Spell(ps[0])| < |src|
    requires src[pos..pos + |Spell(ps[0])|] == Spell(ps[0])
    requires ps[0].OpenComment? ==> src[pos + |Spell(ps[0])|] == '\0'
    requires Laid(src, pos + |Spell(ps[0])|, ps[1..])
    ensures Laid(src, pos, ps)
  {
  }

  /** The first piece of a slice of layout, and the rest of the slice. */
  lemma {:induction false} SliceHead(src: seq<char>, pos: nat, ps: seq<Piece>, e: nat, n: nat, rest: seq<Piece>)
    requires WellFormed(ps) && |ps| > 0 && e == pos + |Text(ps)| < |src| && src[pos..e] == Text(ps)
    requires ps[|ps| - 1].OpenComment? ==> src[e] == '\0'
    requires n == pos + |Spell(ps[0])| && rest == ps[1..]
    ensures e == n + |Text(rest)|
    ensures src[pos..n] == Spell(ps[0]) && src[n..e] == Text(rest)
    ensures WellFormed(rest)
    ensures ps[0].OpenComment? ==> src[n] == '\0'
    ensures |rest| > 0 && rest[|rest| - 1].OpenComment? ==> src[e] == '\0'
  {
    var t, u := Spell(ps[0]), Text(rest);
    assert Text(ps) == t + u;
    SliceSplit(src, pos, t, u);
    if ps[0].OpenComment? {
      assert |rest| == 0;
    }
    if |rest| > 0 {
      assert rest[|rest| - 1] == ps[|ps| - 1];
    }
  }

  /** The character after a piece is a LF exactly when the next piece is one. */
  lemma {:induction false} LaidNext(src: seq<char>, n: nat, rest: seq<Piece>)
    requires WellFormed(rest) && Laid(src, n, rest)
    ensures src[n] == '\n' <==> |rest| > 0 && LoneLf(rest[0])
  {
    if |rest| > 0 {
      SpellBreaks(rest[0]);
      assert src[n] == src[n..n + |Spell(rest[0])|][0];
    }
  }

  /** One turn of the loop consumes the first piece of laid-out layout. */
  lemma {:induction false} FirstPiece(src: seq<char>, pos: nat, ps: seq<Piece>, line: int)
    requires Terminated(src) && WellFormed(ps) && |ps| > 0 && Laid(src, pos, ps)
    ensures ps[0].OpenComment? ==> SkipWs(src, pos, line) == Cursor(pos + |Spell(ps[0])|, line)
    ensures !ps[0].OpenComment? ==>
      SkipWs(src, pos, line) == SkipWs(src, pos + |Spell(ps[0])|, line + PieceBreaks(ps[0]))
  {
    var p := ps[0];
    LaidNext(src, pos + |Spell(p)|, ps[1..]);
    SpellBreaks(p);
    assert LoneCr(p) ==> src[pos + 1] != '\n';
    StepPiece(src, pos, p, line);
  }

  /** skip_whitespace consumes laid-out layout piece by piece and stops on
      the character that follows it. */
  lemma {:induction false} SkipLayout(src: seq<char>, pos: nat, ps: seq<Piece>, line: int)
    requires Terminated(src) && WellFormed(ps) && Laid(src, pos, ps)
    ensures pos + |Text(ps)| < |src|
    ensures SkipWs(src, pos, line) == Cursor(pos + |Text(ps)|, line + PieceLines(ps))
    decreases |ps|
  {
    if |ps| == 0 {
      NoLayout(src, pos, ps, line);
    } else if ps[0].OpenComment? {
      OpenLayout(src, pos, ps, line);
    } else {
      var p, rest := ps[0], ps[1..];
      var n := pos + |Spell(p)|;
      assert Text(ps) == Spell(p) + Text(rest);
      assert PieceLines(ps) == PieceBreaks(p) + PieceLines(rest);
      FirstPiece(src, pos, ps, line);
      SkipLayout(src, n, rest, line + PieceBreaks(p));
    }
  }

  /** With no layout, skip_whitespace leaves the cursor where it is. */
  lemma {:induction false} NoLayout(src: seq<char>, pos: nat, ps: seq<Piece>, line: int)
    requires Terminated(src) && |ps| == 0 && Laid(src, pos, ps)
    ensures pos + |Text(ps)| < |src|
    ensures SkipWs(src, pos, line) == Cursor(pos + |Text(ps)|, line + PieceLines(ps))
  {
    NothingToSkip(src, pos, line);
  }

  /** A comment left open is the last piece: skip_whitespace stops on the
      terminator after it. */
  lemma {:induction false} OpenLayout(src: seq<char>, pos: nat, ps: seq<Piece>, line: int)
    requires Terminated(src) && WellFormed(ps) && |ps| > 0 && ps[0].OpenComment? && Laid(src, pos, ps)
    ensures pos + |Text(ps)| < |src|
    ensures SkipWs(src, pos, line) == Cursor(pos + |Text(ps)|, line + PieceLines(ps))
  {
    assert |ps| == 1;
    assert Text(ps) == Spell(ps[0]) + Text(ps[1..]) && Text(ps[1..]) == [];
    assert PieceLines(ps) == 0 by { assert PieceLines(ps[1..]) == 0; }
    FirstPiece(src, pos, ps, line);
  }

  /** Blanks and comments followed by a token: skip_whitespace leaves the
      cursor on the token's first character, on the starting line plus the
      layout's line breaks plus one for every comment ended by CR LF. */
  lemma {:induction false} LayoutBeforeToken(src: seq<char>, pos: nat, ps: seq<Piece>, line: int)
    requires Terminated(src) && WellFormed(ps) && pos + |Text(ps)| < |src|
    requires src[pos..pos + |Text(ps)|] == Text(ps) && Stops(src[pos + |Text(ps)|])
    requires |ps| > 0 && ps[|ps| - 1].OpenComment? ==> src[pos + |Text(ps)|] == '\0'
    ensures SkipWs(src, pos, line) ==
      Cursor(pos + |Text(ps)|, line + LineBreaks(Text(ps)) + CrLfComments(ps))
  {
    LaidFromSlice(src, pos, ps, pos + |Text(ps)|);
    SkipLayout(src, pos, ps, line);
    LayoutLineCount(ps);
  }

  /** get_token after blanks and comments scans the token that follows
      them, on the line skip_whitespace reached. */
  lemma {:induction false} LayoutThenToken(src: seq<char>, pos: nat, ps: seq<Piece>, line: int, at: Cursor)
    requires Terminated(src) && WellFormed(ps) && pos + |Text(ps)| < |src|
    requires src[pos..pos + |Text(ps)|] == Text(ps) && Stops(src[pos + |Text(ps)|])
    requires |ps| > 0 && ps[|ps| - 1].OpenComment? ==> src[pos + |Text(ps)|] == '\0'
    requires at == Cursor(pos + |Text(ps)|, line + LineBreaks(Text(ps)) + CrLfComments(ps))
    ensures at.pos < |src| && Next(src, Cursor(pos, line)) == Dispatch(src, at.pos, at.line)
  {
    LayoutBeforeToken(src, pos, ps, line);
    SkippedThenDispatch(src, pos, line, at.pos, at.line);
  }

  /** get_token dispatches on the character skip_whitespace stops on. */
  lemma {:induction false} SkippedThenDispatch(src: seq<char>, pos: nat, line: int, p: nat, last: int)
    requires Terminated(src) && pos < |src| && SkipWs(src, pos, line) == Cursor(p, last)
    ensures p < |src| && Next(src, Cursor(pos, line)) == Dispatch(src, p, last)
  {
  }

  /** skip_whitespace over a whole source of layout stops on its terminator. */
  lemma {:induction false} LayoutSkipped(ps: seq<Piece>, line: int)
    requires WellFormed(ps)
    ensures SkipWs(Text(ps) + "\0", 0, line) ==
      Cursor(|Text(ps)|, line + LineBreaks(Text(ps)) + CrLfComments(ps))
  {
    assert Stops('\0');
    var src := Text(ps) + "\0";
    assert src[0..|Text(ps)|] == Text(ps) && src[|Text(ps)|] == '\0';
    LayoutBeforeToken(src, 0, ps, line);
  }

  /** A source of blanks and comments yields EOF alone. Its line is the
      starting line plus the text's line breaks, plus one for every comment
      ended by CR LF, which skip_whitespace counts twice. */
  lemma {:induction false} LayoutSource(ps: seq<Piece>, line: int)
    requires WellFormed(ps)
    ensures Tokenize(Text(ps) + "\0", Cursor(0, line)) ==
      [BasicToken(Eof, line + LineBreaks(Text(ps)) + CrLfComments(ps))]
  {
    LayoutSkipped(ps, line);
    SkippedToEof(Text(ps) + "\0", line, line + LineBreaks(Text(ps)) + CrLfComments(ps));
  }

  /** When skip_whitespace from the start reaches the final terminator, the
      stream is EOF alone, on the line reached. */
  lemma {:induction false} SkippedToEof(src: seq<char>, line: int, last: int)
    requires Terminated(src) && SkipWs(src, 0, line) == Cursor(|src| - 1, last)
    ensures Tokenize(src, Cursor(0, line)) == [BasicToken(Eof, last)]
  {
    EofDispatch(src, |src| - 1, last);
  }

  /** A comment ended by CR LF: one line break in the text, two lines counted. */
  lemma {:induction false} CrLfCommentSource()
    ensures Tokenize("//a\r\n\0", Cursor(0, 1)) == [BasicToken(Eof, 3)]
  {
    var ps := [Comment("a", '\r'), Space("\n")];
    CrLfCommentPieces(ps);
    CrLfCommentBreaks();
    assert "//a\r\n\0" == Text(ps) + "\0";
    LayoutSource(ps, 1);
  }

  lemma {:induction false} CrLfCommentPieces(ps: seq<Piece>)
    requires ps == [Comment("a", '\r'), Space("\n")]
    ensures WellFormed(ps) && Text(ps) == "//a\r\n" && CrLfComments(ps) == 1
  {
    assert ps[1..] == [Space("\n")] && ps[1..][1..] == [];
    assert Text(ps[1..]) == "\n";
    assert CrLfComments(ps[1..]) == 0;
  }

  lemma {:induction false} CrLfCommentBreaks()
    ensures LineBreaks("//a\r\n") == 1
  {
    assert "//a\r\n"[1..][1..][1..] == "\r\n";
    assert "\r\n"[1..] == "\n";
  }

  /** A blank, a comment line and a tab before a word: the word is scanned
      on the next line. */
  lemma {:induction false} CommentLineThenWord()
    ensures Next(" // c\n\tx\0", Cursor(0, 1)) == Scanned(FullToken(Identifier, 2, 7, 1), Cursor(8, 2))
  {
    var src := " // c\n\tx\0";
    var ps := [Space(" "), Comment(" c", '\n'), Space("\t")];
    CommentLinePieces(ps);
    LayoutLineCount(ps);
    assert src[0..7] == Text(ps);
    LayoutThenToken(src, 0, ps, 1, Cursor(7, 2));
    LetterBeforeTerminator(src, 7, 2);
  }

  lemma {:induction false} CommentLinePieces(ps: seq<Piece>)
    requires ps == [Space(" "), Comment(" c", '\n'), Space("\t")]
    ensures WellFormed(ps) && Text(ps) == " // c\n\t" && PieceLines(ps) == 1
  {
    var tail := ps[1..];
    assert tail == [Comment(" c", '\n'), Space("\t")] && tail[1..] == [Space("\t")];
    assert tail[1..][1..] == [];
    assert WellFormed(tail) by { assert WellFormed(tail[1..]); }
    assert Text(tail) == "// c\n\t" by { assert Text(tail[1..]) == "\t"; }
    assert PieceLines(tail) == 1 by { assert PieceLines(tail[1..]) == 0; }
  }

  /** A comment ended by CR LF before a word: the word is on line 3, one
      line further than the text's single line break. */
  lemma {:induction false} CrLfCommentThenWord()
    ensures Next("// a\r\ny\0", Cursor(0, 1)) == Scanned(FullToken(Identifier, 3, 6, 1), Cursor(7, 3))
  {
    var src := "// a\r\ny\0";
    var ps := [Comment(" a", '\r'), Space("\n")];
    CrLfLinePieces(ps);
    LayoutLineCount(ps);
    assert src[0..6] == Text(ps);
    LayoutThenToken(src, 0, ps, 1, Cursor(6, 3));
    LetterBeforeTerminator(src, 6, 3);
  }


  lemma {:induction false} CrLfLinePieces(ps: seq<Piece>)
    requires ps == [Comment(" a", '\r'), Space("\n")]
    ensures WellFormed(ps) && Text(ps) == "// a\r\n" && PieceLines(ps) == 2
  {
    assert ps[1..] == [Space("\n")] && ps[1..][1..] == [];
    assert WellFormed(ps[1..]);
    assert Text(ps[1..]) == "\n";
    assert PieceLines(ps[1..]) == 1;
  }
}
