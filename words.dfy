/** Identifiers and reserved words as get_token sees them. */
module Words {
  import opened Tokens
  import opened Chars
  import opened Keywords
  import opened Scan

  /** A scanning loop stops exactly at the first character it does not step
      over. */
  lemma {:induction false} RunEndAt(src: seq<char>, i: nat, e: nat, run: Run)
    requires Terminated(src) && i <= e < |src|
    requires forall k :: i <= k < e ==> Continues(run, src[k])
    requires !Continues(run, src[e])
    ensures RunEnd(src, i, run) == e
    decreases e - i
  {
    if i < e {
      RunEndAt(src, i + 1, e, run);
    }
  }

  /** A maximal run of letters, digits and underscores that starts with a
      letter or underscore is one token: its reserved kind when the whole run
      is a reserved word, an IDENTIFIER spanning the run otherwise. */
  lemma WordToken(src: seq<char>, p: nat, e: nat, line: int)
    requires Terminated(src) && p < e < |src| && IsAlpha(src[p])
    requires forall k :: p <= k < e ==> IsAlphanum(src[k])
    requires !IsAlphanum(src[e])
    ensures Dispatch(src, p, line) ==
      if Reserved(src[p..e]) == Identifier then Scanned(FullToken(Identifier, line, p, e - p), Cursor(e, line))
      else Emit(Reserved(src[p..e]), line, e)
  {
    RunEndAt(src, p + 1, e, Alnum);
  }

  /** A word needs no blank after it: a run of letters, digits and
      underscores ends at any blank, at every character get_token's switch
      names (the terminator among them) and at `,` and `;`, since none of
      those is alphanumeric, and the run up to there is one token. */
  lemma WordStopsAtDelimiter(src: seq<char>, p: nat, e: nat, line: int)
    requires Terminated(src) && p < e < |src| && IsAlpha(src[p])
    requires forall k :: p <= k < e ==> IsAlphanum(src[k])
    requires IsBlank(src[e]) || src[e] in Recognized || src[e] in ",;"
    ensures Dispatch(src, p, line) ==
      if Reserved(src[p..e]) == Identifier then Scanned(FullToken(Identifier, line, p, e - p), Cursor(e, line))
      else Emit(Reserved(src[p..e]), line, e)
  {
    ClassesAreDisjoint(src[e]);
    WordToken(src, p, e, line);
  }

  /** A one-letter word just before the terminator is an identifier. */
  lemma {:induction false} LetterBeforeTerminator(src: seq<char>, p: nat, line: int)
    requires Terminated(src) && p + 2 == |src| && 'a' <= src[p] <= 'z'
    ensures Dispatch(src, p, line) == Scanned(FullToken(Identifier, line, p, 1), Cursor(p + 1, line))
  {
    assert src[p..p + 1] == [src[p]];
    assert [src[p]] !in ReservedWords;
    WordToken(src, p, p + 1, line);
  }

  /** A word alone in the buffer, starting the source. */
  lemma {:induction false} LoneWord(w: string)
    requires |w| > 0 && IsAlpha(w[0]) && forall k :: 0 <= k < |w| ==> IsAlphanum(w[k])
    ensures Next(w + "\0", Cursor(0, 1)) ==
      if Reserved(w) == Identifier then Scanned(FullToken(Identifier, 1, 0, |w|), Cursor(|w|, 1))
      else Emit(Reserved(w), 1, |w|)
  {
    var src := w + "\0";
    assert src[0] == w[0] && src[|w|] == '\0' && src[0..|w|] == w;
    assert SkipStep(src, 0, 1) == Done(Cursor(0, 1));
    WordToken(src, 0, |w|, 1);
  }

  /** Every reserved word, alone, scans as its own kind. */
  lemma {:induction false} ReservedWordsRescan(w: string)
    requires w in ReservedWords
    ensures Next(w + "\0", Cursor(0, 1)) == Emit(ReservedWords[w], 1, |w|)
  {
    assert forall k :: 0 <= k < |w| ==> 'a' <= w[k] <= 'z';
    LoneWord(w);
  }

  /** A run that shares a prefix with a reserved word, and `while`, which
      is not in the table, are identifiers. */
  lemma {:induction false} NotReserved(w: string)
    requires |w| > 0 && IsAlpha(w[0]) && forall k :: 0 <= k < |w| ==> IsAlphanum(w[k])
    requires w !in ReservedWords
    ensures Next(w + "\0", Cursor(0, 1)).token == FullToken(Identifier, 1, 0, |w|)
  {
    LoneWord(w);
  }

  lemma ForeverIsIdentifier()
    ensures Next("forever\0", Cursor(0, 1)).token == FullToken(Identifier, 1, 0, 7)
  {
    assert "forever\0" == "forever" + "\0";
    NotReserved("forever");
  }

  lemma FoIsIdentifier()
    ensures Next("fo\0", Cursor(0, 1)).token == FullToken(Identifier, 1, 0, 2)
  {
    assert "fo\0" == "fo" + "\0";
    NotReserved("fo");
  }

  lemma WhileIsIdentifier()
    ensures Next("while\0", Cursor(0, 1)).token == FullToken(Identifier, 1, 0, 5)
  {
    assert "while\0" == "while" + "\0";
    NotReserved("while");
  }
}
