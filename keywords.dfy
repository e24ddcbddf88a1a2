/** Reserved-word recognition: compare_str and keyword_identifier. */
module Keywords {
  import opened Tokens

  /** compare_str: the length test first, then a byte comparison of exactly
      `length` bytes. A negative `length` stands for the wrapped-around
      size_t the C computes for a one-letter span; it never equals a word's
      length, exactly as the huge unsigned value does not. */
  function CompareStr(src: seq<char>, start: nat, length: int, word: string): bool
    requires length == |word| ==> start + length <= |src|
  {
    length == |word| && src[start..start + length] == word
  }

  /** keyword_identifier's decision: the nested switch on the first one or
      two characters, then compare_str on the rest of the span
      src[start..end]. Like the C it reads src[start + 1] even for a span of
      length one (the character after the span, inside the buffer). */
  function KeywordKind(src: seq<char>, start: nat, end: nat): TokenKind
    requires start < end < |src|
  {
    var length := end - start;
    match src[start]
    case 'c' =>
      (match src[start + 1]
       case 'a' => if CompareStr(src, start + 2, length - 2, "se") then Case else Identifier
       case 'o' => if CompareStr(src, start + 2, length - 2, "nst") then Const else Identifier
       case _ => Identifier)
    case 'd' => if CompareStr(src, start + 1, length - 1, "efault") then Default else Identifier
    case 'e' => if CompareStr(src, start + 1, length - 1, "lse") then Else else Identifier
    case 'f' =>
      (match src[start + 1]
       case 'a' => if CompareStr(src, start + 2, length - 2, "lse") then False else Identifier
       case 'o' => if CompareStr(src, start + 2, length - 2, "r") then For else Identifier
       case _ => Identifier)
    case 'i' => if CompareStr(src, start + 1, length - 1, "f") then If else Identifier
    case 'r' => if CompareStr(src, start + 1, length - 1, "eturn") then Return else Identifier
    case 's' => if CompareStr(src, start + 1, length - 1, "witch") then Switch else Identifier
    case 't' =>
      (match src[start + 1]
       case 'r' => if CompareStr(src, start + 2, length - 2, "ue") then True else Identifier
       case 'y' => if CompareStr(src, start + 2, length - 2, "pe") then Type else Identifier
       case _ => Identifier)
    case 'v' => if CompareStr(src, start + 1, length - 1, "ar") then Var else Identifier
    case _ => Identifier
  }

  /** Reference table of the reserved words (note: no "while"). */
  const ReservedWords: map<string, TokenKind> :=
    map["case" := Case, "const" := Const, "default" := Default, "else" := Else,
        "false" := False, "for" := For, "if" := If, "return" := Return,
        "switch" := Switch, "true" := True, "type" := Type, "var" := Var]

  /** The kind a whole word receives: its reserved kind, or Identifier. */
  function Reserved(w: string): TokenKind
  {
    if w in ReservedWords then ReservedWords[w] else Identifier
  }

  /** keyword_identifier yields a keyword kind exactly when the whole span
      is that reserved word: both length and bytes must match, so shorter
      or longer runs sharing a prefix are identifiers. */
  lemma {:induction false} KeywordKindMatchesTable(src: seq<char>, start: nat, end: nat)
    requires start < end < |src|
    ensures KeywordKind(src, start, end) == Reserved(src[start..end])
  {
    var span := src[start..end];
    if |span| == 1 {
      assert span !in ReservedWords;
    } else {
      SpanParts(src, start, end);
      match src[start]
      case 'c' => KeywordsAfterC(src, start, end);
      case 'f' => KeywordsAfterF(src, start, end);
      case 't' => KeywordsAfterT(src, start, end);
      case 'd' => WordAfterFirst(src, start, end, "default");
      case 'e' => WordAfterFirst(src, start, end, "else");
      case 'i' => WordAfterFirst(src, start, end, "if");
      case 'r' => WordAfterFirst(src, start, end, "return");
      case 's' => WordAfterFirst(src, start, end, "switch");
      case 'v' => WordAfterFirst(src, start, end, "var");
      case _ =>
    }
  }

  lemma SpanParts(src: seq<char>, start: nat, end: nat)
    requires start + 2 <= end <= |src|
    ensures src[start..end][0] == src[start] && src[start..end][1] == src[start + 1]
    ensures src[start..end][1..] == src[start + 1..end]
    ensures src[start..end][2..] == src[start + 2..end]
  {
  }

  /** The reserved words whose first letter is the only one they share. */
  predicate AloneOnFirstLetter(w: string)
  {
    w in {"default", "else", "if", "return", "switch", "var"}
  }

  lemma WordAfterFirst(src: seq<char>, start: nat, end: nat, w: string)
    requires start + 2 <= end <= |src| && AloneOnFirstLetter(w) && src[start] == w[0]
    ensures Reserved(src[start..end]) ==
      if CompareStr(src, start + 1, end - start - 1, w[1..]) then ReservedWords[w] else Identifier
  {
    var span := src[start..end];
    SpanParts(src, start, end);
    if span[1..] == w[1..] {
      assert span == [span[0]] + span[1..];
      assert w == [w[0]] + w[1..];
    }
  }

  /** The `c` words: `case` and `const`, told apart by the second letter. */
  lemma KeywordsAfterC(src: seq<char>, start: nat, end: nat)
    requires start + 2 <= end < |src| && src[start] == 'c'
    ensures KeywordKind(src, start, end) == Reserved(src[start..end])
  {
    var span := src[start..end];
    SpanParts(src, start, end);
    if span[2..] == "se" && span[1] == 'a' { assert span == "case"; }
    if span[2..] == "nst" && span[1] == 'o' { assert span == "const"; }
  }

  /** The `f` words: `false` and `for`. */
  lemma KeywordsAfterF(src: seq<char>, start: nat, end: nat)
    requires start + 2 <= end < |src| && src[start] == 'f'
    ensures KeywordKind(src, start, end) == Reserved(src[start..end])
  {
    var span := src[start..end];
    SpanParts(src, start, end);
    if span[2..] == "lse" && span[1] == 'a' { assert span == "false"; }
    if span[2..] == "r" && span[1] == 'o' { assert span == "for"; }
  }

  /** The `t` words: `true` and `type`. */
  lemma KeywordsAfterT(src: seq<char>, start: nat, end: nat)
    requires start + 2 <= end < |src| && src[start] == 't'
    ensures KeywordKind(src, start, end) == Reserved(src[start..end])
  {
    var span := src[start..end];
    SpanParts(src, start, end);
    if span[2..] == "ue" && span[1] == 'r' { assert span == "true"; }
    if span[2..] == "pe" && span[1] == 'y' { assert span == "type"; }
  }
}
