/** The spelling table against the scanner: each spelling, scanned alone,
    gives back its kind. */
module Spelling {
  import opened Tokens
  import opened Chars
  import opened Keywords
  import opened Scan
  import opened Words

  /** Each operator spelling of the header's enum, alone in a buffer, scans
      as that kind, except `/`: skip_whitespace swallows it and the scanner
      reaches the terminator, so the result is EOF. */
  lemma {:induction false} OperatorSpellingsRescan(k: TokenKind)
    requires IsHeaderOperator(k)
    ensures Next(TypeToString(k) + "\0", Cursor(0, 1)).token.kind == if k == Slash then Eof else k
  {
    var src := TypeToString(k) + "\0";
    match k
    case And => assert src == "&&\0";
    case Bang => assert src == "!\0";
    case Equal => assert src == "=\0";
    case EqualEqual => assert src == "==\0";
    case Greater => assert src == ">\0";
    case GreaterEqual => assert src == ">=\0";
    case LeftParen => assert src == "(\0";
    case Less => assert src == "<\0";
    case LessEqual => assert src == "<=\0";
    case Minus => assert src == "-\0";
    case Or => assert src == "||\0";
    case Plus => assert src == "+\0";
    case RightParen => assert src == ")\0";
    case Slash =>
      assert src == "/\0";
      assert SkipStep(src, 0, 1) == Done(Cursor(1, 1));
    case Star => assert src == "*\0";
  }

  /** The names of the five non-operator kinds are ordinary identifiers. */
  lemma {:induction false} KindNamesAreIdentifiers(k: TokenKind)
    requires k in {Bool, Eof, Error, Float, Int}
    ensures Next(TypeToString(k) + "\0", Cursor(0, 1)).token ==
      FullToken(Identifier, 1, 0, |TypeToString(k)|)
  {
    var w := TypeToString(k);
    assert w in {"bool", "EOF", "error", "float", "int"};
    assert w !in ReservedWords;
    NotReserved(w);
  }
}
