/** What get_token returns for each kind of character under the cursor once
    whitespace is skipped, stated against tables of the language's tokens. */
module Dispatching {
  import opened Tokens
  import opened Chars
  import opened Keywords
  import opened Scan

  /** The two-character operators. */
  const TwoCharOperators: map<string, TokenKind> :=
    map["+=" := PlusEqual, "++" := PlusPlus, "-=" := MinusEqual, "--" := MinusMinus,
        "*=" := StarEqual, "/=" := SlashEqual, "==" := EqualEqual, "<=" := LessEqual,
        ">=" := GreaterEqual, "!=" := BangEqual, "&&" := And, "||" := Or]

  /** The one-character operators (`&` and `|` have none). */
  const OneCharOperators: map<char, TokenKind> :=
    map['+' := Plus, '-' := Minus, '*' := Star, '/' := Slash, '=' := Equal,
        '<' := Less, '>' := Greater, '!' := Bang]

  /** The punctuation that is always a token of its own. */
  const Punctuation: map<char, TokenKind> :=
    map['(' := LeftParen, ')' := RightParen, '{' := LeftBrace, '}' := RightBrace,
        '[' := LeftBracket, ']' := RightBracket, '%' := Percent, '?' := Question, ':' := Colon]

  /** A character that can start an operator. */
  predicate OperatorStart(c: char)
  {
    c in "+-*/=<>!&|"
  }

  /** Whether a `-` here begins a number instead. */
  predicate SignedNumber(src: seq<char>, p: nat)
    requires p + 1 < |src|
  {
    src[p] == '-' && (IsDigit(src[p + 1]) || src[p + 1] == '.')
  }

  /** After an operator's first character the second is taken exactly when
      the two spell a two-character operator, and the cursor moves past both. */
  lemma {:induction false} TwoCharOperatorTaken(src: seq<char>, p: nat, line: int)
    requires Terminated(src) && p + 1 < |src| && [src[p], src[p + 1]] in TwoCharOperators
    ensures Dispatch(src, p, line) == Emit(TwoCharOperators[[src[p], src[p + 1]]], line, p + 2)
  {
    var pair := [src[p], src[p + 1]];
    assert pair[0] == src[p] && pair[1] == src[p + 1];
    assert OperatorStart(src[p]);
    SecondOfPair(pair);
  }

  /** When the two characters spell no two-character operator, exactly one
      character is consumed: no backtracking, no second look. */
  lemma {:induction false} OneCharOperatorKept(src: seq<char>, p: nat, line: int)
    requires Terminated(src) && p < |src| && src[p] in OneCharOperators
    ensures p + 1 < |src|
    ensures [src[p], src[p + 1]] !in TwoCharOperators && !SignedNumber(src, p) ==>
      Dispatch(src, p, line) == Emit(OneCharOperators[src[p]], line, p + 1)
  {
    if [src[p], src[p + 1]] in TwoCharOperators || SignedNumber(src, p) {
      return;
    }
    var pair := [src[p], src[p + 1]];
    assert pair[0] == src[p] && pair[1] == src[p + 1];
    SecondOfPair(pair);
    if src[p] == '+' || src[p] == '-' {
      PlusOrMinusKept(src, p, line);
    } else {
      LookaheadKept(src, p, line);
    }
  }

  lemma PlusOrMinusKept(src: seq<char>, p: nat, line: int)
    requires Terminated(src) && p + 1 < |src| && (src[p] == '+' || src[p] == '-')
    requires src[p + 1] !in Seconds(src[p]) && !SignedNumber(src, p)
    ensures Dispatch(src, p, line) == Emit(OneCharOperators[src[p]], line, p + 1)
  {
  }

  lemma LookaheadKept(src: seq<char>, p: nat, line: int)
    requires Terminated(src) && p + 1 < |src| && src[p] in "*/=<>!" && src[p + 1] != '='
    ensures Dispatch(src, p, line) == Emit(OneCharOperators[src[p]], line, p + 1)
  {
  }

  /** `&` and `|` alone are ERROR "invalid syntax", consuming one character. */
  lemma {:induction false} LoneAmpersandOrBar(src: seq<char>, p: nat, line: int)
    requires Terminated(src) && p < |src| && (src[p] == '&' || src[p] == '|')
    ensures p + 1 < |src|
    ensures [src[p], src[p + 1]] !in TwoCharOperators ==>
      Dispatch(src, p, line) == Scanned(ErrorToken(InvalidSyntax, line), Cursor(p + 1, line))
  {
    var pair := [src[p], src[p + 1]];
    assert pair[0] == src[p] && pair[1] == src[p + 1];
    SecondOfPair(pair);
  }

  /** The second characters that complete a two-character operator. */
  function Seconds(c: char): string
  {
    if c == '+' then "=+" else if c == '-' then "=-"
    else if c == '&' then "&" else if c == '|' then "|"
    else if c in "*/=<>!" then "=" else ""
  }

  /** Which two-character operators there are: a first character that
      starts an operator and one of its seconds. */
  lemma SecondOfPair(pair: string)
    requires |pair| == 2
    ensures pair in TwoCharOperators <==> OperatorStart(pair[0]) && pair[1] in Seconds(pair[0])
  {
    if OperatorStart(pair[0]) && pair[1] in Seconds(pair[0]) {
      assert pair == [pair[0], pair[1]];
    }
  }

  /** A `-` followed by a digit or `.` starts a number whose lexeme begins
      at the `-`; otherwise `-` is MINUS_EQUAL, MINUS_MINUS or MINUS. */
  lemma MinusDispatch(src: seq<char>, p: nat, line: int)
    requires Terminated(src) && p < |src| && src[p] == '-'
    ensures p + 1 < |src|
    ensures SignedNumber(src, p) ==>
      && Dispatch(src, p, line) == NumberAt(src, p + 1, line)
      && Dispatch(src, p, line).token.lexeme.start == p
    ensures !SignedNumber(src, p) ==>
      Dispatch(src, p, line).token.kind == (if src[p + 1] == '=' then MinusEqual
                                            else if src[p + 1] == '-' then MinusMinus else Minus)
  {
  }

  /** Punctuation is one token of one character. */
  lemma PunctuationDispatch(src: seq<char>, p: nat, line: int)
    requires Terminated(src) && p < |src| && src[p] in Punctuation
    ensures Dispatch(src, p, line) == Emit(Punctuation[src[p]], line, p + 1)
  {
  }

  /** A `.` not followed by a digit is DOT; followed by one, it starts a
      number whose lexeme begins at the `.`. */
  lemma DotDispatch(src: seq<char>, p: nat, line: int)
    requires Terminated(src) && p < |src| && src[p] == '.'
    ensures p + 1 < |src|
    ensures !IsDigit(src[p + 1]) ==> Dispatch(src, p, line) == Emit(Dot, line, p + 1)
    ensures IsDigit(src[p + 1]) ==> Dispatch(src, p, line) == NumberAt(src, p + 1, line)
  {
  }

  /** The terminator gives EOF; the cursor steps past it, as advance() does. */
  lemma EofDispatch(src: seq<char>, p: nat, line: int)
    requires Terminated(src) && p < |src| && src[p] == '\0'
    ensures Dispatch(src, p, line) == Emit(Eof, line, p + 1)
  {
  }

  /** Any character that is neither a letter, a digit, nor one the switch
      names (so `,` and `;` among them) is an error consuming one character. */
  lemma {:induction false} UnexpectedDispatch(src: seq<char>, p: nat, line: int)
    requires Terminated(src) && p < |src| && !IsAlphanum(src[p]) && src[p] !in Recognized
    ensures Dispatch(src, p, line) == Scanned(ErrorToken(UnexpectedCharacter, line), Cursor(p + 1, line))
  {
    var c := src[p];
    assert c != '"' && c != '(' && c != ')' && c != '{' && c != '}' && c != '[' && c != ']';
    assert c != '+' && c != '-' && c != '*' && c != '/' && c != '=' && c != '<' && c != '>';
    assert c != '!' && c != '&' && c != '|' && c != '%' && c != '.' && c != '?' && c != ':' && c != '\0';
  }

  lemma CommaAndSemicolonAreErrors(src: seq<char>, p: nat, line: int)
    requires Terminated(src) && p < |src| && (src[p] == ',' || src[p] == ';')
    ensures Dispatch(src, p, line).token == ErrorToken(UnexpectedCharacter, line)
  {
    UnexpectedDispatch(src, p, line);
  }

  /** The three ways get_token reports an error, and no others: an
      unexpected character, a lone `&` or `|`, or a string literal cut off by
      a line break or the terminator. */
  lemma {:induction false} ErrorCases(src: seq<char>, p: nat, line: int)
    requires Terminated(src) && p < |src|
    ensures p + 1 < |src| || src[p] == '\0'
    ensures var t := Dispatch(src, p, line).token;
      t.kind == Error <==>
        || (!IsAlphanum(src[p]) && src[p] !in Recognized)
        || ((src[p] == '&' || src[p] == '|') && src[p + 1] != src[p])
        || (src[p] == '"' && src[RunEnd(src, p + 1, StringBody)] != '"')
  {
    var c := src[p];
    var d := Dispatch(src, p, line);
    if IsAlpha(c) {
      assert d == IdentifierAt(src, p + 1, line);
      ReservedIsNoError(src[p..RunEnd(src, p + 1, Alnum)]);
    } else if IsDigit(c) {
      assert d == NumberAt(src, p + 1, line);
    } else if c == '"' {
      assert d == StringAt(src, p + 1, line);
    } else if c == '&' || c == '|' {
      assert d.token.kind == Error <==> src[p + 1] != c;
    } else if c in Recognized {
      RecognizedNoError(src, p, line);
    } else {
      UnexpectedDispatch(src, p, line);
    }
  }

  /** An error token carries one of the three messages. */
  lemma ErrorMessages(src: seq<char>, p: nat, line: int)
    requires Terminated(src) && p < |src|
    ensures var t := Dispatch(src, p, line).token;
      t.kind == Error ==> t.lexeme in {Message(UnexpectedCharacter), Message(InvalidSyntax), Message(UnterminatedString)}
  {
    var c := src[p];
    if IsAlpha(c) {
      ReservedIsNoError(src[p..RunEnd(src, p + 1, Alnum)]);
    }
  }

  lemma ReservedIsNoError(w: string)
    ensures Reserved(w) != Error
  {
  }

  lemma RecognizedNoError(src: seq<char>, p: nat, line: int)
    requires Terminated(src) && p < |src| && src[p] in Recognized && src[p] !in "\"&|"
    ensures Dispatch(src, p, line).token.kind != Error
  {
    var c := src[p];
    if c == '-' || c == '.' {
      NumberOrSignNoError(src, p, line);
    } else if c in "+*/=<>!" {
      OperatorNoError(src, p, line);
    } else {
      assert c in "(){}[]%?:\0";
      FixedNoError(src, p, line);
    }
  }

  lemma NumberOrSignNoError(src: seq<char>, p: nat, line: int)
    requires Terminated(src) && p < |src| && (src[p] == '-' || src[p] == '.')
    ensures Dispatch(src, p, line).token.kind != Error
  {
  }

  lemma OperatorNoError(src: seq<char>, p: nat, line: int)
    requires Terminated(src) && p < |src| && src[p] in "+*/=<>!"
    ensures Dispatch(src, p, line).token.kind != Error
  {
  }

  lemma FixedNoError(src: seq<char>, p: nat, line: int)
    requires Terminated(src) && p < |src| && src[p] in "(){}[]%?:\0"
    ensures Dispatch(src, p, line).token.kind != Error
  {
  }

  /** get_token never returns SLASH or SLASH_EQUAL, since skip_whitespace
      never stops on a `/`; nor BOOL or WHILE, which no branch builds. */
  lemma {:induction false} UnreachableKinds(src: seq<char>, cur: Cursor)
    requires Terminated(src) && cur.pos < |src|
    ensures Next(src, cur).token.kind !in {Slash, SlashEqual, Bool, While}
  {
    var at := SkipWs(src, cur.pos, cur.line);
    SkipWsStops(src, cur.pos, cur.line);
    var c := src[at.pos];
    if IsAlpha(c) {
      ReservedKinds(src[at.pos..RunEnd(src, at.pos + 1, Alnum)]);
    }
  }

  lemma ReservedKinds(w: string)
    ensures Reserved(w) !in {Slash, SlashEqual, Bool, While}
  {
  }
}
