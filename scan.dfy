/** The scanner as functions of the source buffer and the cursor: what one
    get_token call returns and where it leaves the cursor. */
module Scan {
  import opened Tokens
  import opened Chars
  import opened Keywords

  /** The buffer the scanner walks: the file's bytes followed by the NUL
      terminator that main.c appends. An earlier NUL is not excluded; the
      scanner's tests meet it as end of input, as the C's do. */
  predicate Terminated(src: seq<char>)
  {
    |src| > 0 && src[|src| - 1] == '\0'
  }

  /** The lexer's cursor: position in the buffer and current line. */
  datatype Cursor = Cursor(pos: nat, line: int)

  /** A token together with the cursor it leaves behind. */
  datatype Scanned = Scanned(token: Token, next: Cursor)

  /** The character runs the scanning loops step over. */
  datatype Run = Alnum | Digits | StringBody | CommentBody

  /** Whether a scanning loop of the given kind steps over `c`. */
  predicate Continues(run: Run, c: char)
  {
    match run
    case Alnum => IsAlphanum(c)
    case Digits => IsDigit(c)
    case StringBody => c != '"' && !IsNewline(c) && c != '\0'
    case CommentBody => !IsNewline(c) && c != '\0'
  }

  /** Where a loop of kind `run` started at `i` stops: the first position at
      or after `i` whose character it does not step over. */
  function RunEnd(src: seq<char>, i: nat, run: Run): (e: nat)
    requires Terminated(src) && i < |src|
    ensures i <= e < |src|
    ensures forall k :: i <= k < e ==> Continues(run, src[k])
    ensures !Continues(run, src[e])
    decreases |src| - i
  {
    if Continues(run, src[i]) then RunEnd(src, i + 1, run) else i
  }

  /** The outcome of one turn of skip_whitespace's loop: go round again
      from a new cursor, or return leaving the cursor at `at`. */
  datatype SkipTurn = Again(next: Cursor) | Done(at: Cursor)

  /** One turn of skip_whitespace's loop. A `/` that does not start a
      comment is consumed and not put back; a comment that runs to the
      terminator stops on it; any other character is put back. */
  function SkipStep(src: seq<char>, pos: nat, line: int): (turn: SkipTurn)
    requires Terminated(src) && pos < |src|
    ensures turn.Again? ==> pos < turn.next.pos < |src| && line <= turn.next.line <= line + (turn.next.pos - pos)
    ensures turn.Done? ==> pos <= turn.at.pos < |src| && turn.at.line == line
  {
    var c := src[pos];
    if c == '/' then
      if src[pos + 1] == '/' then
        var e := RunEnd(src, pos + 2, CommentBody);
        if src[e] != '\0' then Again(Cursor(e + 1, line + 1)) else Done(Cursor(e, line))
      else Done(Cursor(pos + 1, line))
    else if c == '\r' then
      if src[pos + 1] == '\n' then Again(Cursor(pos + 2, line + 1)) else Again(Cursor(pos + 1, line + 1))
    else if c == '\n' then Again(Cursor(pos + 1, line + 1))
    else if c == '\t' || c == ' ' then Again(Cursor(pos + 1, line))
    else Done(Cursor(pos, line))
  }

  /** skip_whitespace: turns of the loop until one returns. */
  function SkipWs(src: seq<char>, pos: nat, line: int): (at: Cursor)
    requires Terminated(src) && pos < |src|
    ensures pos <= at.pos < |src| && line <= at.line
    decreases |src| - pos
  {
    match SkipStep(src, pos, line)
    case Again(next) => SkipWs(src, next.pos, next.line)
    case Done(at) => at
  }

  /** Where skip_whitespace stops: never on a `/` (that is why get_token's
      slash branches are never reached), and on a blank only right after a
      lone `/` it swallowed. Each line increment consumed a character. */
  lemma {:induction false} SkipWsStops(src: seq<char>, pos: nat, line: int)
    requires Terminated(src) && pos < |src|
    ensures var at := SkipWs(src, pos, line);
      && at.line <= line + (at.pos - pos)
      && src[at.pos] != '/'
      && (IsBlank(src[at.pos]) ==> pos < at.pos && src[at.pos - 1] == '/')
    decreases |src| - pos
  {
    match SkipStep(src, pos, line)
    case Again(next) => SkipWsStops(src, next.pos, next.line);
    case Done(at) =>
  }

  /** identifier(): the first letter is at q - 1; the run of letters, digits
      and underscores after it is the span, then keyword_identifier decides. */
  function IdentifierAt(src: seq<char>, q: nat, line: int): (s: Scanned)
    requires Terminated(src) && 0 < q < |src| && IsAlpha(src[q - 1])
    ensures var e := s.next.pos;
      && q <= e < |src| && s.next.line == s.token.line == line
      && (forall k :: q - 1 <= k < e ==> IsAlphanum(src[k]))
      && !IsAlphanum(src[e])
      && s.token == (if Reserved(src[q - 1..e]) == Identifier then FullToken(Identifier, line, q - 1, e - (q - 1))
                     else BasicToken(Reserved(src[q - 1..e]), line))
  {
    var e := RunEnd(src, q, Alnum);
    var kind := KeywordKind(src, q - 1, e);
    KeywordKindMatchesTable(src, q - 1, e);
    Scanned(if kind == Identifier then FullToken(Identifier, line, q - 1, e - (q - 1)) else BasicToken(kind, line),
            Cursor(e, line))
  }

  /** number(): the literal starts at q - 1 (a digit, a `.` or a `-`); digits,
      at most one `.`, digits; then one more character is skipped whatever it
      is, without counting a line break. */
  function NumberAt(src: seq<char>, q: nat, line: int): (s: Scanned)
    requires Terminated(src) && 0 < q < |src|
    ensures s.token.kind in {Int, Float} && s.token.line == s.next.line == line
    ensures s.token.lexeme.Span? && s.token.lexeme.start == q - 1
    ensures q <= q - 1 + s.token.lexeme.size < |src| && s.next.pos == q + s.token.lexeme.size
  {
    var e1 := RunEnd(src, q, Digits);
    var isFloat := src[e1] == '.';
    var end := if isFloat then RunEnd(src, e1 + 1, Digits) else e1;
    FullTokenAt(if isFloat then Float else Int, line, q - 1, end - (q - 1), end + 1)
  }

  /** The span number() takes is the longest run of digits with at most one
      `.` after its first character, and the kind is Float exactly when that
      run holds a `.`: the first character does not count, so `.5` is Int. */
  lemma NumberSpan(src: seq<char>, q: nat, line: int)
    requires Terminated(src) && 0 < q < |src|
    ensures var s := NumberAt(src, q, line); var end := q - 1 + s.token.lexeme.size;
      && (forall k :: q <= k < end ==> IsDigit(src[k]) || src[k] == '.')
      && (forall i, j :: q <= i < j < end && src[i] == '.' ==> src[j] != '.')
      && !IsDigit(src[end])
      && (s.token.kind == Float <==> '.' in src[q..end])
      && (s.token.kind == Int ==> src[end] != '.')
  {
    var e1 := RunEnd(src, q, Digits);
    var isFloat := src[e1] == '.';
    var end := if isFloat then RunEnd(src, e1 + 1, Digits) else e1;
    assert isFloat ==> src[e1] == src[q..end][e1 - q];
    assert '.' in src[q..end] ==> isFloat;
  }

  function FullTokenAt(kind: TokenKind, line: int, start: nat, size: nat, pos: nat): Scanned
  {
    Scanned(FullToken(kind, line, start, size), Cursor(pos, line))
  }

  /** string(): the text runs from q (just after the opening quote) to the
      next quote, which is consumed. A line break or the terminator met
      first gives an error that leaves the cursor on it. */
  function StringAt(src: seq<char>, q: nat, line: int): (s: Scanned)
    requires Terminated(src) && q < |src|
    ensures s.token.kind in {String, Error} && s.token.line == s.next.line == line
    ensures s.token.kind == String ==>
      && q < s.next.pos <= |src|
      && s.token.lexeme == Span(q, s.next.pos - 1 - q)
      && src[s.next.pos - 1] == '"'
      && (forall k :: q <= k < s.next.pos - 1 ==> src[k] != '"' && !IsNewline(src[k]) && src[k] != '\0')
    ensures s.token.kind == Error ==>
      && q <= s.next.pos < |src|
      && s.token.lexeme == Message(UnterminatedString)
      && (IsNewline(src[s.next.pos]) || src[s.next.pos] == '\0')
      && (forall k :: q <= k < s.next.pos ==> src[k] != '"' && !IsNewline(src[k]) && src[k] != '\0')
  {
    var e := RunEnd(src, q, StringBody);
    if IsNewline(src[e]) then Scanned(ErrorToken(UnterminatedString, line), Cursor(e, line))
    else if src[e] == '\0' then Scanned(ErrorToken(UnterminatedString, line), Cursor(e, line))
    else FullTokenAt(String, line, q, e - q, e + 1)
  }

  /** A fixed-spelling token ending just before `pos`. */
  function Emit(kind: TokenKind, line: int, pos: nat): Scanned
  {
    Scanned(BasicToken(kind, line), Cursor(pos, line))
  }

  /** An operator whose two-character form is `first` then `second`: the
      second character is taken only when it completes that form. */
  function Lookahead(src: seq<char>, q: nat, line: int, second: char, two: TokenKind, one: TokenKind): Scanned
    requires q < |src|
  {
    if src[q] == second then Emit(two, line, q + 1) else Emit(one, line, q)
  }

  /** A span token stays inside the buffer. */
  predicate WithinSource(t: Token, src: seq<char>)
  {
    t.lexeme.Span? ==> t.lexeme.start + t.lexeme.size <= |src|
  }

  /** get_token once whitespace is skipped: read the character at p and
      branch on it. Every token carries the line current when it is built. */
  function Dispatch(src: seq<char>, p: nat, line: int): (s: Scanned)
    requires Terminated(src) && p < |src|
    ensures p < s.next.pos <= |src|
    ensures s.token.line == s.next.line == line
    ensures WithinSource(s.token, src)
  {
    var c := src[p];
    var q := p + 1;
    if IsAlpha(c) then IdentifierAt(src, q, line)
    else if IsDigit(c) then NumberAt(src, q, line)
    else
      match c
      case '"' => StringAt(src, q, line)
      case '(' => Emit(LeftParen, line, q)
      case ')' => Emit(RightParen, line, q)
      case '{' => Emit(LeftBrace, line, q)
      case '}' => Emit(RightBrace, line, q)
      case '[' => Emit(LeftBracket, line, q)
      case ']' => Emit(RightBracket, line, q)
      case '+' =>
        if src[q] == '=' then Emit(PlusEqual, line, q + 1)
        else if src[q] == '+' then Emit(PlusPlus, line, q + 1)
        else Emit(Plus, line, q)
      case '-' =>
        if src[q] == '=' then Emit(MinusEqual, line, q + 1)
        else if src[q] == '-' then Emit(MinusMinus, line, q + 1)
        else if IsDigit(src[q]) || src[q] == '.' then NumberAt(src, q, line)
        else Emit(Minus, line, q)
      case '*' => Lookahead(src, q, line, '=', StarEqual, Star)
      case '/' => Lookahead(src, q, line, '=', SlashEqual, Slash)
      case '=' => Lookahead(src, q, line, '=', EqualEqual, Equal)
      case '<' => Lookahead(src, q, line, '=', LessEqual, Less)
      case '>' => Lookahead(src, q, line, '=', GreaterEqual, Greater)
      case '!' => Lookahead(src, q, line, '=', BangEqual, Bang)
      case '&' =>
        if src[q] == '&' then Emit(And, line, q + 1)
        else Scanned(ErrorToken(InvalidSyntax, line), Cursor(q, line))
      case '|' =>
        if src[q] == '|' then Emit(Or, line, q + 1)
        else Scanned(ErrorToken(InvalidSyntax, line), Cursor(q, line))
      case '%' => Emit(Percent, line, q)
      case '.' => if IsDigit(src[q]) then NumberAt(src, q, line) else Emit(Dot, line, q)
      case '?' => Emit(Question, line, q)
      case ':' => Emit(Colon, line, q)
      case '\0' => Emit(Eof, line, q)
      case _ => Scanned(ErrorToken(UnexpectedCharacter, line), Cursor(q, line))
  }

  /** get_token: skip whitespace and comments, then scan one token. The
      cursor never moves back and the line never decreases; the token's line
      is the line the cursor is left on. */
  function Next(src: seq<char>, cur: Cursor): (s: Scanned)
    requires Terminated(src) && cur.pos < |src|
    ensures cur.pos < s.next.pos <= |src|
    ensures cur.line <= s.token.line == s.next.line
    ensures WithinSource(s.token, src)
  {
    var at := SkipWs(src, cur.pos, cur.line);
    Dispatch(src, at.pos, at.line)
  }

  /** The stream a caller obtains by calling get_token until it returns EOF
      or ERROR. The stream also ends when the cursor has passed the
      terminator (after a number at the very end of the buffer), where the C
      would read beyond the buffer. */
  function Tokenize(src: seq<char>, cur: Cursor): (ts: seq<Token>)
    requires Terminated(src) && cur.pos <= |src|
    ensures forall i :: 0 <= i < |ts| ==> cur.line <= ts[i].line
    ensures forall i, j :: 0 <= i < j < |ts| ==> ts[i].line <= ts[j].line
    ensures forall i :: 0 <= i < |ts| - 1 ==> ts[i].kind != Eof && ts[i].kind != Error
    ensures forall i :: 0 <= i < |ts| ==> WithinSource(ts[i], src)
    decreases |src| - cur.pos
  {
    if cur.pos == |src| then []
    else
      var s := Next(src, cur);
      if s.token.kind == Eof || s.token.kind == Error then [s.token]
      else [s.token] + Tokenize(src, s.next)
  }
}
