/** The lexer object itself: the cursor over the source buffer and the line
    counter, stepped in place by the scanning routines exactly as the C steps
    its global lexer. Each routine is proved to do what the matching function
    of module Scan describes. */
module Scanner {
  import opened Tokens
  import opened Chars
  import opened Keywords
  import opened Scan

  class Lexer {
    /** The source buffer; the scanner never writes to it. */
    const src: seq<char>
    /** glexer.curr, as an index into src. */
    var pos: nat
    /** glexer.line. */
    var line: int

    ghost predicate Valid()
      reads this
    {
      Terminated(src) && pos <= |src| && line >= 1
    }

    /** init_lexer: cursor at the start of the buffer, on line 1. The token
        slot the C also stores is replaced by returning each token. */
    constructor (source: seq<char>)
      requires Terminated(source)
      ensures Valid() && src == source && pos == 0 && line == 1
    {
      src := source;
      pos := 0;
      line := 1;
    }

    /** peek */
    function Peek(): char
      reads this
      requires pos < |src|
    {
      src[pos]
    }

    /** finished */
    function Finished(): bool
      reads this
      requires pos < |src|
    {
      src[pos] == '\0'
    }

    /** newline */
    function AtNewline(): bool
      reads this
      requires pos < |src|
    {
      IsNewline(src[pos])
    }

    /** advance: return the character under the cursor and step past it. */
    method Advance() returns (c: char)
      requires pos < |src|
      modifies this`pos
      ensures c == src[old(pos)] && pos == old(pos) + 1
    {
      c := src[pos];
      pos := pos + 1;
    }

    /** skip_whitespace */
    method SkipWhitespace()
      requires Valid() && pos < |src|
      modifies this
      ensures Valid() && Cursor(pos, line) == SkipWs(src, old(pos), old(line))
    {
      ghost var goal := SkipWs(src, pos, line);
      while true
        invariant Valid() && pos < |src|
        invariant SkipWs(src, pos, line) == goal
        decreases |src| - pos
      {
        ghost var turn := SkipStep(src, pos, line);
        assert turn.Again? ==> goal == SkipWs(src, turn.next.pos, turn.next.line);
        assert turn.Done? ==> goal == turn.at;
        var c := Advance();
        if c == '/' {
          if Peek() == '/' {
            c := Advance();
            SkipCommentText();
            if !Finished() {
              line := line + 1;
              c := Advance();
              assert turn == Again(Cursor(pos, line));
              continue;
            }
          }
          assert turn == Done(Cursor(pos, line));
          return;
        } else if c == '\r' || c == '\n' {
          if c == '\r' && Peek() == '\n' {
            c := Advance();
          }
          line := line + 1;
          assert turn == Again(Cursor(pos, line));
        } else if c == '\t' || c == ' ' {
          assert turn == Again(Cursor(pos, line));
        } else {
          pos := pos - 1;
          assert turn == Done(Cursor(pos, line));
          return;
        }
      }
    }

    /** The loop of skip_whitespace that steps over a comment's text: up to
        the line break or the terminator, which it leaves unconsumed. */
    method SkipCommentText()
      requires Valid() && pos < |src|
      modifies this`pos
      ensures Valid() && pos == RunEnd(src, old(pos), Run.CommentBody)
    {
      ghost var bodyStart := pos;
      while !AtNewline() && !Finished()
        invariant Valid() && bodyStart <= pos < |src|
        invariant RunEnd(src, pos, Run.CommentBody) == RunEnd(src, bodyStart, Run.CommentBody)
        decreases |src| - pos
      {
        var c := Advance();
      }
    }

    /** identifier: called with the cursor just past the first letter. */
    method Identifier() returns (t: Token)
      requires Valid() && 0 < pos < |src| && IsAlpha(src[pos - 1])
      modifies this
      ensures Valid() && Scanned(t, Cursor(pos, line)) == IdentifierAt(src, old(pos), old(line))
    {
      var start := pos - 1;
      while IsAlphanum(Peek())
        invariant Valid() && start < pos < |src| && line == old(line)
        invariant RunEnd(src, pos, Alnum) == RunEnd(src, start + 1, Alnum)
        decreases |src| - pos
      {
        var c := Advance();
      }
      var kind := KeywordKind(src, start, pos);
      if kind == TokenKind.Identifier {
        t := FullToken(TokenKind.Identifier, line, start, pos - start);
      } else {
        t := BasicToken(kind, line);
      }
    }

    /** number: called with the cursor just past the literal's first character. */
    method Number() returns (t: Token)
      requires Valid() && 0 < pos < |src|
      modifies this
      ensures Valid() && Scanned(t, Cursor(pos, line)) == NumberAt(src, old(pos), old(line))
    {
      var isFloat := false;
      var start := pos - 1;
      var c: char;
      while IsDigit(Peek())
        invariant Valid() && start < pos < |src| && line == old(line)
        invariant RunEnd(src, pos, Digits) == RunEnd(src, start + 1, Digits)
        decreases |src| - pos
      {
        c := Advance();
      }
      if Peek() == '.' {
        c := Advance();
        isFloat := true;
      }
      ghost var fraction := pos;
      while IsDigit(Peek())
        invariant Valid() && fraction <= pos < |src| && line == old(line)
        invariant RunEnd(src, pos, Digits) == RunEnd(src, fraction, Digits)
        decreases |src| - pos
      {
        c := Advance();
      }
      var end := pos;
      var size := end - start;
      c := Advance();
      if isFloat {
        t := FullToken(Float, line, start, size);
      } else {
        t := FullToken(Int, line, start, size);
      }
    }

    /** string: called with the cursor just past the opening quote. */
    method StringLiteral() returns (t: Token)
      requires Valid() && pos < |src|
      modifies this
      ensures Valid() && Scanned(t, Cursor(pos, line)) == StringAt(src, old(pos), old(line))
    {
      var start := pos;
      while Peek() != '"' && !AtNewline() && !Finished()
        invariant Valid() && start <= pos < |src| && line == old(line)
        invariant RunEnd(src, pos, StringBody) == RunEnd(src, start, StringBody)
        decreases |src| - pos
      {
        var c := Advance();
      }
      if AtNewline() {
        t := ErrorToken(UnterminatedString, line);
        return;
      }
      if Finished() {
        t := ErrorToken(UnterminatedString, line);
        return;
      }
      var end := pos;
      var size := end - start;
      var c := Advance();
      t := FullToken(String, line, start, size);
    }

    /** get_token: the caller must not ask again once the cursor has passed
        the terminator (after EOF, or a number that ends the buffer). */
    method GetToken() returns (t: Token)
      requires Valid() && pos < |src|
      modifies this
      ensures Valid() && Scanned(t, Cursor(pos, line)) == Next(src, Cursor(old(pos), old(line)))
    {
      SkipWhitespace();
      t := Classify();
    }

    /** The body of get_token after skip_whitespace: read one character and
        branch on it. */
    method Classify() returns (t: Token)
      requires Valid() && pos < |src|
      modifies this
      ensures Valid() && Scanned(t, Cursor(pos, line)) == Dispatch(src, old(pos), old(line))
    {
      var c := Advance();
      if IsAlpha(c) {
        t := Identifier();
        return;
      } else if IsDigit(c) {
        t := Number();
        return;
      }
      match c
      case '"' => t := StringLiteral();
      case '(' => t := BasicToken(LeftParen, line);
      case ')' => t := BasicToken(RightParen, line);
      case '{' => t := BasicToken(LeftBrace, line);
      case '}' => t := BasicToken(RightBrace, line);
      case '[' => t := BasicToken(LeftBracket, line);
      case ']' => t := BasicToken(RightBracket, line);
      case '+' =>
        if Peek() == '=' {
          c := Advance();
          t := BasicToken(PlusEqual, line);
        } else if Peek() == '+' {
          c := Advance();
          t := BasicToken(PlusPlus, line);
        } else {
          t := BasicToken(Plus, line);
        }
      case '-' =>
        var d := Peek();
        if d == '=' {
          c := Advance();
          t := BasicToken(MinusEqual, line);
        } else if d == '-' {
          c := Advance();
          t := BasicToken(MinusMinus, line);
        } else if IsDigit(d) || d == '.' {
          t := Number();
        } else {
          t := BasicToken(Minus, line);
        }
      case '*' => t := OneLookahead('=', StarEqual, Star);
      case '/' => t := OneLookahead('=', SlashEqual, Slash);
      case '=' => t := OneLookahead('=', EqualEqual, Equal);
      case '<' => t := OneLookahead('=', LessEqual, Less);
      case '>' => t := OneLookahead('=', GreaterEqual, Greater);
      case '!' => t := OneLookahead('=', BangEqual, Bang);
      case '&' =>
        if Peek() == '&' {
          c := Advance();
          t := BasicToken(And, line);
        } else {
          t := ErrorToken(InvalidSyntax, line);
        }
      case '|' =>
        if Peek() == '|' {
          c := Advance();
          t := BasicToken(Or, line);
        } else {
          t := ErrorToken(InvalidSyntax, line);
        }
      case '%' => t := BasicToken(Percent, line);
      case '.' =>
        if IsDigit(Peek()) {
          t := Number();
        } else {
          t := BasicToken(Dot, line);
        }
      case '?' => t := BasicToken(Question, line);
      case ':' => t := BasicToken(Colon, line);
      case '\0' => t := BasicToken(Eof, line);
      case _ => t := ErrorToken(UnexpectedCharacter, line);
    }

    /** The `if (peek() == second) { advance(); two } else one` shape that
        get_token repeats for `* / = < > !`. */
    method OneLookahead(second: char, two: TokenKind, one: TokenKind) returns (t: Token)
      requires Valid() && pos < |src|
      modifies this
      ensures Valid() && Scanned(t, Cursor(pos, line)) == Lookahead(src, old(pos), old(line), second, two, one)
    {
      ghost var goal := Lookahead(src, pos, line, second, two, one);
      if Peek() == second {
        assert goal == Emit(two, line, pos + 1);
        var c := Advance();
        t := BasicToken(two, line);
      } else {
        assert goal == Emit(one, line, pos);
        t := BasicToken(one, line);
      }
    }
  }
}
