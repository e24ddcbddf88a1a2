/** Token kinds, token values and the kind-to-spelling table of the lexer. */
module Tokens {

  /** Every kind the scanner can emit or the dump routine names, plus Bool,
      which only the header's enum and its spelling table mention. */
  datatype TokenKind =
    | And | Bang | BangEqual | Bool | Case | Colon | Const | Default | Dot | Else
    | Eof | Equal | EqualEqual | Error | False | Float | For | Greater | GreaterEqual
    | Identifier | If | Int | LeftBrace | LeftBracket | LeftParen | Less | LessEqual
    | Minus | MinusEqual | MinusMinus | Or | Percent | Plus | PlusEqual | PlusPlus
    | Question | Return | RightBrace | RightBracket | RightParen | Slash | SlashEqual
    | Star | StarEqual | String | Switch | True | Type | Var | While

  datatype Option<T> = None | Some(value: T)

  /** What a token's lexeme field holds: nothing (fixed-spelling kinds), a
      span of the source buffer, or a fixed error message, whose length is
      the token's size. */
  datatype Lexeme = NoText | Span(start: nat, size: nat) | Message(text: string)

  /** A token value: returned fresh by each call instead of the C's shared slot. */
  datatype Token = Token(kind: TokenKind, line: int, lexeme: Lexeme)

  const UnterminatedString := "unexpected terminated string literal"
  const InvalidSyntax := "invalid syntax"
  const UnexpectedCharacter := "Encountered unexpected character"

  /** create_basic_token: kind and current line, no lexeme, size 0. */
  function BasicToken(kind: TokenKind, line: int): Token
  {
    Token(kind, line, NoText)
  }

  /** create_full_token: kind, current line and a span of the source. */
  function FullToken(kind: TokenKind, line: int, start: nat, size: nat): Token
  {
    Token(kind, line, Span(start, size))
  }

  /** error_token: an Error token whose lexeme is the message. */
  function ErrorToken(message: string, line: int): Token
  {
    Token(Error, line, Message(message))
  }

  /** The twenty values of the header's own enum. */
  predicate InHeaderEnum(k: TokenKind)
  {
    match k
    case And | Bang | Bool | Eof | Equal | EqualEqual | Error | Float | Greater | GreaterEqual
       | Int | LeftParen | Less | LessEqual | Minus | Or | Plus | RightParen | Slash | Star => true
    case _ => false
  }

  /** The header enum's operator and punctuation kinds (all but the five named kinds). */
  predicate IsHeaderOperator(k: TokenKind)
  {
    InHeaderEnum(k) && k !in {Bool, Eof, Error, Float, Int}
  }

  const InvalidToken := "invalid token"

  /** type_to_string: the spelling of a header kind; the fallback otherwise. */
  function TypeToString(k: TokenKind): (s: string)
    ensures s != InvalidToken <==> InHeaderEnum(k)
  {
    match k
    case And => "&&"
    case Bang => "!"
    case Bool => "bool"
    case Equal => "="
    case EqualEqual => "=="
    case Eof => "EOF"
    case Error => "error"
    case Float => "float"
    case Greater => ">"
    case GreaterEqual => ">="
    case Int => "int"
    case LeftParen => "("
    case Less => "<"
    case LessEqual => "<="
    case Minus => "-"
    case Or => "||"
    case Plus => "+"
    case RightParen => ")"
    case Slash => "/"
    case Star => "*"
    case _ => InvalidToken
  }

  /** Reference inverse of the spelling table: which header kind a string names. */
  function KindOfSpelling(s: string): Option<TokenKind>
  {
    if s == "&&" then Some(And)
    else if s == "!" then Some(Bang)
    else if s == "bool" then Some(Bool)
    else if s == "=" then Some(Equal)
    else if s == "==" then Some(EqualEqual)
    else if s == "EOF" then Some(Eof)
    else if s == "error" then Some(Error)
    else if s == "float" then Some(Float)
    else if s == ">" then Some(Greater)
    else if s == ">=" then Some(GreaterEqual)
    else if s == "int" then Some(Int)
    else if s == "(" then Some(LeftParen)
    else if s == "<" then Some(Less)
    else if s == "<=" then Some(LessEqual)
    else if s == "-" then Some(Minus)
    else if s == "||" then Some(Or)
    else if s == "+" then Some(Plus)
    else if s == ")" then Some(RightParen)
    else if s == "/" then Some(Slash)
    else if s == "*" then Some(Star)
    else None
  }

  /** The table is inverted by KindOfSpelling on the header kinds, and the
      fallback names no kind. */
  lemma {:induction false} SpellingInverse(k: TokenKind)
    ensures KindOfSpelling(TypeToString(k)) == if InHeaderEnum(k) then Some(k) else None
  {
    match k
    case And =>
    case Bang =>
    case Bool =>
    case Equal =>
    case EqualEqual =>
    case Eof =>
    case Error =>
    case Float =>
    case Greater =>
    case GreaterEqual =>
    case Int =>
    case LeftParen =>
    case Less =>
    case LessEqual =>
    case Minus =>
    case Or =>
    case Plus =>
    case RightParen =>
    case Slash =>
    case Star =>
    case _ =>
  }

  /** No two header kinds share a spelling. */
  lemma TypeToStringInjective(a: TokenKind, b: TokenKind)
    requires InHeaderEnum(a) && InHeaderEnum(b)
    requires TypeToString(a) == TypeToString(b)
    ensures a == b
  {
    SpellingInverse(a);
    SpellingInverse(b);
  }
}
