/** Tokens, errors and the character classes of the arithmetic interpreter.

    A token has a kind and a value: the integer for INTEGER tokens, the
    one-character text for operator and parenthesis tokens (the source annotates
    the value as an optional integer but stores strings there), nothing for EOF.
 */
module Tokens {

  datatype Option<T> = None | Some(value: T)

  /** The eight token types. */
  datatype Kind = Integer | Plus | Minus | Mul | Div | LParen | RParen | Eof

  datatype TokenValue = IntValue(n: int) | StrValue(s: string) | NoValue

  datatype Token = Token(kind: Kind, value: TokenValue)

  const EofToken := Token(Eof, NoValue)

  /** Why a SyntaxError was raised: the lexer met a character that starts no
      token, `eat` met the wrong token, `factor` met a token that starts no
      factor, or `parse` found tokens after a complete expression. */
  datatype Syntax =
    | InvalidCharacter(ch: char)
    | Expected(want: Kind, got: Kind)
    | InvalidFactor
    | TrailingInput

  /** The two exception types the core raises. */
  datatype Error = SyntaxError(reason: Syntax) | ZeroDivisionError

  /** A value or the exception that replaced it. */
  datatype Result<T> = Ok(value: T) | Err(error: Error)

  /** The outcome of a step that returns nothing but may raise. */
  datatype Outcome = Pass | Fail(error: Error)

  /** ASCII characters for which Python's `str.isspace` holds. */
  predicate IsSpace(c: char) {
    c == ' ' || ('\t' <= c <= '\r') || ('\U{1C}' <= c <= '\U{1F}')
  }

  /** ASCII decimal digits. */
  predicate IsDigit(c: char) {
    '0' <= c <= '9'
  }

  predicate IsOperatorChar(c: char) {
    c == '+' || c == '-' || c == '*' || c == '/' || c == '(' || c == ')'
  }

  /** A character that can appear in a well-formed input: whitespace or the
      start of a token. */
  predicate IsLegal(c: char) {
    IsSpace(c) || IsDigit(c) || IsOperatorChar(c)
  }

  predicate IsOperatorKind(k: Kind) {
    k == Plus || k == Minus || k == Mul || k == Div || k == LParen || k == RParen
  }

  /** The character an operator or parenthesis token is written with. */
  function Symbol(k: Kind): (c: char)
    requires IsOperatorKind(k)
    ensures IsOperatorChar(c)
  {
    match k
    case Plus => '+'
    case Minus => '-'
    case Mul => '*'
    case Div => '/'
    case LParen => '('
    case RParen => ')'
  }

  /** The token kind an operator character stands for. */
  function CharKind(c: char): (k: Kind)
    requires IsOperatorChar(c)
    ensures IsOperatorKind(k) && Symbol(k) == c
  {
    if c == '+' then Plus
    else if c == '-' then Minus
    else if c == '*' then Mul
    else if c == '/' then Div
    else if c == '(' then LParen
    else RParen
  }

  /** The token for an operator or parenthesis kind, carrying its text. */
  function OperatorToken(k: Kind): Token
    requires IsOperatorKind(k)
  {
    Token(k, StrValue([Symbol(k)]))
  }

  function IntegerToken(n: nat): Token {
    Token(Integer, IntValue(n))
  }

  /** The shape of every token the lexer can produce. */
  predicate ValidToken(t: Token) {
    match t.kind
    case Integer => t.value.IntValue? && t.value.n >= 0
    case Eof => t.value == NoValue
    case _ => t == OperatorToken(t.kind)
  }

  /** The tokens a lexer yields on demand: those before the first lexical
      error and, if there is one, that error. After the last token the lexer
      yields EOF forever (`stop == None`) or raises `stop.value`. */
  datatype Stream = Stream(tokens: seq<Token>, stop: Option<Error>)

  /** Tokens as the lexer makes them: well-formed, none of them EOF. */
  predicate ValidTokens(ts: seq<Token>) {
    forall i :: 0 <= i < |ts| ==> ValidToken(ts[i]) && ts[i].kind != Eof
  }

  predicate ValidStream(s: Stream) {
    ValidTokens(s.tokens)
  }

  /** The tokens `ts` followed by the stream `s`. */
  function Prepend(ts: seq<Token>, s: Stream): Stream {
    Stream(ts + s.tokens, s.stop)
  }
}
