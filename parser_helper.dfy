/** The precedence table (lib/parser/helper.ts) and the parse-error formatter (lib/parser/error.ts). */
module ParserHelper {
  import opened Wrappers
  import opened Tokens
  import opened ErrorTypes

  /** The binding powers of types/ast.ts, in declaration order. */
  const LOWEST := 0
  const EQUALS := 1
  const LESSGREATER := 2
  const GREATER := 3
  const SUM := 4
  const PRODUCT := 5
  const PREFIX := 6
  const CALL := 7
  const INDEX := 8

  /** `precedences`: a table lookup that falls back to LOWEST. */
  function Precedence(k: TokenKind): (p: nat)
    ensures LOWEST <= p <= INDEX && p != GREATER && p != PREFIX
    ensures p != LOWEST <==> k in {EQ, NOT_EQ, LT, GT, PLUS, MINUS, SLASH, ASTERISK, LPAREN, LBRACKET}
  {
    match k
    case EQ => EQUALS
    case NOT_EQ => EQUALS
    case LT => LESSGREATER
    case GT => LESSGREATER
    case PLUS => SUM
    case MINUS => SUM
    case SLASH => PRODUCT
    case ASTERISK => PRODUCT
    case LPAREN => CALL
    case LBRACKET => INDEX
    case _ => LOWEST
  }

  /** The operators in the table and their levels; every other kind binds at LOWEST. */
  lemma PrecedenceTable(k: TokenKind)
    ensures k in {EQ, NOT_EQ} <==> Precedence(k) == EQUALS
    ensures k in {LT, GT} <==> Precedence(k) == LESSGREATER
    ensures k in {PLUS, MINUS} <==> Precedence(k) == SUM
    ensures k in {SLASH, ASTERISK} <==> Precedence(k) == PRODUCT
    ensures k == LPAREN <==> Precedence(k) == CALL
    ensures k == LBRACKET <==> Precedence(k) == INDEX
    ensures k !in {EQ, NOT_EQ, LT, GT, PLUS, MINUS, SLASH, ASTERISK, LPAREN, LBRACKET}
            <==> Precedence(k) == LOWEST
  {
  }

  /** The levels are strictly ordered. */
  lemma LevelsOrdered()
    ensures LOWEST < EQUALS < LESSGREATER < GREATER < SUM < PRODUCT < PREFIX < CALL < INDEX
  {
  }

  /** `setError`; `undefined` when the `debug` kind carries no message. */
  function SetError(err: ErrorType): (r: Option<string>)
    ensures err.kind != DebugError ==> r.Some?
    ensures err.kind == DebugError ==> r == err.msg
    ensures err.kind == ParseError ==>
      r == Some("no prefix parse function for \"" + Interpolate(err.got) + "\" found")
    ensures err.kind !in {ParseError, DebugError} ==>
      r == Some("expected next token to be \"" + Interpolate(err.expected) + "\" got \""
                + Interpolate(err.got) + "\" instead")
  {
    match err.kind
    case ParseError => Some("no prefix parse function for \"" + Interpolate(err.got) + "\" found")
    case DebugError => err.msg
    case _ => Some("expected next token to be \"" + Interpolate(err.expected) + "\" got \""
                   + Interpolate(err.got) + "\" instead")
  }

  /** What the parser hands to `setError`: `expectPeek` reports the kind it wanted and the peek
      token it got; `parseExpression` reports a current token with no prefix rule. */
  datatype ParseIssue = ExpectedToken(expected: TokenKind, got: Token) | NoPrefixParseFn(got: Token)

  /** The `ErrorType` object built for an issue. */
  function Descriptor(i: ParseIssue): (err: ErrorType)
    ensures err.msg == None && err.got == Some(i.got.literal)
    ensures i.ExpectedToken? <==> err.kind == ExpectedError
    ensures i.NoPrefixParseFn? <==> err.kind == ParseError
    ensures i.ExpectedToken? ==> err.expected == Some(KindName(i.expected))
    ensures i.NoPrefixParseFn? ==> err.expected == None
  {
    match i
    case ExpectedToken(t, got) => ErrorType(ExpectedError, None, Some(got.literal), Some(KindName(t)))
    case NoPrefixParseFn(got) => ErrorType(ParseError, None, Some(got.literal), None)
  }

  /** The string `setError` returns for an issue; the parser never builds a `debug` error, so
      there always is one. */
  function Message(i: ParseIssue): (m: string)
    ensures Some(m) == SetError(Descriptor(i))
  {
    SetError(Descriptor(i)).value
  }

  /** The `errors` list the parser exposes: one message per issue, in order. */
  function Messages(issues: seq<ParseIssue>): (ms: seq<string>)
    ensures |ms| == |issues|
    ensures forall k | 0 <= k < |issues| :: ms[k] == Message(issues[k])
  {
    seq(|issues|, k requires 0 <= k < |issues| => Message(issues[k]))
  }

  /** The two messages in full: the token's literal is quoted, and the expected kind is written
      as its token text. */
  lemma MessageTexts(t: TokenKind, got: Token)
    ensures Message(ExpectedToken(t, got))
         == "expected next token to be \"" + KindName(t) + "\" got \"" + got.literal + "\" instead"
    ensures Message(NoPrefixParseFn(got)) == "no prefix parse function for \"" + got.literal + "\" found"
  {
  }

  /** The message the parser test expects for `let x x 5;`. */
  lemma LetWithoutAssignMessage()
    ensures Message(ExpectedToken(ASSIGN, Token(IDENT, "x"))) == "expected next token to be \"=\" got \"x\" instead"
  {
  }
}
