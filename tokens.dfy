/** Token kinds and tokens (types/token.ts) and the keyword table (lib/token/helper.ts). */
module Tokens {

  /** The members of the `TokenType` enumeration. */
  datatype TokenKind =
    | ILLEGAL | EOF
    | IDENT | INT | STRING
    | COMMA | SEMICOLON | LPAREN | RPAREN | LBRACKET | RBRACKET | LBRACE | RBRACE | COLON
    | FUNCTION | LET | TRUE | FALSE | IF | ELSE | RETURN
    | EQ | NOT_EQ | ASSIGN | PLUS | BANG | MINUS | SLASH | ASTERISK | LT | GT

  /** A token: its kind and the source text it stands for. */
  datatype Token = Token(kind: TokenKind, literal: string)

  /** The string value of each `TokenType` member; parse errors print it. */
  function KindName(k: TokenKind): string {
    match k
    case ILLEGAL => "ILLEGAL"
    case EOF => "EOF"
    case IDENT => "IDENT"
    case INT => "INT"
    case STRING => "\""
    case COMMA => ","
    case SEMICOLON => ";"
    case LPAREN => "("
    case RPAREN => ")"
    case LBRACKET => "["
    case RBRACKET => "]"
    case LBRACE => "{"
    case RBRACE => "}"
    case COLON => ":"
    case FUNCTION => "FUNCTION"
    case LET => "LET"
    case TRUE => "TRUE"
    case FALSE => "FALSE"
    case IF => "IF"
    case ELSE => "ELSE"
    case RETURN => "RETURN"
    case EQ => "=="
    case NOT_EQ => "!="
    case ASSIGN => "="
    case PLUS => "+"
    case BANG => "!"
    case MINUS => "-"
    case SLASH => "/"
    case ASTERISK => "*"
    case LT => "<"
    case GT => ">"
  }

  /** The keyword table of `lookUpToken`. */
  const KEYWORDS: map<string, TokenKind> :=
    map["let" := LET, "fn" := FUNCTION, "true" := TRUE, "false" := FALSE,
        "if" := IF, "else" := ELSE, "return" := RETURN]

  /** `lookUpToken`: a keyword's kind, otherwise IDENT. */
  function LookUpToken(word: string): (k: TokenKind)
    ensures k in {LET, FUNCTION, TRUE, FALSE, IF, ELSE, RETURN, IDENT}
  {
    if word in KEYWORDS then KEYWORDS[word] else IDENT
  }

  /** `isTokenType`. */
  predicate IsTokenType(t: Token, k: TokenKind) {
    t.kind == k
  }

  /** The seven keywords and the kinds they map to. */
  lemma KeywordKinds()
    ensures LookUpToken("let") == LET && LookUpToken("fn") == FUNCTION
    ensures LookUpToken("true") == TRUE && LookUpToken("false") == FALSE
    ensures LookUpToken("if") == IF && LookUpToken("else") == ELSE
    ensures LookUpToken("return") == RETURN
  {
  }

  /** Every other word is an identifier; the lookup is case-sensitive. */
  lemma IdentifierKind(word: string)
    ensures LookUpToken(word) == IDENT <==>
      word !in {"let", "fn", "true", "false", "if", "else", "return"}
    ensures LookUpToken("Let") == IDENT
  {
  }

  /** Distinct keywords get distinct kinds, and no keyword is an IDENT. */
  lemma KeywordsInjective(a: string, b: string)
    requires a in KEYWORDS && b in KEYWORDS && a != b
    ensures LookUpToken(a) != LookUpToken(b)
    ensures LookUpToken(a) != IDENT
  {
  }
}
