/** The lexer (lib/lexer/Lexer.ts). `Tokenize` is the specification: a left-to-right scan
    (`LexFrom`) that emits at most one token per step (`ScanAt`), followed by one EOF token.
    The class `Lexer` keeps the source's cursor fields and loops and is proved to produce
    exactly `Tokenize(input)`. */
module Lexing {
  import opened Wrappers
  import opened Tokens

  /** `isLetter`: a character whose lower case is one of `a`-`z` or `_`. These are the ASCII
      letters of either case, `_`, and the Kelvin sign U+212A, which lower-cases to `k`. */
  predicate IsLetter(c: char) {
    'a' <= c <= 'z' || 'A' <= c <= 'Z' || c == '_' || c == '\U{212A}'
  }

  /** `isDigit`. */
  predicate IsDigit(c: char) {
    '0' <= c <= '9'
  }

  /** Space, tab, newline and carriage return. */
  predicate IsWhitespace(c: char) {
    c == ' ' || c == '\t' || c == '\n' || c == '\r'
  }

  /** The fifteen characters that stand for a token by themselves. */
  function SingleCharKind(c: char): Option<TokenKind> {
    match c
    case ';' => Some(SEMICOLON)
    case '(' => Some(LPAREN)
    case ')' => Some(RPAREN)
    case ',' => Some(COMMA)
    case '+' => Some(PLUS)
    case '{' => Some(LBRACE)
    case '}' => Some(RBRACE)
    case '-' => Some(MINUS)
    case '/' => Some(SLASH)
    case '*' => Some(ASTERISK)
    case '[' => Some(LBRACKET)
    case ']' => Some(RBRACKET)
    case '<' => Some(LT)
    case '>' => Some(GT)
    case ':' => Some(COLON)
    case _ => None
  }

  /** A character that starts no token of its own kind: it lexes as ILLEGAL. */
  predicate IsIllegal(c: char) {
    !IsWhitespace(c) && SingleCharKind(c).None? && c != '=' && c != '!' && c != '"'
    && !IsLetter(c) && !IsDigit(c)
  }

  /** End of the maximal run of letters starting at `pos` (the `readIdentifier` scan). */
  function LetterRunEnd(input: string, pos: nat): (e: nat)
    requires pos <= |input|
    ensures pos <= e <= |input|
    ensures forall i | pos <= i < e :: IsLetter(input[i])
    ensures e < |input| ==> !IsLetter(input[e])
    decreases |input| - pos
  {
    if pos < |input| && IsLetter(input[pos]) then LetterRunEnd(input, pos + 1) else pos
  }

  /** End of the maximal run of digits starting at `pos` (the `readDigit` scan). */
  function DigitRunEnd(input: string, pos: nat): (e: nat)
    requires pos <= |input|
    ensures pos <= e <= |input|
    ensures forall i | pos <= i < e :: IsDigit(input[i])
    ensures e < |input| ==> !IsDigit(input[e])
    decreases |input| - pos
  {
    if pos < |input| && IsDigit(input[pos]) then DigitRunEnd(input, pos + 1) else pos
  }

  /** Index of the first `"` at or after `pos`, or the end of input (the `readString` scan). */
  function StringEnd(input: string, pos: nat): (e: nat)
    requires pos <= |input|
    ensures pos <= e <= |input|
    ensures forall i | pos <= i < e :: input[i] != '"'
    ensures e < |input| ==> input[e] == '"'
    decreases |input| - pos
  {
    if pos < |input| && input[pos] != '"' then StringEnd(input, pos + 1) else pos
  }

  /** What one step of the lexer emits and where the next step starts. */
  datatype Scan = Scan(emitted: seq<Token>, next: nat)

  /** One `nextToken` step on the character at `pos`, including the `readChar` that ends it. */
  function ScanAt(input: string, pos: nat): (s: Scan)
    requires pos < |input|
    ensures pos < s.next <= |input| + 1
    ensures |s.emitted| <= 1
    ensures forall i | 0 <= i < |s.emitted| :: s.emitted[i].kind != EOF
  {
    var c := input[pos];
    if IsWhitespace(c) then Scan([], pos + 1)
    else if SingleCharKind(c).Some? then Scan([Token(SingleCharKind(c).value, [c])], pos + 1)
    else if c == '=' || c == '!' then
      if pos + 1 < |input| && input[pos + 1] == '=' then
        Scan([Token(if c == '=' then EQ else NOT_EQ, [c, '='])], pos + 2)
      else
        Scan([Token(if c == '=' then ASSIGN else BANG, [c])], pos + 1)
    else if c == '"' then
      var e := StringEnd(input, pos + 1);
      Scan([Token(STRING, input[pos + 1..e])], e + 1)
    else if IsLetter(c) then
      var e := LetterRunEnd(input, pos);
      Scan([Token(LookUpToken(input[pos..e]), input[pos..e])], e)
    else if IsDigit(c) then
      var e := DigitRunEnd(input, pos);
      Scan([Token(INT, input[pos..e])], e)
    else Scan([Token(ILLEGAL, "ILLEGAL")], pos + 1)
  }

  /** The tokens emitted from `pos` to the end of input. */
  function LexFrom(input: string, pos: nat): seq<Token>
    decreases |input| - pos
  {
    if pos >= |input| then []
    else
      var s := ScanAt(input, pos);
      s.emitted + LexFrom(input, s.next)
  }

  /** One step of `LexFrom` after the tokens `acc` already collected. */
  lemma LexFromStep(input: string, pos: nat, acc: seq<Token>)
    requires pos < |input|
    ensures acc + LexFrom(input, pos) == (acc + ScanAt(input, pos).emitted) + LexFrom(input, ScanAt(input, pos).next)
  {
    var s := ScanAt(input, pos);
    assert LexFrom(input, pos) == s.emitted + LexFrom(input, s.next);
  }

  /** The token list of `new Lexer(input).tokens`. */
  function Tokenize(input: string): seq<Token> {
    LexFrom(input, 0) + [Token(EOF, "")]
  }

  /** The scanned tokens never include EOF. */
  lemma {:induction false} LexFromHasNoEof(input: string, pos: nat)
    ensures forall i | 0 <= i < |LexFrom(input, pos)| :: LexFrom(input, pos)[i].kind != EOF
    decreases |input| - pos
  {
    if pos < |input| {
      LexFromHasNoEof(input, ScanAt(input, pos).next);
    }
  }

  /** The token list is never empty, ends with exactly one EOF token whose literal is empty,
      and no other token is an EOF. */
  lemma TokenizeEndsWithEof(input: string)
    ensures |Tokenize(input)| >= 1
    ensures Tokenize(input)[|Tokenize(input)| - 1] == Token(EOF, "")
    ensures forall i | 0 <= i < |Tokenize(input)| - 1 :: Tokenize(input)[i].kind != EOF
  {
    LexFromHasNoEof(input, 0);
  }

  // Scanning only looks forward, so the tokens of `p + s` from inside `s` are those of `s`.

  lemma {:induction false} LetterRunEndShift(p: string, s: string, k: nat)
    requires k <= |s|
    ensures LetterRunEnd(p + s, |p| + k) == |p| + LetterRunEnd(s, k)
    decreases |s| - k
  {
    if k < |s| {
      assert (p + s)[|p| + k] == s[k];
      LetterRunEndShift(p, s, k + 1);
    }
  }

  lemma {:induction false} DigitRunEndShift(p: string, s: string, k: nat)
    requires k <= |s|
    ensures DigitRunEnd(p + s, |p| + k) == |p| + DigitRunEnd(s, k)
    decreases |s| - k
  {
    if k < |s| {
      assert (p + s)[|p| + k] == s[k];
      DigitRunEndShift(p, s, k + 1);
    }
  }

  lemma {:induction false} StringEndShift(p: string, s: string, k: nat)
    requires k <= |s|
    ensures StringEnd(p + s, |p| + k) == |p| + StringEnd(s, k)
    decreases |s| - k
  {
    if k < |s| {
      assert (p + s)[|p| + k] == s[k];
      StringEndShift(p, s, k + 1);
    }
  }

  lemma ScanAtShift(p: string, s: string, k: nat)
    requires k < |s|
    ensures ScanAt(p + s, |p| + k) == Scan(ScanAt(s, k).emitted, |p| + ScanAt(s, k).next)
  {
    var ps := p + s;
    var c := s[k];
    assert ps[|p| + k] == c;
    if c == '"' {
      StringScanShift(p, s, k);
    } else if IsLetter(c) {
      WordScanShift(p, s, k);
    } else if IsDigit(c) {
      NumberScanShift(p, s, k);
    } else if c == '=' || c == '!' {
      assert |p| + k + 1 < |ps| ==> ps[|p| + k + 1] == s[k + 1];
    }
  }

  lemma StringScanShift(p: string, s: string, k: nat)
    requires k < |s| && s[k] == '"'
    ensures ScanAt(p + s, |p| + k) == Scan(ScanAt(s, k).emitted, |p| + ScanAt(s, k).next)
  {
    var ps := p + s;
    assert ps[|p| + k] == s[k];
    StringEndShift(p, s, k + 1);
    var e := StringEnd(s, k + 1);
    assert ps[|p| + k + 1..|p| + e] == s[k + 1..e];
  }

  lemma WordScanShift(p: string, s: string, k: nat)
    requires k < |s| && IsLetter(s[k])
    ensures ScanAt(p + s, |p| + k) == Scan(ScanAt(s, k).emitted, |p| + ScanAt(s, k).next)
  {
    var ps := p + s;
    assert ps[|p| + k] == s[k];
    LetterRunEndShift(p, s, k);
    var e := LetterRunEnd(s, k);
    assert ps[|p| + k..|p| + e] == s[k..e];
  }

  lemma NumberScanShift(p: string, s: string, k: nat)
    requires k < |s| && IsDigit(s[k])
    ensures ScanAt(p + s, |p| + k) == Scan(ScanAt(s, k).emitted, |p| + ScanAt(s, k).next)
  {
    var ps := p + s;
    assert ps[|p| + k] == s[k];
    DigitRunEndShift(p, s, k);
    var e := DigitRunEnd(s, k);
    assert ps[|p| + k..|p| + e] == s[k..e];
  }

  lemma {:induction false} LexFromShift(p: string, s: string, k: nat)
    ensures LexFrom(p + s, |p| + k) == LexFrom(s, k)
    decreases |s| - k
  {
    if k < |s| {
      ScanAtShift(p, s, k);
      LexFromShift(p, s, ScanAt(s, k).next);
    }
  }

  /** Lexing `p + s` emits `p`'s first token and then lexes `s`, when the first step on `p` ends
      exactly where `s` begins. */
  lemma StepThenRest(p: string, s: string)
    requires |p| > 0 && ScanAt(p + s, 0).next == |p|
    ensures Tokenize(p + s) == ScanAt(p + s, 0).emitted + Tokenize(s)
  {
    LexFromShift(p, s, 0);
    assert |p| + 0 == |p|;
  }

  /** Whitespace produces no token. */
  lemma WhitespaceIsSkipped(c: char, rest: string)
    requires IsWhitespace(c)
    ensures Tokenize([c] + rest) == Tokenize(rest)
  {
    StepThenRest([c], rest);
  }

  /** A run of whitespace before the rest adds no tokens. */
  lemma {:induction false} WhitespaceRunIsSkipped(ws: string, rest: string)
    requires forall i | 0 <= i < |ws| :: IsWhitespace(ws[i])
    ensures Tokenize(ws + rest) == Tokenize(rest)
    decreases |ws|
  {
    if ws == [] {
      assert ws + rest == rest;
    } else {
      assert ws + rest == [ws[0]] + (ws[1..] + rest);
      WhitespaceIsSkipped(ws[0], ws[1..] + rest);
      WhitespaceRunIsSkipped(ws[1..], rest);
    }
  }

  /** A maximal run of letters is one token whose kind comes from the keyword table. */
  lemma WordIsOneToken(w: string, rest: string)
    requires |w| > 0 && forall i | 0 <= i < |w| :: IsLetter(w[i])
    requires rest == [] || !IsLetter(rest[0])
    ensures Tokenize(w + rest) == [Token(LookUpToken(w), w)] + Tokenize(rest)
  {
    var input := w + rest;
    LetterRunOver(w, rest, 0);
    assert input[0..|w|] == w;
    StepThenRest(w, rest);
  }

  lemma {:induction false} LetterRunOver(w: string, rest: string, k: nat)
    requires k <= |w| && forall i | 0 <= i < |w| :: IsLetter(w[i])
    requires rest == [] || !IsLetter(rest[0])
    ensures LetterRunEnd(w + rest, k) == |w|
    decreases |w| - k
  {
    if k < |w| {
      LetterRunOver(w, rest, k + 1);
    } else if rest != [] {
      assert (w + rest)[k] == rest[0];
    }
  }

  lemma {:induction false} DigitRunOver(d: string, rest: string, k: nat)
    requires k <= |d| && forall i | 0 <= i < |d| :: IsDigit(d[i])
    requires rest == [] || !IsDigit(rest[0])
    ensures DigitRunEnd(d + rest, k) == |d|
    decreases |d| - k
  {
    if k < |d| {
      DigitRunOver(d, rest, k + 1);
    } else if rest != [] {
      assert (d + rest)[k] == rest[0];
    }
  }

  /** A maximal run of digits is one INT token whose literal is the digit text unchanged. */
  lemma NumberIsOneToken(d: string, rest: string)
    requires |d| > 0 && forall i | 0 <= i < |d| :: IsDigit(d[i])
    requires rest == [] || !IsDigit(rest[0])
    ensures Tokenize(d + rest) == [Token(INT, d)] + Tokenize(rest)
  {
    var input := d + rest;
    DigitRunOver(d, rest, 0);
    assert input[0..|d|] == d;
    StepThenRest(d, rest);
  }

  /** A character of the single-character table is one token of its kind. */
  lemma PunctuationIsOneToken(c: char, rest: string)
    requires SingleCharKind(c).Some?
    ensures Tokenize([c] + rest) == [Token(SingleCharKind(c).value, [c])] + Tokenize(rest)
  {
    StepThenRest([c], rest);
  }

  /** `==` and `!=` are one two-character token. */
  lemma EqualsPairIsOneToken(c: char, rest: string)
    requires c == '=' || c == '!'
    ensures Tokenize([c, '='] + rest)
      == [Token(if c == '=' then EQ else NOT_EQ, [c, '='])] + Tokenize(rest)
  {
    StepThenRest([c, '='], rest);
  }

  /** `=` or `!` not followed by `=` is ASSIGN or BANG with a one-character literal. */
  lemma LoneEqualsIsOneToken(c: char, rest: string)
    requires c == '=' || c == '!'
    requires rest == [] || rest[0] != '='
    ensures Tokenize([c] + rest) == [Token(if c == '=' then ASSIGN else BANG, [c])] + Tokenize(rest)
  {
    assert rest != [] ==> ([c] + rest)[1] == rest[0];
    StepThenRest([c], rest);
  }

  /** A terminated string literal is one STRING token holding the text between the quotes. */
  lemma StringIsOneToken(body: string, rest: string)
    requires forall i | 0 <= i < |body| :: body[i] != '"'
    ensures Tokenize(['"'] + body + ['"'] + rest) == [Token(STRING, body)] + Tokenize(rest)
  {
    var p := ['"'] + body + ['"'];
    var input := p + rest;
    assert input == ['"'] + body + ['"'] + rest;
    StringRunOver(body, ['"'] + rest, 0);
    assert input == ['"'] + (body + (['"'] + rest));
    StringEndShift(['"'], body + (['"'] + rest), 0);
    assert input[1..1 + |body|] == body;
    StepThenRest(p, rest);
  }

  lemma {:induction false} StringRunOver(body: string, rest: string, k: nat)
    requires k <= |body| && forall i | 0 <= i < |body| :: body[i] != '"'
    requires rest != [] && rest[0] == '"'
    ensures StringEnd(body + rest, k) == |body|
    decreases |body| - k
  {
    if k < |body| {
      StringRunOver(body, rest, k + 1);
    } else {
      assert (body + rest)[k] == rest[0];
    }
  }

  lemma {:induction false} StringRunToEnd(body: string, k: nat)
    requires k <= |body| && forall i | 0 <= i < |body| :: body[i] != '"'
    ensures StringEnd(body, k) == |body|
    decreases |body| - k
  {
    if k < |body| {
      StringRunToEnd(body, k + 1);
    }
  }

  /** An unterminated string literal runs to the end of input. */
  lemma UnterminatedStringRunsToEnd(body: string)
    requires forall i | 0 <= i < |body| :: body[i] != '"'
    ensures Tokenize(['"'] + body) == [Token(STRING, body), Token(EOF, "")]
  {
    var input := ['"'] + body;
    StringRunToEnd(body, 0);
    StringEndShift(['"'], body, 0);
    assert input[1..|input|] == body;
    assert ScanAt(input, 0) == Scan([Token(STRING, body)], |input| + 1);
    assert LexFrom(input, |input| + 1) == [];
    assert LexFrom(input, 0) == [Token(STRING, body)];
  }

  /** Any other character is an ILLEGAL token, and lexing continues after it. */
  lemma IllegalIsOneToken(c: char, rest: string)
    requires IsIllegal(c)
    ensures Tokenize([c] + rest) == [Token(ILLEGAL, "ILLEGAL")] + Tokenize(rest)
  {
    StepThenRest([c], rest);
  }

  /** `input[i]`, which JavaScript reads as `undefined` past the end. */
  function CharAt(input: string, i: nat): Option<char> {
    if i < |input| then Some(input[i]) else None
  }

  class Lexer {
    const input: string
    var tokens: seq<Token>
    var position: nat
    var readPosition: nat
    var ch: Option<char>

    /** The constructor runs `start`, so a new lexer already holds the whole token list. */
    constructor (input: string)
      ensures this.input == input
      ensures tokens == Tokenize(input)
    {
      this.input := input;
      tokens := [];
      position := 0;
      readPosition := 0;
      ch := None;
      new;
      Start();
    }

    method Start()
      requires tokens == [] && readPosition == 0
      modifies this
      ensures tokens == Tokenize(input)
    {
      ReadChar();
      while readPosition <= |input|
        invariant readPosition == position + 1 <= |input| + 2
        invariant ch == CharAt(input, position)
        invariant tokens + LexFrom(input, position) == LexFrom(input, 0)
        decreases |input| + 2 - readPosition
      {
        LexFromStep(input, position, tokens);
        NextToken();
      }
      assert LexFrom(input, position) == [];
      tokens := tokens + [Token(EOF, "")];
    }

    method ReadChar()
      modifies this`ch, this`position, this`readPosition
      ensures ch == CharAt(input, old(readPosition))
      ensures position == old(readPosition) && readPosition == old(readPosition) + 1
    {
      ch := CharAt(input, readPosition);
      position := readPosition;
      readPosition := readPosition + 1;
    }

    /** `peekChar`: the character after the current one, or the empty string at the end. */
    function PeekChar(): (r: string)
      reads this
    {
      if readPosition >= |input| then "" else [input[readPosition]]
    }

    method ReadIdentifier() returns (tok: Token)
      requires position < |input|
      modifies this`readPosition
      ensures readPosition == LetterRunEnd(input, position)
      ensures tok == Token(LookUpToken(input[position..readPosition]), input[position..readPosition])
    {
      var pos := position;
      while pos < |input| && IsLetter(input[pos])
        invariant position <= pos <= |input|
        invariant LetterRunEnd(input, pos) == LetterRunEnd(input, position)
        decreases |input| - pos
      {
        pos := pos + 1;
      }
      readPosition := pos;
      tok := Token(LookUpToken(input[position..pos]), input[position..pos]);
    }

    method ReadDigit() returns (tok: Token)
      requires position < |input|
      modifies this`readPosition
      ensures readPosition == DigitRunEnd(input, position)
      ensures tok == Token(INT, input[position..readPosition])
    {
      var pos := position;
      while pos < |input| && IsDigit(input[pos])
        invariant position <= pos <= |input|
        invariant DigitRunEnd(input, pos) == DigitRunEnd(input, position)
        decreases |input| - pos
      {
        pos := pos + 1;
      }
      readPosition := pos;
      tok := Token(INT, input[position..pos]);
    }

    method ReadString() returns (lit: string)
      requires readPosition == position + 1 <= |input|
      modifies this`readPosition
      ensures readPosition == StringEnd(input, position + 1) + 1
      ensures lit == input[position + 1..StringEnd(input, position + 1)]
    {
      var pos := readPosition;
      while pos < |input| && input[pos] != '"'
        invariant position + 1 <= pos <= |input|
        invariant StringEnd(input, pos) == StringEnd(input, position + 1)
        decreases |input| - pos
      {
        pos := pos + 1;
      }
      readPosition := pos + 1;
      lit := input[position + 1..pos];
    }

    method ReadEqual()
      requires readPosition == position + 1 && position < |input|
      requires ch == Some(input[position]) && (input[position] == '=' || input[position] == '!')
      modifies this
      ensures var c := input[old(position)];
        var paired := old(position) + 1 < |input| && input[old(position) + 1] == '=';
        && tokens == old(tokens) + [
          if paired then Token(if c == '=' then EQ else NOT_EQ, [c, '='])
          else Token(if c == '=' then ASSIGN else BANG, [c])]
        && position == (if paired then old(position) + 1 else old(position))
        && readPosition == position + 1
        && ch == CharAt(input, position)
    {
      var c := ch.value;
      var peekedEqualSign := PeekChar() == "=";
      tokens := tokens + [
        if peekedEqualSign then Token(if c == '=' then EQ else NOT_EQ, [c, '='])
        else Token(if c == '=' then ASSIGN else BANG, [c])];
      if peekedEqualSign {
        ReadChar();
      }
    }

    method NextToken()
      requires readPosition == position + 1 && position < |input|
      requires ch == CharAt(input, position)
      modifies this
      ensures tokens == old(tokens) + ScanAt(input, old(position)).emitted
      ensures position == ScanAt(input, old(position)).next
      ensures readPosition == position + 1
      ensures ch == CharAt(input, position)
    {
      var c := ch.value;
      if IsWhitespace(c) {
      } else if SingleCharKind(c).Some? {
        tokens := tokens + [Token(SingleCharKind(c).value, [c])];
      } else if c == '=' || c == '!' {
        ReadEqual();
      } else if c == '"' {
        var lit := ReadString();
        tokens := tokens + [Token(STRING, lit)];
      } else if IsLetter(c) {
        var tok := ReadIdentifier();
        tokens := tokens + [tok];
      } else if IsDigit(c) {
        var tok := ReadDigit();
        tokens := tokens + [tok];
      } else {
        tokens := tokens + [Token(ILLEGAL, "ILLEGAL")];
      }
      ReadChar();
    }
  }
}
