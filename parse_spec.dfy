/** The Pratt parser of lib/parser/Parser.ts as functions over the token list. The parser's
    mutable cursor becomes a `PState`: `cur` is the index of `curToken` (the class's `position`
    minus one) and `errors` is `_errors` before `setError` formats each entry. Each function returns what the rule returns and the
    state the rule leaves behind; the class `Parsing.Parser` is proved to follow them step by
    step. */
module ParseSpec {
  import opened Wrappers
  import opened Tokens
  import opened ParserHelper
  import opened Ast

  /** `tokens[i]`; the lexer ends every list with EOF, and an index past the end reads as EOF.
      (The source reads `undefined` there and crashes on the next kind test.) */
  function At(t: seq<Token>, i: nat): (tok: Token)
    ensures tok.kind != EOF ==> i < |t|
  {
    if i < |t| then t[i] else Token(EOF, "")
  }

  datatype PState = PState(cur: nat, errors: seq<ParseIssue>)

  /** `nextToken`. */
  function Next(st: PState): PState {
    PState(st.cur + 1, st.errors)
  }

  /** The cursor never moves back and the error list never shrinks. */
  predicate Advances(st: PState, st': PState) {
    st.cur <= st'.cur && |st.errors| <= |st'.errors|
  }

  /** Tokens left from the cursor on; every rule that moves the cursor shrinks it. */
  function Rem(t: seq<Token>, cur: nat): nat {
    if cur < |t| then |t| - cur else 0
  }

  /** Kinds with an entry in `prefixParseFns`. */
  predicate HasPrefixRule(k: TokenKind) {
    k in {IDENT, INT, BANG, MINUS, TRUE, FALSE, LPAREN, IF, FUNCTION, STRING, LBRACKET, LBRACE}
  }

  /** Kinds with an entry in `infixParseFns`. */
  predicate HasInfixRule(k: TokenKind) {
    k in {PLUS, MINUS, SLASH, ASTERISK, EQ, NOT_EQ, LT, GT, LPAREN, LBRACKET}
  }

  /** Exactly the kinds that bind above LOWEST have an infix rule, so the Pratt loop's
      "no infix rule" exit is never taken. */
  lemma InfixRulesMatchPrecedences(k: TokenKind)
    ensures HasInfixRule(k) <==> Precedence(k) > LOWEST
  {
  }

  // ---- Results of the rules. ----

  datatype Expect = Expect(ok: bool, st: PState)
  datatype ExprResult = ExprResult(e: Expression, st: PState)
  datatype StmtResult = StmtResult(s: Option<Statement>, st: PState)
  datatype BlockResult = BlockResult(b: Block, st: PState)
  datatype ListResult = ListResult(l: ExpressionList, st: PState)
  datatype ParamsResult = ParamsResult(params: Option<seq<Token>>, st: PState)
  datatype PairsResult = PairsResult(pairs: Option<seq<(Expression, Expression)>>, st: PState)
  datatype ProgramResult = ProgramResult(statements: seq<Statement>, st: PState)

  /** `expectPeek(k)`: on a match it advances exactly one token; otherwise it stays put and
      appends exactly one "expected next token" message. */
  function ExpectPeek(t: seq<Token>, st: PState, k: TokenKind): (r: Expect)
    ensures r.ok <==> At(t, st.cur + 1).kind == k
    ensures r.ok ==> r.st == PState(st.cur + 1, st.errors)
    ensures !r.ok ==> r.st == PState(st.cur, st.errors + [ExpectedToken(k, At(t, st.cur + 1))])
  {
    if At(t, st.cur + 1).kind == k then Expect(true, Next(st))
    else Expect(false, PState(st.cur, st.errors + [ExpectedToken(k, At(t, st.cur + 1))]))
  }

  /** Skips an optional `;` after a statement. */
  function SkipSemicolon(t: seq<Token>, st: PState): (st': PState)
    ensures st'.errors == st.errors
    ensures st'.cur == (if At(t, st.cur + 1).kind == SEMICOLON then st.cur + 1 else st.cur)
  {
    if At(t, st.cur + 1).kind == SEMICOLON then Next(st) else st
  }

  // ---- Statements. ----

  /** `parse`: statements in source order, `null` results dropped, errors never stop it. */
  function ParseProgram(t: seq<Token>): (r: ProgramResult)
  {
    ProgramLoop(t, PState(0, []), [])
  }

  /** The `while` loop of `parse`, from the current token on, after `acc` was collected. */
  function ProgramLoop(t: seq<Token>, st: PState, acc: seq<Statement>): (r: ProgramResult)
    ensures Advances(st, r.st)
    ensures At(t, r.st.cur).kind == EOF
    decreases Rem(t, st.cur), 9
  {
    if At(t, st.cur).kind == EOF then ProgramResult(acc, st)
    else
      var s := ParseStatement(t, st);
      ProgramLoop(t, Next(s.st), if s.s.Some? then acc + [s.s.value] else acc)
  }

  lemma ProgramLoopStep(t: seq<Token>, st: PState, acc: seq<Statement>)
    requires At(t, st.cur).kind != EOF
    ensures var s := ParseStatement(t, st);
      ProgramLoop(t, st, acc) == ProgramLoop(t, Next(s.st), if s.s.Some? then acc + [s.s.value] else acc)
  {
  }

  /** `parseStatement`: the first token decides the kind of statement; only a `let` can fail,
      and then with exactly one error. */
  function ParseStatement(t: seq<Token>, st: PState): (r: StmtResult)
    ensures Advances(st, r.st)
    ensures r.s.Some? ==> r.s.value.token == At(t, st.cur)
    ensures r.s.Some? ==> (r.s.value.Let? <==> At(t, st.cur).kind == LET)
    ensures r.s.Some? ==> (r.s.value.Return? <==> At(t, st.cur).kind == RETURN)
    ensures r.s.None? ==> At(t, st.cur).kind == LET && |r.st.errors| == |st.errors| + 1
    decreases Rem(t, st.cur), 8
  {
    var k := At(t, st.cur).kind;
    if k == LET then ParseLetStatement(t, st)
    else if k == RETURN then ParseReturnStatement(t, st)
    else ParseExpressionStatement(t, st)
  }

  /** `parseLetStatement`: `let` IDENT `=` expression, with an optional `;`. */
  function ParseLetStatement(t: seq<Token>, st: PState): (r: StmtResult)
    requires At(t, st.cur).kind == LET
    ensures Advances(st, r.st)
    ensures r.s.Some? ==> r.s.value.Let? && r.s.value.token == At(t, st.cur)
                          && r.s.value.name == At(t, st.cur + 1) && r.s.value.name.kind == IDENT
    ensures r.s.Some? <==> At(t, st.cur + 1).kind == IDENT && At(t, st.cur + 2).kind == ASSIGN
    ensures r.s.Some? ==> r.s.value.value == ParseExpression(t, PState(st.cur + 3, st.errors), LOWEST).e
    ensures At(t, st.cur + 1).kind != IDENT ==>
      r == StmtResult(None, PState(st.cur, st.errors + [ExpectedToken(IDENT, At(t, st.cur + 1))]))
    ensures At(t, st.cur + 1).kind == IDENT && At(t, st.cur + 2).kind != ASSIGN ==>
      r == StmtResult(None, PState(st.cur + 1, st.errors + [ExpectedToken(ASSIGN, At(t, st.cur + 2))]))
    decreases Rem(t, st.cur), 7
  {
    var tok := At(t, st.cur);
    var x := ExpectPeek(t, st, IDENT);
    if !x.ok then StmtResult(None, x.st)
    else
      var name := At(t, x.st.cur);
      var y := ExpectPeek(t, x.st, ASSIGN);
      if !y.ok then StmtResult(None, y.st)
      else
        var v := ParseExpression(t, Next(y.st), LOWEST);
        StmtResult(Some(Let(tok, name, v.e)), SkipSemicolon(t, v.st))
  }

  /** A `let` that stops early produces no statement and costs exactly one error, and `parse`
      goes on with the token after the one the `let` stopped at: the one after `let` when the
      name is missing, the token after the name when `=` is missing. */
  lemma LetFailureRecovers(t: seq<Token>, st: PState, acc: seq<Statement>)
    requires At(t, st.cur).kind == LET
    ensures At(t, st.cur + 1).kind != IDENT ==>
      ProgramLoop(t, st, acc) ==
      ProgramLoop(t, PState(st.cur + 1, st.errors + [ExpectedToken(IDENT, At(t, st.cur + 1))]), acc)
    ensures At(t, st.cur + 1).kind == IDENT && At(t, st.cur + 2).kind != ASSIGN ==>
      ProgramLoop(t, st, acc) ==
      ProgramLoop(t, PState(st.cur + 2, st.errors + [ExpectedToken(ASSIGN, At(t, st.cur + 2))]), acc)
  {
    assert ParseStatement(t, st) == ParseLetStatement(t, st);
    ProgramLoopStep(t, st, acc);
  }

  /** `parseReturnStatement`. */
  function ParseReturnStatement(t: seq<Token>, st: PState): (r: StmtResult)
    requires At(t, st.cur).kind == RETURN
    ensures Advances(st, r.st) && r.s.Some? && r.s.value.Return? && r.s.value.token == At(t, st.cur)
    ensures r.s.value.value == ParseExpression(t, Next(st), LOWEST).e
    decreases Rem(t, st.cur), 7
  {
    var v := ParseExpression(t, Next(st), LOWEST);
    StmtResult(Some(Return(At(t, st.cur), v.e)), SkipSemicolon(t, v.st))
  }

  /** `parseExpressionStatement`: never `null`; an expression that failed is left `undefined`. */
  function ParseExpressionStatement(t: seq<Token>, st: PState): (r: StmtResult)
    ensures Advances(st, r.st) && r.s.Some? && r.s.value.ExpressionStatement? && r.s.value.token == At(t, st.cur)
    ensures r.s.value.expression == ParseExpression(t, st, LOWEST).e
    decreases Rem(t, st.cur), 7
  {
    var v := ParseExpression(t, st, LOWEST);
    StmtResult(Some(ExpressionStatement(At(t, st.cur), v.e)), SkipSemicolon(t, v.st))
  }

  /** `parseBlockStatement`: statements up to the closing `}` or the end of input. */
  function ParseBlockStatement(t: seq<Token>, st: PState): (r: BlockResult)
    requires st.cur < |t|
    ensures Advances(st, r.st) && st.cur < r.st.cur && r.b.token == At(t, st.cur)
    ensures At(t, r.st.cur).kind == RBRACE || At(t, r.st.cur).kind == EOF
    decreases Rem(t, st.cur), 4
  {
    BlockLoop(t, Next(st), NewBlock(At(t, st.cur)))
  }

  function BlockLoop(t: seq<Token>, st: PState, b: Block): (r: BlockResult)
    ensures Advances(st, r.st) && r.b.token == b.token
    ensures At(t, r.st.cur).kind == RBRACE || At(t, r.st.cur).kind == EOF
    decreases Rem(t, st.cur), 9
  {
    if At(t, st.cur).kind == RBRACE || At(t, st.cur).kind == EOF then BlockResult(b, st)
    else
      var s := ParseStatement(t, st);
      BlockLoop(t, Next(s.st), if s.s.Some? then b.Add(s.s.value) else b)
  }

  /** One round of the `while` loop of `parseBlockStatement`. */
  lemma BlockLoopStep(t: seq<Token>, st: PState, b: Block)
    requires At(t, st.cur).kind != RBRACE && At(t, st.cur).kind != EOF
    ensures var s := ParseStatement(t, st);
      BlockLoop(t, st, b) == BlockLoop(t, Next(s.st), if s.s.Some? then b.Add(s.s.value) else b)
  {
  }

  // ---- Expressions. ----

  /** `parseExpression`: the prefix rule of the current token, then the Pratt loop. */
  function ParseExpression(t: seq<Token>, st: PState, precedence: nat): (r: ExprResult)
    ensures Advances(st, r.st)
    decreases Rem(t, st.cur), 6
  {
    var tok := At(t, st.cur);
    if !HasPrefixRule(tok.kind) then ExprResult(Missing, PState(st.cur, st.errors + [NoPrefixParseFn(tok)]))
    else
      var p := ParsePrefixRule(t, st);
      PrattLoop(t, p.e, p.st, precedence)
  }

  /** The `while` loop of `parseExpression`: fold infix rules while the peek token is not `;`
      and binds tighter than `precedence`. */
  function PrattLoop(t: seq<Token>, left: Expression, st: PState, precedence: nat): (r: ExprResult)
    ensures Advances(st, r.st)
    decreases Rem(t, st.cur), 5
  {
    var peek := At(t, st.cur + 1);
    if peek.kind == SEMICOLON || precedence >= Precedence(peek.kind) then ExprResult(left, st)
    else if !HasInfixRule(peek.kind) then ExprResult(left, st)
    else
      var r := ParseInfixRule(t, Next(st), left);
      PrattLoop(t, r.e, r.st, precedence)
  }

  /** One round of the Pratt loop: while the loop goes on, the peek token has an infix rule and
      the loop continues from what that rule returns. */
  lemma PrattLoopStep(t: seq<Token>, left: Expression, st: PState, precedence: nat)
    requires At(t, st.cur + 1).kind != SEMICOLON && precedence < Precedence(At(t, st.cur + 1).kind)
    ensures HasInfixRule(At(t, st.cur + 1).kind)
    ensures var r := ParseInfixRule(t, Next(st), left);
      PrattLoop(t, left, st, precedence) == PrattLoop(t, r.e, r.st, precedence)
  {
    InfixRulesMatchPrecedences(At(t, st.cur + 1).kind);
  }

  /** The entry of `prefixParseFns` for the current token. */
  function ParsePrefixRule(t: seq<Token>, st: PState): (r: ExprResult)
    requires HasPrefixRule(At(t, st.cur).kind)
    ensures Advances(st, r.st)
    decreases Rem(t, st.cur), 5
  {
    var tok := At(t, st.cur);
    match tok.kind
    case IDENT => ExprResult(Identifier(tok), st)
    case INT => ExprResult(NewIntegerLiteral(tok), st)
    case TRUE => ExprResult(NewBooleanLiteral(tok), st)
    case FALSE => ExprResult(NewBooleanLiteral(tok), st)
    case STRING => ExprResult(StringLiteral(tok), st)
    case BANG => ParsePrefixExpression(t, st)
    case MINUS => ParsePrefixExpression(t, st)
    case LPAREN => ParseGroupedExpression(t, st)
    case IF => ParseIfExpression(t, st)
    case FUNCTION => ParseFunction(t, st)
    case LBRACKET => ParseArray(t, st)
    case LBRACE => ParseHashLiteral(t, st)
  }

  /** The entry of `infixParseFns` for the current token. */
  function ParseInfixRule(t: seq<Token>, st: PState, left: Expression): (r: ExprResult)
    requires HasInfixRule(At(t, st.cur).kind)
    ensures Advances(st, r.st)
    decreases Rem(t, st.cur), 5
  {
    var k := At(t, st.cur).kind;
    if k == LPAREN then ParseCallExpression(t, st, left)
    else if k == LBRACKET then ParseIndexExpression(t, st, left)
    else ParseInfixExpression(t, st, left)
  }

  /** A token with no entry in `prefixParseFns` makes the expression `null`, with one "no prefix
      parse function" error and the cursor left where it was. */
  lemma NoPrefixRule(t: seq<Token>, st: PState, precedence: nat)
    requires !HasPrefixRule(At(t, st.cur).kind)
    ensures ParseExpression(t, st, precedence) ==
      ExprResult(Missing, PState(st.cur, st.errors + [NoPrefixParseFn(At(t, st.cur))]))
  {
  }

  /** What each entry of `prefixParseFns` builds: an identifier or a literal from the current
      token alone, a node of the token's own kind from the others (or `null` where the rule can
      fail), and the parenthesised expression itself for `(`. */
  lemma PrefixRuleCases(t: seq<Token>, st: PState)
    requires HasPrefixRule(At(t, st.cur).kind)
    ensures var r := ParsePrefixRule(t, st);
      var tok := At(t, st.cur);
      (tok.kind == IDENT ==> r == ExprResult(Identifier(tok), st)) &&
      (tok.kind == INT ==> r == ExprResult(NewIntegerLiteral(tok), st)) &&
      (tok.kind == TRUE || tok.kind == FALSE ==> r == ExprResult(NewBooleanLiteral(tok), st)) &&
      (tok.kind == STRING ==> r == ExprResult(StringLiteral(tok), st))
    ensures var r := ParsePrefixRule(t, st);
      var k := At(t, st.cur).kind;
      (k == BANG || k == MINUS ==> r.e.Prefix?) &&
      (k == IF ==> r.e.If? || r.e == Missing) &&
      (k == FUNCTION ==> r.e.FunctionLiteral? || r.e == Missing) &&
      (k == LBRACKET ==> r.e.ArrayLiteral?) &&
      (k == LBRACE ==> r.e.HashLiteral? || r.e == Missing) &&
      (k == LPAREN ==> r == ParseGroupedExpression(t, st)) &&
      (k == IF ==> r == ParseIfExpression(t, st)) &&
      (k == FUNCTION ==> r == ParseFunction(t, st))
    ensures var r := ParsePrefixRule(t, st);
      At(t, st.cur).kind != LPAREN && r.e != Missing ==> r.e.token == At(t, st.cur)
  {
  }

  /** What each entry of `infixParseFns` builds around the left operand: a call for `(`, an
      index expression (or `null`) for `[`, a binary node for the operators. */
  lemma InfixRuleCases(t: seq<Token>, st: PState, left: Expression)
    requires HasInfixRule(At(t, st.cur).kind)
    ensures var r := ParseInfixRule(t, st, left);
      var k := At(t, st.cur).kind;
      (k == LPAREN ==> r.e.Call? && r.e.callee == left && r.e.token == At(t, st.cur)) &&
      (k == LBRACKET ==> r.e == Missing || (r.e.Index? && r.e.left == left)) &&
      (k != LPAREN && k != LBRACKET ==> r.e.Infix? && r.e.left == left && r.e.token == At(t, st.cur))
  {
  }

  /** `parsePrefixExpression`: the operand is parsed at PREFIX. */
  function ParsePrefixExpression(t: seq<Token>, st: PState): (r: ExprResult)
    requires st.cur < |t|
    ensures Advances(st, r.st)
    ensures r.e.Prefix? && r.e.token == At(t, st.cur)
    decreases Rem(t, st.cur), 4
  {
    var right := ParseExpression(t, Next(st), PREFIX);
    ExprResult(Prefix(At(t, st.cur), right.e), right.st)
  }

  /** `parseInfixExpression`: the right side is parsed at the operator's own precedence. */
  function ParseInfixExpression(t: seq<Token>, st: PState, left: Expression): (r: ExprResult)
    requires st.cur < |t|
    ensures Advances(st, r.st)
    ensures r.e.Infix? && r.e.token == At(t, st.cur) && r.e.left == left
    decreases Rem(t, st.cur), 4
  {
    var tok := At(t, st.cur);
    var right := ParseExpression(t, Next(st), Precedence(tok.kind));
    ExprResult(Infix(tok, left, right.e), right.st)
  }

  /** `parseGroupedExpression`: `(` expression `)`; `null` when the `)` is missing. */
  function ParseGroupedExpression(t: seq<Token>, st: PState): (r: ExprResult)
    requires st.cur < |t|
    ensures Advances(st, r.st)
    ensures r.e != Missing ==> At(t, r.st.cur).kind == RPAREN
    decreases Rem(t, st.cur), 4
  {
    var inner := ParseExpression(t, Next(st), LOWEST);
    var x := ExpectPeek(t, inner.st, RPAREN);
    if !x.ok then ExprResult(Missing, x.st) else ExprResult(inner.e, x.st)
  }

  /** `parseIfExpression`: `if (` condition `) {` block `}`, then optionally `else {` block `}`.
      A missing `(`, `)`, `{` or `else {` makes it `null`. */
  function ParseIfExpression(t: seq<Token>, st: PState): (r: ExprResult)
    requires At(t, st.cur).kind == IF
    ensures Advances(st, r.st)
    ensures At(t, st.cur + 1).kind != LPAREN ==>
      r == ExprResult(Missing, PState(st.cur, st.errors + [ExpectedToken(LPAREN, At(t, st.cur + 1))]))
    ensures r.e.If? ==> r.e.token == At(t, st.cur)
    ensures r.e.If? || r.e == Missing
    decreases Rem(t, st.cur), 4
  {
    var x := ExpectPeek(t, st, LPAREN);
    if !x.ok then ExprResult(Missing, x.st) else IfCondition(t, At(t, st.cur), x.st)
  }

  /** The rest of `parseIfExpression` from its `(` on: the condition, `)` and `{`, then the
      blocks. */
  function IfCondition(t: seq<Token>, tok: Token, st: PState): (r: ExprResult)
    requires At(t, st.cur).kind == LPAREN
    ensures Advances(st, r.st)
    ensures r.e.If? ==> r.e.token == tok
    ensures r.e.If? || r.e == Missing
    decreases Rem(t, st.cur), 3
  {
    var cond := ParseExpression(t, Next(st), LOWEST);
    var y := ExpectPeek(t, cond.st, RPAREN);
    if !y.ok then ExprResult(Missing, y.st)
    else
      var z := ExpectPeek(t, y.st, LBRACE);
      if !z.ok then ExprResult(Missing, z.st)
      else IfBlocks(t, tok, cond.e, z.st)
  }

  /** The rest of `parseIfExpression` from the `{` of the consequence on. */
  function IfBlocks(t: seq<Token>, tok: Token, cond: Expression, st: PState): (r: ExprResult)
    requires At(t, st.cur).kind == LBRACE
    ensures Advances(st, r.st)
    ensures r.e.If? || r.e == Missing
    ensures r.e.If? ==> r.e.token == tok
    decreases Rem(t, st.cur), 5
  {
    var cons := ParseBlockStatement(t, st);
    if At(t, cons.st.cur + 1).kind != ELSE then ExprResult(If(tok, cond, cons.b, None), cons.st)
    else ElseBlock(t, tok, cond, cons.b, cons.st)
  }

  /** The `else {` block of `parseIfExpression`, once the consequence `cons` is parsed. */
  function ElseBlock(t: seq<Token>, tok: Token, cond: Expression, cons: Block, st: PState): (r: ExprResult)
    requires At(t, st.cur + 1).kind == ELSE
    ensures Advances(st, r.st)
    ensures r.e.If? || r.e == Missing
    ensures r.e.If? ==> r.e.token == tok && r.e.alternative.Some?
    decreases Rem(t, st.cur), 5
  {
    var w := ExpectPeek(t, Next(st), LBRACE);
    if !w.ok then ExprResult(Missing, w.st)
    else
      var alt := ParseBlockStatement(t, w.st);
      ExprResult(If(tok, cond, cons, Some(alt.b)), alt.st)
  }

  /** `parseFunction`: `fn (` parameters `) {` body `}`; a missing `(` or `{` makes it `null`,
      with one error for the missing token. */
  function ParseFunction(t: seq<Token>, st: PState): (r: ExprResult)
    requires At(t, st.cur).kind == FUNCTION
    ensures Advances(st, r.st)
    ensures r.e.FunctionLiteral? || r.e == Missing
    ensures At(t, st.cur + 1).kind != LPAREN ==>
      r == ExprResult(Missing, PState(st.cur, st.errors + [ExpectedToken(LPAREN, At(t, st.cur + 1))]))
    ensures At(t, st.cur + 1).kind == LPAREN ==>
      var ps := ParseFunctionParameters(t, Next(st));
      (At(t, ps.st.cur + 1).kind != LBRACE ==>
        r == ExprResult(Missing, PState(ps.st.cur, ps.st.errors + [ExpectedToken(LBRACE, At(t, ps.st.cur + 1))]))) &&
      (At(t, ps.st.cur + 1).kind == LBRACE ==>
        r.e.FunctionLiteral? && r.e.token == At(t, st.cur) && r.e.parameters == ps.params &&
        r.e.body.token == At(t, ps.st.cur + 1))
    decreases Rem(t, st.cur), 4
  {
    var tok := At(t, st.cur);
    var x := ExpectPeek(t, st, LPAREN);
    if !x.ok then ExprResult(Missing, x.st)
    else
      var ps := ParseFunctionParameters(t, x.st);
      var y := ExpectPeek(t, ps.st, LBRACE);
      if !y.ok then ExprResult(Missing, y.st)
      else
        var body := ParseBlockStatement(t, y.st);
        ExprResult(FunctionLiteral(tok, ps.params, body.b), body.st)
  }

  /** `parseFunctionParameters`: `)` alone gives no parameters; otherwise one token, then one
      more after each `,`, then `)`; `null` when the `)` is missing. */
  function ParseFunctionParameters(t: seq<Token>, st: PState): (r: ParamsResult)
    ensures Advances(st, r.st)
    ensures r.st.errors == st.errors ==> r.params.Some?
    ensures r.params.Some? ==> At(t, r.st.cur).kind == RPAREN
    ensures At(t, st.cur + 1).kind == RPAREN ==> r == ParamsResult(Some([]), Next(st))
  {
    if At(t, st.cur + 1).kind == RPAREN then ParamsResult(Some([]), Next(st))
    else ParamsLoop(t, Next(st), [At(t, st.cur + 1)])
  }

  function ParamsLoop(t: seq<Token>, st: PState, acc: seq<Token>): (r: ParamsResult)
    ensures Advances(st, r.st)
    ensures r.st.errors == st.errors ==> r.params.Some?
    ensures r.params.Some? ==> At(t, r.st.cur).kind == RPAREN
    decreases Rem(t, st.cur)
  {
    if At(t, st.cur + 1).kind == COMMA then ParamsLoop(t, Next(Next(st)), acc + [At(t, st.cur + 2)])
    else
      var x := ExpectPeek(t, st, RPAREN);
      ParamsResult(if x.ok then Some(acc) else None, x.st)
  }

  /** `parseCallExpression`: the arguments are an expression list closed by `)`. */
  function ParseCallExpression(t: seq<Token>, st: PState, f: Expression): (r: ExprResult)
    requires st.cur < |t|
    ensures Advances(st, r.st)
    ensures r.e.Call? && r.e.callee == f && r.e.token == At(t, st.cur)
    decreases Rem(t, st.cur), 4
  {
    var args := ParseExpressionList(t, st, RPAREN);
    ExprResult(Call(At(t, st.cur), f, args.l), args.st)
  }

  /** `parseArray`: the elements are an expression list closed by `]`. */
  function ParseArray(t: seq<Token>, st: PState): (r: ExprResult)
    requires st.cur < |t|
    ensures Advances(st, r.st)
    ensures r.e.ArrayLiteral? && r.e.token == At(t, st.cur)
    decreases Rem(t, st.cur), 4
  {
    var elements := ParseExpressionList(t, st, RBRACKET);
    ExprResult(ArrayLiteral(At(t, st.cur), elements.l), elements.st)
  }

  /** `parseIndexExpression`: `[` expression `]`; `null` when the `]` is missing. */
  function ParseIndexExpression(t: seq<Token>, st: PState, left: Expression): (r: ExprResult)
    requires st.cur < |t|
    ensures Advances(st, r.st)
    ensures r.e != Missing ==> r.e.Index? && r.e.left == left && At(t, r.st.cur).kind == RBRACKET
    decreases Rem(t, st.cur), 4
  {
    var index := ParseExpression(t, Next(st), LOWEST);
    var x := ExpectPeek(t, index.st, RBRACKET);
    if !x.ok then ExprResult(Missing, x.st)
    else ExprResult(Index(At(t, st.cur), left, index.e), x.st)
  }

  /** `parseExpressionList(end)`: `[]` when `end` follows at once; otherwise expressions
      separated by `,` and closed by `end`; `null` (with an error) when `end` is missing. */
  function ParseExpressionList(t: seq<Token>, st: PState, end: TokenKind): (r: ListResult)
    requires st.cur < |t|
    ensures Advances(st, r.st)
    ensures r.l.ListOf? ==> At(t, r.st.cur).kind == end
    ensures r.l.NoList? ==> |r.st.errors| > |st.errors|
    ensures At(t, st.cur + 1).kind == end ==> r == ListResult(ListOf([]), Next(st))
    decreases Rem(t, st.cur), 3
  {
    if At(t, st.cur + 1).kind == end then ListResult(ListOf([]), Next(st))
    else
      var first := ParseExpression(t, Next(st), LOWEST);
      ListLoop(t, first.st, [first.e], end)
  }

  function ListLoop(t: seq<Token>, st: PState, acc: seq<Expression>, end: TokenKind): (r: ListResult)
    ensures Advances(st, r.st)
    ensures r.l.ListOf? ==> At(t, r.st.cur).kind == end
    ensures r.l.NoList? ==> |r.st.errors| > |st.errors|
    decreases Rem(t, st.cur), 2
  {
    if At(t, st.cur + 1).kind == COMMA then
      var e := ParseExpression(t, Next(Next(st)), LOWEST);
      ListLoop(t, e.st, acc + [e.e], end)
    else
      var x := ExpectPeek(t, st, end);
      ListResult(if x.ok then ListOf(acc) else NoList, x.st)
  }

  /** One round of the `while` loop of `parseExpressionList`. */
  lemma ListLoopStep(t: seq<Token>, st: PState, acc: seq<Expression>, end: TokenKind)
    requires At(t, st.cur + 1).kind == COMMA
    ensures var e := ParseExpression(t, Next(Next(st)), LOWEST);
      ListLoop(t, st, acc, end) == ListLoop(t, e.st, acc + [e.e], end)
  {
  }

  /** `parseHashLiteral`: `key: value` pairs separated by `,` up to `}`; `null` when a `:`, a `,`
      or the `}` is missing. */
  function ParseHashLiteral(t: seq<Token>, st: PState): (r: ExprResult)
    requires st.cur < |t|
    ensures Advances(st, r.st)
    ensures r.e != Missing ==> r.e.HashLiteral? && r.e.token == At(t, st.cur) && At(t, r.st.cur).kind == RBRACE
    decreases Rem(t, st.cur), 4
  {
    var pairs := HashLoop(t, st, []);
    if pairs.pairs.None? then ExprResult(Missing, pairs.st)
    else
      var x := ExpectPeek(t, pairs.st, RBRACE);
      if !x.ok then ExprResult(Missing, x.st)
      else ExprResult(HashLiteral(At(t, st.cur), pairs.pairs.value), x.st)
  }

  /** Index of the pair whose key is `null`, if there is one. */
  function MissingKeyIndex(pairs: seq<(Expression, Expression)>): (r: Option<nat>)
    ensures r.Some? ==> r.value < |pairs| && pairs[r.value].0 == Missing
    ensures r.None? ==> forall i | 0 <= i < |pairs| :: pairs[i].0 != Missing
  {
    if |pairs| == 0 then None
    else if pairs[0].0 == Missing then Some(0)
    else match MissingKeyIndex(pairs[1..])
      case None => None
      case Some(i) => Some(i + 1)
  }

  /** `pairs.set(key, value)` on a `Map` keyed by node identity: only `null` keys can be equal,
      and setting an existing key replaces its value where it stands. */
  function SetPair(pairs: seq<(Expression, Expression)>, key: Expression, value: Expression)
    : (r: seq<(Expression, Expression)>)
    ensures key != Missing ==> r == pairs + [(key, value)]
    ensures |r| == |pairs| || |r| == |pairs| + 1
  {
    if key == Missing && MissingKeyIndex(pairs).Some? then pairs[MissingKeyIndex(pairs).value := (key, value)]
    else pairs + [(key, value)]
  }

  /** The first part of a round of the `while` loop of `parseHashLiteral`: `key : value`, the pair
      set into `acc`. */
  function HashPair(t: seq<Token>, st: PState, acc: seq<(Expression, Expression)>): (r: PairsResult)
    requires st.cur < |t|
    ensures Advances(st, r.st) && st.cur < r.st.cur
    ensures r.pairs.None? ==> |r.st.errors| > |st.errors|
    ensures r.pairs.Some? ==> |r.pairs.value| == |acc| || |r.pairs.value| == |acc| + 1
    decreases Rem(t, st.cur), 1
  {
    var key := ParseExpression(t, Next(st), LOWEST);
    var x := ExpectPeek(t, key.st, COLON);
    if !x.ok then PairsResult(None, x.st)
    else
      var value := ParseExpression(t, Next(x.st), LOWEST);
      PairsResult(Some(SetPair(acc, key.e, value.e)), value.st)
  }

  /** One round of the `while` loop of `parseHashLiteral`: a pair, then a `,` unless the `}` comes
      next. */
  function HashEntry(t: seq<Token>, st: PState, acc: seq<(Expression, Expression)>): (r: PairsResult)
    requires st.cur < |t|
    ensures Advances(st, r.st) && st.cur < r.st.cur
    ensures r.pairs.None? ==> |r.st.errors| > |st.errors|
    ensures r.pairs.Some? ==> r.st.cur < |t|
    decreases Rem(t, st.cur), 2
  {
    var p := HashPair(t, st, acc);
    if p.pairs.None? || At(t, p.st.cur + 1).kind == RBRACE then p
    else
      var y := ExpectPeek(t, p.st, COMMA);
      PairsResult(if y.ok then p.pairs else None, y.st)
  }

  /** The `while` loop of `parseHashLiteral`, after the pairs `acc`: entries up to a peek `}`. */
  function HashLoop(t: seq<Token>, st: PState, acc: seq<(Expression, Expression)>): (r: PairsResult)
    requires st.cur < |t|
    ensures Advances(st, r.st)
    ensures r.pairs.Some? ==> At(t, r.st.cur + 1).kind == RBRACE
    ensures r.pairs.None? ==> |r.st.errors| > |st.errors|
    decreases Rem(t, st.cur), 3
  {
    if At(t, st.cur + 1).kind == RBRACE then PairsResult(Some(acc), st)
    else
      var entry := HashEntry(t, st, acc);
      if entry.pairs.None? then entry else HashLoop(t, entry.st, entry.pairs.value)
  }

  /** One round of the `while` loop of `parseHashLiteral`. */
  lemma HashLoopStep(t: seq<Token>, st: PState, acc: seq<(Expression, Expression)>)
    requires st.cur < |t| && At(t, st.cur + 1).kind != RBRACE
    ensures var entry := HashEntry(t, st, acc);
      HashLoop(t, st, acc) == if entry.pairs.None? then entry else HashLoop(t, entry.st, entry.pairs.value)
  {
  }

  // ---- What each rule builds, and the `null` it returns for each missing token. ----

  /** `(` expression `)` is the inner expression, parsed at LOWEST, with the cursor on the `)`;
      with no `)` after it the result is `null`, with one error for the `)`. */
  lemma GroupedCases(t: seq<Token>, st: PState)
    requires st.cur < |t|
    ensures var inner := ParseExpression(t, Next(st), LOWEST);
      var r := ParseGroupedExpression(t, st);
      (At(t, inner.st.cur + 1).kind == RPAREN ==> r == ExprResult(inner.e, Next(inner.st))) &&
      (At(t, inner.st.cur + 1).kind != RPAREN ==>
        r == ExprResult(Missing, PState(inner.st.cur, inner.st.errors + [ExpectedToken(RPAREN, At(t, inner.st.cur + 1))])))
  {
  }

  /** The `else {` block: without the `{` the whole `if` is `null`, with one error for the `{`;
      otherwise the alternative is the block parsed from that `{`. */
  lemma ElseBlockCases(t: seq<Token>, tok: Token, cond: Expression, cons: Block, st: PState)
    requires At(t, st.cur + 1).kind == ELSE
    ensures var r := ElseBlock(t, tok, cond, cons, st);
      (At(t, st.cur + 2).kind != LBRACE ==>
        r == ExprResult(Missing, PState(st.cur + 1, st.errors + [ExpectedToken(LBRACE, At(t, st.cur + 2))]))) &&
      (At(t, st.cur + 2).kind == LBRACE ==>
        var alt := ParseBlockStatement(t, PState(st.cur + 2, st.errors));
        r == ExprResult(If(tok, cond, cons, Some(alt.b)), alt.st))
  {
  }

  /** After the consequence: with no `else` next the alternative is absent and the cursor stays
      on the consequence's `}`; an `else` hands over to `ElseBlock`. */
  lemma IfBlocksCases(t: seq<Token>, tok: Token, cond: Expression, st: PState)
    requires At(t, st.cur).kind == LBRACE
    ensures var cons := ParseBlockStatement(t, st);
      var r := IfBlocks(t, tok, cond, st);
      (At(t, cons.st.cur + 1).kind != ELSE ==> r == ExprResult(If(tok, cond, cons.b, None), cons.st)) &&
      (At(t, cons.st.cur + 1).kind == ELSE ==> r == ElseBlock(t, tok, cond, cons.b, cons.st))
  {
    var cons := ParseBlockStatement(t, st);
    assert IfBlocks(t, tok, cond, st) ==
      if At(t, cons.st.cur + 1).kind != ELSE then ExprResult(If(tok, cond, cons.b, None), cons.st)
      else ElseBlock(t, tok, cond, cons.b, cons.st);
  }

  /** From the `(` on: the condition is parsed at LOWEST; a missing `)` or `{` after it makes the
      `if` `null`, with one error for that token; otherwise the blocks follow from the `{`. */
  lemma IfConditionCases(t: seq<Token>, tok: Token, st: PState)
    requires At(t, st.cur).kind == LPAREN
    ensures var cond := ParseExpression(t, Next(st), LOWEST);
      var r := IfCondition(t, tok, st);
      (At(t, cond.st.cur + 1).kind != RPAREN ==>
        r == ExprResult(Missing, PState(cond.st.cur, cond.st.errors + [ExpectedToken(RPAREN, At(t, cond.st.cur + 1))]))) &&
      (At(t, cond.st.cur + 1).kind == RPAREN && At(t, cond.st.cur + 2).kind != LBRACE ==>
        r == ExprResult(Missing, PState(cond.st.cur + 1, cond.st.errors + [ExpectedToken(LBRACE, At(t, cond.st.cur + 2))]))) &&
      (At(t, cond.st.cur + 1).kind == RPAREN && At(t, cond.st.cur + 2).kind == LBRACE ==>
        r == IfBlocks(t, tok, cond.e, PState(cond.st.cur + 2, cond.st.errors)))
  {
  }

  /** A whole `if` expression whose `(` is there: the node carries the `if` token and the
      condition parsed at LOWEST; a missing `)` or `{` after the condition makes it `null` with
      exactly one error for that token; otherwise `IfBlocksCases` and `ElseBlockCases` give the
      rest. (A missing `(` is in the contract of `ParseIfExpression`.) */
  lemma IfExpressionCases(t: seq<Token>, st: PState)
    requires At(t, st.cur).kind == IF && At(t, st.cur + 1).kind == LPAREN
    ensures var cond := ParseExpression(t, PState(st.cur + 2, st.errors), LOWEST);
      var r := ParseIfExpression(t, st);
      (At(t, cond.st.cur + 1).kind != RPAREN ==>
        r == ExprResult(Missing, PState(cond.st.cur, cond.st.errors + [ExpectedToken(RPAREN, At(t, cond.st.cur + 1))]))) &&
      (At(t, cond.st.cur + 1).kind == RPAREN && At(t, cond.st.cur + 2).kind != LBRACE ==>
        r == ExprResult(Missing, PState(cond.st.cur + 1, cond.st.errors + [ExpectedToken(LBRACE, At(t, cond.st.cur + 2))]))) &&
      (At(t, cond.st.cur + 1).kind == RPAREN && At(t, cond.st.cur + 2).kind == LBRACE ==>
        r == IfBlocks(t, At(t, st.cur), cond.e, PState(cond.st.cur + 2, cond.st.errors)))
  {
    var x := Next(st);
    assert Next(x) == PState(st.cur + 2, st.errors);
    assert ParseIfExpression(t, st) == IfCondition(t, At(t, st.cur), x);
    IfConditionCases(t, At(t, st.cur), x);
  }

  /** The number of `, name` pairs after the token at `cur`. */
  function CommaRun(t: seq<Token>, cur: nat): (m: nat)
    ensures At(t, cur + 2 * m + 1).kind != COMMA
    decreases Rem(t, cur)
  {
    if At(t, cur + 1).kind == COMMA then 1 + CommaRun(t, cur + 2) else 0
  }

  /** Each of those pairs does start with a `,`. */
  lemma {:induction false} CommaRunCommas(t: seq<Token>, cur: nat)
    ensures forall j | 0 <= j < CommaRun(t, cur) :: At(t, cur + 2 * j + 1).kind == COMMA
    decreases Rem(t, cur)
  {
    if At(t, cur + 1).kind == COMMA {
      CommaRunCommas(t, cur + 2);
      forall j | 0 <= j < CommaRun(t, cur)
        ensures At(t, cur + 2 * j + 1).kind == COMMA
      {
        if j > 0 {
          assert cur + 2 * j + 1 == (cur + 2) + 2 * (j - 1) + 1;
        }
      }
    }
  }

  /** The `m` tokens that follow the first `m` commas after `cur`, one after each. */
  function TokensAfterCommas(t: seq<Token>, cur: nat, m: nat): (names: seq<Token>)
    ensures |names| == m
    ensures forall j | 0 <= j < m :: names[j] == At(t, cur + 2 * j + 2)
    decreases m
  {
    if m == 0 then [] else [At(t, cur + 2)] + TokensAfterCommas(t, cur + 2, m - 1)
  }

  /** The `while` loop of `parseFunctionParameters` from `st`, after `acc`: it takes the token
      after each `,` that follows, then needs a `)`; without it the list is `null`, with one
      error for the `)`. */
  lemma {:induction false} ParamsLoopTokens(t: seq<Token>, st: PState, acc: seq<Token>)
    ensures var m := CommaRun(t, st.cur);
      var end := st.cur + 2 * m;
      var r := ParamsLoop(t, st, acc);
      (At(t, end + 1).kind == RPAREN ==>
        r == ParamsResult(Some(acc + TokensAfterCommas(t, st.cur, m)), PState(end + 1, st.errors))) &&
      (At(t, end + 1).kind != RPAREN ==>
        r == ParamsResult(None, PState(end, st.errors + [ExpectedToken(RPAREN, At(t, end + 1))])))
  {
    if At(t, st.cur + 2 * CommaRun(t, st.cur) + 1).kind == RPAREN {
      ParamsLoopCloses(t, st, acc);
    } else {
      ParamsLoopFails(t, st, acc);
    }
  }

  /** One `, name` pair: the loop goes on from the token after the name, with the name added. */
  lemma ParamsLoopComma(t: seq<Token>, st: PState, acc: seq<Token>)
    requires At(t, st.cur + 1).kind == COMMA
    ensures var st2 := Next(Next(st));
      ParamsLoop(t, st, acc) == ParamsLoop(t, st2, acc + [At(t, st.cur + 2)]) &&
      CommaRun(t, st.cur) == 1 + CommaRun(t, st2.cur) &&
      st.cur + 2 * CommaRun(t, st.cur) == st2.cur + 2 * CommaRun(t, st2.cur)
  {
  }

  /** The closing case of `ParamsLoopTokens`, by induction on the pairs. */
  lemma {:induction false} ParamsLoopCloses(t: seq<Token>, st: PState, acc: seq<Token>)
    requires At(t, st.cur + 2 * CommaRun(t, st.cur) + 1).kind == RPAREN
    ensures ParamsLoop(t, st, acc) ==
      ParamsResult(Some(acc + TokensAfterCommas(t, st.cur, CommaRun(t, st.cur))), PState(st.cur + 2 * CommaRun(t, st.cur) + 1, st.errors))
    decreases Rem(t, st.cur)
  {
    if At(t, st.cur + 1).kind == COMMA {
      var st2 := Next(Next(st));
      var acc2 := acc + [At(t, st.cur + 2)];
      ParamsLoopComma(t, st, acc);
      var m2 := CommaRun(t, st2.cur);
      ParamsLoopCloses(t, st2, acc2);
      assert TokensAfterCommas(t, st.cur, 1 + m2) == [At(t, st.cur + 2)] + TokensAfterCommas(t, st2.cur, m2);
      assert acc2 + TokensAfterCommas(t, st2.cur, m2) == acc + TokensAfterCommas(t, st.cur, 1 + m2);
    } else {
      assert CommaRun(t, st.cur) == 0;
      assert acc + TokensAfterCommas(t, st.cur, 0) == acc;
      var x := ExpectPeek(t, st, RPAREN);
      assert ParamsLoop(t, st, acc) == ParamsResult(if x.ok then Some(acc) else None, x.st);
    }
  }

  /** The failing case of `ParamsLoopTokens`, by induction on the pairs. */
  lemma {:induction false} ParamsLoopFails(t: seq<Token>, st: PState, acc: seq<Token>)
    requires At(t, st.cur + 2 * CommaRun(t, st.cur) + 1).kind != RPAREN
    ensures ParamsLoop(t, st, acc) ==
      ParamsResult(None, PState(st.cur + 2 * CommaRun(t, st.cur), st.errors + [ExpectedToken(RPAREN, At(t, st.cur + 2 * CommaRun(t, st.cur) + 1))]))
    decreases Rem(t, st.cur)
  {
    if At(t, st.cur + 1).kind == COMMA {
      ParamsLoopComma(t, st, acc);
      ParamsLoopFails(t, Next(Next(st)), acc + [At(t, st.cur + 2)]);
    } else {
      assert CommaRun(t, st.cur) == 0;
      var x := ExpectPeek(t, st, RPAREN);
      assert ParamsLoop(t, st, acc) == ParamsResult(if x.ok then Some(acc) else None, x.st);
    }
  }

  /** `parseFunctionParameters`: `)` at once gives none; otherwise the next token, then the token
      after each `,`, closed by `)`; with no `)` the list is `null`, with one error for it. */
  lemma ParametersCases(t: seq<Token>, st: PState)
    ensures var m := CommaRun(t, st.cur + 1);
      var end := st.cur + 1 + 2 * m;
      var r := ParseFunctionParameters(t, st);
      (At(t, st.cur + 1).kind == RPAREN ==> r == ParamsResult(Some([]), Next(st))) &&
      (At(t, st.cur + 1).kind != RPAREN && At(t, end + 1).kind == RPAREN ==>
        r == ParamsResult(Some([At(t, st.cur + 1)] + TokensAfterCommas(t, st.cur + 1, m)), PState(end + 1, st.errors))) &&
      (At(t, st.cur + 1).kind != RPAREN && At(t, end + 1).kind != RPAREN ==>
        r == ParamsResult(None, PState(end, st.errors + [ExpectedToken(RPAREN, At(t, end + 1))])))
  {
    ParamsLoopTokens(t, Next(st), [At(t, st.cur + 1)]);
  }

  /** A call node holds the callee and exactly the list `parseExpressionList(RPAREN)` reads from
      its `(`, `null` included. */
  lemma CallCases(t: seq<Token>, st: PState, f: Expression)
    requires st.cur < |t|
    ensures var args := ParseExpressionList(t, st, RPAREN);
      ParseCallExpression(t, st, f) == ExprResult(Call(At(t, st.cur), f, args.l), args.st)
  {
  }

  /** An array node holds exactly the list `parseExpressionList(RBRACKET)` reads from its `[`. */
  lemma ArrayCases(t: seq<Token>, st: PState)
    requires st.cur < |t|
    ensures var elements := ParseExpressionList(t, st, RBRACKET);
      ParseArray(t, st) == ExprResult(ArrayLiteral(At(t, st.cur), elements.l), elements.st)
  {
  }

  /** `left[` index `]`: the index is parsed at LOWEST and the cursor ends on the `]`; with no `]`
      the result is `null`, with one error for the `]`. */
  lemma IndexCases(t: seq<Token>, st: PState, left: Expression)
    requires st.cur < |t|
    ensures var index := ParseExpression(t, Next(st), LOWEST);
      var r := ParseIndexExpression(t, st, left);
      (At(t, index.st.cur + 1).kind == RBRACKET ==>
        r == ExprResult(Index(At(t, st.cur), left, index.e), Next(index.st))) &&
      (At(t, index.st.cur + 1).kind != RBRACKET ==>
        r == ExprResult(Missing, PState(index.st.cur, index.st.errors + [ExpectedToken(RBRACKET, At(t, index.st.cur + 1))])))
  {
  }

  /** `key : value`: both parsed at LOWEST and set into the pairs; with no `:` after the key
      the round fails, with one error for the `:`. */
  lemma HashPairCases(t: seq<Token>, st: PState, acc: seq<(Expression, Expression)>)
    requires st.cur < |t|
    ensures var key := ParseExpression(t, Next(st), LOWEST);
      var r := HashPair(t, st, acc);
      (At(t, key.st.cur + 1).kind != COLON ==>
        r == PairsResult(None, PState(key.st.cur, key.st.errors + [ExpectedToken(COLON, At(t, key.st.cur + 1))]))) &&
      (At(t, key.st.cur + 1).kind == COLON ==>
        var value := ParseExpression(t, PState(key.st.cur + 2, key.st.errors), LOWEST);
        r == PairsResult(Some(SetPair(acc, key.e, value.e)), value.st))
  {
  }

  /** After a pair: a `}` next ends the round on the value, a `,` is skipped, and anything else
      fails the round with one error for the `,`. */
  lemma HashEntryCases(t: seq<Token>, st: PState, acc: seq<(Expression, Expression)>)
    requires st.cur < |t|
    ensures var p := HashPair(t, st, acc);
      var r := HashEntry(t, st, acc);
      (p.pairs.None? ==> r == p) &&
      (p.pairs.Some? && At(t, p.st.cur + 1).kind == RBRACE ==> r == p) &&
      (p.pairs.Some? && At(t, p.st.cur + 1).kind == COMMA ==> r == PairsResult(p.pairs, Next(p.st))) &&
      (p.pairs.Some? && At(t, p.st.cur + 1).kind != RBRACE && At(t, p.st.cur + 1).kind != COMMA ==>
        r == PairsResult(None, PState(p.st.cur, p.st.errors + [ExpectedToken(COMMA, At(t, p.st.cur + 1))])))
  {
  }

  /** A hash literal holds exactly the pairs its loop collected, with the cursor on the `}`; it
      is `null` exactly when a round failed, so a value followed by neither `,` nor `}` makes
      the whole literal `null`. */
  lemma HashLiteralCases(t: seq<Token>, st: PState)
    requires st.cur < |t|
    ensures var pairs := HashLoop(t, st, []);
      var r := ParseHashLiteral(t, st);
      (pairs.pairs.None? ==> r == ExprResult(Missing, pairs.st)) &&
      (pairs.pairs.Some? ==> r == ExprResult(HashLiteral(At(t, st.cur), pairs.pairs.value), Next(pairs.st)))
  {
  }

  /** A failed round fails the loop, whatever came before it. */
  lemma HashLoopFails(t: seq<Token>, st: PState, acc: seq<(Expression, Expression)>)
    requires st.cur < |t| && At(t, st.cur + 1).kind != RBRACE
    requires HashEntry(t, st, acc).pairs.None?
    ensures HashLoop(t, st, acc) == HashEntry(t, st, acc)
  {
  }
}
