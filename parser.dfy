/** The parser class of lib/parser/Parser.ts. Its cursor fields move as in the source, and each
    rule is proved to return what the matching function of `ParseSpec` returns and to leave the
    cursor and the error list where that function says. */
module Parsing {
  import opened Wrappers
  import opened Tokens
  import opened ParserHelper
  import opened Ast
  import opened ParseSpec
  import Lexing

  class Parser {
    /** The lexer's token list. */
    const tokens: seq<Token>
    var curToken: Token
    var peekToken: Token
    var position: nat
    /** `_errors`, each entry before `setError` formats it. */
    var errors: seq<ParseIssue>
    const program: Program

    /** `curToken` and `peekToken` are the tokens on either side of `position`. */
    predicate Valid()
      reads this
    {
      peekToken == At(tokens, position) && (position > 0 ==> curToken == At(tokens, position - 1))
    }

    /** The `errors` getter: the formatted messages. */
    function Errors(): (ms: seq<string>)
      reads this
      ensures |ms| == |errors| && forall k | 0 <= k < |errors| :: Some(ms[k]) == SetError(Descriptor(errors[k]))
    {
      Messages(errors)
    }

    /** The cursor as the specification sees it. */
    function State(): PState
      reads this
      requires position > 0
    {
      PState(position - 1, errors)
    }

    /** `new Parser(input)`: lexes the input; nothing is consumed yet. */
    constructor (input: string)
      ensures tokens == Lexing.Tokenize(input)
      ensures position == 0 && errors == [] && Valid()
      ensures fresh(program) && program.statements == []
    {
      var lexer := new Lexing.Lexer(input);
      tokens := lexer.tokens;
      position := 0;
      program := new Program();
      peekToken := At(lexer.tokens, 0);
      curToken := Token(EOF, "");  // `undefined` until the first `nextToken`
      errors := [];
    }

    /** `nextToken`. */
    method NextToken()
      requires Valid()
      modifies this`curToken, this`peekToken, this`position
      ensures Valid() && position == old(position) + 1 && curToken == old(peekToken)
    {
      curToken := peekToken;
      position := position + 1;
      peekToken := At(tokens, position);
    }

    method ExpectPeek(k: TokenKind) returns (ok: bool)
      requires Valid() && position > 0
      modifies this
      ensures Valid() && position > 0
      ensures Expect(ok, State()) == ParseSpec.ExpectPeek(tokens, old(State()), k)
    {
      if peekToken.kind == k {
        NextToken();
        return true;
      }
      errors := errors + [ExpectedToken(k, peekToken)];
      return false;
    }

    method SkipSemicolon()
      requires Valid() && position > 0
      modifies this
      ensures Valid() && position > 0 && State() == ParseSpec.SkipSemicolon(tokens, old(State()))
    {
      if peekToken.kind == SEMICOLON {
        NextToken();
      }
    }

    /** `parse`: collects the statements into `program` until the current token is EOF. */
    method Parse() returns (p: Program)
      requires Valid()
      modifies this, program
      ensures p == program && Valid() && position > 0
      ensures ProgramResult(program.statements, State())
           == ProgramLoop(tokens, PState(old(position), old(errors)), old(program.statements))
    {
      NextToken();
      ParseProgramLoop();
      return program;
    }

    /** The `while` loop of `parse`: statements until the current token is EOF. */
    method ParseProgramLoop()
      requires Valid() && position > 0
      modifies this, program
      ensures Valid() && position > 0
      ensures ProgramResult(program.statements, State()) == ProgramLoop(tokens, old(State()), old(program.statements))
    {
      ghost var target := ProgramLoop(tokens, State(), program.statements);
      while curToken.kind != EOF
        invariant Valid() && position > 0
        invariant ProgramLoop(tokens, State(), program.statements) == target
        decreases Rem(tokens, position - 1)
      {
        ParseProgramStep();
      }
      assert curToken == At(tokens, State().cur);
      assert ProgramLoop(tokens, State(), program.statements) == ProgramResult(program.statements, State());
    }

    /** One round of the `while` loop of `parse`: a statement, kept unless it is `null`, then
        `nextToken`. */
    method ParseProgramStep()
      requires Valid() && position > 0 && curToken.kind != EOF
      modifies this, program
      ensures Valid() && old(position) < position
      ensures ProgramLoop(tokens, State(), program.statements)
           == ProgramLoop(tokens, old(State()), old(program.statements))
    {
      ghost var before := State();
      ghost var collected := program.statements;
      ProgramLoopStep(tokens, before, collected);
      ghost var target := ProgramLoop(tokens, before, collected);
      var stmt := ParseStatement();
      ghost var st := State();
      assert StmtResult(stmt, st) == ParseSpec.ParseStatement(tokens, before);
      ghost var kept := if stmt.Some? then collected + [stmt.value] else collected;
      assert target == ProgramLoop(tokens, Next(st), kept);
      if stmt.Some? {
        program.Add(stmt.value);
      }
      assert State() == st && program.statements == kept;
      NextToken();
      assert State() == Next(st);
    }

    method ParseStatement() returns (s: Option<Statement>)
      requires Valid() && position > 0
      modifies this
      ensures Valid() && position > 0 && StmtResult(s, State()) == ParseSpec.ParseStatement(tokens, old(State()))
      decreases Rem(tokens, position - 1), 8
    {
      ghost var st := State();
      if curToken.kind == LET {
        assert ParseSpec.ParseStatement(tokens, st) == ParseSpec.ParseLetStatement(tokens, st);
        s := ParseLetStatement();
      } else if curToken.kind == RETURN {
        assert ParseSpec.ParseStatement(tokens, st) == ParseSpec.ParseReturnStatement(tokens, st);
        s := ParseReturnStatement();
      } else {
        assert ParseSpec.ParseStatement(tokens, st) == ParseSpec.ParseExpressionStatement(tokens, st);
        s := ParseExpressionStatement();
      }
    }

    method ParseLetStatement() returns (s: Option<Statement>)
      requires Valid() && position > 0 && curToken.kind == LET
      modifies this
      ensures Valid() && position > 0 && StmtResult(s, State()) == ParseSpec.ParseLetStatement(tokens, old(State()))
      decreases Rem(tokens, position - 1), 7
    {
      var tok := curToken;
      var ok := ExpectPeek(IDENT);
      if !ok {
        return None;
      }
      var name := curToken;
      ok := ExpectPeek(ASSIGN);
      if !ok {
        return None;
      }
      NextToken();
      var value := ParseExpression(LOWEST);
      SkipSemicolon();
      return Some(Let(tok, name, value));
    }

    method ParseReturnStatement() returns (s: Option<Statement>)
      requires Valid() && position > 0 && curToken.kind == RETURN
      modifies this
      ensures Valid() && position > 0 && StmtResult(s, State()) == ParseSpec.ParseReturnStatement(tokens, old(State()))
      decreases Rem(tokens, position - 1), 7
    {
      var tok := curToken;
      NextToken();
      var value := ParseExpression(LOWEST);
      SkipSemicolon();
      return Some(Return(tok, value));
    }

    method ParseExpressionStatement() returns (s: Option<Statement>)
      requires Valid() && position > 0
      modifies this
      ensures Valid() && position > 0 && StmtResult(s, State()) == ParseSpec.ParseExpressionStatement(tokens, old(State()))
      decreases Rem(tokens, position - 1), 7
    {
      var tok := curToken;
      var expression := ParseExpression(LOWEST);
      SkipSemicolon();
      return Some(ExpressionStatement(tok, expression));
    }

    method ParseBlockStatement() returns (b: Block)
      requires Valid() && 0 < position <= |tokens|
      modifies this
      ensures Valid() && position > 0 && BlockResult(b, State()) == ParseSpec.ParseBlockStatement(tokens, old(State()))
      decreases Rem(tokens, position - 1), 4
    {
      b := NewBlock(curToken);
      NextToken();
      b := ParseBlockLoop(b);
    }

    /** The `while` loop of `parseBlockStatement`: statements until `}` or the end of input. */
    method ParseBlockLoop(b0: Block) returns (b: Block)
      requires Valid() && position > 0
      modifies this
      ensures Valid() && position > 0 && BlockResult(b, State()) == BlockLoop(tokens, old(State()), b0)
      decreases Rem(tokens, position - 1), 10
    {
      b := b0;
      ghost var p0 := position;
      ghost var target := BlockLoop(tokens, State(), b);
      while curToken.kind != RBRACE && curToken.kind != EOF
        invariant Valid() && position >= p0
        invariant BlockLoop(tokens, State(), b) == target
        decreases Rem(tokens, position - 1)
      {
        b := ParseBlockStep(b);
      }
      assert curToken == At(tokens, State().cur);
      assert BlockLoop(tokens, State(), b) == BlockResult(b, State());
    }

    /** One round of the `while` loop of `parseBlockStatement`. */
    method ParseBlockStep(b: Block) returns (b': Block)
      requires Valid() && position > 0 && curToken.kind != RBRACE && curToken.kind != EOF
      modifies this
      ensures Valid() && old(position) < position
      ensures BlockLoop(tokens, State(), b') == BlockLoop(tokens, old(State()), b)
      decreases Rem(tokens, position - 1), 9
    {
      BlockLoopStep(tokens, State(), b);
      var stmt := ParseStatement();
      b' := if stmt.Some? then b.Add(stmt.value) else b;
      NextToken();
    }

    /** `parseExpression`. */
    method ParseExpression(precedence: nat) returns (e: Expression)
      requires Valid() && position > 0
      modifies this
      ensures Valid() && position > 0
      ensures ExprResult(e, State()) == ParseSpec.ParseExpression(tokens, old(State()), precedence)
      decreases Rem(tokens, position - 1), 6
    {
      ghost var st := old(State());
      ghost var p0 := position;
      assert curToken == At(tokens, st.cur);
      if !HasPrefixRule(curToken.kind) {
        errors := errors + [NoPrefixParseFn(curToken)];
        return Missing;
      }
      e := ParsePrefixRule();
      ghost var p := ParseSpec.ParsePrefixRule(tokens, st);
      assert e == p.e && State() == p.st;
      ghost var target := PrattLoop(tokens, e, State(), precedence);
      assert target == ParseSpec.ParseExpression(tokens, st, precedence);
      while peekToken.kind != SEMICOLON && precedence < Precedence(peekToken.kind)
        invariant Valid() && position >= p0
        invariant PrattLoop(tokens, e, State(), precedence) == target
        decreases Rem(tokens, position - 1)
      {
        assert peekToken == At(tokens, State().cur + 1);
        if !HasInfixRule(peekToken.kind) {
          return e;
        }
        e := ParseInfixStep(e, precedence);
      }
      assert peekToken == At(tokens, State().cur + 1);
      assert PrattLoop(tokens, e, State(), precedence) == ExprResult(e, State());
    }

    /** One round of the `while` loop of `parseExpression`: step onto the operator and apply its
        infix rule to `left`. */
    method ParseInfixStep(left: Expression, precedence: nat) returns (e: Expression)
      requires Valid() && position > 0
      requires peekToken.kind != SEMICOLON && precedence < Precedence(peekToken.kind)
      modifies this
      ensures Valid() && old(position) < position
      ensures PrattLoop(tokens, e, State(), precedence) == PrattLoop(tokens, left, old(State()), precedence)
      decreases Rem(tokens, position - 1), 5
    {
      PrattLoopStep(tokens, left, State(), precedence);
      NextToken();
      e := ParseInfixRule(left);
    }

    method ParsePrefixRule() returns (e: Expression)
      requires Valid() && position > 0 && HasPrefixRule(curToken.kind)
      modifies this
      ensures Valid() && position > 0 && ExprResult(e, State()) == ParseSpec.ParsePrefixRule(tokens, old(State()))
      decreases Rem(tokens, position - 1), 5
    {
      var tok := curToken;
      match tok.kind
      case IDENT => e := Identifier(tok);
      case INT => e := NewIntegerLiteral(tok);
      case TRUE => e := NewBooleanLiteral(tok);
      case FALSE => e := NewBooleanLiteral(tok);
      case STRING => e := StringLiteral(tok);
      case BANG => e := ParsePrefixExpression();
      case MINUS => e := ParsePrefixExpression();
      case LPAREN => e := ParseGroupedExpression();
      case IF => e := ParseIfExpression();
      case FUNCTION => e := ParseFunction();
      case LBRACKET => e := ParseArray();
      case LBRACE => e := ParseHashLiteral();
    }

    method ParseInfixRule(left: Expression) returns (e: Expression)
      requires Valid() && position > 0 && HasInfixRule(curToken.kind)
      modifies this
      ensures Valid() && position > 0 && ExprResult(e, State()) == ParseSpec.ParseInfixRule(tokens, old(State()), left)
      decreases Rem(tokens, position - 1), 5
    {
      if curToken.kind == LPAREN {
        e := ParseCallExpression(left);
      } else if curToken.kind == LBRACKET {
        e := ParseIndexExpression(left);
      } else {
        e := ParseInfixExpression(left);
      }
    }

    method ParsePrefixExpression() returns (e: Expression)
      requires Valid() && 0 < position <= |tokens|
      modifies this
      ensures Valid() && position > 0 && ExprResult(e, State()) == ParseSpec.ParsePrefixExpression(tokens, old(State()))
      decreases Rem(tokens, position - 1), 4
    {
      var tok := curToken;
      NextToken();
      var right := ParseExpression(PREFIX);
      return Prefix(tok, right);
    }

    method ParseInfixExpression(left: Expression) returns (e: Expression)
      requires Valid() && 0 < position <= |tokens|
      modifies this
      ensures Valid() && position > 0 && ExprResult(e, State()) == ParseSpec.ParseInfixExpression(tokens, old(State()), left)
      decreases Rem(tokens, position - 1), 4
    {
      var tok := curToken;
      var precedence := Precedence(tok.kind);
      NextToken();
      var right := ParseExpression(precedence);
      return Infix(tok, left, right);
    }

    method ParseGroupedExpression() returns (e: Expression)
      requires Valid() && 0 < position <= |tokens|
      modifies this
      ensures Valid() && position > 0 && ExprResult(e, State()) == ParseSpec.ParseGroupedExpression(tokens, old(State()))
      decreases Rem(tokens, position - 1), 4
    {
      NextToken();
      e := ParseExpression(LOWEST);
      var ok := ExpectPeek(RPAREN);
      if !ok {
        return Missing;
      }
    }

    method ParseIfExpression() returns (e: Expression)
      requires Valid() && position > 0 && curToken.kind == IF
      modifies this
      ensures Valid() && position > 0 && ExprResult(e, State()) == ParseSpec.ParseIfExpression(tokens, old(State()))
      decreases Rem(tokens, position - 1), 4
    {
      var tok := curToken;
      var ok := ExpectPeek(LPAREN);
      if !ok {
        return Missing;
      }
      e := ParseIfCondition(tok);
    }

    /** The rest of `parseIfExpression` from its `(` on. */
    method ParseIfCondition(tok: Token) returns (e: Expression)
      requires Valid() && position > 0 && curToken.kind == LPAREN
      modifies this
      ensures Valid() && position > 0 && ExprResult(e, State()) == IfCondition(tokens, tok, old(State()))
      decreases Rem(tokens, position - 1), 3
    {
      ghost var st := old(State());
      NextToken();
      assert State() == Next(st);
      var condition := ParseExpression(LOWEST);
      ghost var cond := ParseSpec.ParseExpression(tokens, Next(st), LOWEST);
      assert condition == cond.e && State() == cond.st;
      var ok := ExpectPeek(RPAREN);
      ghost var y := ParseSpec.ExpectPeek(tokens, cond.st, RPAREN);
      assert ok == y.ok && State() == y.st;
      if !ok {
        return Missing;
      }
      ok := ExpectPeek(LBRACE);
      ghost var z := ParseSpec.ExpectPeek(tokens, y.st, LBRACE);
      assert ok == z.ok && State() == z.st;
      if !ok {
        return Missing;
      }
      assert IfCondition(tokens, tok, st) == IfBlocks(tokens, tok, cond.e, z.st);
      e := ParseIfBlocks(tok, condition);
    }

    /** The rest of `parseIfExpression` from the `{` of the consequence on. */
    method ParseIfBlocks(tok: Token, condition: Expression) returns (e: Expression)
      requires Valid() && position > 0 && curToken.kind == LBRACE
      modifies this
      ensures Valid() && position > 0 && ExprResult(e, State()) == IfBlocks(tokens, tok, condition, old(State()))
      decreases Rem(tokens, position - 1), 5
    {
      var consequence := ParseBlockStatement();
      if peekToken.kind != ELSE {
        return If(tok, condition, consequence, None);
      }
      e := ParseElseBlock(tok, condition, consequence);
    }

    /** The `else {` block of `parseIfExpression`. */
    method ParseElseBlock(tok: Token, condition: Expression, consequence: Block) returns (e: Expression)
      requires Valid() && position > 0 && peekToken.kind == ELSE
      modifies this
      ensures Valid() && position > 0
      ensures ExprResult(e, State()) == ElseBlock(tokens, tok, condition, consequence, old(State()))
      decreases Rem(tokens, position - 1), 5
    {
      NextToken();
      var ok := ExpectPeek(LBRACE);
      if !ok {
        return Missing;
      }
      var alternative := ParseBlockStatement();
      return If(tok, condition, consequence, Some(alternative));
    }

    method ParseFunctionParameters() returns (params: Option<seq<Token>>)
      requires Valid() && position > 0
      modifies this
      ensures Valid() && position > 0
      ensures ParamsResult(params, State()) == ParseSpec.ParseFunctionParameters(tokens, old(State()))
    {
      ghost var st := old(State());
      assert peekToken == At(tokens, st.cur + 1);
      if peekToken.kind == RPAREN {
        NextToken();
        return Some([]);
      }
      NextToken();
      assert State() == Next(st);
      var identifiers := [curToken];
      ghost var target := ParamsLoop(tokens, State(), identifiers);
      assert target == ParseSpec.ParseFunctionParameters(tokens, st);
      while peekToken.kind == COMMA
        invariant Valid() && position > 0
        invariant ParamsLoop(tokens, State(), identifiers) == target
        decreases Rem(tokens, position - 1)
      {
        ghost var before := State();
        assert At(tokens, before.cur + 1).kind == COMMA;
        NextToken();
        NextToken();
        assert State() == Next(Next(before)) && curToken == At(tokens, before.cur + 2);
        assert ParamsLoop(tokens, before, identifiers) == ParamsLoop(tokens, State(), identifiers + [curToken]);
        identifiers := identifiers + [curToken];
      }
      assert At(tokens, State().cur + 1).kind != COMMA;
      ghost var last := ParseSpec.ExpectPeek(tokens, State(), RPAREN);
      assert target == ParamsResult(if last.ok then Some(identifiers) else None, last.st);
      var ok := ExpectPeek(RPAREN);
      if !ok {
        return None;
      }
      return Some(identifiers);
    }

    method ParseFunction() returns (e: Expression)
      requires Valid() && position > 0 && curToken.kind == FUNCTION
      modifies this
      ensures Valid() && position > 0 && ExprResult(e, State()) == ParseSpec.ParseFunction(tokens, old(State()))
      decreases Rem(tokens, position - 1), 4
    {
      var tok := curToken;
      var ok := ExpectPeek(LPAREN);
      if !ok {
        return Missing;
      }
      var params := ParseFunctionParameters();
      ok := ExpectPeek(LBRACE);
      if !ok {
        return Missing;
      }
      var body := ParseBlockStatement();
      return FunctionLiteral(tok, params, body);
    }

    method ParseCallExpression(f: Expression) returns (e: Expression)
      requires Valid() && 0 < position <= |tokens|
      modifies this
      ensures Valid() && position > 0 && ExprResult(e, State()) == ParseSpec.ParseCallExpression(tokens, old(State()), f)
      decreases Rem(tokens, position - 1), 4
    {
      var tok := curToken;
      var args := ParseExpressionList(RPAREN);
      return Call(tok, f, args);
    }

    method ParseArray() returns (e: Expression)
      requires Valid() && 0 < position <= |tokens|
      modifies this
      ensures Valid() && position > 0 && ExprResult(e, State()) == ParseSpec.ParseArray(tokens, old(State()))
      decreases Rem(tokens, position - 1), 4
    {
      var tok := curToken;
      var elements := ParseExpressionList(RBRACKET);
      return ArrayLiteral(tok, elements);
    }

    method ParseIndexExpression(left: Expression) returns (e: Expression)
      requires Valid() && 0 < position <= |tokens|
      modifies this
      ensures Valid() && position > 0 && ExprResult(e, State()) == ParseSpec.ParseIndexExpression(tokens, old(State()), left)
      decreases Rem(tokens, position - 1), 4
    {
      var tok := curToken;
      NextToken();
      var index := ParseExpression(LOWEST);
      var ok := ExpectPeek(RBRACKET);
      if !ok {
        return Missing;
      }
      return Index(tok, left, index);
    }

    method ParseExpressionList(end: TokenKind) returns (l: ExpressionList)
      requires Valid() && 0 < position <= |tokens|
      modifies this
      ensures Valid() && position > 0 && ListResult(l, State()) == ParseSpec.ParseExpressionList(tokens, old(State()), end)
      decreases Rem(tokens, position - 1), 3
    {
      if peekToken.kind == end {
        NextToken();
        return ListOf([]);
      }
      NextToken();
      var first := ParseExpression(LOWEST);
      l := ParseListLoop([first], end);
    }

    /** The `while` loop of `parseExpressionList` after the items `acc`, and its closing `end`. */
    method ParseListLoop(acc: seq<Expression>, end: TokenKind) returns (l: ExpressionList)
      requires Valid() && position > 0
      modifies this
      ensures Valid() && position > 0 && ListResult(l, State()) == ListLoop(tokens, old(State()), acc, end)
      decreases Rem(tokens, position - 1), 2
    {
      var list := acc;
      ghost var target := ListLoop(tokens, State(), list, end);
      while peekToken.kind == COMMA
        invariant Valid() && position > 0
        invariant ListLoop(tokens, State(), list, end) == target
        decreases Rem(tokens, position - 1)
      {
        list := ParseListStep(list, end);
      }
      ghost var last := ParseSpec.ExpectPeek(tokens, State(), end);
      assert target == ListResult(if last.ok then ListOf(list) else NoList, last.st);
      var ok := ExpectPeek(end);
      if !ok {
        return NoList;
      }
      return ListOf(list);
    }

    /** One round of the `while` loop of `parseExpressionList`: skip the `,` and parse one more
        item. */
    method ParseListStep(acc: seq<Expression>, end: TokenKind) returns (list: seq<Expression>)
      requires Valid() && position > 0 && peekToken.kind == COMMA
      modifies this
      ensures Valid() && old(position) < position
      ensures ListLoop(tokens, State(), list, end) == ListLoop(tokens, old(State()), acc, end)
      decreases Rem(tokens, position - 1), 1
    {
      ListLoopStep(tokens, State(), acc, end);
      NextToken();
      NextToken();
      var next := ParseExpression(LOWEST);
      list := acc + [next];
    }

    method ParseHashLiteral() returns (e: Expression)
      requires Valid() && 0 < position <= |tokens|
      modifies this
      ensures Valid() && position > 0 && ExprResult(e, State()) == ParseSpec.ParseHashLiteral(tokens, old(State()))
      decreases Rem(tokens, position - 1), 4
    {
      var tok := curToken;
      var pairs: seq<(Expression, Expression)> := [];
      ghost var target := HashLoop(tokens, State(), pairs);
      while peekToken.kind != RBRACE
        invariant Valid() && old(position) <= position <= |tokens|
        invariant HashLoop(tokens, State(), pairs) == target
        decreases Rem(tokens, position - 1)
      {
        HashLoopStep(tokens, State(), pairs);
        var entry := ParseHashEntry(pairs);
        if entry.None? {
          assert target == PairsResult(None, State());
          return Missing;
        }
        pairs := entry.value;
      }
      assert target == PairsResult(Some(pairs), State());
      var ok := ExpectPeek(RBRACE);
      if !ok {
        return Missing;
      }
      return HashLiteral(tok, pairs);
    }

    /** One round of the `while` loop of `parseHashLiteral`: a pair, then a `,` unless the `}`
        comes next. */
    method ParseHashEntry(acc: seq<(Expression, Expression)>) returns (pairs: Option<seq<(Expression, Expression)>>)
      requires Valid() && 0 < position <= |tokens|
      modifies this
      ensures Valid() && position > 0 && PairsResult(pairs, State()) == HashEntry(tokens, old(State()), acc)
      decreases Rem(tokens, position - 1), 2
    {
      ghost var st := old(State());
      pairs := ParseHashPair(acc);
      ghost var p := HashPair(tokens, st, acc);
      assert pairs == p.pairs && State() == p.st;
      assert peekToken == At(tokens, p.st.cur + 1);
      if pairs.Some? && peekToken.kind != RBRACE {
        var ok := ExpectPeek(COMMA);
        ghost var y := ParseSpec.ExpectPeek(tokens, p.st, COMMA);
        assert ok == y.ok && State() == y.st;
        if !ok {
          return None;
        }
      }
    }

    /** `key : value`, set into `acc`. */
    method ParseHashPair(acc: seq<(Expression, Expression)>) returns (pairs: Option<seq<(Expression, Expression)>>)
      requires Valid() && 0 < position <= |tokens|
      modifies this
      ensures Valid() && position > 0 && PairsResult(pairs, State()) == HashPair(tokens, old(State()), acc)
      decreases Rem(tokens, position - 1), 1
    {
      ghost var st := old(State());
      NextToken();
      assert State() == Next(st);
      var key := ParseExpression(LOWEST);
      ghost var k := ParseSpec.ParseExpression(tokens, Next(st), LOWEST);
      assert key == k.e && State() == k.st;
      var ok := ExpectPeek(COLON);
      ghost var x := ParseSpec.ExpectPeek(tokens, k.st, COLON);
      assert ok == x.ok && State() == x.st;
      if !ok {
        return None;
      }
      NextToken();
      assert State() == Next(x.st);
      var value := ParseExpression(LOWEST);
      ghost var v := ParseSpec.ParseExpression(tokens, Next(x.st), LOWEST);
      assert value == v.e && State() == v.st;
      return Some(SetPair(acc, key, value));
    }
  }
}
