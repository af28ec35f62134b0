/** Properties of the Pratt parser: when the loop stops, how operators of equal and different
    binding power group, and where prefix operators bind. */
module ParseProperties {
  import opened Wrappers
  import opened Tokens
  import opened ParserHelper
  import opened Ast
  import opened ParseSpec

  /** The Pratt loop folds nothing exactly when the peek token is `;` or binds no tighter than
      the minimum: then it returns the left operand and the state unchanged; otherwise it moves
      on past the operator. */
  lemma {:induction false} PrattLoopStopsExactly(t: seq<Token>, left: Expression, st: PState, precedence: nat)
    ensures var peek := At(t, st.cur + 1);
      var stops := peek.kind == SEMICOLON || Precedence(peek.kind) <= precedence;
      && (stops <==> PrattLoop(t, left, st, precedence).st.cur == st.cur)
      && (stops ==> PrattLoop(t, left, st, precedence) == ExprResult(left, st))
  {
    var peek := At(t, st.cur + 1);
    if !(peek.kind == SEMICOLON || Precedence(peek.kind) <= precedence) {
      InfixRulesMatchPrecedences(peek.kind);
      var r := ParseInfixRule(t, Next(st), left);
      assert PrattLoop(t, left, st, precedence) == PrattLoop(t, r.e, r.st, precedence);
    }
  }

  /** Operands that the prefix table turns into leaves. */
  predicate IsAtom(tok: Token) {
    tok.kind == IDENT || tok.kind == INT
  }

  function AtomNode(tok: Token): Expression
    requires IsAtom(tok)
  {
    if tok.kind == IDENT then Identifier(tok) else NewIntegerLiteral(tok)
  }

  /** The binary operators: the kinds `parseInfixExpression` handles. */
  predicate IsBinary(k: TokenKind) {
    k in {PLUS, MINUS, SLASH, ASTERISK, EQ, NOT_EQ, LT, GT}
  }

  /** An operand followed by a token that does not bind above `precedence` is a leaf. */
  lemma AtomStops(t: seq<Token>, st: PState, precedence: nat)
    requires IsAtom(At(t, st.cur))
    requires Precedence(At(t, st.cur + 1).kind) <= precedence
    ensures ParseExpression(t, st, precedence) == ExprResult(AtomNode(At(t, st.cur)), st)
  {
    PrattLoopStopsExactly(t, AtomNode(At(t, st.cur)), st, precedence);
  }

  /** One round of the Pratt loop on a binary operator that binds above the minimum: the left
      operand becomes the operator's left side, and its right side is parsed at its own level. */
  lemma FoldInfix(t: seq<Token>, left: Expression, st: PState, precedence: nat)
    requires IsBinary(At(t, st.cur + 1).kind) && precedence < Precedence(At(t, st.cur + 1).kind)
    ensures var op := At(t, st.cur + 1);
      var right := ParseExpression(t, PState(st.cur + 2, st.errors), Precedence(op.kind));
      PrattLoop(t, left, st, precedence) == PrattLoop(t, Infix(op, left, right.e), right.st, precedence)
  {
    var op := At(t, st.cur + 1);
    InfixRulesMatchPrecedences(op.kind);
    assert ParseInfixRule(t, Next(st), left) == ParseInfixExpression(t, Next(st), left);
  }

  /** The shape `a op1 b op2 c` followed by a token that binds at LOWEST. */
  predicate TwoOperatorShape(t: seq<Token>, i: nat) {
    && i + 5 <= |t|
    && IsAtom(t[i]) && IsBinary(t[i + 1].kind) && IsAtom(t[i + 2])
    && IsBinary(t[i + 3].kind) && IsAtom(t[i + 4])
    && Precedence(At(t, i + 5).kind) == LOWEST
  }

  /** `a op1 b op2 c` with `op1` binding at least as tightly as `op2` groups to the left. */
  lemma {:induction false} GroupsLeft(t: seq<Token>, st: PState)
    requires TwoOperatorShape(t, st.cur)
    requires Precedence(t[st.cur + 1].kind) >= Precedence(t[st.cur + 3].kind)
    ensures var i := st.cur;
      var a, b, c := AtomNode(t[i]), AtomNode(t[i + 2]), AtomNode(t[i + 4]);
      ParseExpression(t, st, LOWEST) == ExprResult(Infix(t[i + 3], Infix(t[i + 1], a, b), c), PState(i + 4, st.errors))
  {
    var i := st.cur;
    var a, b, c := AtomNode(t[i]), AtomNode(t[i + 2]), AtomNode(t[i + 4]);
    var op1, op2 := t[i + 1], t[i + 3];
    var s2, s4 := PState(i + 2, st.errors), PState(i + 4, st.errors);
    assert At(t, i) == t[i] && At(t, i + 1) == op1 && At(t, i + 2) == t[i + 2];
    assert At(t, i + 3) == op2 && At(t, i + 4) == t[i + 4];
    PrattLoopStopsExactly(t, a, st, LOWEST);
    assert ParseExpression(t, st, LOWEST) == PrattLoop(t, a, st, LOWEST);
    FoldInfix(t, a, st, LOWEST);
    AtomStops(t, s2, Precedence(op1.kind));
    AtomStops(t, s4, Precedence(op2.kind));
    FoldInfix(t, Infix(op1, a, b), s2, LOWEST);
    PrattLoopStopsExactly(t, Infix(op2, Infix(op1, a, b), c), s4, LOWEST);
  }

  /** In `a op1 b op2 c` with `op2` binding more tightly than `op1`, the right side of `op1`,
      parsed at `op1`'s level, takes in `op2` and `c`. */
  lemma {:induction false} RightSideAbsorbs(t: seq<Token>, st: PState)
    requires TwoOperatorShape(t, st.cur)
    requires Precedence(t[st.cur + 1].kind) < Precedence(t[st.cur + 3].kind)
    ensures var i := st.cur;
      ParseExpression(t, PState(i + 2, st.errors), Precedence(t[i + 1].kind))
      == ExprResult(Infix(t[i + 3], AtomNode(t[i + 2]), AtomNode(t[i + 4])), PState(i + 4, st.errors))
  {
    var i := st.cur;
    var b, c := AtomNode(t[i + 2]), AtomNode(t[i + 4]);
    var op2 := t[i + 3];
    var p1 := Precedence(t[i + 1].kind);
    var s2, s4 := PState(i + 2, st.errors), PState(i + 4, st.errors);
    assert At(t, i + 2) == t[i + 2] && At(t, i + 3) == op2 && At(t, i + 4) == t[i + 4];
    assert ParseExpression(t, s2, p1) == PrattLoop(t, b, s2, p1);
    FoldInfix(t, b, s2, p1);
    AtomStops(t, s4, Precedence(op2.kind));
    PrattLoopStopsExactly(t, Infix(op2, b, c), s4, p1);
  }

  /** `a op1 b op2 c` with `op2` binding more tightly than `op1` groups to the right. */
  lemma {:induction false} GroupsRight(t: seq<Token>, st: PState)
    requires TwoOperatorShape(t, st.cur)
    requires Precedence(t[st.cur + 1].kind) < Precedence(t[st.cur + 3].kind)
    ensures var i := st.cur;
      var a, b, c := AtomNode(t[i]), AtomNode(t[i + 2]), AtomNode(t[i + 4]);
      ParseExpression(t, st, LOWEST) == ExprResult(Infix(t[i + 1], a, Infix(t[i + 3], b, c)), PState(i + 4, st.errors))
  {
    var i := st.cur;
    var a := AtomNode(t[i]);
    var op1 := t[i + 1];
    var right := Infix(t[i + 3], AtomNode(t[i + 2]), AtomNode(t[i + 4]));
    assert At(t, i) == t[i] && At(t, i + 1) == op1;
    PrattLoopStopsExactly(t, a, st, LOWEST);
    assert ParseExpression(t, st, LOWEST) == PrattLoop(t, a, st, LOWEST);
    FoldInfix(t, a, st, LOWEST);
    RightSideAbsorbs(t, st);
    PrattLoopStopsExactly(t, Infix(op1, a, right), PState(i + 4, st.errors), LOWEST);
  }

  /** `a op1 b op2 c`: the two operators group to the left when the first binds at least as
      tightly as the second (so equal levels are left-associative), and to the right otherwise. */
  lemma TwoOperatorsGroupByPrecedence(t: seq<Token>, st: PState)
    requires TwoOperatorShape(t, st.cur)
    ensures var i := st.cur;
      var a, b, c := AtomNode(t[i]), AtomNode(t[i + 2]), AtomNode(t[i + 4]);
      var op1, op2 := t[i + 1], t[i + 3];
      ParseExpression(t, st, LOWEST) == ExprResult(
        if Precedence(op1.kind) >= Precedence(op2.kind) then Infix(op2, Infix(op1, a, b), c)
        else Infix(op1, a, Infix(op2, b, c)),
        PState(i + 4, st.errors))
  {
    if Precedence(t[st.cur + 1].kind) >= Precedence(t[st.cur + 3].kind) {
      GroupsLeft(t, st);
    } else {
      GroupsRight(t, st);
    }
  }

  /** A prefix operator parses its operand at the prefix level, and the loop of the enclosing
      expression goes on from there with the prefix node as its left operand. */
  lemma PrefixStep(t: seq<Token>, st: PState, precedence: nat)
    requires st.cur < |t| && t[st.cur].kind in {BANG, MINUS}
    ensures var right := ParseExpression(t, Next(st), PREFIX);
      ParseExpression(t, st, precedence) == PrattLoop(t, Prefix(t[st.cur], right.e), right.st, precedence)
  {
    assert At(t, st.cur) == t[st.cur];
    assert ParsePrefixRule(t, st) == ParsePrefixExpression(t, st);
  }

  /** A left operand followed by `op b` and a token that binds at LOWEST: one binary node. */
  lemma {:induction false} LastBinary(t: seq<Token>, left: Expression, st: PState)
    requires st.cur + 3 <= |t| && IsBinary(t[st.cur + 1].kind) && IsAtom(t[st.cur + 2])
    requires Precedence(At(t, st.cur + 3).kind) == LOWEST
    ensures var i := st.cur;
      PrattLoop(t, left, st, LOWEST) == ExprResult(Infix(t[i + 1], left, AtomNode(t[i + 2])), PState(i + 2, st.errors))
  {
    var i := st.cur;
    var s2 := PState(i + 2, st.errors);
    var op := t[i + 1];
    assert At(t, i + 1) == op && At(t, i + 2) == t[i + 2];
    AtomStops(t, s2, Precedence(op.kind));
    FoldInfix(t, left, st, LOWEST);
    PrattLoopStopsExactly(t, Infix(op, left, AtomNode(t[i + 2])), s2, LOWEST);
  }

  /** `!a` or `-a` followed by a token that binds no tighter than a prefix operator: the loop
      of the enclosing expression goes on with the prefix node. */
  lemma {:induction false} PrefixAtom(t: seq<Token>, st: PState, precedence: nat)
    requires st.cur + 2 <= |t| && t[st.cur].kind in {BANG, MINUS} && IsAtom(t[st.cur + 1])
    requires Precedence(At(t, st.cur + 2).kind) <= PREFIX
    ensures var i := st.cur;
      ParseExpression(t, st, precedence) == PrattLoop(t, Prefix(t[i], AtomNode(t[i + 1])), PState(i + 1, st.errors), precedence)
  {
    var s1 := PState(st.cur + 1, st.errors);
    var right := ParseExpression(t, s1, PREFIX);
    assert right == ExprResult(AtomNode(t[st.cur + 1]), s1) by {
      assert At(t, s1.cur) == t[st.cur + 1];
      AtomStops(t, s1, PREFIX);
    }
    assert ParseExpression(t, st, precedence) == PrattLoop(t, Prefix(t[st.cur], right.e), right.st, precedence) by {
      assert Next(st) == s1;
      PrefixStep(t, st, precedence);
    }
  }

  /** `!a op b` and `-a op b`: a prefix operator takes only the operand next to it, below every
      binary operator. */
  lemma {:induction false} PrefixBindsTighterThanBinary(t: seq<Token>, st: PState)
    requires st.cur + 4 <= |t|
    requires t[st.cur].kind in {BANG, MINUS} && IsAtom(t[st.cur + 1])
    requires IsBinary(t[st.cur + 2].kind) && IsAtom(t[st.cur + 3])
    requires Precedence(At(t, st.cur + 4).kind) == LOWEST
    ensures var i := st.cur;
      ParseExpression(t, st, LOWEST) == ExprResult(
        Infix(t[i + 2], Prefix(t[i], AtomNode(t[i + 1])), AtomNode(t[i + 3])), PState(i + 3, st.errors))
  {
    var i := st.cur;
    var neg := Prefix(t[i], AtomNode(t[i + 1]));
    assert ParseExpression(t, st, LOWEST) == PrattLoop(t, neg, PState(i + 1, st.errors), LOWEST) by {
      assert At(t, i + 2) == t[i + 2] && Precedence(t[i + 2].kind) < PREFIX;
      PrefixAtom(t, st, LOWEST);
    }
    LastBinary(t, neg, PState(i + 1, st.errors));
  }

  /** `f(x)` followed by a `)`: at the prefix level the operand is the whole call. */
  lemma {:induction false} CallOperand(t: seq<Token>, s1: PState)
    requires s1.cur + 4 <= |t| && t[s1.cur].kind == IDENT
    requires t[s1.cur + 1].kind == LPAREN && IsAtom(t[s1.cur + 2]) && t[s1.cur + 3].kind == RPAREN
    ensures var i := s1.cur;
      ParseExpression(t, s1, PREFIX) == PrattLoop(t, Call(t[i + 1], Identifier(t[i]), ListOf([AtomNode(t[i + 2])])),
        PState(i + 3, s1.errors), PREFIX)
  {
    var i := s1.cur;
    var s2, s3 := PState(i + 1, s1.errors), PState(i + 2, s1.errors);
    assert At(t, i) == t[i] && At(t, i + 1) == t[i + 1];
    assert At(t, i + 2) == t[i + 2] && At(t, i + 3) == t[i + 3];
    var f := Identifier(t[i]);
    var x := AtomNode(t[i + 2]);
    AtomStops(t, s3, LOWEST);
    assert ParseExpressionList(t, s2, RPAREN) == ListLoop(t, s3, [x], RPAREN);
    assert ListLoop(t, s3, [x], RPAREN) == ListResult(ListOf([x]), PState(i + 3, s1.errors));
    assert ParseInfixRule(t, s2, f) == ParseCallExpression(t, s2, f);
    assert ParseExpression(t, s1, PREFIX) == PrattLoop(t, f, s1, PREFIX);
  }

  /** `-f(x)`: a call binds tighter than a prefix operator. */
  lemma {:induction false} CallBindsTighterThanPrefix(t: seq<Token>, st: PState)
    requires st.cur + 5 <= |t|
    requires t[st.cur].kind in {BANG, MINUS} && t[st.cur + 1].kind == IDENT
    requires t[st.cur + 2].kind == LPAREN && IsAtom(t[st.cur + 3]) && t[st.cur + 4].kind == RPAREN
    requires Precedence(At(t, st.cur + 5).kind) == LOWEST
    ensures var i := st.cur;
      ParseExpression(t, st, LOWEST) == ExprResult(
        Prefix(t[i], Call(t[i + 2], Identifier(t[i + 1]), ListOf([AtomNode(t[i + 3])]))),
        PState(i + 4, st.errors))
  {
    var i := st.cur;
    var s4 := PState(i + 4, st.errors);
    var call := Call(t[i + 2], Identifier(t[i + 1]), ListOf([AtomNode(t[i + 3])]));
    PrefixStep(t, st, LOWEST);
    CallOperand(t, Next(st));
    PrattLoopStopsExactly(t, call, s4, PREFIX);
    PrattLoopStopsExactly(t, Prefix(t[i], call), s4, LOWEST);
  }

  /** `a[b]` followed by a `]`: at the prefix level the operand is the whole index expression. */
  lemma {:induction false} IndexOperand(t: seq<Token>, s1: PState)
    requires s1.cur + 4 <= |t| && IsAtom(t[s1.cur])
    requires t[s1.cur + 1].kind == LBRACKET && IsAtom(t[s1.cur + 2]) && t[s1.cur + 3].kind == RBRACKET
    ensures var i := s1.cur;
      ParseExpression(t, s1, PREFIX) == PrattLoop(t, Index(t[i + 1], AtomNode(t[i]), AtomNode(t[i + 2])),
        PState(i + 3, s1.errors), PREFIX)
  {
    var i := s1.cur;
    assert At(t, i) == t[i] && At(t, i + 1) == t[i + 1];
    assert At(t, i + 2) == t[i + 2] && At(t, i + 3) == t[i + 3];
    var a := AtomNode(t[i]);
    AtomStops(t, PState(i + 2, s1.errors), LOWEST);
    assert ParseInfixRule(t, PState(i + 1, s1.errors), a) == ParseIndexExpression(t, PState(i + 1, s1.errors), a);
    assert ParseExpression(t, s1, PREFIX) == PrattLoop(t, a, s1, PREFIX);
  }

  /** `-a[b]`: indexing binds tighter than a prefix operator. */
  lemma {:induction false} IndexBindsTighterThanPrefix(t: seq<Token>, st: PState)
    requires st.cur + 5 <= |t|
    requires t[st.cur].kind in {BANG, MINUS} && IsAtom(t[st.cur + 1])
    requires t[st.cur + 2].kind == LBRACKET && IsAtom(t[st.cur + 3]) && t[st.cur + 4].kind == RBRACKET
    requires Precedence(At(t, st.cur + 5).kind) == LOWEST
    ensures var i := st.cur;
      ParseExpression(t, st, LOWEST) == ExprResult(
        Prefix(t[i], Index(t[i + 2], AtomNode(t[i + 1]), AtomNode(t[i + 3]))), PState(i + 4, st.errors))
  {
    var i := st.cur;
    var s4 := PState(i + 4, st.errors);
    var index := Index(t[i + 2], AtomNode(t[i + 1]), AtomNode(t[i + 3]));
    PrefixStep(t, st, LOWEST);
    IndexOperand(t, Next(st));
    PrattLoopStopsExactly(t, index, s4, PREFIX);
    PrattLoopStopsExactly(t, Prefix(t[i], index), s4, LOWEST);
  }
}
