/** Programs from the evaluator's own examples, run through the model. Each syntax tree is
    written by hand in the shape the parser gives the quoted source text (that shape is not
    derived here from `Tokenize` and `ParseSpec`), and each program is evaluated in a fresh
    outermost scope, as `new Environment({})` makes it. */
module EvalExamples {
  import opened Wrappers
  import opened Strings
  import opened Ast
  import opened Environments
  import opened Objects
  import opened Evaluator
  import opened EvalProperties
  import Tokens

  /** An integer literal as the lexer reads the digits of `n`. */
  function Int(n: nat): Expression {
    IntegerLiteral(Tokens.Token(Tokens.INT, NatToString(n)), n)
  }

  function Ident(name: string): Expression {
    Identifier(Tokens.Token(Tokens.IDENT, name))
  }

  function Op(kind: Tokens.TokenKind, op: string, left: Expression, right: Expression): Expression {
    Infix(Tokens.Token(kind, op), left, right)
  }

  function Braced(statements: seq<Statement>): Block {
    Block(Tokens.Token(Tokens.LBRACE, "{"), statements)
  }

  /** An integer literal evaluates to its value and allocates nothing. */
  lemma EvalInt(n: nat, env: EnvId, h: Heap, fuel: nat)
    ensures EvalExpr(Int(n), env, h, fuel) == Normal(Some(Integer(n)), h)
  {
    DecimalValueOfNatToString(n);
  }

  /** An infix node over two integer operands that allocate nothing. */
  lemma EvalIntOp(kind: Tokens.TokenKind, op: string, left: Expression, right: Expression, x: int, y: int,
                  env: EnvId, h: Heap, fuel: nat)
    requires EvalExpr(left, env, h, fuel) == Normal(Some(Integer(x)), h)
    requires EvalExpr(right, env, h, fuel) == Normal(Some(Integer(y)), h)
    ensures EvalExpr(Op(kind, op, left, right), env, h, fuel) == EvalIntegerInfix(op, x, y, h)
  {
  }

  // ----- arithmetic -----

  /** `(5 + 10 * 2 + 15 / 3) * 2 + -10` */
  const Fifty: Expression :=
    Op(Tokens.PLUS, "+",
      Op(Tokens.ASTERISK, "*",
        Op(Tokens.PLUS, "+",
          Op(Tokens.PLUS, "+", Int(5), Op(Tokens.ASTERISK, "*", Int(10), Int(2))),
          Op(Tokens.SLASH, "/", Int(15), Int(3))),
        Int(2)),
      Prefix(Tokens.Token(Tokens.MINUS, "-"), Int(10)))

  /** `(5 + 10 * 2 + 15 / 3) * 2 + -10` is 50. */
  lemma FiftyValue(env: EnvId, h: Heap, fuel: nat)
    ensures EvalExpr(Fifty, env, h, fuel) == Normal(Some(Integer(50)), h)
  {
    EvalInt(5, env, h, fuel);
    EvalInt(10, env, h, fuel);
    EvalInt(2, env, h, fuel);
    EvalInt(15, env, h, fuel);
    EvalInt(3, env, h, fuel);
    var ten2 := Op(Tokens.ASTERISK, "*", Int(10), Int(2));
    EvalIntOp(Tokens.ASTERISK, "*", Int(10), Int(2), 10, 2, env, h, fuel);
    var sum := Op(Tokens.PLUS, "+", Int(5), ten2);
    EvalIntOp(Tokens.PLUS, "+", Int(5), ten2, 5, 20, env, h, fuel);
    var quot := Op(Tokens.SLASH, "/", Int(15), Int(3));
    EvalIntOp(Tokens.SLASH, "/", Int(15), Int(3), 15, 3, env, h, fuel);
    var inner := Op(Tokens.PLUS, "+", sum, quot);
    EvalIntOp(Tokens.PLUS, "+", sum, quot, 25, 5, env, h, fuel);
    var times := Op(Tokens.ASTERISK, "*", inner, Int(2));
    EvalIntOp(Tokens.ASTERISK, "*", inner, Int(2), 30, 2, env, h, fuel);
    var neg := Prefix(Tokens.Token(Tokens.MINUS, "-"), Int(10));
    assert EvalExpr(neg, env, h, fuel) == Normal(Some(Integer(-10)), h);
    EvalIntOp(Tokens.PLUS, "+", times, neg, 60, -10, env, h, fuel);
  }

  /** The program `(5 + 10 * 2 + 15 / 3) * 2 + -10;` evaluates to the single result 50. */
  lemma FiftyExample(fuel: nat)
    ensures RunFrom([ExpressionStatement(Tokens.Token(Tokens.LPAREN, "("), Fifty)], 0, 0, EmptyHeap, fuel, [])
      == Normal([Some(Integer(50))], EmptyHeap)
  {
    FiftyValue(0, EmptyHeap, fuel);
    OneStatementProgram(ExpressionStatement(Tokens.Token(Tokens.LPAREN, "("), Fifty), 0, EmptyHeap, fuel);
  }

  /** `(10 + 2) * 30 == 300 + 20 * 3` is `true`: integers compare by value. */
  lemma IntegerComparisonExample(env: EnvId, h: Heap, fuel: nat)
    ensures EvalExpr(
      Op(Tokens.EQ, "==",
        Op(Tokens.ASTERISK, "*", Op(Tokens.PLUS, "+", Int(10), Int(2)), Int(30)),
        Op(Tokens.PLUS, "+", Int(300), Op(Tokens.ASTERISK, "*", Int(20), Int(3)))),
      env, h, fuel) == Normal(Some(TRUE), h)
  {
    EvalInt(10, env, h, fuel);
    EvalInt(2, env, h, fuel);
    EvalInt(30, env, h, fuel);
    EvalInt(300, env, h, fuel);
    EvalInt(20, env, h, fuel);
    EvalInt(3, env, h, fuel);
    var sum := Op(Tokens.PLUS, "+", Int(10), Int(2));
    EvalIntOp(Tokens.PLUS, "+", Int(10), Int(2), 10, 2, env, h, fuel);
    var left := Op(Tokens.ASTERISK, "*", sum, Int(30));
    EvalIntOp(Tokens.ASTERISK, "*", sum, Int(30), 12, 30, env, h, fuel);
    var prod := Op(Tokens.ASTERISK, "*", Int(20), Int(3));
    EvalIntOp(Tokens.ASTERISK, "*", Int(20), Int(3), 20, 3, env, h, fuel);
    var right := Op(Tokens.PLUS, "+", Int(300), prod);
    EvalIntOp(Tokens.PLUS, "+", Int(300), prod, 300, 60, env, h, fuel);
    EvalIntOp(Tokens.EQ, "==", left, right, 360, 360, env, h, fuel);
  }

  // ----- strings -----

  /** `"a"` */
  const LetterA: Expression := StringLiteral(Tokens.Token(Tokens.STRING, "a"))

  /** `"b"` */
  const LetterB: Expression := StringLiteral(Tokens.Token(Tokens.STRING, "b"))

  /** `"a" == "a"` is `false`: each literal makes a new string, and `==` compares identities. */
  lemma StringLiteralsAreDistinct(env: EnvId, h: Heap, fuel: nat)
    ensures EvalExpr(Op(Tokens.EQ, "==", LetterA, LetterA), env, h, fuel) == Normal(Some(FALSE), Bump(Bump(h)))
  {
    assert EvalExpr(LetterA, env, h, fuel) == Normal(Some(String(h.nextId, "a")), Bump(h));
    assert EvalExpr(LetterA, env, Bump(h), fuel) == Normal(Some(String(h.nextId + 1, "a")), Bump(Bump(h)));
    InfixStep(Tokens.Token(Tokens.EQ, "=="), LetterA, LetterA, env, h, fuel);
    EqualityIsIdentity(String(h.nextId, "a"), String(h.nextId + 1, "a"), Bump(Bump(h)));
  }

  /** `"a" + "b"` is a third string, `ab`, made after both operands. */
  lemma StringConcatenation(env: EnvId, h: Heap, fuel: nat)
    ensures EvalExpr(Op(Tokens.PLUS, "+", LetterA, LetterB), env, h, fuel) ==
      Normal(Some(String(h.nextId + 2, "ab")), Bump(Bump(Bump(h))))
  {
    assert EvalExpr(LetterA, env, h, fuel) == Normal(Some(String(h.nextId, "a")), Bump(h));
    assert EvalExpr(LetterB, env, Bump(h), fuel) == Normal(Some(String(h.nextId + 1, "b")), Bump(Bump(h)));
    InfixStep(Tokens.Token(Tokens.PLUS, "+"), LetterA, LetterB, env, h, fuel);
    assert "a" + "b" == "ab";
  }

  // ----- hash literals -----

  /** `{true: 1, 1: 2}` */
  const Colliding: Expression :=
    HashLiteral(Tokens.Token(Tokens.LBRACE, "{"),
      [(BooleanLiteral(Tokens.Token(Tokens.TRUE, "true"), true), Int(1)), (Int(1), Int(2))])

  /** `{true: 1, 1: 2}` holds one pair: `true` and `1` hash alike, so the second pair replaces
      the first, key included. */
  lemma HashKeysCollide(env: EnvId, h: Heap, fuel: nat)
    ensures EvalExpr(Colliding, env, h, fuel) ==
      Normal(Some(Hash(h.nextId, [(1, HashPair(Integer(1), Integer(2)))])), Bump(h))
  {
    EvalInt(1, env, h, fuel);
    EvalInt(2, env, h, fuel);
    HashCollisions(0, 0, "");
    assert EvalExpr(Colliding.pairs[0].0, env, h, fuel) == Normal(Some(TRUE), h);
    HashPairStep(Colliding, 0, env, h, fuel, []);
    var first := [(1, HashPair(TRUE, Integer(1)))];
    assert MapSet([], 1, HashPair(TRUE, Integer(1))) == first;
    HashPairStep(Colliding, 1, env, h, fuel, first);
    assert MapSet(first, 1, HashPair(Integer(1), Integer(2))) == [(1, HashPair(Integer(1), Integer(2)))];
  }

  /** That hash prints as `{1: 2}`. */
  lemma CollidingHashInspects(env: EnvId, h: Heap, fuel: nat)
    requires Acyclic(h.lists)
    ensures var r := EvalExpr(Colliding, env, h, fuel);
      r.Normal? && r.value.Some? && Acyclic(r.heap.lists) && ListsBelow(r.value.value, 0) &&
      Inspect(r.heap.lists, r.value.value, 0) == Some("{1: 2}")
  {
    HashKeysCollide(env, h, fuel);
    OnePairInspects(h.lists, h.nextId);
  }

  // ----- recursion -----

  function Fact(n: nat): nat {
    if n == 0 then 1 else n * Fact(n - 1)
  }

  const N: Tokens.Token := Tokens.Token(Tokens.IDENT, "n")

  /** `n - 1`, the argument of the recursive call. */
  const Predecessor: Expression := Op(Tokens.MINUS, "-", Ident("n"), Int(1))

  /** `factorial(n - 1)` */
  const RecursiveCall: Expression :=
    Call(Tokens.Token(Tokens.LPAREN, "("), Ident("factorial"), Ast.ListOf([Predecessor]))

  /** `n * factorial(n - 1)` */
  const Product: Expression := Op(Tokens.ASTERISK, "*", Ident("n"), RecursiveCall)

  const Consequence: Block := Braced([ExpressionStatement(Tokens.Token(Tokens.INT, "1"), Int(1))])
  const Alternative: Block := Braced([ExpressionStatement(N, Product)])

  /** `n == 0` */
  const Condition: Expression := Op(Tokens.EQ, "==", Ident("n"), Int(0))

  const IfToken: Tokens.Token := Tokens.Token(Tokens.IF, "if")

  /** `if (n == 0) { 1 } else { n * factorial(n - 1) }` */
  const Choice: Expression := If(IfToken, Condition, Consequence, Some(Alternative))

  /** `{ if (n == 0) { 1 } else { n * factorial(n - 1) } }` */
  const FactorialBody: Block := Braced([ExpressionStatement(IfToken, Choice)])

  /** A single expression statement yielding a value that does not stop the block. */
  lemma SingleStatementBlock(s: Statement, env: EnvId, h: Heap, fuel: nat, v: Object, h': Heap)
    requires EvalStmt(s, env, h, fuel) == Normal(Some(v), h') && !v.ReturnValue? && !v.Error?
    ensures EvalBlock(Braced([s]), env, h, fuel) == Normal(Some(v), h')
  {
    assert EvalStatements(Braced([s]), 1, env, h', fuel, v) == Normal(Some(v), h');
  }

  /** The scope the body of `factorial` runs in: `n` is `k` and `factorial` is `f`. */
  predicate InBody(f: Object, k: int, env: EnvId, h: Heap) {
    f.Func? && EvalIdentifier("n", env, h) == Integer(k) && EvalIdentifier("factorial", env, h) == f
  }

  /** `n == 0` compares the bound integer with zero. */
  lemma ConditionValue(k: int, env: EnvId, h: Heap, fuel: nat)
    requires EvalIdentifier("n", env, h) == Integer(k)
    ensures EvalExpr(Condition, env, h, fuel) == Normal(Some(NativeBool(k == 0)), h)
  {
    EvalInt(0, env, h, fuel);
    assert EvalExpr(Ident("n"), env, h, fuel) == Normal(Some(Integer(k)), h);
    EvalIntOp(Tokens.EQ, "==", Ident("n"), Int(0), k, 0, env, h, fuel);
  }

  /** With `n` bound to 0 the body yields 1. */
  lemma BaseCase(env: EnvId, h: Heap, fuel: nat)
    requires EvalIdentifier("n", env, h) == Integer(0)
    ensures EvalExpr(Choice, env, h, fuel) == Normal(Some(Integer(1)), h)
  {
    ConditionValue(0, env, h, fuel);
    IfByTruthiness(IfToken, Condition, Consequence, Some(Alternative), env, h, fuel);
    EvalInt(1, env, h, fuel);
    SingleStatementBlock(Consequence.statements[0], env, h, fuel, Integer(1), h);
  }

  /** `factorial(n - 1)` applies `f` to `k - 1`. */
  lemma RecursiveCallStep(f: Object, k: int, env: EnvId, h: Heap, fuel: nat)
    requires InBody(f, k, env, h)
    ensures EvalExpr(RecursiveCall, env, h, fuel) == ApplyFunction(f, [Some(Integer(k - 1))], h, fuel)
  {
    EvalInt(1, env, h, fuel);
    assert EvalExpr(Ident("n"), env, h, fuel) == Normal(Some(Integer(k)), h);
    EvalIntOp(Tokens.MINUS, "-", Ident("n"), Int(1), k, 1, env, h, fuel);
    assert EvalExpr(Predecessor, env, h, fuel) == Normal(Some(Integer(k - 1)), h);
    assert EvalExpr(Ident("factorial"), env, h, fuel) == Normal(Some(f), h);
    CallStep(Tokens.Token(Tokens.LPAREN, "("), Ident("factorial"), Predecessor, env, h, fuel);
  }

  /** With `n` bound to `k != 0`, the body yields `k` times what the recursive call yields. */
  lemma RecursiveCase(f: Object, k: int, env: EnvId, h: Heap, fuel: nat, m: int, h': Heap)
    requires InBody(f, k, env, h) && k != 0
    requires ApplyFunction(f, [Some(Integer(k - 1))], h, fuel) == Normal(Some(Integer(m)), h')
    ensures EvalExpr(Choice, env, h, fuel) == Normal(Some(Integer(k * m)), h')
  {
    ConditionValue(k, env, h, fuel);
    IfByTruthiness(IfToken, Condition, Consequence, Some(Alternative), env, h, fuel);
    RecursiveCallStep(f, k, env, h, fuel);
    assert EvalExpr(Ident("n"), env, h, fuel) == Normal(Some(Integer(k)), h);
    InfixStep(Tokens.Token(Tokens.ASTERISK, "*"), Ident("n"), RecursiveCall, env, h, fuel);
    assert EvalInfix("*", Integer(k), Integer(m), h') == Normal(Some(Integer(k * m)), h');
    SingleStatementBlock(Alternative.statements[0], env, h, fuel, Integer(k * m), h');
  }

  /** The heap a call of `f` on `k` runs its body in: one new scope, holding `n`. */
  function Called(f: Object, k: int, h: Heap): Heap
    requires f.Func?
  {
    h.(frames := Bind(Enclose(h.frames, f.env), |h.frames|, [N], [Some(Integer(k))]))
  }

  /** Calling `f` binds `n` in a new scope that still sees `factorial` through the defining
      scope. */
  lemma FactorialScope(f: Object, k: int, h: Heap)
    requires f.Func? && f.parameters == Some([N])
    requires f.env < |h.frames| && FrameGet(h.frames, f.env, "factorial") == Some(f)
    ensures h.frames <= Called(f, k, h).frames && InBody(f, k, |h.frames|, Called(f, k, h))
    ensures FrameGet(Called(f, k, h).frames, f.env, "factorial") == Some(f)
  {
    CallScope(h.frames, f.env, [N], [Some(Integer(k))], "n");
    CallScope(h.frames, f.env, [N], [Some(Integer(k))], "factorial");
    ChainOfExtend(h.frames, Called(f, k, h).frames, f.env);
  }

  /** The function `factorial` applied to `k` yields `k!`, and the scopes that existed before
      the call are left as they were. */
  predicate Computes(f: Object, k: nat, h: Heap, fuel: nat) {
    var r := ApplyFunction(f, [Some(Integer(k))], h, fuel);
    r.Normal? && r.value == Some(Integer(Fact(k))) && h.frames <= r.heap.frames
  }

  /** `f` is the function the `let` binds, reachable as `factorial` from its own scope. */
  predicate IsFactorial(f: Object, h: Heap) {
    f.Func? && f.parameters == Some([N]) && f.body == FactorialBody
    && f.env < |h.frames| && FrameGet(h.frames, f.env, "factorial") == Some(f)
  }

  /** In the scope of a call of `f` on `k`, the body's one `if` yields `k!` and leaves the
      scopes that were there before the call. */
  predicate BodyYields(f: Object, k: nat, h: Heap, fuel: nat, h': Heap)
    requires f.Func?
  {
    EvalExpr(Choice, |h.frames|, Called(f, k, h), fuel) == Normal(Some(Integer(Fact(k))), h')
    && h.frames <= h'.frames
  }

  /** A call of `f` yields what its body's one `if` yields in the new scope, with the call
      itself taking one unit of fuel. */
  lemma BodyComputes(f: Object, k: nat, h: Heap, fuel: nat, h': Heap)
    requires IsFactorial(f, h)
    requires BodyYields(f, k, h, fuel, h')
    ensures Computes(f, k, h, fuel + 1)
  {
    SingleStatementBlock(FactorialBody.statements[0], |h.frames|, Called(f, k, h), fuel, Integer(Fact(k)), h');
  }

  /** In the scope of a call on 0 the body yields `0! = 1`. */
  lemma BaseBody(f: Object, h: Heap, fuel: nat)
    requires IsFactorial(f, h)
    ensures BodyYields(f, 0, h, fuel, Called(f, 0, h))
  {
    FactorialScope(f, 0, h);
    BaseCase(|h.frames|, Called(f, 0, h), fuel);
  }

  /** In the scope of a call on `k > 0` the body yields `k!`, given that the recursive call
      yields `(k - 1)!`. */
  lemma StepBody(f: Object, k: nat, h: Heap, fuel: nat)
    requires IsFactorial(f, h) && k > 0
    requires Computes(f, k - 1, Called(f, k, h), fuel)
    ensures BodyYields(f, k, h, fuel, ApplyFunction(f, [Some(Integer(k - 1))], Called(f, k, h), fuel).heap)
  {
    FactorialScope(f, k, h);
    var h1 := Called(f, k, h);
    var r := ApplyFunction(f, [Some(Integer(k - 1))], h1, fuel);
    RecursiveCase(f, k, |h.frames|, h1, fuel, Fact(k - 1), r.heap);
  }

  /** The call on 0 computes 1 without recursing, given fuel for that one call. */
  lemma FactorialBase(f: Object, h: Heap, fuel: nat)
    requires IsFactorial(f, h)
    ensures Computes(f, 0, h, fuel + 1)
  {
    BaseBody(f, h, fuel);
    BodyComputes(f, 0, h, fuel, Called(f, 0, h));
  }

  /** The new scope keeps `factorial` reachable from the defining scope. */
  lemma CalledKeepsFactorial(f: Object, k: int, h: Heap)
    requires IsFactorial(f, h)
    ensures IsFactorial(f, Called(f, k, h))
  {
    BindFresh(h.frames, f.env, [N], [Some(Integer(k))]);
    ChainOfExtend(h.frames, Called(f, k, h).frames, f.env);
  }

  /** If the recursive call computes `(k - 1)!` then the call on `k`, given one more unit of
      fuel, computes `k!`. */
  lemma FactorialStep(f: Object, k: nat, h: Heap, fuel: nat)
    requires IsFactorial(f, h) && k > 0
    requires Computes(f, k - 1, Called(f, k, h), fuel)
    ensures Computes(f, k, h, fuel + 1)
  {
    StepBody(f, k, h, fuel);
    var r := ApplyFunction(f, [Some(Integer(k - 1))], Called(f, k, h), fuel);
    BodyComputes(f, k, h, fuel, r.heap);
  }

  /** The function `factorial` applied to `k` yields `k!`, given fuel for the `k + 1` nested
      calls; the scopes that existed before the call are left as they were. */
  lemma {:induction false} FactorialComputes(k: nat, f: Object, h: Heap, fuel: nat)
    requires IsFactorial(f, h) && fuel > k
    ensures Computes(f, k, h, fuel)
    decreases k, 1
  {
    if k == 0 {
      FactorialBase(f, h, fuel - 1);
    } else {
      FactorialInduct(k, f, h, fuel);
    }
  }

  /** The inductive case of `FactorialComputes`: the recursive call runs in the new scope. */
  lemma {:induction false} FactorialInduct(k: nat, f: Object, h: Heap, fuel: nat)
    requires IsFactorial(f, h) && fuel > k > 0
    ensures Computes(f, k, h, fuel)
    decreases k, 0
  {
    CalledKeepsFactorial(f, k, h);
    FactorialComputes(k - 1, f, Called(f, k, h), fuel - 1);
    FactorialStep(f, k, h, fuel - 1);
  }

  /** `let factorial = fn(n) { if (n == 0) { 1 } else { n * factorial(n - 1) } }; factorial(10);` */
  const FactorialProgram: seq<Statement> := [
    Let(Tokens.Token(Tokens.LET, "let"), Tokens.Token(Tokens.IDENT, "factorial"),
      FunctionLiteral(Tokens.Token(Tokens.FUNCTION, "fn"), Some([N]), FactorialBody)),
    ExpressionStatement(Tokens.Token(Tokens.IDENT, "factorial"),
      Call(Tokens.Token(Tokens.LPAREN, "("), Ident("factorial"), Ast.ListOf([Int(10)])))
  ]

  /** The `let` binds `factorial` in the outermost scope and yields `undefined`. */
  lemma LetFactorial(fuel: nat)
    ensures var f := Func(0, Some([N]), FactorialBody, 0);
      var r := EvalStmt(FactorialProgram[0], 0, EmptyHeap, fuel);
      r.Normal? && r.value.None? && r.heap.frames == FrameSet(EmptyHeap.frames, 0, "factorial", Some(f))
      && FrameGet(r.heap.frames, 0, "factorial") == Some(f) && |r.heap.frames| == 1
  {
    FrameGetAfterSet(EmptyHeap.frames, 0, "factorial", Some(Func(0, Some([N]), FactorialBody, 0)));
  }

  /** `factorial(10)` applies the bound function to 10. */
  lemma CallTen(h: Heap, fuel: nat)
    requires EvalIdentifier("factorial", 0, h).Func?
    ensures EvalStmt(FactorialProgram[1], 0, h, fuel) ==
      ApplyFunction(EvalIdentifier("factorial", 0, h), [Some(Integer(10))], h, fuel)
  {
    EvalInt(10, 0, h, fuel);
    CallStep(Tokens.Token(Tokens.LPAREN, "("), Ident("factorial"), Int(10), 0, h, fuel);
  }

  /** The recursive program yields `undefined` for the `let` and 3628800 for the call, given
      fuel for the eleven nested calls. */
  lemma FactorialOfTen(fuel: nat)
    requires fuel > 10
    ensures var r := RunFrom(FactorialProgram, 0, 0, EmptyHeap, fuel, []);
      r.Normal? && r.value == [None, Some(Integer(3628800))]
  {
    var f := Func(0, Some([N]), FactorialBody, 0);
    LetFactorial(fuel);
    var h1 := EvalStmt(FactorialProgram[0], 0, EmptyHeap, fuel).heap;
    CallTen(h1, fuel);
    FactorialComputes(10, f, h1, fuel);
    assert EvalIdentifier("factorial", 0, h1) == f;
    var r := EvalStmt(FactorialProgram[1], 0, h1, fuel);
    assert r.Normal? && r.value == Some(Integer(Fact(10)));
    assert Fact(10) == 3628800;
    var none: seq<Value> := [None];
    assert [] + none == none;
    assert [None] + [Some(Integer(3628800))] == [None, Some(Integer(3628800))];
    assert RunFrom(FactorialProgram, 2, 0, r.heap, fuel, [None, Some(Integer(3628800))]) == Normal([None, Some(Integer(3628800))], r.heap);
    assert RunFrom(FactorialProgram, 1, 0, h1, fuel, [None]) == Normal([None, Some(Integer(3628800))], r.heap);
  }
}
