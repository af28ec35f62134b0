/** What the evaluator promises in general: how a call scope is built, what a block and a
    program yield, what `let` binds, and how operators treat identity, types and truthiness. */
module EvalProperties {
  import opened Wrappers
  import Tokens
  import opened Ast
  import opened Environments
  import opened Objects
  import opened Evaluator
  import Builtins

  // ----- scopes of calls -----

  /** A lookup through a store put in front of a chain. */
  lemma LookupCons<V>(s: Store<V>, chain: seq<Store<V>>, name: string)
    ensures Lookup([s] + chain, name) == if Local(s, name).Some? then Local(s, name) else Lookup(chain, name)
  {
    assert ([s] + chain)[1..] == chain;
  }

  /** Binding the parameters in a new enclosed scope amounts to appending one scope that holds
      the parameter store and encloses the function's own scope. */
  lemma {:induction false} BindFresh(fs: Frames<Object>, fenv: EnvId, params: seq<Tokens.Token>, args: seq<Value>)
    ensures Bind(Enclose(fs, fenv), |fs|, params, args) ==
      fs + [Frame(ParamStore(params, args), if fenv < |fs| then Some(fenv) else None)]
    decreases |params|
  {
    if params != [] {
      BindFresh(fs, fenv, params[..|params| - 1], args);
    }
  }

  /** A name no parameter carries is not in the parameter store. */
  lemma {:induction false} ParamStoreUnnamed(params: seq<Tokens.Token>, args: seq<Value>, name: string)
    requires forall j | 0 <= j < |params| :: params[j].literal != name
    ensures name !in ParamStore(params, args)
    decreases |params|
  {
    if params != [] {
      ParamStoreUnnamed(params[..|params| - 1], args, name);
    }
  }

  /** A parameter name holds the argument of its last occurrence, `undefined` when that
      position has no argument. */
  lemma {:induction false} ParamStoreLast(params: seq<Tokens.Token>, args: seq<Value>, k: nat)
    requires k < |params| && forall j | k < j < |params| :: params[j].literal != params[k].literal
    ensures Local(ParamStore(params, args), params[k].literal) == ArgAt(args, k)
    decreases |params|
  {
    var m := |params| - 1;
    if k < m {
      var init := params[..m];
      assert init[k] == params[k];
      ParamStoreLast(init, args, k);
    }
  }

  /** The scope a user function's body runs in is new, comes after every existing scope and
      leaves them as they were. A name no parameter carries resolves in the scope the function
      was defined in (lexical scoping); a parameter resolves to the argument at its last
      position, and, when that argument is `undefined`, falls through to the defining scope,
      because `get` skips undefined values. */
  lemma CallScope(fs: Frames<Object>, fenv: EnvId, params: seq<Tokens.Token>, args: seq<Value>, name: string)
    requires fenv < |fs|
    ensures var fs' := Bind(Enclose(fs, fenv), |fs|, params, args);
      |fs'| == |fs| + 1 && fs <= fs' &&
      ((forall j | 0 <= j < |params| :: params[j].literal != name) ==> FrameGet(fs', |fs|, name) == FrameGet(fs, fenv, name))
    ensures forall k | 0 <= k < |params| && params[k].literal == name && (forall j | k < j < |params| :: params[j].literal != name) ::
      FrameGet(Bind(Enclose(fs, fenv), |fs|, params, args), |fs|, name) ==
      (if ArgAt(args, k).Some? then ArgAt(args, k) else FrameGet(fs, fenv, name))
  {
    var fs' := Bind(Enclose(fs, fenv), |fs|, params, args);
    var store := ParamStore(params, args);
    BindFresh(fs, fenv, params, args);
    assert fs'[..|fs|] == fs;
    ChainOfExtend(fs, fs', fenv);
    assert ChainOf(fs', |fs|) == [store] + ChainOf(fs, fenv);
    LookupCons(store, ChainOf(fs, fenv), name);
    if forall j | 0 <= j < |params| :: params[j].literal != name {
      ParamStoreUnnamed(params, args, name);
    }
    forall k | 0 <= k < |params| && params[k].literal == name && (forall j | k < j < |params| :: params[j].literal != name)
      ensures FrameGet(fs', |fs|, name) == (if ArgAt(args, k).Some? then ArgAt(args, k) else FrameGet(fs, fenv, name))
    {
      ParamStoreLast(params, args, k);
    }
  }

  // ----- blocks, calls and programs -----

  /** The statements from `i` on, each run in the heap the previous one left, with every
      result kept and no early exit: the record stops short only after a crash. Blocks and
      programs alike are read against it. */
  function Trace(stmts: seq<Statement>, i: nat, env: EnvId, h: Heap, fuel: nat): (tr: seq<Result>)
    requires i <= |stmts|
    ensures |tr| <= |stmts| - i
    ensures forall k | 0 <= k < |tr| - 1 :: tr[k].Normal?
    ensures |tr| < |stmts| - i ==> tr != [] && tr[|tr| - 1].Stuck?
    decreases |stmts| - i
  {
    if i == |stmts| then []
    else
      var r := EvalStmt(stmts[i], env, h, fuel);
      if r.Stuck? then [r] else [r] + Trace(stmts, i + 1, env, r.heap, fuel)
  }

  /** A statement result that ends a block: a crash, a `ReturnValue` or an `Error`. */
  predicate Ends(r: Result) {
    r.Stuck? || Stops(r.value)
  }

  /** The index of the first result in `tr` that ends a block, or `|tr|` if none does. */
  function FirstEnd(tr: seq<Result>): (j: nat)
    ensures j <= |tr|
    ensures forall k | 0 <= k < j :: !Ends(tr[k])
    ensures j < |tr| ==> Ends(tr[j])
  {
    if tr == [] then 0 else if Ends(tr[0]) then 0 else 1 + FirstEnd(tr[1..])
  }

  /** The value of the last result in `tr` that is not `undefined`, or `last` if there is
      none. */
  function LastDefined(tr: seq<Result>, last: Object): Object
    requires forall k | 0 <= k < |tr| :: tr[k].Normal?
  {
    if tr == [] then last
    else if tr[|tr| - 1].value.Some? then tr[|tr| - 1].value.value
    else LastDefined(tr[..|tr| - 1], last)
  }

  /** The heap after the last result of `tr`, or `h` if there is none. */
  function FinalHeap(tr: seq<Result>, h: Heap): Heap
    requires forall k | 0 <= k < |tr| :: tr[k].Normal?
  {
    if tr == [] then h else tr[|tr| - 1].heap
  }

  /** A statement that does not crash is followed in the record by the rest of the block, run
      in the heap it left. */
  lemma TraceCons(stmts: seq<Statement>, i: nat, env: EnvId, h: Heap, fuel: nat)
    requires i < |stmts| && EvalStmt(stmts[i], env, h, fuel).Normal?
    ensures var x := EvalStmt(stmts[i], env, h, fuel);
      Trace(stmts, i, env, h, fuel) == [x] + Trace(stmts, i + 1, env, x.heap, fuel)
  {
  }

  /** `r` is what a block of `n` statements yields given their record `tr`: the first result
      that ends the block or, with none, the last defined value (`last` if there is none) in
      the heap the last statement left. */
  predicate Yields(tr: seq<Result>, r: Result, last: Object, h: Heap, n: nat) {
    (FirstEnd(tr) < |tr| ==> r == tr[FirstEnd(tr)]) &&
    (FirstEnd(tr) == |tr| ==>
      |tr| == n && r == Normal(Some(LastDefined(tr, last)), FinalHeap(tr, h)))
  }

  /** A first result that does not end the block passes on to the rest of the record. */
  lemma {:induction false} YieldsAfter(x: Result, rest: seq<Result>, r: Result, last: Object, h: Heap, n: nat)
    requires x.Normal? && !Ends(x)
    requires Yields(rest, r, if x.value.Some? then x.value.value else last, x.heap, n)
    ensures Yields([x] + rest, r, last, h, n + 1)
  {
    var tr := [x] + rest;
    assert tr[1..] == rest;
    assert FirstEnd(tr) == 1 + FirstEnd(rest);
    if FirstEnd(rest) < |rest| {
      assert tr[FirstEnd(tr)] == rest[FirstEnd(rest)];
    } else {
      LastDefinedCons(x, rest, last);
    }
  }

  /** Putting a result in front of the record moves the starting value to that result's value,
      if it is defined. */
  lemma {:induction false} LastDefinedCons(x: Result, rest: seq<Result>, last: Object)
    requires x.Normal? && forall k | 0 <= k < |rest| :: rest[k].Normal?
    ensures LastDefined([x] + rest, last) == LastDefined(rest, if x.value.Some? then x.value.value else last)
    decreases |rest|
  {
    var s := [x] + rest;
    if rest != [] && rest[|rest| - 1].value.None? {
      assert s[..|s| - 1] == [x] + rest[..|rest| - 1];
      LastDefinedCons(x, rest[..|rest| - 1], last);
    }
  }

  /** No result that ends a block is among the ones `LastDefined` picks from. */
  lemma {:induction false} LastDefinedContinues(tr: seq<Result>, last: Object)
    requires forall k | 0 <= k < |tr| :: tr[k].Normal? && !Ends(tr[k])
    requires !Stops(Some(last))
    ensures !Stops(Some(LastDefined(tr, last)))
    decreases |tr|
  {
    if tr != [] && tr[|tr| - 1].value.None? {
      LastDefinedContinues(tr[..|tr| - 1], last);
    }
  }

  /** A statement that does not end the block hands the rest of the block its heap and,
      if it is defined, its value as the latest result. */
  lemma StatementsStep(b: Block, i: nat, env: EnvId, h: Heap, fuel: nat, last: Object)
    requires i < |b.statements| && !Ends(EvalStmt(b.statements[i], env, h, fuel))
    ensures var x := EvalStmt(b.statements[i], env, h, fuel);
      EvalStatements(b, i, env, h, fuel, last) ==
      EvalStatements(b, i + 1, env, x.heap, fuel, if x.value.Some? then x.value.value else last)
  {
  }

  /** The record starts with the result of the statement at `i`. */
  lemma TraceHead(stmts: seq<Statement>, i: nat, env: EnvId, h: Heap, fuel: nat)
    requires i < |stmts|
    ensures var tr := Trace(stmts, i, env, h, fuel);
      tr != [] && tr[0] == EvalStmt(stmts[i], env, h, fuel)
  {
  }

  /** `evalStatements` from statement `i` on is the first result of the record that ends the
      block; with none, every statement has run and the block yields the last defined result,
      or `last`, in the heap the last statement left. */
  lemma {:induction false} StatementsRecord(b: Block, i: nat, env: EnvId, h: Heap, fuel: nat, last: Object)
    requires i <= |b.statements|
    ensures Yields(Trace(b.statements, i, env, h, fuel), EvalStatements(b, i, env, h, fuel, last), last, h, |b.statements| - i)
    decreases |b.statements| - i
  {
    if i < |b.statements| {
      var tr := Trace(b.statements, i, env, h, fuel);
      var r := EvalStatements(b, i, env, h, fuel, last);
      var x := EvalStmt(b.statements[i], env, h, fuel);
      TraceHead(b.statements, i, env, h, fuel);
      if !Ends(x) {
        var last' := if x.value.Some? then x.value.value else last;
        var rest := Trace(b.statements, i + 1, env, x.heap, fuel);
        StatementsRecord(b, i + 1, env, x.heap, fuel, last');
        TraceCons(b.statements, i, env, h, fuel);
        StatementsStep(b, i, env, h, fuel, last);
        YieldsAfter(x, rest, r, last, h, |b.statements| - i - 1);
      } else {
        YieldsFirst(x, tr, r, last, h, |b.statements| - i);
      }
    }
  }

  /** A record whose first result ends the block yields that result. */
  lemma YieldsFirst(x: Result, tr: seq<Result>, r: Result, last: Object, h: Heap, n: nat)
    requires tr != [] && tr[0] == x && Ends(x) && r == x
    ensures Yields(tr, r, last, h, n)
  {
    assert FirstEnd(tr) == 0;
  }

  /** `evalStatements` on a block: it yields exactly the first `ReturnValue`, `Error` or crash
      among its statements' results, at whatever position, and runs nothing after it; with none,
      it yields the last result that is not `undefined`, or `NULL`. A block ends with a
      `ReturnValue`, an `Error` or a crash exactly when one of its statements does. */
  lemma BlockStopsEarly(b: Block, env: EnvId, h: Heap, fuel: nat)
    ensures b.statements == [] ==> EvalBlock(b, env, h, fuel) == Normal(Some(NULL), h)
    ensures b.statements != [] && EvalStmt(b.statements[0], env, h, fuel).Normal? && Stops(EvalStmt(b.statements[0], env, h, fuel).value) ==>
      EvalBlock(b, env, h, fuel) == EvalStmt(b.statements[0], env, h, fuel)
    ensures var tr := Trace(b.statements, 0, env, h, fuel);
      var r := EvalBlock(b, env, h, fuel);
      (FirstEnd(tr) < |tr| ==> r == tr[FirstEnd(tr)]) &&
      (FirstEnd(tr) == |tr| ==>
        |tr| == |b.statements| && r == Normal(Some(LastDefined(tr, NULL)), FinalHeap(tr, h))) &&
      (Ends(r) <==> exists k | 0 <= k < |tr| :: Ends(tr[k]))
  {
    var tr := Trace(b.statements, 0, env, h, fuel);
    StatementsRecord(b, 0, env, h, fuel, NULL);
    if FirstEnd(tr) == |tr| {
      LastDefinedContinues(tr, NULL);
    }
  }

  /** A call of a user function never yields `undefined`. */
  lemma UserCallsDefined(f: Object, args: seq<Value>, h: Heap, fuel: nat)
    requires f.Func?
    ensures ApplyFunction(f, args, h, fuel).Normal? ==> ApplyFunction(f, args, h, fuel).value.Some?
  {
  }

  /** `let` binds the value in the current scope, leaves every other name of that scope as
      it was, and yields `undefined`. */
  lemma LetBinds(tok: Tokens.Token, name: Tokens.Token, x: Expression, env: EnvId, h: Heap, fuel: nat)
    requires env < |h.frames| && !Halts(EvalExpr(x, env, h, fuel))
    ensures var v := EvalExpr(x, env, h, fuel);
      var r := EvalStmt(Let(tok, name, x), env, h, fuel);
      r.Normal? && r.value.None? && FrameGet(r.heap.frames, env, name.literal) == v.value &&
      forall n | n != name.literal :: FrameGet(r.heap.frames, env, n) == FrameGet(v.heap.frames, env, n)
  {
    var v := EvalExpr(x, env, h, fuel);
    FrameGetAfterSet(v.heap.frames, env, name.literal, v.value);
  }

  /** A user binding of a builtin's name hides the builtin; an unbound builtin name is the
      builtin. */
  lemma IdentifierOrder(name: string, env: EnvId, h: Heap)
    ensures name in Builtins.BUILTINS && FrameGet(h.frames, env, name).Some? ==>
      EvalIdentifier(name, env, h) == FrameGet(h.frames, env, name).value
    ensures name == "len" && FrameGet(h.frames, env, name).None? ==> EvalIdentifier(name, env, h) == Builtin(Len)
  {
  }

  /** The callee is evaluated first: when it is an error, the arguments are never looked at. */
  lemma CalleeErrorFirst(tok: Tokens.Token, callee: Expression, arguments: ExpressionList, env: EnvId, h: Heap, fuel: nat)
    requires EvalExpr(callee, env, h, fuel).Normal? && EvalExpr(callee, env, h, fuel).value.Some?
    requires EvalExpr(callee, env, h, fuel).value.value.Error?
    ensures EvalExpr(Call(tok, callee, arguments), env, h, fuel) == EvalExpr(callee, env, h, fuel)
  {
  }

  /** Calling something that is neither a function nor a builtin is an error naming its type. */
  lemma NotAFunction(f: Object, args: seq<Value>, h: Heap, fuel: nat)
    requires !f.Func? && !f.Builtin?
    ensures ApplyFunction(f, args, h, fuel) == Normal(Some(Error(Some("not a function: " + TypeText(f)))), h)
  {
  }

  /** An infix node evaluates its left operand, then its right one in the heap the left one
      left, then applies the operator. */
  lemma InfixStep(tok: Tokens.Token, left: Expression, right: Expression, env: EnvId, h: Heap, fuel: nat)
    requires !Halts(EvalExpr(left, env, h, fuel))
    requires !Halts(EvalExpr(right, env, EvalExpr(left, env, h, fuel).heap, fuel))
    ensures var l := EvalExpr(left, env, h, fuel);
      var r := EvalExpr(right, env, l.heap, fuel);
      EvalExpr(Infix(tok, left, right), env, h, fuel) == EvalInfix(tok.literal, l.value.value, r.value.value, r.heap)
  {
  }

  /** A call with one argument: the callee, then the argument, then the application. */
  lemma CallStep(tok: Tokens.Token, callee: Expression, arg: Expression, env: EnvId, h: Heap, fuel: nat)
    requires !Halts(EvalExpr(callee, env, h, fuel))
    requires !Halts(EvalExpr(arg, env, EvalExpr(callee, env, h, fuel).heap, fuel))
    ensures var f := EvalExpr(callee, env, h, fuel);
      var a := EvalExpr(arg, env, f.heap, fuel);
      EvalExpr(Call(tok, callee, ListOf([arg])), env, h, fuel) == ApplyFunction(f.value.value, [a.value], a.heap, fuel)
  {
    var e := Call(tok, callee, ListOf([arg]));
    var f := EvalExpr(callee, env, h, fuel);
    var a := EvalExpr(arg, env, f.heap, fuel);
    assert Items(e) == [arg] && e.arguments.items[0] == arg;
    assert EvalList(e, 1, env, a.heap, fuel) == Normal([], a.heap);
    assert [a.value] + [] == [a.value];
    assert EvalList(e, 0, env, f.heap, fuel) == Normal([a.value], a.heap);
    assert [a.value][1..] == [];
    assert !ListHalts([a.value]);
    assert EvalExpr(e, env, h, fuel) == EvalCallNode(e, env, h, fuel);
  }

  /** A block of one statement whose result does not stop it yields that result. */
  lemma OneStatementBlock(tok: Tokens.Token, s: Statement, env: EnvId, h: Heap, fuel: nat)
    requires EvalStmt(s, env, h, fuel).Normal? && EvalStmt(s, env, h, fuel).value.Some?
    requires !Stops(EvalStmt(s, env, h, fuel).value)
    ensures EvalBlock(Block(tok, [s]), env, h, fuel) == EvalStmt(s, env, h, fuel)
  {
    var r := EvalStmt(s, env, h, fuel);
    assert EvalStatements(Block(tok, [s]), 1, env, r.heap, fuel, r.value.value) == r;
  }

  /** A program of one statement whose result does not stop it yields the list of that one
      result. */
  lemma OneStatementProgram(s: Statement, env: EnvId, h: Heap, fuel: nat)
    requires EvalStmt(s, env, h, fuel).Normal? && !Stops(EvalStmt(s, env, h, fuel).value)
    ensures var r := EvalStmt(s, env, h, fuel);
      RunFrom([s], 0, env, h, fuel, []) == Normal([r.value], r.heap)
  {
    var r := EvalStmt(s, env, h, fuel);
    assert [] + [r.value] == [r.value];
    assert RunFrom([s], 1, env, r.heap, fuel, [r.value]) == Normal([r.value], r.heap);
  }

  // ----- operators -----

  /** `true + false` is an unknown operator: both operands have the same type. */
  lemma UnknownOperator(h: Heap)
    ensures EvalInfix("+", TRUE, FALSE, h) == Normal(Some(Error(Some("unknown operator: BOOLEAN + BOOLEAN"))), h)
  {
    assert OperandText("+", TRUE, FALSE) == "BOOLEAN + BOOLEAN";
    assert "unknown operator: " + "BOOLEAN + BOOLEAN" == "unknown operator: BOOLEAN + BOOLEAN";
  }

  /** `1 + true` is a type mismatch: the types differ, whatever the operator. */
  lemma TypeMismatch(h: Heap)
    ensures EvalInfix("+", Integer(1), TRUE, h) == Normal(Some(Error(Some("type mismatch: INTEGER + BOOLEAN"))), h)
  {
    assert OperandText("+", Integer(1), TRUE) == "INTEGER + BOOLEAN";
    assert "type mismatch: " + "INTEGER + BOOLEAN" == "type mismatch: INTEGER + BOOLEAN";
  }

  /** `==` on anything but two integers is identity: two strings are equal only when they are
      the same object, whatever their text. */
  lemma EqualityIsIdentity(a: Object, b: Object, h: Heap)
    requires a.String? && b.String?
    ensures EvalInfix("==", a, b, h) == Normal(Some(NativeBool(a.id == b.id && a.text == b.text)), h)
    ensures EvalInfix("!=", a, b, h) == Normal(Some(NativeBool(!(a.id == b.id && a.text == b.text))), h)
  {
  }

  /** Only the evaluator's `NULL` and `FALSE` are false: the builtins' `Null` that `rest([])`
      returns is true, and `!` answers the opposite of truthiness. */
  lemma Truthiness()
    ensures !IsTruthy(NULL) && !IsTruthy(FALSE) && IsTruthy(TRUE)
    ensures IsTruthy(Null(BuiltinsNull))
    ensures Bang(Null(BuiltinsNull)) == FALSE && Bang(NULL) == TRUE && Bang(Integer(0)) == FALSE
  {
  }

  /** `if` picks the consequence for a truthy condition, else the alternative, else `NULL`. */
  lemma IfByTruthiness(tok: Tokens.Token, cond: Expression, cons: Block, alt: Option<Block>, env: EnvId, h: Heap, fuel: nat)
    requires !Halts(EvalExpr(cond, env, h, fuel))
    ensures var c := EvalExpr(cond, env, h, fuel);
      EvalExpr(If(tok, cond, cons, alt), env, h, fuel) ==
        if IsTruthy(c.value.value) then EvalBlock(cons, env, c.heap, fuel)
        else if alt.Some? then EvalBlock(alt.value, env, c.heap, fuel)
        else Normal(Some(NULL), c.heap)
  {
  }

  // ----- hash literals -----

  /** A key that cannot be hashed stops the literal before its value is evaluated. */
  lemma UnusableKeyFirst(e: Expression, env: EnvId, h: Heap, fuel: nat, acc: seq<(int, HashPair)>)
    requires e.HashLiteral? && |e.pairs| > 0
    requires !Halts(EvalExpr(e.pairs[0].0, env, h, fuel))
    requires !Hashable(EvalExpr(e.pairs[0].0, env, h, fuel).value.value)
    ensures var k := EvalExpr(e.pairs[0].0, env, h, fuel);
      EvalPairs(e, 0, env, h, fuel, acc) ==
        Normal(Some(Error(Some("unusable as hash key: " + TypeText(k.value.value)))), k.heap)
  {
  }

  /** A pair whose key and value both evaluate: the key's hash is set to the pair, replacing
      a pair of the same hash in its place, and the literal goes on with the next pair. */
  lemma HashPairStep(e: Expression, i: nat, env: EnvId, h: Heap, fuel: nat, acc: seq<(int, HashPair)>)
    requires e.HashLiteral? && i < |e.pairs|
    requires !Halts(EvalExpr(e.pairs[i].0, env, h, fuel))
    requires Hashable(EvalExpr(e.pairs[i].0, env, h, fuel).value.value)
    requires !Halts(EvalExpr(e.pairs[i].1, env, EvalExpr(e.pairs[i].0, env, h, fuel).heap, fuel))
    ensures var k := EvalExpr(e.pairs[i].0, env, h, fuel);
      var v := EvalExpr(e.pairs[i].1, env, k.heap, fuel);
      var acc' := MapSet(acc, HashOf(k.value.value), HashPair(k.value.value, v.value.value));
      EvalPairs(e, i, env, h, fuel, acc) == EvalPairs(e, i + 1, env, v.heap, fuel, acc')
      && MapGet(acc', HashOf(k.value.value)) == Some(HashPair(k.value.value, v.value.value))
  {
    var k := EvalExpr(e.pairs[i].0, env, h, fuel);
    var v := EvalExpr(e.pairs[i].1, env, k.heap, fuel);
    MapGetAfterSet(acc, HashOf(k.value.value), HashPair(k.value.value, v.value.value));
  }

  // ----- array literals -----

  /** The array an array literal makes reads back as its elements: `len` of it is the number
      of elements, and indexing it at `k` gives the value element `k` evaluated to. An array
      comes out only when no element is an `Error`. */
  lemma ArrayLiteralReadsBack(e: Expression, env: EnvId, h: Heap, fuel: nat)
    requires e.ArrayLiteral? && e.elements.ListOf?
    ensures var r := EvalArrayNode(e, env, h, fuel);
      var a := EvalList(e, 0, env, h, fuel);
      r.Normal? && r.value.Some? && r.value.value.Array? ==>
        a.Normal? && FirstError(a.value).None? &&
        Builtins.LenOf(r.value.value, r.heap) == Integer(|e.elements.items|) &&
        forall k | 0 <= k < |e.elements.items| :: EvalIndex(r.value.value, Integer(k), r.heap) == a.value[k]
  {
  }
}
