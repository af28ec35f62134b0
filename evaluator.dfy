/** The tree-walking evaluator (lib/eval/Eval.ts) as functions over an explicit heap.

    An evaluation yields a `Value`: an object, or `None` for JavaScript's `undefined` (what a
    `let` statement, `first([])` or an array element read past a `pop` produce). Every step the
    source guards with `isError` stops on an `Error` object and crashes on `undefined`, because
    `isError` calls `type()` on it; a crash of the host program is `Stuck`.

    The scope a node is evaluated in is an index into the heap's frames; `let` and parameter
    binding write that frame, and a call appends a new frame enclosing the function's own.
    `fuel` bounds how deeply user functions may call one another: every application of a
    user function hands its body one unit less, and running out is `Stuck(FuelExhausted)`. */
module Evaluator {
  import opened Wrappers
  import opened Strings
  import opened Tokens
  import opened Ast
  import opened ErrorTypes
  import opened Environments
  import opened Objects
  import Builtins

  /** An evaluated node: an object, or `undefined`. */
  type Value = Option<Object>
  type Result = Outcome<Value>

  /** A result that ends a block or a program early: a `ReturnValue` or an `Error`. */
  predicate Stops(v: Value) {
    v.Some? && (v.value.ReturnValue? || v.value.Error?)
  }

  /** The evaluator's own singletons. */
  const NULL: Object := Null(EvalNull)
  const TRUE: Object := Boolean(true)
  const FALSE: Object := Boolean(false)

  /** `booleanToBooleanObject`: one of the two singletons. */
  function NativeBool(b: bool): (o: Object)
    ensures o.Boolean? && o.truth == b
  {
    if b then TRUE else FALSE
  }

  /** `isTruthy`: only the evaluator's `NULL` and `FALSE` are false; every other object is true,
      including the builtins' own `Null`. */
  predicate IsTruthy(o: Object) {
    o != NULL && o != FALSE
  }

  /** `bangOperatorExpression`, by identity with the singletons. */
  function Bang(o: Object): (r: Object)
    ensures r == NativeBool(!IsTruthy(o))
  {
    if o == TRUE then FALSE
    else if o == FALSE then TRUE
    else if o == NULL then TRUE
    else FALSE
  }

  /** A sub-evaluation after which the caller's `isError` guard returns: it crashed, it gave
      `undefined` (on which `isError` itself crashes), or it gave an `Error`. */
  predicate Halts(r: Result) {
    r.Stuck? || r.value.None? || r.value.value.Error?
  }

  /** What the guarded caller returns in that case. */
  function Halt(r: Result): (r': Result)
    requires Halts(r)
    ensures r'.Stuck? <==> r.Stuck? || r.value.None?
    ensures r'.Normal? ==> r' == r && r.value.value.Error?
  {
    if r.Normal? && r.value.None? then Stuck(HostTypeError) else r
  }

  /** The `${left.type()} ${operator} ${right.type()}` text of operator and mismatch errors. */
  function OperandText(op: string, left: Object, right: Object): string {
    TypeText(left) + " " + op + " " + TypeText(right)
  }

  /** `evalIntegerInfixExpression`. Numbers are JavaScript doubles: `/` yields a fraction,
      an infinity or NaN unless it divides exactly, and the model stops there. */
  function EvalIntegerInfix(op: string, x: int, y: int, h: Heap): (r: Result)
    ensures op == "/" && (y == 0 || x % y != 0) <==> r.Stuck?
    ensures r.Normal? ==> r.heap == h && r.value.Some?
    ensures op == "+" ==> r.value == Some(Integer(x + y))
    ensures op == "-" ==> r.value == Some(Integer(x - y))
    ensures op == "*" ==> r.value == Some(Integer(x * y))
    ensures op == "/" && y != 0 && x % y == 0 ==> r.value == Some(Integer(x / y)) && (x / y) * y == x
    ensures op == "<" ==> r.value == Some(NativeBool(x < y))
    ensures op == ">" ==> r.value == Some(NativeBool(x > y))
    ensures op == "==" ==> r.value == Some(NativeBool(x == y))
    ensures op == "!=" ==> r.value == Some(NativeBool(x != y))
    ensures op !in {"+", "-", "*", "/", "<", ">", "==", "!="} ==>
      r.value == Some(NewError(OperatorError, OperandText(op, Integer(x), Integer(y))))
  {
    if op == "+" then Normal(Some(Integer(x + y)), h)
    else if op == "-" then Normal(Some(Integer(x - y)), h)
    else if op == "*" then Normal(Some(Integer(x * y)), h)
    else if op == "/" then
      if y == 0 || x % y != 0 then Stuck(NonIntegerNumber) else Normal(Some(Integer(x / y)), h)
    else if op == "<" then Normal(Some(NativeBool(x < y)), h)
    else if op == ">" then Normal(Some(NativeBool(x > y)), h)
    else if op == "==" then Normal(Some(NativeBool(x == y)), h)
    else if op == "!=" then Normal(Some(NativeBool(x != y)), h)
    else Normal(Some(NewError(OperatorError, OperandText(op, Integer(x), Integer(y)))), h)
  }

  /** `evalStringInfixExpression`: only `+` is defined, and it builds a new string. */
  function EvalStringInfix(op: string, left: Object, right: Object, h: Heap): (r: Result)
    requires left.String? && right.String?
    ensures r.Normal? && r.value.Some?
    ensures op == "+" ==> r == Normal(Some(String(h.nextId, left.text + right.text)), Bump(h))
    ensures op != "+" ==> r == Normal(Some(NewError(OperatorError, OperandText(op, left, right))), h)
  {
    if op != "+" then Normal(Some(NewError(OperatorError, OperandText(op, left, right))), h)
    else Normal(Some(String(h.nextId, left.text + right.text)), Bump(h))
  }

  /** `evalInfixExpression`: integers first; then `==` and `!=` compare identities, whatever
      the operands are; then strings; then a type mismatch or an unknown operator. */
  function EvalInfix(op: string, left: Object, right: Object, h: Heap): (r: Result)
    ensures !(left.Integer? && right.Integer?) ==> r.Normal? && r.value.Some?
    ensures left.Integer? && right.Integer? ==> r == EvalIntegerInfix(op, left.value, right.value, h)
    ensures !(left.Integer? && right.Integer?) && op == "==" ==> r == Normal(Some(NativeBool(left == right)), h)
    ensures !(left.Integer? && right.Integer?) && op == "!=" ==> r == Normal(Some(NativeBool(left != right)), h)
    ensures !(left.Integer? && right.Integer?) && op != "==" && op != "!=" && left.String? && right.String? ==>
      r == EvalStringInfix(op, left, right, h)
    ensures !(left.String? && right.String?) && op != "==" && op != "!=" && TypeOf(left) != TypeOf(right) ==>
      r == Normal(Some(NewError(MismatchError, OperandText(op, left, right))), h)
    ensures (!(left.Integer? && right.Integer?) && !(left.String? && right.String?) && op != "==" && op != "!=" &&
             TypeOf(left) == TypeOf(right)) ==>
      r == Normal(Some(NewError(OperatorError, OperandText(op, left, right))), h)
  {
    if left.Integer? && right.Integer? then EvalIntegerInfix(op, left.value, right.value, h)
    else if op == "==" then Normal(Some(NativeBool(left == right)), h)
    else if op == "!=" then Normal(Some(NativeBool(left != right)), h)
    else if left.String? && right.String? then EvalStringInfix(op, left, right, h)
    else if TypeOf(left) != TypeOf(right) then Normal(Some(NewError(MismatchError, OperandText(op, left, right))), h)
    else Normal(Some(NewError(OperatorError, OperandText(op, left, right))), h)
  }

  /** `evalPrefixExpression`: `!` by truthiness, `-` on integers only. */
  function EvalPrefix(op: string, right: Object): (r: Object)
    ensures op == "!" ==> r == Bang(right)
    ensures op == "-" && right.Integer? ==> r == Integer(-right.value)
    ensures op == "-" && !right.Integer? ==> r == NewError(OperatorError, "-" + TypeText(right))
    ensures op != "!" && op != "-" ==> r == NewError(OperatorError, op + " " + TypeText(right))
  {
    if op == "!" then Bang(right)
    else if op == "-" then
      if right.Integer? then Integer(-right.value) else NewError(OperatorError, "-" + TypeText(right))
    else NewError(OperatorError, op + " " + TypeText(right))
  }

  /** `evalIndexExpression`: an array by an integer position (`NULL` outside the elements), a
      hash by a usable key (`NULL` when absent); anything else cannot be indexed. */
  function EvalIndex(left: Object, index: Object, h: Heap): (r: Value)
    ensures left.Array? && index.Integer? && 0 <= index.value < |Objects.ListOf(h, left.list)| ==>
      r == Objects.ListOf(h, left.list)[index.value]
    ensures left.Array? && index.Integer? && !(0 <= index.value < |Objects.ListOf(h, left.list)|) ==> r == Some(NULL)
    ensures left.Hash? && !Hashable(index) ==> r == Some(NewError(UnusableError, TypeText(index)))
    ensures left.Hash? && Hashable(index) ==>
      r == (match MapGet(left.pairs, HashOf(index)) case None => Some(NULL) case Some(p) => Some(p.value))
    ensures !(left.Array? && index.Integer?) && !left.Hash? ==>
      r == Some(NewError(UndefinedError, "index operator not supported: " + TypeText(left)))
  {
    if left.Array? && index.Integer? then
      var elements := Objects.ListOf(h, left.list);
      if index.value < 0 || index.value > |elements| - 1 then Some(NULL) else elements[index.value]
    else if left.Hash? then
      if !Hashable(index) then Some(NewError(UnusableError, TypeText(index)))
      else match MapGet(left.pairs, HashOf(index))
        case None => Some(NULL)
        case Some(p) => Some(p.value)
    else Some(NewError(UndefinedError, "index operator not supported: " + TypeText(left)))
  }

  /** `evalIdentifier`: a defined binding in the scope chain, else the builtin of that name,
      else an error. */
  function EvalIdentifier(name: string, env: EnvId, h: Heap): (r: Object)
    ensures Lookup(ChainOf(h.frames, env), name).Some? ==> r == Lookup(ChainOf(h.frames, env), name).value
    ensures Lookup(ChainOf(h.frames, env), name).None? && name in Builtins.BUILTINS ==>
      r == Builtin(Builtins.BUILTINS[name])
    ensures Lookup(ChainOf(h.frames, env), name).None? && name !in Builtins.BUILTINS ==>
      r.Error? && r.message == Some("identifier not found: " + name)
  {
    var v := FrameGet(h.frames, env, name);
    if v.Some? then v.value
    else if name in Builtins.BUILTINS then Builtin(Builtins.BUILTINS[name])
    else NewError(IdentifierError, name)
  }

  /** The first `Error` among evaluated arguments, as `result.find` picks it. */
  function FirstError(vals: seq<Value>): (r: Option<Object>)
    ensures r.None? <==> forall i | 0 <= i < |vals| :: !(vals[i].Some? && vals[i].value.Error?)
    ensures r.Some? ==> r.value.Error?
  {
    if vals == [] then None
    else if vals[0].Some? && vals[0].value.Error? then vals[0]
    else FirstError(vals[1..])
  }

  /** The error `FirstError` finds sits at a position before which there is no error. */
  lemma {:induction false} FirstErrorIsFirst(vals: seq<Value>)
    requires FirstError(vals).Some?
    ensures exists i | 0 <= i < |vals| ::
      vals[i] == FirstError(vals) && forall j | 0 <= j < i :: !(vals[j].Some? && vals[j].value.Error?)
  {
    if !(vals[0].Some? && vals[0].value.Error?) {
      FirstErrorIsFirst(vals[1..]);
      var i :| 0 <= i < |vals[1..]| && vals[1..][i] == FirstError(vals[1..]) &&
        forall j | 0 <= j < i :: !(vals[1..][j].Some? && vals[1..][j].value.Error?);
      assert vals[i + 1] == FirstError(vals);
      assert forall j | 1 <= j < i + 1 :: vals[j] == vals[1..][j - 1];
    } else {
      assert vals[0] == FirstError(vals);
    }
  }

  /** What the caller does with the result of `evalExpressions`: the first error, if any, is
      returned; a single `undefined` crashes the `isError` check on it; otherwise the values
      are used. */
  predicate ListHalts(vals: seq<Value>) {
    FirstError(vals).Some? || (|vals| == 1 && vals[0].None?)
  }

  function ListHalt(vals: seq<Value>, h: Heap): (r: Result)
    requires ListHalts(vals)
    ensures r.Normal? <==> FirstError(vals).Some?
    ensures r.Normal? ==> r == Normal(FirstError(vals), h)
  {
    if FirstError(vals).Some? then Normal(FirstError(vals), h) else Stuck(HostTypeError)
  }

  /** `args[idx]`: `undefined` past the last argument. */
  function ArgAt(args: seq<Value>, k: nat): Value {
    if k < |args| then args[k] else None
  }

  /** `extendFunctionEnv`'s `parameters.map`: each parameter name is set, in order, to the
      argument in its position. */
  function Bind(fs: Frames<Object>, env: EnvId, params: seq<Token>, args: seq<Value>): (fs': Frames<Object>)
    ensures |fs'| == |fs|
    ensures forall i | 0 <= i < |fs| && i != env :: fs'[i] == fs[i]
    decreases |params|
  {
    if params == [] then fs
    else
      var k := |params| - 1;
      FrameSet(Bind(fs, env, params[..k], args), env, params[k].literal, ArgAt(args, k))
  }

  /** The store the parameter binding leaves in a new scope: every parameter name set, a later
      parameter of the same name overriding an earlier one. */
  function ParamStore(params: seq<Token>, args: seq<Value>): Store<Object>
    decreases |params|
  {
    if params == [] then map[]
    else
      var k := |params| - 1;
      ParamStore(params[..k], args)[params[k].literal := ArgAt(args, k)]
  }

  /** Evaluation only adds to the heap: no scope, element list or id is ever taken away. */
  predicate Grows(h: Heap, h': Heap) {
    |h.frames| <= |h'.frames| && |h.lists| <= |h'.lists| && h.nextId <= h'.nextId
  }

  /** The arguments of a call or the elements of an array literal. */
  predicate HasList(e: Expression) {
    (e.Call? && e.arguments.ListOf?) || (e.ArrayLiteral? && e.elements.ListOf?)
  }

  function Items(e: Expression): seq<Expression>
    requires HasList(e)
  {
    if e.Call? then e.arguments.items else e.elements.items
  }

  /** `evaluateNode` on an expression. */
  function EvalExpr(e: Expression, env: EnvId, h: Heap, fuel: nat): (r: Result)
    ensures r.Normal? ==> Grows(h, r.heap)
    ensures e.Missing? ==> r == Normal(Some(NULL), h)
    ensures e.Identifier? ==> r == Normal(Some(EvalIdentifier(e.token.literal, env, h)), h)
    ensures e.IntegerLiteral? ==> r == Normal(Some(Integer(DecimalValue(e.token.literal))), h)
    ensures e.BooleanLiteral? ==> r == Normal(Some(NativeBool(e.token.literal == "true")), h)
    ensures e.StringLiteral? ==> r == Normal(Some(String(h.nextId, e.token.literal)), Bump(h))
    ensures e.FunctionLiteral? ==> r == Normal(Some(Func(h.nextId, e.parameters, e.body, env)), Bump(h))
    decreases fuel, 1, e, 2
  {
    match e
    case Missing => Normal(Some(NULL), h)
    case Identifier(t) => Normal(Some(EvalIdentifier(t.literal, env, h)), h)
    case IntegerLiteral(t, _) => Normal(Some(Integer(DecimalValue(t.literal))), h)
    case BooleanLiteral(t, _) => Normal(Some(NativeBool(t.literal == "true")), h)
    case StringLiteral(t) => Normal(Some(String(h.nextId, t.literal)), Bump(h))
    case Prefix(_, _) => EvalPrefixNode(e, env, h, fuel)
    case Infix(_, _, _) => EvalInfixNode(e, env, h, fuel)
    case If(_, _, _, _) => EvalIfNode(e, env, h, fuel)
    case FunctionLiteral(_, parameters, body) => Normal(Some(Func(h.nextId, parameters, body, env)), Bump(h))
    case Call(_, _, _) => EvalCallNode(e, env, h, fuel)
    case ArrayLiteral(_, _) => EvalArrayNode(e, env, h, fuel)
    case Index(_, _, _) => EvalIndexNode(e, env, h, fuel)
    case HashLiteral(_, _) => EvalPairs(e, 0, env, h, fuel, [])
  }

  /** A prefix node: the operand, then the operator. */
  function EvalPrefixNode(e: Expression, env: EnvId, h: Heap, fuel: nat): (r: Result)
    requires e.Prefix?
    ensures r.Normal? ==> Grows(h, r.heap)
    ensures var x := EvalExpr(e.right, env, h, fuel);
      (Halts(x) ==> r == Halt(x)) &&
      (!Halts(x) ==> r == Normal(Some(EvalPrefix(e.token.literal, x.value.value)), x.heap))
    decreases fuel, 1, e, 1, 0
  {
    var r := EvalExpr(e.right, env, h, fuel);
    if Halts(r) then Halt(r) else Normal(Some(EvalPrefix(e.token.literal, r.value.value)), r.heap)
  }

  /** An infix node: the left operand, then the right one, then the operator. */
  function EvalInfixNode(e: Expression, env: EnvId, h: Heap, fuel: nat): (r: Result)
    requires e.Infix?
    ensures r.Normal? ==> Grows(h, r.heap)
    ensures var l := EvalExpr(e.left, env, h, fuel);
      Halts(l) ==> r == Halt(l)
    ensures var l := EvalExpr(e.left, env, h, fuel);
      !Halts(l) ==>
        var x := EvalExpr(e.right, env, l.heap, fuel);
        (Halts(x) ==> r == Halt(x)) &&
        (!Halts(x) ==> r == EvalInfix(e.token.literal, l.value.value, x.value.value, x.heap))
    decreases fuel, 1, e, 1, 0
  {
    var l := EvalExpr(e.left, env, h, fuel);
    if Halts(l) then Halt(l)
    else
      var r := EvalExpr(e.right, env, l.heap, fuel);
      if Halts(r) then Halt(r) else EvalInfix(e.token.literal, l.value.value, r.value.value, r.heap)
  }

  /** `evalIfExpression`. */
  function EvalIfNode(e: Expression, env: EnvId, h: Heap, fuel: nat): (r: Result)
    requires e.If?
    ensures r.Normal? ==> Grows(h, r.heap)
    ensures var c := EvalExpr(e.condition, env, h, fuel);
      (Halts(c) ==> r == Halt(c)) &&
      (!Halts(c) && !IsTruthy(c.value.value) && e.alternative.None? ==> r == Normal(Some(NULL), c.heap))
    decreases fuel, 1, e, 1, 0
  {
    var c := EvalExpr(e.condition, env, h, fuel);
    if Halts(c) then Halt(c)
    else if IsTruthy(c.value.value) then EvalBlock(e.consequence, env, c.heap, fuel)
    else if e.alternative.Some? then EvalBlock(e.alternative.value, env, c.heap, fuel)
    else Normal(Some(NULL), c.heap)
  }

  /** A call node: the callee, then the arguments, then the application. */
  function EvalCallNode(e: Expression, env: EnvId, h: Heap, fuel: nat): (r: Result)
    requires e.Call?
    ensures r.Normal? ==> Grows(h, r.heap)
    ensures var f := EvalExpr(e.callee, env, h, fuel);
      Halts(f) ==> r == Halt(f)
    ensures var f := EvalExpr(e.callee, env, h, fuel);
      !Halts(f) && e.arguments.NoList? ==> r == Stuck(HostTypeError)
    ensures var f := EvalExpr(e.callee, env, h, fuel);
      !Halts(f) && e.arguments.ListOf? ==>
        var a := EvalList(e, 0, env, f.heap, fuel);
        (a.Stuck? ==> r == Stuck(a.reason)) &&
        (a.Normal? && FirstError(a.value).Some? ==> r == Normal(FirstError(a.value), a.heap)) &&
        (a.Normal? && FirstError(a.value).None? && |a.value| == 1 && a.value[0].None? ==> r == Stuck(HostTypeError)) &&
        (a.Normal? && !ListHalts(a.value) ==> r == ApplyFunction(f.value.value, a.value, a.heap, fuel))
    decreases fuel, 1, e, 1, 0
  {
    var f := EvalExpr(e.callee, env, h, fuel);
    if Halts(f) then Halt(f)
    else if e.arguments.NoList? then Stuck(HostTypeError)
    else
      var a := EvalList(e, 0, env, f.heap, fuel);
      if a.Stuck? then Stuck(a.reason)
      else if ListHalts(a.value) then ListHalt(a.value, a.heap)
      else ApplyFunction(f.value.value, a.value, a.heap, fuel)
  }

  /** An array literal: the elements, then a new array over a new list. */
  function EvalArrayNode(e: Expression, env: EnvId, h: Heap, fuel: nat): (r: Result)
    requires e.ArrayLiteral?
    ensures r.Normal? ==> Grows(h, r.heap)
    ensures e.elements.NoList? ==> r == Stuck(HostTypeError)
    ensures e.elements.ListOf? ==>
      var a := EvalList(e, 0, env, h, fuel);
      (a.Stuck? ==> r == Stuck(a.reason)) &&
      (a.Normal? && FirstError(a.value).Some? ==> r == Normal(FirstError(a.value), a.heap)) &&
      (a.Normal? && FirstError(a.value).None? && |a.value| == 1 && a.value[0].None? ==> r == Stuck(HostTypeError)) &&
      (a.Normal? && !ListHalts(a.value) ==>
        r.Normal? && r.value == Some(Array(a.heap.nextId, |a.heap.lists|)) &&
        Objects.ListOf(r.heap, |a.heap.lists|) == a.value && r.heap.lists[..|a.heap.lists|] == a.heap.lists)
    decreases fuel, 1, e, 1, 0
  {
    if e.elements.NoList? then Stuck(HostTypeError)
    else
      var a := EvalList(e, 0, env, h, fuel);
      if a.Stuck? then Stuck(a.reason)
      else if ListHalts(a.value) then ListHalt(a.value, a.heap)
      else
        var (arr, h') := NewArray(a.heap, a.value);
        Normal(Some(arr), h')
  }

  /** An index node: the indexed value, then the index, then the lookup. */
  function EvalIndexNode(e: Expression, env: EnvId, h: Heap, fuel: nat): (r: Result)
    requires e.Index?
    ensures r.Normal? ==> Grows(h, r.heap)
    ensures var l := EvalExpr(e.left, env, h, fuel);
      Halts(l) ==> r == Halt(l)
    ensures var l := EvalExpr(e.left, env, h, fuel);
      !Halts(l) ==>
        var x := EvalExpr(e.index, env, l.heap, fuel);
        (Halts(x) ==> r == Halt(x)) &&
        (!Halts(x) ==> r == Normal(EvalIndex(l.value.value, x.value.value, x.heap), x.heap))
    decreases fuel, 1, e, 1, 0
  {
    var l := EvalExpr(e.left, env, h, fuel);
    if Halts(l) then Halt(l)
    else
      var i := EvalExpr(e.index, env, l.heap, fuel);
      if Halts(i) then Halt(i) else Normal(EvalIndex(l.value.value, i.value.value, i.heap), i.heap)
  }

  /** `evalExpressions`' `map`: every item evaluated in order, each in the heap the previous
      one left; a crash ends the whole list. */
  function EvalList(e: Expression, i: nat, env: EnvId, h: Heap, fuel: nat): (r: Outcome<seq<Value>>)
    requires HasList(e) && i <= |Items(e)|
    ensures r.Normal? ==> |r.value| == |Items(e)| - i && Grows(h, r.heap)
    ensures i < |Items(e)| ==>
      var x := EvalExpr(Items(e)[i], env, h, fuel);
      (x.Stuck? ==> r == Stuck(x.reason)) &&
      (x.Normal? ==> r.Stuck? || r.value[0] == x.value)
    decreases fuel, 1, e, 0, |Items(e)| - i
  {
    if i == |Items(e)| then Normal([], h)
    else
      var x := if e.Call? then EvalExpr(e.arguments.items[i], env, h, fuel)
               else EvalExpr(e.elements.items[i], env, h, fuel);
      if x.Stuck? then Stuck(x.reason)
      else
        var rest := EvalList(e, i + 1, env, x.heap, fuel);
        if rest.Stuck? then Stuck(rest.reason) else Normal([x.value] + rest.value, rest.heap)
  }

  /** `evalHashLiteral` from pair `i` on: each key is evaluated and checked for usability
      before its value is evaluated; a later key with the same hash replaces the pair in its
      place. The hash object is made once every pair is in. */
  function EvalPairs(e: Expression, i: nat, env: EnvId, h: Heap, fuel: nat, acc: seq<(int, HashPair)>): (r: Result)
    requires e.HashLiteral? && i <= |e.pairs|
    ensures r.Normal? ==> Grows(h, r.heap)
    ensures i == |e.pairs| ==> r == Normal(Some(Hash(h.nextId, acc)), Bump(h))
    ensures i < |e.pairs| ==>
      var k := EvalExpr(e.pairs[i].0, env, h, fuel);
      (Halts(k) ==> r == Halt(k)) &&
      (!Halts(k) && !Hashable(k.value.value) ==>
        r == Normal(Some(NewError(UnusableError, TypeText(k.value.value))), k.heap))
    ensures r.Normal? ==> r.value.Some? && (r.value.value.Error? || r.value.value.Hash?)
    ensures r.Normal? && r.value.value.Hash? ==>
      Keys(acc) <= Keys(r.value.value.pairs) &&
      |r.value.value.pairs| <= |acc| + |e.pairs| - i &&
      (KeysUnique(acc) ==> KeysUnique(r.value.value.pairs))
    decreases fuel, 1, e, 0, |e.pairs| - i
  {
    if i == |e.pairs| then Normal(Some(Hash(h.nextId, acc)), Bump(h))
    else
      var k := EvalExpr(e.pairs[i].0, env, h, fuel);
      if Halts(k) then Halt(k)
      else if !Hashable(k.value.value) then
        Normal(Some(NewError(UnusableError, TypeText(k.value.value))), k.heap)
      else
        var v := EvalExpr(e.pairs[i].1, env, k.heap, fuel);
        if Halts(v) then Halt(v)
        else
          var key := k.value.value;
          var acc' := MapSet(acc, HashOf(key), HashPair(key, v.value.value));
          MapGetAfterSet(acc, HashOf(key), HashPair(key, v.value.value));
          EvalPairs(e, i + 1, env, v.heap, fuel, acc')
  }

  /** `evaluateNode` on a block statement. */
  function EvalBlock(b: Block, env: EnvId, h: Heap, fuel: nat): (r: Result)
    ensures r.Normal? ==> Grows(h, r.heap)
    ensures r.Normal? ==> r.value.Some?
    ensures b.statements == [] ==> r == Normal(Some(NULL), h)
    ensures b.statements != [] ==>
      var x := EvalStmt(b.statements[0], env, h, fuel);
      x.Stuck? || Stops(x.value) ==> r == x
    decreases fuel, 1, b, 2
  {
    EvalStatements(b, 0, env, h, fuel, NULL)
  }

  /** `evalStatements` from statement `i` on, `last` being the latest defined result so far:
      a `ReturnValue` or an `Error` ends the block as it is; `undefined` leaves `last`. */
  function EvalStatements(b: Block, i: nat, env: EnvId, h: Heap, fuel: nat, last: Object): (r: Result)
    requires i <= |b.statements|
    ensures r.Normal? ==> Grows(h, r.heap)
    ensures r.Normal? ==> r.value.Some?
    ensures i == |b.statements| ==> r == Normal(Some(last), h)
    ensures i < |b.statements| ==>
      var x := EvalStmt(b.statements[i], env, h, fuel);
      x.Stuck? || Stops(x.value) ==> r == x
    decreases fuel, 1, b, 0, |b.statements| - i
  {
    if i == |b.statements| then Normal(Some(last), h)
    else
      var r := EvalStmt(b.statements[i], env, h, fuel);
      if r.Stuck? then r
      else if Stops(r.value) then r
      else EvalStatements(b, i + 1, env, r.heap, fuel, if r.value.Some? then r.value.value else last)
  }

  /** `evaluateNode` on a statement: `let` sets the name in the current scope and yields
      `undefined`; `return` wraps its value in a new `ReturnValue`. */
  function EvalStmt(s: Statement, env: EnvId, h: Heap, fuel: nat): (r: Result)
    ensures r.Normal? ==> Grows(h, r.heap)
    ensures s.Return? ==>
      var v := EvalExpr(s.value, env, h, fuel);
      (Halts(v) ==> r == Halt(v)) &&
      (!Halts(v) ==> r == Normal(Some(ReturnValue(v.heap.nextId, v.value.value)), Bump(v.heap)))
    ensures s.Let? ==>
      var v := EvalExpr(s.value, env, h, fuel);
      (Halts(v) ==> r == Halt(v)) &&
      (!Halts(v) ==> r.Normal? && r.value.None? && r.heap.lists == v.heap.lists && r.heap.nextId == v.heap.nextId &&
                     r.heap.frames == FrameSet(v.heap.frames, env, s.name.literal, v.value))
    decreases fuel, 1, s, 2
  {
    match s
    case ExpressionStatement(_, x) => EvalExpr(x, env, h, fuel)
    case Return(_, x) =>
      var v := EvalExpr(x, env, h, fuel);
      if Halts(v) then Halt(v) else Normal(Some(ReturnValue(v.heap.nextId, v.value.value)), Bump(v.heap))
    case Let(_, name, x) =>
      var v := EvalExpr(x, env, h, fuel);
      if Halts(v) then Halt(v)
      else Normal(None, v.heap.(frames := FrameSet(v.heap.frames, env, name.literal, v.value)))
  }

  /** `applyFunction`: a user function runs its body in a new scope enclosing its own, with
      the parameters bound, and a `ReturnValue` it yields is unwrapped; a builtin gets the
      arguments as they are; anything else is not a function. */
  function ApplyFunction(f: Object, args: seq<Value>, h: Heap, fuel: nat): (r: Result)
    ensures r.Normal? ==> Grows(h, r.heap)
    ensures f.Func? && f.parameters.None? ==> r == Stuck(HostTypeError)
    ensures f.Func? && f.parameters.Some? && fuel == 0 ==> r == Stuck(FuelExhausted)
    ensures f.Func? && f.parameters.Some? && fuel > 0 ==>
      r == Unwrap(EvalBlock(f.body, |h.frames|,
                            h.(frames := Bind(Enclose(h.frames, f.env), |h.frames|, f.parameters.value, args)), fuel - 1))
    ensures f.Builtin? ==> r == Builtins.Apply(f.name, args, h)
    ensures !f.Func? && !f.Builtin? ==> r == Normal(Some(NewError(FunctionError, TypeText(f))), h)
    decreases fuel, 0
  {
    match f
    case Func(_, parameters, body, fenv) =>
      if parameters.None? then Stuck(HostTypeError)
      else if fuel == 0 then Stuck(FuelExhausted)
      else
        var env := |h.frames|;
        var frames := Bind(Enclose(h.frames, fenv), env, parameters.value, args);
        var r := EvalBlock(body, env, h.(frames := frames), fuel - 1);
        Unwrap(r)
    case Builtin(b) => Builtins.Apply(b, args, h)
    case _ => Normal(Some(NewError(FunctionError, TypeText(f))), h)
  }

  /** `unwrapReturnValue`. */
  function Unwrap(r: Result): (r': Result)
    ensures r.Normal? && r.value.Some? && r.value.value.ReturnValue? ==> r' == Normal(Some(r.value.value.wrapped), r.heap)
    ensures !(r.Normal? && r.value.Some? && r.value.value.ReturnValue?) ==> r' == r
  {
    if r.Normal? && r.value.Some? && r.value.value.ReturnValue? then Normal(Some(r.value.value.wrapped), r.heap) else r
  }

  // ----- evaluate: the program loop -----

  /** `evaluate` from statement `i` on, with the results collected so far: each result is
      pushed, `undefined` included, and a `ReturnValue` or `Error` replaces the whole list with
      itself and ends the run. */
  function RunFrom(stmts: seq<Statement>, i: nat, env: EnvId, h: Heap, fuel: nat, results: seq<Value>): Outcome<seq<Value>>
    requires i <= |stmts|
    decreases |stmts| - i
  {
    if i == |stmts| then Normal(results, h)
    else
      var r := EvalStmt(stmts[i], env, h, fuel);
      if r.Stuck? then Stuck(r.reason)
      else if Stops(r.value) then Normal([r.value], r.heap)
      else RunFrom(stmts, i + 1, env, r.heap, fuel, results + [r.value])
  }

  /** `evaluate(program, env)`. */
  method Evaluate(program: Program, env: EnvId, h: Heap, fuel: nat) returns (r: Outcome<seq<Value>>)
    ensures r == RunFrom(program.statements, 0, env, h, fuel, [])
  {
    var stmts := program.statements;
    var results: seq<Value> := [];
    var heap := h;
    var i := 0;
    while i < |stmts|
      invariant 0 <= i <= |stmts|
      invariant RunFrom(stmts, 0, env, h, fuel, []) == RunFrom(stmts, i, env, heap, fuel, results)
      decreases |stmts| - i
    {
      var result := EvalStmt(stmts[i], env, heap, fuel);
      if result.Stuck? {
        return Stuck(result.reason);
      }
      if Stops(result.value) {
        return Normal([result.value], result.heap);
      }
      results := results + [result.value];
      heap := result.heap;
      i := i + 1;
    }
    return Normal(results, heap);
  }
}
