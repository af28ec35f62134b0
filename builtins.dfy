/** The native functions (lib/eval/builtins.ts). Each one first checks how many arguments it
    got, then the argument's class. An argument that is `undefined` passes the `instanceof`
    tests as "not an instance" and then crashes the error path on `undefined.type()`.

    The builtins build their results with `new`, so a result that is an object gets the next
    id; `rest` of an empty array returns the module's own `Null` instance, not the evaluator's.
    `pop` is the one builtin that changes an existing value: it shrinks the element list of
    the array it is given, which every array sharing that list sees. */
module Builtins {
  import opened Wrappers
  import opened Strings
  import opened Objects

  /** The `builtins` table: the names an identifier falls back to. */
  const BUILTINS: map<string, BuiltinName> :=
    map["len" := Len, "toLower" := ToLower, "toUpper" := ToUpper, "first" := First,
        "last" := Last, "rest" := Rest, "push" := Push, "pop" := Pop, "log" := Log]

  /** The argument count each builtin insists on. `log` takes any number. */
  function Arity(b: BuiltinName): nat {
    if b == Push then 2 else 1
  }

  /** `len`: the length of a string or the number of elements of an array. */
  function LenOf(arg: Object, h: Heap): (r: Object)
    ensures arg.String? ==> r == Integer(|arg.text|)
    ensures arg.Array? ==> r == Integer(|ListOf(h, arg.list)|)
    ensures !arg.String? && !arg.Array? ==> r == SupportErrorFor("len", arg)
  {
    match arg
    case String(_, s) => Integer(|s|)
    case Array(_, l) => Integer(|ListOf(h, l)|)
    case _ => SupportErrorFor("len", arg)
  }

  /** `toLower` and `toUpper`: a new string, case converted; anything else is unsupported. */
  function ConvertCase(b: BuiltinName, arg: Object, h: Heap): (r: Outcome<Option<Object>>)
    requires b == ToLower || b == ToUpper
    ensures r.Normal? && r.value.Some?
    ensures arg.String? ==> r.heap == Bump(h)
    ensures arg.String? ==>
      r.value == Some(String(h.nextId, if b == ToLower then Strings.ToLower(arg.text) else Strings.ToUpper(arg.text)))
    ensures !arg.String? ==> r == Normal(Some(SupportErrorFor(if b == ToLower then "toLower" else "toUpper", arg)), h)
  {
    if !arg.String? then Normal(Some(SupportErrorFor(if b == ToLower then "toLower" else "toUpper", arg)), h)
    else if b == ToLower then Normal(Some(String(h.nextId, Strings.ToLower(arg.text))), Bump(h))
    else Normal(Some(String(h.nextId, Strings.ToUpper(arg.text))), Bump(h))
  }

  /** `first` and `last`: an element of the array, `undefined` when it is empty. */
  function EndElement(b: BuiltinName, arg: Object, h: Heap): (r: Option<Object>)
    requires b == First || b == Last
    ensures !arg.Array? ==> r == Some(SupportErrorFor(if b == First then "first" else "last", arg))
    ensures arg.Array? && |ListOf(h, arg.list)| == 0 ==> r.None?
    ensures arg.Array? && |ListOf(h, arg.list)| > 0 ==>
      r == ListOf(h, arg.list)[if b == First then 0 else |ListOf(h, arg.list)| - 1]
  {
    if !arg.Array? then Some(SupportErrorFor(if b == First then "first" else "last", arg))
    else
      var elements := ListOf(h, arg.list);
      if |elements| == 0 then None
      else if b == First then elements[0]
      else elements[|elements| - 1]
  }

  /** `rest`: a new array of every element but the first, over a new list; the builtins' own
      `Null` for an empty array. */
  function RestOf(arg: Object, h: Heap): (r: Outcome<Option<Object>>)
    ensures r.Normal? && r.value.Some?
    ensures !arg.Array? ==> r == Normal(Some(SupportErrorFor("rest", arg)), h)
    ensures arg.Array? && |ListOf(h, arg.list)| == 0 ==> r == Normal(Some(Null(BuiltinsNull)), h)
    ensures arg.Array? && |ListOf(h, arg.list)| > 0 ==>
      r.value.value == Array(h.nextId, |h.lists|) && ListOf(r.heap, |h.lists|) == ListOf(h, arg.list)[1..]
      && |h.lists| < |r.heap.lists| && r.heap.lists[..|h.lists|] == h.lists
  {
    if !arg.Array? then Normal(Some(SupportErrorFor("rest", arg)), h)
    else
      var elements := ListOf(h, arg.list);
      if |elements| > 0 then
        var (a, h') := NewArray(h, elements[1..]);
        Normal(Some(a), h')
      else Normal(Some(Null(BuiltinsNull)), h)
  }

  /** `push`: a new array, over a new list, of the elements followed by the new one. */
  function PushOnto(arg: Object, x: Option<Object>, h: Heap): (r: Outcome<Option<Object>>)
    ensures r.Normal? && r.value.Some?
    ensures !arg.Array? ==> r == Normal(Some(SupportErrorFor("push", arg)), h)
    ensures arg.Array? ==>
      r.value.value == Array(h.nextId, |h.lists|) && ListOf(r.heap, |h.lists|) == ListOf(h, arg.list) + [x]
      && |h.lists| < |r.heap.lists| && r.heap.lists[..|h.lists|] == h.lists
  {
    if !arg.Array? then Normal(Some(SupportErrorFor("push", arg)), h)
    else
      var (a, h') := NewArray(h, ListOf(h, arg.list) + [x]);
      Normal(Some(a), h')
  }

  /** `pop`: drops the last element of the argument's own list, in place, and returns a new
      array over that same list. */
  function PopFrom(arg: Object, h: Heap): (r: Outcome<Option<Object>>)
    ensures r.Normal? && r.value.Some?
    ensures !arg.Array? ==> r == Normal(Some(SupportErrorFor("pop", arg)), h)
    ensures arg.Array? ==> r.value.value == Array(h.nextId, arg.list)
    ensures arg.Array? ==> |r.heap.lists| == |h.lists|
    ensures arg.Array? ==> forall l | 0 <= l < |h.lists| ::
      r.heap.lists[l] == (if l == arg.list && |h.lists[l]| > 0 then h.lists[l][..|h.lists[l]| - 1] else h.lists[l])
  {
    if !arg.Array? then Normal(Some(SupportErrorFor("pop", arg)), h)
    else
      var l := arg.list;
      var lists := if l < |h.lists| && |h.lists[l]| > 0 then h.lists[l := h.lists[l][..|h.lists[l]| - 1]] else h.lists;
      Normal(Some(Array(h.nextId, l)), Heap(h.frames, lists, h.nextId + 1))
  }

  /** Invoking builtin `b` on the evaluated arguments. The count is checked before anything
      else, a missing first argument crashes, and no builtin touches the scopes. */
  function Apply(b: BuiltinName, args: seq<Option<Object>>, h: Heap): (r: Outcome<Option<Object>>)
    ensures b != Log && |args| != Arity(b) ==> r == Normal(Some(ArgsErrorFor(|args|)), h)
    ensures b != Log && |args| == Arity(b) && args[0].None? ==> r == Stuck(HostTypeError)
    ensures b == Log ==> r == (if exists i | 0 <= i < |args| :: args[i].None? then Stuck(HostTypeError)
                               else Normal(Some(Null(BuiltinsNull)), h))
    ensures r.Normal? ==> r.heap.frames == h.frames && |h.lists| <= |r.heap.lists| && h.nextId <= r.heap.nextId
    ensures r.Normal? && b != Pop ==> r.heap.lists[..|h.lists|] == h.lists
  {
    if b == Log then
      if exists i | 0 <= i < |args| :: args[i].None? then Stuck(HostTypeError)
      else Normal(Some(Null(BuiltinsNull)), h)
    else if |args| != Arity(b) then Normal(Some(ArgsErrorFor(|args|)), h)
    else if args[0].None? then Stuck(HostTypeError)
    else
      var arg := args[0].value;
      match b
      case Len => Normal(Some(LenOf(arg, h)), h)
      case ToLower => ConvertCase(b, arg, h)
      case ToUpper => ConvertCase(b, arg, h)
      case First => Normal(EndElement(b, arg, h), h)
      case Last => Normal(EndElement(b, arg, h), h)
      case Rest => RestOf(arg, h)
      case Push => PushOnto(arg, args[1], h)
      case Pop => PopFrom(arg, h)
  }

  /** Every builtin but `log` answers a wrong count with the same message, whatever the
      argument is: `push` with one argument says `got=1, want=1`. */
  lemma ArityCheckedFirst(b: BuiltinName, args: seq<Option<Object>>, h: Heap)
    requires b != Log && |args| != Arity(b)
    ensures Apply(b, args, h).Normal? && Apply(b, args, h).heap == h
    ensures Apply(b, args, h).value == Some(ArgsErrorFor(|args|))
    ensures b == Push && |args| == 1 ==>
      Apply(b, args, h).value.value.message == Some("wrong number of arguments. got=1, want=1")
  {
    if b == Push && |args| == 1 {
      ArgsErrorsWantOne(1);
    }
  }

  /** `len(push(a, x))` is one more than `len(a)`, and `push` leaves `a` as it was. */
  lemma {:induction false} PushGrowsByOne(a: Object, x: Option<Object>, h: Heap)
    requires a.Array? && a.list < |h.lists|
    ensures var r := Apply(Push, [Some(a), x], h);
      r.Normal? && LenOf(r.value.value, r.heap) == Integer(|ListOf(h, a.list)| + 1)
      && ListOf(r.heap, a.list) == ListOf(h, a.list)
      && Apply(Last, [r.value], r.heap) == Normal(x, r.heap)
  {
    var r := Apply(Push, [Some(a), x], h);
    assert r == PushOnto(a, x, h);
    assert r.heap.lists[a.list] == r.heap.lists[..|h.lists|][a.list];
  }

  /** `rest` of a non-empty array has one element less and leaves the array as it was; `rest`
      of an empty array is a `Null` that is not the evaluator's. */
  lemma {:induction false} RestDropsFirst(a: Object, h: Heap)
    requires a.Array? && a.list < |h.lists|
    ensures var r := Apply(Rest, [Some(a)], h);
      r.Normal? && ListOf(r.heap, a.list) == ListOf(h, a.list)
      && (|ListOf(h, a.list)| > 0 ==> LenOf(r.value.value, r.heap) == Integer(|ListOf(h, a.list)| - 1))
      && (|ListOf(h, a.list)| == 0 ==> r.value == Some(Null(BuiltinsNull)) && r.value != Some(Null(EvalNull)))
  {
    var r := Apply(Rest, [Some(a)], h);
    assert r == RestOf(a, h);
    if |ListOf(h, a.list)| > 0 {
      assert r.heap.lists[a.list] == r.heap.lists[..|h.lists|][a.list];
    }
  }

  /** `pop(a)` shrinks `a` itself: afterwards `a` and the returned array both have one element
      less and share the same list. */
  lemma {:induction false} PopShrinksOriginal(a: Object, h: Heap)
    requires a.Array? && a.id < h.nextId && a.list < |h.lists| && |ListOf(h, a.list)| > 0
    ensures var r := Apply(Pop, [Some(a)], h);
      r.Normal? && r.value.value.Array? && r.value.value.list == a.list
      && r.value.value != a
      && LenOf(a, r.heap) == Integer(|ListOf(h, a.list)| - 1)
      && ListOf(r.heap, a.list) == ListOf(h, a.list)[..|ListOf(h, a.list)| - 1]
  {
    var r := Apply(Pop, [Some(a)], h);
    assert r == PopFrom(a, h);
  }
}
