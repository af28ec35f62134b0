/** Runtime values (lib/object/object.ts) and the heap the evaluator threads through.

    Object identity matters in this language (`==` on non-integers compares references), so
    every value the source creates with `new` and later compares carries an allocation id from
    the heap counter; two values are the same object exactly when they are equal as Dafny
    values. The two `Boolean` instances are singletons, so their value is their identity;
    there are two `Null` instances, the evaluator's and the builtins' own. An `Integer` never
    reaches an identity test (two integers are compared by value, an integer against anything
    else is always a different object), so it carries no id. An `Error` never reaches one
    either: every operation returns it before comparing.

    An `Array` refers to an element list kept in the heap, because `pop` shrinks that list in
    place and every array sharing it sees the change. Its elements may be `undefined`
    (`None`), which is what `first` of an empty array yields. A closure refers to the scope
    it was created in by its index in the heap's frames. */
module Objects {
  import opened Wrappers
  import opened Strings
  import opened Tokens
  import opened Ast
  import opened ErrorTypes
  import opened Environments

  /** `ObjectType` (@types/object.d.ts). */
  datatype ObjectType =
    | INTEGER_OBJ | BOOLEAN_OBJ | NULL_OBJ | RETURN_VALUE_OBJ | ERROR_OBJ
    | FUNCTION_OBJ | STRING_OBJ | BUILTIN_OBJ | ARRAY_OBJ | HASH_OBJ

  /** The string value of each `ObjectType` member, as error messages print it. */
  function TypeName(t: ObjectType): string {
    match t
    case INTEGER_OBJ => "INTEGER"
    case BOOLEAN_OBJ => "BOOLEAN"
    case NULL_OBJ => "NULL"
    case RETURN_VALUE_OBJ => "RETURN_VALUE"
    case ERROR_OBJ => "ERROR"
    case FUNCTION_OBJ => "FUNCTION"
    case STRING_OBJ => "STRING"
    case BUILTIN_OBJ => "BUILTIN"
    case ARRAY_OBJ => "ARRAY"
    case HASH_OBJ => "HASH"
  }

  type ObjId = nat
  type EnvId = nat
  type ListId = nat

  /** The entries of the `builtins` table (lib/eval/builtins.ts). */
  datatype BuiltinName = Len | ToLower | ToUpper | First | Last | Rest | Push | Pop | Log

  /** Which `new Null()` a null value is: the evaluator's `NULL` or the builtins' own. */
  datatype NullInstance = EvalNull | BuiltinsNull

  datatype Object =
    | Integer(value: int)
    | Boolean(truth: bool)
    | Null(instance: NullInstance)
    | ReturnValue(id: ObjId, wrapped: Object)
    | Error(message: Option<string>)
    | Func(id: ObjId, parameters: Option<seq<Token>>, body: Block, env: EnvId)
    | String(id: ObjId, text: string)
    | Builtin(name: BuiltinName)
    | Array(id: ObjId, list: ListId)
    | Hash(id: ObjId, pairs: seq<(int, HashPair)>)

  /** A `HashPair`: the key object and the value object stored under the key's hash. */
  datatype HashPair = HashPair(key: Object, value: Object)

  /** `type()` of each class. */
  function TypeOf(o: Object): (t: ObjectType)
    ensures t == ERROR_OBJ <==> o.Error?
    ensures t == INTEGER_OBJ <==> o.Integer?
    ensures t == STRING_OBJ <==> o.String?
    ensures t == ARRAY_OBJ <==> o.Array?
    ensures t == HASH_OBJ <==> o.Hash?
  {
    match o
    case Integer(_) => INTEGER_OBJ
    case Boolean(_) => BOOLEAN_OBJ
    case Null(_) => NULL_OBJ
    case ReturnValue(_, _) => RETURN_VALUE_OBJ
    case Error(_) => ERROR_OBJ
    case Func(_, _, _, _) => FUNCTION_OBJ
    case String(_, _) => STRING_OBJ
    case Builtin(_) => BUILTIN_OBJ
    case Array(_, _) => ARRAY_OBJ
    case Hash(_, _) => HASH_OBJ
  }

  /** A `HashPair` reports the same tag as a `Hash`. */
  function PairTypeOf(p: HashPair): (t: ObjectType)
    ensures t == TypeOf(Hash(0, []))
  {
    HASH_OBJ
  }

  /** `TypeName(TypeOf(o))`, the text `${o.type()}` prints. */
  function TypeText(o: Object): string {
    TypeName(TypeOf(o))
  }

  /** Two objects report the same tag exactly when they are instances of the same class. */
  lemma TagsIdentifyClasses(a: Object, b: Object)
    ensures TypeOf(a) == TypeOf(b) <==>
      (a.Integer? && b.Integer?) || (a.Boolean? && b.Boolean?) || (a.Null? && b.Null?) ||
      (a.ReturnValue? && b.ReturnValue?) || (a.Error? && b.Error?) || (a.Func? && b.Func?) ||
      (a.String? && b.String?) || (a.Builtin? && b.Builtin?) || (a.Array? && b.Array?) ||
      (a.Hash? && b.Hash?)
    ensures TypeText(a) == TypeText(b) <==> TypeOf(a) == TypeOf(b)
  {
  }

  // ----- Error messages -----

  /** The `message` the `Error` constructor selects from the descriptor's kind. A kind without
      a template takes `msg` verbatim, which is `undefined` when there is none. */
  function ErrorMessage(e: ErrorType): (m: Option<string>)
    ensures e.kind == MismatchError ==> m == Some("type mismatch: " + Interpolate(e.msg))
    ensures e.kind == OperatorError ==> m == Some("unknown operator: " + Interpolate(e.msg))
    ensures e.kind == FunctionError ==> m == Some("not a function: " + Interpolate(e.msg))
    ensures e.kind == IdentifierError ==> m == Some("identifier not found: " + Interpolate(e.msg))
    ensures e.kind == SupportError ==>
      m == Some("argument to " + Interpolate(e.msg) + " not supported, got " + Interpolate(e.got))
    ensures e.kind == ArgsError ==>
      m == Some("wrong number of arguments. got=" + Interpolate(e.msg) + ", want=1")
    ensures e.kind == UnusableError ==> m == Some("unusable as hash key: " + Interpolate(e.msg))
    ensures e.kind in {DebugError, ExpectedError, ParseError, UndefinedError} ==> m == e.msg
  {
    match e.kind
    case MismatchError => Some("type mismatch: " + Interpolate(e.msg))
    case OperatorError => Some("unknown operator: " + Interpolate(e.msg))
    case FunctionError => Some("not a function: " + Interpolate(e.msg))
    case IdentifierError => Some("identifier not found: " + Interpolate(e.msg))
    case SupportError => Some("argument to " + Interpolate(e.msg) + " not supported, got " + Interpolate(e.got))
    case ArgsError => Some("wrong number of arguments. got=" + Interpolate(e.msg) + ", want=1")
    case UnusableError => Some("unusable as hash key: " + Interpolate(e.msg))
    case _ => e.msg
  }

  /** `new obj.Error({ type: kind, msg })`. */
  function NewError(kind: ErrorKind, msg: string): (o: Object)
    ensures o.Error? && o.message.Some?
  {
    Error(ErrorMessage(ErrorType(kind, Some(msg), None, None)))
  }

  /** The wrong-count error the builtins raise: it says `want=1` whatever count was wanted. */
  function ArgsErrorFor(count: nat): (o: Object)
    ensures o.Error?
  {
    Error(ErrorMessage(ErrorType(ArgsError, Some(IntToString(count)), None, None)))
  }

  /** The unsupported-argument error of builtin `fname` for an argument of type `got`. */
  function SupportErrorFor(fname: string, got: Object): (o: Object)
    ensures o.Error?
  {
    Error(ErrorMessage(ErrorType(SupportError, Some(fname), Some(TypeText(got)), None)))
  }

  /** Every wrong-count error ends in `want=1`, and it names the count it was given: `got=2`
      and `want=1` read together even for a builtin that wants two arguments. */
  lemma {:induction false} ArgsErrorsWantOne(count: nat)
    ensures var m := ArgsErrorFor(count).message.value;
      |m| > 8 && m[|m| - 8..] == ", want=1" && m[..31] == "wrong number of arguments. got="
    ensures ArgsErrorFor(1).message == Some("wrong number of arguments. got=1, want=1")
  {
    var m := ArgsErrorFor(count).message.value;
    var digits := IntToString(count);
    assert m == "wrong number of arguments. got=" + digits + ", want=1";
    assert m[|m| - 8..] == ", want=1";
    assert m[..31] == "wrong number of arguments. got=";
    assert IntToString(1) == "1" by {
      assert NatToString(1) == [DigitChar(1)];
      assert DigitChar(1) == '1';
    }
    assert ArgsErrorFor(1).message.value == "wrong number of arguments. got=" + IntToString(1) + ", want=1";
    assert "wrong number of arguments. got=" + "1" + ", want=1" == "wrong number of arguments. got=1, want=1";
  }

  // ----- HashKey -----

  /** `HashKey.hashable`: booleans, integers and strings can be hash keys. */
  predicate Hashable(o: Object) {
    o.Boolean? || o.Integer? || o.String?
  }

  /** A JavaScript number known to be a 32-bit integer, as the bits `<<` and `|` work on. */
  function Signed(h: bv32): int {
    if h < 0x8000_0000 then h as int else h as int - 0x1_0000_0000
  }

  /** One step of the `reduce` in `stringToHash`: `((hash << (5 - hash)) + code) | hash`.
      `<<` takes its count modulo 32, which the low five bits of `5 - hash` give; the shifted
      value and the sum are truncated to 32 bits by `<<` and `|`; the character code is the
      code point. */
  function HashStep(h: bv32, c: char): bv32 {
    ((h << ((5 - h) & 31)) + ((c as int) as bv32)) | h
  }

  /** The bits of `stringToHash`: a left fold over the characters starting from 0. */
  function HashBits(s: string): bv32
    decreases |s|
  {
    if s == [] then 0 else HashStep(HashBits(s[..|s| - 1]), s[|s| - 1])
  }

  /** `HashKey.stringToHash`. */
  function StringToHash(s: string): (r: int)
    ensures s == "" ==> r == 0
  {
    Signed(HashBits(s))
  }

  /** `HashKey.hash`: the key under which a hashable object is stored. */
  function HashOf(o: Object): (r: int)
    requires Hashable(o)
    ensures o.Boolean? ==> r == (if o.truth then 1 else 0)
    ensures o.Integer? ==> r == o.value
    ensures o.String? ==> r == StringToHash(o.text)
  {
    match o
    case Boolean(b) => if b then 1 else 0
    case Integer(v) => v
    case String(_, s) => StringToHash(s)
  }

  /** The hash forgets the type and the identity of a key: `true` and `1` collide, `false`, `0`
      and `""` collide, `"a"` and `97` collide, and equal texts hash alike. */
  lemma HashCollisions(i: ObjId, j: ObjId, s: string)
    ensures HashOf(Boolean(true)) == HashOf(Integer(1))
    ensures HashOf(Boolean(false)) == HashOf(Integer(0)) == HashOf(String(i, ""))
    ensures HashOf(String(i, "a")) == HashOf(Integer(97))
    ensures HashOf(String(i, s)) == HashOf(String(j, s))
  {
    assert "a"[..0] == "";
    assert HashBits("a") == 97;
  }

  // ----- The `Map<number, HashPair>` of a `Hash` -----

  /** The keys of a map kept as its entries in insertion order. */
  function Keys<T>(entries: seq<(int, T)>): set<int> {
    set i | 0 <= i < |entries| :: entries[i].0
  }

  predicate KeysUnique<T>(entries: seq<(int, T)>) {
    forall i, j | 0 <= i < j < |entries| :: entries[i].0 != entries[j].0
  }

  /** `map.get(k)`: the value of the entry with key `k`, if there is one. */
  function MapGet<T>(entries: seq<(int, T)>, k: int): (r: Option<T>)
    ensures r.None? <==> k !in Keys(entries)
  {
    if entries == [] then None
    else if entries[0].0 == k then Some(entries[0].1)
    else
      assert Keys(entries) == {entries[0].0} + Keys(entries[1..]) by {
        assert forall i | 1 <= i < |entries| :: entries[i] == entries[1..][i - 1];
      }
      MapGet(entries[1..], k)
  }

  /** `map.set(k, v)`: an existing key keeps its place and gets the new value; a new key goes
      at the end. */
  function MapSet<T>(entries: seq<(int, T)>, k: int, v: T): (r: seq<(int, T)>)
    ensures |r| == |entries| + (if k in Keys(entries) then 0 else 1)
    ensures forall i | 0 <= i < |entries| :: r[i] == (if entries[i].0 == k then (k, v) else entries[i])
    ensures k !in Keys(entries) ==> r[|entries|] == (k, v)
  {
    if k in Keys(entries) then
      seq(|entries|, i requires 0 <= i < |entries| => if entries[i].0 == k then (k, v) else entries[i])
    else entries + [(k, v)]
  }

  /** Two maps with the same keys in the same places that agree on the entries of `k` give the
      same `get(k)`. */
  lemma {:induction false} MapGetSameKeys<T>(a: seq<(int, T)>, b: seq<(int, T)>, k: int)
    requires |a| == |b|
    requires forall i | 0 <= i < |a| :: a[i].0 == b[i].0 && (a[i].0 == k ==> a[i].1 == b[i].1)
    ensures MapGet(a, k) == MapGet(b, k)
  {
    if a != [] && a[0].0 != k {
      MapGetSameKeys(a[1..], b[1..], k);
    }
  }

  /** A key every entry of which holds `v` reads as `v`. */
  lemma {:induction false} MapGetUniform<T>(a: seq<(int, T)>, k: int, v: T)
    requires k in Keys(a)
    requires forall i | 0 <= i < |a| :: a[i].0 == k ==> a[i].1 == v
    ensures MapGet(a, k) == Some(v)
  {
    if a[0].0 != k {
      assert k in Keys(a[1..]) by {
        var i :| 0 <= i < |a| && a[i].0 == k;
        assert a[1..][i - 1] == a[i];
      }
      MapGetUniform(a[1..], k, v);
    }
  }

  /** Appending an entry whose key is new changes `get` for that key only. */
  lemma {:induction false} MapGetAppend<T>(a: seq<(int, T)>, k: int, v: T)
    requires k !in Keys(a)
    ensures MapGet(a + [(k, v)], k) == Some(v)
    ensures forall k' | k' != k :: MapGet(a + [(k, v)], k') == MapGet(a, k')
  {
    if a == [] {
    } else {
      assert (a + [(k, v)])[1..] == a[1..] + [(k, v)];
      assert k !in Keys(a[1..]) by {
        assert forall i | 0 <= i < |a[1..]| :: a[1..][i] == a[i + 1];
      }
      MapGetAppend(a[1..], k, v);
    }
  }

  /** After `set(k, v)`, `get(k)` is `v`, every other key reads as before, and no key is lost
      or duplicated. */
  lemma MapGetAfterSet<T>(entries: seq<(int, T)>, k: int, v: T)
    ensures MapGet(MapSet(entries, k, v), k) == Some(v)
    ensures forall k' | k' != k :: MapGet(MapSet(entries, k, v), k') == MapGet(entries, k')
    ensures Keys(MapSet(entries, k, v)) == Keys(entries) + {k}
    ensures KeysUnique(entries) ==> KeysUnique(MapSet(entries, k, v))
  {
    var r := MapSet(entries, k, v);
    if k in Keys(entries) {
      MapGetUniform(r, k, v);
      forall k' | k' != k
        ensures MapGet(r, k') == MapGet(entries, k')
      {
        MapGetSameKeys(r, entries, k');
      }
    } else {
      MapGetAppend(entries, k, v);
    }
  }

  // ----- The heap -----

  /** Element lists of the arrays, indexed by `ListId`. */
  type Lists = seq<seq<Option<Object>>>

  /** Everything the evaluator allocates: the scopes, the arrays' element lists and the next
      object id. Nothing is ever removed, so ids and indices stay valid. */
  datatype Heap = Heap(frames: Frames<Object>, lists: Lists, nextId: nat)

  /** The heap a fresh `new Environment({})` starts from: one empty outermost scope, index 0. */
  const EmptyHeap: Heap := Heap([Frame(map[], None)], [], 0)

  /** The elements of list `l`; the evaluator only hands out indices of lists it has made. */
  function ListOf(h: Heap, l: ListId): seq<Option<Object>> {
    if l < |h.lists| then h.lists[l] else []
  }

  /** Takes the next object id. */
  function Bump(h: Heap): (h': Heap)
    ensures h'.frames == h.frames && h'.lists == h.lists && h'.nextId == h.nextId + 1
  {
    h.(nextId := h.nextId + 1)
  }

  /** `new obj.Array(elements)` over a new element list. */
  function NewArray(h: Heap, elements: seq<Option<Object>>): (r: (Object, Heap))
    ensures r.0 == Array(h.nextId, |h.lists|)
    ensures ListOf(r.1, |h.lists|) == elements
    ensures r.1.frames == h.frames && r.1.lists == h.lists + [elements] && r.1.nextId == h.nextId + 1
  {
    (Array(h.nextId, |h.lists|), Heap(h.frames, h.lists + [elements], h.nextId + 1))
  }

  /** What a crash-free evaluation step yields, or why the host program would have crashed. */
  datatype Crash =
    | HostTypeError     // a property read on `undefined` or `null`
    | NonIntegerNumber  // `/` produced a fraction, an infinity or NaN
    | FuelExhausted     // calls nested deeper than the fuel allows

  datatype Outcome<T> = Normal(value: T, heap: Heap) | Stuck(reason: Crash)

  // ----- inspect -----

  /** Every element list an object refers to directly has an index below `bound`. */
  predicate ListsBelow(o: Object, bound: nat)
    decreases o
  {
    match o
    case Array(_, l) => l < bound
    case ReturnValue(_, w) => ListsBelow(w, bound)
    case Hash(_, pairs) =>
      forall i | 0 <= i < |pairs| :: ListsBelow(pairs[i].1.key, bound) && ListsBelow(pairs[i].1.value, bound)
    case _ => true
  }

  /** A list only holds arrays made before it, so following elements always ends. */
  predicate Acyclic(lists: Lists) {
    forall l, k | 0 <= l < |lists| && 0 <= k < |lists[l]| ::
      lists[l][k].Some? ==> ListsBelow(lists[l][k].value, l)
  }

  /** `inspect()` without the colour codes; `None` where it would read a property of
      `undefined` (an array element that is `undefined`) or of `null` (a function whose
      parameter list failed to parse). */
  function Inspect(lists: Lists, o: Object, bound: nat): (r: Option<string>)
    requires Acyclic(lists) && ListsBelow(o, bound)
    ensures o.Integer? ==> r == Some(IntToString(o.value))
    ensures o.Boolean? ==> r == Some(if o.truth then "true" else "false")
    ensures o.Null? ==> r == Some("null")
    ensures o.String? ==> r == Some(o.text)
    ensures o.Error? ==> r == Some(Interpolate(o.message))
    ensures o.Builtin? ==> r == Some("builtin function")
    ensures o.ReturnValue? ==> r == Inspect(lists, o.wrapped, bound)
    ensures o.Array? && o.list < |lists| && (exists k | 0 <= k < |lists[o.list]| :: lists[o.list][k].None?) ==> r.None?
    decreases bound, o
  {
    match o
    case Integer(v) => Some(IntToString(v))
    case Boolean(b) => Some(if b then "true" else "false")
    case Null(_) => Some("null")
    case ReturnValue(_, w) => Inspect(lists, w, bound)
    case Error(m) => Some(Interpolate(m))
    case Func(_, params, body, _) =>
      if params.None? then None
      else Some("fn(" + Join(ParameterNames(params), ", ") + "){" + RenderBlock(body) + "}")
    case String(_, s) => Some(s)
    case Builtin(_) => Some("builtin function")
    case Array(_, l) =>
      var elements := if l < |lists| then lists[l] else [];
      if exists k | 0 <= k < |elements| :: elements[k].None? || Inspect(lists, elements[k].value, l).None? then None
      else Some("[" + Join(seq(|elements|, k requires 0 <= k < |elements| =>
                                 Inspect(lists, elements[k].value, l).value), ",") + "]")
    case Hash(_, pairs) =>
      if exists i | 0 <= i < |pairs| ::
        Inspect(lists, pairs[i].1.key, bound).None? || Inspect(lists, pairs[i].1.value, bound).None?
      then None
      else Some("{" + Join(seq(|pairs|, i requires 0 <= i < |pairs| =>
                                 Inspect(lists, pairs[i].1.key, bound).value + ": " +
                                 Inspect(lists, pairs[i].1.value, bound).value), ", ") + "}")
  }

  /** A `HashPair` inspects as `key: value`. */
  function InspectPair(lists: Lists, p: HashPair, bound: nat): (r: Option<string>)
    requires Acyclic(lists) && ListsBelow(p.key, bound) && ListsBelow(p.value, bound)
    ensures r.Some? <==> Inspect(lists, p.key, bound).Some? && Inspect(lists, p.value, bound).Some?
  {
    var k := Inspect(lists, p.key, bound);
    var v := Inspect(lists, p.value, bound);
    if k.None? || v.None? then None else Some(k.value + ": " + v.value)
  }

  /** An array whose elements inspect as `texts` prints them in order, joined by `,` with no
      space, between brackets. */
  lemma ArrayInspects(lists: Lists, o: Object, bound: nat, texts: seq<string>)
    requires Acyclic(lists) && o.Array? && o.list < bound && o.list < |lists|
    requires |texts| == |lists[o.list]|
    requires forall k | 0 <= k < |texts| ::
      lists[o.list][k].Some? && Inspect(lists, lists[o.list][k].value, o.list) == Some(texts[k])
    ensures Inspect(lists, o, bound) == Some("[" + Join(texts, ",") + "]")
  {
    var elements := lists[o.list];
    assert seq(|elements|, k requires 0 <= k < |elements| => Inspect(lists, elements[k].value, o.list).value) == texts;
  }

  /** A hash whose pairs inspect as `texts` prints them in the order of its pairs, which is
      the order their keys were first set, joined by `, ` between braces; a pair that does not
      inspect makes the hash fail. */
  lemma HashInspects(lists: Lists, o: Object, bound: nat, texts: seq<string>)
    requires Acyclic(lists) && o.Hash? && ListsBelow(o, bound)
    requires |texts| == |o.pairs|
    requires forall i | 0 <= i < |texts| :: InspectPair(lists, o.pairs[i].1, bound) == Some(texts[i])
    ensures Inspect(lists, o, bound) == Some("{" + Join(texts, ", ") + "}")
  {
    var pairs := o.pairs;
    assert seq(|pairs|, i requires 0 <= i < |pairs| =>
      Inspect(lists, pairs[i].1.key, bound).value + ": " + Inspect(lists, pairs[i].1.value, bound).value) == texts;
  }

  /** A function prints `fn(`, its parameter names joined by `, `, `){`, its body's `getString`
      and `}`; with a `null` parameter list it fails. */
  lemma FunctionInspects(lists: Lists, o: Object, bound: nat)
    requires Acyclic(lists) && o.Func?
    ensures o.parameters.None? ==> Inspect(lists, o, bound).None?
    ensures o.parameters.Some? ==>
      Inspect(lists, o, bound) ==
        Some("fn(" + Join(ParameterNames(o.parameters), ", ") + "){" + RenderBlock(o.body) + "}")
  {
  }

  /** An array of `1` and `2` inspects as `[1,2]`. */
  lemma OneTwoInspects()
    ensures Inspect([[Some(Integer(1)), Some(Integer(2))]], Array(0, 0), 1) == Some("[1,2]")
  {
    var lists := [[Some(Integer(1)), Some(Integer(2))]];
    assert Acyclic(lists);
    assert IntToString(1) == "1" && IntToString(2) == "2";
    assert Inspect(lists, Integer(1), 0) == Some("1");
    assert Inspect(lists, Integer(2), 0) == Some("2");
    ArrayInspects(lists, Array(0, 0), 1, ["1", "2"]);
    JoinCons("1", ["2"], ",");
    assert ["1"] + ["2"] == ["1", "2"];
    assert "[" + ("1" + "," + "2") + "]" == "[1,2]";
  }

  /** The hash holding the one pair `1: 2` inspects as `{1: 2}`. */
  lemma OnePairInspects(lists: Lists, id: ObjId)
    requires Acyclic(lists)
    ensures ListsBelow(Hash(id, [(1, HashPair(Integer(1), Integer(2)))]), 0)
    ensures Inspect(lists, Hash(id, [(1, HashPair(Integer(1), Integer(2)))]), 0) == Some("{1: 2}")
  {
    var p := HashPair(Integer(1), Integer(2));
    var o := Hash(id, [(1, p)]);
    assert o.pairs[0].1 == p;
    assert ListsBelow(p.key, 0) && ListsBelow(p.value, 0);
    assert ListsBelow(o, 0);
    assert IntToString(1) == "1" && IntToString(2) == "2";
    assert Inspect(lists, Integer(1), 0) == Some("1");
    assert Inspect(lists, Integer(2), 0) == Some("2");
    assert "1" + ": " + "2" == "1: 2";
    assert InspectPair(lists, p, 0) == Some("1: 2");
    HashInspects(lists, o, 0, ["1: 2"]);
    assert "{" + "1: 2" + "}" == "{1: 2}";
  }
}
