/** Variable scopes (lib/object/environment.ts). A store maps names to values; `None` is
    JavaScript's `undefined`, which is what a missing call argument gets bound to.
    `Environment` is the mutable scope object of the source, and `Lookup` is the reference
    meaning of a lookup through a chain of scopes. `Frames` is the same structure as the
    evaluator's heap keeps it: scopes are indexed by the order of their creation, so a closure
    shares its defining scope with everyone else who holds that index. */
module Environments {
  import opened Wrappers

  type Store<V> = map<string, Option<V>>

  /** `store[name]`: `undefined` when the name was never set. */
  function Local<V>(store: Store<V>, name: string): (v: Option<V>)
    ensures name !in store ==> v.None?
    ensures name in store ==> v == store[name]
  {
    if name in store then store[name] else None
  }

  /** A chain of stores, innermost first: the first store that binds the name to a defined
      value decides, and a name no store defines is `undefined`. */
  function Lookup<V>(chain: seq<Store<V>>, name: string): Option<V>
  {
    if chain == [] then None
    else if Local(chain[0], name).Some? then Local(chain[0], name)
    else Lookup(chain[1..], name)
  }

  /** Scope `i` of the chain defines the name as `x` and no scope inside it defines the name. */
  ghost predicate InnermostAt<V>(chain: seq<Store<V>>, name: string, x: V, i: nat) {
    i < |chain| && Local(chain[i], name) == Some(x) &&
    forall j | 0 <= j < i :: Local(chain[j], name).None?
  }

  /** `Lookup` finds the innermost defined binding, and only that one. */
  lemma {:induction false} LookupFindsInnermost<V>(chain: seq<Store<V>>, name: string, x: V)
    ensures Lookup(chain, name) == Some(x) <==> exists i: nat :: InnermostAt(chain, name, x, i)
  {
    if chain == [] {
      assert forall i: nat :: !InnermostAt(chain, name, x, i);
    } else {
      var t := chain[1..];
      LookupFindsInnermost(t, name, x);
      if Local(chain[0], name).Some? {
        if Local(chain[0], name) == Some(x) {
          assert InnermostAt(chain, name, x, 0);
        }
        assert forall i: nat | InnermostAt(chain, name, x, i) :: i == 0;
      } else {
        forall i: nat | InnermostAt(t, name, x, i)
          ensures InnermostAt(chain, name, x, i + 1)
        {
          assert chain[i + 1] == t[i];
          forall j | 1 <= j < i + 1
            ensures Local(chain[j], name).None?
          {
            assert chain[j] == t[j - 1];
          }
        }
        forall i: nat | InnermostAt(chain, name, x, i)
          ensures InnermostAt(t, name, x, i - 1)
        {
          assert i > 0;
          assert t[i - 1] == chain[i];
          forall j | 0 <= j < i - 1
            ensures Local(t[j], name).None?
          {
            assert t[j] == chain[j + 1];
          }
        }
      }
    }
  }

  /** A name is `undefined` exactly when no store in the chain defines it. */
  lemma {:induction false} LookupUndefined<V>(chain: seq<Store<V>>, name: string)
    ensures Lookup(chain, name).None? <==> forall i | 0 <= i < |chain| :: Local(chain[i], name).None?
  {
    if chain != [] {
      LookupUndefined(chain[1..], name);
      assert forall i | 1 <= i < |chain| :: chain[i] == chain[1..][i - 1];
    }
  }

  /** Writing a name in the innermost store decides that name when the value is defined, and
      leaves every other name as it was. */
  lemma LookupAfterWrite<V>(s: Store<V>, rest: seq<Store<V>>, name: string, val: Option<V>)
    ensures val.Some? ==> Lookup([s[name := val]] + rest, name) == val
    ensures forall n | n != name :: Lookup([s[name := val]] + rest, n) == Lookup([s] + rest, n)
  {
    assert ([s[name := val]] + rest)[1..] == rest;
    assert ([s] + rest)[1..] == rest;
  }

  /** A scope object. `outer` is null for an `Environment` and is the enclosing scope for an
      `EnclosedEnvironment`; both classes share `get`/`set` except for the fall-through to
      `outer`, so one class models both. `depth` counts the enclosing scopes and makes the walk
      up the chain terminate. */
  class Environment<V> {
    var store: Store<V>
    const outer: Environment?<V>
    ghost const depth: nat

    ghost predicate Valid()
      decreases depth
    {
      outer != null ==> outer.depth < depth && outer.Valid()
    }

    /** The scopes a lookup may visit: this one and every enclosing one. */
    ghost function Footprint(): (fp: set<Environment<V>>)
      requires Valid()
      ensures this in fp
      ensures forall x | x in fp :: x.depth <= depth && (x == this || x.depth < depth)
      decreases depth
    {
      {this} + (if outer == null then {} else outer.Footprint())
    }

    /** The stores of the chain, innermost first. */
    ghost function Chain(): (c: seq<Store<V>>)
      requires Valid()
      reads Footprint()
      ensures |c| > 0 && c[0] == store
      decreases depth
    {
      [store] + (if outer == null then [] else outer.Chain())
    }

    /** `new Environment(store)`: an outermost scope over the given store. */
    constructor (store: Store<V>)
      ensures Valid() && outer == null && this.store == store
      ensures Chain() == [store]
    {
      this.store := store;
      outer := null;
      depth := 0;
    }

    /** `new EnclosedEnvironment(outer)`: an empty scope inside `outer`. */
    constructor Enclosed(outer: Environment<V>)
      requires outer.Valid()
      ensures Valid() && this.outer == outer && store == map[]
      ensures Chain() == [map[]] + outer.Chain()
    {
      store := map[];
      this.outer := outer;
      depth := outer.depth + 1;
    }

    /** `get`: the local value when it is defined, otherwise what the enclosing scope gives. An
        outermost scope returns its own entry, defined or not. */
    function Get(name: string): (v: Option<V>)
      requires Valid()
      reads Footprint()
      ensures v == Lookup(Chain(), name)
      decreases depth
    {
      var local := Local(store, name);
      if outer == null then local
      else if local.Some? then local
      else outer.Get(name)
    }

    /** `set`: writes one name in this scope only and returns the value it was given. An
        enclosing binding of the same name is shadowed, not changed. */
    method Set(name: string, val: Option<V>) returns (r: Option<V>)
      requires Valid()
      modifies this
      ensures Valid() && r == val
      ensures store == old(store)[name := val]
      ensures Chain() == [store] + old(Chain())[1..]
      ensures val.Some? ==> Get(name) == val
      ensures forall n | n != name :: Get(n) == old(Get(n))
      ensures outer != null ==> outer.Chain() == old(outer.Chain())
    {
      store := store[name := val];
      r := val;
      if outer != null {
        assert this !in outer.Footprint();
      }
      LookupAfterWrite(old(store), old(Chain())[1..], name, val);
      assert old(Chain()) == [old(store)] + old(Chain())[1..];
    }
  }

  /** One scope as the evaluator's heap keeps it: its store and the index of the scope it
      encloses, if any. */
  datatype Frame<V> = Frame(store: Store<V>, outer: Option<nat>)

  /** Every scope encloses only a scope created before it. */
  predicate Chained<V>(fs: seq<Frame<V>>) {
    forall i | 0 <= i < |fs| :: fs[i].outer.Some? ==> fs[i].outer.value < i
  }

  type Frames<V> = fs: seq<Frame<V>> | Chained(fs) witness []

  /** The stores a lookup in scope `e` visits, innermost first. The evaluator only hands out
      indices of scopes it has created; an index past the end reads as no scope at all. */
  function ChainOf<V>(fs: Frames<V>, e: nat): seq<Store<V>>
    decreases e
  {
    if e >= |fs| then []
    else [fs[e].store] + (if fs[e].outer.Some? then ChainOf(fs, fs[e].outer.value) else [])
  }

  /** `get` on scope `e`. */
  function FrameGet<V>(fs: Frames<V>, e: nat, name: string): (v: Option<V>)
    ensures v == Lookup(ChainOf(fs, e), name)
    decreases e
  {
    if e >= |fs| then None
    else
      var local := Local(fs[e].store, name);
      if fs[e].outer.None? then local
      else if local.Some? then local
      else FrameGet(fs, fs[e].outer.value, name)
  }

  /** `set` on scope `e`: that one store changes and no scope is added or relinked. */
  function FrameSet<V>(fs: Frames<V>, e: nat, name: string, val: Option<V>): (fs': Frames<V>)
    ensures |fs'| == |fs|
    ensures e < |fs| ==> fs'[e] == Frame(fs[e].store[name := val], fs[e].outer)
    ensures forall i | 0 <= i < |fs| && i != e :: fs'[i] == fs[i]
  {
    if e >= |fs| then fs else fs[e := Frame(fs[e].store[name := val], fs[e].outer)]
  }

  /** `new EnclosedEnvironment(outer)`: a new empty scope at the end, enclosing `outer`. */
  function Enclose<V>(fs: Frames<V>, outer: nat): (fs': Frames<V>)
    ensures fs' == fs + [Frame(map[], if outer < |fs| then Some(outer) else None)]
  {
    fs + [Frame(map[], if outer < |fs| then Some(outer) else None)]
  }

  /** Adding scopes at the end leaves every existing chain as it was. */
  lemma {:induction false} ChainOfExtend<V>(fs: Frames<V>, more: Frames<V>, e: nat)
    requires fs <= more && e < |fs|
    ensures ChainOf(more, e) == ChainOf(fs, e)
    decreases e
  {
    if fs[e].outer.Some? {
      ChainOfExtend(fs, more, fs[e].outer.value);
    }
  }

  /** A new enclosed scope starts empty and then sees its outer chain. */
  lemma EncloseChain<V>(fs: Frames<V>, outer: nat)
    requires outer < |fs|
    ensures ChainOf(Enclose(fs, outer), |fs|) == [map[]] + ChainOf(fs, outer)
  {
    ChainOfExtend(fs, Enclose(fs, outer), outer);
  }

  /** Writing scope `e` leaves the chain of every scope created before it unchanged: that is
      why a parameter or `let` inside a call shadows an outer binding instead of changing it. */
  lemma {:induction false} FrameSetKeepsEarlierChains<V>(fs: Frames<V>, e: nat, name: string, val: Option<V>, o: nat)
    requires o < e
    ensures ChainOf(FrameSet(fs, e, name, val), o) == ChainOf(fs, o)
    decreases o
  {
    if o < |fs| && fs[o].outer.Some? {
      FrameSetKeepsEarlierChains(fs, e, name, val, fs[o].outer.value);
    }
  }

  /** After `set` with a defined value, `get` on the same scope returns it; every other name
      reads as before. */
  lemma FrameGetAfterSet<V>(fs: Frames<V>, e: nat, name: string, val: Option<V>)
    requires e < |fs|
    ensures val.Some? ==> FrameGet(FrameSet(fs, e, name, val), e, name) == val
    ensures forall n | n != name :: FrameGet(FrameSet(fs, e, name, val), e, n) == FrameGet(fs, e, n)
  {
    var fs' := FrameSet(fs, e, name, val);
    var rest := if fs[e].outer.Some? then ChainOf(fs, fs[e].outer.value) else [];
    if fs[e].outer.Some? {
      FrameSetKeepsEarlierChains(fs, e, name, val, fs[e].outer.value);
    }
    assert ChainOf(fs', e) == [fs[e].store[name := val]] + rest;
    assert ChainOf(fs, e) == [fs[e].store] + rest;
    LookupAfterWrite(fs[e].store, rest, name, val);
  }
}
