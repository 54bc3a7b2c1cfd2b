/** Model of the Environment of object/object.go: a store of bindings with an optional link to an
    enclosing environment. Get searches the own store and then the enclosing chain; Set writes the
    own store only.

    The environment appears twice. The class Environment is the source's mutable object with its
    `store` map and its `outer` pointer. The evaluator, which is written as functions, keeps its
    environments in a Heap: a sequence of frames where a frame's outer link is the index of an
    earlier frame, and a closure holds a frame index. Both answer Get through LookupIn over the
    chain of stores from the innermost outwards. */
module Environments {
  import opened Wrappers
  import opened Objects

  /** Get over a chain of stores, innermost first: the binding of the first store that has the
      name, or Go's zero value (nil) and false when none has it. */
  function LookupIn(stores: seq<map<string, Object>>, name: string): (r: (Object, bool))
    ensures r.1 <==> exists i :: 0 <= i < |stores| && name in stores[i]
    ensures r.1 ==> exists i :: 0 <= i < |stores| && name in stores[i] && r.0 == stores[i][name]
                       && forall j :: 0 <= j < i ==> name !in stores[j]
    ensures !r.1 ==> r.0 == Absent
    decreases |stores|
  {
    if stores == [] then (Absent, false)
    else if name in stores[0] then (stores[0][name], true)
    else
      var r := LookupIn(stores[1..], name);
      assert r.1 ==> exists i :: 1 <= i < |stores| && name in stores[i] && r.0 == stores[i][name]
                       && forall j :: 0 <= j < i ==> name !in stores[j] by {
        if r.1 {
          var i :| 0 <= i < |stores| - 1 && name in stores[1..][i] && r.0 == stores[1..][i][name]
                   && forall j :: 0 <= j < i ==> name !in stores[1..][j];
          assert forall j :: 1 <= j < i + 1 ==> name !in stores[j] by {
            forall j | 1 <= j < i + 1 ensures name !in stores[j] {
              assert stores[j] == stores[1..][j - 1];
            }
          }
        }
      }
      assert (exists i :: 0 <= i < |stores| && name in stores[i]) ==> r.1 by {
        if i :| 0 <= i < |stores| && name in stores[i] {
          assert i > 0 && name in stores[1..][i - 1];
        }
      }
      r
  }

  /** A store without bindings in front of a chain is transparent to Get. */
  lemma EmptyStoreTransparent(stores: seq<map<string, Object>>, name: string)
    ensures LookupIn([map[]] + stores, name) == LookupIn(stores, name)
  {
    assert ([map[]] + stores)[1..] == stores;
  }

  // The heap of frames the evaluator works on.

  datatype Frame = Frame(store: map<string, Object>, outer: Option<nat>)

  type Heap = seq<Frame>

  /** Every outer link points to an earlier frame, so each chain is finite. */
  predicate Linked(h: Heap) {
    forall i :: 0 <= i < |h| && h[i].outer.Some? ==> h[i].outer.value < i
  }

  /** The stores on the chain from frame env outwards. */
  function Chain(h: Heap, env: nat): (c: seq<map<string, Object>>)
    requires Linked(h) && env < |h|
    ensures |c| >= 1 && c[0] == h[env].store
    decreases env
  {
    [h[env].store] + (match h[env].outer case Some(o) => Chain(h, o) case None => [])
  }

  /** Environment.Get on frame env. */
  function Get(h: Heap, env: nat, name: string): (Object, bool)
    requires Linked(h) && env < |h|
  {
    LookupIn(Chain(h, env), name)
  }

  /** Environment.Set on frame env: its store maps name to obj, and every frame keeps its link. */
  function Set(h: Heap, env: nat, name: string, obj: Object): (h': Heap)
    requires Linked(h) && env < |h|
    ensures Linked(h') && |h'| == |h|
    ensures h'[env] == Frame(h[env].store[name := obj], h[env].outer)
    ensures forall i :: 0 <= i < |h| && i != env ==> h'[i] == h[i]
  {
    h[env := h[env].(store := h[env].store[name := obj])]
  }

  /** NewEnvironment: a new frame with an empty store and no outer link, at index |h|. */
  function NewEnvironment(h: Heap): (r: (Heap, nat))
    requires Linked(h)
    ensures Linked(r.0) && r.1 == |h| && r.0 == h + [Frame(map[], None)]
    ensures Chain(r.0, r.1) == [map[]]
  {
    (h + [Frame(map[], None)], |h|)
  }

  /** NewEnclosedEnvironment: a new frame with an empty store whose outer link is outer. */
  function NewEnclosedEnvironment(h: Heap, outer: nat): (r: (Heap, nat))
    requires Linked(h) && outer < |h|
    ensures Linked(r.0) && r.1 == |h| && r.0 == h + [Frame(map[], Some(outer))]
  {
    (h + [Frame(map[], Some(outer))], |h|)
  }

  /** Frames added at the end do not change the chain of an existing frame. */
  lemma {:induction false} ChainExtended(h: Heap, more: Heap, env: nat)
    requires Linked(h) && Linked(h + more) && env < |h|
    ensures Chain(h + more, env) == Chain(h, env)
    decreases env
  {
    assert (h + more)[env] == h[env];
    if h[env].outer.Some? {
      ChainExtended(h, more, h[env].outer.value);
    }
  }

  /** Set leaves every frame below env as it was, and so every chain that starts there. */
  lemma {:induction false} SetLeavesEarlierChains(h: Heap, env: nat, name: string, obj: Object, e: nat)
    requires Linked(h) && env < |h| && e < env
    ensures Chain(Set(h, env, name, obj), e) == Chain(h, e)
    decreases e
  {
    if h[e].outer.Some? {
      SetLeavesEarlierChains(h, env, name, obj, h[e].outer.value);
    }
  }

  /** After Set, the chain of env starts with the updated store and goes on as before. */
  lemma SetChain(h: Heap, env: nat, name: string, obj: Object)
    requires Linked(h) && env < |h|
    ensures Chain(Set(h, env, name, obj), env) == [h[env].store[name := obj]] + Chain(h, env)[1..]
  {
    if h[env].outer.Some? {
      SetLeavesEarlierChains(h, env, name, obj, h[env].outer.value);
    }
  }

  /** Get after Set finds the value just set. */
  lemma GetAfterSet(h: Heap, env: nat, name: string, obj: Object)
    requires Linked(h) && env < |h|
    ensures Get(Set(h, env, name, obj), env, name) == (obj, true)
  {
    SetChain(h, env, name, obj);
  }

  /** Set leaves the binding of every other name, as seen from env, as it was. */
  lemma GetOtherAfterSet(h: Heap, env: nat, name: string, obj: Object, other: string)
    requires Linked(h) && env < |h| && other != name
    ensures Get(Set(h, env, name, obj), env, other) == Get(h, env, other)
  {
    SetChain(h, env, name, obj);
    var c := Chain(h, env);
    assert Chain(Set(h, env, name, obj), env)[1..] == c[1..];
    assert c == [c[0]] + c[1..];
  }

  /** A fresh enclosed frame answers Get exactly as its outer frame does. */
  lemma EnclosedGet(h: Heap, outer: nat, name: string)
    requires Linked(h) && outer < |h|
    ensures var (h', env) := NewEnclosedEnvironment(h, outer);
            Get(h', env, name) == Get(h, outer, name)
  {
    var (h', env) := NewEnclosedEnvironment(h, outer);
    ChainExtended(h, [Frame(map[], Some(outer))], outer);
    assert Chain(h', env) == [map[]] + Chain(h, outer);
    EmptyStoreTransparent(Chain(h, outer), name);
  }

  // Closures hold frame indices; HeapOk says that none of them dangles.

  /** The frames an object refers to: those its closures capture, also inside return values,
      arrays, hashes and the arguments an arity error carries. */
  function FramesOf(o: Object): set<nat>
    decreases o, 1
  {
    match o
    case Function(_, _, e) => {e}
    case ReturnValue(v) => FramesOf(v)
    case Error(m) => MessageFrames(m)
    case Array(es) => FramesOfAll(es)
    case Hash(pairs) =>
      set k, e | k in pairs && e in FramesOf(pairs[k].key) + FramesOf(pairs[k].value) :: e
    case _ => {}
  }

  function MessageFrames(m: Message): set<nat>
    decreases m, 2
  {
    match m
    case MissingParameters(_, got) => FramesOfAll(got)
    case _ => {}
  }

  function FramesOfAll(os: seq<Object>): (r: set<nat>)
    ensures forall e :: e in r <==> exists i :: 0 <= i < |os| && e in FramesOf(os[i])
    decreases os, 0
  {
    if os == [] then {}
    else
      var r := FramesOf(os[0]) + FramesOfAll(os[1..]);
      assert forall e :: (exists i :: 1 <= i < |os| && e in FramesOf(os[i])) ==> e in r by {
        forall e, i | 1 <= i < |os| && e in FramesOf(os[i]) ensures e in r {
          assert os[i] == os[1..][i - 1];
        }
      }
      r
  }

  /** Every frame o refers to exists in a heap of n frames. */
  predicate ObjectIn(o: Object, n: nat) {
    forall e :: e in FramesOf(o) ==> e < n
  }

  predicate AllIn(os: seq<Object>, n: nat) {
    forall i :: 0 <= i < |os| ==> ObjectIn(os[i], n)
  }

  /** The heap invariant the evaluator keeps: chains are finite and no stored closure dangles. */
  predicate HeapOk(h: Heap) {
    Linked(h) &&
    forall i, name :: 0 <= i < |h| && name in h[i].store ==> ObjectIn(h[i].store[name], |h|)
  }

  /** Every store on a chain is the store of some frame. */
  lemma {:induction false} ChainStores(h: Heap, env: nat)
    requires Linked(h) && env < |h|
    ensures forall k :: 0 <= k < |Chain(h, env)| ==> exists j :: 0 <= j < |h| && Chain(h, env)[k] == h[j].store
    decreases env
  {
    var c := Chain(h, env);
    if h[env].outer.Some? {
      var o := h[env].outer.value;
      ChainStores(h, o);
      forall k | 1 <= k < |c| ensures exists j :: 0 <= j < |h| && c[k] == h[j].store {
        assert c[k] == Chain(h, o)[k - 1];
      }
    }
  }

  /** Get on a sound heap yields an object whose closures do not dangle. */
  lemma GetIn(h: Heap, env: nat, name: string)
    requires HeapOk(h) && env < |h|
    ensures ObjectIn(Get(h, env, name).0, |h|)
  {
    var c := Chain(h, env);
    var r := LookupIn(c, name);
    if r.1 {
      ChainStores(h, env);
      var i :| 0 <= i < |c| && name in c[i] && r.0 == c[i][name]
               && forall j :: 0 <= j < i ==> name !in c[j];
      var j :| 0 <= j < |h| && c[i] == h[j].store;
      assert r.0 == h[j].store[name];
    }
  }

  /** Setting a value that does not dangle keeps the heap sound. */
  lemma SetOk(h: Heap, env: nat, name: string, obj: Object)
    requires HeapOk(h) && env < |h| && ObjectIn(obj, |h|)
    ensures HeapOk(Set(h, env, name, obj))
  {
  }

  /** A new enclosed frame keeps the heap sound. */
  lemma EnclosedOk(h: Heap, outer: nat)
    requires HeapOk(h) && outer < |h|
    ensures HeapOk(NewEnclosedEnvironment(h, outer).0)
  {
    var h' := NewEnclosedEnvironment(h, outer).0;
    forall i, name | 0 <= i < |h'| && name in h'[i].store
      ensures ObjectIn(h'[i].store[name], |h'|)
    {
      assert i < |h| && h'[i] == h[i];
    }
  }

  /** The source's Environment object: a mutable store and a fixed pointer to the enclosing
      environment. The ghost depth bounds the length of the outer chain, and Repr holds the
      environments on it. */
  class Environment {
    var store: map<string, Object>
    const outer: Environment?
    ghost const depth: nat
    ghost const Repr: set<Environment>

    ghost predicate Valid()
      decreases depth
    {
      this in Repr &&
      (outer == null ==> Repr == {this}) &&
      (outer != null ==>
         outer.depth < depth && Repr == {this} + outer.Repr && this !in outer.Repr && outer.Valid())
    }

    /** The stores on the chain from this environment outwards. */
    ghost function Stores(): (c: seq<map<string, Object>>)
      requires Valid()
      reads Repr
      ensures |c| >= 1 && c[0] == store
      decreases depth
    {
      [store] + (if outer == null then [] else outer.Stores())
    }

    /** NewEnvironment. */
    constructor ()
      ensures Valid() && store == map[] && outer == null && Stores() == [map[]]
    {
      store := map[];
      outer := null;
      depth := 0;
      Repr := {this};
    }

    /** NewEnclosedEnvironment. */
    constructor Enclosed(outer: Environment)
      requires outer.Valid()
      ensures Valid() && store == map[] && this.outer == outer
      ensures Stores() == [map[]] + outer.Stores()
    {
      store := map[];
      this.outer := outer;
      depth := outer.depth + 1;
      Repr := {this} + outer.Repr;
    }

    /** Get: the own store first, then the outer chain; nil and false when no store has it. */
    method Get(name: string) returns (obj: Object, ok: bool)
      requires Valid()
      ensures (obj, ok) == LookupIn(Stores(), name)
      decreases depth
    {
      if name in store {
        return store[name], true;
      }
      if outer != null {
        obj, ok := outer.Get(name);
        assert Stores()[1..] == outer.Stores();
        return obj, ok;
      }
      return Absent, false;
    }

    /** Set: writes the own store only and returns the stored object. */
    method Set(name: string, obj: Object) returns (r: Object)
      requires Valid()
      modifies this
      ensures Valid() && r == obj && store == old(store)[name := obj]
      ensures Stores() == [store] + old(Stores())[1..]
    {
      store := store[name := obj];
      r := obj;
    }
  }
}
