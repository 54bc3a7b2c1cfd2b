/** Model of functools/functools.go: the generic element-wise Map over a slice. */
module Functools {

  /** The slice `ts` mapped element by element through `fn`: the value functools.Map returns.
      Functions of the model that need Map (Array.Inspect, the arity message of applyFunction)
      use this definition, since a function cannot call a method. */
  function Mapped<T, U>(ts: seq<T>, fn: T --> U): (us: seq<U>)
    requires forall i :: 0 <= i < |ts| ==> fn.requires(ts[i])
    ensures |us| == |ts|
    ensures forall i :: 0 <= i < |ts| ==> us[i] == fn(ts[i])
  {
    if ts == [] then [] else [fn(ts[0])] + Mapped(ts[1..], fn)
  }

  /** functools.Map: allocates `us` with the length of `ts` and writes `us[i] := fn(ts[i])` in a
      for-range loop. The input is a value and is never written. */
  method Map<T, U(0)>(ts: seq<T>, fn: T -> U) returns (us: seq<U>)
    ensures |us| == |ts|
    ensures forall i :: 0 <= i < |ts| ==> us[i] == fn(ts[i])
    ensures us == Mapped(ts, fn)
  {
    var a := new U[|ts|];
    for i := 0 to |ts|
      invariant forall j :: 0 <= j < i ==> a[j] == fn(ts[j])
    {
      a[i] := fn(ts[i]);
    }
    us := a[..];
  }

  /** An empty slice maps to an empty slice, and mapping distributes over concatenation,
      so the order of the elements is kept. */
  lemma {:induction false} MappedAppend<T, U>(xs: seq<T>, ys: seq<T>, fn: T -> U)
    ensures Mapped([], fn) == []
    ensures Mapped(xs + ys, fn) == Mapped(xs, fn) + Mapped(ys, fn)
  {
    var l, r := Mapped(xs + ys, fn), Mapped(xs, fn) + Mapped(ys, fn);
    assert |l| == |r|;
    forall i | 0 <= i < |l| ensures l[i] == r[i] {
      if i < |xs| { assert (xs + ys)[i] == xs[i]; } else { assert (xs + ys)[i] == ys[i - |xs|]; }
    }
  }
}
