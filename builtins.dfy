/** Model of evaluator/builtins.go: the built-in functions len, first, last, rest, push and puts.
    Each one except puts checks its argument count first and then switches on the type of its
    first argument; none of them changes its arguments, and push and rest build new arrays. The
    table is not reachable from Monkey programs (identifiers are looked up in the environment
    only, and applyFunction accepts only Function callees), so the built-ins are modelled on
    their own.

    As written, every arity check reports the name "len", and so does the type error of push;
    ApplyBuiltinAsWritten keeps that, and ApplyBuiltin names the built-in that was called. */
module Builtins {
  import opened Wrappers
  import opened GoInt
  import opened Objects
  import opened Evaluator

  /** The key of each built-in in the builtins table. */
  function Name(b: BuiltinName): (s: string)
    ensures |s| > 0
  {
    match b
    case Len => "len"
    case First => "first"
    case Last => "last"
    case Rest => "rest"
    case Push => "push"
    case Puts => "puts"
  }

  /** The argument count each built-in checks for (puts takes any number). */
  function Arity(b: BuiltinName): nat {
    if b == Push then 2 else 1
  }

  /** builtinLenCheck: no error when the count is right, otherwise the wrong-count error that
      names funcName. */
  function LenCheck(funcName: string, expected: nat, args: seq<Object>): (r: Option<Object>)
    ensures r.None? <==> |args| == expected
    ensures r.Some? ==> r.value == Error(WrongArgumentCount(funcName, |args|, expected))
  {
    if |args| != expected then Some(Error(WrongArgumentCount(funcName, |args|, expected))) else None
  }

  /** The type switch on args[0] reaches `arg.Type()` for an argument it does not handle, which
      panics on nil. */
  function NotSupported(funcName: string, arg: Object): (r: Outcome<Object>)
    ensures r.Halt? <==> arg.Absent?
  {
    if arg.Absent? then Halt(NilDereference) else Normal(Error(ArgumentNotSupported(funcName, Type(arg))))
  }

  /** len: the byte length of a string or the element count of an array. */
  function BuiltinLen(args: seq<Object>, arityName: string): (r: Outcome<Object>)
    ensures |args| != 1 ==> r == Normal(Error(WrongArgumentCount(arityName, |args|, 1)))
    ensures |args| == 1 && args[0].String? && |args[0].strValue| <= MAX_INT64 ==>
              r == Normal(Integer(|args[0].strValue|))
    ensures |args| == 1 && args[0].Array? && |args[0].elements| <= MAX_INT64 ==>
              r == Normal(Integer(|args[0].elements|))
    ensures |args| == 1 && !args[0].String? && !args[0].Array? ==> r == NotSupported("len", args[0])
  {
    match LenCheck(arityName, 1, args)
    case Some(err) => Normal(err)
    case None =>
      match args[0]
      case String(s) => Normal(Integer(Wrap(|s|)))
      case Array(es) => Normal(Integer(Wrap(|es|)))
      case _ => NotSupported("len", args[0])
  }

  /** first: element 0 of an array, NULL for an empty one. */
  function BuiltinFirst(args: seq<Object>, arityName: string): (r: Outcome<Object>)
    ensures |args| != 1 ==> r == Normal(Error(WrongArgumentCount(arityName, |args|, 1)))
    ensures |args| == 1 && args[0].Array? ==>
              r == Normal(if args[0].elements == [] then NULL else args[0].elements[0])
    ensures |args| == 1 && !args[0].Array? ==> r == NotSupported("first", args[0])
  {
    match LenCheck(arityName, 1, args)
    case Some(err) => Normal(err)
    case None =>
      match args[0]
      case Array(es) => if |es| == 0 then Normal(NULL) else Normal(es[0])
      case _ => NotSupported("first", args[0])
  }

  /** last: the final element of an array, NULL for an empty one. */
  function BuiltinLast(args: seq<Object>, arityName: string): (r: Outcome<Object>)
    ensures |args| != 1 ==> r == Normal(Error(WrongArgumentCount(arityName, |args|, 1)))
    ensures |args| == 1 && args[0].Array? ==>
              r == Normal(if args[0].elements == [] then NULL else args[0].elements[|args[0].elements| - 1])
    ensures |args| == 1 && !args[0].Array? ==> r == NotSupported("last", args[0])
  {
    match LenCheck(arityName, 1, args)
    case Some(err) => Normal(err)
    case None =>
      match args[0]
      case Array(es) => if |es| == 0 then Normal(NULL) else Normal(es[|es| - 1])
      case _ => NotSupported("last", args[0])
  }

  /** rest: a new array of all elements but the first; an empty array for an empty one. */
  function BuiltinRest(args: seq<Object>, arityName: string): (r: Outcome<Object>)
    ensures |args| != 1 ==> r == Normal(Error(WrongArgumentCount(arityName, |args|, 1)))
    ensures |args| == 1 && args[0].Array? ==>
              r.Normal? && r.value.Array?
              && |r.value.elements| == (if args[0].elements == [] then 0 else |args[0].elements| - 1)
              && forall i :: 0 <= i < |r.value.elements| ==> r.value.elements[i] == args[0].elements[i + 1]
    ensures |args| == 1 && !args[0].Array? ==> r == NotSupported("rest", args[0])
  {
    match LenCheck(arityName, 1, args)
    case Some(err) => Normal(err)
    case None =>
      match args[0]
      case Array(es) => if |es| == 0 then Normal(Array([])) else Normal(Array(es[1..]))
      case _ => NotSupported("rest", args[0])
  }

  /** push: a new array holding the elements of the first argument followed by the second. */
  function BuiltinPush(args: seq<Object>, arityName: string, typeName: string): (r: Outcome<Object>)
    ensures |args| != 2 ==> r == Normal(Error(WrongArgumentCount(arityName, |args|, 2)))
    ensures |args| == 2 && args[0].Array? ==>
              r.Normal? && r.value.Array? && |r.value.elements| == |args[0].elements| + 1
              && r.value.elements[..|args[0].elements|] == args[0].elements
              && r.value.elements[|args[0].elements|] == args[1]
    ensures |args| == 2 && !args[0].Array? ==> r == NotSupported(typeName, args[0])
  {
    match LenCheck(arityName, 2, args)
    case Some(err) => Normal(err)
    case None =>
      match args[0]
      case Array(es) => Normal(Array(es + [args[1]]))
      case _ => NotSupported(typeName, args[0])
  }

  /** puts: prints the Inspect text of every argument (which panics on nil) and returns NULL. */
  function BuiltinPuts(args: seq<Object>): (r: Outcome<Object>)
    ensures r.Halt? <==> exists i :: 0 <= i < |args| && InspectPanics(args[i])
    ensures r.Normal? ==> r.value == NULL
  {
    if exists i :: 0 <= i < |args| && InspectPanics(args[i]) then Halt(NilDereference) else Normal(NULL)
  }

  /** The entries of the builtins table as written: the arity checks pass "len", and so does
      the type error of push. */
  function ApplyBuiltinAsWritten(b: BuiltinName, args: seq<Object>): (r: Outcome<Object>)
    ensures b != Puts ==> (r.Halt? <==> |args| == Arity(b) && args[0].Absent?)
    ensures b != Puts && |args| != Arity(b) ==> r == Normal(Error(WrongArgumentCount("len", |args|, Arity(b))))
    ensures b == Puts ==> (r.Halt? <==> exists i :: 0 <= i < |args| && InspectPanics(args[i]))
  {
    match b
    case Len => BuiltinLen(args, "len")
    case First => BuiltinFirst(args, "len")
    case Last => BuiltinLast(args, "len")
    case Rest => BuiltinRest(args, "len")
    case Push => BuiltinPush(args, "len", "len")
    case Puts => BuiltinPuts(args)
  }

  /** The entries with every message naming the built-in that was called. */
  function ApplyBuiltin(b: BuiltinName, args: seq<Object>): (r: Outcome<Object>)
    ensures b != Puts ==> (r.Halt? <==> |args| == Arity(b) && args[0].Absent?)
    ensures b != Puts && |args| != Arity(b) ==> r == Normal(Error(WrongArgumentCount(Name(b), |args|, Arity(b))))
    ensures b == Puts ==> (r.Halt? <==> exists i :: 0 <= i < |args| && InspectPanics(args[i]))
  {
    match b
    case Len => BuiltinLen(args, "len")
    case First => BuiltinFirst(args, "first")
    case Last => BuiltinLast(args, "last")
    case Rest => BuiltinRest(args, "rest")
    case Push => BuiltinPush(args, "push", "push")
    case Puts => BuiltinPuts(args)
  }

  /** With the names corrected, every arity error names the built-in that was called and its
      expected count, and so does every type error the built-in builds itself. */
  lemma ErrorsNameTheBuiltin(b: BuiltinName, args: seq<Object>)
    requires b != Puts
    ensures |args| != Arity(b) ==>
              ApplyBuiltin(b, args) == Normal(Error(WrongArgumentCount(Name(b), |args|, Arity(b))))
    ensures |args| == Arity(b) && !args[0].Absent? && !args[0].Array? && !(b == Len && args[0].String?) ==>
              ApplyBuiltin(b, args) == Normal(Error(ArgumentNotSupported(Name(b), Type(args[0]))))
  {
    match b
    case Len =>
    case First =>
    case Last =>
    case Rest =>
    case Push =>
  }

  /** As written, calling first with no arguments reports "len" in its message. */
  lemma FirstArityErrorNamesLen(args: seq<Object>)
    requires args == []
    ensures ApplyBuiltinAsWritten(First, args) == Normal(Error(WrongArgumentCount("len", 0, 1)))
    ensures Text(WrongArgumentCount("len", 0, 1)) == Some("wrong number of arguments for len. got=0, want=1")
    ensures ApplyBuiltin(First, args) == Normal(Error(WrongArgumentCount("first", 0, 1)))
  {
    assert IntToDecimal(0) == "0" && IntToDecimal(1) == "1";
    assert "wrong number of arguments for " + "len" + ". got=" + "0" + ", want=" + "1"
        == "wrong number of arguments for len. got=0, want=1";
  }

  /** As written, pushing onto an integer reports "len" in its message. */
  lemma PushTypeErrorNamesLen(args: seq<Object>)
    requires |args| == 2 && args[0].Integer?
    ensures ApplyBuiltinAsWritten(Push, args) == Normal(Error(ArgumentNotSupported("len", IntegerObj)))
    ensures ApplyBuiltin(Push, args) == Normal(Error(ArgumentNotSupported("push", IntegerObj)))
  {
  }

  /** The two tables differ only in those names: with the right argument count, and for push an
      array argument or nil, they give the same outcome. */
  lemma AsWrittenDiffersOnlyInNames(b: BuiltinName, args: seq<Object>)
    requires b == Puts || |args| == Arity(b)
    requires b == Push ==> args[0].Array? || args[0].Absent?
    ensures ApplyBuiltinAsWritten(b, args) == ApplyBuiltin(b, args)
  {
  }

  /** After push, last gives the pushed value and len is one more. */
  lemma PushThenLastAndLen(es: seq<Object>, x: Object)
    requires |es| < MAX_INT64
    ensures var pushed := BuiltinPush([Array(es), x], "push", "push");
            pushed.Normal?
            && BuiltinLast([pushed.value], "last") == Normal(x)
            && BuiltinLen([pushed.value], "len") == Normal(Integer(|es| + 1))
            && BuiltinLen([Array(es)], "len") == Normal(Integer(|es|))
  {
    var pushed := BuiltinPush([Array(es), x], "push", "push");
    assert pushed.value.elements == es + [x];
  }

  /** first of a non-empty array followed by rest of it gives back the array's elements; and
      pushing commutes with rest. */
  lemma FirstRestPush(es: seq<Object>, x: Object)
    requires es != []
    ensures var first := BuiltinFirst([Array(es)], "first");
            var rest := BuiltinRest([Array(es)], "rest");
            first.Normal? && rest.Normal? && [first.value] + rest.value.elements == es
    ensures var pushed := BuiltinPush([Array(es), x], "push", "push");
            var rest := BuiltinRest([Array(es)], "rest");
            pushed.Normal? && rest.Normal?
            && BuiltinRest([pushed.value], "rest") == BuiltinPush([rest.value, x], "push", "push")
  {
    assert [es[0]] + es[1..] == es;
    assert (es + [x])[1..] == es[1..] + [x];
  }
}
