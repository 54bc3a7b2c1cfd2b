/** Model of evaluator/evaluator.go: a tree walk over the syntax tree in an environment.

    Errors are values that stop evaluation wherever they appear; a `return` wraps its value in a
    ReturnValue that a block passes on, and that the program and function application unwrap.

    Where the source returns nil the model yields Absent. Where the source would stop with a Go
    runtime panic, the model yields Halt:
    - a method called on nil (NilDereference);
    - an integer division by zero (DivisionByZero).
    Monkey programs can run forever, so every function application uses up one unit of fuel, and
    running out of it is a Halt too (OutOfFuel). Environments live in a Heap of frames (module
    Environments); evaluation threads the heap through and returns the heap it leaves behind. */
module Evaluator {
  import opened Wrappers
  import opened GoInt
  import opened Ast
  import opened Objects
  import opened Environments

  /** The shared TRUE, FALSE and NULL objects. Every Boolean the evaluator builds is one of the
      two, so comparing Booleans by value is the source's comparison by pointer. */
  const TRUE: Object := Boolean(true)
  const FALSE: Object := Boolean(false)
  const NULL: Object := Null

  datatype HaltReason = NilDereference | DivisionByZero | OutOfFuel

  /** How a Go call ends: it returns a value, or the program stops. */
  datatype Outcome<T> = Normal(value: T) | Halt(reason: HaltReason)

  /** booleanObjectOfNativeBool. */
  function NativeBool(b: bool): (o: Object)
    ensures o == TRUE || o == FALSE
    ensures o.boolValue == b
  {
    if b then TRUE else FALSE
  }

  /** isTruthy: NULL and FALSE are false, every other value (nil included) is true. */
  predicate IsTruthy(o: Object) {
    match o
    case Null => false
    case Boolean(b) => b
    case _ => true
  }

  /** isError: nil is not an error; any other value is one when its type is ERROR. */
  predicate IsError(o: Object)
    ensures IsError(o) <==> o.Error?
  {
    !o.Absent? && Type(o) == ErrorObj
  }

  /** unwrapReturnValue: nil becomes NULL and a ReturnValue gives up what it carries. */
  function Unwrap(o: Object): (r: Object)
    ensures o.Absent? ==> r == NULL
    ensures o.ReturnValue? ==> r == o.returned
    ensures !o.Absent? && !o.ReturnValue? ==> r == o
    ensures FramesOf(r) <= FramesOf(o)
  {
    if o.Absent? then NULL
    else if Type(o) == ReturnValueObj then o.returned
    else o
  }

  /** evalPrefixBang: `!x` is the negation of x's truthiness. */
  function EvalBang(right: Object): (r: Object)
    ensures r == NativeBool(!IsTruthy(right))
  {
    match right
    case Boolean(b) => if b then FALSE else TRUE
    case Null => TRUE
    case _ => FALSE
  }

  /** evalPrefixMinus: integers are negated with int64 wrap-around; `right.Type()` on nil is a
      nil dereference; every other operand is an unknown operator. */
  function EvalMinus(right: Object): (r: Outcome<Object>)
    ensures r.Halt? <==> right.Absent?
    ensures right.Integer? && right.intValue != MIN_INT64 ==> r == Normal(Integer(-right.intValue))
    ensures right.Integer? && right.intValue == MIN_INT64 ==> r == Normal(right)
    ensures !right.Absent? && !right.Integer? ==> r == Normal(Error(UnknownPrefixOperator("-", Type(right))))
  {
    match right
    case Integer(v) => Normal(Integer(Neg(v)))
    case Absent => Halt(NilDereference)
    case _ => Normal(Error(UnknownPrefixOperator("-", Type(right))))
  }

  /** evalPrefixOperator. */
  function EvalPrefixOperator(op: string, right: Object): (r: Outcome<Object>)
    ensures op == "!" ==> r == Normal(NativeBool(!IsTruthy(right)))
    ensures op == "-" ==> r == EvalMinus(right)
    ensures op != "!" && op != "-" ==>
              r == if right.Absent? then Halt(NilDereference)
                   else Normal(Error(UnknownPrefixOperator(op, Type(right))))
    ensures r.Normal? ==> FramesOf(r.value) == {}
  {
    if op == "!" then Normal(EvalBang(right))
    else if op == "-" then EvalMinus(right)
    else if right.Absent? then Halt(NilDereference)
    else Normal(Error(UnknownPrefixOperator(op, Type(right))))
  }

  /** evalInfixIntegerExpression: int64 arithmetic (wrapping, `/` truncating toward zero) and
      comparisons giving TRUE or FALSE. Go panics on division by zero; callers rule it out. */
  function EvalInfixInteger(op: string, a: Int64, b: Int64): (r: Object)
    requires op == "/" ==> b != 0
    ensures op == "+" ==> r.Integer? && (r.intValue - (a + b)) % TWO_64 == 0
    ensures op == "-" ==> r.Integer? && (r.intValue - (a - b)) % TWO_64 == 0
    ensures op == "*" ==> r.Integer? && (r.intValue - a * b) % TWO_64 == 0
    ensures op in {"+", "-", "*"} && r.Integer? && MIN_INT64 <= ArithmeticValue(op, a, b) <= MAX_INT64 ==>
              r.intValue == ArithmeticValue(op, a, b)
    ensures op == "/" && !(a == MIN_INT64 && b == -1) ==>
              r.Integer? && Abs(a - r.intValue * b) < Abs(b)
              && (a - r.intValue * b == 0 || (a - r.intValue * b < 0) == (a < 0))
    ensures op == "<" ==> r == NativeBool(a < b)
    ensures op == ">" ==> r == NativeBool(a > b)
    ensures op == "==" ==> r == NativeBool(a == b)
    ensures op == "!=" ==> r == NativeBool(a != b)
    ensures op !in {"+", "-", "*", "/", "<", ">", "==", "!="} ==>
              r == Error(UnknownInfixOperator(IntegerObj, op, IntegerObj))
  {
    if op == "+" then Integer(Add(a, b))
    else if op == "-" then Integer(Sub(a, b))
    else if op == "*" then Integer(Mul(a, b))
    else if op == "/" then Integer(Quot(a, b))
    else if op == "<" then NativeBool(a < b)
    else if op == ">" then NativeBool(a > b)
    else if op == "==" then NativeBool(a == b)
    else if op == "!=" then NativeBool(a != b)
    else Error(UnknownInfixOperator(IntegerObj, op, IntegerObj))
  }

  /** The exact mathematical value of `+`, `-` or `*`. */
  function ArithmeticValue(op: string, a: int, b: int): int {
    if op == "+" then a + b else if op == "-" then a - b else a * b
  }

  /** evalInfixBooleanExpression: only `==` and `!=` are defined on booleans. */
  function EvalInfixBoolean(op: string, left: Object, right: Object): (r: Object)
    requires left.Boolean? && right.Boolean?
    ensures op == "==" ==> r == NativeBool(left.boolValue == right.boolValue)
    ensures op == "!=" ==> r == NativeBool(left.boolValue != right.boolValue)
    ensures op != "==" && op != "!=" ==> r == Error(UnknownInfixOperator(BooleanObj, op, BooleanObj))
  {
    if op == "==" then NativeBool(left == right)
    else if op == "!=" then NativeBool(left != right)
    else Error(UnknownInfixOperator(Type(left), op, Type(right)))
  }

  /** evalInfixOperator: operands of the same type go to the integer or boolean helper, or are an
      unknown operator; operands of different types are a type mismatch. Asking nil for its type
      is a nil dereference, and dividing an integer by zero panics. */
  function EvalInfixOperator(op: string, left: Object, right: Object): (r: Outcome<Object>)
    ensures r == Halt(NilDereference) <==> left.Absent? || right.Absent?
    ensures r == Halt(DivisionByZero) <==>
              left.Integer? && right.Integer? && op == "/" && right.intValue == 0
    ensures !left.Absent? && !right.Absent? && Type(left) != Type(right) ==>
              r == Normal(Error(TypeMismatch(Type(left), op, Type(right))))
    ensures !left.Absent? && !right.Absent? && Type(left) == Type(right)
            && !left.Integer? && !left.Boolean? ==>
              r == Normal(Error(UnknownInfixOperator(Type(left), op, Type(right))))
    ensures r.Normal? ==> FramesOf(r.value) == {}
  {
    if left.Absent? || right.Absent? then Halt(NilDereference)
    else if Type(left) == Type(right) then
      if Type(left) == IntegerObj then
        if op == "/" && right.intValue == 0 then Halt(DivisionByZero)
        else Normal(EvalInfixInteger(op, left.intValue, right.intValue))
      else if Type(left) == BooleanObj then Normal(EvalInfixBoolean(op, left, right))
      else Normal(Error(UnknownInfixOperator(Type(left), op, Type(right))))
    else Normal(Error(TypeMismatch(Type(left), op, Type(right))))
  }

  /** Inspect dereferences nil: for nil itself, and for nil inside a return value, an array or a
      hash key (Hash.Inspect renders each pair from its key alone, so a nil value is never
      reached). */
  predicate InspectPanics(o: Object)
    decreases o, 1
  {
    match o
    case Absent => true
    case ReturnValue(v) => InspectPanics(v)
    case Array(es) => exists i :: 0 <= i < |es| && InspectPanics(es[i])
    case Hash(pairs) => exists k :: k in pairs && InspectPanics(pairs[k].key)
    case _ => false
  }

  /** Only nil panics among the scalars and errors; a hash panics exactly on a nil-bearing key,
      whatever its values hold, and the wrappers panic exactly when what they hold does. */
  lemma InspectPanicsCases(o: Object)
    ensures o.Integer? || o.Boolean? || o.Null? || o.String? || o.Error? || o.Function? || o.Builtin? ==> !InspectPanics(o)
    ensures o.Hash? ==> (InspectPanics(o) <==> exists k :: k in o.pairs && InspectPanics(o.pairs[k].key))
    ensures o.Array? ==> (InspectPanics(o) <==> exists i :: 0 <= i < |o.elements| && InspectPanics(o.elements[i]))
    ensures o.ReturnValue? ==> (InspectPanics(o) <==> InspectPanics(o.returned))
  {
  }

  /** What evaluation leaves behind: a sound heap that has grown, and a result whose closures
      point into it. */
  predicate Fits(h: Heap, out: Outcome<Object>, h': Heap) {
    HeapOk(h') && |h| <= |h'| && (out.Normal? ==> ObjectIn(out.value, |h'|))
  }

  predicate FitsAll(h: Heap, out: Outcome<seq<Object>>, h': Heap) {
    HeapOk(h') && |h| <= |h'| && (out.Normal? ==> AllIn(out.value, |h'|))
  }

  /** Eval of an expression field: nil evaluates to nil. */
  function EvalExpression(fuel: nat, h: Heap, env: nat, e: Option<Expression>): (r: (Outcome<Object>, Heap))
    requires HeapOk(h) && env < |h|
    ensures Fits(h, r.0, r.1)
    decreases fuel, e, 3
  {
    match e
    case None => (Normal(Absent), h)
    case Some(x) => EvalNode(fuel, h, env, x)
  }

  /** Eval's switch over the expression nodes. A string literal has no case, so it is nil. */
  function EvalNode(fuel: nat, h: Heap, env: nat, x: Expression): (r: (Outcome<Object>, Heap))
    requires HeapOk(h) && env < |h|
    ensures Fits(h, r.0, r.1)
    decreases fuel, x, 2
  {
    match x
    case Identifier(name) =>
      GetIn(h, env, name);
      var (v, ok) := Get(h, env, name);
      if !ok then (Normal(Error(IdentityNotFound(name))), h) else (Normal(v), h)
    case IntegerLiteral(v) => (Normal(Integer(v)), h)
    case BooleanLiteral(b) => (Normal(NativeBool(b)), h)
    case StringLiteral(_) => (Normal(Absent), h)
    case FunctionLiteral(params, body) => (Normal(Function(params, body, env)), h)
    case PrefixExpression(_, _) => EvalPrefix(fuel, h, env, x)
    case InfixExpression(_, _, _) => EvalInfix(fuel, h, env, x)
    case IfExpression(_, _, _) => EvalIf(fuel, h, env, x)
    case CallExpression(_, _) => EvalCall(fuel, h, env, x)
  }

  /** A prefix expression: the operand, unless it is an error, goes to evalPrefixOperator. */
  function EvalPrefix(fuel: nat, h: Heap, env: nat, x: Expression): (r: (Outcome<Object>, Heap))
    requires x.PrefixExpression? && HeapOk(h) && env < |h|
    ensures Fits(h, r.0, r.1)
    decreases fuel, x, 1
  {
    var (right, h1) := EvalExpression(fuel, h, env, x.right);
    if right.Halt? || IsError(right.value) then (right, h1)
    else (EvalPrefixOperator(x.operator, right.value), h1)
  }

  /** An infix expression: left operand, then right operand, each stopping on an error. */
  function EvalInfix(fuel: nat, h: Heap, env: nat, x: Expression): (r: (Outcome<Object>, Heap))
    requires x.InfixExpression? && HeapOk(h) && env < |h|
    ensures Fits(h, r.0, r.1)
    decreases fuel, x, 1
  {
    var (left, h1) := EvalExpression(fuel, h, env, x.left);
    if left.Halt? || IsError(left.value) then (left, h1)
    else
      var (right, h2) := EvalExpression(fuel, h1, env, x.right);
      if right.Halt? || IsError(right.value) then (right, h2)
      else (EvalInfixOperator(x.operator, left.value, right.value), h2)
  }

  /** evalIfExpression: an error condition is the result; a truthy one runs the consequence, a
      falsy one the alternative, and without an alternative the result is NULL. */
  function EvalIf(fuel: nat, h: Heap, env: nat, x: Expression): (r: (Outcome<Object>, Heap))
    requires x.IfExpression? && HeapOk(h) && env < |h|
    ensures Fits(h, r.0, r.1)
    decreases fuel, x, 1
  {
    var (cond, h1) := EvalExpression(fuel, h, env, x.condition);
    if cond.Halt? || IsError(cond.value) then (cond, h1)
    else if IsTruthy(cond.value) then EvalBlock(fuel, h1, env, x.consequence.statements, Absent)
    else if x.alternative.Some? then EvalBlock(fuel, h1, env, x.alternative.value.statements, Absent)
    else (Normal(NULL), h1)
  }

  /** A call: the callee, unless it is an error; then the arguments, and a single error among
      them is the result; otherwise applyFunction. */
  function EvalCall(fuel: nat, h: Heap, env: nat, x: Expression): (r: (Outcome<Object>, Heap))
    requires x.CallExpression? && HeapOk(h) && env < |h|
    ensures Fits(h, r.0, r.1)
    decreases fuel, x, 1
  {
    var (callee, h1) := EvalExpression(fuel, h, env, x.callee);
    if callee.Halt? || IsError(callee.value) then (callee, h1)
    else
      var (args, h2) := EvalExpressions(fuel, h1, env, x.arguments, []);
      if args.Halt? then (Halt(args.reason), h2)
      else if |args.value| == 1 && IsError(args.value[0]) then (Normal(args.value[0]), h2)
      else
        match Enter(h2, callee.value, args.value)
        case Finished(out, h3) => (out, h3)
        case Entered(h3, frame, body) =>
          if fuel == 0 then (Halt(OutOfFuel), h3)
          else
            var (result, h4) := EvalBlock(fuel - 1, h3, frame, body.statements, Absent);
            if result.Halt? then (result, h4) else (Normal(Unwrap(result.value)), h4)
  }

  /** evalExpressions from the arguments still to evaluate, with acc the values so far: the first
      error ends it as the one-element list holding that error. */
  function EvalExpressions(fuel: nat, h: Heap, env: nat, es: seq<Option<Expression>>, acc: seq<Object>)
    : (r: (Outcome<seq<Object>>, Heap))
    requires HeapOk(h) && env < |h| && AllIn(acc, |h|)
    ensures FitsAll(h, r.0, r.1)
    decreases fuel, es, 0
  {
    if es == [] then (Normal(acc), h)
    else
      var (v, h1) := EvalExpression(fuel, h, env, es[0]);
      if v.Halt? then (Halt(v.reason), h1)
      else if IsError(v.value) then (Normal([v.value]), h1)
      else EvalExpressions(fuel, h1, env, es[1..], acc + [v.value])
  }

  /** How applyFunction goes on after its checks: it has finished with an outcome, or it runs
      body in frame of heap. */
  datatype Entry =
    | Finished(out: Outcome<Object>, heap: Heap)
    | Entered(heap: Heap, frame: nat, body: BlockStatement)

  /** applyFunction up to running the body. A callee that is not a Function is an error (nil
      panics when asked its type). A new frame enclosing the closure's frame is made first. On an
      arity mismatch the error lists the parameter names and the Inspect text of every argument,
      which panics on nil. Otherwise the parameters are bound in order in the new frame, where
      EvalCall runs the body (using one unit of fuel) and unwraps its result. */
  function Enter(h: Heap, callee: Object, args: seq<Object>): (r: Entry)
    requires HeapOk(h) && ObjectIn(callee, |h|) && AllIn(args, |h|)
    ensures !callee.Function? ==>
              r == Finished(if callee.Absent? then Halt(NilDereference)
                            else Normal(Error(NotAFunction(Type(callee)))), h)
    ensures r.Finished? ==> Fits(h, r.out, r.heap)
    ensures r.Entered? ==>
              callee.Function? && |args| == |callee.parameters| && r.body == callee.body
              && HeapOk(r.heap) && r.frame == |h| && |r.heap| == |h| + 1 && r.heap[..|h|] == h
              && r.heap[r.frame] == Frame(Bindings(callee.parameters, args), Some(callee.env))
    ensures callee.Function? && |args| != |callee.parameters| ==>
              r.Finished? && r.heap == h + [Frame(map[], Some(callee.env))]
              && r.out == if exists i :: 0 <= i < |args| && InspectPanics(args[i]) then Halt(NilDereference)
                          else Normal(Error(MissingParameters(callee.parameters, args)))
  {
    if !callee.Function? then
      if callee.Absent? then Finished(Halt(NilDereference), h)
      else Finished(Normal(Error(NotAFunction(Type(callee)))), h)
    else
      assert callee.env in FramesOf(callee);
      EnclosedOk(h, callee.env);
      var (h1, newEnv) := NewEnclosedEnvironment(h, callee.env);
      if |args| != |callee.parameters| then
        if exists i :: 0 <= i < |args| && InspectPanics(args[i]) then Finished(Halt(NilDereference), h1)
        else
          assert FramesOf(Error(MissingParameters(callee.parameters, args))) == FramesOfAll(args);
          Finished(Normal(Error(MissingParameters(callee.parameters, args))), h1)
      else
        var h2 := BindParameters(h1, newEnv, callee.parameters, args);
        assert h2[..|h|] == h;
        Entered(h2, newEnv, callee.body)
  }

  /** The bindings that setting parameter i to argument i, in order, leaves in an empty store. */
  function Bindings(params: seq<string>, args: seq<Object>): (m: map<string, Object>)
    requires |params| == |args|
    ensures forall n :: n in m <==> n in params
    ensures forall n :: n in m ==> exists i :: 0 <= i < |args| && m[n] == args[i]
    decreases |params|
  {
    if params == [] then map[]
    else
      var m := Bindings(params[..|params| - 1], args[..|args| - 1])[params[|params| - 1] := args[|args| - 1]];
      assert forall n :: n in m ==> exists i :: 0 <= i < |args| && m[n] == args[i] by {
        forall n | n in m ensures exists i :: 0 <= i < |args| && m[n] == args[i] {
          if n != params[|params| - 1] {
            var i :| 0 <= i < |args| - 1 && m[n] == args[..|args| - 1][i];
            assert m[n] == args[i];
          }
        }
      }
      m
  }

  /** The loop of applyFunction that sets parameter i to argument i in frame env, in order. */
  function BindParameters(h: Heap, env: nat, params: seq<string>, args: seq<Object>): (h': Heap)
    requires HeapOk(h) && env < |h| && |params| == |args| && AllIn(args, |h|) && h[env].store == map[]
    ensures HeapOk(h') && h' == h[env := Frame(Bindings(params, args), h[env].outer)]
    decreases |params|
  {
    if params == [] then h
    else
      var n := |params| - 1;
      var h1 := BindParameters(h, env, params[..n], args[..n]);
      assert AllIn(args[..n], |h|);
      SetOk(h1, env, params[n], args[n]);
      Set(h1, env, params[n], args[n])
  }

  /** One statement. `let` binds a value that is not an error in the current frame and yields
      it; `return` of nothing yields ReturnValue(NULL), of an error the error, and of anything
      else a ReturnValue carrying it. */
  function EvalStatement(fuel: nat, h: Heap, env: nat, s: Statement): (r: (Outcome<Object>, Heap))
    requires HeapOk(h) && env < |h|
    ensures Fits(h, r.0, r.1)
    decreases fuel, s, 1
  {
    match s
    case ExpressionStatement(e) => EvalExpression(fuel, h, env, e)
    case ReturnStatement(e) =>
      if e.None? then (Normal(ReturnValue(NULL)), h)
      else
        var (v, h1) := EvalExpression(fuel, h, env, e);
        if v.Halt? || IsError(v.value) then (v, h1) else (Normal(ReturnValue(v.value)), h1)
    case LetStatement(name, e) =>
      var (v, h1) := EvalExpression(fuel, h, env, e);
      if v.Halt? || IsError(v.value) then (v, h1)
      else
        SetOk(h1, env, name, v.value);
        (v, Set(h1, env, name, v.value))
  }

  /** evalBlockStatements from the statements still to run, with result the last value: a nil
      result panics when asked its type, and a ReturnValue or an Error ends the block as it is. */
  function EvalBlock(fuel: nat, h: Heap, env: nat, ss: seq<Statement>, result: Object): (r: (Outcome<Object>, Heap))
    requires HeapOk(h) && env < |h| && ObjectIn(result, |h|)
    ensures Fits(h, r.0, r.1)
    decreases fuel, ss, 0
  {
    if ss == [] then (Normal(result), h)
    else
      var (v, h1) := EvalStatement(fuel, h, env, ss[0]);
      if v.Halt? then (v, h1)
      else if v.value.Absent? then (Halt(NilDereference), h1)
      else if Type(v.value) == ReturnValueObj || Type(v.value) == ErrorObj then (v, h1)
      else EvalBlock(fuel, h1, env, ss[1..], v.value)
  }

  /** evalProgram from the statements still to run: the first ReturnValue ends the program with
      what it carries, the first Error ends it as it is; otherwise the last value (nil for no
      statements). Unlike a block, a nil statement value does not panic here. */
  function EvalProgram(fuel: nat, h: Heap, env: nat, ss: seq<Statement>, result: Object): (r: (Outcome<Object>, Heap))
    requires HeapOk(h) && env < |h| && ObjectIn(result, |h|)
    ensures Fits(h, r.0, r.1)
    decreases ss
  {
    if ss == [] then (Normal(result), h)
    else
      var (v, h1) := EvalStatement(fuel, h, env, ss[0]);
      if v.Halt? then (v, h1)
      else if v.value.ReturnValue? then
        assert FramesOf(v.value) == FramesOf(v.value.returned);
        (Normal(v.value.returned), h1)
      else if v.value.Error? then (v, h1)
      else EvalProgram(fuel, h1, env, ss[1..], v.value)
  }

  /** Eval of a whole program in environment env. */
  function Run(fuel: nat, h: Heap, env: nat, p: Program): (r: (Outcome<Object>, Heap))
    requires HeapOk(h) && env < |h|
    ensures Fits(h, r.0, r.1)
  {
    EvalProgram(fuel, h, env, p.statements, Absent)
  }

  // The source's loops, as loops, each proved to compute its function above.

  /** The loop of evalProgram. */
  method ComputeProgram(fuel: nat, h: Heap, env: nat, ss: seq<Statement>) returns (out: Outcome<Object>, h': Heap)
    requires HeapOk(h) && env < |h|
    ensures (out, h') == EvalProgram(fuel, h, env, ss, Absent)
  {
    var result := Absent;
    h' := h;
    var k := 0;
    while k < |ss|
      invariant 0 <= k <= |ss|
      invariant HeapOk(h') && env < |h'| && ObjectIn(result, |h'|)
      invariant EvalProgram(fuel, h', env, ss[k..], result) == EvalProgram(fuel, h, env, ss, Absent)
      decreases |ss| - k
    {
      assert ss[k..][0] == ss[k] && ss[k..][1..] == ss[k + 1..];
      var (v, h1) := EvalStatement(fuel, h', env, ss[k]);
      if v.Halt? {
        return v, h1;
      } else if v.value.ReturnValue? {
        return Normal(v.value.returned), h1;
      } else if v.value.Error? {
        return v, h1;
      }
      result, h' := v.value, h1;
      k := k + 1;
    }
    out := Normal(result);
  }

  /** The loop of evalBlockStatements. */
  method ComputeBlock(fuel: nat, h: Heap, env: nat, ss: seq<Statement>) returns (out: Outcome<Object>, h': Heap)
    requires HeapOk(h) && env < |h|
    ensures (out, h') == EvalBlock(fuel, h, env, ss, Absent)
  {
    var result := Absent;
    h' := h;
    var k := 0;
    while k < |ss|
      invariant 0 <= k <= |ss|
      invariant HeapOk(h') && env < |h'| && ObjectIn(result, |h'|)
      invariant EvalBlock(fuel, h', env, ss[k..], result) == EvalBlock(fuel, h, env, ss, Absent)
      decreases |ss| - k
    {
      assert ss[k..][0] == ss[k] && ss[k..][1..] == ss[k + 1..];
      var (v, h1) := EvalStatement(fuel, h', env, ss[k]);
      if v.Halt? {
        return v, h1;
      } else if v.value.Absent? {
        return Halt(NilDereference), h1;
      } else if Type(v.value) == ReturnValueObj || Type(v.value) == ErrorObj {
        return v, h1;
      }
      result, h' := v.value, h1;
      k := k + 1;
    }
    out := Normal(result);
  }

  /** The loop of evalExpressions. */
  method ComputeArguments(fuel: nat, h: Heap, env: nat, es: seq<Option<Expression>>)
    returns (out: Outcome<seq<Object>>, h': Heap)
    requires HeapOk(h) && env < |h|
    ensures (out, h') == EvalExpressions(fuel, h, env, es, [])
  {
    var evals: seq<Object> := [];
    h' := h;
    var k := 0;
    while k < |es|
      invariant 0 <= k <= |es|
      invariant HeapOk(h') && env < |h'| && AllIn(evals, |h'|)
      invariant EvalExpressions(fuel, h', env, es[k..], evals) == EvalExpressions(fuel, h, env, es, [])
      decreases |es| - k
    {
      assert es[k..][0] == es[k] && es[k..][1..] == es[k + 1..];
      var (v, h1) := EvalExpression(fuel, h', env, es[k]);
      if v.Halt? {
        return Halt(v.reason), h1;
      } else if IsError(v.value) {
        return Normal([v.value]), h1;
      }
      evals, h' := evals + [v.value], h1;
      k := k + 1;
    }
    out := Normal(evals);
  }

  /** The loop of applyFunction that binds the parameters. */
  method SetParameters(h: Heap, env: nat, params: seq<string>, args: seq<Object>) returns (h': Heap)
    requires HeapOk(h) && env < |h| && |params| == |args| && AllIn(args, |h|) && h[env].store == map[]
    ensures h' == BindParameters(h, env, params, args)
    ensures h'[env].store == Bindings(params, args)
  {
    h' := h;
    for i := 0 to |args|
      invariant h' == BindParameters(h, env, params[..i], args[..i])
    {
      assert params[..i + 1][..i] == params[..i] && args[..i + 1][..i] == args[..i];
      assert params[..i + 1][i] == params[i] && args[..i + 1][i] == args[i];
      assert AllIn(args[..i], |h|) && ObjectIn(args[i], |h'|);
      h' := Set(h', env, params[i], args[i]);
    }
    assert params[..|args|] == params && args[..|args|] == args;
  }
}
