/** Properties of the evaluator model: truthiness, error propagation, binding, the way `return`
    ends blocks and programs, function application, and worked examples from the evaluator's
    tests. */
module EvaluatorProperties {
  import opened Wrappers
  import opened GoInt
  import opened Ast
  import opened Objects
  import opened Environments
  import opened Evaluator

  /** Only NULL and FALSE are falsy, `!` is the negation of truthiness, and `!!x` is x's
      truthiness (so `!!5` is true). */
  lemma TruthinessAndBang(o: Object)
    ensures !IsTruthy(o) <==> o == NULL || o == FALSE
    ensures EvalBang(o) == NativeBool(!IsTruthy(o))
    ensures EvalBang(EvalBang(o)) == NativeBool(IsTruthy(o))
  {
    assert IsTruthy(EvalBang(o)) == !IsTruthy(o);
  }

  /** `-` twice gives back any integer, the most negative one included. */
  lemma MinusTwice(v: Int64)
    ensures var once := EvalMinus(Integer(v));
            once.Normal? && EvalMinus(once.value) == Normal(Integer(v))
  {
  }

  /** evalIfExpression picks the branch by truthiness: a truthy condition runs the consequence
      block and a falsy one the alternative block, both in the current frame; a falsy condition
      without an else yields NULL. */
  lemma IfChoosesBranch(fuel: nat, h: Heap, env: nat, x: Expression)
    requires HeapOk(h) && env < |h| && x.IfExpression?
    ensures var (cond, h1) := EvalExpression(fuel, h, env, x.condition);
            cond.Normal? && !IsError(cond.value) ==>
              (IsTruthy(cond.value) ==>
                 EvalNode(fuel, h, env, x) == EvalBlock(fuel, h1, env, x.consequence.statements, Absent))
              && (!IsTruthy(cond.value) && x.alternative.Some? ==>
                    EvalNode(fuel, h, env, x) == EvalBlock(fuel, h1, env, x.alternative.value.statements, Absent))
              && (!IsTruthy(cond.value) && x.alternative.None? ==> EvalNode(fuel, h, env, x) == (Normal(NULL), h1))
  {
  }

  /** An error from the first operand, the condition or the callee is the result, as it is, and
      nothing after it is evaluated; so is an error from the right operand. */
  lemma ErrorsPropagate(fuel: nat, h: Heap, env: nat, x: Expression)
    requires HeapOk(h) && env < |h|
    ensures x.PrefixExpression? && IsErrorOutcome(EvalExpression(fuel, h, env, x.right).0) ==>
              EvalNode(fuel, h, env, x) == EvalExpression(fuel, h, env, x.right)
    ensures x.InfixExpression? && IsErrorOutcome(EvalExpression(fuel, h, env, x.left).0) ==>
              EvalNode(fuel, h, env, x) == EvalExpression(fuel, h, env, x.left)
    ensures x.InfixExpression? ==>
              var (left, h1) := EvalExpression(fuel, h, env, x.left);
              left.Normal? && !IsError(left.value) && IsErrorOutcome(EvalExpression(fuel, h1, env, x.right).0) ==>
                EvalNode(fuel, h, env, x) == EvalExpression(fuel, h1, env, x.right)
    ensures x.IfExpression? && IsErrorOutcome(EvalExpression(fuel, h, env, x.condition).0) ==>
              EvalNode(fuel, h, env, x) == EvalExpression(fuel, h, env, x.condition)
    ensures x.CallExpression? && IsErrorOutcome(EvalExpression(fuel, h, env, x.callee).0) ==>
              EvalNode(fuel, h, env, x) == EvalExpression(fuel, h, env, x.callee)
  {
  }

  predicate IsErrorOutcome(o: Outcome<Object>) {
    o.Normal? && IsError(o.value)
  }

  /** evalExpressions yields either one value per argument, none of them an error, or the single
      error that stopped it, so EvalCall's test for a one-element error list is exactly "an
      argument failed". */
  lemma {:induction false} ArgumentsShape(fuel: nat, h: Heap, env: nat, es: seq<Option<Expression>>, acc: seq<Object>)
    requires HeapOk(h) && env < |h| && AllIn(acc, |h|)
    requires forall i :: 0 <= i < |acc| ==> !IsError(acc[i])
    ensures var r := EvalExpressions(fuel, h, env, es, acc).0;
            r.Normal? ==>
              (|r.value| == |acc| + |es| && r.value[..|acc|] == acc
               && forall i :: 0 <= i < |r.value| ==> !IsError(r.value[i]))
              || (|r.value| == 1 && IsError(r.value[0]))
    decreases |es|
  {
    if es != [] {
      var (v, h1) := EvalExpression(fuel, h, env, es[0]);
      if v.Normal? && !IsError(v.value) {
        ArgumentsShape(fuel, h1, env, es[1..], acc + [v.value]);
        var r := EvalExpressions(fuel, h1, env, es[1..], acc + [v.value]).0;
        if r.Normal? && |r.value| == |acc| + 1 + |es[1..]| && r.value[..|acc| + 1] == acc + [v.value] {
          assert r.value[..|acc|] == (acc + [v.value])[..|acc|];
        }
      }
    }
  }

  /** The first argument whose value is an error ends evalExpressions: when the arguments before
      position i give values that are not errors, an error from argument i is the whole result,
      as the one-element list holding it, and nothing after it is evaluated. */
  lemma {:induction false} FirstArgumentError(fuel: nat, h: Heap, env: nat, es: seq<Option<Expression>>, acc: seq<Object>, i: nat)
    requires HeapOk(h) && env < |h| && AllIn(acc, |h|) && i < |es|
    requires var (r, _) := EvalExpressions(fuel, h, env, es[..i], acc);
             r.Normal? && |r.value| == |acc| + i && forall j :: |acc| <= j < |r.value| ==> !IsError(r.value[j])
    ensures var (_, h1) := EvalExpressions(fuel, h, env, es[..i], acc);
            var (v, h2) := EvalExpression(fuel, h1, env, es[i]);
            IsErrorOutcome(v) ==> EvalExpressions(fuel, h, env, es, acc) == (Normal([v.value]), h2)
    decreases i
  {
    if i > 0 {
      var (v0, h1) := EvalExpression(fuel, h, env, es[0]);
      assert es[..i][0] == es[0] && es[..i][1..] == es[1..][..i - 1];
      var r := EvalExpressions(fuel, h, env, es[..i], acc).0;
      assert !IsError(r.value[|acc|]);
      assert v0.Normal? && !IsError(v0.value);
      FirstArgumentError(fuel, h1, env, es[1..], acc + [v0.value], i - 1);
      assert es[1..][i - 1] == es[i];
    }
  }

  /** In a call whose callee is not an error, the first argument that evaluates to an error ends
      the call with that error, unchanged: the function is not entered. */
  lemma ArgumentErrorEndsCall(fuel: nat, h: Heap, env: nat, x: Expression, i: nat)
    requires HeapOk(h) && env < |h| && x.CallExpression? && i < |x.arguments|
    ensures var (callee, h1) := EvalExpression(fuel, h, env, x.callee);
            callee.Normal? && !IsError(callee.value) ==>
              var (r, h2) := EvalExpressions(fuel, h1, env, x.arguments[..i], []);
              r.Normal? && |r.value| == i && (forall j :: 0 <= j < i ==> !IsError(r.value[j])) ==>
                var (v, h3) := EvalExpression(fuel, h2, env, x.arguments[i]);
                IsErrorOutcome(v) ==> EvalNode(fuel, h, env, x) == (v, h3)
  {
    var (callee, h1) := EvalExpression(fuel, h, env, x.callee);
    if callee.Normal? && !IsError(callee.value) {
      var (r, h2) := EvalExpressions(fuel, h1, env, x.arguments[..i], []);
      if r.Normal? && |r.value| == i && (forall j :: 0 <= j < i ==> !IsError(r.value[j])) {
        FirstArgumentError(fuel, h1, env, x.arguments, [], i);
      }
    }
  }

  /** A call whose callee and arguments are not errors goes to applyFunction. When it enters the
      function, the body runs as a block in the new frame with one unit of fuel less, and its
      value is unwrapped: a ReturnValue gives what it carries and nil gives NULL. Without fuel
      left the call halts; when applyFunction finishes without entering, that is the result. */
  lemma CallUnwrapsBody(fuel: nat, h: Heap, env: nat, x: Expression)
    requires HeapOk(h) && env < |h| && x.CallExpression?
    ensures var (callee, h1) := EvalExpression(fuel, h, env, x.callee);
            callee.Normal? && !IsError(callee.value) ==>
              var (args, h2) := EvalExpressions(fuel, h1, env, x.arguments, []);
              args.Normal? && !(|args.value| == 1 && IsError(args.value[0])) ==>
                var entry := Enter(h2, callee.value, args.value);
                (entry.Finished? ==> EvalNode(fuel, h, env, x) == (entry.out, entry.heap))
                && (entry.Entered? && fuel == 0 ==> EvalNode(fuel, h, env, x) == (Halt(OutOfFuel), entry.heap))
                && (entry.Entered? && fuel > 0 ==>
                      var (result, h4) := EvalBlock(fuel - 1, entry.heap, entry.frame, entry.body.statements, Absent);
                      result.Normal? ==> EvalNode(fuel, h, env, x) == (Normal(Unwrap(result.value)), h4))
  {
  }

  /** `return` of nothing yields ReturnValue(NULL); `return` of an error yields the error itself,
      not wrapped; any other value is wrapped in a ReturnValue. */
  lemma ReturnPassesErrors(fuel: nat, h: Heap, env: nat, e: Option<Expression>)
    requires HeapOk(h) && env < |h|
    ensures e.None? ==> EvalStatement(fuel, h, env, ReturnStatement(e)) == (Normal(ReturnValue(NULL)), h)
    ensures var (v, h1) := EvalExpression(fuel, h, env, e);
            e.Some? && v.Normal? ==>
              EvalStatement(fuel, h, env, ReturnStatement(e))
              == (Normal(if IsError(v.value) then v.value else ReturnValue(v.value)), h1)
  {
  }

  /** `let` binds a value that is not an error in the current frame and yields it; other names
      keep their bindings. */
  lemma LetBinds(fuel: nat, h: Heap, env: nat, name: string, e: Option<Expression>)
    requires HeapOk(h) && env < |h|
    ensures var (v, h1) := EvalExpression(fuel, h, env, e);
            var (r, h2) := EvalStatement(fuel, h, env, LetStatement(name, e));
            v.Normal? && !IsError(v.value) ==>
              r == v && Get(h2, env, name) == (v.value, true)
              && forall other :: other != name ==> Get(h2, env, other) == Get(h1, env, other)
  {
    var (v, h1) := EvalExpression(fuel, h, env, e);
    if v.Normal? && !IsError(v.value) {
      GetAfterSet(h1, env, name, v.value);
      forall other | other != name
        ensures Get(Set(h1, env, name, v.value), env, other) == Get(h1, env, other)
      {
        GetOtherAfterSet(h1, env, name, v.value, other);
      }
    }
  }

  /** A `let` whose value is an error yields that error and binds nothing. */
  lemma FailedLetBindsNothing(fuel: nat, h: Heap, env: nat, name: string, e: Option<Expression>)
    requires HeapOk(h) && env < |h|
    ensures var (v, h1) := EvalExpression(fuel, h, env, e);
            IsErrorOutcome(v) ==> EvalStatement(fuel, h, env, LetStatement(name, e)) == (v, h1)
  {
  }

  /** An identifier evaluates to its binding, and to "identity not found: NAME" when it has none. */
  lemma IdentifierLookup(fuel: nat, h: Heap, env: nat, name: string)
    requires HeapOk(h) && env < |h|
    ensures Get(h, env, name).1 ==> EvalNode(fuel, h, env, Identifier(name)) == (Normal(Get(h, env, name).0), h)
    ensures !Get(h, env, name).1 ==>
              EvalNode(fuel, h, env, Identifier(name)) == (Normal(Error(IdentityNotFound(name))), h)
              && Text(IdentityNotFound(name)) == Some("identity not found: " + name)
  {
  }

  /** A statement whose value is a ReturnValue ends the program with what it carries, and one
      whose value is an Error ends it with the error, whatever follows. A block ends on either
      too, but keeps the ReturnValue as it is. */
  lemma ReturnAndErrorEndEvaluation(fuel: nat, h: Heap, env: nat, s: Statement, rest: seq<Statement>, result: Object)
    requires HeapOk(h) && env < |h| && ObjectIn(result, |h|)
    ensures var (v, h1) := EvalStatement(fuel, h, env, s);
            v.Normal? && v.value.ReturnValue? ==>
              EvalProgram(fuel, h, env, [s] + rest, result) == (Normal(v.value.returned), h1)
              && EvalBlock(fuel, h, env, [s] + rest, result) == (v, h1)
    ensures var (v, h1) := EvalStatement(fuel, h, env, s);
            v.Normal? && v.value.Error? ==>
              EvalProgram(fuel, h, env, [s] + rest, result) == (v, h1)
              && EvalBlock(fuel, h, env, [s] + rest, result) == (v, h1)
  {
    assert ([s] + rest)[0] == s;
  }

  /** A statement whose value is nil makes a block panic, but a program goes on. */
  lemma NilStatementInBlockAndProgram(fuel: nat, h: Heap, env: nat, s: Statement, rest: seq<Statement>, result: Object)
    requires HeapOk(h) && env < |h| && ObjectIn(result, |h|)
    ensures var (v, h1) := EvalStatement(fuel, h, env, s);
            v == Normal(Absent) ==>
              EvalBlock(fuel, h, env, [s] + rest, result) == (Halt(NilDereference), h1)
              && EvalProgram(fuel, h, env, [s] + rest, result) == EvalProgram(fuel, h1, env, rest, Absent)
  {
    assert ([s] + rest)[0] == s && ([s] + rest)[1..] == rest;
  }

  /** The parameters are bound positionally: a parameter that no later parameter repeats is bound
      to the argument at its own position. */
  lemma {:induction false} BindingsPositional(params: seq<string>, args: seq<Object>, i: nat)
    requires |params| == |args| && i < |params|
    requires forall j :: i < j < |params| ==> params[j] != params[i]
    ensures params[i] in Bindings(params, args) && Bindings(params, args)[params[i]] == args[i]
    decreases |params|
  {
    var n := |params| - 1;
    var earlier := Bindings(params[..n], args[..n]);
    assert Bindings(params, args) == earlier[params[n] := args[n]];
    if i < n {
      var ps, xs := params[..n], args[..n];
      assert ps[i] == params[i] && xs[i] == args[i];
      forall j | i < j < n ensures ps[j] != ps[i] {
        assert ps[j] == params[j];
      }
      BindingsPositional(ps, xs, i);
      assert earlier[params[i]] == args[i];
      assert params[n] != params[i];
    }
  }

  /** The body of a function runs in a new frame whose outer frame is the closure's: there the
      parameters have their arguments and every other name has its binding in the closure's frame. */
  lemma EnteredFrame(h: Heap, callee: Object, args: seq<Object>, name: string)
    requires HeapOk(h) && ObjectIn(callee, |h|) && AllIn(args, |h|)
    ensures var r := Enter(h, callee, args);
            r.Entered? && name !in callee.parameters ==>
              Get(r.heap, r.frame, name) == Get(h, callee.env, name)
    ensures var r := Enter(h, callee, args);
            r.Entered? ==>
              forall i :: 0 <= i < |args| && (forall j :: i < j < |args| ==> callee.parameters[j] != callee.parameters[i]) ==>
                Get(r.heap, r.frame, callee.parameters[i]) == (args[i], true)
  {
    var r := Enter(h, callee, args);
    if r.Entered? {
      var c := Chain(h, callee.env);
      assert r.heap == h + [r.heap[|h|]];
      ChainExtended(h, [r.heap[|h|]], callee.env);
      assert Chain(r.heap, r.frame) == [Bindings(callee.parameters, args)] + c;
      assert ([Bindings(callee.parameters, args)] + c)[1..] == c;
      forall i | 0 <= i < |args| && (forall j :: i < j < |args| ==> callee.parameters[j] != callee.parameters[i])
        ensures Get(r.heap, r.frame, callee.parameters[i]) == (args[i], true)
      {
        BindingsPositional(callee.parameters, args, i);
      }
    }
  }

  // Worked examples. Each takes its syntax tree as a parameter equal to the tree the parser
  // builds, and steps through the evaluation.

  function Int(v: Int64): Option<Expression> {
    Some(IntegerLiteral(v))
  }

  function Op(l: Option<Expression>, op: string, r: Option<Expression>): Option<Expression> {
    Some(InfixExpression(l, op, r))
  }

  /** Two integer operands that evaluate without touching the heap go to evalInfixOperator. */
  lemma IntegerOperands(fuel: nat, h: Heap, env: nat, x: Option<Expression>, a: Int64, b: Int64)
    requires HeapOk(h) && env < |h| && x.Some? && x.value.InfixExpression?
    requires EvalExpression(fuel, h, env, x.value.left) == (Normal(Integer(a)), h)
    requires EvalExpression(fuel, h, env, x.value.right) == (Normal(Integer(b)), h)
    ensures EvalExpression(fuel, h, env, x) == (EvalInfixOperator(x.value.operator, Integer(a), Integer(b)), h)
  {
    assert EvalExpression(fuel, h, env, x) == EvalNode(fuel, h, env, x.value) == EvalInfix(fuel, h, env, x.value);
  }

  /** `(5 + 10 * 2 + 15 / 3) * 2 + -10` evaluates to 50. */
  lemma ArithmeticExample(fuel: nat, h: Heap, env: nat, e: Option<Expression>)
    requires HeapOk(h) && env < |h|
    requires e == Op(Op(Op(Op(Int(5), "+", Op(Int(10), "*", Int(2))), "+", Op(Int(15), "/", Int(3))), "*", Int(2)),
                     "+", Some(PrefixExpression("-", Int(10))))
    ensures EvalExpression(fuel, h, env, e) == (Normal(Integer(50)), h)
  {
    var product := Op(Int(10), "*", Int(2));
    IntegerOperands(fuel, h, env, product, 10, 2);
    var sum := Op(Int(5), "+", product);
    IntegerOperands(fuel, h, env, sum, 5, 20);
    var quotient := Op(Int(15), "/", Int(3));
    assert Quot(15, 3) == 5;
    IntegerOperands(fuel, h, env, quotient, 15, 3);
    var group := Op(sum, "+", quotient);
    IntegerOperands(fuel, h, env, group, 25, 5);
    var doubled := Op(group, "*", Int(2));
    IntegerOperands(fuel, h, env, doubled, 30, 2);
    var negative := Some(PrefixExpression("-", Int(10)));
    assert EvalExpression(fuel, h, env, Int(10)) == (Normal(Integer(10)), h);
    assert EvalPrefixOperator("-", Integer(10)) == Normal(Integer(-10));
    assert EvalExpression(fuel, h, env, negative) == EvalPrefix(fuel, h, env, negative.value) == (Normal(Integer(-10)), h);
    IntegerOperands(fuel, h, env, e, 60, -10);
  }

  /** `9; return 2 * 5; 9;` evaluates to 10: the program stops at the return. */
  lemma ReturnExample(fuel: nat, h: Heap, env: nat, ss: seq<Statement>)
    requires HeapOk(h) && env < |h|
    requires ss == [ExpressionStatement(Int(9)), ReturnStatement(Op(Int(2), "*", Int(5))), ExpressionStatement(Int(9))]
    ensures Run(fuel, h, env, Program(ss)) == (Normal(Integer(10)), h)
  {
    var product := Op(Int(2), "*", Int(5));
    IntegerOperands(fuel, h, env, product, 2, 5);
    assert EvalExpression(fuel, h, env, Int(9)) == (Normal(Integer(9)), h);
    assert EvalStatement(fuel, h, env, ss[0]) == (Normal(Integer(9)), h);
    assert EvalStatement(fuel, h, env, ss[1]) == (Normal(ReturnValue(Integer(10))), h);
    assert ss[1..] == [ss[1]] + ss[2..];
    ReturnAndErrorEndEvaluation(fuel, h, env, ss[1], ss[2..], Integer(9));
  }

  /** A block `{ x; }` evaluates to the value of x. */
  lemma IdentityBody(fuel: nat, h: Heap, frame: nat, v: Object)
    requires HeapOk(h) && frame < |h| && Get(h, frame, "x") == (v, true)
    requires v.Integer?
    ensures EvalBlock(fuel, h, frame, [ExpressionStatement(Some(Identifier("x")))], Absent) == (Normal(v), h)
  {
    var ss := [ExpressionStatement(Some(Identifier("x")))];
    assert EvalExpression(fuel, h, frame, Some(Identifier("x"))) == (Normal(v), h);
    assert EvalStatement(fuel, h, frame, ss[0]) == (Normal(v), h);
    assert ss[1..] == [];
  }

  /** `identity(5)` with identity bound to `fn(x) { x; }` evaluates to 5. */
  lemma IdentityCall(fuel: nat, h: Heap, env: nat, fn: Object)
    requires HeapOk(h) && env < |h| && fuel >= 1
    requires fn == Function(["x"], BlockStatement([ExpressionStatement(Some(Identifier("x")))]), env)
    requires Get(h, env, "identity") == (fn, true)
    ensures EvalExpression(fuel, h, env, Some(CallExpression(Some(Identifier("identity")), [Int(5)]))).0
            == Normal(Integer(5))
  {
    var callee := Some(Identifier("identity"));
    assert EvalExpression(fuel, h, env, callee) == (Normal(fn), h);
    assert EvalExpressions(fuel, h, env, [Int(5)], []) == (Normal([Integer(5)]), h) by {
      assert EvalExpression(fuel, h, env, Int(5)) == (Normal(Integer(5)), h);
      assert [Int(5)][1..] == [];
      assert [] + [Integer(5)] == [Integer(5)];
      assert EvalExpressions(fuel, h, env, [], [Integer(5)]) == (Normal([Integer(5)]), h);
    }
    var entry := Enter(h, fn, [Integer(5)]);
    assert entry.Entered?;
    EnteredFrame(h, fn, [Integer(5)], "x");
    IdentityBody(fuel - 1, entry.heap, entry.frame, Integer(5));
    var call := CallExpression(callee, [Int(5)]);
    assert EvalCall(fuel, h, env, call).0 == Normal(Integer(5));
    assert EvalNode(fuel, h, env, call).0 == Normal(Integer(5));
  }

  /** `let identity = fn(x) { x; }; identity(5);` evaluates to 5: the closure is bound by the
      let, found by the call, and its body reads the parameter from the new frame. */
  lemma ApplicationExample(fuel: nat, h: Heap, env: nat, ss: seq<Statement>)
    requires HeapOk(h) && env < |h| && fuel >= 1
    requires ss == [LetStatement("identity", Some(FunctionLiteral(["x"], BlockStatement([ExpressionStatement(Some(Identifier("x")))])))),
                    ExpressionStatement(Some(CallExpression(Some(Identifier("identity")), [Int(5)])))]
    ensures Run(fuel, h, env, Program(ss)).0 == Normal(Integer(5))
  {
    var body := BlockStatement([ExpressionStatement(Some(Identifier("x")))]);
    var fn := Function(["x"], body, env);
    assert EvalExpression(fuel, h, env, Some(FunctionLiteral(["x"], body))) == (Normal(fn), h);
    var h1 := Set(h, env, "identity", fn);
    SetOk(h, env, "identity", fn);
    assert EvalStatement(fuel, h, env, ss[0]) == (Normal(fn), h1);
    GetAfterSet(h, env, "identity", fn);
    IdentityCall(fuel, h1, env, fn);
    var (v2, h2) := EvalStatement(fuel, h1, env, ss[1]);
    assert v2 == Normal(Integer(5));
    assert ss[1..][0] == ss[1] && ss[1..][1..] == [];
    assert EvalProgram(fuel, h2, env, [], v2.value) == (v2, h2);
    assert EvalProgram(fuel, h1, env, ss[1..], fn) == (v2, h2);
    assert EvalProgram(fuel, h, env, ss, Absent) == (v2, h2);
  }
}
