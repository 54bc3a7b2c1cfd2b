/** The syntax tree the parser builds and the evaluator walks. A field that the parser can leave
    nil (an operand, a condition, a callee, a let value) is an Option; parameter and argument
    lists that the parser abandons are empty, as Go's nil slice is. */
module Ast {
  import opened Wrappers
  import opened GoInt

  datatype Expression =
    | Identifier(value: string)
    | IntegerLiteral(intValue: Int64)
    | BooleanLiteral(boolValue: bool)
    | StringLiteral(strValue: string)
    | PrefixExpression(operator: string, right: Option<Expression>)
    | InfixExpression(left: Option<Expression>, operator: string, right: Option<Expression>)
    | IfExpression(condition: Option<Expression>, consequence: BlockStatement, alternative: Option<BlockStatement>)
    | FunctionLiteral(parameters: seq<string>, body: BlockStatement)
    | CallExpression(callee: Option<Expression>, arguments: seq<Option<Expression>>)

  datatype Statement =
    | LetStatement(name: string, value: Option<Expression>)
    | ReturnStatement(returnValue: Option<Expression>)
    | ExpressionStatement(expression: Option<Expression>)

  datatype BlockStatement = BlockStatement(statements: seq<Statement>)

  datatype Program = Program(statements: seq<Statement>)

  /** A tree without nil anywhere in it: what an error-free parse produces. */
  predicate CompleteExpression(e: Expression) {
    match e
    case PrefixExpression(_, r) => r.Some? && CompleteExpression(r.value)
    case InfixExpression(l, _, r) =>
      l.Some? && CompleteExpression(l.value) && r.Some? && CompleteExpression(r.value)
    case IfExpression(c, cons, alt) =>
      c.Some? && CompleteExpression(c.value) && CompleteBlock(cons)
      && (alt.Some? ==> CompleteBlock(alt.value))
    case FunctionLiteral(_, body) => CompleteBlock(body)
    case CallExpression(f, args) =>
      f.Some? && CompleteExpression(f.value)
      && forall i :: 0 <= i < |args| ==> args[i].Some? && CompleteExpression(args[i].value)
    case _ => true
  }

  predicate CompleteStatement(s: Statement) {
    match s
    case LetStatement(_, v) => v.Some? && CompleteExpression(v.value)
    case ReturnStatement(v) => v.Some? && CompleteExpression(v.value)
    case ExpressionStatement(v) => v.Some? && CompleteExpression(v.value)
  }

  predicate CompleteBlock(b: BlockStatement) {
    forall i :: 0 <= i < |b.statements| ==> CompleteStatement(b.statements[i])
  }

  predicate CompleteProgram(p: Program) {
    forall i :: 0 <= i < |p.statements| ==> CompleteStatement(p.statements[i])
  }
}
