/** The meaning of parser/parser.go as functions over the token stream. The lexer hands the parser
    one token per call and EOF forever after the end of its input, so the stream is a finite
    sequence ending in EOF read through a window that stops on that last EOF: `Cur` and `Peek` are
    the parser's curToken and peekToken, and `Next` is nextToken. Each parse function takes the
    window position and the error list, and returns the node it builds (None for Go's nil) together
    with the new position and error list. */
module ParserSpec {
  import opened Wrappers
  import opened GoInt
  import opened Token
  import opened Ast

  /** The precedence levels, in the order of the source's iota constants. */
  const LOWEST: int := 1
  const EQUALS: int := 2
  const LESSGREATER: int := 3
  const SUM: int := 4
  const PRODUCT: int := 5
  const PREFIX: int := 6
  const CALL: int := 7

  /** The precedences map of the source. */
  const PRECEDENCES: map<TokenType, int> :=
    map[Eq := EQUALS, NotEq := EQUALS, Lt := LESSGREATER, Gt := LESSGREATER, Plus := SUM,
        Minus := SUM, Asterisk := PRODUCT, Slash := PRODUCT, LParen := CALL]

  /** peekPrecedence and curPrecedence: the table entry, or LOWEST for a kind outside the table. */
  function Precedence(k: TokenType): (p: int)
    ensures LOWEST <= p <= CALL && p != PREFIX
    ensures p > LOWEST <==> k in {Eq, NotEq, Lt, Gt, Plus, Minus, Asterisk, Slash, LParen}
  {
    if k in PRECEDENCES then PRECEDENCES[k] else LOWEST
  }

  /** Which parse function New registers for a token kind in prefix and in infix position. */
  datatype PrefixFn =
    | IdentifierFn | IntegerLiteralFn | PrefixExpressionFn | BooleanLiteralFn
    | GroupedExpressionFn | IfExpressionFn | FunctionLiteralFn | StringLiteralFn
  datatype InfixFn = InfixExpressionFn | CallExpressionFn

  function PrefixTable(): map<TokenType, PrefixFn> {
    map[Ident := IdentifierFn, Int := IntegerLiteralFn, Bang := PrefixExpressionFn,
        Minus := PrefixExpressionFn, True := BooleanLiteralFn, False := BooleanLiteralFn,
        LParen := GroupedExpressionFn, If := IfExpressionFn, Function := FunctionLiteralFn,
        Str := StringLiteralFn]
  }

  function InfixTable(): map<TokenType, InfixFn> {
    map[Eq := InfixExpressionFn, NotEq := InfixExpressionFn, Lt := InfixExpressionFn,
        Gt := InfixExpressionFn, Plus := InfixExpressionFn, Minus := InfixExpressionFn,
        Asterisk := InfixExpressionFn, Slash := InfixExpressionFn, LParen := CallExpressionFn]
  }

  /** The errors the parser records. peekError names the expected and the actual peek kind,
      noPrefixParseFnError the current kind, and a failed integer conversion the literal. */
  datatype ParseError =
    | PeekError(expected: TokenType, got: TokenType)
    | NoPrefixParseFn(kind: TokenType)
    | IntegerParseError(literal: string)

  /** A token stream as the lexer produces it: it ends with EOF, and every INT literal is a
      non-empty run of decimal digits. */
  predicate ValidTokens(toks: seq<Token>) {
    |toks| > 0 && toks[|toks| - 1].kind == Eof
    && forall i :: 0 <= i < |toks| && toks[i].kind == Int ==> |toks[i].literal| > 0 && IsDigitString(toks[i].literal)
  }

  datatype PState = PState(pos: nat, errors: seq<ParseError>)

  /** The token at index i of the endless stream: past the end it is the final EOF again. */
  function At(toks: seq<Token>, i: nat): (t: Token)
    requires ValidTokens(toks)
    ensures i >= |toks| - 1 ==> t.kind == Eof
    ensures t.kind == Int ==> |t.literal| > 0 && IsDigitString(t.literal)
  {
    if i < |toks| then toks[i] else toks[|toks| - 1]
  }

  function Cur(toks: seq<Token>, s: PState): Token
    requires ValidTokens(toks)
  {
    At(toks, s.pos)
  }

  function Peek(toks: seq<Token>, s: PState): Token
    requires ValidTokens(toks)
  {
    At(toks, s.pos + 1)
  }

  /** nextToken. On the last EOF the window no longer moves: both tokens are EOF and stay so. */
  function Next(toks: seq<Token>, s: PState): (s': PState)
    requires ValidTokens(toks) && s.pos < |toks|
    ensures s'.pos < |toks| && s'.errors == s.errors
    ensures Cur(toks, s') == Peek(toks, s)
    ensures Cur(toks, s).kind != Eof || Peek(toks, s).kind != Eof ==> s'.pos == s.pos + 1
  {
    if s.pos + 1 < |toks| then s.(pos := s.pos + 1) else s
  }

  function AddError(s: PState, e: ParseError): PState {
    s.(errors := s.errors + [e])
  }

  /** peekStep: advance when the peek token has the expected kind, otherwise record peekError. */
  function PeekStep(toks: seq<Token>, s: PState, k: TokenType): (r: (bool, PState))
    requires ValidTokens(toks) && s.pos < |toks|
    ensures r.0 <==> Peek(toks, s).kind == k
    ensures r.0 ==> r.1 == Next(toks, s)
    ensures !r.0 ==> r.1 == AddError(s, PeekError(k, Peek(toks, s).kind))
  {
    if Peek(toks, s).kind == k then (true, Next(toks, s)) else (false, AddError(s, PeekError(k, Peek(toks, s).kind)))
  }

  /** The position only moves forward and stays inside the stream, and errors are only appended. */
  predicate Step(toks: seq<Token>, s: PState, s': PState) {
    s.pos <= s'.pos < |toks| && s.errors <= s'.errors
  }

  /** A parse that records no error yields a node without nil in it. */
  predicate CleanExpr(s: PState, s': PState, e: Option<Expression>) {
    s'.errors == s.errors ==> e.Some? && CompleteExpression(e.value)
  }

  predicate CleanStmt(s: PState, s': PState, st: Option<Statement>) {
    s'.errors == s.errors ==> st.Some? && CompleteStatement(st.value)
  }

  lemma StepTrans(toks: seq<Token>, s1: PState, s2: PState, s3: PState)
    requires Step(toks, s1, s2) && Step(toks, s2, s3)
    ensures Step(toks, s1, s3)
    ensures s3.errors == s1.errors ==> s2.errors == s1.errors && s3.errors == s2.errors
  {
    if s3.errors == s1.errors {
      assert |s2.errors| == |s1.errors|;
    }
  }

  /** parseProgram: statements up to the first EOF; statements that come back nil are dropped. */
  function ParseProgram(toks: seq<Token>): (r: (Program, seq<ParseError>))
    requires ValidTokens(toks)
    ensures r.1 == [] ==> CompleteProgram(r.0)
  {
    var (prog, s) := ProgramLoop(toks, PState(0, []), []);
    (prog, s.errors)
  }

  function ProgramLoop(toks: seq<Token>, s: PState, acc: seq<Statement>): (r: (Program, PState))
    requires ValidTokens(toks) && s.pos < |toks|
    ensures Step(toks, s, r.1) && Cur(toks, r.1).kind == Eof
    ensures acc <= r.0.statements
    ensures r.1.errors == s.errors && (forall i :: 0 <= i < |acc| ==> CompleteStatement(acc[i])) ==> CompleteProgram(r.0)
    decreases |toks| - s.pos, 7
  {
    if Cur(toks, s).kind == Eof then (Program(acc), s)
    else
      var (st, s1) := ParseStatement(toks, s);
      var s2 := Next(toks, s1);
      StepTrans(toks, s, s1, s2);
      ProgramLoop(toks, s2, if st.Some? then acc + [st.value] else acc)
  }

  /** One round of the program loop. */
  lemma ProgramRound(toks: seq<Token>, s: PState, acc: seq<Statement>, st: Option<Statement>, s1: PState)
    requires ValidTokens(toks) && s.pos < |toks| && Cur(toks, s).kind != Eof
    requires ParseStatement(toks, s) == (st, s1)
    ensures ProgramLoop(toks, s, acc) == ProgramLoop(toks, Next(toks, s1), if st.Some? then acc + [st.value] else acc)
  {
  }

  /** ParseProgram as the source is written. parseLetStatement returns a *ast.LetStatement, which
      parseStatement returns as an ast.Statement interface; the nil pointer of a failed let becomes a
      non-nil interface value, so the `stmt != nil` test keeps it. Every statement is kept, and a
      failed let is a nil entry (None) in the list. */
  function ParseProgramAsWritten(toks: seq<Token>): (r: (seq<Option<Statement>>, seq<ParseError>))
    requires ValidTokens(toks)
    ensures r.1 == [] ==> AllComplete(r.0)
  {
    var (stmts, s) := ProgramLoopAsWritten(toks, PState(0, []), []);
    (stmts, s.errors)
  }

  /** Every entry is present and holds no nil. */
  predicate AllComplete(xs: seq<Option<Statement>>) {
    forall i :: 0 <= i < |xs| ==> xs[i].Some? && CompleteStatement(xs[i].value)
  }

  function ProgramLoopAsWritten(toks: seq<Token>, s: PState, acc: seq<Option<Statement>>): (r: (seq<Option<Statement>>, PState))
    requires ValidTokens(toks) && s.pos < |toks|
    ensures Step(toks, s, r.1) && acc <= r.0
    ensures r.1.errors == s.errors && AllComplete(acc) ==> AllComplete(r.0)
    decreases |toks| - s.pos
  {
    if Cur(toks, s).kind == Eof then (acc, s)
    else
      var (st, s1) := ParseStatement(toks, s);
      var s2 := Next(toks, s1);
      StepTrans(toks, s, s1, s2);
      ProgramLoopAsWritten(toks, s2, acc + [st])
  }

  /** parseStatement: dispatch on the current token. */
  function ParseStatement(toks: seq<Token>, s: PState): (r: (Option<Statement>, PState))
    requires ValidTokens(toks) && s.pos < |toks|
    ensures Step(toks, s, r.1) && CleanStmt(s, r.1, r.0)
    ensures Cur(toks, r.1).kind == Eof ==> Cur(toks, s).kind == Eof || r.1.pos > s.pos
    decreases |toks| - s.pos, 6
  {
    var k := Cur(toks, s).kind;
    if k == Let then ParseLetStatement(toks, s)
    else if k == Return then ParseReturnStatement(toks, s)
    else ParseExpressionStatement(toks, s)
  }

  function ParseLetStatement(toks: seq<Token>, s: PState): (r: (Option<Statement>, PState))
    requires ValidTokens(toks) && s.pos < |toks|
    ensures Step(toks, s, r.1) && CleanStmt(s, r.1, r.0)
    ensures Cur(toks, r.1).kind == Eof ==> Cur(toks, s).kind == Eof || r.1.pos > s.pos
    decreases |toks| - s.pos, 5
  {
    var (ok1, s1) := PeekStep(toks, s, Ident);
    if !ok1 then (None, s1)
    else
      var name := Cur(toks, s1).literal;
      var (ok2, s2) := PeekStep(toks, s1, Assign);
      if !ok2 then (None, s2)
      else
        var s3 := Next(toks, s2);
        var (value, s4) := ParseExpression(toks, s3, LOWEST);
        var s5 := if Peek(toks, s4).kind == Semicolon then Next(toks, s4) else s4;
        (Some(LetStatement(name, value)), s5)
  }

  function ParseReturnStatement(toks: seq<Token>, s: PState): (r: (Option<Statement>, PState))
    requires ValidTokens(toks) && s.pos < |toks|
    ensures Step(toks, s, r.1) && CleanStmt(s, r.1, r.0) && r.0.Some?
    ensures Cur(toks, r.1).kind == Eof ==> Cur(toks, s).kind == Eof || r.1.pos > s.pos
    decreases |toks| - s.pos, 5
  {
    var s1 := Next(toks, s);
    var (value, s2) := ParseExpression(toks, s1, LOWEST);
    var s3 := if Peek(toks, s2).kind == Semicolon then Next(toks, s2) else s2;
    (Some(ReturnStatement(value)), s3)
  }

  function ParseExpressionStatement(toks: seq<Token>, s: PState): (r: (Option<Statement>, PState))
    requires ValidTokens(toks) && s.pos < |toks|
    ensures Step(toks, s, r.1) && CleanStmt(s, r.1, r.0) && r.0.Some?
    ensures Cur(toks, r.1).kind == Eof ==> Cur(toks, s).kind == Eof || r.1.pos > s.pos
    decreases |toks| - s.pos, 5
  {
    var (e, s1) := ParseExpression(toks, s, LOWEST);
    var s2 := if Peek(toks, s1).kind == Semicolon then Next(toks, s1) else s1;
    (Some(ExpressionStatement(e)), s2)
  }

  /** parseExpression: the prefix function of the current token, then infix folding. On EOF there
      is no prefix function, so no recursive call happens there. */
  function ParseExpression(toks: seq<Token>, s: PState, prec: int): (r: (Option<Expression>, PState))
    requires ValidTokens(toks) && s.pos < |toks|
    ensures Step(toks, s, r.1) && CleanExpr(s, r.1, r.0)
    ensures Cur(toks, r.1).kind == Eof ==> Cur(toks, s).kind == Eof || r.1.pos > s.pos
    decreases |toks| - s.pos, if Cur(toks, s).kind == Eof then 0 else 4
  {
    var k := Cur(toks, s).kind;
    if k !in PrefixTable() then (None, AddError(s, NoPrefixParseFn(k)))
    else
      var (left, s1) := ParsePrefix(toks, s, PrefixTable()[k]);
      InfixLoop(toks, s1, prec, left)
  }

  /** The loop of parseExpression: fold while the next token is not `;` and binds tighter than
      `prec`. */
  function InfixLoop(toks: seq<Token>, s: PState, prec: int, left: Option<Expression>): (r: (Option<Expression>, PState))
    requires ValidTokens(toks) && s.pos < |toks|
    ensures Step(toks, s, r.1)
    ensures r.1.errors == s.errors && left.Some? && CompleteExpression(left.value) ==> r.0.Some? && CompleteExpression(r.0.value)
    ensures Cur(toks, r.1).kind == Eof ==> Cur(toks, s).kind == Eof || r.1.pos > s.pos
    ensures var k := Peek(toks, r.1).kind; k == Semicolon || prec >= Precedence(k) || k !in InfixTable()
    decreases |toks| - s.pos, 1
  {
    var k := Peek(toks, s).kind;
    if k == Semicolon || !(prec < Precedence(k)) then (left, s)
    else if k !in InfixTable() then (left, s)
    else
      var s1 := Next(toks, s);
      var (e, s2) := ParseInfix(toks, s1, InfixTable()[k], left);
      StepTrans(toks, s, s1, s2);
      InfixLoop(toks, s2, prec, e)
  }

  function ParsePrefix(toks: seq<Token>, s: PState, fn: PrefixFn): (r: (Option<Expression>, PState))
    requires ValidTokens(toks) && s.pos < |toks|
    requires fn == IntegerLiteralFn ==> Cur(toks, s).kind == Int
    ensures Step(toks, s, r.1) && CleanExpr(s, r.1, r.0)
    ensures Cur(toks, r.1).kind == Eof ==> Cur(toks, s).kind == Eof || r.1.pos > s.pos
    decreases |toks| - s.pos, 3
  {
    match fn
    case IdentifierFn => (Some(Identifier(Cur(toks, s).literal)), s)
    case IntegerLiteralFn => ParseIntegerLiteral(toks, s)
    case StringLiteralFn => (Some(StringLiteral(Cur(toks, s).literal)), s)
    case BooleanLiteralFn => (Some(BooleanLiteral(Cur(toks, s).kind == True)), s)
    case PrefixExpressionFn => ParsePrefixExpression(toks, s)
    case GroupedExpressionFn => ParseGroupedExpression(toks, s)
    case IfExpressionFn => ParseIfExpression(toks, s)
    case FunctionLiteralFn => ParseFunctionLiteral(toks, s)
  }

  function ParseInfix(toks: seq<Token>, s: PState, fn: InfixFn, left: Option<Expression>): (r: (Option<Expression>, PState))
    requires ValidTokens(toks) && s.pos < |toks|
    ensures Step(toks, s, r.1)
    ensures r.1.errors == s.errors && left.Some? && CompleteExpression(left.value) ==> r.0.Some? && CompleteExpression(r.0.value)
    ensures Cur(toks, r.1).kind == Eof ==> Cur(toks, s).kind == Eof || r.1.pos > s.pos
    decreases |toks| - s.pos, 4
  {
    match fn
    case InfixExpressionFn => ParseInfixExpression(toks, s, left)
    case CallExpressionFn => ParseCallExpression(toks, s, left)
  }

  /** parseIntegerLiteral: strconv.ParseInt(literal, 0, 64), or an error and nil. */
  function ParseIntegerLiteral(toks: seq<Token>, s: PState): (r: (Option<Expression>, PState))
    requires ValidTokens(toks) && s.pos < |toks| && Cur(toks, s).kind == Int
    ensures r.1.pos == s.pos && CleanExpr(s, r.1, r.0)
    ensures r.0.Some? <==> ParseIntLiteral(Cur(toks, s).literal).Some?
    ensures r.0.None? ==> r.1 == AddError(s, IntegerParseError(Cur(toks, s).literal))
  {
    var lit := Cur(toks, s).literal;
    match ParseIntLiteral(lit)
    case Some(v) => (Some(IntegerLiteral(v)), s)
    case None => (None, AddError(s, IntegerParseError(lit)))
  }

  function ParsePrefixExpression(toks: seq<Token>, s: PState): (r: (Option<Expression>, PState))
    requires ValidTokens(toks) && s.pos < |toks|
    ensures Step(toks, s, r.1) && CleanExpr(s, r.1, r.0)
    ensures Cur(toks, r.1).kind == Eof ==> Cur(toks, s).kind == Eof || r.1.pos > s.pos
    decreases |toks| - s.pos, 2
  {
    var op := Cur(toks, s).literal;
    var s1 := Next(toks, s);
    var (right, s2) := ParseExpression(toks, s1, PREFIX);
    (Some(PrefixExpression(op, right)), s2)
  }

  function ParseInfixExpression(toks: seq<Token>, s: PState, left: Option<Expression>): (r: (Option<Expression>, PState))
    requires ValidTokens(toks) && s.pos < |toks|
    ensures Step(toks, s, r.1)
    ensures r.1.errors == s.errors && left.Some? && CompleteExpression(left.value) ==> r.0.Some? && CompleteExpression(r.0.value)
    ensures Cur(toks, r.1).kind == Eof ==> Cur(toks, s).kind == Eof || r.1.pos > s.pos
    decreases |toks| - s.pos, 1
  {
    var op := Cur(toks, s).literal;
    var prec := Precedence(Cur(toks, s).kind);
    var s1 := Next(toks, s);
    var (right, s2) := ParseExpression(toks, s1, prec);
    (Some(InfixExpression(left, op, right)), s2)
  }

  function ParseGroupedExpression(toks: seq<Token>, s: PState): (r: (Option<Expression>, PState))
    requires ValidTokens(toks) && s.pos < |toks|
    ensures Step(toks, s, r.1) && CleanExpr(s, r.1, r.0)
    ensures Cur(toks, r.1).kind == Eof ==> Cur(toks, s).kind == Eof || r.1.pos > s.pos
    decreases |toks| - s.pos, 2
  {
    var s1 := Next(toks, s);
    var (e, s2) := ParseExpression(toks, s1, LOWEST);
    var (ok, s3) := PeekStep(toks, s2, RParen);
    if !ok then (None, s3) else (e, s3)
  }

  function ParseIfExpression(toks: seq<Token>, s: PState): (r: (Option<Expression>, PState))
    requires ValidTokens(toks) && s.pos < |toks|
    ensures Step(toks, s, r.1) && CleanExpr(s, r.1, r.0)
    ensures Cur(toks, r.1).kind == Eof ==> Cur(toks, s).kind == Eof || r.1.pos > s.pos
    decreases |toks| - s.pos, 2
  {
    var (ok1, s1) := PeekStep(toks, s, LParen);
    if !ok1 then (None, s1)
    else
      var s2 := Next(toks, s1);
      var (cond, s3) := ParseExpression(toks, s2, LOWEST);
      var (ok2, s4) := PeekStep(toks, s3, RParen);
      if !ok2 then (None, s4)
      else ParseIfBranches(toks, s4, cond)
  }

  /** The rest of parseIfExpression after `)`: the consequence block and an optional else block. */
  function ParseIfBranches(toks: seq<Token>, s: PState, cond: Option<Expression>): (r: (Option<Expression>, PState))
    requires ValidTokens(toks) && s.pos < |toks|
    ensures Step(toks, s, r.1)
    ensures r.1.errors == s.errors && cond.Some? && CompleteExpression(cond.value) ==> r.0.Some? && CompleteExpression(r.0.value)
    ensures Cur(toks, r.1).kind == Eof ==> Cur(toks, s).kind == Eof || r.1.pos > s.pos
    decreases |toks| - s.pos, 2
  {
    var (ok1, s1) := PeekStep(toks, s, LBrace);
    if !ok1 then (None, s1)
    else
      var (cons, s2) := ParseBlockStatement(toks, s1);
      if Peek(toks, s2).kind != Else then (Some(IfExpression(cond, cons, None)), s2)
      else
        var s3 := Next(toks, s2);
        var (alt, s4) := ParseAlternative(toks, s3);
        StepTrans(toks, s, s1, s2);
        StepTrans(toks, s, s2, s3);
        StepTrans(toks, s, s3, s4);
        if alt.None? then (None, s4) else (Some(IfExpression(cond, cons, alt)), s4)
  }

  /** The `else` part of parseIfExpression, from the `else` token: `{` must follow, then the
      alternative block; without `{` the whole if expression is nil. */
  function ParseAlternative(toks: seq<Token>, s: PState): (r: (Option<BlockStatement>, PState))
    requires ValidTokens(toks) && s.pos < |toks|
    ensures Step(toks, s, r.1)
    ensures r.1.errors == s.errors ==> r.0.Some? && CompleteBlock(r.0.value)
    ensures Cur(toks, r.1).kind == Eof ==> Cur(toks, s).kind == Eof || r.1.pos > s.pos
    decreases |toks| - s.pos, 1
  {
    var (ok, s1) := PeekStep(toks, s, LBrace);
    if !ok then (None, s1)
    else
      var (block, s2) := ParseBlockStatement(toks, s1);
      StepTrans(toks, s, s1, s2);
      (Some(block), s2)
  }

  function ParseFunctionLiteral(toks: seq<Token>, s: PState): (r: (Option<Expression>, PState))
    requires ValidTokens(toks) && s.pos < |toks|
    ensures Step(toks, s, r.1) && CleanExpr(s, r.1, r.0)
    ensures Cur(toks, r.1).kind == Eof ==> Cur(toks, s).kind == Eof || r.1.pos > s.pos
    decreases |toks| - s.pos, 2
  {
    var (ok1, s1) := PeekStep(toks, s, LParen);
    if !ok1 then (None, s1)
    else
      var (params, s2) := ParseFunctionParameters(toks, s1);
      var (ok2, s3) := PeekStep(toks, s2, LBrace);
      if !ok2 then (None, s3)
      else
        var (body, s4) := ParseBlockStatement(toks, s3);
        StepTrans(toks, s, s1, s2);
        StepTrans(toks, s, s2, s3);
        StepTrans(toks, s, s3, s4);
        (Some(FunctionLiteral(params, body)), s4)
  }

  /** parseFunctionParameters: `)` at once gives no parameters; otherwise the literal of every
      token after `(` and after each `,`, then `)` is required, and nil (no parameters) without it. */
  function ParseFunctionParameters(toks: seq<Token>, s: PState): (r: (seq<string>, PState))
    requires ValidTokens(toks) && s.pos < |toks|
    ensures Step(toks, s, r.1)
    ensures Cur(toks, r.1).kind == Eof ==> Cur(toks, s).kind == Eof || r.1.pos > s.pos
  {
    if Peek(toks, s).kind == RParen then ([], Next(toks, s))
    else
      var s1 := Next(toks, s);
      ParametersLoop(toks, s1, [Cur(toks, s1).literal])
  }

  function ParametersLoop(toks: seq<Token>, s: PState, ids: seq<string>): (r: (seq<string>, PState))
    requires ValidTokens(toks) && s.pos < |toks|
    ensures Step(toks, s, r.1)
    ensures Cur(toks, r.1).kind == Eof ==> Cur(toks, s).kind == Eof || r.1.pos > s.pos
    ensures r.1.errors == s.errors ==> ids <= r.0
    decreases |toks| - s.pos
  {
    if Peek(toks, s).kind == Comma then
      var s1 := Next(toks, Next(toks, s));
      ParametersLoop(toks, s1, ids + [Cur(toks, s1).literal])
    else
      var (ok, s1) := PeekStep(toks, s, RParen);
      if ok then (ids, s1) else ([], s1)
  }

  /** parseBlockStatement: statements after `{` up to `}` or EOF. */
  function ParseBlockStatement(toks: seq<Token>, s: PState): (r: (BlockStatement, PState))
    requires ValidTokens(toks) && s.pos < |toks|
    ensures Step(toks, s, r.1)
    ensures r.1.errors == s.errors ==> CompleteBlock(r.0)
    ensures Cur(toks, r.1).kind == Eof ==> Cur(toks, s).kind == Eof || r.1.pos > s.pos
    decreases |toks| - s.pos, 8
  {
    BlockLoop(toks, Next(toks, s), [])
  }

  function BlockLoop(toks: seq<Token>, s: PState, acc: seq<Statement>): (r: (BlockStatement, PState))
    requires ValidTokens(toks) && s.pos < |toks|
    ensures Step(toks, s, r.1)
    ensures Cur(toks, r.1).kind in {RBrace, Eof}
    ensures acc <= r.0.statements
    ensures r.1.errors == s.errors && (forall i :: 0 <= i < |acc| ==> CompleteStatement(acc[i])) ==> CompleteBlock(r.0)
    decreases |toks| - s.pos, 7
  {
    if Cur(toks, s).kind == RBrace || Cur(toks, s).kind == Eof then (BlockStatement(acc), s)
    else
      var (st, s1) := ParseStatement(toks, s);
      var s2 := Next(toks, s1);
      StepTrans(toks, s, s1, s2);
      BlockLoop(toks, s2, if st.Some? then acc + [st.value] else acc)
  }

  /** parseBlockStatement as the source is written: the same `stmt != nil` test as the program
      loop, so a failed let is kept as a nil entry (None). The statements themselves, and any
      blocks nested in them, are parsed as in ParseBlockStatement. */
  function ParseBlockStatementAsWritten(toks: seq<Token>, s: PState): (r: (seq<Option<Statement>>, PState))
    requires ValidTokens(toks) && s.pos < |toks|
    ensures Step(toks, s, r.1)
    ensures r.1.errors == s.errors ==> AllComplete(r.0)
  {
    var s1 := Next(toks, s);
    var r := BlockLoopAsWritten(toks, s1, []);
    StepTrans(toks, s, s1, r.1);
    r
  }

  function BlockLoopAsWritten(toks: seq<Token>, s: PState, acc: seq<Option<Statement>>): (r: (seq<Option<Statement>>, PState))
    requires ValidTokens(toks) && s.pos < |toks|
    ensures Step(toks, s, r.1) && acc <= r.0
    ensures Cur(toks, r.1).kind in {RBrace, Eof}
    ensures r.1.errors == s.errors && AllComplete(acc) ==> AllComplete(r.0)
    decreases |toks| - s.pos
  {
    if Cur(toks, s).kind == RBrace || Cur(toks, s).kind == Eof then (acc, s)
    else
      var (st, s1) := ParseStatement(toks, s);
      var s2 := Next(toks, s1);
      StepTrans(toks, s, s1, s2);
      BlockLoopAsWritten(toks, s2, acc + [st])
  }

  /** One round of the block loop. */
  lemma BlockRound(toks: seq<Token>, s: PState, acc: seq<Statement>, st: Option<Statement>, s1: PState)
    requires ValidTokens(toks) && s.pos < |toks| && Cur(toks, s).kind != RBrace && Cur(toks, s).kind != Eof
    requires ParseStatement(toks, s) == (st, s1)
    ensures BlockLoop(toks, s, acc) == BlockLoop(toks, Next(toks, s1), if st.Some? then acc + [st.value] else acc)
  {
  }

  /** One round of the block loop as written: the parsed statement is kept, nil or not. */
  lemma BlockRoundAsWritten(toks: seq<Token>, s: PState, acc: seq<Option<Statement>>, st: Option<Statement>, s1: PState)
    requires ValidTokens(toks) && s.pos < |toks| && Cur(toks, s).kind != RBrace && Cur(toks, s).kind != Eof
    requires ParseStatement(toks, s) == (st, s1)
    ensures BlockLoopAsWritten(toks, s, acc) == BlockLoopAsWritten(toks, Next(toks, s1), acc + [st])
  {
  }

  function ParseCallExpression(toks: seq<Token>, s: PState, fn: Option<Expression>): (r: (Option<Expression>, PState))
    requires ValidTokens(toks) && s.pos < |toks|
    ensures Step(toks, s, r.1) && r.0.Some? && r.0.value.CallExpression?
    ensures r.1.errors == s.errors && fn.Some? && CompleteExpression(fn.value) ==> CompleteExpression(r.0.value)
    ensures Cur(toks, r.1).kind == Eof ==> Cur(toks, s).kind == Eof || r.1.pos > s.pos
    decreases |toks| - s.pos, 3
  {
    var (args, s1) := ParseCallArguments(toks, s);
    (Some(CallExpression(fn, args)), s1)
  }

  predicate CompleteArgs(args: seq<Option<Expression>>) {
    forall i :: 0 <= i < |args| ==> args[i].Some? && CompleteExpression(args[i].value)
  }

  /** parseCallArguments: `)` at once gives no arguments; otherwise comma-separated expressions
      followed by a required `)`, and nil (no arguments) without it. */
  function ParseCallArguments(toks: seq<Token>, s: PState): (r: (seq<Option<Expression>>, PState))
    requires ValidTokens(toks) && s.pos < |toks|
    ensures Step(toks, s, r.1)
    ensures r.1.errors == s.errors ==> CompleteArgs(r.0)
    ensures Cur(toks, r.1).kind == Eof ==> Cur(toks, s).kind == Eof || r.1.pos > s.pos
    decreases |toks| - s.pos, 2
  {
    if Peek(toks, s).kind == RParen then ([], Next(toks, s))
    else
      var s1 := Next(toks, s);
      var (e, s2) := ParseExpression(toks, s1, LOWEST);
      ArgumentsLoop(toks, s2, [e])
  }

  function ArgumentsLoop(toks: seq<Token>, s: PState, args: seq<Option<Expression>>): (r: (seq<Option<Expression>>, PState))
    requires ValidTokens(toks) && s.pos < |toks|
    ensures Step(toks, s, r.1)
    ensures r.1.errors == s.errors && CompleteArgs(args) ==> CompleteArgs(r.0)
    ensures Cur(toks, r.1).kind == Eof ==> Cur(toks, s).kind == Eof || r.1.pos > s.pos
    decreases |toks| - s.pos, 1
  {
    if Peek(toks, s).kind == Comma then
      var s1 := Next(toks, Next(toks, s));
      var (e, s2) := ParseExpression(toks, s1, LOWEST);
      ArgumentsLoop(toks, s2, args + [e])
    else
      var (ok, s1) := PeekStep(toks, s, RParen);
      if ok then (args, s1) else ([], s1)
  }
}
