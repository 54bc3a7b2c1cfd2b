/** The Parser of parser/parser.go: a curToken/peekToken window over a lexer, dispatch maps
    filled at construction, and an error list that only grows. Every method is proved to compute
    what the function of the same name in ParserSpec says, from the state it starts in. */
module Parser {
  import opened Wrappers
  import opened Token
  import opened Ast
  import opened ParserSpec
  import GoInt
  import L = Lexer
  import opened TokenStream

  function Min(a: int, b: int): int { if a < b then a else b }

  class Parser {
    const l: L.Lexer
    /** The lexer cursor when the parser was made, the token stream it yields from there, and
        the number of NextToken calls made on it so far. */
    ghost const start: nat
    ghost const toks: seq<Token>
    ghost var consumed: nat

    var curToken: Token
    var peekToken: Token
    var errors: seq<ParseError>
    var prefixParseFns: map<TokenType, PrefixFn>
    var infixParseFns: map<TokenType, InfixFn>

    /** The lexer has handed out the first `consumed` tokens of the stream. */
    ghost predicate Streaming()
      reads this, l
    {
      l.Valid() && toks == L.Tokens(l.input, start) && ValidTokens(toks)
      && l.position == CursorFrom(l.input, start, consumed)
    }

    /** After construction: curToken and peekToken are the last two tokens read, and the dispatch
        maps are those New registers. */
    ghost predicate Valid()
      reads this, l
    {
      Streaming() && consumed >= 2
      && curToken == At(toks, Min(consumed - 2, |toks| - 1))
      && peekToken == At(toks, Min(consumed - 2, |toks| - 1) + 1)
      && prefixParseFns == PrefixTable() && infixParseFns == InfixTable()
    }

    /** The parser state as ParserSpec sees it: window position and errors. */
    ghost function State(): (s: PState)
      reads this, l
      requires Valid()
      ensures s.pos < |toks| && Cur(toks, s) == curToken && Peek(toks, s) == peekToken
    {
      PState(Min(consumed - 2, |toks| - 1), errors)
    }

    /** parser.New: register the parse functions, then read two tokens to fill the window. */
    constructor New(lexer: L.Lexer)
      requires lexer.Valid()
      modifies lexer
      ensures Valid() && l == lexer && start == old(lexer.position)
      ensures toks == L.Tokens(lexer.input, start) && State() == PState(0, [])
    {
      l := lexer;
      start := lexer.position;
      toks := L.Tokens(lexer.input, lexer.position);
      consumed := 0;
      curToken, peekToken := Token(Illegal, ""), Token(Illegal, "");
      errors := [];
      prefixParseFns, infixParseFns := map[], map[];
      new;
      LexedTokensValid(lexer.input, start);
      RegisterPrefix(Ident, IdentifierFn);
      RegisterPrefix(Int, IntegerLiteralFn);
      RegisterPrefix(Bang, PrefixExpressionFn);
      RegisterPrefix(Minus, PrefixExpressionFn);
      RegisterPrefix(True, BooleanLiteralFn);
      RegisterPrefix(False, BooleanLiteralFn);
      RegisterPrefix(LParen, GroupedExpressionFn);
      RegisterPrefix(If, IfExpressionFn);
      RegisterPrefix(Function, FunctionLiteralFn);
      RegisterPrefix(Str, StringLiteralFn);
      RegisterInfix(Eq, InfixExpressionFn);
      RegisterInfix(NotEq, InfixExpressionFn);
      RegisterInfix(Lt, InfixExpressionFn);
      RegisterInfix(Gt, InfixExpressionFn);
      RegisterInfix(Plus, InfixExpressionFn);
      RegisterInfix(Minus, InfixExpressionFn);
      RegisterInfix(Asterisk, InfixExpressionFn);
      RegisterInfix(Slash, InfixExpressionFn);
      RegisterInfix(LParen, CallExpressionFn);
      NextToken();
      NextToken();
    }

    method RegisterPrefix(k: TokenType, fn: PrefixFn)
      modifies this
      ensures prefixParseFns == old(prefixParseFns)[k := fn]
      ensures infixParseFns == old(infixParseFns) && errors == old(errors) && consumed == old(consumed)
      ensures curToken == old(curToken) && peekToken == old(peekToken)
    {
      prefixParseFns := prefixParseFns[k := fn];
    }

    method RegisterInfix(k: TokenType, fn: InfixFn)
      modifies this
      ensures infixParseFns == old(infixParseFns)[k := fn]
      ensures prefixParseFns == old(prefixParseFns) && errors == old(errors) && consumed == old(consumed)
      ensures curToken == old(curToken) && peekToken == old(peekToken)
    {
      infixParseFns := infixParseFns[k := fn];
    }

    /** nextToken: shift the window by one token read from the lexer. */
    method NextToken()
      requires Streaming()
      modifies this, l
      ensures Streaming() && consumed == old(consumed) + 1
      ensures curToken == old(peekToken) && peekToken == At(toks, old(consumed))
      ensures errors == old(errors) && prefixParseFns == old(prefixParseFns) && infixParseFns == old(infixParseFns)
      ensures old(Valid()) ==> Valid() && State() == ParserSpec.Next(toks, old(State()))
    {
      StreamAt(l.input, start, consumed);
      CursorStep(l.input, start, consumed);
      curToken := peekToken;
      peekToken := l.NextToken();
      consumed := consumed + 1;
    }

    method WriteError(e: ParseError)
      requires Valid()
      modifies this
      ensures Valid() && State() == AddError(old(State()), e)
    {
      errors := errors + [e];
    }

    method PeekError(k: TokenType)
      requires Valid()
      modifies this
      ensures Valid() && State() == AddError(old(State()), ParseError.PeekError(k, peekToken.kind))
    {
      WriteError(ParseError.PeekError(k, peekToken.kind));
    }

    method NoPrefixParseFnError(k: TokenType)
      requires Valid()
      modifies this
      ensures Valid() && State() == AddError(old(State()), NoPrefixParseFn(k))
    {
      WriteError(NoPrefixParseFn(k));
    }

    /** peekStep. */
    method PeekStep(k: TokenType) returns (ok: bool)
      requires Valid()
      modifies this, l
      ensures Valid() && (ok, State()) == ParserSpec.PeekStep(toks, old(State()), k)
    {
      ok := peekToken.kind == k;
      if ok {
        NextToken();
      } else {
        PeekError(k);
      }
    }

    /** peekPrecedence: the precedence of the next token, as the table gives it. */
    function PeekPrecedence(): (p: int)
      reads this
      ensures p == Precedence(peekToken.kind)
    {
      if peekToken.kind in PRECEDENCES then PRECEDENCES[peekToken.kind] else LOWEST
    }

    /** curPrecedence: the precedence of the current token, as the table gives it. */
    function CurPrecedence(): (p: int)
      reads this
      ensures p == Precedence(curToken.kind)
    {
      if curToken.kind in PRECEDENCES then PRECEDENCES[curToken.kind] else LOWEST
    }

    /** ParseProgram: parse statements until the current token is EOF, keeping the non-nil ones. */
    method ParseProgram() returns (program: Program)
      requires Valid()
      modifies this, l
      ensures Valid() && (program, State()) == ProgramLoop(toks, old(State()), [])
    {
      var statements := [];
      while curToken.kind != Eof
        invariant Valid()
        invariant ProgramLoop(toks, State(), statements) == ProgramLoop(toks, old(State()), [])
        decreases |toks| - State().pos
      {
        ghost var s := State();
        var stmt := ParseStatement();
        ProgramRound(toks, s, statements, stmt, State());
        if stmt.Some? {
          statements := statements + [stmt.value];
        }
        NextToken();
      }
      program := Program(statements);
    }

    method ParseStatement() returns (stmt: Option<Statement>)
      requires Valid()
      modifies this, l
      ensures Valid() && (stmt, State()) == ParserSpec.ParseStatement(toks, old(State()))
      decreases |toks| - State().pos, 6
    {
      if curToken.kind == Let {
        stmt := ParseLetStatement();
      } else if curToken.kind == Return {
        stmt := ParseReturnStatement();
      } else {
        stmt := ParseExpressionStatement();
      }
    }

    method ParseLetStatement() returns (stmt: Option<Statement>)
      requires Valid()
      modifies this, l
      ensures Valid() && (stmt, State()) == ParserSpec.ParseLetStatement(toks, old(State()))
      decreases |toks| - State().pos, 5
    {
      var ok := PeekStep(Ident);
      if !ok {
        return None;
      }
      var name := curToken.literal;
      ok := PeekStep(Assign);
      if !ok {
        return None;
      }
      NextToken();
      var value := ParseExpression(LOWEST);
      if peekToken.kind == Semicolon {
        NextToken();
      }
      stmt := Some(LetStatement(name, value));
    }

    method ParseReturnStatement() returns (stmt: Option<Statement>)
      requires Valid()
      modifies this, l
      ensures Valid() && (stmt, State()) == ParserSpec.ParseReturnStatement(toks, old(State()))
      decreases |toks| - State().pos, 5
    {
      NextToken();
      var value := ParseExpression(LOWEST);
      if peekToken.kind == Semicolon {
        NextToken();
      }
      stmt := Some(ReturnStatement(value));
    }

    method ParseExpressionStatement() returns (stmt: Option<Statement>)
      requires Valid()
      modifies this, l
      ensures Valid() && (stmt, State()) == ParserSpec.ParseExpressionStatement(toks, old(State()))
      decreases |toks| - State().pos, 5
    {
      var e := ParseExpression(LOWEST);
      if peekToken.kind == Semicolon {
        NextToken();
      }
      stmt := Some(ExpressionStatement(e));
    }

    /** parseExpression: the prefix function, then fold infix operators while they bind tighter. */
    method ParseExpression(precedence: int) returns (e: Option<Expression>)
      requires Valid()
      modifies this, l
      ensures Valid() && (e, State()) == ParserSpec.ParseExpression(toks, old(State()), precedence)
      decreases |toks| - State().pos, if curToken.kind == Eof then 0 else 4
    {
      if curToken.kind !in prefixParseFns {
        NoPrefixParseFnError(curToken.kind);
        return None;
      }
      ghost var s := State();
      var prefix := prefixParseFns[curToken.kind];
      var leftExp := CallPrefix(prefix);
      assert (leftExp, State()) == ParsePrefix(toks, s, PrefixTable()[Cur(toks, s).kind]);
      e := FoldInfix(precedence, leftExp);
    }

    /** The loop of parseExpression: while the next token is not `;` and binds tighter than
        precedence, call its infix parse function on the expression so far. */
    method FoldInfix(precedence: int, left: Option<Expression>) returns (e: Option<Expression>)
      requires Valid()
      modifies this, l
      ensures Valid() && (e, State()) == InfixLoop(toks, old(State()), precedence, left)
      decreases |toks| - State().pos, 2
    {
      var leftExp := left;
      while peekToken.kind != Semicolon && precedence < PeekPrecedence()
        invariant Valid() && State().pos >= old(State()).pos
        invariant InfixLoop(toks, State(), precedence, leftExp) == InfixLoop(toks, old(State()), precedence, left)
        decreases |toks| - State().pos
      {
        if peekToken.kind !in infixParseFns {
          return leftExp;
        }
        var infix := infixParseFns[peekToken.kind];
        NextToken();
        leftExp := CallInfix(infix, leftExp);
      }
      e := leftExp;
    }

    /** Calls the registered prefix parse function. */
    method CallPrefix(fn: PrefixFn) returns (e: Option<Expression>)
      requires Valid()
      requires fn == IntegerLiteralFn ==> curToken.kind == Int
      modifies this, l
      ensures Valid() && (e, State()) == ParsePrefix(toks, old(State()), fn)
      decreases |toks| - State().pos, 3
    {
      match fn
      case IdentifierFn => e := ParseIdentifier();
      case IntegerLiteralFn => e := ParseIntegerLiteral();
      case StringLiteralFn => e := ParseStringLiteral();
      case BooleanLiteralFn => e := ParseBooleanLiteral();
      case PrefixExpressionFn => e := ParsePrefixExpression();
      case GroupedExpressionFn => e := ParseGroupedExpression();
      case IfExpressionFn => e := ParseIfExpression();
      case FunctionLiteralFn => e := ParseFunctionLiteral();
    }

    /** Calls the registered infix parse function on the expression parsed so far. */
    method CallInfix(fn: InfixFn, left: Option<Expression>) returns (e: Option<Expression>)
      requires Valid()
      modifies this, l
      ensures Valid() && (e, State()) == ParseInfix(toks, old(State()), fn, left)
      decreases |toks| - State().pos, 4
    {
      match fn
      case InfixExpressionFn => e := ParseInfixExpression(left);
      case CallExpressionFn => e := ParseCallExpression(left);
    }

    method ParseIdentifier() returns (e: Option<Expression>)
      requires Valid()
      ensures e == Some(Identifier(curToken.literal))
    {
      e := Some(Identifier(curToken.literal));
    }

    method ParseIntegerLiteral() returns (e: Option<Expression>)
      requires Valid() && curToken.kind == Int
      modifies this
      ensures Valid() && (e, State()) == ParserSpec.ParseIntegerLiteral(toks, old(State()))
    {
      var value := GoInt.ParseIntLiteral(curToken.literal);
      if value.None? {
        WriteError(IntegerParseError(curToken.literal));
        return None;
      }
      e := Some(IntegerLiteral(value.value));
    }

    method ParseStringLiteral() returns (e: Option<Expression>)
      requires Valid()
      ensures e == Some(StringLiteral(curToken.literal))
    {
      e := Some(StringLiteral(curToken.literal));
    }

    method ParseBooleanLiteral() returns (e: Option<Expression>)
      requires Valid()
      ensures e == Some(BooleanLiteral(curToken.kind == True))
    {
      e := Some(BooleanLiteral(curToken.kind == True));
    }

    method ParsePrefixExpression() returns (e: Option<Expression>)
      requires Valid()
      modifies this, l
      ensures Valid() && (e, State()) == ParserSpec.ParsePrefixExpression(toks, old(State()))
      decreases |toks| - State().pos, 2
    {
      var operator := curToken.literal;
      NextToken();
      var right := ParseExpression(PREFIX);
      e := Some(PrefixExpression(operator, right));
    }

    method ParseInfixExpression(left: Option<Expression>) returns (e: Option<Expression>)
      requires Valid()
      modifies this, l
      ensures Valid() && (e, State()) == ParserSpec.ParseInfixExpression(toks, old(State()), left)
      decreases |toks| - State().pos, 1
    {
      var operator := curToken.literal;
      var precedence := CurPrecedence();
      NextToken();
      var right := ParseExpression(precedence);
      e := Some(InfixExpression(left, operator, right));
    }

    method ParseGroupedExpression() returns (e: Option<Expression>)
      requires Valid()
      modifies this, l
      ensures Valid() && (e, State()) == ParserSpec.ParseGroupedExpression(toks, old(State()))
      decreases |toks| - State().pos, 2
    {
      NextToken();
      var expr := ParseExpression(LOWEST);
      var ok := PeekStep(RParen);
      if !ok {
        return None;
      }
      e := expr;
    }

    method ParseIfExpression() returns (e: Option<Expression>)
      requires Valid()
      modifies this, l
      ensures Valid() && (e, State()) == ParserSpec.ParseIfExpression(toks, old(State()))
      decreases |toks| - State().pos, 2
    {
      var ok := PeekStep(LParen);
      if !ok {
        return None;
      }
      NextToken();
      var condition := ParseExpression(LOWEST);
      ok := PeekStep(RParen);
      if !ok {
        return None;
      }
      e := ParseIfBranches(condition);
    }

    /** The rest of parseIfExpression after `)`: the consequence and the optional alternative. */
    method ParseIfBranches(condition: Option<Expression>) returns (e: Option<Expression>)
      requires Valid()
      modifies this, l
      ensures Valid() && (e, State()) == ParserSpec.ParseIfBranches(toks, old(State()), condition)
      decreases |toks| - State().pos, 2
    {
      var ok := PeekStep(LBrace);
      if !ok {
        return None;
      }
      ghost var s1 := State();
      var consequence := ParseBlockStatement();
      ghost var s2 := State();
      assert (consequence, s2) == ParserSpec.ParseBlockStatement(toks, s1);
      if peekToken.kind != Else {
        return Some(IfExpression(condition, consequence, None));
      }
      NextToken();
      var alternative := ParseAlternative();
      if alternative.None? {
        return None;
      }
      e := Some(IfExpression(condition, consequence, alternative));
    }

    /** The `else` part of parseIfExpression, from the `else` token. */
    method ParseAlternative() returns (alternative: Option<BlockStatement>)
      requires Valid()
      modifies this, l
      ensures Valid() && (alternative, State()) == ParserSpec.ParseAlternative(toks, old(State()))
      decreases |toks| - State().pos, 1
    {
      var ok := PeekStep(LBrace);
      if !ok {
        return None;
      }
      var block := ParseBlockStatement();
      alternative := Some(block);
    }

    method ParseFunctionLiteral() returns (e: Option<Expression>)
      requires Valid()
      modifies this, l
      ensures Valid() && (e, State()) == ParserSpec.ParseFunctionLiteral(toks, old(State()))
      decreases |toks| - State().pos, 2
    {
      var ok := PeekStep(LParen);
      if !ok {
        return None;
      }
      var parameters := ParseFunctionParameters();
      ok := PeekStep(LBrace);
      if !ok {
        return None;
      }
      var body := ParseBlockStatement();
      e := Some(FunctionLiteral(parameters, body));
    }

    method ParseFunctionParameters() returns (identifiers: seq<string>)
      requires Valid()
      modifies this, l
      ensures Valid() && (identifiers, State()) == ParserSpec.ParseFunctionParameters(toks, old(State()))
    {
      identifiers := [];
      if peekToken.kind == RParen {
        NextToken();
        return;
      }
      NextToken();
      identifiers := ParseRemainingParameters([curToken.literal]);
    }

    /** The loop of parseFunctionParameters after the first identifier: one more identifier after
        each `,`, then the required `)`. */
    method ParseRemainingParameters(parsed: seq<string>) returns (identifiers: seq<string>)
      requires Valid()
      modifies this, l
      ensures Valid() && (identifiers, State()) == ParametersLoop(toks, old(State()), parsed)
    {
      identifiers := parsed;
      while peekToken.kind == Comma
        invariant Valid()
        invariant ParametersLoop(toks, State(), identifiers) == ParametersLoop(toks, old(State()), parsed)
        decreases |toks| - State().pos
      {
        NextToken();
        NextToken();
        identifiers := identifiers + [curToken.literal];
      }
      ghost var s := State();
      var ok := PeekStep(RParen);
      if !ok {
        assert ParametersLoop(toks, s, identifiers) == ([], State());
        return [];
      }
    }

    method ParseBlockStatement() returns (block: BlockStatement)
      requires Valid()
      modifies this, l
      ensures Valid() && (block, State()) == ParserSpec.ParseBlockStatement(toks, old(State()))
      decreases |toks| - State().pos, 8
    {
      NextToken();
      block := ParseBlockStatements();
    }

    /** The loop of parseBlockStatement: parse statements up to `}` or EOF, keeping the non-nil
        ones. */
    method ParseBlockStatements() returns (block: BlockStatement)
      requires Valid()
      modifies this, l
      ensures Valid() && (block, State()) == BlockLoop(toks, old(State()), [])
      decreases |toks| - State().pos, 7
    {
      var statements := [];
      while curToken.kind != RBrace && curToken.kind != Eof
        invariant Valid() && State().pos >= old(State()).pos
        invariant BlockLoop(toks, State(), statements) == BlockLoop(toks, old(State()), [])
        decreases |toks| - State().pos
      {
        ghost var s := State();
        var stmt := ParseStatement();
        BlockRound(toks, s, statements, stmt, State());
        if stmt.Some? {
          statements := statements + [stmt.value];
        }
        NextToken();
      }
      block := BlockStatement(statements);
    }

    method ParseCallExpression(callee: Option<Expression>) returns (e: Option<Expression>)
      requires Valid()
      modifies this, l
      ensures Valid() && (e, State()) == ParserSpec.ParseCallExpression(toks, old(State()), callee)
      decreases |toks| - State().pos, 3
    {
      var arguments := ParseCallArguments();
      e := Some(CallExpression(callee, arguments));
    }

    method ParseCallArguments() returns (args: seq<Option<Expression>>)
      requires Valid()
      modifies this, l
      ensures Valid() && (args, State()) == ParserSpec.ParseCallArguments(toks, old(State()))
      decreases |toks| - State().pos, 2
    {
      args := [];
      if peekToken.kind == RParen {
        NextToken();
        return args;
      }
      NextToken();
      var first := ParseExpression(LOWEST);
      args := ParseRemainingArguments([first]);
    }

    /** The loop of parseCallArguments: one more argument after each `,`, then `)` is required;
        without it the arguments are discarded. */
    method ParseRemainingArguments(parsed: seq<Option<Expression>>) returns (args: seq<Option<Expression>>)
      requires Valid()
      modifies this, l
      ensures Valid() && (args, State()) == ArgumentsLoop(toks, old(State()), parsed)
      decreases |toks| - State().pos, 1
    {
      args := parsed;
      while peekToken.kind == Comma
        invariant Valid() && State().pos >= old(State()).pos
        invariant ArgumentsLoop(toks, State(), args) == ArgumentsLoop(toks, old(State()), parsed)
        decreases |toks| - State().pos
      {
        ghost var s0 := State();
        NextToken();
        NextToken();
        assert State() == Next(toks, Next(toks, s0)) && State().pos > s0.pos;
        var arg := ParseExpression(LOWEST);
        assert ArgumentsLoop(toks, s0, args) == ArgumentsLoop(toks, State(), args + [arg]);
        args := args + [arg];
      }
      ghost var s2 := State();
      var ok := PeekStep(RParen);
      if !ok {
        assert ArgumentsLoop(toks, s2, args) == ([], State());
        return [];
      }
      assert ArgumentsLoop(toks, s2, args) == (args, State());
    }
  }

  /** What the tests and the REPL do: lex the input, make a parser, parse the program, and read
      the errors. The result is the parse of the input's token stream. */
  method ParseInput(input: string) returns (program: Program, errors: seq<ParseError>)
    requires GoInt.IsByteString(input)
    ensures ValidTokens(L.Tokens(input, 0))
    ensures (program, errors) == ParserSpec.ParseProgram(L.Tokens(input, 0))
  {
    LexedTokensValid(input, 0);
    var lexer := new L.Lexer.New(input);
    var p := new Parser.New(lexer);
    program := p.ParseProgram();
    errors := p.errors;
  }
}
