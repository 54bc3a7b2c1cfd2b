/** What the Pratt parser promises about the trees it builds: the fold of parseExpression parses
    each right operand at its operator's own precedence, which makes operators of one level
    associate to the left and tighter operators bind first; prefix operators take their operand at
    PREFIX; parentheses re-enter at LOWEST; and malformed input is reported, not skipped silently. */
module ParserProperties {
  import opened Wrappers
  import opened GoInt
  import opened Token
  import opened Ast
  import opened ParserSpec

  /** The token kinds registered with parseInfixExpression: the binary operators. */
  predicate IsBinaryOperator(k: TokenType) {
    k in InfixTable() && InfixTable()[k] == InfixExpressionFn
  }

  /** The binding strengths, loosest first, and LOWEST for every kind outside the table. */
  lemma PrecedenceOrder(k: TokenType)
    ensures LOWEST < EQUALS < LESSGREATER < SUM < PRODUCT < PREFIX < CALL
    ensures Precedence(Eq) == Precedence(NotEq) == EQUALS
    ensures Precedence(Lt) == Precedence(Gt) == LESSGREATER
    ensures Precedence(Plus) == Precedence(Minus) == SUM
    ensures Precedence(Asterisk) == Precedence(Slash) == PRODUCT
    ensures Precedence(LParen) == CALL
    ensures IsBinaryOperator(k) <==> LOWEST < Precedence(k) < PREFIX
    ensures k !in PRECEDENCES ==> Precedence(k) == LOWEST
  {
    PrecedenceLevels();
    BinaryPrecedence(k);
  }

  lemma PrecedenceLevels()
    ensures Precedence(Eq) == Precedence(NotEq) == EQUALS
    ensures Precedence(Lt) == Precedence(Gt) == LESSGREATER
    ensures Precedence(Plus) == Precedence(Minus) == SUM
    ensures Precedence(Asterisk) == Precedence(Slash) == PRODUCT
    ensures Precedence(LParen) == CALL
  {
  }

  lemma BinaryPrecedence(k: TokenType)
    ensures IsBinaryOperator(k) <==> LOWEST < Precedence(k) < PREFIX
    ensures k !in PRECEDENCES ==> Precedence(k) == LOWEST
  {
    if k !in PRECEDENCES {
      assert k !in InfixTable();
    } else if k == LParen {
      assert Precedence(k) == CALL && InfixTable()[k] == CallExpressionFn;
    } else {
      assert InfixTable()[k] == InfixExpressionFn && PRECEDENCES[k] < PREFIX;
    }
  }

  /** Every binary operator binds less tightly than a prefix operator. */
  lemma BinaryBelowPrefix(k: TokenType)
    requires IsBinaryOperator(k)
    ensures Precedence(k) < PREFIX
  {
    PrecedenceOrder(k);
  }

  /** An identifier in prefix position is the left operand the fold starts from. */
  lemma IdentifierOperand(toks: seq<Token>, s: PState, prec: int)
    requires ValidTokens(toks) && s.pos < |toks| && Cur(toks, s).kind == Ident
    ensures ParseExpression(toks, s, prec) == InfixLoop(toks, s, prec, Some(Identifier(Cur(toks, s).literal)))
  {
    assert PrefixTable()[Ident] == IdentifierFn;
    assert ParsePrefix(toks, s, IdentifierFn) == (Some(Identifier(Cur(toks, s).literal)), s);
  }

  /** The fold stops at `;` and at an operator that binds no tighter than the current level. */
  lemma FoldStops(toks: seq<Token>, s: PState, prec: int, left: Option<Expression>)
    requires ValidTokens(toks) && s.pos < |toks|
    requires Peek(toks, s).kind == Semicolon || Precedence(Peek(toks, s).kind) <= prec
    ensures InfixLoop(toks, s, prec, left) == (left, s)
  {
    var k := Peek(toks, s).kind;
    assert k == Semicolon || !(prec < Precedence(k));
  }

  /** An identifier followed by `;` or by an operator that binds no tighter than prec is the
      whole expression. */
  lemma IdentifierAlone(toks: seq<Token>, s: PState, prec: int)
    requires ValidTokens(toks) && s.pos < |toks| && Cur(toks, s).kind == Ident
    requires Peek(toks, s).kind == Semicolon || Precedence(Peek(toks, s).kind) <= prec
    ensures ParseExpression(toks, s, prec) == (Some(Identifier(Cur(toks, s).literal)), s)
  {
    IdentifierOperand(toks, s, prec);
    FoldStops(toks, s, prec, Some(Identifier(Cur(toks, s).literal)));
  }

  /** One round of the fold on a binary operator that binds tighter than the current level: the
      right operand is a whole expression parsed at the operator's own precedence, and the new node
      becomes the left operand of the next round. */
  lemma FoldBinary(toks: seq<Token>, s: PState, prec: int, left: Option<Expression>)
    requires ValidTokens(toks) && s.pos < |toks|
    requires IsBinaryOperator(Peek(toks, s).kind) && prec < Precedence(Peek(toks, s).kind)
    ensures s.pos + 2 < |toks|
    ensures var k := Peek(toks, s);
            var (right, s1) := ParseExpression(toks, s.(pos := s.pos + 2), Precedence(k.kind));
            InfixLoop(toks, s, prec, left) == InfixLoop(toks, s1, prec, Some(InfixExpression(left, k.literal, right)))
  {
    var k := Peek(toks, s);
    var s1 := Next(toks, s);
    assert s1 == s.(pos := s.pos + 1) && Cur(toks, s1) == k;
    assert Next(toks, s1) == s.(pos := s.pos + 2);
    assert !(k.kind == Semicolon || !(prec < Precedence(k.kind))) && k.kind in InfixTable();
    assert ParseInfix(toks, s1, InfixExpressionFn, left) == ParseInfixExpression(toks, s1, left);
  }

  /** One round of the fold on `(` after an expression (when the current level is below CALL):
      the expression so far becomes the callee of a call. */
  lemma FoldCall(toks: seq<Token>, s: PState, prec: int, left: Option<Expression>)
    requires ValidTokens(toks) && s.pos < |toks|
    requires Peek(toks, s).kind == LParen && prec < CALL
    ensures s.pos + 1 < |toks|
    ensures var (args, s1) := ParseCallArguments(toks, s.(pos := s.pos + 1));
            InfixLoop(toks, s, prec, left) == InfixLoop(toks, s1, prec, Some(CallExpression(left, args)))
  {
    var s1 := Next(toks, s);
    assert s1 == s.(pos := s.pos + 1);
    assert !(LParen == Semicolon || !(prec < Precedence(LParen))) && InfixTable()[LParen] == CallExpressionFn;
    assert ParseInfix(toks, s1, CallExpressionFn, left) == ParseCallExpression(toks, s1, left);
  }

  /** `!` and `-` in prefix position parse their operand at PREFIX. */
  lemma PrefixOperand(toks: seq<Token>, s: PState, prec: int)
    requires ValidTokens(toks) && s.pos < |toks| && Cur(toks, s).kind in {Bang, Minus}
    ensures s.pos + 1 < |toks|
    ensures var (right, s1) := ParseExpression(toks, s.(pos := s.pos + 1), PREFIX);
            ParseExpression(toks, s, prec) == InfixLoop(toks, s1, prec, Some(PrefixExpression(Cur(toks, s).literal, right)))
  {
    assert Next(toks, s) == s.(pos := s.pos + 1);
    assert PrefixTable()[Cur(toks, s).kind] == PrefixExpressionFn;
    assert ParsePrefix(toks, s, PrefixExpressionFn) == ParsePrefixExpression(toks, s);
  }

  /** `(` in prefix position parses a whole expression at LOWEST and then requires `)`; without
      it the group is nil and a peek error is recorded. */
  lemma GroupedOperand(toks: seq<Token>, s: PState, prec: int)
    requires ValidTokens(toks) && s.pos < |toks| && Cur(toks, s).kind == LParen
    ensures s.pos + 1 < |toks|
    ensures var (inner, s1) := ParseExpression(toks, s.(pos := s.pos + 1), LOWEST);
            if Peek(toks, s1).kind == RParen
            then ParseExpression(toks, s, prec) == InfixLoop(toks, Next(toks, s1), prec, inner)
            else ParseExpression(toks, s, prec) == InfixLoop(toks, AddError(s1, PeekError(RParen, Peek(toks, s1).kind)), prec, None)
  {
    assert Next(toks, s) == s.(pos := s.pos + 1);
    assert PrefixTable()[LParen] == GroupedExpressionFn;
    assert ParsePrefix(toks, s, GroupedExpressionFn) == ParseGroupedExpression(toks, s);
  }

  /** `x o1 y o2 …` where o2 binds no tighter than o1: `x o1 y` is folded first and becomes the
      left operand of o2, so operators of one level associate to the left. */
  lemma {:induction false} LeftAssociative(toks: seq<Token>, s: PState, prec: int)
    requires ValidTokens(toks) && s.pos + 3 < |toks|
    requires toks[s.pos].kind == Ident && toks[s.pos + 2].kind == Ident
    requires IsBinaryOperator(toks[s.pos + 1].kind) && prec < Precedence(toks[s.pos + 1].kind)
    requires Precedence(toks[s.pos + 3].kind) <= Precedence(toks[s.pos + 1].kind)
    ensures ParseExpression(toks, s, prec)
            == InfixLoop(toks, s.(pos := s.pos + 2), prec,
                         Some(InfixExpression(Some(Identifier(toks[s.pos].literal)), toks[s.pos + 1].literal,
                                              Some(Identifier(toks[s.pos + 2].literal)))))
  {
    var s2 := s.(pos := s.pos + 2);
    var p1 := Precedence(toks[s.pos + 1].kind);
    assert Peek(toks, s2) == toks[s.pos + 3];
    IdentifierOperand(toks, s, prec);
    FoldBinary(toks, s, prec, Some(Identifier(toks[s.pos].literal)));
    IdentifierAlone(toks, s2, p1);
  }

  /** `x o1 y o2 z …` where o2 binds tighter than o1 and what follows z binds no tighter than o1:
      `y o2 z` is folded first and becomes the right operand of o1. */
  lemma {:induction false} TighterBindsFirst(toks: seq<Token>, s: PState, prec: int)
    requires ValidTokens(toks) && s.pos + 5 < |toks|
    requires toks[s.pos].kind == Ident && toks[s.pos + 2].kind == Ident && toks[s.pos + 4].kind == Ident
    requires IsBinaryOperator(toks[s.pos + 1].kind) && IsBinaryOperator(toks[s.pos + 3].kind)
    requires prec < Precedence(toks[s.pos + 1].kind) < Precedence(toks[s.pos + 3].kind)
    requires Precedence(toks[s.pos + 5].kind) <= Precedence(toks[s.pos + 1].kind)
    ensures ParseExpression(toks, s, prec)
            == InfixLoop(toks, s.(pos := s.pos + 4), prec,
                         Some(InfixExpression(Some(Identifier(toks[s.pos].literal)), toks[s.pos + 1].literal,
                                              Some(InfixExpression(Some(Identifier(toks[s.pos + 2].literal)),
                                                                   toks[s.pos + 3].literal,
                                                                   Some(Identifier(toks[s.pos + 4].literal)))))))
  {
    var s2 := s.(pos := s.pos + 2);
    var s4 := s.(pos := s.pos + 4);
    var p1 := Precedence(toks[s.pos + 1].kind);
    var x := Some(Identifier(toks[s.pos].literal));
    var yz := Some(InfixExpression(Some(Identifier(toks[s.pos + 2].literal)), toks[s.pos + 3].literal,
                                   Some(Identifier(toks[s.pos + 4].literal))));
    TighterOperand(toks, s2, p1);
    IdentifierOperand(toks, s, prec);
    assert ParseExpression(toks, s, prec) == InfixLoop(toks, s, prec, x);
    FoldBinary(toks, s, prec, x);
  }

  /** `y o2 z …` parsed as the right operand of an operator of precedence p1 below o2's, where
      what follows z binds no tighter than p1: the operand is `y o2 z`. */
  lemma TighterOperand(toks: seq<Token>, s: PState, p1: int)
    requires ValidTokens(toks) && s.pos + 3 < |toks|
    requires toks[s.pos].kind == Ident && toks[s.pos + 2].kind == Ident
    requires IsBinaryOperator(toks[s.pos + 1].kind) && p1 < Precedence(toks[s.pos + 1].kind)
    requires Precedence(toks[s.pos + 3].kind) <= p1
    ensures ParseExpression(toks, s, p1)
            == (Some(InfixExpression(Some(Identifier(toks[s.pos].literal)), toks[s.pos + 1].literal,
                                     Some(Identifier(toks[s.pos + 2].literal)))),
                s.(pos := s.pos + 2))
  {
    var yz := Some(InfixExpression(Some(Identifier(toks[s.pos].literal)), toks[s.pos + 1].literal,
                                   Some(Identifier(toks[s.pos + 2].literal))));
    var s2 := s.(pos := s.pos + 2);
    assert Peek(toks, s2) == toks[s.pos + 3];
    LeftAssociative(toks, s, p1);
    FoldStops(toks, s2, p1, yz);
  }

  /** `op x` with op `!` or `-` and an identifier x: the prefix node is the left operand the fold
      starts from when the next token binds less tightly than PREFIX. */
  lemma PrefixOfIdentifier(toks: seq<Token>, s: PState, prec: int)
    requires ValidTokens(toks) && s.pos + 2 < |toks|
    requires toks[s.pos].kind in {Bang, Minus} && toks[s.pos + 1].kind == Ident
    requires Precedence(toks[s.pos + 2].kind) < PREFIX
    ensures ParseExpression(toks, s, prec)
            == InfixLoop(toks, s.(pos := s.pos + 1), prec,
                         Some(PrefixExpression(toks[s.pos].literal, Some(Identifier(toks[s.pos + 1].literal)))))
  {
    var s1 := s.(pos := s.pos + 1);
    var x1 := Some(Identifier(toks[s.pos + 1].literal));
    IdentifierAlone(toks, s1, PREFIX);
    var neg := Some(PrefixExpression(toks[s.pos].literal, x1));
    assert Next(toks, s) == s1;
    assert ParsePrefixExpression(toks, s) == (neg, s1);
    var k := toks[s.pos].kind;
    assert Cur(toks, s).kind == k && k in PrefixTable() && PrefixTable()[k] == PrefixExpressionFn;
    assert ParsePrefix(toks, s, PrefixExpressionFn) == (neg, s1);
  }

  /** `op x o2 y …` with op `!` or `-`: the prefix operator takes only x, and the prefix node is
      the left operand of o2, since no binary operator binds tighter than PREFIX. */
  lemma {:induction false} PrefixBindsTighter(toks: seq<Token>, s: PState, prec: int)
    requires ValidTokens(toks) && s.pos + 4 < |toks|
    requires toks[s.pos].kind in {Bang, Minus} && toks[s.pos + 1].kind == Ident && toks[s.pos + 3].kind == Ident
    requires IsBinaryOperator(toks[s.pos + 2].kind) && prec < Precedence(toks[s.pos + 2].kind)
    requires Precedence(toks[s.pos + 4].kind) <= Precedence(toks[s.pos + 2].kind)
    ensures ParseExpression(toks, s, prec)
            == InfixLoop(toks, s.(pos := s.pos + 3), prec,
                         Some(InfixExpression(Some(PrefixExpression(toks[s.pos].literal, Some(Identifier(toks[s.pos + 1].literal)))),
                                              toks[s.pos + 2].literal,
                                              Some(Identifier(toks[s.pos + 3].literal)))))
  {
    BinaryBelowPrefix(toks[s.pos + 2].kind);
    PrefixOfIdentifier(toks, s, prec);
    FoldIdentifier(toks, s, prec, Some(PrefixExpression(toks[s.pos].literal, Some(Identifier(toks[s.pos + 1].literal)))));
  }

  /** `o y` after the left operand ending at s.pos, with y followed by a token that binds no
      tighter than o: the fold takes y alone as o's right operand. */
  lemma FoldIdentifier(toks: seq<Token>, s: PState, prec: int, left: Option<Expression>)
    requires ValidTokens(toks) && s.pos + 4 < |toks|
    requires IsBinaryOperator(toks[s.pos + 2].kind) && prec < Precedence(toks[s.pos + 2].kind)
    requires toks[s.pos + 3].kind == Ident && Precedence(toks[s.pos + 4].kind) <= Precedence(toks[s.pos + 2].kind)
    ensures InfixLoop(toks, s.(pos := s.pos + 1), prec, left)
            == InfixLoop(toks, s.(pos := s.pos + 3), prec,
                         Some(InfixExpression(left, toks[s.pos + 2].literal, Some(Identifier(toks[s.pos + 3].literal)))))
  {
    var s1 := s.(pos := s.pos + 1);
    var s3 := s.(pos := s.pos + 3);
    IdentifierAlone(toks, s3, Precedence(toks[s.pos + 2].kind));
    assert Peek(toks, s1) == toks[s.pos + 2] && s1.(pos := s1.pos + 2) == s3;
    FoldBinary(toks, s1, prec, left);
  }

  /** A token without a prefix parse function, whatever its kind (`)`, `}`, `,`, `else`, `let`,
      EOF, ...), makes the expression nil and records exactly the missing-prefix error for it. */
  lemma NoPrefixFunction(toks: seq<Token>, s: PState, prec: int)
    requires ValidTokens(toks) && s.pos < |toks| && Cur(toks, s).kind !in PrefixTable()
    ensures ParseExpression(toks, s, prec) == (None, AddError(s, NoPrefixParseFn(Cur(toks, s).kind)))
  {
  }

  /** `return;`: return always parses an expression, and `;` has no prefix parse function, so the
      statement keeps a nil value and the error is recorded. */
  lemma BareReturnIsAnError(toks: seq<Token>, s: PState)
    requires ValidTokens(toks) && s.pos < |toks|
    requires Cur(toks, s).kind == Return && Peek(toks, s).kind == Semicolon
    ensures var (st, s1) := ParseReturnStatement(toks, s);
            st == Some(ReturnStatement(None)) && s1.errors == s.errors + [NoPrefixParseFn(Semicolon)]
  {
    var s1 := Next(toks, s);
    assert Cur(toks, s1).kind == Semicolon && Semicolon !in PrefixTable();
    assert ParseExpression(toks, s1, LOWEST) == (None, AddError(s1, NoPrefixParseFn(Semicolon)));
  }

  /** `let` needs an identifier and then `=`: otherwise the statement is nil and a peek error
      names the expected kind and the one found. */
  lemma LetNeedsNameAndAssign(toks: seq<Token>, s: PState)
    requires ValidTokens(toks) && s.pos < |toks| && Cur(toks, s).kind == Let
    ensures Peek(toks, s).kind != Ident ==>
              ParseLetStatement(toks, s) == (None, AddError(s, PeekError(Ident, Peek(toks, s).kind)))
    ensures Peek(toks, s).kind == Ident && At(toks, s.pos + 2).kind != Assign ==>
              ParseLetStatement(toks, s) == (None, AddError(s.(pos := s.pos + 1), PeekError(Assign, At(toks, s.pos + 2).kind)))
  {
    if Peek(toks, s).kind == Ident {
      assert Next(toks, s) == s.(pos := s.pos + 1);
    }
  }

  // Whole programs, token by token.

  function Tok(kind: TokenType, literal: string): Token { Token(kind, literal) }

  function Name(x: string): Option<Expression> { Some(Identifier(x)) }

  function Binary(l: Option<Expression>, op: string, r: Option<Expression>): Option<Expression> {
    Some(InfixExpression(l, op, r))
  }

  /** A program of one expression statement parses to that statement alone, without errors. */
  lemma {:induction false} SingleStatement(toks: seq<Token>, e: Option<Expression>, last: nat)
    requires ValidTokens(toks) && 0 < last < |toks| && Cur(toks, PState(0, [])).kind !in {Let, Return}
    requires ParseExpression(toks, PState(0, []), LOWEST) == (e, PState(last - 1, []))
    requires toks[last].kind == Eof
    ensures ParseProgram(toks) == (Program([ExpressionStatement(e)]), [])
  {
    var s0 := PState(0, []);
    var s1 := PState(last - 1, []);
    assert Peek(toks, s1).kind == Eof;
    assert ParseExpressionStatement(toks, s0) == (Some(ExpressionStatement(e)), s1);
    assert ParseStatement(toks, s0) == (Some(ExpressionStatement(e)), s1);
    assert Next(toks, s1) == PState(last, []);
    assert ProgramLoop(toks, PState(last, []), [ExpressionStatement(e)]) == (Program([ExpressionStatement(e)]), PState(last, []));
    assert Cur(toks, s0).kind != Eof;
    assert [] + [ExpressionStatement(e)] == [ExpressionStatement(e)];
    assert ProgramLoop(toks, s0, []) == (Program([ExpressionStatement(e)]), PState(last, []));
  }

  /** `a + b + c` is `(a + b) + c`. */
  lemma SumIsLeftAssociative(toks: seq<Token>)
    requires |toks| == 6 && toks[0] == Tok(Ident, "a") && toks[1] == Tok(Plus, "+") && toks[2] == Tok(Ident, "b")
             && toks[3] == Tok(Plus, "+") && toks[4] == Tok(Ident, "c") && toks[5] == Tok(Eof, "")
    ensures ValidTokens(toks)
    ensures ParseProgram(toks) == (Program([ExpressionStatement(Binary(Binary(Name("a"), "+", Name("b")), "+", Name("c")))]), [])
  {
    var ab := Binary(Name("a"), "+", Name("b"));
    assert ValidTokens(toks);
    LeftAssociative(toks, PState(0, []), LOWEST);
    IdentifierAlone(toks, PState(4, []), SUM);
    FoldBinary(toks, PState(2, []), LOWEST, ab);
    FoldStops(toks, PState(4, []), LOWEST, Binary(ab, "+", Name("c")));
    SingleStatement(toks, Binary(ab, "+", Name("c")), 5);
  }

  /** `a + b * c` is `a + (b * c)`. */
  lemma ProductBindsTighterThanSum(toks: seq<Token>)
    requires |toks| == 6 && toks[0] == Tok(Ident, "a") && toks[1] == Tok(Plus, "+") && toks[2] == Tok(Ident, "b")
             && toks[3] == Tok(Asterisk, "*") && toks[4] == Tok(Ident, "c") && toks[5] == Tok(Eof, "")
    ensures ValidTokens(toks)
    ensures ParseProgram(toks) == (Program([ExpressionStatement(Binary(Name("a"), "+", Binary(Name("b"), "*", Name("c"))))]), [])
  {
    var e := Binary(Name("a"), "+", Binary(Name("b"), "*", Name("c")));
    assert ValidTokens(toks);
    TighterBindsFirst(toks, PState(0, []), LOWEST);
    FoldStops(toks, PState(4, []), LOWEST, e);
    SingleStatement(toks, e, 5);
  }

  /** `-a * b` is `(-a) * b`. */
  lemma NegationBindsTighterThanProduct(toks: seq<Token>)
    requires |toks| == 5 && toks[0] == Tok(Minus, "-") && toks[1] == Tok(Ident, "a") && toks[2] == Tok(Asterisk, "*")
             && toks[3] == Tok(Ident, "b") && toks[4] == Tok(Eof, "")
    ensures ValidTokens(toks)
    ensures ParseProgram(toks) == (Program([ExpressionStatement(Binary(Some(PrefixExpression("-", Name("a"))), "*", Name("b")))]), [])
  {
    var e := Binary(Some(PrefixExpression("-", Name("a"))), "*", Name("b"));
    assert ValidTokens(toks);
    PrefixBindsTighter(toks, PState(0, []), LOWEST);
    FoldStops(toks, PState(3, []), LOWEST, e);
    SingleStatement(toks, e, 4);
  }

  /** The group `(a + b)` at the start of `(a + b) * c` is the left operand the fold continues
      from after `)`. */
  lemma GroupedSum(toks: seq<Token>)
    requires |toks| == 8 && toks[0] == Tok(LParen, "(") && toks[1] == Tok(Ident, "a") && toks[2] == Tok(Plus, "+")
             && toks[3] == Tok(Ident, "b") && toks[4] == Tok(RParen, ")") && toks[5] == Tok(Asterisk, "*")
             && toks[6] == Tok(Ident, "c") && toks[7] == Tok(Eof, "")
    ensures ValidTokens(toks)
    ensures ParseExpression(toks, PState(0, []), LOWEST)
            == InfixLoop(toks, PState(4, []), LOWEST, Binary(Name("a"), "+", Name("b")))
  {
    var ab := Binary(Name("a"), "+", Name("b"));
    assert ValidTokens(toks);
    LeftAssociative(toks, PState(1, []), LOWEST);
    FoldStops(toks, PState(3, []), LOWEST, ab);
    assert ParseExpression(toks, PState(1, []), LOWEST) == (ab, PState(3, []));
    assert Peek(toks, PState(3, [])).kind == RParen && Next(toks, PState(3, [])) == PState(4, []);
    GroupedOperand(toks, PState(0, []), LOWEST);
  }

  /** `(a + b) * c` is `(a + b) * c`: the parentheses re-enter at LOWEST. */
  lemma GroupingOverridesPrecedence(toks: seq<Token>)
    requires |toks| == 8 && toks[0] == Tok(LParen, "(") && toks[1] == Tok(Ident, "a") && toks[2] == Tok(Plus, "+")
             && toks[3] == Tok(Ident, "b") && toks[4] == Tok(RParen, ")") && toks[5] == Tok(Asterisk, "*")
             && toks[6] == Tok(Ident, "c") && toks[7] == Tok(Eof, "")
    ensures ValidTokens(toks)
    ensures ParseProgram(toks) == (Program([ExpressionStatement(Binary(Binary(Name("a"), "+", Name("b")), "*", Name("c")))]), [])
  {
    GroupedProduct(toks);
    SingleStatement(toks, Binary(Binary(Name("a"), "+", Name("b")), "*", Name("c")), 7);
  }

  /** The expression of `(a + b) * c` ends on `c` with the group as the left operand of `*`. */
  lemma GroupedProduct(toks: seq<Token>)
    requires |toks| == 8 && toks[0] == Tok(LParen, "(") && toks[1] == Tok(Ident, "a") && toks[2] == Tok(Plus, "+")
             && toks[3] == Tok(Ident, "b") && toks[4] == Tok(RParen, ")") && toks[5] == Tok(Asterisk, "*")
             && toks[6] == Tok(Ident, "c") && toks[7] == Tok(Eof, "")
    ensures ValidTokens(toks)
    ensures ParseExpression(toks, PState(0, []), LOWEST) == (Binary(Binary(Name("a"), "+", Name("b")), "*", Name("c")), PState(6, []))
  {
    GroupedSum(toks);
    ProductAfterGroup(toks, Binary(Name("a"), "+", Name("b")));
  }

  /** After the `)` of `(a + b) * c`, the fold takes `* c` and stops at EOF. */
  lemma ProductAfterGroup(toks: seq<Token>, ab: Option<Expression>)
    requires ValidTokens(toks) && |toks| == 8 && toks[5] == Tok(Asterisk, "*") && toks[6] == Tok(Ident, "c")
             && toks[7] == Tok(Eof, "")
    ensures InfixLoop(toks, PState(4, []), LOWEST, ab) == (Binary(ab, "*", Name("c")), PState(6, []))
  {
    BinaryPrecedence(Asterisk);
    assert Precedence(toks[7].kind) == LOWEST;
    FoldIdentifier(toks, PState(3, []), LOWEST, ab);
    assert PState(3, []).(pos := 4) == PState(4, []) && PState(3, []).(pos := 6) == PState(6, []);
    FoldStops(toks, PState(6, []), LOWEST, Binary(ab, "*", Name("c")));
  }

  /** `f()` is a call with no arguments. */
  lemma EmptyCall(toks: seq<Token>)
    requires |toks| == 4 && toks[0] == Tok(Ident, "f") && toks[1] == Tok(LParen, "(") && toks[2] == Tok(RParen, ")")
             && toks[3] == Tok(Eof, "")
    ensures ValidTokens(toks)
    ensures ParseProgram(toks) == (Program([ExpressionStatement(Some(CallExpression(Name("f"), [])))]), [])
  {
    var e := Some(CallExpression(Name("f"), []));
    assert ValidTokens(toks);
    IdentifierOperand(toks, PState(0, []), LOWEST);
    FoldCall(toks, PState(0, []), LOWEST, Name("f"));
    assert ParseCallArguments(toks, PState(1, [])) == ([], PState(2, []));
    FoldStops(toks, PState(2, []), LOWEST, e);
    SingleStatement(toks, e, 3);
  }

  /** `f(a, b)` is a call with both arguments, in order. */
  lemma CallWithArguments(toks: seq<Token>)
    requires |toks| == 7 && toks[0] == Tok(Ident, "f") && toks[1] == Tok(LParen, "(") && toks[2] == Tok(Ident, "a")
             && toks[3] == Tok(Comma, ",") && toks[4] == Tok(Ident, "b") && toks[5] == Tok(RParen, ")")
             && toks[6] == Tok(Eof, "")
    ensures ValidTokens(toks)
    ensures ParseProgram(toks) == (Program([ExpressionStatement(Some(CallExpression(Name("f"), [Name("a"), Name("b")])))]), [])
  {
    var e := Some(CallExpression(Name("f"), [Name("a"), Name("b")]));
    TwoArguments(toks);
    IdentifierOperand(toks, PState(0, []), LOWEST);
    FoldCall(toks, PState(0, []), LOWEST, Name("f"));
    FoldStops(toks, PState(5, []), LOWEST, e);
    SingleStatement(toks, e, 6);
  }

  lemma TwoArguments(toks: seq<Token>)
    requires |toks| == 7 && toks[0] == Tok(Ident, "f") && toks[1] == Tok(LParen, "(") && toks[2] == Tok(Ident, "a")
             && toks[3] == Tok(Comma, ",") && toks[4] == Tok(Ident, "b") && toks[5] == Tok(RParen, ")")
             && toks[6] == Tok(Eof, "")
    ensures ValidTokens(toks)
    ensures ParseCallArguments(toks, PState(1, [])) == ([Name("a"), Name("b")], PState(5, []))
  {
    assert ValidTokens(toks);
    IdentifierAlone(toks, PState(2, []), LOWEST);
    IdentifierAlone(toks, PState(4, []), LOWEST);
    assert Next(toks, Next(toks, PState(2, []))) == PState(4, []);
    assert [Name("a")] + [Name("b")] == [Name("a"), Name("b")];
    assert ArgumentsLoop(toks, PState(4, []), [Name("a"), Name("b")]) == ([Name("a"), Name("b")], PState(5, []));
    assert ArgumentsLoop(toks, PState(2, []), [Name("a")]) == ([Name("a"), Name("b")], PState(5, []));
  }

  /** `let x = 5;` binds x to the integer literal 5. */
  lemma LetStatementParses(toks: seq<Token>)
    requires |toks| == 6 && toks[0] == Tok(Let, "let") && toks[1] == Tok(Ident, "x") && toks[2] == Tok(Assign, "=")
             && toks[3] == Tok(Int, "5") && toks[4] == Tok(Semicolon, ";") && toks[5] == Tok(Eof, "")
    ensures ValidTokens(toks)
    ensures ParseProgram(toks) == (Program([LetStatement("x", Some(IntegerLiteral(5)))]), [])
  {
    assert ValidTokens(toks);
    var five := Some(IntegerLiteral(5));
    var s3 := PState(3, []);
    assert GoInt.DigitsValue("5", 10) == 5;
    assert ParseIntegerLiteral(toks, s3) == (five, s3);
    assert PrefixTable()[Int] == IntegerLiteralFn;
    FoldStops(toks, s3, LOWEST, five);
    assert ParseExpression(toks, s3, LOWEST) == (five, s3);
    assert ParseLetStatement(toks, PState(0, [])) == (Some(LetStatement("x", five)), PState(4, []));
    assert [] + [LetStatement("x", five)] == [LetStatement("x", five)];
    assert ProgramLoop(toks, PState(5, []), [LetStatement("x", five)]) == (Program([LetStatement("x", five)]), PState(5, []));
  }

  /** The statements ParseProgram keeps are the non-nil entries of the list the source as written
      builds, in the same order, with the same errors: the two differ only in the nil entries. */
  function Present(xs: seq<Option<Statement>>): (r: seq<Statement>)
    ensures |r| <= |xs|
  {
    if xs == [] then [] else Present(xs[..|xs| - 1]) + (if xs[|xs| - 1].Some? then [xs[|xs| - 1].value] else [])
  }

  lemma {:induction false} ProgramLoopsAgree(toks: seq<Token>, s: PState, acc: seq<Statement>, raw: seq<Option<Statement>>)
    requires ValidTokens(toks) && s.pos < |toks| && Present(raw) == acc
    ensures Present(ProgramLoopAsWritten(toks, s, raw).0) == ProgramLoop(toks, s, acc).0.statements
    ensures ProgramLoopAsWritten(toks, s, raw).1 == ProgramLoop(toks, s, acc).1
    decreases |toks| - s.pos
  {
    if Cur(toks, s).kind != Eof {
      var (st, s1) := ParseStatement(toks, s);
      var raw' := raw + [st];
      assert raw'[..|raw'| - 1] == raw;
      ProgramLoopsAgree(toks, Next(toks, s1), if st.Some? then acc + [st.value] else acc, raw');
    }
  }

  lemma AsWrittenAgreesOnPresent(toks: seq<Token>)
    requires ValidTokens(toks)
    ensures Present(ParseProgramAsWritten(toks).0) == ParseProgram(toks).0.statements
    ensures ParseProgramAsWritten(toks).1 == ParseProgram(toks).1
  {
    ProgramLoopsAgree(toks, PState(0, []), [], []);
  }

  /** The same holds for the statements of a block: the source's block loop as written and the
      corrected one stop at the same place with the same errors, and differ only in the nil
      entries. */
  lemma {:induction false} BlockLoopsAgree(toks: seq<Token>, s: PState, acc: seq<Statement>, raw: seq<Option<Statement>>)
    requires ValidTokens(toks) && s.pos < |toks| && Present(raw) == acc
    ensures Present(BlockLoopAsWritten(toks, s, raw).0) == BlockLoop(toks, s, acc).0.statements
    ensures BlockLoopAsWritten(toks, s, raw).1 == BlockLoop(toks, s, acc).1
    decreases |toks| - s.pos
  {
    if Cur(toks, s).kind != RBrace && Cur(toks, s).kind != Eof {
      var (st, s1) := ParseStatement(toks, s);
      var s2 := Next(toks, s1);
      StepTrans(toks, s, s1, s2);
      var raw' := raw + [st];
      var acc' := if st.Some? then acc + [st.value] else acc;
      assert Present(raw') == acc' by {
        assert raw'[..|raw'| - 1] == raw;
      }
      BlockRound(toks, s, acc, st, s1);
      BlockRoundAsWritten(toks, s, raw, st, s1);
      BlockLoopsAgree(toks, s2, acc', raw');
    }
  }

  lemma BlockStatementsAgree(toks: seq<Token>, s: PState)
    requires ValidTokens(toks) && s.pos < |toks|
    ensures Present(ParseBlockStatementAsWritten(toks, s).0) == ParseBlockStatement(toks, s).0.statements
    ensures ParseBlockStatementAsWritten(toks, s).1 == ParseBlockStatement(toks, s).1
  {
    BlockLoopsAgree(toks, Next(toks, s), [], []);
  }

  /** In a block, a let without a name is kept as a nil entry by the loop as written, while the
      corrected loop goes on from the same place with its statements unchanged. */
  lemma FailedLetKeptInBlockAsWritten(toks: seq<Token>, s: PState, acc: seq<Statement>, raw: seq<Option<Statement>>)
    requires ValidTokens(toks) && s.pos < |toks| && Cur(toks, s).kind == Let && Peek(toks, s).kind != Ident
    ensures raw + [None] <= BlockLoopAsWritten(toks, s, raw).0
    ensures var s1 := Next(toks, AddError(s, PeekError(Ident, Peek(toks, s).kind)));
            BlockLoop(toks, s, acc) == BlockLoop(toks, s1, acc)
            && BlockLoopAsWritten(toks, s, raw) == BlockLoopAsWritten(toks, s1, raw + [None])
  {
    LetNeedsNameAndAssign(toks, s);
    BlockRound(toks, s, acc, None, AddError(s, PeekError(Ident, Peek(toks, s).kind)));
    BlockRoundAsWritten(toks, s, raw, None, AddError(s, PeekError(Ident, Peek(toks, s).kind)));
  }

  /** `if` needs `(` before its condition, `)` after it and `{` before the consequence; without
      one of them the expression is nil and the peek error for the missing token is recorded. */
  lemma IfNeedsParensAndBrace(toks: seq<Token>, s: PState)
    requires ValidTokens(toks) && s.pos < |toks|
    ensures Peek(toks, s).kind != LParen ==>
              ParseIfExpression(toks, s) == (None, AddError(s, PeekError(LParen, Peek(toks, s).kind)))
    ensures Peek(toks, s).kind == LParen ==>
              var (_, s3) := ParseExpression(toks, Next(toks, Next(toks, s)), LOWEST);
              (Peek(toks, s3).kind != RParen ==>
                 ParseIfExpression(toks, s) == (None, AddError(s3, PeekError(RParen, Peek(toks, s3).kind))))
              && (Peek(toks, s3).kind == RParen && Peek(toks, Next(toks, s3)).kind != LBrace ==>
                    ParseIfExpression(toks, s)
                    == (None, AddError(Next(toks, s3), PeekError(LBrace, Peek(toks, Next(toks, s3)).kind))))
  {
  }

  /** With `(` and `)` around the condition, the if expression is decided by what follows `)`:
      the condition is the expression parsed at LOWEST after `(`. */
  lemma IfReachesBranches(toks: seq<Token>, s: PState)
    requires ValidTokens(toks) && s.pos < |toks| && Peek(toks, s).kind == LParen
    ensures var (cond, s3) := ParseExpression(toks, Next(toks, Next(toks, s)), LOWEST);
            Peek(toks, s3).kind == RParen ==> ParseIfExpression(toks, s) == ParseIfBranches(toks, Next(toks, s3), cond)
  {
  }

  /** After `)`, `{` starts the consequence block; without `else` after it the result is an if
      expression with no alternative, and with `else` a second `{` and the alternative block are
      needed, without which the expression is nil and the peek error recorded. */
  lemma IfShape(toks: seq<Token>, s: PState, cond: Option<Expression>)
    requires ValidTokens(toks) && s.pos < |toks| && Peek(toks, s).kind == LBrace
    ensures var (cons, s2) := ParseBlockStatement(toks, Next(toks, s));
            (Peek(toks, s2).kind != Else ==>
               ParseIfBranches(toks, s, cond) == (Some(IfExpression(cond, cons, None)), s2))
            && (Peek(toks, s2).kind == Else && Peek(toks, Next(toks, s2)).kind != LBrace ==>
                  ParseIfBranches(toks, s, cond)
                  == (None, AddError(Next(toks, s2), PeekError(LBrace, Peek(toks, Next(toks, s2)).kind))))
            && (Peek(toks, s2).kind == Else && Peek(toks, Next(toks, s2)).kind == LBrace ==>
                  var (alt, s4) := ParseBlockStatement(toks, Next(toks, Next(toks, s2)));
                  ParseIfBranches(toks, s, cond) == (Some(IfExpression(cond, cons, Some(alt))), s4))
  {
  }

  /** `fn` needs `(`, then the parameter list, then `{`; without `(` or `{` the literal is nil and
      the peek error is recorded, and otherwise it is the parameters and the body block. */
  lemma FunctionLiteralShape(toks: seq<Token>, s: PState)
    requires ValidTokens(toks) && s.pos < |toks|
    ensures Peek(toks, s).kind != LParen ==>
              ParseFunctionLiteral(toks, s) == (None, AddError(s, PeekError(LParen, Peek(toks, s).kind)))
    ensures Peek(toks, s).kind == LParen ==>
              var (params, s2) := ParseFunctionParameters(toks, Next(toks, s));
              (Peek(toks, s2).kind != LBrace ==>
                 ParseFunctionLiteral(toks, s) == (None, AddError(s2, PeekError(LBrace, Peek(toks, s2).kind))))
              && (Peek(toks, s2).kind == LBrace ==>
                    var (body, s4) := ParseBlockStatement(toks, Next(toks, s2));
                    ParseFunctionLiteral(toks, s) == (Some(FunctionLiteral(params, body)), s4))
  {
  }

  /** The parameter list: `)` at once is no parameters; otherwise the literals after `(` and after
      each `,`, and `)` must follow, without which the list is empty and the peek error recorded. */
  lemma {:induction false} ParametersShape(toks: seq<Token>, s: PState, ids: seq<string>)
    requires ValidTokens(toks) && s.pos < |toks|
    ensures Peek(toks, s).kind != Comma && Peek(toks, s).kind != RParen ==>
              ParametersLoop(toks, s, ids) == ([], AddError(s, PeekError(RParen, Peek(toks, s).kind)))
    ensures Peek(toks, s).kind == RParen ==> ParametersLoop(toks, s, ids) == (ids, Next(toks, s))
    ensures Peek(toks, s).kind == Comma ==>
              var s1 := Next(toks, Next(toks, s));
              ParametersLoop(toks, s, ids) == ParametersLoop(toks, s1, ids + [Cur(toks, s1).literal])
  {
  }

  /** `let IDENT = e`: with the name and `=` in place, the statement binds the name to the
      expression parsed at LOWEST after `=`, and steps over one `;` when it follows. */
  lemma LetShape(toks: seq<Token>, s: PState)
    requires ValidTokens(toks) && s.pos < |toks|
    requires Peek(toks, s).kind == Ident && At(toks, s.pos + 2).kind == Assign
    ensures Next(toks, Next(toks, Next(toks, s))) == s.(pos := s.pos + 3)
    ensures var (v, s4) := ParseExpression(toks, Next(toks, Next(toks, Next(toks, s))), LOWEST);
            ParseLetStatement(toks, s)
            == (Some(LetStatement(Peek(toks, s).literal, v)), if Peek(toks, s4).kind == Semicolon then Next(toks, s4) else s4)
  {
    var s1 := Next(toks, s);
    var s2 := Next(toks, s1);
    assert s1 == s.(pos := s.pos + 1) && Cur(toks, s1).kind == Ident;
    assert s2 == s.(pos := s.pos + 2) && Cur(toks, s2).kind == Assign;
    assert PeekStep(toks, s, Ident) == (true, s1);
    assert PeekStep(toks, s1, Assign) == (true, s2);
  }

  /** `return e`: the value is the expression parsed at LOWEST after `return`, and one `;` that
      follows is stepped over. */
  lemma ReturnShape(toks: seq<Token>, s: PState)
    requires ValidTokens(toks) && s.pos < |toks| && Cur(toks, s).kind == Return
    ensures Next(toks, s) == s.(pos := s.pos + 1)
    ensures var (v, s2) := ParseExpression(toks, Next(toks, s), LOWEST);
            ParseReturnStatement(toks, s)
            == (Some(ReturnStatement(v)), if Peek(toks, s2).kind == Semicolon then Next(toks, s2) else s2)
  {
  }

  /** The argument list of a call, from `(`: `)` at once is no arguments; otherwise the first
      argument is parsed at LOWEST, each `,` adds the next expression parsed at LOWEST, and after
      an argument `)` ends the list while any other token empties it with the RPAREN peek
      error. */
  lemma CallArgumentsShape(toks: seq<Token>, s: PState, args: seq<Option<Expression>>)
    requires ValidTokens(toks) && s.pos < |toks|
    ensures Peek(toks, s).kind == RParen ==> ParseCallArguments(toks, s) == ([], Next(toks, s))
    ensures Peek(toks, s).kind != RParen ==>
              var (e, s2) := ParseExpression(toks, Next(toks, s), LOWEST);
              ParseCallArguments(toks, s) == ArgumentsLoop(toks, s2, [e])
    ensures Peek(toks, s).kind == Comma ==>
              var (e, s2) := ParseExpression(toks, Next(toks, Next(toks, s)), LOWEST);
              ArgumentsLoop(toks, s, args) == ArgumentsLoop(toks, s2, args + [e])
    ensures Peek(toks, s).kind == RParen ==> ArgumentsLoop(toks, s, args) == (args, Next(toks, s))
    ensures Peek(toks, s).kind != Comma && Peek(toks, s).kind != RParen ==>
              ArgumentsLoop(toks, s, args) == ([], AddError(s, PeekError(RParen, Peek(toks, s).kind)))
  {
  }

  /** An argument loop that records no error keeps the arguments already read, in order, and
      ends on the closing `)`. */
  lemma {:induction false} ArgumentsEndAtParen(toks: seq<Token>, s: PState, args: seq<Option<Expression>>)
    requires ValidTokens(toks) && s.pos < |toks|
    ensures var r := ArgumentsLoop(toks, s, args);
            r.1.errors == s.errors ==> args <= r.0 && Cur(toks, r.1).kind == RParen
    decreases |toks| - s.pos
  {
    if Peek(toks, s).kind == Comma {
      var s1 := Next(toks, Next(toks, s));
      var (e, s2) := ParseExpression(toks, s1, LOWEST);
      var r := ArgumentsLoop(toks, s2, args + [e]);
      ArgumentsEndAtParen(toks, s2, args + [e]);
      StepTrans(toks, s, s2, r.1);
    }
  }

  /** The first statement of `let = 5;`: a let without a name is nil and records a peek error. */
  lemma NamelessLet(toks: seq<Token>, errs: seq<ParseError>)
    requires |toks| == 5 && toks[0] == Tok(Let, "let") && toks[1] == Tok(Assign, "=") && toks[2] == Tok(Int, "5")
             && toks[3] == Tok(Semicolon, ";") && toks[4] == Tok(Eof, "")
    ensures ValidTokens(toks)
    ensures ParseStatement(toks, PState(0, errs)) == (None, PState(0, errs + [PeekError(Ident, Assign)]))
  {
    assert ValidTokens(toks);
    var s0 := PState(0, errs);
    var e1 := AddError(s0, PeekError(Ident, Assign));
    assert PeekStep(toks, s0, Ident) == (false, e1);
    assert ParseLetStatement(toks, s0) == (None, e1);
  }

  /** The second statement of `let = 5;`: `=` has no prefix parse function. */
  lemma StrayAssign(toks: seq<Token>, errs: seq<ParseError>)
    requires |toks| == 5 && toks[0] == Tok(Let, "let") && toks[1] == Tok(Assign, "=") && toks[2] == Tok(Int, "5")
             && toks[3] == Tok(Semicolon, ";") && toks[4] == Tok(Eof, "")
    ensures ValidTokens(toks)
    ensures ParseStatement(toks, PState(1, errs))
            == (Some(ExpressionStatement(None)), PState(1, errs + [NoPrefixParseFn(Assign)]))
  {
    assert ValidTokens(toks);
    var s1 := PState(1, errs);
    var e2 := AddError(s1, NoPrefixParseFn(Assign));
    assert Assign !in PrefixTable();
    assert ParseExpression(toks, s1, LOWEST) == (None, e2);
    assert ParseExpressionStatement(toks, s1) == (Some(ExpressionStatement(None)), e2);
  }

  /** The third statement of `let = 5;`: the integer literal 5. */
  lemma TrailingFive(toks: seq<Token>, errs: seq<ParseError>)
    requires |toks| == 5 && toks[0] == Tok(Let, "let") && toks[1] == Tok(Assign, "=") && toks[2] == Tok(Int, "5")
             && toks[3] == Tok(Semicolon, ";") && toks[4] == Tok(Eof, "")
    ensures ValidTokens(toks)
    ensures ParseStatement(toks, PState(2, errs)) == (Some(ExpressionStatement(Some(IntegerLiteral(5)))), PState(3, errs))
  {
    assert ValidTokens(toks);
    var five := Some(IntegerLiteral(5));
    var s2 := PState(2, errs);
    assert GoInt.DigitsValue("5", 10) == 5;
    assert ParseIntegerLiteral(toks, s2) == (five, s2);
    assert PrefixTable()[Int] == IntegerLiteralFn;
    FoldStops(toks, s2, LOWEST, five);
    assert ParseExpression(toks, s2, LOWEST) == (five, s2);
    assert ParseExpressionStatement(toks, s2) == (Some(ExpressionStatement(five)), PState(3, errs));
  }

  /** The list the source as written builds for `let = 5;`, statement by statement. */
  lemma FailedLetLoop(toks: seq<Token>)
    requires |toks| == 5 && toks[0] == Tok(Let, "let") && toks[1] == Tok(Assign, "=") && toks[2] == Tok(Int, "5")
             && toks[3] == Tok(Semicolon, ";") && toks[4] == Tok(Eof, "")
    ensures ValidTokens(toks)
    ensures ProgramLoopAsWritten(toks, PState(0, []), [])
            == ([None, Some(ExpressionStatement(None)), Some(ExpressionStatement(Some(IntegerLiteral(5))))],
                PState(4, [PeekError(Ident, Assign), NoPrefixParseFn(Assign)]))
  {
    var e1 := [PeekError(Ident, Assign)];
    NamelessLet(toks, []);
    assert [] + [PeekError(Ident, Assign)] == e1;
    assert Next(toks, PState(0, e1)) == PState(1, e1);
    var none: Option<Statement> := None;
    assert [] + [none] == [none];
    AsWrittenStep(toks, PState(0, []), [], none, PState(0, e1));
    FailedLetTail(toks);
  }

  /** The rounds of the loop over `let = 5;` after the failed let. */
  lemma FailedLetTail(toks: seq<Token>)
    requires |toks| == 5 && toks[0] == Tok(Let, "let") && toks[1] == Tok(Assign, "=") && toks[2] == Tok(Int, "5")
             && toks[3] == Tok(Semicolon, ";") && toks[4] == Tok(Eof, "")
    ensures ValidTokens(toks)
    ensures ProgramLoopAsWritten(toks, PState(1, [PeekError(Ident, Assign)]), [None])
            == ([None, Some(ExpressionStatement(None)), Some(ExpressionStatement(Some(IntegerLiteral(5))))],
                PState(4, [PeekError(Ident, Assign), NoPrefixParseFn(Assign)]))
  {
    var e1 := [PeekError(Ident, Assign)];
    var e2 := [PeekError(Ident, Assign), NoPrefixParseFn(Assign)];
    StrayAssign(toks, e1);
    assert e1 + [NoPrefixParseFn(Assign)] == e2;
    assert Next(toks, PState(1, e2)) == PState(2, e2);
    var none: Option<Statement> := None;
    assert [none] + [Some(ExpressionStatement(None))] == [none, Some(ExpressionStatement(None))];
    AsWrittenStep(toks, PState(1, e1), [none], Some(ExpressionStatement(None)), PState(1, e2));
    FailedLetLast(toks);
  }

  /** The last round of the loop over `let = 5;`: the statement `5;`. */
  lemma FailedLetLast(toks: seq<Token>)
    requires |toks| == 5 && toks[0] == Tok(Let, "let") && toks[1] == Tok(Assign, "=") && toks[2] == Tok(Int, "5")
             && toks[3] == Tok(Semicolon, ";") && toks[4] == Tok(Eof, "")
    ensures ValidTokens(toks)
    ensures ProgramLoopAsWritten(toks, PState(2, [PeekError(Ident, Assign), NoPrefixParseFn(Assign)]),
                                 [None, Some(ExpressionStatement(None))])
            == ([None, Some(ExpressionStatement(None)), Some(ExpressionStatement(Some(IntegerLiteral(5))))],
                PState(4, [PeekError(Ident, Assign), NoPrefixParseFn(Assign)]))
  {
    var e2 := [PeekError(Ident, Assign), NoPrefixParseFn(Assign)];
    TrailingFive(toks, e2);
    var none: Option<Statement> := None;
    var last := Some(ExpressionStatement(Some(IntegerLiteral(5))));
    var raw := [none, Some(ExpressionStatement(None)), last];
    assert Next(toks, PState(3, e2)) == PState(4, e2);
    assert [none, Some(ExpressionStatement(None))] + [last] == raw;
    assert ProgramLoopAsWritten(toks, PState(4, e2), raw) == (raw, PState(4, e2));
    AsWrittenStep(toks, PState(2, e2), [none, Some(ExpressionStatement(None))], last, PState(3, e2));
  }

  /** One round of the as-written program loop. */
  lemma AsWrittenStep(toks: seq<Token>, s: PState, acc: seq<Option<Statement>>, st: Option<Statement>, s1: PState)
    requires ValidTokens(toks) && s.pos < |toks| && Cur(toks, s).kind != Eof
    requires ParseStatement(toks, s) == (st, s1)
    ensures ProgramLoopAsWritten(toks, s, acc) == ProgramLoopAsWritten(toks, Next(toks, s1), acc + [st])
  {
  }

  /** `let = 5;`: the failed let is a nil entry in the list the source as written builds, where
      the `stmt != nil` test evidently meant to drop it; ParseProgram drops it. */
  lemma FailedLetIsKeptAsWritten(toks: seq<Token>)
    requires |toks| == 5 && toks[0] == Tok(Let, "let") && toks[1] == Tok(Assign, "=") && toks[2] == Tok(Int, "5")
             && toks[3] == Tok(Semicolon, ";") && toks[4] == Tok(Eof, "")
    ensures ValidTokens(toks)
    ensures |ParseProgramAsWritten(toks).0| > 0 && ParseProgramAsWritten(toks).0[0] == None
    ensures ParseProgramAsWritten(toks).1 == ParseProgram(toks).1 == [PeekError(Ident, Assign), NoPrefixParseFn(Assign)]
    ensures ParseProgram(toks).0.statements == [ExpressionStatement(None), ExpressionStatement(Some(IntegerLiteral(5)))]
  {
    FailedLetLoop(toks);
    var raw := ParseProgramAsWritten(toks).0;
    assert Present(raw[..1]) == [] by {
      assert raw[..1][..0] == [];
    }
    assert raw[..2][..1] == raw[..1];
    assert Present(raw[..2]) == [ExpressionStatement(None)];
    assert raw[..2] == raw[..|raw| - 1];
    AsWrittenAgreesOnPresent(toks);
  }
}
