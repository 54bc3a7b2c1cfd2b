# Monkey interpreter in Dafny

A model of the Go interpreter for the Monkey language. The model covers the whole pipeline from
source text to value:

- **Lexer**: a byte cursor that hands out one token per call.
- **Pratt parser**: it reads the tokens through a `curToken`/`peekToken` window and builds a
  syntax tree. It does not stop at the first error; it collects the errors it meets.
- **Runtime values**: their type names, printed forms and hash keys.
- **Environments**: chained scopes.
- **Evaluator**: a tree walk in which errors are values that end evaluation.
- **Built-ins**: `len`, `first`, `last`, `rest`, `push` and `puts`.
- **Helper**: the generic `Map`.

Each component takes the form of its Go code:

- Where the Go code changes state step by step, the model is imperative: the `Lexer`, `Parser`
  and `Environment` classes, and the loops of `functools.Map`, `evalProgram`,
  `evalBlockStatements`, `evalExpressions` and parameter binding. Each method is proved to
  compute a specification function of the state it starts in, and the properties are proved
  about those functions.
- Where the Go code is pure, the model is a function.

Properties are proved about the specification functions:

- the token stream is well classified, bounded, and reassembles the input;
- the parser's trees have the associativity and binding strength of the precedence table;
- hash keys separate values;
- errors and `return` end evaluation;
- function application binds its parameters positionally;
- the worked examples of the repository's tests give the expected results.

Modules, one per file:

- `Wrappers`: optional values, standing for nil.
- `GoInt`:
  - `int64` with wrap-around;
  - division that truncates toward zero;
  - `uint64(v)`;
  - `strconv.ParseInt(lit, 0, 64)` for digit runs;
  - decimal printing.
- `Token`: the token kinds and the keyword table.
- `Lexer`: the lexer functions and the `Lexer` class.
- `LexerProperties`: properties of the token stream.
- `TokenStream`: the tokens a lexer hands out, seen as one sequence.
- `Ast`: the syntax tree.
- `ParserSpec`: the parser as functions over the token sequence.
- `Parser`: the `Parser` class.
- `ParserProperties`: properties of the trees the parser builds.
- `Objects`: runtime values.
- `Environments`: environments as a heap of frames, and the `Environment` class.
- `Evaluator`: the tree walk.
- `Builtins`: the built-in functions.
- `EvaluatorProperties`: properties of evaluation.
- `Functools`: `Map`.

## Go behaviour in the model

- **Nil.** Go's nil is `None` for syntax-tree fields and `Absent` for runtime objects.
- **Panics.** A runtime panic ends evaluation with `Halt`, whatever Go code would run next. There
  are two:
  - a method call on nil (`NilDereference`);
  - integer division by zero (`DivisionByZero`).
  With these, the evaluator is a total function. A precondition could not rule the panics out,
  since they depend on the program being evaluated.
- **Fuel.** Monkey programs can run forever, so every function application uses up one unit of
  fuel. Running out of fuel is also a `Halt` (`OutOfFuel`).
- **Environments in the evaluator.** The evaluator is written as functions, so it keeps its
  environments in a heap of frames:
  - each frame's outer link is the index of an earlier frame;
  - a closure holds a frame index;
  - evaluation returns the heap it leaves behind.
- **Environments as objects.** The `Environment` class models the source's mutable object
  itself. Both forms answer `Get` through the same `LookupIn` over the chain of stores.
- **The parser's input.** The parser reads the finite token sequence `Lexer.Tokens`, which ends
  in EOF, through a window that stays on that last EOF. This window gives the same tokens as
  the lexer's endless EOF stream (`TokenStream.StreamAt`).
- **Go strings.** A Go string is a Dafny `string` whose characters are all below 256, one per
  byte. The lexer's ILLEGAL token for a byte of 0x80 or above carries `string(rune(b))`, the
  two-byte UTF-8 encoding of that byte, as Go's `string(l.ch)` does.

## Model

| member | source | states |
|---|---|---|
| `Functools.Mapped` | functools/functools.go:3-11 | The mapped slice has the input's length, and element i is `fn` applied to input element i. |
| `Functools.Map` | functools/functools.go:3-11 | The loop that fills a fresh slice gives exactly `Mapped`, same length and `us[i] == fn(ts[i])`. |
| `Functools.MappedAppend` | functools/functools.go:3-11 | Map of the empty slice is empty, and Map distributes over concatenation, so order is kept. |
| `GoInt.Wrap` | evaluator/builtins.go:24 | An `int64(n)` conversion is congruent to n modulo 2^64 and is n itself when n fits. |
| `GoInt.Add` | evaluator/evaluator.go:246 | `int64` addition is the true sum modulo 2^64, and is exact when the sum fits. |
| `GoInt.Sub` | evaluator/evaluator.go:248 | `int64` subtraction is the true difference modulo 2^64, and is exact when it fits. |
| `GoInt.Mul` | evaluator/evaluator.go:250 | `int64` multiplication is the true product modulo 2^64, and is exact when it fits. |
| `GoInt.Neg` | evaluator/evaluator.go:290-300 | Negation is exact except on the most negative value, which maps to itself. |
| `GoInt.Quot` | evaluator/evaluator.go:252 | Go `/` truncates toward zero: the remainder is smaller than the divisor and has the dividend's sign. MinInt64 / -1 wraps to MinInt64. |
| `GoInt.ToUint64` | object/object.go:51-53 | `uint64(v)` is v for v >= 0 and v + 2^64 otherwise. |
| `GoInt.ToUint64Injective` | object/object.go:51-53 | Two `int64` values have the same `uint64` reinterpretation exactly when they are equal. |
| `GoInt.ParseIntLiteral` | parser/parser.go:252 | `strconv.ParseInt(lit, 0, 64)` on a digit run succeeds exactly when the literal is octal (a leading 0) with digits below 8 and a value that fits, or decimal with a value that fits. Its value is then the digits read in that base. |
| `GoInt.NatToDecimal` | evaluator/evaluator.go:302-304 | `%d` of a natural number is a non-empty digit string without a leading zero. |
| `GoInt.IntToDecimal` | object/object.go:49 | `%d` of an integer is non-empty and starts with `-` exactly when the integer is negative. |
| `GoInt.DecimalDigitsValue` | object/object.go:49 | Reading back the decimal digits `%d` writes gives the number. |
| `GoInt.DecimalRoundTrip` | parser/parser.go:249-262 | Parsing the printed form of a non-negative `int64` gives the same value back. |
| `Token.LookupIdent` | lexer/lexer.go:125-127 | An identifier is reclassified as a keyword exactly for `fn`, `let`, `true`, `false`, `if`, `else` and `return`, and is IDENT otherwise. |
| `Lexer.Utf8OfByte` | lexer/lexer.go:131 | The literal of an ILLEGAL byte is the byte itself below 0x80 and its two-byte UTF-8 encoding otherwise. |
| `Lexer.CharacterClasses` | lexer/lexer.go:143-153 | Letters, digits and whitespace are disjoint byte classes, and the end-of-input byte 0 is in none of them. |
| `Lexer.SkipWhiteSpaceFrom` | lexer/lexer.go:72-76 | Whitespace skipping stops at the first non-whitespace byte, and every byte it passes is whitespace. |
| `Lexer.RunEnd` | lexer/lexer.go:49-70 | A run ends at the first byte outside the class; every byte before it is in the class. |
| `Lexer.Scan` | lexer/lexer.go:78-137 | One NextToken call always moves the cursor forward, and stays within the input while input remains. |
| `Lexer.ScanToken` | lexer/lexer.go:83-135 | The token switch always moves the cursor forward, and stays within the input when it starts inside it. |
| `Lexer.Tokens` | lexer/lexer.go:78-137 | The token stream of an input is non-empty and ends with EOF. |
| `Lexer.Lexer.New` | lexer/lexer.go:15-23 | A new lexer holds the input with its cursor on the first byte. |
| `Lexer.Lexer.ReadChar` | lexer/lexer.go:27-36 | readChar moves position to readPosition, advances readPosition, and loads that byte (0 past the end). |
| `Lexer.Lexer.PeakAhead` | lexer/lexer.go:38-47 | peakAhead gives the byte readChar would load next: the byte at readPosition, or 0 past the end. |
| `Lexer.Lexer.ReadIdentifier` | lexer/lexer.go:49-59 | readIdentifier consumes the maximal run of letters, returns it as a slice of the input, and steps readPosition back. |
| `Lexer.Lexer.ReadNumber` | lexer/lexer.go:61-70 | readNumber consumes the maximal run of digits, returns it as a slice of the input, and steps readPosition back. |
| `Lexer.Lexer.SkipWhiteSpace` | lexer/lexer.go:72-76 | The cursor moves to where `SkipWhiteSpaceFrom` says. |
| `Lexer.Lexer.NextToken` | lexer/lexer.go:78-137 | Each call returns the token `Scan` gives at the cursor and moves the cursor as `Scan` says. |
| `Lexer.Tokenize` | lexer/lexer.go:78-137 | Calling NextToken on a fresh lexer up to the EOF for the end of the input gives exactly `Tokens`. |
| `LexerProperties.RunIsSlice` | lexer/lexer.go:49-70 | A run started on a byte of its class is non-empty, within the input, and made of bytes of the class. |
| `LexerProperties.ScanClassified` | lexer/lexer.go:78-137 | Every token has a well-formed kind and literal: operators have their fixed spelling; identifiers, keywords and integers are non-empty letter or digit runs; ILLEGAL is a single byte that starts no other token; EOF is empty. |
| `LexerProperties.ScanTokenClassified` | lexer/lexer.go:83-133 | The token switch yields a classified token at any non-whitespace byte. |
| `LexerProperties.OperatorClassified` | lexer/lexer.go:84-123 | The NUL case and every operator case yield a classified token. |
| `LexerProperties.IllegalClassified` | lexer/lexer.go:124-132 | A byte that is no operator, letter, digit or whitespace yields a classified ILLEGAL token, and the cursor moves past that one byte, including a byte of 0x80 or above whose literal takes two bytes. |
| `LexerProperties.TokensClassified` | lexer/lexer.go:78-137 | Every token of the stream is classified. |
| `LexerProperties.ClassifiedHasNoWhiteSpace` | lexer/lexer.go:151-153 | No classified token's literal contains space, tab, LF or CR. |
| `LexerProperties.TokensHaveNoWhiteSpace` | lexer/lexer.go:72-76 | Whitespace never appears in any token of the stream. |
| `LexerProperties.ScanLookAhead` | lexer/lexer.go:86-113 | `=` then `=` gives one EQ token `==` and advances two bytes, otherwise ASSIGN; `!` then `=` gives NOT_EQ, otherwise BANG. |
| `LexerProperties.MinusIsSeparate` | lexer/lexer.go:114-115 | `-` is always a one-byte MINUS token, never part of a number. |
| `LexerProperties.ScanMaximalRun` | lexer/lexer.go:125-129 | An identifier token is the maximal letter run, a slice of the input, with its kind from LookupIdent. An integer token is the maximal digit run. |
| `LexerProperties.ScanEof` | lexer/lexer.go:84-85 | At the end of the input, or on a NUL byte, the token is EOF with an empty literal. Past the end the cursor moves by one per call. |
| `LexerProperties.TokensBounded` | lexer/lexer.go:27-36 | A stream from cursor p has at most `len(input) - p + 1` tokens, so at most `len(input)` before the final EOF. |
| `LexerProperties.ScanIsSlice` | lexer/lexer.go:78-137 | For ASCII input without NUL, each non-EOF token's literal is the input slice the cursor passes, so the cursor advances by the literal's length. |
| `LexerProperties.Stripped` | lexer/lexer.go:151-153 | The input without its whitespace contains no whitespace and is no longer than the input. |
| `LexerProperties.StrippedAppend` | lexer/lexer.go:151-153 | Removing whitespace distributes over concatenation. |
| `LexerProperties.StrippedOfWhiteSpace` | lexer/lexer.go:72-76 | Removing whitespace from whitespace leaves nothing. |
| `LexerProperties.StrippedOfNoWhiteSpace` | lexer/lexer.go:151-153 | Removing whitespace from a string without any changes nothing. |
| `LexerProperties.LiteralsReassemble` | lexer/lexer.go:78-137 | For ASCII input without NUL, the literals of all tokens, concatenated, are the input with its whitespace removed. |
| `TokenStream.CursorFrom` | lexer/lexer.go:78-137 | After k > 0 NextToken calls the cursor is past where it started. |
| `TokenStream.CursorStep` | lexer/lexer.go:135 | One more NextToken call moves the cursor as `Scan` says. |
| `TokenStream.CursorPastEnd` | lexer/lexer.go:28-30 | Past the end of the input every call returns EOF and moves the cursor by one. |
| `TokenStream.LexedTokensValid` | parser/parser.go:50-81 | The token sequence of any input is one the parser can read: it ends with EOF, and its integer literals are digit runs. |
| `TokenStream.StreamAt` | parser/parser.go:91-94 | The k-th token the lexer hands out is the k-th token of the window over `Tokens`, EOF forever after its end. |
| `ParserSpec.Precedence` | parser/parser.go:137-149 | Every precedence lies between LOWEST and CALL and is never PREFIX. It is above LOWEST exactly for `==`, `!=`, `<`, `>`, `+`, `-`, `*`, `/` and `(`. |
| `Parser.Parser.PeekPrecedence` | parser/parser.go:137-142 | peekPrecedence is the table's precedence of the next token, LOWEST outside the table. |
| `Parser.Parser.CurPrecedence` | parser/parser.go:144-149 | curPrecedence is the table's precedence of the current token, LOWEST outside the table. |
| `ParserSpec.At` | parser/parser.go:91-94 | Past the end of the sequence the window reads EOF, and an INT token's literal is a digit run. |
| `ParserSpec.Next` | parser/parser.go:91-94 | nextToken makes peekToken the current token, keeps the errors, and advances by one unless both tokens are the final EOF. |
| `ParserSpec.PeekStep` | parser/parser.go:125-133 | peekStep succeeds exactly when the next token has the expected kind. It then advances; otherwise it appends the peek error naming the expected and the actual kind. |
| `ParserSpec.StepTrans` | parser/parser.go:155-157 | Parse steps compose: positions never go back and the error list only grows. If it has not grown over two steps, it did not grow in either. |
| `ParserSpec.ParseProgram` | parser/parser.go:99-112 | A program parsed without errors contains no nil anywhere in its tree. |
| `ParserSpec.ProgramLoop` | parser/parser.go:103-109 | The loop runs to EOF, keeps the statements already collected in order as a prefix, and adds no nil when no error is recorded. |
| `ParserSpec.ProgramLoopAsWritten` | parser/parser.go:103-109 | The loop as written only moves forward and keeps every statement collected so far as a prefix. When it records no error, every entry it adds is present and nil-free. |
| `ParserSpec.ParseProgramAsWritten` | parser/parser.go:99-112 | As written, a program parsed without errors has every entry present and nil-free. |
| `ParserSpec.ParseStatement` | parser/parser.go:164-173 | Each statement parser only moves forward, never drops errors, and returns a nil-free statement when it records no error. It leaves the window on EOF only when it started there or advanced. |
| `ParserSpec.ParseLetStatement` | parser/parser.go:175-196 | let only advances, keeps errors, and is nil-free when error-free. |
| `ParserSpec.ParseReturnStatement` | parser/parser.go:198-210 | return always yields a statement, only advances, and is nil-free when error-free. |
| `ParserSpec.ParseExpressionStatement` | parser/parser.go:212-220 | An expression statement always yields a statement, only advances, and is nil-free when error-free. |
| `ParserSpec.ParseExpression` | parser/parser.go:222-243 | parseExpression only advances, never drops errors, and yields a nil-free expression when it records no error. |
| `ParserSpec.InfixLoop` | parser/parser.go:230-241 | The fold stops exactly at `;`, at a token binding no tighter than the precedence, or at a token without an infix function. A nil-free left operand stays nil-free when no error is recorded. |
| `ParserSpec.ParsePrefix` | parser/parser.go:245-285 | Every prefix parse function only advances and is nil-free when error-free. |
| `ParserSpec.ParseInfix` | parser/parser.go:287-295 | Every infix parse function only advances and keeps a nil-free left operand nil-free when error-free. |
| `ParserSpec.ParseIntegerLiteral` | parser/parser.go:249-262 | An integer literal parses exactly when ParseInt accepts it. Otherwise it is nil, with the "could not parse" error appended. |
| `ParserSpec.ParsePrefixExpression` | parser/parser.go:274-285 | A prefix expression only advances and is nil-free when error-free. |
| `ParserSpec.ParseInfixExpression` | parser/parser.go:287-295 | An infix expression only advances and is nil-free when error-free. |
| `ParserSpec.ParseGroupedExpression` | parser/parser.go:430-440 | A grouped expression only advances and is nil-free when error-free. |
| `ParserSpec.ParseIfExpression` | parser/parser.go:297-329 | An if expression only advances and is nil-free when error-free. |
| `ParserSpec.ParseIfBranches` | parser/parser.go:312-328 | The consequence and the optional alternative keep a nil-free condition nil-free when error-free. |
| `ParserSpec.ParseAlternative` | parser/parser.go:320-326 | An else branch yields a nil-free block when error-free. |
| `ParserSpec.ParseFunctionLiteral` | parser/parser.go:331-347 | A function literal only advances and is nil-free when error-free. |
| `ParserSpec.ParseFunctionParameters` | parser/parser.go:350-375 | Parameter parsing only advances and keeps errors. |
| `ParserSpec.ParametersLoop` | parser/parser.go:361-371 | The parameter loop keeps the identifiers already read, in order, when it records no error. |
| `ParserSpec.ParseBlockStatement` | parser/parser.go:377-391 | The block without its nil entries (see Findings) stops at `}` or EOF and contains no nil when error-free. |
| `ParserSpec.BlockLoop` | parser/parser.go:382-388 | The block loop without nil entries ends on `}` or EOF and keeps collected statements as a prefix. |
| `ParserSpec.ParseBlockStatementAsWritten` | parser/parser.go:377-391 | parseBlockStatement as written only moves forward, and a block parsed without errors has every entry present and nil-free. |
| `ParserSpec.BlockLoopAsWritten` | parser/parser.go:382-388 | The block loop as written ends on `}` or EOF, keeps every entry collected so far as a prefix, nil or not, and adds only present, nil-free entries when it records no error. |
| `ParserSpec.ProgramRound` | parser/parser.go:103-109 | One round of the program loop without nil entries parses a statement, keeps it when it is not nil, and steps past it. |
| `ParserSpec.BlockRound` | parser/parser.go:382-388 | One round of the block loop without nil entries parses a statement, keeps it when it is not nil, and steps past it. |
| `ParserSpec.BlockRoundAsWritten` | parser/parser.go:382-388 | One round of the block loop as written keeps the parsed statement, nil or not, and steps past it. |
| `ParserSpec.ParseCallExpression` | parser/parser.go:393-398 | A call always yields a call node, and a nil-free callee gives a nil-free call when error-free. |
| `ParserSpec.ParseCallArguments` | parser/parser.go:400-422 | When no error is recorded, every argument is present and nil-free. |
| `ParserSpec.ArgumentsLoop` | parser/parser.go:411-419 | The argument loop keeps nil-free arguments nil-free when error-free. |
| `Parser.Parser.New` | parser/parser.go:50-81 | A new parser registers exactly the prefix and infix tables, reads two tokens, and starts at the first token with no errors. |
| `Parser.Parser.RegisterPrefix` | parser/parser.go:83-85 | registerPrefix adds one entry to the prefix map and changes nothing else. |
| `Parser.Parser.RegisterInfix` | parser/parser.go:87-89 | registerInfix adds one entry to the infix map and changes nothing else. |
| `Parser.Parser.NextToken` | parser/parser.go:91-94 | nextToken shifts peekToken into curToken, reads the next token of the stream, and is the spec's `Next`. |
| `Parser.Parser.WriteError` | parser/parser.go:155-157 | writeError appends exactly one error. |
| `Parser.Parser.PeekError` | parser/parser.go:159-162 | peekError appends the error naming the expected and the actual next kind. |
| `Parser.Parser.NoPrefixParseFnError` | parser/parser.go:425-428 | The missing-prefix error names the token kind. |
| `Parser.Parser.PeekStep` | parser/parser.go:125-133 | peekStep computes `ParserSpec.PeekStep`. |
| `Parser.Parser.ParseProgram` | parser/parser.go:99-112 | The statement loop computes `ProgramLoop`. |
| `Parser.Parser.ParseStatement` | parser/parser.go:164-173 | The statement dispatch computes `ParserSpec.ParseStatement`. |
| `Parser.Parser.ParseLetStatement` | parser/parser.go:175-196 | parseLetStatement computes its spec function. |
| `Parser.Parser.ParseReturnStatement` | parser/parser.go:198-210 | parseReturnStatement computes its spec function. |
| `Parser.Parser.ParseExpressionStatement` | parser/parser.go:212-220 | parseExpressionStatement computes its spec function. |
| `Parser.Parser.ParseExpression` | parser/parser.go:222-243 | parseExpression computes `ParserSpec.ParseExpression`. |
| `Parser.Parser.FoldInfix` | parser/parser.go:230-241 | The folding loop computes `InfixLoop`. |
| `Parser.Parser.CallPrefix` | parser/parser.go:228 | Calling the registered prefix function computes `ParsePrefix`. |
| `Parser.Parser.CallInfix` | parser/parser.go:240 | Calling the registered infix function computes `ParseInfix`. |
| `Parser.Parser.ParseIdentifier` | parser/parser.go:245-247 | An identifier node carries the current literal. |
| `Parser.Parser.ParseIntegerLiteral` | parser/parser.go:249-262 | parseIntegerLiteral computes its spec function. |
| `Parser.Parser.ParseStringLiteral` | parser/parser.go:264-267 | A string node carries the current literal. |
| `Parser.Parser.ParseBooleanLiteral` | parser/parser.go:269-272 | A boolean node is true exactly on the TRUE token. |
| `Parser.Parser.ParsePrefixExpression` | parser/parser.go:274-285 | parsePrefixExpression computes its spec function. |
| `Parser.Parser.ParseInfixExpression` | parser/parser.go:287-295 | parseInfixExpression computes its spec function. |
| `Parser.Parser.ParseGroupedExpression` | parser/parser.go:430-440 | parseGroupedExpression computes its spec function. |
| `Parser.Parser.ParseIfExpression` | parser/parser.go:297-329 | parseIfExpression computes its spec function. |
| `Parser.Parser.ParseIfBranches` | parser/parser.go:312-328 | The branch part of parseIfExpression computes its spec function. |
| `Parser.Parser.ParseAlternative` | parser/parser.go:320-326 | The else part computes its spec function. |
| `Parser.Parser.ParseFunctionLiteral` | parser/parser.go:331-347 | parseFunctionLiteral computes its spec function. |
| `Parser.Parser.ParseFunctionParameters` | parser/parser.go:350-375 | parseFunctionParameters computes its spec function. |
| `Parser.Parser.ParseRemainingParameters` | parser/parser.go:361-371 | The comma loop over parameters computes `ParametersLoop`. |
| `Parser.Parser.ParseBlockStatement` | parser/parser.go:377-391 | parseBlockStatement computes its spec function. |
| `Parser.Parser.ParseBlockStatements` | parser/parser.go:382-388 | The statement loop of a block computes `BlockLoop`, the loop without nil entries. |
| `Parser.Parser.ParseCallExpression` | parser/parser.go:393-398 | parseCallExpression computes its spec function. |
| `Parser.Parser.ParseCallArguments` | parser/parser.go:400-422 | parseCallArguments computes its spec function. |
| `Parser.Parser.ParseRemainingArguments` | parser/parser.go:411-419 | The comma loop over arguments computes `ArgumentsLoop`. |
| `Parser.ParseInput` | parser/parser.go:50-112 | Lexing an input and parsing it with a new parser gives `ParserSpec.ParseProgram` of the input's token sequence. |
| `ParserProperties.PrecedenceOrder` | parser/parser.go:12-33 | LOWEST < EQUALS < LESSGREATER < SUM < PRODUCT < PREFIX < CALL, with the table's levels per operator. Binary operators are exactly the kinds strictly between LOWEST and PREFIX, and kinds outside the table are LOWEST. |
| `ParserProperties.IdentifierOperand` | parser/parser.go:222-232 | An identifier is the left operand the fold starts from. |
| `ParserProperties.FoldStops` | parser/parser.go:230 | The fold stops at `;` or at a token binding no tighter than the current precedence. |
| `ParserProperties.IdentifierAlone` | parser/parser.go:222-243 | An identifier followed by `;` or a weaker operator is the whole expression. |
| `ParserProperties.BinaryPrecedence` | parser/parser.go:23-33 | A kind is a binary operator exactly when its precedence lies strictly between LOWEST and PREFIX, and a kind outside the table has LOWEST. |
| `ParserProperties.BinaryBelowPrefix` | parser/parser.go:23-33 | Every binary operator binds less tightly than a prefix operator. |
| `ParserProperties.PrecedenceLevels` | parser/parser.go:23-33 | The table's level for each operator. |
| `ParserProperties.FoldBinary` | parser/parser.go:287-295 | A tighter binary operator makes an infix node whose right operand is parsed at the operator's own precedence, and the fold continues. |
| `ParserProperties.FoldCall` | parser/parser.go:393-398 | `(` after an expression makes a call node of the parsed arguments, and the fold continues. |
| `ParserProperties.PrefixOperand` | parser/parser.go:274-285 | `!` and `-` parse their operand at PREFIX. |
| `ParserProperties.GroupedOperand` | parser/parser.go:430-440 | `(` re-enters at LOWEST and requires `)`. Without `)` the group is nil and the peek error is recorded. |
| `ParserProperties.LeftAssociative` | parser/parser.go:222-243 | `x o1 y o2 ...` with o2 no tighter than o1 folds `x o1 y` first: one level associates to the left. |
| `ParserProperties.TighterBindsFirst` | parser/parser.go:222-243 | `x o1 y o2 z` with o2 tighter than o1 makes `y o2 z` the right operand of o1. |
| `ParserProperties.TighterOperand` | parser/parser.go:287-295 | The right operand parsed at o1's precedence takes `y o2 z` whole when o2 is tighter. |
| `ParserProperties.FoldIdentifier` | parser/parser.go:230-241 | After a left operand, `o y` followed by a token that binds no tighter than o folds to the infix node with y alone as its right operand. |
| `ParserProperties.PrefixOfIdentifier` | parser/parser.go:274-285 | `op x` is the prefix node over identifier x, when the next token binds less tightly than PREFIX. |
| `ParserProperties.PrefixBindsTighter` | parser/parser.go:274-295 | `op x o y` groups as `(op x) o y`. |
| `ParserProperties.NoPrefixFunction` | parser/parser.go:222-227 | For every input whose current token has no prefix parse function, whatever its kind (`)`, `}`, `,`, `else`, `let`, EOF, ...), parseExpression gives nil and appends exactly the error `no prefix parse function for T found`, leaving the position unchanged. |
| `ParserProperties.BareReturnIsAnError` | parser/parser.go:198-210 | `return;` yields a return statement with a nil value and records the missing-prefix error for `;`. |
| `ParserProperties.LetNeedsNameAndAssign` | parser/parser.go:175-196 | let without an IDENT, or without `=` after it, is nil with the peek error for the missing token. |
| `ParserProperties.SingleStatement` | parser/parser.go:99-112 | An expression that reaches the token before EOF makes the one-statement program, with no errors. |
| `ParserProperties.SumIsLeftAssociative` | parser/parser.go:222-243 | `a + b + c` parses to `((a + b) + c)`. |
| `ParserProperties.ProductBindsTighterThanSum` | parser/parser.go:222-243 | `a + b * c` parses to `(a + (b * c))`. |
| `ParserProperties.NegationBindsTighterThanProduct` | parser/parser.go:274-285 | `-a * b` parses to `((-a) * b)`. |
| `ParserProperties.GroupedSum` | parser/parser.go:430-440 | In `(a + b) * c` the group is the left operand `a + b` that the fold continues from after `)`. |
| `ParserProperties.GroupedProduct` | parser/parser.go:430-440 | The expression of `(a + b) * c` is `((a + b) * c)`, ending on `c`. |
| `ParserProperties.ProductAfterGroup` | parser/parser.go:230-241 | After the `)` of `(a + b) * c`, the fold takes `* c` and stops at EOF. |
| `ParserProperties.GroupingOverridesPrecedence` | parser/parser.go:430-440 | `(a + b) * c` parses to `((a + b) * c)`. |
| `ParserProperties.EmptyCall` | parser/parser.go:400-406 | `f()` is a call with an empty argument list. |
| `ParserProperties.CallWithArguments` | parser/parser.go:393-422 | `f(a, b)` is a call with both arguments in order. |
| `ParserProperties.TwoArguments` | parser/parser.go:400-422 | The argument list `a, b)` parses to `[a, b]` and steps onto `)`. |
| `ParserProperties.LetStatementParses` | parser/parser_test.go:30-45 | `let x = 5;` parses to a let statement binding x to 5, with no errors. |
| `ParserProperties.Present` | parser/parser.go:105-107 | Dropping the nil entries leaves at most as many statements. |
| `ParserProperties.ProgramLoopsAgree` | parser/parser.go:103-109 | The as-written loop and the corrected loop reach the same state, and agree once nil entries are dropped. |
| `ParserProperties.AsWrittenAgreesOnPresent` | parser/parser.go:99-112 | ParseProgram as written and corrected give the same errors and the same non-nil statements. |
| `ParserProperties.NamelessLet` | parser/parser.go:178-180 | In `let = 5;` the let without a name is nil and records the IDENT peek error. |
| `ParserProperties.StrayAssign` | parser/parser.go:222-227 | The `=` that follows has no prefix function: a statement with a nil expression and the missing-prefix error. |
| `ParserProperties.TrailingFive` | parser/parser.go:249-262 | The trailing `5;` is the integer literal statement. |
| `ParserProperties.FailedLetLoop` | parser/parser.go:103-109 | The as-written loop over `let = 5;` collects a nil entry and two statements, with two errors. |
| `ParserProperties.FailedLetTail` | parser/parser.go:103-109 | The rounds after the failed let add the two expression statements. |
| `ParserProperties.FailedLetLast` | parser/parser.go:103-109 | The last round adds the statement `5`. |
| `ParserProperties.AsWrittenStep` | parser/parser.go:103-109 | One round of the as-written loop keeps the parsed statement, nil or not. |
| `ParserProperties.FailedLetIsKeptAsWritten` | parser/parser.go:104-106 | As written, `let = 5;` leaves a nil first statement in the program. ParseProgram drops it; both record the same two errors. |
| `ParserProperties.BlockLoopsAgree` | parser/parser.go:382-388 | The block loop as written and the one without nil entries stop at the same place with the same errors, and agree once nil entries are dropped. |
| `ParserProperties.BlockStatementsAgree` | parser/parser.go:377-391 | parseBlockStatement as written and corrected give the same state and the same non-nil statements. |
| `ParserProperties.FailedLetKeptInBlockAsWritten` | parser/parser.go:383-386 | In a block, a let without a name becomes a nil entry as written. The corrected loop goes on from the same place, after the IDENT peek error, with its statements unchanged. |
| `ParserProperties.IfNeedsParensAndBrace` | parser/parser.go:300-314 | An if without `(`, without `)` after the condition, or without `{` after `)` is nil, with the peek error for the missing token. |
| `ParserProperties.IfReachesBranches` | parser/parser.go:300-311 | With `(` and `)` in place, the condition is the expression parsed at LOWEST after `(`, and the branches are parsed after `)`. |
| `ParserProperties.IfShape` | parser/parser.go:312-328 | `{` starts the consequence block. Without `else` the result has no alternative; `else` needs `{` and then the alternative block, otherwise the expression is nil with the peek error. |
| `ParserProperties.FunctionLiteralShape` | parser/parser.go:331-347 | A function literal needs `(` and then `{` after the parameters; without either it is nil with the peek error. Otherwise it is the parameters and the body block. |
| `ParserProperties.ParametersShape` | parser/parser.go:361-371 | After a parameter, `)` ends the list and `,` reads the next identifier; anything else makes the list empty, with the RPAREN peek error. |
| `ParserProperties.LetShape` | parser/parser.go:175-196 | With IDENT and `=` in place, let binds the name to the expression parsed at LOWEST after `=`, and steps over one `;` exactly when it follows. |
| `ParserProperties.ReturnShape` | parser/parser.go:198-210 | return's value is the expression parsed at LOWEST after `return`, and one `;` that follows is stepped over. |
| `ParserProperties.CallArgumentsShape` | parser/parser.go:400-422 | `)` right after `(` gives no arguments. Otherwise the first argument and each one after a `,` is parsed at LOWEST; after an argument `)` ends the list, and any other token gives an empty list with the RPAREN peek error. |
| `ParserProperties.ArgumentsEndAtParen` | parser/parser.go:411-419 | An argument loop that records no error keeps the arguments already read, in order, and ends on `)`. |
| `Objects.TypeName` | object/object.go:18-29 | Every object type has a non-empty name. |
| `Objects.TypeNameInjective` | object/object.go:18-29 | Distinct object types have distinct names. |
| `Objects.Type` | object/object.go:45-172 | Type() of a non-nil object names its variant. |
| `Objects.Join` | object/object.go:130-139 | strings.Join of no parts is empty, and of one part is that part. |
| `Objects.Values` | object/object.go:130-139 | The renderings of present parts, in order. |
| `Objects.Inspect` | object/object.go:45-139 | Inspect gives decimal text for an Integer, `true`/`false` for a Boolean, `null` for Null, and the value for a String. Nil, a Function and a Hash have no rendering in the model. |
| `Objects.InspectAll` | object/object.go:130-139 | Inspect mapped over the elements, in order. |
| `Objects.InspectWrappers` | object/object.go:78-139 | An Error renders as `ERROR: ` and its message, and a ReturnValue as its value. An Array renders as `[e1, e2, ...]` when every element renders, and not at all otherwise. |
| `Objects.InspectArrayExample` | object/object.go:130-139 | `[1, true]` renders as `"[1, true]"`. |
| `Objects.MissingParametersText` | evaluator/evaluator.go:91-100 | The arity-mismatch message starts with `missing parameters:`. |
| `Objects.Text` | evaluator/evaluator.go:302-304 | Every `newError` message has a non-empty text, except the arity message when an argument has no Inspect rendering. |
| `Objects.Bytes` | object/object.go:119-123 | The bytes of a byte string, one per character, in order. |
| `Objects.IntegerHashKey` | object/object.go:51-53 | An Integer's key has the INTEGER tag and the value as `uint64`: the value itself when it is non-negative, and the value plus 2^64 otherwise. |
| `Objects.BooleanHashKey` | object/object.go:61-71 | A Boolean's key has the BOOLEAN tag, 1 for true and 0 for false. |
| `Objects.StringHashKey` | object/object.go:119-123 | A String's key has the STRING tag. |
| `Objects.HashKeyOf` | object/object.go:35-38 | Exactly Integers, Booleans and Strings have keys, and a key carries its object's type. |
| `Objects.HashKeysSeparate` | object/object.go:35-38 | Equal objects have equal keys, and objects of different types never do. For integers and booleans, keys are equal exactly when the values are. |
| `Objects.Fnv1aRound` | object/object.go:119-123 | One more byte of FNV-1a xors it into the hash and multiplies by the FNV prime. |
| `Objects.HelloKeyPrefix` | object/object_test.go:5-20 | The 64-bit FNV-1a state after `Hello ` is 0x9224fde07c59fc71. |
| `Objects.HelloWorldKey` | object/object_test.go:5-20 | `Hello World` hashes to 0x3d58dee72d4e0c27. |
| `Objects.BrownFoxKey` | object/object_test.go:5-20 | `brown fox` hashes to 0x8ec6301b79a48e16. |
| `Objects.StringHashKeysOfTest` | object/object_test.go:5-20 | `Hello World` and `brown fox` have different keys. |
| `Environments.LookupIn` | object/object.go:183-190 | Lookup succeeds exactly when some store in the chain has the name, and returns the binding of the innermost such store. Otherwise it gives nil and false. |
| `Environments.EmptyStoreTransparent` | object/object.go:197-201 | An empty store in front of a chain changes no lookup. |
| `Environments.Chain` | object/object.go:183-190 | The chain of an environment starts with its own store. |
| `Environments.Set` | object/object.go:192-195 | Set writes the binding into the current frame only; every other frame is unchanged. |
| `Environments.NewEnvironment` | object/object.go:179-181 | A new environment is one empty frame with no outer link. |
| `Environments.NewEnclosedEnvironment` | object/object.go:197-201 | An enclosed environment is a new empty frame linked to the outer one. |
| `Environments.ChainExtended` | object/object.go:197-201 | Allocating frames leaves every existing environment's chain unchanged. |
| `Environments.SetLeavesEarlierChains` | object/object.go:192-195 | Set in one frame leaves the chains of earlier frames unchanged. |
| `Environments.SetChain` | object/object.go:192-195 | After Set, the chain is the updated own store in front of the unchanged outer chain. |
| `Environments.GetAfterSet` | object/object.go:183-195 | Get right after Set finds the value just set. |
| `Environments.GetOtherAfterSet` | object/object.go:183-195 | Set leaves the lookup of every other name unchanged. |
| `Environments.EnclosedGet` | object/object.go:183-201 | A fresh enclosed environment answers every Get as its outer environment does. |
| `Environments.FramesOfAll` | object/object.go:92-96 | The frames the objects refer to. |
| `Environments.ChainStores` | object/object.go:183-190 | Every store in a chain is a store of some frame. |
| `Environments.GetIn` | object/object.go:183-190 | A lookup in a well-formed heap gives an object that refers only to frames of the heap. |
| `Environments.SetOk` | object/object.go:192-195 | Setting an object of the heap keeps the heap well-formed. |
| `Environments.EnclosedOk` | object/object.go:197-201 | Enclosing keeps the heap well-formed. |
| `Environments.Environment.Stores` | object/object.go:174-177 | The chain of stores starts with the own store. |
| `Environments.Environment.constructor` | object/object.go:179-181 | NewEnvironment is an empty store with no outer environment. |
| `Environments.Environment.Enclosed` | object/object.go:197-201 | NewEnclosedEnvironment is an empty store in front of the outer chain. |
| `Environments.Environment.Get` | object/object.go:183-190 | Get computes `LookupIn` over the chain of stores. |
| `Environments.Environment.Set` | object/object.go:192-195 | Set overwrites the own store's binding, returns the stored object, and leaves the outer chain unchanged. |
| `Evaluator.NativeBool` | evaluator/evaluator.go:306-312 | A Go bool maps to the TRUE or FALSE singleton carrying it. |
| `Evaluator.IsError` | evaluator/evaluator.go:207-212 | isError holds exactly for Error objects. |
| `Evaluator.Unwrap` | evaluator/evaluator.go:155-163 | Nil unwraps to NULL, and a ReturnValue to its value. Anything else is unchanged. |
| `Evaluator.EvalBang` | evaluator/evaluator.go:277-288 | `!x` is the singleton for "x is not truthy". |
| `Evaluator.EvalMinus` | evaluator/evaluator.go:290-300 | `-` negates an integer, wrapping on MinInt64. Any other object gives the unknown-operator error, and nil panics. |
| `Evaluator.EvalPrefixOperator` | evaluator/evaluator.go:232-241 | `!` is the bang, `-` is minus, and any other operator is an unknown-operator error (a panic on nil). The result never refers to a frame. |
| `Evaluator.EvalInfixInteger` | evaluator/evaluator.go:243-264 | `+ - *` wrap modulo 2^64 and are exact when they fit. `/` truncates toward zero. `< > == !=` give the boolean singletons; other operators give the unknown-operator error. |
| `Evaluator.EvalInfixBoolean` | evaluator/evaluator.go:266-275 | Booleans compare with `==` and `!=` only. Other operators give the unknown-operator error. |
| `Evaluator.EvalInfixOperator` | evaluator/evaluator.go:214-230 | Nil operands panic, and integer division by zero panics. Operands of different types give a type mismatch. Same-typed non-integer, non-boolean operands give an unknown operator. |
| `Evaluator.InspectPanicsCases` | object/object.go:78-165 | Inspect panics on nil, and inside a ReturnValue, an Array, or a hash key that holds nil. A hash never panics on its values, since Hash.Inspect renders only keys. Other objects never panic. |
| `Evaluator.EvalExpression` | evaluator/evaluator.go:20-83 | Evaluation keeps the heap well-formed, only grows it, and yields an object of that heap. |
| `Evaluator.EvalNode` | evaluator/evaluator.go:34-79 | Each expression case keeps the heap well-formed and yields an object of it. |
| `Evaluator.EvalPrefix` | evaluator/evaluator.go:50-55 | A prefix expression keeps the heap well-formed and yields an object of it. |
| `Evaluator.EvalInfix` | evaluator/evaluator.go:56-65 | An infix expression keeps the heap well-formed and yields an object of it. |
| `Evaluator.EvalIf` | evaluator/evaluator.go:179-192 | An if expression keeps the heap well-formed and yields an object of it. |
| `Evaluator.EvalCall` | evaluator/evaluator.go:70-79 | A call keeps the heap well-formed and yields an object of it. |
| `Evaluator.EvalExpressions` | evaluator/evaluator.go:112-122 | Argument evaluation keeps the heap well-formed and yields objects of it. |
| `Evaluator.Enter` | evaluator/evaluator.go:85-104 | A non-function callee gives "not a function" (a panic on nil). An arity mismatch allocates the enclosed frame and gives the "missing parameters" error, or halts when an argument's Inspect panics. Otherwise a fresh frame, enclosing the closure's environment, binds the parameters. |
| `Evaluator.Bindings` | evaluator/evaluator.go:102-104 | The bound names are exactly the parameters, and each is bound to one of the arguments. |
| `Evaluator.BindParameters` | evaluator/evaluator.go:102-104 | Binding in the fresh frame replaces its empty store with the bindings and changes no other frame. |
| `Evaluator.EvalStatement` | evaluator/evaluator.go:24-33 | A statement keeps the heap well-formed and yields an object of it. |
| `Evaluator.EvalBlock` | evaluator/evaluator.go:139-149 | A block keeps the heap well-formed and yields an object of it. |
| `Evaluator.EvalProgram` | evaluator/evaluator.go:124-137 | A program keeps the heap well-formed and yields an object of it. |
| `Evaluator.Run` | evaluator/evaluator.go:22-23 | Eval of a program keeps the heap well-formed. |
| `Evaluator.ComputeProgram` | evaluator/evaluator.go:124-137 | The loop of evalProgram computes `EvalProgram`. |
| `Evaluator.ComputeBlock` | evaluator/evaluator.go:139-149 | The loop of evalBlockStatements computes `EvalBlock`. |
| `Evaluator.ComputeArguments` | evaluator/evaluator.go:112-122 | The loop of evalExpressions computes `EvalExpressions`. |
| `Evaluator.SetParameters` | evaluator/evaluator.go:102-104 | The Set loop of applyFunction computes `BindParameters`, and the frame then holds exactly `Bindings`. |
| `EvaluatorProperties.TruthinessAndBang` | evaluator/evaluator.go:194-205 | `IsTruthy`: only NULL and FALSE are falsy. `!x` negates truthiness, and `!!x` is x's truthiness. |
| `EvaluatorProperties.MinusTwice` | evaluator/evaluator.go:290-300 | `-(-v)` is v for every `int64` v. |
| `EvaluatorProperties.IfChoosesBranch` | evaluator/evaluator.go:179-192 | A truthy condition runs the consequence block in the current environment, and a falsy one the alternative block. A falsy condition without an else yields NULL. |
| `EvaluatorProperties.ErrorsPropagate` | evaluator/evaluator.go:51-78 | An Error from a prefix operand, either infix operand, a condition or a callee is the result, unchanged. |
| `EvaluatorProperties.ArgumentsShape` | evaluator/evaluator.go:112-122 | Evaluated arguments are either all the values, none an Error, or exactly one Error. |
| `EvaluatorProperties.FirstArgumentError` | evaluator/evaluator.go:112-122 | When the arguments before position i give values that are not errors, an Error from argument i is the whole result, as a one-element list. Nothing after it is evaluated. |
| `EvaluatorProperties.ArgumentErrorEndsCall` | evaluator/evaluator.go:70-78 | In a call whose callee is not an Error, the first argument that gives an Error ends the call with that Error, unchanged. The function is not entered. |
| `EvaluatorProperties.CallUnwrapsBody` | evaluator/evaluator.go:79-107 | A call whose callee and arguments are not errors runs the body as a block in the frame applyFunction enters, and yields the unwrapped result: a ReturnValue gives its value, nil gives NULL. When applyFunction finishes early, its outcome is the result. |
| `EvaluatorProperties.ReturnPassesErrors` | evaluator/evaluator.go:165-177 | `return` of nothing yields ReturnValue(NULL), and `return` of an Error yields the Error itself. Any other value is wrapped in a ReturnValue. |
| `EvaluatorProperties.LetBinds` | evaluator/evaluator.go:28-33 | let yields the bound value, binds it in the current environment, and changes no other name. |
| `EvaluatorProperties.FailedLetBindsNothing` | evaluator/evaluator.go:29-32 | A let whose value is an Error yields it and binds nothing. |
| `EvaluatorProperties.IdentifierLookup` | evaluator/evaluator.go:39-44 | A bound identifier yields its binding. An unbound one yields `identity not found: NAME`. |
| `EvaluatorProperties.ReturnAndErrorEndEvaluation` | evaluator/evaluator.go:124-149 | A ReturnValue ends a program with its inner value and ends a block still wrapped. An Error ends both unchanged. |
| `EvaluatorProperties.NilStatementInBlockAndProgram` | evaluator/evaluator.go:143 | A statement that evaluates to nil panics in a block, and is passed over in a program. |
| `EvaluatorProperties.BindingsPositional` | evaluator/evaluator.go:102-104 | Parameter i is bound to argument i unless a later parameter has the same name. |
| `EvaluatorProperties.EnteredFrame` | evaluator/evaluator.go:90-104 | In the call frame each parameter finds its argument, and every other name resolves through the closure's environment. |
| `EvaluatorProperties.IntegerOperands` | evaluator/evaluator.go:56-65 | With integer operands an infix expression is the integer operator on them. |
| `EvaluatorProperties.ArithmeticExample` | evaluator/evaluator_test.go:78-79 | `(5 + 10 * 2 + 15 / 3) * 2 + -10` evaluates to 50. |
| `EvaluatorProperties.ReturnExample` | evaluator/evaluator_test.go:274-275 | `9; return 2 * 5; 9;` evaluates to 10. |
| `EvaluatorProperties.IdentityBody` | evaluator/evaluator.go:139-149 | The body `{ x; }` gives the value bound to x. |
| `EvaluatorProperties.IdentityCall` | evaluator/evaluator.go:70-107 | `identity(5)` with `identity = fn(x) { x; }` gives 5. |
| `EvaluatorProperties.ApplicationExample` | evaluator/evaluator.go:20-107 | `let identity = fn(x) { x; }; identity(5);` gives 5. |
| `Builtins.Name` | evaluator/builtins.go:16-104 | Every built-in has a non-empty name. |
| `Builtins.LenCheck` | evaluator/builtins.go:9-14 | No error exactly when the count is right. Otherwise it is the wrong-count error naming the function, the count and the expected count. |
| `Builtins.NotSupported` | evaluator/builtins.go:27-28 | An unsupported argument gives the not-supported error, and nil panics. |
| `Builtins.BuiltinLen` | evaluator/builtins.go:17-31 | len of a String is its byte length, and of an Array its element count. Any other argument is not supported; a wrong count is an arity error. |
| `Builtins.BuiltinFirst` | evaluator/builtins.go:32-47 | first gives element 0 of an array, or NULL when it is empty. Anything else is not supported. |
| `Builtins.BuiltinLast` | evaluator/builtins.go:48-63 | last gives the final element of an array, or NULL when it is empty. |
| `Builtins.BuiltinRest` | evaluator/builtins.go:64-79 | rest gives a new array of elements 1..n-1, or an empty array for an empty one. |
| `Builtins.BuiltinPush` | evaluator/builtins.go:80-96 | push gives an array one longer, holding the input's elements and then the pushed value. |
| `Builtins.BuiltinPuts` | evaluator/builtins.go:97-104 | puts gives NULL, and halts exactly when an argument's Inspect panics. |
| `Builtins.ApplyBuiltin` | evaluator/builtins.go:16-104 | Each built-in but puts halts exactly when its argument count is right and its first argument is nil, and a wrong count is the arity error naming that built-in. puts halts exactly when an argument's Inspect panics. |
| `Builtins.ApplyBuiltinAsWritten` | evaluator/builtins.go:16-104 | The table as written halts in the same cases, but a wrong count is the arity error naming "len" for every built-in. |
| `Builtins.ErrorsNameTheBuiltin` | evaluator/builtins.go:9-96 | With the corrected names, every arity error and every type error names the built-in that was called, with its expected count. |
| `Builtins.FirstArityErrorNamesLen` | evaluator/builtins.go:34 | As written, `first()` reports `wrong number of arguments for len. got=0, want=1`. |
| `Builtins.PushTypeErrorNamesLen` | evaluator/builtins.go:93 | As written, pushing onto an integer reports "argument to `len` not supported". |
| `Builtins.AsWrittenDiffersOnlyInNames` | evaluator/builtins.go:16-104 | With the right argument count, and for push an array or nil first argument, the table as written and the corrected table agree. |
| `Builtins.PushThenLastAndLen` | evaluator/builtins.go:48-96 | After push, last gives the pushed value and len is one more. |
| `Builtins.FirstRestPush` | evaluator/builtins.go:32-96 | first followed by rest reassembles a non-empty array, and rest commutes with push. |

## Left out

- The REPL and `main.go` are not part of this model. They are console I/O, and the REPL also
  makes a fresh environment per line.
- The printing done by `puts` is I/O. Only its NULL result is modelled, and whether an
  argument's `Inspect` would panic.
- `Hash.Inspect` (object/object.go:151-165) is not modelled. Its output depends on Go's map
  iteration order. As written it also prints each key twice instead of key and value, and it
  starts from `len(hash.Pairs)` empty strings before appending. Only whether it panics is
  modelled (`Evaluator.InspectPanics`): on a nil key, never on a nil value. No hash objects can arise from
  a Monkey program, since neither the lexer nor `Eval` produces them. `Function.Inspect` and the `String()` renderers of the syntax tree are not
  modelled either: they depend on renderers the repository does not show. The parser lemmas
  state tree shapes instead.
- `Evaluator.InspectPanics`: `Function.Inspect` (object/object.go:98-110) is taken never to
  panic. It calls the `String()` renderers of the parameters and the body, which are not part
  of this model.
- `Objects.Text`: the "missing parameters" message prints each parameter with
  `ast.Identifier.String()`, taken to be the identifier's name, since that renderer is not part
  of this model.
- The token package and most of `ast/ast.go` are not part of this model. The token kinds and
  the syntax tree are reconstructed from the fields the lexer, parser and evaluator use, and
  the keyword table from the lexer's test expectations.
- String, array, hash and index expressions. The lexer never produces their tokens, and `Eval`
  has no case for them, so it returns nil for them. The model keeps that nil.
- Parse errors are a datatype, not the text the parser writes. The `token` constants that
  would spell the kinds in the messages are not part of this model.
- `Evaluator.Enter`: the "missing parameters" text goes through `newError` as a format string.
  A `%` in a parameter or argument rendering would therefore be read as a formatting verb. The
  model renders the text as is.
- `Objects.StringHashKey`: the key's value is the FNV-1a hash of the bytes. The contract names
  only the tag; values are stated for the test strings (`HelloWorldKey`, `BrownFoxKey`).
- `Objects.Inspect`: nil, a Function and a Hash have no rendering in the model (see above).
- `Evaluator.EvalExpression`: the contracts of the evaluation functions state well-formedness
  only (the heap only grows, and results refer to frames of it). What each construct computes
  is stated in lemmas: `ErrorsPropagate`, `IdentifierLookup` and `IntegerOperands` for
  operands; `IfChoosesBranch` for if; `FirstArgumentError`, `ArgumentErrorEndsCall` and
  `CallUnwrapsBody` for calls; `ReturnPassesErrors`, `LetBinds` and `FailedLetBindsNothing` for
  statements; `ReturnAndErrorEndEvaluation` for blocks and programs.
- Fuel: a program that would make more nested function applications than the fuel allows halts
  with `OutOfFuel`, where the Go program would go on (or overflow its stack).
- A Go runtime panic is modelled as `Halt`: calling `.Type()` or `.Inspect()` on nil, and
  integer division by zero. What Go would print and the process exit are left out.
- A nil statement kept in the program by the as-written parser (see Findings) would panic in
  `Eval`. The evaluator model takes the corrected program, which holds no nil statements.
- `ParserSpec.ParseProgram` leaves nil entries out; `ParserProperties.AsWrittenAgreesOnPresent`
  relates it to `ParserSpec.ParseProgramAsWritten`.
- `ParserSpec.ProgramLoop` leaves nil entries out; `ParserProperties.ProgramLoopsAgree` relates
  it to `ParserSpec.ProgramLoopAsWritten`.
- `ParserSpec.ProgramRound` is a round of the program loop without nil entries.
- `Parser.Parser.ParseProgram` computes the program loop without nil entries, not the loop as
  written, which keeps a failed let as a nil entry (`ParserSpec.ProgramLoopAsWritten`).
- `Parser.ParseInput` gives the program without nil entries, for the same reason.
- `Parser.Parser.ParseBlockStatements` computes the block loop without nil entries, not the
  loop as written, which keeps a failed let as a nil entry (`ParserSpec.BlockLoopAsWritten`).
- `Parser.Parser.ParseBlockStatement` builds the block without nil entries, for the same reason.
- `ParserSpec.BlockLoop` leaves nil entries out; `ParserProperties.BlockLoopsAgree` relates it
  to the loop as written.
- `ParserSpec.ParseBlockStatement` leaves nil entries out; `ParserProperties.BlockStatementsAgree`
  relates it to `ParserSpec.ParseBlockStatementAsWritten`.
- `ParserSpec.BlockRound` is a round of the loop without nil entries.
- The built-in table is not reachable from Monkey programs: identifier lookup never consults it,
  and `applyFunction` accepts only `Function` values. The built-ins are modelled as standalone
  functions, not as objects in an environment.
- `Builtins.BuiltinLen` converts the length with `int64(...)` (`GoInt.Wrap`). The contract states
  the result only for lengths that fit in `int64`, which every real string or array does.

## Findings

| source | as written | input that shows it | evidently intended | confidence | as-written member | corrected member |
|---|---|---|---|---|---|---|
| parser/parser.go:104-106 | `parseLetStatement` returns a nil `*ast.LetStatement`, which `parseStatement` returns as a non-nil `ast.Statement` interface. The `stmt != nil` test therefore keeps a failed let as a nil entry. | `let = 5;` | A let that failed to parse is left out of the program. Return and expression statements never come back nil; on an error they are kept with a nil expression. | not executed | `ParserSpec.ParseProgramAsWritten`, shown by `ParserProperties.FailedLetIsKeptAsWritten` | `ParserSpec.ParseProgram`, related by `ParserProperties.AsWrittenAgreesOnPresent` |
| parser/parser.go:384-386 | The block loop has the same `stmt != nil` test, so a failed let inside a block is kept as a nil entry too. | `fn(x) { let = 5; x }` | A let that failed to parse is left out of the block. | not executed | `ParserSpec.BlockLoopAsWritten`, shown by `ParserProperties.FailedLetKeptInBlockAsWritten` | `ParserSpec.BlockLoop`, related by `ParserProperties.BlockLoopsAgree` |
| evaluator/builtins.go:34 | The arity checks of `first`, `last`, `rest` and `push` pass the name "len" (lines 34, 50, 66, 82). The type error of `push` also names "len" (line 93). | `first()` | Each message names the built-in that was called. | not executed | `Builtins.ApplyBuiltinAsWritten`, shown by `Builtins.FirstArityErrorNamesLen` | `Builtins.ApplyBuiltin`, proved by `Builtins.ErrorsNameTheBuiltin` |
