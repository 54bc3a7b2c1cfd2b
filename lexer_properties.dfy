/** What the token stream of lexer/lexer.go looks like: every token is well classified, white
    space never reaches a token, the stream is bounded by the input length, the end of the input
    gives EOF forever, and for ASCII input the literals put back together give the input without
    its white space. */
module LexerProperties {
  import opened Token
  import opened GoInt
  import opened Lexer

  /** The bytes NextToken turns into a one-byte operator or delimiter token. */
  predicate IsOperatorByte(c: char) {
    c == '=' || c == '+' || c == '(' || c == ')' || c == '{' || c == '}' || c == ',' || c == ';'
    || c == '!' || c == '-' || c == '/' || c == '*' || c == '<' || c == '>'
  }

  predicate AllLetters(s: string) {
    forall i :: 0 <= i < |s| ==> IsLetter(s[i])
  }

  predicate AllDigits(s: string) {
    forall i :: 0 <= i < |s| ==> IsDigit(s[i])
  }

  /** The shape of every token the lexer can hand out, kind by kind. */
  predicate Classified(t: Token) {
    match t.kind
    case Eof => t.literal == ""
    case Ident | Function | Let | True | False | If | Else | Return =>
      |t.literal| > 0 && AllLetters(t.literal) && t.kind == LookupIdent(t.literal)
    case Int => |t.literal| > 0 && AllDigits(t.literal)
    case Illegal =>
      (|t.literal| == 1 && t.literal[0] < 128 as char && t.literal[0] != 0 as char && !IsLetter(t.literal[0])
       && !IsDigit(t.literal[0]) && !IsWhiteSpace(t.literal[0]) && !IsOperatorByte(t.literal[0]))
      || (|t.literal| == 2 && 0xC2 as char <= t.literal[0] <= 0xC3 as char
          && 0x80 as char <= t.literal[1] <= 0xBF as char)
    case Assign => t.literal == "="
    case Eq => t.literal == "=="
    case Bang => t.literal == "!"
    case NotEq => t.literal == "!="
    case Plus => t.literal == "+"
    case Minus => t.literal == "-"
    case Asterisk => t.literal == "*"
    case Slash => t.literal == "/"
    case Lt => t.literal == "<"
    case Gt => t.literal == ">"
    case Comma => t.literal == ","
    case Semicolon => t.literal == ";"
    case LParen => t.literal == "("
    case RParen => t.literal == ")"
    case LBrace => t.literal == "{"
    case RBrace => t.literal == "}"
    // the lexer has no case for strings, colons or brackets
    case Str | Colon | LBracket | RBracket => false
  }

  predicate NoWhiteSpace(s: string) {
    forall i :: 0 <= i < |s| ==> !IsWhiteSpace(s[i])
  }

  lemma RunIsSlice(input: string, p: nat, inRun: char -> bool)
    requires !inRun(0 as char) && p < |input| && inRun(input[p])
    ensures p < RunEnd(input, p, inRun) <= |input|
    ensures forall i :: p <= i < RunEnd(input, p, inRun) ==> inRun(input[i])
  {
    var e := RunEnd(input, p, inRun);
    forall i | p <= i < e ensures inRun(input[i]) {
      assert inRun(ByteAt(input, i));
    }
  }

  /** Every token one call of NextToken returns is classified. */
  lemma ScanClassified(input: string, pos: nat)
    requires IsByteString(input)
    ensures Classified(Scan(input, pos).0)
  {
    ScanTokenClassified(input, SkipWhiteSpaceFrom(input, pos));
  }

  lemma ScanTokenClassified(input: string, p: nat)
    requires IsByteString(input) && !IsWhiteSpace(ByteAt(input, p))
    ensures Classified(ScanToken(input, p).0)
  {
    var c := ByteAt(input, p);
    if c == 0 as char || IsOperatorByte(c) {
      OperatorClassified(input, p);
    } else if IsLetter(c) {
      RunIsSlice(input, p, IsLetter);
      var e := RunEnd(input, p, IsLetter);
      assert ScanToken(input, p).0 == Token(LookupIdent(input[p..e]), input[p..e]);
      assert AllLetters(input[p..e]);
    } else if IsDigit(c) {
      RunIsSlice(input, p, IsDigit);
      var e := RunEnd(input, p, IsDigit);
      assert ScanToken(input, p).0 == Token(Int, input[p..e]);
      assert AllDigits(input[p..e]);
    } else {
      IllegalClassified(input, p);
    }
  }

  lemma OperatorClassified(input: string, p: nat)
    requires IsByteString(input) && (ByteAt(input, p) == 0 as char || IsOperatorByte(ByteAt(input, p)))
    ensures Classified(ScanToken(input, p).0)
  {
    var c := ByteAt(input, p);
    if c == '=' || c == '!' {
      var t := ScanToken(input, p).0;
      assert t.kind in {Eq, Assign, NotEq, Bang};
    } else if c == 0 as char {
    } else {
      assert ScanToken(input, p).1 == p + 1;
    }
  }

  lemma IllegalClassified(input: string, p: nat)
    requires IsByteString(input)
    requires var c := ByteAt(input, p);
      c != 0 as char && !IsOperatorByte(c) && !IsLetter(c) && !IsDigit(c) && !IsWhiteSpace(c)
    ensures Classified(ScanToken(input, p).0)
    ensures ScanToken(input, p).1 == p + 1
  {
    var c := ByteAt(input, p);
    assert ScanToken(input, p).0 == Token(Illegal, Utf8OfByte(c));
  }

  /** Every token of the stream is classified. */
  lemma {:induction false} TokensClassified(input: string, pos: nat)
    requires IsByteString(input)
    ensures forall t :: t in Tokens(input, pos) ==> Classified(t)
    decreases |input| - pos
  {
    ScanClassified(input, pos);
    var (t, next) := Scan(input, pos);
    if SkipWhiteSpaceFrom(input, pos) < |input| {
      TokensClassified(input, next);
    }
  }

  /** No literal of a classified token contains a space, tab, line feed or carriage return. */
  lemma ClassifiedHasNoWhiteSpace(t: Token)
    requires Classified(t)
    ensures NoWhiteSpace(t.literal)
  {
  }

  /** The stream never holds white space in a literal. */
  lemma TokensHaveNoWhiteSpace(input: string, pos: nat)
    requires IsByteString(input)
    ensures forall t :: t in Tokens(input, pos) ==> NoWhiteSpace(t.literal)
  {
    TokensClassified(input, pos);
    forall t | t in Tokens(input, pos) ensures NoWhiteSpace(t.literal) {
      ClassifiedHasNoWhiteSpace(t);
    }
  }

  /** `==` and `!=` are read as one token; a lone `=` or `!` is ASSIGN or BANG. */
  lemma ScanLookAhead(input: string, pos: nat)
    requires IsByteString(input)
    ensures var p := SkipWhiteSpaceFrom(input, pos);
            var r := Scan(input, pos);
            (ByteAt(input, p) == '=' ==>
               r == (if ByteAt(input, p + 1) == '=' then (Token(Eq, "=="), p + 2) else (Token(Assign, "="), p + 1)))
            && (ByteAt(input, p) == '!' ==>
               r == (if ByteAt(input, p + 1) == '=' then (Token(NotEq, "!="), p + 2) else (Token(Bang, "!"), p + 1)))
  {
  }

  /** `-` is always a token of its own, never the sign of a number. */
  lemma MinusIsSeparate(input: string, pos: nat)
    requires IsByteString(input)
    requires ByteAt(input, SkipWhiteSpaceFrom(input, pos)) == '-'
    ensures Scan(input, pos) == (Token(Minus, "-"), SkipWhiteSpaceFrom(input, pos) + 1)
  {
  }

  /** An identifier or a number is the maximal run that starts after the white space. */
  lemma ScanMaximalRun(input: string, pos: nat)
    requires IsByteString(input)
    ensures var p := SkipWhiteSpaceFrom(input, pos);
            var r := Scan(input, pos);
            (IsLetter(ByteAt(input, p)) ==>
               r.0.kind == LookupIdent(r.0.literal) && r.1 == RunEnd(input, p, IsLetter)
               && r.0.literal == input[p..r.1] && !IsLetter(ByteAt(input, r.1)))
            && (IsDigit(ByteAt(input, p)) ==>
               r.0.kind == Int && r.1 == RunEnd(input, p, IsDigit)
               && r.0.literal == input[p..r.1] && !IsDigit(ByteAt(input, r.1)))
  {
    var p := SkipWhiteSpaceFrom(input, pos);
    if IsLetter(ByteAt(input, p)) {
      RunIsSlice(input, p, IsLetter);
    } else if IsDigit(ByteAt(input, p)) {
      RunIsSlice(input, p, IsDigit);
    }
  }

  /** Past the end of the input, and on a NUL byte, NextToken returns EOF with an empty literal. */
  lemma ScanEof(input: string, pos: nat)
    requires IsByteString(input)
    requires pos >= |input| || ByteAt(input, SkipWhiteSpaceFrom(input, pos)) == 0 as char
    ensures Scan(input, pos) == (Token(Eof, ""), SkipWhiteSpaceFrom(input, pos) + 1)
    ensures pos >= |input| ==> Scan(input, pos) == (Token(Eof, ""), pos + 1)
  {
  }

  /** Each call advances the cursor, so the stream has at most one token per byte of input besides
      the final EOF. */
  lemma {:induction false} TokensBounded(input: string, pos: nat)
    requires IsByteString(input) && pos <= |input|
    ensures |Tokens(input, pos)| <= |input| - pos + 1
    decreases |input| - pos
  {
    var (t, next) := Scan(input, pos);
    if SkipWhiteSpaceFrom(input, pos) < |input| {
      TokensBounded(input, next);
    }
  }

  predicate IsAscii(s: string) {
    forall i :: 0 <= i < |s| ==> s[i] < 128 as char
  }

  predicate NoNul(s: string) {
    forall i :: 0 <= i < |s| ==> s[i] != 0 as char
  }

  /** For ASCII input, a token that starts inside the input is the slice of input it spans, so the
      cursor moves past white space and then by exactly the literal's length. */
  lemma ScanIsSlice(input: string, pos: nat)
    requires IsAscii(input) && NoNul(input)
    requires SkipWhiteSpaceFrom(input, pos) < |input|
    ensures var p := SkipWhiteSpaceFrom(input, pos);
            var r := Scan(input, pos);
            r.0.kind != Eof && p < r.1 <= |input| && r.0.literal == input[p..r.1]
            && r.1 == p + |r.0.literal|
  {
    var p := SkipWhiteSpaceFrom(input, pos);
    var c := ByteAt(input, p);
    if IsLetter(c) {
      RunIsSlice(input, p, IsLetter);
    } else if IsDigit(c) {
      RunIsSlice(input, p, IsDigit);
    } else if c in "=!" && ByteAt(input, p + 1) == '=' {
      assert input[p..p + 2] == [c, '='];
    } else {
      assert input[p..p + 1] == [c];
    }
  }

  /** The input with every space, tab, line feed and carriage return removed. */
  function Stripped(s: string): (r: string)
    ensures NoWhiteSpace(r) && |r| <= |s|
  {
    if s == [] then []
    else if IsWhiteSpace(s[0]) then Stripped(s[1..])
    else [s[0]] + Stripped(s[1..])
  }

  lemma {:induction false} StrippedAppend(a: string, b: string)
    ensures Stripped(a + b) == Stripped(a) + Stripped(b)
  {
    if a == [] {
      assert a + b == b;
    } else {
      assert (a + b)[1..] == a[1..] + b;
      StrippedAppend(a[1..], b);
    }
  }

  lemma {:induction false} StrippedOfWhiteSpace(s: string)
    requires forall i :: 0 <= i < |s| ==> IsWhiteSpace(s[i])
    ensures Stripped(s) == []
  {
    if s != [] {
      StrippedOfWhiteSpace(s[1..]);
    }
  }

  lemma {:induction false} StrippedOfNoWhiteSpace(s: string)
    requires NoWhiteSpace(s)
    ensures Stripped(s) == s
  {
    if s != [] {
      StrippedOfNoWhiteSpace(s[1..]);
    }
  }

  /** All literals of a token sequence, concatenated. */
  function Literals(ts: seq<Token>): string {
    if ts == [] then [] else ts[0].literal + Literals(ts[1..])
  }

  /** For ASCII input without NUL bytes the literals of the stream, put back together, are the
      input from the cursor on with its white space removed. */
  lemma {:induction false} LiteralsReassemble(input: string, pos: nat)
    requires IsAscii(input) && NoNul(input) && pos <= |input|
    ensures Literals(Tokens(input, pos)) == Stripped(input[pos..])
    decreases |input| - pos
  {
    assert IsByteString(input);
    var p := SkipWhiteSpaceFrom(input, pos);
    var (t, next) := Scan(input, pos);
    assert p <= |input|;
    assert input[pos..] == input[pos..p] + input[p..];
    StrippedAppend(input[pos..p], input[p..]);
    forall i | 0 <= i < |input[pos..p]| ensures IsWhiteSpace(input[pos..p][i]) {
      assert IsWhiteSpace(ByteAt(input, pos + i));
    }
    StrippedOfWhiteSpace(input[pos..p]);
    if p < |input| {
      ScanIsSlice(input, pos);
      ScanClassified(input, pos);
      ClassifiedHasNoWhiteSpace(t);
      StrippedOfNoWhiteSpace(t.literal);
      assert input[p..] == input[p..next] + input[next..];
      StrippedAppend(input[p..next], input[next..]);
      LiteralsReassemble(input, next);
      assert Tokens(input, pos) == [t] + Tokens(input, next);
      assert Literals(Tokens(input, pos)) == t.literal + Literals(Tokens(input, next));
    } else {
      assert input[p..] == [];
      assert Tokens(input, pos) == [t];
      assert t.literal == "";
    }
  }
}
