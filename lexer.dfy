/** Model of lexer/lexer.go: a byte cursor over the input that hands out one token per call.
    The functions give the meaning of one call (Scan) and of the whole token stream (Tokens);
    the Lexer class keeps the source's three cursor fields and its methods are proved against
    those functions. */
module Lexer {
  import opened Token
  import opened GoInt

  predicate IsLetter(c: char) {
    ('a' <= c <= 'z') || ('A' <= c <= 'Z') || c == '_'
  }

  predicate IsDigit(c: char) {
    '0' <= c <= '9'
  }

  predicate IsWhiteSpace(c: char) {
    c == ' ' || c == '\t' || c == '\n' || c == '\r'
  }

  /** The three byte classes of the lexer are disjoint, and the end-of-input byte 0 is in none
      of them. */
  lemma CharacterClasses(c: char)
    ensures !(IsLetter(c) && IsDigit(c)) && !(IsLetter(c) && IsWhiteSpace(c)) && !(IsDigit(c) && IsWhiteSpace(c))
    ensures c == 0 as char ==> !IsLetter(c) && !IsDigit(c) && !IsWhiteSpace(c)
  {
  }

  /** The byte readChar loads for a read position: the input byte, or the sentinel 0 past the end. */
  function ByteAt(input: string, i: int): char {
    if 0 <= i < |input| then input[i] else 0 as char
  }

  /** Go's `string(b)` for a byte b converts the byte to a rune first, so the result is the UTF-8
      encoding of that rune: one byte below 0x80, two bytes from 0x80 to 0xFF. */
  function Utf8OfByte(c: char): (s: string)
    requires c < 256 as char
    ensures c < 128 as char ==> s == [c]
    ensures 128 as char <= c ==> |s| == 2 && 0xC2 as char <= s[0] <= 0xC3 as char && 0x80 as char <= s[1] <= 0xBF as char
  {
    if c < 128 as char then [c]
    else [(0xC0 + c as int / 64) as char, (0x80 + c as int % 64) as char]
  }

  /** The cursor position skipWhiteSpace stops at when it starts at `pos`. */
  function SkipWhiteSpaceFrom(input: string, pos: nat): (p: nat)
    ensures pos <= p
    ensures !IsWhiteSpace(ByteAt(input, p))
    ensures forall i :: pos <= i < p ==> IsWhiteSpace(ByteAt(input, i))
    ensures pos < p ==> p <= |input|
    decreases |input| - pos
  {
    if IsWhiteSpace(ByteAt(input, pos)) then SkipWhiteSpaceFrom(input, pos + 1) else pos
  }

  /** The end of the maximal run of bytes of one class (letters or digits) starting at `pos`. */
  function RunEnd(input: string, pos: nat, inRun: char -> bool): (e: nat)
    requires !inRun(0 as char)
    ensures pos <= e
    ensures !inRun(ByteAt(input, e))
    ensures forall i :: pos <= i < e ==> inRun(ByteAt(input, i))
    ensures pos < e ==> e <= |input|
    decreases |input| - pos
  {
    if inRun(ByteAt(input, pos)) then RunEnd(input, pos + 1, inRun) else pos
  }

  /** One call of NextToken on a lexer whose cursor is at `pos`: the token it returns and the
      cursor position it leaves behind. */
  function Scan(input: string, pos: nat): (r: (Token, nat))
    requires IsByteString(input)
    ensures r.1 > pos
    ensures SkipWhiteSpaceFrom(input, pos) < |input| ==> r.1 <= |input|
  {
    ScanToken(input, SkipWhiteSpaceFrom(input, pos))
  }

  /** The token that starts at byte `p` (after white space is skipped) and the position after it. */
  function ScanToken(input: string, p: nat): (r: (Token, nat))
    requires IsByteString(input)
    ensures r.1 > p
    ensures p < |input| ==> r.1 <= |input|
  {
    var c := ByteAt(input, p);
    match c
    case '\0' => (Token(Eof, ""), p + 1)
    case '=' => if ByteAt(input, p + 1) == '=' then (Token(Eq, "=="), p + 2) else (Token(Assign, "="), p + 1)
    case '+' => (Token(Plus, "+"), p + 1)
    case '(' => (Token(LParen, "("), p + 1)
    case ')' => (Token(RParen, ")"), p + 1)
    case '{' => (Token(LBrace, "{"), p + 1)
    case '}' => (Token(RBrace, "}"), p + 1)
    case ',' => (Token(Comma, ","), p + 1)
    case ';' => (Token(Semicolon, ";"), p + 1)
    case '!' => if ByteAt(input, p + 1) == '=' then (Token(NotEq, "!="), p + 2) else (Token(Bang, "!"), p + 1)
    case '-' => (Token(Minus, "-"), p + 1)
    case '/' => (Token(Slash, "/"), p + 1)
    case '*' => (Token(Asterisk, "*"), p + 1)
    case '<' => (Token(Lt, "<"), p + 1)
    case '>' => (Token(Gt, ">"), p + 1)
    case _ =>
      if IsLetter(c) then
        var e := RunEnd(input, p, IsLetter);
        (Token(LookupIdent(input[p..e]), input[p..e]), e)
      else if IsDigit(c) then
        var e := RunEnd(input, p, IsDigit);
        (Token(Int, input[p..e]), e)
      else
        (Token(Illegal, Utf8OfByte(c)), p + 1)
  }

  /** The token stream of the input from cursor `pos` on, up to and including the EOF that the end
      of the input produces. A NUL byte inside the input gives an EOF token too and the stream goes
      on after it; past the final EOF every further call returns EOF again (ScanPastEnd). */
  function Tokens(input: string, pos: nat): (ts: seq<Token>)
    requires IsByteString(input)
    ensures |ts| > 0 && ts[|ts| - 1] == Token(Eof, "")
    decreases |input| - pos
  {
    var (t, next) := Scan(input, pos);
    if SkipWhiteSpaceFrom(input, pos) >= |input| then [t] else [t] + Tokens(input, next)
  }

  /** A Lexer in Go: the input, the cursor `position` of the byte in `ch`, and `readPosition`. */
  class Lexer {
    const input: string
    var position: int
    var readPosition: int
    var ch: char

    /** Between calls readPosition is one past position, and ch holds the byte at position. */
    ghost predicate Valid()
      reads this
    {
      IsByteString(input) && 0 <= position && readPosition == position + 1 && ch == ByteAt(input, position)
    }

    /** lexer.New: the cursor starts on the first byte. */
    constructor New(input: string)
      requires IsByteString(input)
      ensures Valid() && this.input == input && position == 0
    {
      this.input := input;
      position, readPosition := 0, 0;
      ch := 0 as char;
      new;
      ReadChar();
    }

    /** readChar: load the byte at readPosition (0 past the end) and move both positions on. */
    method ReadChar()
      requires 0 <= readPosition
      modifies this
      ensures position == old(readPosition) && readPosition == old(readPosition) + 1
      ensures ch == ByteAt(input, old(readPosition))
    {
      if readPosition >= |input| {
        ch := 0 as char;
      } else {
        ch := input[readPosition];
      }
      position := readPosition;
      readPosition := readPosition + 1;
    }

    /** peakAhead: the byte after the current one, 0 past the end. */
    function PeakAhead(): (c: char)
      reads this
      ensures c == ByteAt(input, readPosition)
    {
      if readPosition >= |input| || readPosition < 0 then 0 as char else input[readPosition]
    }

    /** readIdentifier: consume the maximal run of letters, then step readPosition back so that
        the final readChar of NextToken reloads the byte that ended the run. */
    method ReadIdentifier() returns (lit: string)
      requires Valid() && IsLetter(ch)
      modifies this
      ensures position == RunEnd(input, old(position), IsLetter) <= |input|
      ensures readPosition == position && ch == ByteAt(input, position)
      ensures lit == input[old(position)..position]
    {
      var start := position;
      while IsLetter(ch)
        invariant Valid() && start <= position <= |input|
        invariant RunEnd(input, start, IsLetter) == RunEnd(input, position, IsLetter)
        decreases |input| - position
      {
        ReadChar();
      }
      readPosition := readPosition - 1;
      lit := input[start..position];
    }

    /** readNumber: the same for the maximal run of digits. */
    method ReadNumber() returns (lit: string)
      requires Valid() && IsDigit(ch)
      modifies this
      ensures position == RunEnd(input, old(position), IsDigit) <= |input|
      ensures readPosition == position && ch == ByteAt(input, position)
      ensures lit == input[old(position)..position]
    {
      var start := position;
      while IsDigit(ch)
        invariant Valid() && start <= position <= |input|
        invariant RunEnd(input, start, IsDigit) == RunEnd(input, position, IsDigit)
        decreases |input| - position
      {
        ReadChar();
      }
      readPosition := readPosition - 1;
      lit := input[start..position];
    }

    /** skipWhiteSpace: step over spaces, tabs, line feeds and carriage returns. */
    method SkipWhiteSpace()
      requires Valid()
      modifies this
      ensures Valid() && position == SkipWhiteSpaceFrom(input, old(position))
    {
      while IsWhiteSpace(ch)
        invariant Valid()
        invariant SkipWhiteSpaceFrom(input, old(position)) == SkipWhiteSpaceFrom(input, position)
        decreases |input| - position
      {
        ReadChar();
      }
    }

    /** NextToken: skip white space, classify the current byte with one byte of look-ahead for
        `==` and `!=`, and leave the cursor on the byte after the token. */
    method NextToken() returns (tok: Token)
      requires Valid()
      modifies this
      ensures Valid()
      ensures (tok, position) == Scan(input, old(position))
    {
      SkipWhiteSpace();
      match ch {
      case '\0' => tok := Token(Eof, "");
      case '=' =>
        if PeakAhead() == '=' {
          tok := Token(Eq, "==");
          ReadChar();
        } else {
          tok := Token(Assign, "=");
        }
      case '+' => tok := Token(Plus, "+");
      case '(' => tok := Token(LParen, "(");
      case ')' => tok := Token(RParen, ")");
      case '{' => tok := Token(LBrace, "{");
      case '}' => tok := Token(RBrace, "}");
      case ',' => tok := Token(Comma, ",");
      case ';' => tok := Token(Semicolon, ";");
      case '!' =>
        if PeakAhead() == '=' {
          tok := Token(NotEq, "!=");
          ReadChar();
        } else {
          tok := Token(Bang, "!");
        }
      case '-' => tok := Token(Minus, "-");
      case '/' => tok := Token(Slash, "/");
      case '*' => tok := Token(Asterisk, "*");
      case '<' => tok := Token(Lt, "<");
      case '>' => tok := Token(Gt, ">");
      case _ =>
        if IsLetter(ch) {
          var lit := ReadIdentifier();
          tok := Token(LookupIdent(lit), lit);
        } else if IsDigit(ch) {
          var lit := ReadNumber();
          tok := Token(Int, lit);
        } else {
          tok := Token(Illegal, Utf8OfByte(ch));
        }
      }
      ReadChar();
    }
  }

  /** Runs a fresh lexer over the input, collecting every token up to the EOF produced by the end
      of the input; this is the token sequence the parser reads. */
  method Tokenize(input: string) returns (toks: seq<Token>)
    requires IsByteString(input)
    ensures toks == Tokens(input, 0)
  {
    var l := new Lexer.New(input);
    toks := [];
    var done := false;
    while !done
      invariant l.Valid() && l.input == input
      invariant !done ==> l.position <= |input| && toks + Tokens(input, l.position) == Tokens(input, 0)
      invariant done ==> toks == Tokens(input, 0)
      decreases if done then 0 else |input| + 1 - l.position
    {
      ghost var before := l.position;
      var tok := l.NextToken();
      assert Tokens(input, before) == if SkipWhiteSpaceFrom(input, before) >= |input| then [tok] else [tok] + Tokens(input, l.position);
      // an EOF that leaves the cursor past the end came from the end of the input, not a NUL byte
      if tok.kind == Eof && l.position > |input| {
        done := true;
      }
      toks := toks + [tok];
    }
  }
}
