/** The bridge between the lexer and the parser: the k-th token a lexer hands out is the k-th
    element of the endless token stream (the finite Tokens sequence followed by EOF forever), and
    that sequence meets the parser's expectations of a token stream. */
module TokenStream {
  import opened Token
  import opened GoInt
  import opened Lexer
  import opened LexerProperties
  import opened ParserSpec

  /** The lexer cursor after k calls of NextToken from cursor p. */
  function CursorFrom(input: string, p: nat, k: nat): (c: nat)
    requires IsByteString(input)
    ensures k > 0 ==> c > p
    decreases k
  {
    if k == 0 then p else CursorFrom(input, Scan(input, p).1, k - 1)
  }

  lemma {:induction false} CursorStep(input: string, p: nat, k: nat)
    requires IsByteString(input)
    ensures CursorFrom(input, p, k + 1) == Scan(input, CursorFrom(input, p, k)).1
    decreases k
  {
    if k > 0 {
      CursorStep(input, Scan(input, p).1, k - 1);
    }
  }

  /** A cursor past the end stays past the end, and every call there reads EOF. */
  lemma {:induction false} CursorPastEnd(input: string, p: nat, k: nat)
    requires IsByteString(input) && p > |input|
    ensures CursorFrom(input, p, k) == p + k
    ensures Scan(input, CursorFrom(input, p, k)).0 == Token(Eof, "")
    decreases k
  {
    if k > 0 {
      CursorPastEnd(input, p + 1, k - 1);
    }
  }

  /** The lexed sequence meets ValidTokens: it ends with EOF and its INT literals are digit runs. */
  lemma LexedTokensValid(input: string, p: nat)
    requires IsByteString(input)
    ensures ValidTokens(Tokens(input, p))
  {
    var toks := Tokens(input, p);
    TokensClassified(input, p);
    forall i | 0 <= i < |toks| && toks[i].kind == Int
      ensures |toks[i].literal| > 0 && GoInt.IsDigitString(toks[i].literal)
    {
      assert Classified(toks[i]);
    }
  }

  /** The k-th call of NextToken from cursor p returns the k-th token of the endless stream. */
  lemma {:induction false} StreamAt(input: string, p: nat, k: nat)
    requires IsByteString(input)
    ensures ValidTokens(Tokens(input, p))
    ensures Scan(input, CursorFrom(input, p, k)).0 == At(Tokens(input, p), k)
    decreases k
  {
    LexedTokensValid(input, p);
    var (t, next) := Scan(input, p);
    if k > 0 {
      if SkipWhiteSpaceFrom(input, p) < |input| {
        StreamAt(input, next, k - 1);
        assert Tokens(input, p) == [t] + Tokens(input, next);
      } else {
        CursorPastEnd(input, next, k - 1);
      }
    }
  }
}
