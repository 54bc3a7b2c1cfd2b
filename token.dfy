/** The token kinds and literals the lexer and the parser use. The token package itself is not
    part of this model: the kinds are those named in lexer/lexer.go and parser/parser.go, and the
    keyword table is the one the lexer tests expect. */
module Token {

  datatype TokenType =
    | Illegal | Eof
    | Ident | Int | Str
    | Assign | Plus | Minus | Bang | Asterisk | Slash
    | Lt | Gt | Eq | NotEq
    | Comma | Semicolon | Colon
    | LParen | RParen | LBrace | RBrace | LBracket | RBracket
    | Function | Let | True | False | If | Else | Return

  datatype Token = Token(kind: TokenType, literal: string)

  /** The reserved words, each with the kind it is reclassified to. */
  predicate IsKeyword(t: TokenType) {
    t in {Function, Let, True, False, If, Else, Return}
  }

  /** token.LookupIdent: a reserved word gets its keyword kind, any other word is an identifier. */
  function LookupIdent(ident: string): (t: TokenType)
    ensures t == Ident || IsKeyword(t)
    ensures t == Function <==> ident == "fn"
    ensures t == Let <==> ident == "let"
    ensures t == True <==> ident == "true"
    ensures t == False <==> ident == "false"
    ensures t == If <==> ident == "if"
    ensures t == Else <==> ident == "else"
    ensures t == Return <==> ident == "return"
  {
    if ident == "fn" then Function
    else if ident == "let" then Let
    else if ident == "true" then True
    else if ident == "false" then False
    else if ident == "if" then If
    else if ident == "else" then Else
    else if ident == "return" then Return
    else Ident
  }
}
