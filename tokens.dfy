/** Tokens as the lexer produces them and both parsers consume them, and the
    two cursor primitives the parsers share: `current_token` and `consume`. */
module Tokens {
  import opened Wrappers

  datatype TokenKind = KEYWORD | IDENTIFIER | NUMBER | OPERATOR | DELIMITER | COMMENT

  /** `position` is the source offset the lexer recorded for the token. */
  datatype Token = Token(kind: TokenKind, value: string, position: nat)

  /** The reasons a parser raises; each carries the token it was looking at
      (None past the end of the token list). `EndOfInput` stands for the
      failure of reading the kind of a token that does not exist. */
  datatype SyntaxError =
    | Expected(kind: TokenKind, got: Option<Token>)
    | UnknownStatement(token: Token)
    | InvalidExpression(token: Token)
    | EndOfInput

  /** `current_token()` of a parser whose cursor is at `pos`. */
  function TokenAt(toks: seq<Token>, pos: nat): (r: Option<Token>)
    ensures r.None? <==> pos >= |toks|
    ensures r.Some? ==> r.value == toks[pos]
  {
    if pos < |toks| then Some(toks[pos]) else None
  }

  /** `consume(kind)` of a parser whose cursor is at `pos`: the new cursor, or
      the error it raises. Only the kind of the token is checked. */
  function Expect(toks: seq<Token>, pos: nat, kind: TokenKind): (r: Result<nat, SyntaxError>)
    ensures r.Ok? <==> pos < |toks| && toks[pos].kind == kind
    ensures r.Ok? ==> r.value == pos + 1
    ensures r.Err? ==> r.error == Expected(kind, TokenAt(toks, pos))
  {
    if pos < |toks| && toks[pos].kind == kind then Ok(pos + 1)
    else Err(Expected(kind, TokenAt(toks, pos)))
  }

  /** Whether the token at `pos` exists and has the given kind. */
  predicate KindAt(toks: seq<Token>, pos: nat, kind: TokenKind) {
    pos < |toks| && toks[pos].kind == kind
  }
}
