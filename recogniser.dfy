/** The recursive-descent recogniser: it accepts or rejects a token list
    without building a tree. A cursor moves through the tokens and
    `consume(kind)` checks only the kind of a token, never its text. */
module SyntaxAnalyzer {
  import opened Wrappers
  import opened Tokens

  // ---------------------------------------------------------------------
  // The grammar as functions of the cursor: each gives the cursor after the
  // construct, or the error the recogniser raises.
  // ---------------------------------------------------------------------

  function ExpressionEnd(toks: seq<Token>, pos: nat): (r: Result<nat, SyntaxError>)
    ensures r.Ok? ==> r.value == pos + 1 && r.value <= |toks|
  {
    match TokenAt(toks, pos)
    case None => Err(EndOfInput)
    case Some(t) =>
      if t.kind == NUMBER then Expect(toks, pos, NUMBER)
      else if t.kind == IDENTIFIER then Expect(toks, pos, IDENTIFIER)
      else Err(InvalidExpression(t))
  }

  function StatementEnd(toks: seq<Token>, pos: nat): (r: Result<nat, SyntaxError>)
    ensures r.Ok? ==> pos < r.value <= |toks|
  {
    match TokenAt(toks, pos)
    case None => Err(EndOfInput)
    case Some(t) =>
      // The first token of either statement is the current one, whose kind
      // has just been checked, so consuming it cannot fail.
      if t.kind == IDENTIFIER then
        var p2 :- Expect(toks, pos + 1, OPERATOR);
        var p3 :- ExpressionEnd(toks, p2);
        Expect(toks, p3, DELIMITER)
      else if t.kind == KEYWORD && t.value == "write" then
        var p2 :- Expect(toks, pos + 1, DELIMITER);
        var p3 :- Expect(toks, p2, IDENTIFIER);
        var p4 :- Expect(toks, p3, DELIMITER);
        Expect(toks, p4, DELIMITER)
      else Err(UnknownStatement(t))
  }

  /** Statements are parsed while the current token exists and is not a KEYWORD. */
  function StatementsEnd(toks: seq<Token>, pos: nat): (r: Result<nat, SyntaxError>)
    requires pos <= |toks|
    ensures r.Ok? ==> pos <= r.value <= |toks|
    decreases |toks| - pos
  {
    if pos < |toks| && toks[pos].kind != KEYWORD then
      var p :- StatementEnd(toks, pos);
      StatementsEnd(toks, p)
    else Ok(pos)
  }

  function BlockEnd(toks: seq<Token>, pos: nat): (r: Result<nat, SyntaxError>)
    ensures r.Ok? ==> pos < r.value <= |toks|
  {
    var p1 :- Expect(toks, pos, KEYWORD);
    var p2 :- StatementsEnd(toks, p1);
    Expect(toks, p2, KEYWORD)
  }

  function ProgramEnd(toks: seq<Token>, pos: nat): (r: Result<nat, SyntaxError>)
    ensures r.Ok? ==> pos < r.value <= |toks|
  {
    var p1 :- Expect(toks, pos, KEYWORD);
    var p2 :- Expect(toks, p1, IDENTIFIER);
    var p3 :- Expect(toks, p2, DELIMITER);
    var p4 :- BlockEnd(toks, p3);
    Expect(toks, p4, DELIMITER)
  }

  /** A method's outcome and final cursor agree with the grammar function. */
  predicate Agrees(r: Outcome<SyntaxError>, spec: Result<nat, SyntaxError>, pos: nat) {
    match spec
    case Ok(e) => r.Pass? && pos == e
    case Err(err) => r == Fail(err)
  }

  // ---------------------------------------------------------------------
  // The recogniser object
  // ---------------------------------------------------------------------

  class Parser {
    const tokens: seq<Token>
    var position: nat

    ghost predicate Valid()
      reads this
    {
      position <= |tokens|
    }

    constructor (tokens: seq<Token>)
      ensures Valid() && this.tokens == tokens && position == 0
    {
      this.tokens := tokens;
      position := 0;
    }

    /** The token under the cursor; None exactly when the cursor is past the end. */
    function CurrentToken(): (r: Option<Token>)
      reads this
      ensures r.None? <==> position >= |tokens|
      ensures r.Some? ==> r.value == tokens[position]
    {
      TokenAt(tokens, position)
    }

    /** Moves the cursor by one exactly when the current token has the kind
        asked for; otherwise fails and leaves the cursor where it was. */
    method Consume(kind: TokenKind) returns (r: Result<Token, SyntaxError>)
      requires Valid()
      modifies this
      ensures Valid()
      ensures r.Ok? <==> old(position) < |tokens| && tokens[old(position)].kind == kind
      ensures r.Ok? ==> r.value == tokens[old(position)] && position == old(position) + 1
      ensures r.Err? ==> position == old(position) && r.error == Expected(kind, old(CurrentToken()))
    {
      var token := CurrentToken();
      if token.Some? && token.value.kind == kind {
        position := position + 1;
        return Ok(token.value);
      }
      return Err(Expected(kind, token));
    }

    method ParseProgram() returns (r: Outcome<SyntaxError>)
      requires Valid()
      modifies this
      ensures Valid() && Agrees(r, ProgramEnd(tokens, old(position)), position)
    {
      var t := Consume(KEYWORD);
      if t.Err? { return Fail(t.error); }
      t := Consume(IDENTIFIER);
      if t.Err? { return Fail(t.error); }
      t := Consume(DELIMITER);
      if t.Err? { return Fail(t.error); }
      var b := ParseBlock();
      if b.Fail? { return b; }
      t := Consume(DELIMITER);
      if t.Err? { return Fail(t.error); }
      return Pass;
    }

    method ParseBlock() returns (r: Outcome<SyntaxError>)
      requires Valid()
      modifies this
      ensures Valid() && Agrees(r, BlockEnd(tokens, old(position)), position)
    {
      var t := Consume(KEYWORD);
      if t.Err? { return Fail(t.error); }
      var s := ParseStatements();
      if s.Fail? { return s; }
      t := Consume(KEYWORD);
      if t.Err? { return Fail(t.error); }
      return Pass;
    }

    method ParseStatements() returns (r: Outcome<SyntaxError>)
      requires Valid()
      modifies this
      ensures Valid() && Agrees(r, StatementsEnd(tokens, old(position)), position)
    {
      while CurrentToken().Some? && CurrentToken().value.kind != KEYWORD
        invariant Valid()
        invariant StatementsEnd(tokens, old(position)) == StatementsEnd(tokens, position)
        decreases |tokens| - position
      {
        var s := ParseStatement();
        if s.Fail? { return s; }
      }
      return Pass;
    }

    method ParseStatement() returns (r: Outcome<SyntaxError>)
      requires Valid()
      modifies this
      ensures Valid() && Agrees(r, StatementEnd(tokens, old(position)), position)
    {
      var token := CurrentToken();
      if token.None? { return Fail(EndOfInput); }
      if token.value.kind == IDENTIFIER {
        var t := Consume(IDENTIFIER);  // the current token: cannot fail
        t := Consume(OPERATOR);
        if t.Err? { return Fail(t.error); }
        var e := ParseExpression();
        if e.Fail? { return e; }
        t := Consume(DELIMITER);
        if t.Err? { return Fail(t.error); }
        return Pass;
      } else if token.value.kind == KEYWORD && token.value.value == "write" {
        var t := Consume(KEYWORD);  // the current token: cannot fail
        t := Consume(DELIMITER);
        if t.Err? { return Fail(t.error); }
        t := Consume(IDENTIFIER);
        if t.Err? { return Fail(t.error); }
        t := Consume(DELIMITER);
        if t.Err? { return Fail(t.error); }
        t := Consume(DELIMITER);
        if t.Err? { return Fail(t.error); }
        return Pass;
      } else {
        return Fail(UnknownStatement(token.value));
      }
    }

    method ParseExpression() returns (r: Outcome<SyntaxError>)
      requires Valid()
      modifies this
      ensures Valid() && Agrees(r, ExpressionEnd(tokens, old(position)), position)
    {
      var token := CurrentToken();
      if token.None? { return Fail(EndOfInput); }
      // The current token's kind has just been checked: consuming it cannot fail.
      if token.value.kind == NUMBER {
        var _ := Consume(NUMBER);
      } else if token.value.kind == IDENTIFIER {
        var _ := Consume(IDENTIFIER);
      } else {
        return Fail(InvalidExpression(token.value));
      }
      return Pass;
    }
  }

  // ---------------------------------------------------------------------
  // The language the recogniser accepts
  // ---------------------------------------------------------------------

  /** Four tokens `IDENTIFIER OPERATOR (NUMBER | IDENTIFIER) DELIMITER` at `p`. */
  predicate AssignmentAt(toks: seq<Token>, p: nat) {
    && p + 4 <= |toks|
    && toks[p].kind == IDENTIFIER
    && toks[p + 1].kind == OPERATOR
    && (toks[p + 2].kind == NUMBER || toks[p + 2].kind == IDENTIFIER)
    && toks[p + 3].kind == DELIMITER
  }

  /** `toks[p..e]` is a run of such four-token assignments. */
  predicate AssignmentsBetween(toks: seq<Token>, p: nat, e: nat)
    decreases e - p
  {
    if p >= e then p == e
    else AssignmentAt(toks, p) && AssignmentsBetween(toks, p + 4, e)
  }

  /** The statement loop accepts exactly a run of assignments ending at a
      KEYWORD or at the end of the tokens; nothing else gets through. */
  lemma {:induction false} StatementsAccepted(toks: seq<Token>, p: nat, e: nat)
    requires p <= |toks|
    ensures StatementsEnd(toks, p) == Ok(e) <==>
              (e <= |toks| && AssignmentsBetween(toks, p, e) && (e == |toks| || toks[e].kind == KEYWORD))
    decreases |toks| - p
  {
    if p < |toks| && toks[p].kind != KEYWORD {
      if AssignmentAt(toks, p) {
        assert StatementEnd(toks, p) == Ok(p + 4);
        StatementsAccepted(toks, p + 4, e);
      } else {
        assert StatementEnd(toks, p).Err?;
      }
    }
  }

  /** The recogniser accepts exactly `KEYWORD IDENTIFIER DELIMITER KEYWORD`,
      then assignments, then `KEYWORD DELIMITER`, and ignores whatever follows.
      It has no place for a `var` section, and the keyword slots accept any
      keyword, not only `program`, `begin` and `end`. */
  lemma ProgramAccepted(toks: seq<Token>, e: nat)
    ensures ProgramEnd(toks, 0) == Ok(e) <==>
              && KindAt(toks, 0, KEYWORD) && KindAt(toks, 1, IDENTIFIER)
              && KindAt(toks, 2, DELIMITER) && KindAt(toks, 3, KEYWORD)
              && 6 <= e <= |toks|
              && AssignmentsBetween(toks, 4, e - 2)
              && toks[e - 2].kind == KEYWORD && toks[e - 1].kind == DELIMITER
  {
    if KindAt(toks, 0, KEYWORD) && KindAt(toks, 1, IDENTIFIER) && KindAt(toks, 2, DELIMITER) && KindAt(toks, 3, KEYWORD) {
      if e >= 6 {
        StatementsAccepted(toks, 4, e - 2);
      }
      if StatementsEnd(toks, 4).Ok? {
        StatementsAccepted(toks, 4, StatementsEnd(toks, 4).value);
      }
    }
  }

  /** Because the loop stops at every KEYWORD, the `write` branch of
      `parse_statement` is never taken: a `write` ends the statements, is taken
      as the closing keyword, and its `(` as the final delimiter, so
      `program P ; begin write ( x ) ; end .` is accepted after six tokens. */
  lemma WriteEndsTheBlock()
    ensures var toks := [
              Token(KEYWORD, "program", 7), Token(IDENTIFIER, "P", 9), Token(DELIMITER, ";", 9),
              Token(KEYWORD, "begin", 16), Token(KEYWORD, "write", 22), Token(DELIMITER, "(", 22),
              Token(IDENTIFIER, "x", 24), Token(DELIMITER, ")", 24), Token(DELIMITER, ";", 25),
              Token(KEYWORD, "end", 29), Token(DELIMITER, ".", 29)];
            ProgramEnd(toks, 0) == Ok(6)
  {
  }
}
