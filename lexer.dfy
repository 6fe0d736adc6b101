/** The lexical analyser: one left-to-right scan of the source text that
    turns it into KEYWORD, IDENTIFIER, NUMBER, OPERATOR, DELIMITER and
    COMMENT tokens, or stops at the first character it cannot place. */
module Lexer {
  import opened Wrappers
  import Text
  import opened Tokens

  const KEYWORDS: seq<string> :=
    ["program", "var", "integer", "real", "begin", "end", "if", "then", "else",
     "while", "do", "for", "to", "write", "read"]

  /** Tried in this order; the first entry that matches wins, so `<=` and
      `>=` can never match (`<` and `>` come first). */
  const OPERATORS: seq<string> := [":=", "+", "-", "*", "/", "=", "<", ">", "<=", ">="]

  const DELIMITERS: seq<string> := [";", ",", ".", "(", ")", ":"]

  /** Python's `s in list`, as a search from entry `k` on. */
  predicate ListedFrom(s: string, list: seq<string>, k: nat)
    decreases |list| - k
  {
    k < |list| && (list[k] == s || ListedFrom(s, list, k + 1))
  }

  predicate Listed(s: string, list: seq<string>) {
    ListedFrom(s, list, 0)
  }

  lemma {:induction false} ListedFromIsIn(s: string, list: seq<string>, k: nat)
    requires k <= |list|
    ensures ListedFrom(s, list, k) <==> s in list[k..]
    decreases |list| - k
  {
    if k < |list| {
      ListedFromIsIn(s, list, k + 1);
      assert list[k..] == [list[k]] + list[k + 1..];
    }
  }

  lemma ListedIsIn(s: string, list: seq<string>)
    ensures Listed(s, list) <==> s in list
  {
    ListedFromIsIn(s, list, 0);
    assert list[0..] == list;
  }

  datatype LexError =
    | UnclosedComment(start: nat)
    | InvalidCharacter(c: char, position: nat)

  predicate IsWhitespace(c: char) { c == ' ' || c == '\t' || c == '\n' || c == '\r' }

  /** ASCII letters (Python's `isalpha` also accepts other alphabets). */
  predicate IsLetter(c: char) { ('a' <= c <= 'z') || ('A' <= c <= 'Z') }

  predicate IsWordChar(c: char) { IsLetter(c) || Text.IsDigit(c) }

  // ---------------------------------------------------------------------
  // The scan, as functions
  // ---------------------------------------------------------------------

  /** End of the run of letters and digits that starts at `i`. */
  function WordEnd(code: string, i: nat): (j: nat)
    requires i <= |code|
    ensures i <= j <= |code|
    decreases |code| - i
  {
    if i < |code| && IsWordChar(code[i]) then WordEnd(code, i + 1) else i
  }

  /** The run WordEnd ends holds only letters and digits and cannot be
      extended. */
  lemma {:induction false} WordEndIsMaximal(code: string, i: nat)
    requires i <= |code|
    ensures var j := WordEnd(code, i);
            && (forall k :: i <= k < j ==> IsWordChar(code[k]))
            && (j == |code| || !IsWordChar(code[j]))
    decreases |code| - i
  {
    if i < |code| && IsWordChar(code[i]) {
      WordEndIsMaximal(code, i + 1);
    }
  }

  /** End of the run of digits that starts at `i`. */
  function DigitsEnd(code: string, i: nat): (j: nat)
    requires i <= |code|
    ensures i <= j <= |code|
    decreases |code| - i
  {
    if i < |code| && Text.IsDigit(code[i]) then DigitsEnd(code, i + 1) else i
  }

  /** The run DigitsEnd ends holds only digits and cannot be extended. */
  lemma {:induction false} DigitsEndIsMaximal(code: string, i: nat)
    requires i <= |code|
    ensures var j := DigitsEnd(code, i);
            && (forall k :: i <= k < j ==> Text.IsDigit(code[k]))
            && (j == |code| || !Text.IsDigit(code[j]))
    decreases |code| - i
  {
    if i < |code| && Text.IsDigit(code[i]) {
      DigitsEndIsMaximal(code, i + 1);
    }
  }

  /** Index of the first `}` at or after `i`, or `|code|` if there is none. */
  function CloseBrace(code: string, i: nat): (j: nat)
    requires i <= |code|
    ensures i <= j <= |code|
    decreases |code| - i
  {
    if i < |code| && code[i] != '}' then CloseBrace(code, i + 1) else i
  }

  /** CloseBrace finds the first `}` from `i` on. */
  lemma {:induction false} CloseBraceIsFirst(code: string, i: nat)
    requires i <= |code|
    ensures var j := CloseBrace(code, i);
            && (forall k :: i <= k < j ==> code[k] != '}')
            && (j == |code| || code[j] == '}')
    decreases |code| - i
  {
    if i < |code| && code[i] != '}' {
      CloseBraceIsFirst(code, i + 1);
    }
  }

  /** Python's `code[i:i+len(op)] == op` for a non-empty `op`. */
  predicate MatchesAt(code: string, i: nat, op: string) {
    i + |op| <= |code| && code[i..i + |op|] == op
  }

  /** The first operator, from entry `k` of OPERATORS on, that matches at `i`. */
  function OperatorFrom(code: string, i: nat, k: nat): (r: Option<string>)
    requires k <= |OPERATORS|
    ensures r.Some? ==> MatchesAt(code, i, r.value)
    decreases |OPERATORS| - k
  {
    if k == |OPERATORS| then None
    else if MatchesAt(code, i, OPERATORS[k]) then Some(OPERATORS[k])
    else OperatorFrom(code, i, k + 1)
  }

  /** OperatorFrom gives the first entry from `k` on that matches, or None
      when none does. */
  lemma {:induction false} OperatorFromIsFirst(code: string, i: nat, k: nat)
    requires k <= |OPERATORS|
    ensures var r := OperatorFrom(code, i, k);
            && (r.Some? ==> exists m :: k <= m < |OPERATORS| && OPERATORS[m] == r.value
                              && forall n :: k <= n < m ==> !MatchesAt(code, i, OPERATORS[n]))
            && (r.None? ==> forall n :: k <= n < |OPERATORS| ==> !MatchesAt(code, i, OPERATORS[n]))
    decreases |OPERATORS| - k
  {
    if k < |OPERATORS| && !MatchesAt(code, i, OPERATORS[k]) {
      OperatorFromIsFirst(code, i, k + 1);
      var r := OperatorFrom(code, i, k);
      if r.Some? {
        var m :| k + 1 <= m < |OPERATORS| && OPERATORS[m] == r.value
                 && forall n :: k + 1 <= n < m ==> !MatchesAt(code, i, OPERATORS[n]);
        assert forall n :: k <= n < m ==> !MatchesAt(code, i, OPERATORS[n]);
      }
    }
  }

  /** The operator the lexer takes at `i`: the first entry of OPERATORS that matches. */
  function FirstOperator(code: string, i: nat): Option<string> {
    OperatorFrom(code, i, 0)
  }

  function Prepend(ts: seq<Token>, r: Result<seq<Token>, LexError>): Result<seq<Token>, LexError> {
    match r
    case Ok(rest) => Ok(ts + rest)
    case Err(e) => Err(e)
  }

  /** What the scan does at `i`: skip a blank, emit one token, or fail. */
  datatype Step = Skip(next: nat) | Emit(token: Token, next: nat) | Stop(error: LexError)

  /** One iteration of the scanning loop, at a position inside the text. */
  function ScanStep(code: string, i: nat): (s: Step)
    requires i < |code|
    ensures !s.Stop? ==> i < s.next <= |code|
  {
    var c := code[i];
    if IsWhitespace(c) then Skip(i + 1)
    else if IsLetter(c) then
      var j := WordEnd(code, i);
      var word := code[i..j];
      Emit(Token(if Listed(word, KEYWORDS) then KEYWORD else IDENTIFIER, word, j), j)
    else if Text.IsDigit(c) then
      var j := DigitsEnd(code, i);
      Emit(Token(NUMBER, code[i..j], j), j)
    else if FirstOperator(code, i).Some? then
      var op := FirstOperator(code, i).value;
      assert op != [] by { OperatorsNonEmpty(); }
      Emit(Token(OPERATOR, op, i), i + |op|)
    else if Listed([c], DELIMITERS) then Emit(Token(DELIMITER, [c], i), i + 1)
    else if c == '{' then
      var j := CloseBrace(code, i + 1);
      if j < |code| then Emit(Token(COMMENT, code[i..j + 1], j + 1), j + 1)
      else Stop(UnclosedComment(i))
    else Stop(InvalidCharacter(c, i))
  }

  /** The tokens of `code[i..]`, positions counted from the start of `code`. */
  function Scan(code: string, i: nat): Result<seq<Token>, LexError>
    requires i <= |code|
    decreases |code| - i
  {
    if i == |code| then Ok([])
    else
      match ScanStep(code, i)
      case Skip(j) => Scan(code, j)
      case Emit(t, j) => Prepend([t], Scan(code, j))
      case Stop(e) => Err(e)
  }

  /** `lexical_analyser(code)`. */
  function Lex(code: string): Result<seq<Token>, LexError> {
    Scan(code, 0)
  }

  lemma OperatorsNonEmpty()
    ensures forall k :: 0 <= k < |OPERATORS| ==> |OPERATORS[k]| >= 1
  {
  }

  // ---------------------------------------------------------------------
  // The scan, as the source writes it
  // ---------------------------------------------------------------------

  /** `lexical_analyser`: the token list, or the error it raises. */
  method LexicalAnalyser(code: string) returns (r: Result<seq<Token>, LexError>)
    ensures r == Lex(code)
  {
    var tokens: seq<Token> := [];
    var i := 0;
    var length := |code|;
    assert Prepend(tokens, Scan(code, i)) == Scan(code, i) by {
      if Scan(code, i).Ok? {
        assert tokens + Scan(code, i).value == Scan(code, i).value;
      }
    }
    while i < length
      invariant 0 <= i <= length
      invariant Lex(code) == Prepend(tokens, Scan(code, i))
      decreases length - i
    {
      var step := ScanAt(code, i);
      match step
      case Skip(j) =>
        i := j;
      case Emit(t, j) =>
        Emitted(tokens, code, i, t, j);
        tokens := tokens + [t];
        i := j;
      case Stop(e) =>
        return Err(e);
    }
    assert tokens + [] == tokens;
    return Ok(tokens);
  }

  /** One pass of the loop body of `lexical_analyser` at position `i`, with
      its inner scans for a word, a number, an operator and a comment's end. */
  method ScanAt(code: string, i: nat) returns (step: Step)
    requires i < |code|
    ensures step == ScanStep(code, i)
  {
    var length := |code|;
    var c := code[i];
    if IsWhitespace(c) {
      return Skip(i + 1);
    }
    if IsLetter(c) {
      var j := i;
      while j < length && IsWordChar(code[j])
        invariant i <= j <= length
        invariant WordEnd(code, i) == WordEnd(code, j)
        decreases length - j
      {
        j := j + 1;
      }
      var word := code[i..j];
      var t := if Listed(word, KEYWORDS) then Token(KEYWORD, word, j) else Token(IDENTIFIER, word, j);
      return Emit(t, j);
    }
    if Text.IsDigit(c) {
      var j := i;
      while j < length && Text.IsDigit(code[j])
        invariant i <= j <= length
        invariant DigitsEnd(code, i) == DigitsEnd(code, j)
        decreases length - j
      {
        j := j + 1;
      }
      return Emit(Token(NUMBER, code[i..j], j), j);
    }
    var k := 0;
    while k < |OPERATORS| && !MatchesAt(code, i, OPERATORS[k])
      invariant 0 <= k <= |OPERATORS|
      invariant OperatorFrom(code, i, 0) == OperatorFrom(code, i, k)
      decreases |OPERATORS| - k
    {
      k := k + 1;
    }
    if k < |OPERATORS| {
      var op := OPERATORS[k];
      return Emit(Token(OPERATOR, op, i), i + |op|);
    }
    if Listed([c], DELIMITERS) {
      return Emit(Token(DELIMITER, [c], i), i + 1);
    }
    if c == '{' {
      var j := i + 1;
      while j < length && code[j] != '}'
        invariant i < j <= length
        invariant CloseBrace(code, i + 1) == CloseBrace(code, j)
        decreases length - j
      {
        j := j + 1;
      }
      if j < length {
        return Emit(Token(COMMENT, code[i..j + 1], j + 1), j + 1);
      }
      return Stop(UnclosedComment(i));
    }
    return Stop(InvalidCharacter(c, i));
  }

  /** Appending the token a step emits keeps the loop's account of the scan. */
  lemma Emitted(ts: seq<Token>, code: string, i: nat, t: Token, j: nat)
    requires i < |code| && ScanStep(code, i) == Emit(t, j)
    ensures Prepend(ts, Scan(code, i)) == Prepend(ts + [t], Scan(code, j))
  {
    AppendToken(ts, t, Scan(code, j));
  }

  lemma AppendToken(ts: seq<Token>, t: Token, r: Result<seq<Token>, LexError>)
    ensures Prepend(ts, Prepend([t], r)) == Prepend(ts + [t], r)
  {
    if r.Ok? {
      assert ts + ([t] + r.value) == (ts + [t]) + r.value;
    }
  }

  // ---------------------------------------------------------------------
  // What every token says about the text it came from
  // ---------------------------------------------------------------------

  /** `value` is a maximal run of letters and digits that starts with a letter
      and ends at `end`: the scan stops only where no letter or digit follows. */
  ghost predicate WordEndingAt(code: string, value: string, end: nat) {
    && 1 <= |value| <= end <= |code|
    && code[end - |value|..end] == value
    && IsLetter(value[0])
    && (forall k :: 0 <= k < |value| ==> IsWordChar(value[k]))
    && (end == |code| || !IsWordChar(code[end]))
  }

  /** `value` is a maximal run of digits ending at `end`. */
  ghost predicate NumberEndingAt(code: string, value: string, end: nat) {
    && 1 <= |value| <= end <= |code|
    && code[end - |value|..end] == value
    && (forall k :: 0 <= k < |value| ==> Text.IsDigit(value[k]))
    && (end == |code| || !Text.IsDigit(code[end]))
  }

  /** `value` is `{`, then no `}`, then `}`, and ends at `end`. */
  ghost predicate CommentEndingAt(code: string, value: string, end: nat) {
    && 2 <= |value| <= end <= |code|
    && code[end - |value|..end] == value
    && value[0] == '{' && value[|value| - 1] == '}'
    && (forall k :: 0 < k < |value| - 1 ==> value[k] != '}')
  }

  /** What a token of each kind tells about the source text. Words, numbers
      and comments record where they end; operators and delimiters record
      where they start. */
  ghost predicate TokenFits(code: string, t: Token) {
    match t.kind
    case KEYWORD => t.value in KEYWORDS && WordEndingAt(code, t.value, t.position)
    case IDENTIFIER => t.value !in KEYWORDS && WordEndingAt(code, t.value, t.position)
    case NUMBER => NumberEndingAt(code, t.value, t.position)
    case OPERATOR => FirstOperator(code, t.position) == Some(t.value)
    case DELIMITER =>
      && t.position < |code|
      && t.value == [code[t.position]]
      && t.value in DELIMITERS
      && FirstOperator(code, t.position).None?
    case COMMENT => CommentEndingAt(code, t.value, t.position)
  }

  /** The token a single step emits fits the text. */
  lemma StepFits(code: string, i: nat)
    requires i < |code| && ScanStep(code, i).Emit?
    ensures TokenFits(code, ScanStep(code, i).token)
  {
    var c := code[i];
    ListedIsIn([c], DELIMITERS);
    if IsWhitespace(c) {
    } else if IsLetter(c) {
      WordFits(code, i);
      ListedIsIn(code[i..WordEnd(code, i)], KEYWORDS);
    } else if Text.IsDigit(c) {
      NumberFits(code, i);
    } else if FirstOperator(code, i).Some? {
    } else if [c] in DELIMITERS {
    } else {
      CommentFits(code, i);
    }
  }

  lemma WordFits(code: string, i: nat)
    requires i < |code| && IsLetter(code[i])
    ensures WordEndingAt(code, code[i..WordEnd(code, i)], WordEnd(code, i))
  {
    var j := WordEnd(code, i);
    WordEndIsMaximal(code, i);
    var v := code[i..j];
    assert j - |v| == i;
    assert v[0] == code[i];
    assert forall k :: 0 <= k < |v| ==> v[k] == code[i + k];
  }

  lemma NumberFits(code: string, i: nat)
    requires i < |code| && Text.IsDigit(code[i])
    ensures NumberEndingAt(code, code[i..DigitsEnd(code, i)], DigitsEnd(code, i))
  {
    var j := DigitsEnd(code, i);
    DigitsEndIsMaximal(code, i);
    var v := code[i..j];
    assert j - |v| == i;
    assert forall k :: 0 <= k < |v| ==> v[k] == code[i + k];
  }

  lemma CommentFits(code: string, i: nat)
    requires i + 1 < |code| && code[i] == '{' && CloseBrace(code, i + 1) < |code|
    ensures var j := CloseBrace(code, i + 1);
            CommentEndingAt(code, code[i..j + 1], j + 1)
  {
    var j := CloseBrace(code, i + 1);
    CloseBraceIsFirst(code, i + 1);
    var v := code[i..j + 1];
    assert forall k :: 0 < k < |v| - 1 ==> v[k] == code[i + k];
  }

  lemma {:induction false} ScanTokensFit(code: string, i: nat)
    requires i <= |code|
    requires Scan(code, i).Ok?
    ensures forall t :: t in Scan(code, i).value ==> TokenFits(code, t)
    decreases |code| - i
  {
    if i < |code| {
      match ScanStep(code, i)
      case Skip(j) =>
        ScanTokensFit(code, j);
      case Emit(t, j) =>
        StepFits(code, i);
        ScanTokensFit(code, j);
      case Stop(e) =>
    }
  }

  /** Every token of a successful scan fits the text it came from: keywords
      are exactly the listed words, identifiers the other words, and words,
      numbers and comments are as long as the scan could make them. */
  lemma LexTokensFit(code: string)
    requires Lex(code).Ok?
    ensures forall t :: t in Lex(code).value ==> TokenFits(code, t)
  {
    ScanTokensFit(code, 0);
  }

  /** Why a scan fails: the character it reports can start no token, or the
      comment it reports is never closed. */
  ghost predicate ErrorExplained(code: string, e: LexError) {
    match e
    case InvalidCharacter(c, p) =>
      && p < |code| && code[p] == c
      && !IsWhitespace(c) && !IsWordChar(c)
      && FirstOperator(code, p).None?
      && [c] !in DELIMITERS && c != '{'
    case UnclosedComment(p) =>
      && p < |code| && code[p] == '{'
      && forall k :: p < k < |code| ==> code[k] != '}'
  }

  /** The error a single step raises is explained by the text. */
  lemma StepErrorExplained(code: string, i: nat)
    requires i < |code| && ScanStep(code, i).Stop?
    ensures ErrorExplained(code, ScanStep(code, i).error)
  {
    ListedIsIn([code[i]], DELIMITERS);
    if code[i] == '{' {
      CloseBraceIsFirst(code, i + 1);
    }
  }

  lemma {:induction false} ScanErrorExplained(code: string, i: nat)
    requires i <= |code|
    requires Scan(code, i).Err?
    ensures ErrorExplained(code, Scan(code, i).error)
    decreases |code| - i
  {
    if i < |code| {
      match ScanStep(code, i)
      case Skip(j) =>
        ScanErrorExplained(code, j);
      case Emit(t, j) =>
        ScanErrorExplained(code, j);
      case Stop(e) =>
        StepErrorExplained(code, i);
    }
  }

  /** A failed scan names a character that starts no token, or an unclosed `{`. */
  lemma LexErrorExplained(code: string)
    requires Lex(code).Err?
    ensures ErrorExplained(code, Lex(code).error)
  {
    ScanErrorExplained(code, 0);
  }

  /** A run of blanks produces no token. */
  lemma WhitespaceSkipped(code: string, i: nat, j: nat)
    requires i <= j <= |code|
    requires forall k :: i <= k < j ==> IsWhitespace(code[k])
    ensures Scan(code, i) == Scan(code, j)
  {
    AllBlank(code, i, j);
    BlanksSkipped(code, i, j);
  }

  /** `code[i..j]` is all whitespace, as a walk from `i`. */
  predicate Blanks(code: string, i: nat, j: nat)
    requires i <= j <= |code|
    decreases j - i
  {
    i == j || (IsWhitespace(code[i]) && Blanks(code, i + 1, j))
  }

  lemma {:induction false} AllBlank(code: string, i: nat, j: nat)
    requires i <= j <= |code|
    requires forall k :: i <= k < j ==> IsWhitespace(code[k])
    ensures Blanks(code, i, j)
    decreases j - i
  {
    if i < j {
      AllBlank(code, i + 1, j);
    }
  }

  lemma {:induction false} BlanksSkipped(code: string, i: nat, j: nat)
    requires i <= j <= |code| && Blanks(code, i, j)
    ensures Scan(code, i) == Scan(code, j)
    decreases j - i
  {
    if i < j {
      BlanksSkipped(code, i + 1, j);
      BlankStep(code, i, j);
    }
  }

  /** A blank in front of a scan changes nothing. */
  lemma BlankStep(code: string, i: nat, j: nat)
    requires i < j <= |code| && IsWhitespace(code[i])
    requires Scan(code, i + 1) == Scan(code, j)
    ensures Scan(code, i) == Scan(code, j)
  {
    assert ScanStep(code, i) == Skip(i + 1);
  }

  /** `:=` is one operator token, never a `:` delimiter followed by `=`. */
  lemma AssignIsOneOperator(code: string, i: nat)
    requires i + 2 <= |code| && code[i..i + 2] == ":="
    ensures Scan(code, i) == Prepend([Token(OPERATOR, ":=", i)], Scan(code, i + 2))
  {
    assert code[i] == ':';
    assert MatchesAt(code, i, OPERATORS[0]);
  }

  /** `<=` and `>=` are lexed as two operators, because `<` and `>` are
      listed before them. */
  lemma ComparisonSplits(code: string, i: nat)
    requires i + 2 <= |code| && (code[i] == '<' || code[i] == '>') && code[i + 1] == '='
    ensures Scan(code, i) == Prepend([Token(OPERATOR, [code[i]], i), Token(OPERATOR, "=", i + 1)], Scan(code, i + 2))
  {
    var c := code[i];
    var t1, t2 := Token(OPERATOR, [c], i), Token(OPERATOR, "=", i + 1);
    SingleCharOperatorStep(code, i);
    SingleCharOperatorStep(code, i + 1);
    Emitted([t1], code, i + 1, t2, i + 2);
    Emitted([], code, i, t1, i + 1);
    PrependNothing(Scan(code, i));
    assert [t1] + [t2] == [t1, t2];
  }

  lemma PrependNothing(r: Result<seq<Token>, LexError>)
    ensures Prepend([], r) == r
  {
    if r.Ok? {
      assert [] + r.value == r.value;
    }
  }

  /** At a `=`, `<` or `>` the scan emits that one-character operator. */
  lemma SingleCharOperatorStep(code: string, i: nat)
    requires i < |code| && (code[i] == '=' || code[i] == '<' || code[i] == '>')
    ensures ScanStep(code, i) == Emit(Token(OPERATOR, [code[i]], i), i + 1)
  {
    var c := code[i];
    var k := if c == '=' then 5 else if c == '<' then 6 else 7;
    NoEarlierMatch(code, i, k);
    OperatorFromFirst(code, i, 0, k);
    assert OPERATORS[k] == [c];
    assert !IsWhitespace(c) && !IsLetter(c) && !Text.IsDigit(c);
  }

  /** Only entry `k` can match at `i` among the first `k + 1` operators when
      `code[i]` is that entry's single character. */
  lemma NoEarlierMatch(code: string, i: nat, k: nat)
    requires 5 <= k <= 7 && i < |code| && code[i] == OPERATORS[k][0]
    ensures MatchesAt(code, i, OPERATORS[k])
    ensures forall n :: 0 <= n < k ==> !MatchesAt(code, i, OPERATORS[n])
  {
    forall n | 0 <= n < k ensures !MatchesAt(code, i, OPERATORS[n]) {
      var op := OPERATORS[n];
      assert op[0] != code[i];
    }
    assert code[i..i + 1] == [code[i]];
  }

  lemma {:induction false} OperatorFromFirst(code: string, i: nat, k: nat, m: nat)
    requires k <= m < |OPERATORS|
    requires MatchesAt(code, i, OPERATORS[m])
    requires forall n :: k <= n < m ==> !MatchesAt(code, i, OPERATORS[n])
    ensures OperatorFrom(code, i, k) == Some(OPERATORS[m])
    decreases m - k
  {
    if k < m {
      OperatorFromFirst(code, i, k + 1, m);
    }
  }
}
