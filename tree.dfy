/** The parser that builds an abstract syntax tree. It has the recogniser's
    cursor and `consume`, and every parse method returns a node built by
    appending children to it. A node is never changed after it has been
    added to its parent, so the children of a node are kept as immutable
    `Tree` values. */
module SyntaxTree {
  import opened Wrappers
  import opened Tokens

  /** A finished node: its kind (`node_type`), optional value and children. */
  datatype Tree = Tree(kind: string, value: Option<string>, children: seq<Tree>)

  function Leaf(kind: string, value: string): Tree {
    Tree(kind, Some(value), [])
  }

  /** What a parse step produces: a node (or list of nodes) and the cursor after it. */
  datatype Parsed<+T> = Parsed(node: T, next: nat)

  /** The node under construction. */
  class ASTNode {
    var kind: string
    var value: Option<string>
    var children: seq<Tree>

    constructor (kind: string, value: Option<string>)
      ensures this.kind == kind && this.value == value && children == []
    {
      this.kind := kind;
      this.value := value;
      children := [];
    }

    /** Appends `child` after the existing children, which stay as they were. */
    method AddChild(child: Tree)
      modifies this
      ensures children == old(children) + [child]
      ensures kind == old(kind) && value == old(value)
    {
      children := children + [child];
    }

    /** The node as it stands, as a value. */
    function Freeze(): (t: Tree)
      reads this
      ensures t.kind == kind && t.value == value && t.children == children
    {
      Tree(kind, value, children)
    }
  }

  // ---------------------------------------------------------------------
  // The grammar as functions of the cursor: each gives the node built and the
  // cursor after it, or the error the parser raises.
  // ---------------------------------------------------------------------

  /** `xs` followed by the list a later part of the loop produces. */
  function Prepend<T>(xs: seq<T>, r: Result<Parsed<seq<T>>, SyntaxError>): Result<Parsed<seq<T>>, SyntaxError> {
    match r
    case Ok(p) => Ok(Parsed(xs + p.node, p.next))
    case Err(e) => Err(e)
  }

  lemma PrependNothing<T>(r: Result<Parsed<seq<T>>, SyntaxError>)
    ensures Prepend([], r) == r
  {
    if r.Ok? {
      assert [] + r.value.node == r.value.node;
    }
  }

  /** One more loop step: the child just added moves from the rest of the
      loop into the children collected so far. */
  lemma PrependStep<T>(xs: seq<T>, x: T, r: Result<Parsed<seq<T>>, SyntaxError>)
    ensures Prepend(xs, Prepend([x], r)) == Prepend(xs + [x], r)
  {
    if r.Ok? {
      assert xs + ([x] + r.value.node) == (xs + [x]) + r.value.node;
    }
  }

  predicate IsValueLeaf(t: Tree) {
    t.kind == "Value" && t.value.Some? && t.children == []
  }

  predicate IsAssignment(t: Tree) {
    t.kind == "Assignment" && t.value.Some? && |t.children| == 1 && IsValueLeaf(t.children[0])
  }

  predicate IsVariable(t: Tree) {
    t.kind == "Variable" && t.value.Some? && t.children == []
  }

  /** One or more Variable leaves followed by exactly one Type leaf. */
  predicate IsVarDeclaration(t: Tree) {
    && t.kind == "VarDeclaration" && t.value == None
    && |t.children| >= 2
    && (forall k :: 0 <= k < |t.children| - 1 ==> IsVariable(t.children[k]))
    && var last := t.children[|t.children| - 1];
       last.kind == "Type" && last.value.Some? && last.children == []
  }

  /** An expression is exactly one NUMBER or IDENTIFIER token, giving a Value leaf. */
  function ExpressionAt(toks: seq<Token>, pos: nat): (r: Result<Parsed<Tree>, SyntaxError>)
    ensures r.Ok? <==> pos < |toks| && (toks[pos].kind == NUMBER || toks[pos].kind == IDENTIFIER)
    ensures r.Ok? ==> r.value == Parsed(Leaf("Value", toks[pos].value), pos + 1)
    ensures r.Err? ==> r.error == if pos < |toks| then InvalidExpression(toks[pos]) else EndOfInput
  {
    match TokenAt(toks, pos)
    case None => Err(EndOfInput)
    case Some(t) =>
      if t.kind == NUMBER || t.kind == IDENTIFIER then Ok(Parsed(Leaf("Value", t.value), pos + 1))
      else Err(InvalidExpression(t))
  }

  /** An assignment gives an Assignment node named after its target with the
      expression as its only child; `write(x);` gives a childless ProcedureCall. */
  function StatementAt(toks: seq<Token>, pos: nat): (r: Result<Parsed<Tree>, SyntaxError>)
    ensures r.Ok? ==> pos < r.value.next <= |toks|
    ensures r.Ok? && toks[pos].kind == IDENTIFIER ==>
              && r.value.next == pos + 4
              && IsAssignment(r.value.node) && r.value.node.value == Some(toks[pos].value)
              && r.value.node.children[0].value == Some(toks[pos + 2].value)
    ensures r.Ok? && toks[pos].kind != IDENTIFIER ==>
              && toks[pos].kind == KEYWORD && toks[pos].value == "write"
              && r.value.next == pos + 5
              && r.value.node == Leaf("ProcedureCall", "write(" + toks[pos + 2].value + ")")
  {
    match TokenAt(toks, pos)
    case None => Err(EndOfInput)
    case Some(t) =>
      // The first token of either statement is the current one, whose kind
      // has just been checked, so consuming it cannot fail.
      if t.kind == IDENTIFIER then
        var p2 :- Expect(toks, pos + 1, OPERATOR);
        var e :- ExpressionAt(toks, p2);
        var p4 :- Expect(toks, e.next, DELIMITER);
        Ok(Parsed(Tree("Assignment", Some(t.value), [e.node]), p4))
      else if t.kind == KEYWORD && t.value == "write" then
        var p2 :- Expect(toks, pos + 1, DELIMITER);
        var p3 :- Expect(toks, p2, IDENTIFIER);
        var p4 :- Expect(toks, p3, DELIMITER);
        var p5 :- Expect(toks, p4, DELIMITER);
        Ok(Parsed(Leaf("ProcedureCall", "write(" + toks[p2].value + ")"), p5))
      else Err(UnknownStatement(t))
  }

  /** The statement loop runs while the current token exists and is not a
      KEYWORD. It therefore stops at `end` or at the end of the tokens, and
      only ever builds Assignment nodes: a `write` stops it instead. */
  function StatementList(toks: seq<Token>, pos: nat): (r: Result<Parsed<seq<Tree>>, SyntaxError>)
    requires pos <= |toks|
    ensures r.Ok? ==> pos <= r.value.next <= |toks|
    ensures r.Ok? ==> r.value.next == |toks| || toks[r.value.next].kind == KEYWORD
    ensures r.Ok? ==> forall k :: 0 <= k < |r.value.node| ==> IsAssignment(r.value.node[k])
    decreases |toks| - pos
  {
    if pos < |toks| && toks[pos].kind != KEYWORD then
      var s :- StatementAt(toks, pos);
      Prepend([s.node], StatementList(toks, s.next))
    else Ok(Parsed([], pos))
  }

  function StatementsAt(toks: seq<Token>, pos: nat): (r: Result<Parsed<Tree>, SyntaxError>)
    requires pos <= |toks|
    ensures r.Ok? ==> r.value.node.kind == "Statements" && pos <= r.value.next <= |toks|
  {
    var l :- StatementList(toks, pos);
    Ok(Parsed(Tree("Statements", None, l.node), l.next))
  }

  /** The `Statements` node holds only Assignments, and the loop stops at a
      KEYWORD or at the end of the tokens. */
  lemma StatementsShape(toks: seq<Token>, pos: nat)
    requires pos <= |toks| && StatementsAt(toks, pos).Ok?
    ensures var p := StatementsAt(toks, pos).value;
            && p.node.value.None?
            && (p.next == |toks| || toks[p.next].kind == KEYWORD)
            && forall k :: 0 <= k < |p.node.children| ==> IsAssignment(p.node.children[k])
  {
  }

  /** A block is a KEYWORD, the statements, and a KEYWORD: which keywords is
      never checked. */
  function BlockAt(toks: seq<Token>, pos: nat): (r: Result<Parsed<Tree>, SyntaxError>)
    ensures r.Ok? ==> pos + 2 <= r.value.next <= |toks|
    ensures r.Ok? ==> toks[pos].kind == KEYWORD && toks[r.value.next - 1].kind == KEYWORD
    ensures r.Ok? ==> r.value.node.kind == "Block" && |r.value.node.children| == 1
                      && r.value.node.children[0].kind == "Statements"
  {
    var p1 :- Expect(toks, pos, KEYWORD);
    var s :- StatementsAt(toks, p1);
    var p2 :- Expect(toks, s.next, KEYWORD);
    Ok(Parsed(Tree("Block", None, [s.node]), p2))
  }

  /** The variables of one declaration, in order, with the commas between them. */
  function VarNames(toks: seq<Token>, pos: nat): (r: Result<Parsed<seq<Tree>>, SyntaxError>)
    ensures r.Ok? ==> pos <= r.value.next && (pos <= |toks| ==> r.value.next <= |toks|)
    ensures r.Ok? ==> (r.value.next == pos <==> r.value.node == [])
    ensures r.Ok? ==> forall k :: 0 <= k < |r.value.node| ==> IsVariable(r.value.node[k])
    ensures r.Ok? && KindAt(toks, pos, IDENTIFIER) ==> r.value.node != []
    decreases |toks| - pos
  {
    if pos < |toks| && toks[pos].kind == IDENTIFIER then
      var v := Leaf("Variable", toks[pos].value);
      if pos + 1 < |toks| && toks[pos + 1].value == "," then
        var p :- Expect(toks, pos + 1, DELIMITER);
        Prepend([v], VarNames(toks, p))
      else Prepend([v], VarNames(toks, pos + 1))
    else Ok(Parsed([], pos))
  }

  /** One `names : type ;` declaration; the parser enters it on an IDENTIFIER. */
  function DeclarationAt(toks: seq<Token>, pos: nat): (r: Result<Parsed<Tree>, SyntaxError>)
    requires KindAt(toks, pos, IDENTIFIER)
    ensures r.Ok? ==> pos + 3 < r.value.next <= |toks|
    ensures r.Ok? ==> IsVarDeclaration(r.value.node)
  {
    var names :- VarNames(toks, pos);
    var p1 :- Expect(toks, names.next, DELIMITER);
    var p2 :- Expect(toks, p1, KEYWORD);
    var p3 :- Expect(toks, p2, DELIMITER);
    Ok(Parsed(Tree("VarDeclaration", None, names.node + [Leaf("Type", toks[p1].value)]), p3))
  }

  /** The declaration loop runs while the current token is an IDENTIFIER. */
  function DeclarationList(toks: seq<Token>, pos: nat): (r: Result<Parsed<seq<Tree>>, SyntaxError>)
    ensures r.Ok? ==> pos <= r.value.next
    ensures r.Ok? ==> forall k :: 0 <= k < |r.value.node| ==> IsVarDeclaration(r.value.node[k])
    decreases |toks| - pos
  {
    if pos < |toks| && toks[pos].kind == IDENTIFIER then
      var d :- DeclarationAt(toks, pos);
      Prepend([d.node], DeclarationList(toks, d.next))
    else Ok(Parsed([], pos))
  }

  function VarsAt(toks: seq<Token>, pos: nat): (r: Result<Parsed<Tree>, SyntaxError>)
    ensures r.Ok? ==> pos < r.value.next
    ensures r.Ok? ==> r.value.node.kind == "Declarations"
                      && forall k :: 0 <= k < |r.value.node.children| ==> IsVarDeclaration(r.value.node.children[k])
  {
    var p1 :- Expect(toks, pos, KEYWORD);
    var ds :- DeclarationList(toks, p1);
    Ok(Parsed(Tree("Declarations", None, ds.node), ds.next))
  }

  /** The optional `var` section: entered when the current token's text is `var`. */
  function OptionalVarsAt(toks: seq<Token>, pos: nat): (r: Result<Parsed<seq<Tree>>, SyntaxError>)
    ensures r.Ok? ==> pos <= r.value.next
  {
    if pos < |toks| && toks[pos].value == "var" then
      var d :- VarsAt(toks, pos);
      Ok(Parsed([d.node], d.next))
    else Ok(Parsed([], pos))
  }

  /** `parse_program`: `program NAME ;`, optional declarations, a block, `.`. */
  function ProgramAt(toks: seq<Token>, pos: nat): (r: Result<Parsed<Tree>, SyntaxError>)
    ensures r.Ok? ==> pos < r.value.next <= |toks|
  {
    var p1 :- Expect(toks, pos, KEYWORD);
    var p2 :- Expect(toks, p1, IDENTIFIER);
    var p3 :- Expect(toks, p2, DELIMITER);
    ProgramBodyAt(toks, toks[p1].value, p3)
  }

  /** What follows the `program NAME ;` header: optional declarations, a
      block and the closing delimiter. */
  function ProgramBodyAt(toks: seq<Token>, name: string, pos: nat): (r: Result<Parsed<Tree>, SyntaxError>)
    ensures r.Ok? ==> pos < r.value.next
  {
    var decls :- OptionalVarsAt(toks, pos);
    var b :- BlockAt(toks, decls.next);
    var p5 :- Expect(toks, b.next, DELIMITER);
    Ok(Parsed(Tree("Program", Some(name), decls.node + [b.node]), p5))
  }

  /** The Program node takes the program name as its value, has a
      Declarations child exactly when the token after the header reads `var`,
      and ends with exactly one Block child. */
  lemma ProgramShape(toks: seq<Token>, pos: nat)
    requires ProgramAt(toks, pos).Ok?
    ensures var n := ProgramAt(toks, pos).value.node;
            && KindAt(toks, pos + 1, IDENTIFIER)
            && n.kind == "Program" && n.value == Some(toks[pos + 1].value)
            && (|n.children| == 1 || |n.children| == 2)
            && n.children[|n.children| - 1].kind == "Block"
            && (|n.children| == 2 <==> pos + 3 < |toks| && toks[pos + 3].value == "var")
            && (|n.children| == 2 ==> n.children[0].kind == "Declarations")
  {
  }

  /** A block is accepted exactly when a KEYWORD opens it, the statements
      after it parse and a KEYWORD follows them, whatever the two keywords
      read; the Block holds the Statements node and ends after the closing
      keyword. */
  lemma BlockAccepted(toks: seq<Token>, pos: nat)
    ensures BlockAt(toks, pos).Ok? <==>
              && KindAt(toks, pos, KEYWORD) && StatementsAt(toks, pos + 1).Ok?
              && KindAt(toks, StatementsAt(toks, pos + 1).value.next, KEYWORD)
    ensures BlockAt(toks, pos).Ok? ==>
              var s := StatementsAt(toks, pos + 1).value;
              BlockAt(toks, pos).value == Parsed(Tree("Block", None, [s.node]), s.next + 1)
  {
  }

  // ---------------------------------------------------------------------
  // Which token values the parser reads
  // ---------------------------------------------------------------------

  /** `other` holds the same tokens as `toks` from `lo` up to `hi`, and a
      token of the same kind at `hi` (or neither has a token there). */
  predicate SameUpTo(toks: seq<Token>, other: seq<Token>, lo: nat, hi: nat) {
    && |toks| == |other| && lo <= hi <= |toks|
    && (forall k :: lo <= k < hi ==> toks[k] == other[k])
    && (hi < |toks| ==> toks[hi].kind == other[hi].kind)
  }

  /** A statement reads no token after the ones it consumes. */
  lemma StatementSameUpTo(toks: seq<Token>, other: seq<Token>, pos: nat)
    requires StatementAt(toks, pos).Ok? && SameUpTo(toks, other, pos, StatementAt(toks, pos).value.next)
    ensures StatementAt(other, pos) == StatementAt(toks, pos)
  {
  }

  /** The statement loop reads the tokens it consumes and only the kind of
      the token it stops at. */
  lemma {:induction false} StatementListSameUpTo(toks: seq<Token>, other: seq<Token>, pos: nat)
    requires pos <= |toks| && StatementList(toks, pos).Ok?
    requires SameUpTo(toks, other, pos, StatementList(toks, pos).value.next)
    ensures StatementList(other, pos) == StatementList(toks, pos)
    decreases |toks| - pos
  {
    if pos < |toks| && toks[pos].kind != KEYWORD {
      var s := StatementAt(toks, pos).value;
      StatementSameUpTo(toks, other, pos);
      StatementListSameUpTo(toks, other, s.next);
    }
  }

  /** The variable list also looks at the token after the last one it takes. */
  lemma {:induction false} VarNamesSameUpTo(toks: seq<Token>, other: seq<Token>, pos: nat, hi: nat)
    requires VarNames(toks, pos).Ok? && SameUpTo(toks, other, pos, hi) && VarNames(toks, pos).value.next < hi
    ensures VarNames(other, pos) == VarNames(toks, pos)
    decreases |toks| - pos
  {
    if pos < |toks| && toks[pos].kind == IDENTIFIER {
      if pos + 1 < |toks| && toks[pos + 1].value == "," {
        VarNamesSameUpTo(toks, other, pos + 2, hi);
      } else {
        VarNamesSameUpTo(toks, other, pos + 1, hi);
      }
    }
  }

  lemma DeclarationSameUpTo(toks: seq<Token>, other: seq<Token>, pos: nat)
    requires KindAt(toks, pos, IDENTIFIER) && DeclarationAt(toks, pos).Ok?
    requires SameUpTo(toks, other, pos, DeclarationAt(toks, pos).value.next)
    ensures KindAt(other, pos, IDENTIFIER) && DeclarationAt(other, pos) == DeclarationAt(toks, pos)
  {
    VarNamesSameUpTo(toks, other, pos, DeclarationAt(toks, pos).value.next);
  }

  /** The declaration loop reads the tokens it consumes and only the kind of
      the token it stops at. */
  lemma {:induction false} DeclarationListSameUpTo(toks: seq<Token>, other: seq<Token>, pos: nat)
    requires DeclarationList(toks, pos).Ok? && SameUpTo(toks, other, pos, DeclarationList(toks, pos).value.next)
    ensures DeclarationList(other, pos) == DeclarationList(toks, pos)
    decreases |toks| - pos
  {
    if pos < |toks| && toks[pos].kind == IDENTIFIER {
      var d := DeclarationAt(toks, pos).value;
      DeclarationSameUpTo(toks, other, pos);
      DeclarationListSameUpTo(toks, other, d.next);
    }
  }

  /** The optional section reads the first token's value only to ask whether
      it is `var`. */
  lemma OptionalVarsSameUpTo(toks: seq<Token>, other: seq<Token>, pos: nat)
    requires OptionalVarsAt(toks, pos).Ok? && SameUpTo(toks, other, pos, OptionalVarsAt(toks, pos).value.next)
    requires pos < |toks| ==> (toks[pos].value == "var" <==> other[pos].value == "var")
    ensures OptionalVarsAt(other, pos) == OptionalVarsAt(toks, pos)
  {
    if pos < |toks| && toks[pos].value == "var" {
      DeclarationListSameUpTo(toks, other, pos + 1);
    }
  }

  /** A block reads the statements between its keywords and only the kinds
      of the two keywords. */
  lemma BlockSameUpTo(toks: seq<Token>, other: seq<Token>, pos: nat)
    requires BlockAt(toks, pos).Ok?
    requires SameUpTo(toks, other, pos + 1, BlockAt(toks, pos).value.next - 1)
    requires toks[pos].kind == other[pos].kind
    ensures BlockAt(other, pos) == BlockAt(toks, pos)
  {
    StatementListSameUpTo(toks, other, pos + 1);
  }

  /** Where the block of an accepted program begins: after the header and
      the optional declarations. */
  function BlockStart(toks: seq<Token>, pos: nat): (b: nat)
    requires ProgramAt(toks, pos).Ok?
    ensures pos + 3 <= b < ProgramAt(toks, pos).value.next - 2
  {
    OptionalVarsAt(toks, pos + 3).value.next
  }

  /** The part after the header reads the declarations, the statements of
      the block, and only the kinds of the block's keywords and of the final
      delimiter. */
  lemma ProgramBodySameUpTo(toks: seq<Token>, other: seq<Token>, name: string, pos: nat)
    requires ProgramBodyAt(toks, name, pos).Ok?
    requires var b, e := OptionalVarsAt(toks, pos).value.next, ProgramBodyAt(toks, name, pos).value.next - 2;
             && SameUpTo(toks, other, pos, b)
             && (pos < |toks| ==> (toks[pos].value == "var" <==> other[pos].value == "var"))
             && SameUpTo(toks, other, b + 1, e)
             && toks[e + 1].kind == other[e + 1].kind
    ensures ProgramBodyAt(other, name, pos) == ProgramBodyAt(toks, name, pos)
  {
    var b := OptionalVarsAt(toks, pos).value.next;
    OptionalVarsSameUpTo(toks, other, pos);
    BlockSameUpTo(toks, other, b);
  }

  /** Of the `program`, `begin` and `end` keywords and the final delimiter
      only the kinds are checked, and nothing after the final delimiter is
      read: a token list that agrees between those four places and has
      tokens of the same kinds in them gives the same tree. The one exception
      is a `begin` slot reading `var`, which opens a declarations section.
      `b` and `e` are where `begin` and `end` stand. */
  lemma ProgramKeywordsUnread(toks: seq<Token>, other: seq<Token>, pos: nat, b: nat, e: nat)
    requires ProgramAt(toks, pos).Ok?
    requires b == BlockStart(toks, pos) && e + 2 == ProgramAt(toks, pos).value.next
    requires |other| == |toks|
    requires forall k :: pos < k < b || b < k < e ==> other[k] == toks[k]
    requires other[pos].kind == KEYWORD && other[b].kind == KEYWORD
    requires other[e].kind == KEYWORD && other[e + 1].kind == DELIMITER
    requires other[b].value == "var" <==> toks[b].value == "var"
    ensures ProgramAt(other, pos) == ProgramAt(toks, pos)
  {
    ProgramParts(toks, pos, b, e);
    BodyKeywordsUnread(toks, other, pos, b, e);
    HeaderThenBody(toks, other, pos);
  }

  /** The same for the part after the header. */
  lemma BodyKeywordsUnread(toks: seq<Token>, other: seq<Token>, pos: nat, b: nat, e: nat)
    requires pos + 2 < |toks| && ProgramBodyAt(toks, toks[pos + 1].value, pos + 3).Ok?
    requires b == OptionalVarsAt(toks, pos + 3).value.next && e + 2 == ProgramBodyAt(toks, toks[pos + 1].value, pos + 3).value.next
    requires |other| == |toks| && e + 1 < |toks| && toks[b].kind == KEYWORD && toks[e].kind == KEYWORD && toks[e + 1].kind == DELIMITER
    requires forall k :: pos < k < b || b < k < e ==> other[k] == toks[k]
    requires other[b].kind == KEYWORD && other[e].kind == KEYWORD && other[e + 1].kind == DELIMITER
    requires other[b].value == "var" <==> toks[b].value == "var"
    ensures ProgramBodyAt(other, toks[pos + 1].value, pos + 3) == ProgramBodyAt(toks, toks[pos + 1].value, pos + 3)
  {
    assert SameUpTo(toks, other, pos + 3, b) && SameUpTo(toks, other, b + 1, e);
    ProgramBodySameUpTo(toks, other, toks[pos + 1].value, pos + 3);
  }

  /** A program reads its header, then what its body reads. */
  lemma HeaderThenBody(toks: seq<Token>, other: seq<Token>, pos: nat)
    requires KindAt(toks, pos, KEYWORD) && KindAt(toks, pos + 1, IDENTIFIER) && KindAt(toks, pos + 2, DELIMITER)
    requires KindAt(other, pos, KEYWORD) && KindAt(other, pos + 1, IDENTIFIER) && KindAt(other, pos + 2, DELIMITER)
    requires other[pos + 1] == toks[pos + 1]
    requires ProgramBodyAt(other, toks[pos + 1].value, pos + 3) == ProgramBodyAt(toks, toks[pos + 1].value, pos + 3)
    ensures ProgramAt(other, pos) == ProgramAt(toks, pos)
  {
    HeaderRead(toks, pos, toks[pos + 1].value);
    HeaderRead(other, pos, toks[pos + 1].value);
  }

  /** The pieces of an accepted program: the header, the body after it, and
      the kinds at the block's keywords and the final delimiter. */
  lemma ProgramParts(toks: seq<Token>, pos: nat, b: nat, e: nat)
    requires ProgramAt(toks, pos).Ok?
    requires b == BlockStart(toks, pos) && e + 2 == ProgramAt(toks, pos).value.next
    ensures KindAt(toks, pos, KEYWORD) && KindAt(toks, pos + 1, IDENTIFIER) && KindAt(toks, pos + 2, DELIMITER)
    ensures ProgramAt(toks, pos) == ProgramBodyAt(toks, toks[pos + 1].value, pos + 3)
    ensures ProgramBodyAt(toks, toks[pos + 1].value, pos + 3).Ok?
    ensures b == OptionalVarsAt(toks, pos + 3).value.next && e + 2 == ProgramBodyAt(toks, toks[pos + 1].value, pos + 3).value.next
    ensures e + 1 < |toks| && toks[b].kind == KEYWORD && toks[e].kind == KEYWORD && toks[e + 1].kind == DELIMITER
  {
  }

  /** Past a well-formed header the program is its body. */
  lemma HeaderRead(toks: seq<Token>, pos: nat, name: string)
    requires KindAt(toks, pos, KEYWORD) && KindAt(toks, pos + 1, IDENTIFIER) && KindAt(toks, pos + 2, DELIMITER)
    requires toks[pos + 1].value == name
    ensures ProgramAt(toks, pos) == ProgramBodyAt(toks, name, pos + 3)
  {
  }

  /** A method's result and final cursor agree with the grammar function. */
  predicate Agrees<T(==)>(r: Result<T, SyntaxError>, spec: Result<Parsed<T>, SyntaxError>, pos: nat) {
    match spec
    case Ok(p) => r == Ok(p.node) && pos == p.next
    case Err(e) => r == Err(e)
  }

  // ---------------------------------------------------------------------
  // The parser object
  // ---------------------------------------------------------------------

  class Parser {
    const tokens: seq<Token>
    var position: nat

    ghost predicate Valid()
      reads this
    {
      position <= |tokens|
    }

    constructor (tokens: seq<Token>)
      ensures Valid() && this.tokens == tokens && position == 0
    {
      this.tokens := tokens;
      position := 0;
    }

    /** The token under the cursor; None exactly when the cursor is past the end. */
    function CurrentToken(): (r: Option<Token>)
      reads this
      ensures r.None? <==> position >= |tokens|
      ensures r.Some? ==> r.value == tokens[position]
    {
      TokenAt(tokens, position)
    }

    /** Moves the cursor by one exactly when the current token has the kind
        asked for, returning that token; otherwise fails and leaves the cursor. */
    method Consume(kind: TokenKind) returns (r: Result<Token, SyntaxError>)
      requires Valid()
      modifies this
      ensures Valid()
      ensures r.Ok? <==> old(position) < |tokens| && tokens[old(position)].kind == kind
      ensures r.Ok? ==> r.value == tokens[old(position)] && position == old(position) + 1
      ensures r.Err? ==> position == old(position) && r.error == Expected(kind, old(CurrentToken()))
    {
      var token := CurrentToken();
      if token.Some? && token.value.kind == kind {
        position := position + 1;
        return Ok(token.value);
      }
      return Err(Expected(kind, token));
    }

    method ParseProgram() returns (r: Result<Tree, SyntaxError>)
      requires Valid()
      modifies this
      ensures Valid() && Agrees(r, ProgramAt(tokens, old(position)), position)
    {
      var node := new ASTNode("Program", None);
      var t := Consume(KEYWORD);
      if t.Err? { return Err(t.error); }
      var name := Consume(IDENTIFIER);
      if name.Err? { return Err(name.error); }
      node.value := Some(name.value.value);
      t := Consume(DELIMITER);
      if t.Err? { return Err(t.error); }
      ghost var header := position;
      assert ProgramAt(tokens, old(position)) == ProgramBodyAt(tokens, name.value.value, header);
      if CurrentToken().Some? && CurrentToken().value.value == "var" {
        var vars := ParseVars();
        if vars.Err? { return Err(vars.error); }
        node.AddChild(vars.value);
        assert node.children == [vars.value];
      }
      ghost var declarations := node.children;
      assert OptionalVarsAt(tokens, header) == Ok(Parsed(declarations, position));
      var block := ParseBlock();
      if block.Err? { return Err(block.error); }
      node.AddChild(block.value);
      assert node.children == declarations + [block.value];
      t := Consume(DELIMITER);
      if t.Err? { return Err(t.error); }
      return Ok(node.Freeze());
    }

    method ParseVars() returns (r: Result<Tree, SyntaxError>)
      requires Valid()
      modifies this
      ensures Valid() && Agrees(r, VarsAt(tokens, old(position)), position)
    {
      var node := new ASTNode("Declarations", None);
      var t := Consume(KEYWORD);
      if t.Err? { return Err(t.error); }
      ghost var start := position;
      PrependNothing(DeclarationList(tokens, start));
      while CurrentToken().Some? && CurrentToken().value.kind == IDENTIFIER
        invariant Valid() && node.kind == "Declarations" && node.value == None
        invariant DeclarationList(tokens, start) == Prepend(node.children, DeclarationList(tokens, position))
        decreases |tokens| - position
      {
        var declaration := ParseDeclaration();
        if declaration.Err? { return Err(declaration.error); }
        PrependStep(node.children, declaration.value, DeclarationList(tokens, position));
        node.AddChild(declaration.value);
      }
      assert node.children + [] == node.children;
      return Ok(node.Freeze());
    }

    /** The body of the declaration loop: one `names : type ;` group. */
    method ParseDeclaration() returns (r: Result<Tree, SyntaxError>)
      requires Valid() && KindAt(tokens, position, IDENTIFIER)
      modifies this
      ensures Valid() && Agrees(r, DeclarationAt(tokens, old(position)), position)
    {
      var node := new ASTNode("VarDeclaration", None);
      ghost var start := position;
      PrependNothing(VarNames(tokens, start));
      while CurrentToken().Some? && CurrentToken().value.kind == IDENTIFIER
        invariant Valid() && node.kind == "VarDeclaration" && node.value == None
        invariant VarNames(tokens, start) == Prepend(node.children, VarNames(tokens, position))
        decreases |tokens| - position
      {
        ghost var before := position;
        var name := Consume(IDENTIFIER);  // the current token: cannot fail
        var variable := Leaf("Variable", name.value.value);
        if CurrentToken().Some? && CurrentToken().value.value == "," {
          var comma := Consume(DELIMITER);
          if comma.Err? { return Err(comma.error); }
        }
        assert VarNames(tokens, before) == Prepend([variable], VarNames(tokens, position));
        PrependStep(node.children, variable, VarNames(tokens, position));
        node.AddChild(variable);
      }
      assert node.children + [] == node.children;
      var t := Consume(DELIMITER);
      if t.Err? { return Err(t.error); }
      var typ := Consume(KEYWORD);
      if typ.Err? { return Err(typ.error); }
      node.AddChild(Leaf("Type", typ.value.value));
      t := Consume(DELIMITER);
      if t.Err? { return Err(t.error); }
      return Ok(node.Freeze());
    }

    method ParseBlock() returns (r: Result<Tree, SyntaxError>)
      requires Valid()
      modifies this
      ensures Valid() && Agrees(r, BlockAt(tokens, old(position)), position)
    {
      var node := new ASTNode("Block", None);
      var t := Consume(KEYWORD);
      if t.Err? { return Err(t.error); }
      var statements := ParseStatements();
      if statements.Err? { return Err(statements.error); }
      node.AddChild(statements.value);
      assert node.children == [statements.value];
      t := Consume(KEYWORD);
      if t.Err? { return Err(t.error); }
      return Ok(node.Freeze());
    }

    method ParseStatements() returns (r: Result<Tree, SyntaxError>)
      requires Valid()
      modifies this
      ensures Valid() && Agrees(r, StatementsAt(tokens, old(position)), position)
    {
      var node := new ASTNode("Statements", None);
      ghost var start := position;
      PrependNothing(StatementList(tokens, start));
      while CurrentToken().Some? && CurrentToken().value.kind != KEYWORD
        invariant Valid() && node.kind == "Statements" && node.value == None
        invariant StatementList(tokens, start) == Prepend(node.children, StatementList(tokens, position))
        decreases |tokens| - position
      {
        var statement := ParseStatement();
        if statement.Err? { return Err(statement.error); }
        PrependStep(node.children, statement.value, StatementList(tokens, position));
        node.AddChild(statement.value);
      }
      assert node.children + [] == node.children;
      return Ok(node.Freeze());
    }

    method ParseStatement() returns (r: Result<Tree, SyntaxError>)
      requires Valid()
      modifies this
      ensures Valid() && Agrees(r, StatementAt(tokens, old(position)), position)
    {
      var token := CurrentToken();
      if token.None? { return Err(EndOfInput); }
      if token.value.kind == IDENTIFIER {
        var name := Consume(IDENTIFIER);  // the current token: cannot fail
        var t := Consume(OPERATOR);
        if t.Err? { return Err(t.error); }
        var expression := ParseExpression();
        if expression.Err? { return Err(expression.error); }
        t := Consume(DELIMITER);
        if t.Err? { return Err(t.error); }
        var node := new ASTNode("Assignment", Some(name.value.value));
        node.AddChild(expression.value);
        assert node.children == [expression.value];
        return Ok(node.Freeze());
      } else if token.value.kind == KEYWORD && token.value.value == "write" {
        var _ := Consume(KEYWORD);  // the current token: cannot fail
        var t := Consume(DELIMITER);
        if t.Err? { return Err(t.error); }
        var argument := Consume(IDENTIFIER);
        if argument.Err? { return Err(argument.error); }
        t := Consume(DELIMITER);
        if t.Err? { return Err(t.error); }
        t := Consume(DELIMITER);
        if t.Err? { return Err(t.error); }
        var node := new ASTNode("ProcedureCall", Some("write(" + argument.value.value + ")"));
        return Ok(node.Freeze());
      } else {
        return Err(UnknownStatement(token.value));
      }
    }

    method ParseExpression() returns (r: Result<Tree, SyntaxError>)
      requires Valid()
      modifies this
      ensures Valid() && Agrees(r, ExpressionAt(tokens, old(position)), position)
    {
      var token := CurrentToken();
      if token.None? { return Err(EndOfInput); }
      if token.value.kind == NUMBER {
        var number := Consume(NUMBER);  // the current token: cannot fail
        var node := new ASTNode("Value", Some(number.value.value));
        return Ok(node.Freeze());
      } else if token.value.kind == IDENTIFIER {
        var name := Consume(IDENTIFIER);  // the current token: cannot fail
        var node := new ASTNode("Value", Some(name.value.value));
        return Ok(node.Freeze());
      } else {
        return Err(InvalidExpression(token.value));
      }
    }
  }

  // ---------------------------------------------------------------------
  // Properties of the trees built
  // ---------------------------------------------------------------------

  /** The values of the IDENTIFIER tokens of `ts`, in order. */
  function IdentifierValues(ts: seq<Token>): (vs: seq<string>)
    ensures |vs| <= |ts|
  {
    if ts == [] then []
    else (if ts[0].kind == IDENTIFIER then [ts[0].value] else []) + IdentifierValues(ts[1..])
  }

  /** The Variable leaves of a declaration are the identifiers it spans, in
      source order, and the only other tokens it spans are `,` delimiters. */
  lemma {:induction false} VarNamesInOrder(toks: seq<Token>, pos: nat)
    requires pos <= |toks| && VarNames(toks, pos).Ok?
    ensures var p := VarNames(toks, pos).value;
            && (forall j :: pos <= j < p.next ==>
                  toks[j].kind == IDENTIFIER || (toks[j].kind == DELIMITER && toks[j].value == ","))
            && var ids := IdentifierValues(toks[pos..p.next]);
               |p.node| == |ids| && forall k :: 0 <= k < |ids| ==> p.node[k] == Leaf("Variable", ids[k])
    decreases |toks| - pos
  {
    if pos < |toks| && toks[pos].kind == IDENTIFIER {
      var comma := pos + 1 < |toks| && toks[pos + 1].value == ",";
      var q := if comma then pos + 2 else pos + 1;
      assert VarNames(toks, q).Ok?;
      VarNamesInOrder(toks, q);
      var p := VarNames(toks, pos).value;
      var rest := VarNames(toks, q).value;
      assert p.node == [Leaf("Variable", toks[pos].value)] + rest.node && p.next == rest.next;
      assert comma ==> toks[pos + 1].kind == DELIMITER;
      SkipSeparator(toks, pos, q, p.next);
      var ids := IdentifierValues(toks[pos..p.next]);
      var restIds := IdentifierValues(toks[q..p.next]);
      forall k | 0 <= k < |ids|
        ensures p.node[k] == Leaf("Variable", ids[k])
      {
        if k > 0 {
          assert p.node[k] == rest.node[k - 1] && ids[k] == restIds[k - 1];
        }
      }
    }
  }

  /** The identifiers from a variable name on are that name and those after
      the separator that follows it. */
  lemma SkipSeparator(toks: seq<Token>, pos: nat, q: nat, end: nat)
    requires pos < q <= end <= |toks| && q <= pos + 2 && toks[pos].kind == IDENTIFIER
    requires q == pos + 2 ==> toks[pos + 1].kind == DELIMITER
    ensures IdentifierValues(toks[pos..end]) == [toks[pos].value] + IdentifierValues(toks[q..end])
  {
    assert toks[pos..end][1..] == toks[pos + 1..end];
    if q == pos + 2 {
      assert toks[pos + 1..end][1..] == toks[q..end];
    }
  }

  /** `begin` and `end` are not checked: a block opened by `while` and closed
      by `do` gives the same tree. */
  lemma AnyKeywordsDelimitTheBlock()
    ensures var toks := [
              Token(KEYWORD, "program", 7), Token(IDENTIFIER, "P", 9), Token(DELIMITER, ";", 9),
              Token(KEYWORD, "while", 15), Token(IDENTIFIER, "x", 17), Token(OPERATOR, ":=", 18),
              Token(NUMBER, "1", 22), Token(DELIMITER, ";", 22), Token(KEYWORD, "do", 25),
              Token(DELIMITER, ".", 25)];
            ProgramAt(toks, 0) == Ok(Parsed(
              Tree("Program", Some("P"), [
                Tree("Block", None, [
                  Tree("Statements", None, [
                    Tree("Assignment", Some("x"), [Leaf("Value", "1")])])])]),
              10))
  {
    var toks := [
      Token(KEYWORD, "program", 7), Token(IDENTIFIER, "P", 9), Token(DELIMITER, ";", 9),
      Token(KEYWORD, "while", 15), Token(IDENTIFIER, "x", 17), Token(OPERATOR, ":=", 18),
      Token(NUMBER, "1", 22), Token(DELIMITER, ";", 22), Token(KEYWORD, "do", 25),
      Token(DELIMITER, ".", 25)];
    var assignment := Tree("Assignment", Some("x"), [Leaf("Value", "1")]);
    assert StatementAt(toks, 4) == Ok(Parsed(assignment, 8));
    assert StatementList(toks, 8) == Ok(Parsed([], 8));
    assert [assignment] + [] == [assignment];
    assert StatementList(toks, 4) == Ok(Parsed([assignment], 8));
    assert BlockAt(toks, 3) == Ok(Parsed(Tree("Block", None, [Tree("Statements", None, [assignment])]), 9));
    assert OptionalVarsAt(toks, 3) == Ok(Parsed([], 3));
    var block := Tree("Block", None, [Tree("Statements", None, [assignment])]);
    assert [] + [block] == [block];
  }
}
