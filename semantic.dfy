/** The semantic analyser: it fills the symbol table from the Declarations
    node, giving each variable the next address, and type-checks assignments
    and binary operations. */
module SemanticAnalyzer {
  import opened Wrappers
  import opened Ast

  /** The reasons the analyser raises. `MissingChild` stands for the
      IndexError of reading a child a node does not have. */
  datatype SemanticError =
    | NotDeclared(name: string)
    | TypeNotDeclared(pending: seq<string>)
    | AssignmentTypeError(given: string, declared: string, target: string)
    | OperandTypeError(operator: string)
    | BinaryTypeError(left: string, right: string)
    | UnsupportedNode(kind: string)
    | UnknownNode(kind: string)
    | MissingChild(parent: string)

  // ---------------------------------------------------------------------
  // Types of expressions
  // ---------------------------------------------------------------------

  /** `get_node_type`: a Number is an integer, a Variable has its declared
      type, and a binary operation is an integer when both operands are. */
  function TypeOf(table: SymbolTable, n: Node): (r: Result<string, SemanticError>)
    ensures r.Ok? ==> r.value == "integer" || (n.kind == "Variable" && n.value in table && r.value == table[n.value].typ)
    ensures r.Ok? && n.kind == "Variable" ==> n.value in table && r.value == table[n.value].typ
    decreases n
  {
    if n.kind == "Number" then Ok("integer")
    else if n.kind == "Variable" then
      if n.value in table then Ok(table[n.value].typ) else Err(NotDeclared(n.value))
    else if n.kind == "BinaryOperation" then
      if |n.children| == 0 then Err(MissingChild(n.kind))
      else
        var left :- TypeOf(table, n.children[0]);
        if |n.children| == 1 then Err(MissingChild(n.kind))
        else
          var right :- TypeOf(table, n.children[1]);
          if left == "integer" && right == "integer" then Ok("integer")
          else Err(BinaryTypeError(left, right))
    else Err(UnsupportedNode(n.kind))
  }

  /** An integer expression: Numbers, integer Variables, and binary
      operations whose first two children are integer expressions. */
  predicate IntegerExpr(table: SymbolTable, n: Node)
    decreases n
  {
    || n.kind == "Number"
    || (n.kind == "Variable" && n.value in table && table[n.value].typ == "integer")
    || (&& n.kind == "BinaryOperation" && |n.children| >= 2
        && IntegerExpr(table, n.children[0]) && IntegerExpr(table, n.children[1]))
  }

  /** `get_node_type` calls an expression an integer exactly when it is one. */
  lemma {:induction false} TypeOfInteger(table: SymbolTable, n: Node)
    ensures TypeOf(table, n) == Ok("integer") <==> IntegerExpr(table, n)
    decreases n
  {
    if n.kind == "BinaryOperation" && |n.children| >= 2 {
      TypeOfInteger(table, n.children[0]);
      TypeOfInteger(table, n.children[1]);
    }
  }

  // ---------------------------------------------------------------------
  // Declarations
  // ---------------------------------------------------------------------

  /** The symbol table and the next free address. */
  datatype Declared = Declared(symbols: SymbolTable, next: nat)

  /** Gives each of `names`, in order, the type `typ` and the next address. */
  function Bind(table: SymbolTable, names: seq<string>, typ: string, adr: nat): SymbolTable
    decreases |names|
  {
    if names == [] then table
    else Bind(table[names[0] := Entry(typ, adr)], names[1..], typ, adr + 1)
  }

  /** One VarDeclaration: Variables are collected until a Type binds them all.
      Variables after the last Type are dropped; any other child raises. */
  function DeclareGroup(table: SymbolTable, children: seq<Node>, pending: seq<string>, adr: nat): Result<Declared, SemanticError>
    decreases |children|
  {
    if children == [] then Ok(Declared(table, adr))
    else
      var c := children[0];
      if c.kind == "Variable" then DeclareGroup(table, children[1..], pending + [c.value], adr)
      else if c.kind == "Type" then DeclareGroup(Bind(table, pending, c.value, adr), children[1..], [], adr + |pending|)
      else Err(TypeNotDeclared(pending))
  }

  /** The declarations of one Declarations node, sharing one address counter. */
  function DeclareGroups(table: SymbolTable, decls: seq<Node>, adr: nat): Result<Declared, SemanticError>
    decreases |decls|
  {
    if decls == [] then Ok(Declared(table, adr))
    else
      var d :- DeclareGroup(table, decls[0].children, [], adr);
      DeclareGroups(d.symbols, decls[1..], d.next)
  }

  // ---------------------------------------------------------------------
  // The walk
  // ---------------------------------------------------------------------

  predicate IsContainer(kind: string) {
    kind == "Program" || kind == "Block" || kind == "Statements"
  }

  /** `evaluate`: the symbol table after analysing `n`, or the error raised. */
  function Analyse(table: SymbolTable, n: Node): (r: Result<SymbolTable, SemanticError>)
    decreases n, 1, 0
  {
    if n.kind == "ProgramName" then Ok(table)
    else if IsContainer(n.kind) then AnalyseFrom(table, n, 0)
    else if n.kind == "Declarations" then
      var d :- DeclareGroups(table, n.children, 0);
      Ok(d.symbols)
    else if n.kind == "Assignment" then
      if n.value !in table then Err(NotDeclared(n.value))
      else if |n.children| == 0 then Err(MissingChild(n.kind))
      else
        var given :- TypeOf(table, n.children[0]);
        if table[n.value].typ != given then Err(AssignmentTypeError(given, table[n.value].typ, n.value))
        else Ok(table)
    else if n.kind == "BinaryOperation" then
      if |n.children| == 0 then Err(MissingChild(n.kind))
      else
        var left :- TypeOf(table, n.children[0]);
        if |n.children| == 1 then Err(MissingChild(n.kind))
        else
          var right :- TypeOf(table, n.children[1]);
          if left != "integer" || right != "integer" then Err(OperandTypeError(n.value)) else Ok(table)
    else if n.kind == "Number" || n.kind == "Write" then Ok(table)
    else if n.kind == "Variable" then
      if n.value in table then Ok(table) else Err(NotDeclared(n.value))
    else Err(UnknownNode(n.kind))
  }

  /** The children of `n` from the `i`-th on, in order. */
  function AnalyseFrom(table: SymbolTable, n: Node, i: nat): (r: Result<SymbolTable, SemanticError>)
    requires i <= |n.children|
    decreases n, 0, |n.children| - i
  {
    if i == |n.children| then Ok(table)
    else
      var t :- Analyse(table, n.children[i]);
      AnalyseFrom(t, n, i + 1)
  }

  /** What `evaluate` returns: the type of a Number or Variable, else None. */
  function Returned(table: SymbolTable, n: Node): Option<string> {
    if n.kind == "Number" then Some("integer")
    else if n.kind == "Variable" && n.value in table then Some(table[n.value].typ)
    else None
  }

  // ---------------------------------------------------------------------
  // What the walk checks
  // ---------------------------------------------------------------------

  /** An assignment passes, leaving the table as it was, exactly when its
      target is declared, it has a right-hand side, and that side has the
      target's declared type. */
  lemma AssignmentChecked(table: SymbolTable, target: string, cs: seq<Node>)
    ensures Analyse(table, Node("Assignment", target, cs)).Ok?
            <==> target in table && |cs| > 0 && TypeOf(table, cs[0]) == Ok(table[target].typ)
    ensures Analyse(table, Node("Assignment", target, cs)).Ok? ==> Analyse(table, Node("Assignment", target, cs)).value == table
  {
  }

  /** The reasons an assignment raises, in the order the analyser meets them:
      an undeclared target, a missing right-hand side, a right-hand side whose
      type cannot be found, and a type other than the declared one. */
  lemma AssignmentRaises(table: SymbolTable, target: string, cs: seq<Node>)
    ensures target !in table ==> Analyse(table, Node("Assignment", target, cs)) == Err(NotDeclared(target))
    ensures target in table && |cs| == 0 ==> Analyse(table, Node("Assignment", target, cs)) == Err(MissingChild("Assignment"))
    ensures target in table && |cs| > 0 && TypeOf(table, cs[0]).Err?
            ==> Analyse(table, Node("Assignment", target, cs)) == Err(TypeOf(table, cs[0]).error)
    ensures target in table && |cs| > 0 && TypeOf(table, cs[0]).Ok? && TypeOf(table, cs[0]).value != table[target].typ
            ==> Analyse(table, Node("Assignment", target, cs))
                == Err(AssignmentTypeError(TypeOf(table, cs[0]).value, table[target].typ, target))
  {
  }

  /** An assignment to an integer variable passes exactly when its right-hand
      side is an integer expression. */
  lemma IntegerAssignment(table: SymbolTable, target: string, cs: seq<Node>)
    requires target in table && table[target].typ == "integer" && |cs| > 0
    ensures Analyse(table, Node("Assignment", target, cs)) == Ok(table) <==> IntegerExpr(table, cs[0])
  {
    TypeOfInteger(table, cs[0]);
  }

  /** `get_node_type` has no case for a String, so assigning a string
      literal raises, whatever the target's declared type. */
  lemma StringLiteralAssignmentRaises(table: SymbolTable, target: string, s: string, cs: seq<Node>)
    requires target in table
    ensures Analyse(table, Node("Assignment", target, [Node("String", s, cs)])) == Err(UnsupportedNode("String"))
  {
  }

  /** The node kinds `evaluate` knows. */
  predicate KnownKind(kind: string) {
    || kind == "ProgramName" || IsContainer(kind) || kind == "Declarations" || kind == "Assignment"
    || kind == "BinaryOperation" || kind == "Number" || kind == "Variable" || kind == "Write"
  }

  /** Any other node kind raises. */
  lemma UnknownKindRaises(table: SymbolTable, n: Node)
    requires !KnownKind(n.kind)
    ensures Analyse(table, n) == Err(UnknownNode(n.kind))
  {
  }

  /** A Number, a Write, a program name and a declared Variable pass and
      leave the table unchanged; an undeclared Variable raises. */
  lemma LeavesKeepTable(table: SymbolTable, n: Node)
    requires n.kind == "Number" || n.kind == "Write" || n.kind == "ProgramName" || n.kind == "Variable"
    ensures n.kind != "Variable" || n.value in table ==> Analyse(table, n) == Ok(table)
    ensures n.kind == "Variable" && n.value !in table ==> Analyse(table, n) == Err(NotDeclared(n.value))
  {
  }

  /** No Declarations node anywhere in the tree. */
  predicate DeclarationFree(n: Node)
    decreases n
  {
    n.kind != "Declarations" && forall i :: 0 <= i < |n.children| ==> DeclarationFree(n.children[i])
  }

  /** Only a Declarations node changes the symbol table: a tree without one
      that passes leaves the table as it found it. */
  lemma {:induction false} DeclarationFreeKeepsTable(table: SymbolTable, n: Node)
    requires DeclarationFree(n)
    ensures Analyse(table, n).Ok? ==> Analyse(table, n).value == table
    decreases n, 1
  {
    if IsContainer(n.kind) {
      ChildrenKeepTable(table, n, 0);
    }
  }

  lemma {:induction false} ChildrenKeepTable(table: SymbolTable, n: Node, i: nat)
    requires i <= |n.children| && DeclarationFree(n)
    ensures AnalyseFrom(table, n, i).Ok? ==> AnalyseFrom(table, n, i).value == table
    decreases n, 0, |n.children| - i
  {
    if i < |n.children| {
      DeclarationFreeKeepsTable(table, n.children[i]);
      if Analyse(table, n.children[i]).Ok? {
        ChildrenKeepTable(table, n, i + 1);
      }
    }
  }

  // ---------------------------------------------------------------------
  // The analyser object
  // ---------------------------------------------------------------------

  class SemanticAnalyser {
    var symbolTable: SymbolTable

    constructor ()
      ensures symbolTable == map[]
    {
      symbolTable := map[];
    }

    method Evaluate(node: Node) returns (r: Result<Option<string>, SemanticError>)
      modifies this
      ensures Analyse(old(symbolTable), node).Ok? <==> r.Ok?
      ensures r.Ok? ==> symbolTable == Analyse(old(symbolTable), node).value
                        && r.value == Returned(old(symbolTable), node)
      ensures r.Err? ==> r.error == Analyse(old(symbolTable), node).error
      decreases node
    {
      if node.kind == "ProgramName" {
        return Ok(None);
      } else if IsContainer(node.kind) {
        ghost var initial := symbolTable;
        for i := 0 to |node.children|
          invariant Analyse(initial, node) == AnalyseFrom(symbolTable, node, i)
        {
          var c := Evaluate(node.children[i]);
          if c.Err? { return Err(c.error); }
        }
        return Ok(None);
      } else if node.kind == "Declarations" {
        var d := Declare(node.children);
        if d.Fail? { return Err(d.error); }
        return Ok(None);
      } else if node.kind == "Assignment" {
        if node.value !in symbolTable { return Err(NotDeclared(node.value)); }
        var expected := symbolTable[node.value].typ;
        if |node.children| == 0 { return Err(MissingChild(node.kind)); }
        var given := TypeOf(symbolTable, node.children[0]);
        if given.Err? { return Err(given.error); }
        if expected != given.value {
          return Err(AssignmentTypeError(given.value, expected, node.value));
        }
        return Ok(None);
      } else if node.kind == "BinaryOperation" {
        if |node.children| == 0 { return Err(MissingChild(node.kind)); }
        var left := TypeOf(symbolTable, node.children[0]);
        if left.Err? { return Err(left.error); }
        if |node.children| == 1 { return Err(MissingChild(node.kind)); }
        var right := TypeOf(symbolTable, node.children[1]);
        if right.Err? { return Err(right.error); }
        if left.value != "integer" || right.value != "integer" {
          return Err(OperandTypeError(node.value));
        }
        return Ok(None);
      } else if node.kind == "Number" {
        return Ok(Some("integer"));
      } else if node.kind == "Variable" {
        if node.value !in symbolTable { return Err(NotDeclared(node.value)); }
        return Ok(Some(symbolTable[node.value].typ));
      } else if node.kind == "Write" {
        return Ok(None);
      } else {
        return Err(UnknownNode(node.kind));
      }
    }

    /** The Declarations branch of `evaluate`: one address counter for the
        whole node, a list of pending variables per declaration. */
    method Declare(decls: seq<Node>) returns (r: Outcome<SemanticError>)
      modifies this
      ensures match DeclareGroups(old(symbolTable), decls, 0)
              case Ok(d) => r.Pass? && symbolTable == d.symbols
              case Err(e) => r == Fail(e)
    {
      ghost var initial := symbolTable;
      var adr := 0;
      for i := 0 to |decls|
        invariant DeclareGroups(initial, decls, 0) == DeclareGroups(symbolTable, decls[i..], adr)
      {
        assert decls[i..][0] == decls[i] && decls[i..][1..] == decls[i + 1..];
        var declaration := decls[i];
        ghost var groupTable, groupStart := symbolTable, adr;
        var varType: Option<string> := None;
        var varList: seq<string> := [];
        for j := 0 to |declaration.children|
          invariant varType.None?
          invariant DeclareGroup(groupTable, declaration.children, [], groupStart)
                    == DeclareGroup(symbolTable, declaration.children[j..], varList, adr)
        {
          var child := declaration.children[j];
          assert declaration.children[j..][0] == child && declaration.children[j..][1..] == declaration.children[j + 1..];
          if child.kind == "Variable" {
            varList := varList + [child.value];
          } else if child.kind == "Type" {
            varType := Some(child.value);
            ghost var bindTable, bindStart := symbolTable, adr;
            for k := 0 to |varList|
              invariant adr == bindStart + k
              invariant Bind(bindTable, varList, child.value, bindStart) == Bind(symbolTable, varList[k..], child.value, adr)
            {
              assert varList[k..][0] == varList[k] && varList[k..][1..] == varList[k + 1..];
              symbolTable := symbolTable[varList[k] := Entry(varType.value, adr)];
              adr := adr + 1;
            }
            varList := [];
            varType := None;
          } else if varType.None? {
            return Fail(TypeNotDeclared(varList));
          }
        }
      }
      return Pass;
    }
  }

  // ---------------------------------------------------------------------
  // What the declarations mean
  // ---------------------------------------------------------------------

  /** A variable together with the type written after it. */
  datatype Binding = Binding(name: string, typ: string)

  predicate DeclarationChild(c: Node) {
    c.kind == "Variable" || c.kind == "Type"
  }

  predicate WellFormedGroups(decls: seq<Node>) {
    forall i, j :: 0 <= i < |decls| && 0 <= j < |decls[i].children| ==> DeclarationChild(decls[i].children[j])
  }

  function BindingsOf(names: seq<string>, typ: string): (bs: seq<Binding>)
    ensures |bs| == |names| && forall k :: 0 <= k < |names| ==> bs[k] == Binding(names[k], typ)
  {
    if names == [] then [] else [Binding(names[0], typ)] + BindingsOf(names[1..], typ)
  }

  /** The variables of one declaration paired with their types, in source order. */
  function GroupBindings(children: seq<Node>, pending: seq<string>): seq<Binding>
    decreases |children|
  {
    if children == [] then []
    else if children[0].kind == "Variable" then GroupBindings(children[1..], pending + [children[0].value])
    else BindingsOf(pending, children[0].value) + GroupBindings(children[1..], [])
  }

  /** The variables of every declaration paired with their types, in source order. */
  function Bindings(decls: seq<Node>): seq<Binding>
  {
    if decls == [] then [] else GroupBindings(decls[0].children, []) + Bindings(decls[1..])
  }

  /** Writes the bindings into the table one after the other, the k-th at address `adr + k`. */
  function BindAll(table: SymbolTable, bs: seq<Binding>, adr: nat): SymbolTable
    decreases |bs|
  {
    if bs == [] then table
    else BindAll(table[bs[0].name := Entry(bs[0].typ, adr)], bs[1..], adr + 1)
  }

  lemma {:induction false} BindIsBindAll(table: SymbolTable, names: seq<string>, typ: string, adr: nat)
    ensures Bind(table, names, typ, adr) == BindAll(table, BindingsOf(names, typ), adr)
    decreases |names|
  {
    if names != [] {
      assert BindingsOf(names, typ)[1..] == BindingsOf(names[1..], typ);
      BindIsBindAll(table[names[0] := Entry(typ, adr)], names[1..], typ, adr + 1);
    }
  }

  lemma {:induction false} BindAllAppend(table: SymbolTable, xs: seq<Binding>, ys: seq<Binding>, adr: nat)
    ensures BindAll(table, xs + ys, adr) == BindAll(BindAll(table, xs, adr), ys, adr + |xs|)
    decreases |xs|
  {
    if xs != [] {
      assert (xs + ys)[0] == xs[0] && (xs + ys)[1..] == xs[1..] + ys;
      BindAllAppend(table[xs[0].name := Entry(xs[0].typ, adr)], xs[1..], ys, adr + 1);
    } else {
      assert xs + ys == ys;
    }
  }

  lemma {:induction false} DeclareGroupBinds(table: SymbolTable, children: seq<Node>, pending: seq<string>, adr: nat)
    requires forall j :: 0 <= j < |children| ==> DeclarationChild(children[j])
    ensures var bs := GroupBindings(children, pending);
            DeclareGroup(table, children, pending, adr).Ok?
            && DeclareGroup(table, children, pending, adr).value.symbols == BindAll(table, bs, adr)
            && DeclareGroup(table, children, pending, adr).value.next == adr + |bs|
    decreases |children|
  {
    if children != [] {
      var c := children[0];
      assert DeclarationChild(c);
      if c.kind == "Variable" {
        DeclareGroupBinds(table, children[1..], pending + [c.value], adr);
      } else {
        var bound := BindingsOf(pending, c.value);
        BindIsBindAll(table, pending, c.value, adr);
        DeclareGroupBinds(Bind(table, pending, c.value, adr), children[1..], [], adr + |pending|);
        BindAllAppend(table, bound, GroupBindings(children[1..], []), adr);
      }
    }
  }

  /** On declarations made only of Variables and Types, the analyser binds
      exactly the variables that are followed by a Type, in source order, the
      k-th at address `adr + k`. */
  lemma {:induction false} DeclareGroupsBinds(table: SymbolTable, decls: seq<Node>, adr: nat)
    requires WellFormedGroups(decls)
    ensures var bs := Bindings(decls);
            DeclareGroups(table, decls, adr) == Ok(Declared(BindAll(table, bs, adr), adr + |bs|))
    decreases |decls|
  {
    if decls != [] {
      DeclareGroupBinds(table, decls[0].children, [], adr);
      var first := GroupBindings(decls[0].children, []);
      var d := DeclareGroup(table, decls[0].children, [], adr).value;
      assert WellFormedGroups(decls[1..]) by {
        forall i, j | 0 <= i < |decls[1..]| && 0 <= j < |decls[1..][i].children|
          ensures DeclarationChild(decls[1..][i].children[j])
        {
          assert decls[1..][i] == decls[i + 1];
        }
      }
      DeclareGroupsBinds(d.symbols, decls[1..], d.next);
      BindAllAppend(table, first, Bindings(decls[1..]), adr);
    }
  }

  /** Analysing a Declarations node numbers its variables from address 0. */
  lemma DeclarationsNodeBinds(table: SymbolTable, n: Node)
    requires n.kind == "Declarations" && WellFormedGroups(n.children)
    ensures Analyse(table, n) == Ok(BindAll(table, Bindings(n.children), 0))
  {
    DeclareGroupsBinds(table, n.children, 0);
  }

  /** Any child that is neither a Variable nor a Type makes the analyser raise. */
  lemma {:induction false} StrayChildRaises(table: SymbolTable, children: seq<Node>, pending: seq<string>, adr: nat, j: nat)
    requires j < |children| && !DeclarationChild(children[j])
    ensures DeclareGroup(table, children, pending, adr).Err?
    decreases |children|
  {
    if j > 0 {
      var c := children[0];
      if c.kind == "Variable" {
        StrayChildRaises(table, children[1..], pending + [c.value], adr, j - 1);
      } else if c.kind == "Type" {
        StrayChildRaises(Bind(table, pending, c.value, adr), children[1..], [], adr + |pending|, j - 1);
      }
    }
  }

  function Names(bs: seq<Binding>): set<string>
  {
    set k | 0 <= k < |bs| :: bs[k].name
  }

  /** The table after binding holds exactly the old names and the bound ones. */
  lemma {:induction false} BindAllKeys(table: SymbolTable, bs: seq<Binding>, adr: nat)
    ensures BindAll(table, bs, adr).Keys == table.Keys + Names(bs)
    decreases |bs|
  {
    if bs != [] {
      BindAllKeys(table[bs[0].name := Entry(bs[0].typ, adr)], bs[1..], adr + 1);
      assert Names(bs) == {bs[0].name} + Names(bs[1..]) by {
        forall x | x in Names(bs) ensures x in {bs[0].name} + Names(bs[1..]) {
          var k :| 0 <= k < |bs| && bs[k].name == x;
          if k > 0 { assert bs[1..][k - 1].name == x; }
        }
        forall x | x in Names(bs[1..]) ensures x in Names(bs) {
          var k :| 0 <= k < |bs[1..]| && bs[1..][k].name == x;
          assert bs[k + 1].name == x;
        }
      }
    }
  }

  /** A name keeps the entry of its LAST binding: a redeclared variable is
      silently moved to its later address and type. */
  lemma {:induction false} LastBindingWins(table: SymbolTable, bs: seq<Binding>, adr: nat, k: nat)
    requires k < |bs|
    requires forall j :: k < j < |bs| ==> bs[j].name != bs[k].name
    ensures bs[k].name in BindAll(table, bs, adr)
    ensures BindAll(table, bs, adr)[bs[k].name] == Entry(bs[k].typ, adr + k)
    decreases |bs|
  {
    var next := table[bs[0].name := Entry(bs[0].typ, adr)];
    if k == 0 {
      UnboundKept(next, bs[1..], adr + 1, bs[0].name);
    } else {
      assert bs[1..][k - 1] == bs[k];
      LastBindingWins(next, bs[1..], adr + 1, k - 1);
    }
  }

  /** A name that is not bound keeps whatever entry it had. */
  lemma {:induction false} UnboundKept(table: SymbolTable, bs: seq<Binding>, adr: nat, name: string)
    requires forall j :: 0 <= j < |bs| ==> bs[j].name != name
    ensures name in BindAll(table, bs, adr) <==> name in table
    ensures name in table ==> BindAll(table, bs, adr)[name] == table[name]
    decreases |bs|
  {
    if bs != [] {
      UnboundKept(table[bs[0].name := Entry(bs[0].typ, adr)], bs[1..], adr + 1, name);
    }
  }

  /** With no name declared twice, addresses are dense and in source order:
      the k-th declared variable has address `adr + k` and its group's type. */
  lemma DistinctNamesDenseAddresses(table: SymbolTable, bs: seq<Binding>, adr: nat)
    requires forall i, j :: 0 <= i < j < |bs| ==> bs[i].name != bs[j].name
    ensures forall k :: 0 <= k < |bs| ==>
              bs[k].name in BindAll(table, bs, adr) && BindAll(table, bs, adr)[bs[k].name] == Entry(bs[k].typ, adr + k)
  {
    forall k | 0 <= k < |bs|
      ensures bs[k].name in BindAll(table, bs, adr) && BindAll(table, bs, adr)[bs[k].name] == Entry(bs[k].typ, adr + k)
    {
      LastBindingWins(table, bs, adr, k);
    }
  }

  lemma {:induction false} NamesBound(bs: seq<Binding>)
    ensures |Names(bs)| <= |bs|
    ensures (exists i, j :: 0 <= i < j < |bs| && bs[i].name == bs[j].name) ==> |Names(bs)| < |bs|
    decreases |bs|
  {
    if bs != [] {
      var rest := bs[1..];
      NamesBound(rest);
      assert Names(bs) == {bs[0].name} + Names(rest) by {
        forall x | x in Names(bs) ensures x in {bs[0].name} + Names(rest) {
          var k :| 0 <= k < |bs| && bs[k].name == x;
          if k > 0 { assert rest[k - 1].name == x; }
        }
        forall x | x in Names(rest) ensures x in Names(bs) {
          var k :| 0 <= k < |rest| && rest[k].name == x;
          assert bs[k + 1].name == x;
        }
      }
      if exists i, j :: 0 <= i < j < |bs| && bs[i].name == bs[j].name {
        var i, j :| 0 <= i < j < |bs| && bs[i].name == bs[j].name;
        if i == 0 {
          assert rest[j - 1].name == bs[0].name;
          assert bs[0].name in Names(rest);
        } else {
          assert rest[i - 1].name == rest[j - 1].name;
        }
      }
    }
  }

  /** A name declared twice leaves the table with fewer entries than addresses
      issued, so the last variable's address lies beyond a memory sized by the
      table: the virtual machine's `memory` has no cell for it. */
  lemma RedeclarationOutrunsMemory(bs: seq<Binding>)
    requires exists i, j :: 0 <= i < j < |bs| && bs[i].name == bs[j].name
    ensures var t := BindAll(map[], bs, 0);
            && |t| < |bs|
            && bs[|bs| - 1].name in t && t[bs[|bs| - 1].name].address == |bs| - 1 >= |t|
  {
    FewerEntries(bs);
    LastDeclaredBound(bs);
  }

  lemma LastDeclaredBound(bs: seq<Binding>)
    requires bs != []
    ensures var t := BindAll(map[], bs, 0);
            bs[|bs| - 1].name in t && t[bs[|bs| - 1].name].address == |bs| - 1
  {
    LastBindingWins(map[], bs, 0, |bs| - 1);
  }

  lemma FewerEntries(bs: seq<Binding>)
    requires exists i, j :: 0 <= i < j < |bs| && bs[i].name == bs[j].name
    ensures |BindAll(map[], bs, 0)| < |bs|
  {
    var empty: SymbolTable := map[];
    var t := BindAll(empty, bs, 0);
    BindAllKeys(empty, bs, 0);
    assert empty.Keys == {};
    assert t.Keys == Names(bs);
    NamesBound(bs);
    assert |t| == |t.Keys| < |bs|;
  }

  /** The variables of a `names : type` declaration all get that type. */
  lemma {:induction false} GroupTakesItsType(names: seq<string>, typ: string)
    ensures GroupBindings(seq(|names|, k requires 0 <= k < |names| => Node("Variable", names[k], [])) + [Node("Type", typ, [])], [])
            == BindingsOf(names, typ)
  {
    var vars := seq(|names|, k requires 0 <= k < |names| => Node("Variable", names[k], []));
    VariablesCollected(vars, [Node("Type", typ, [])], [], names);
    assert [] + names == names;
    var tail := [Node("Type", typ, [])];
    assert tail[1..] == [];
    assert GroupBindings(tail, names) == BindingsOf(names, typ) + [];
  }

  lemma {:induction false} VariablesCollected(vars: seq<Node>, rest: seq<Node>, pending: seq<string>, names: seq<string>)
    requires |vars| == |names| && forall k :: 0 <= k < |vars| ==> vars[k] == Node("Variable", names[k], [])
    ensures GroupBindings(vars + rest, pending) == GroupBindings(rest, pending + names)
    decreases |vars|
  {
    if vars == [] {
      assert vars + rest == rest && pending + names == pending;
    } else {
      assert (vars + rest)[0] == vars[0] && (vars + rest)[1..] == vars[1..] + rest;
      VariablesCollected(vars[1..], rest, pending + [names[0]], names[1..]);
      assert pending + [names[0]] + names[1..] == pending + names;
    }
  }
}
