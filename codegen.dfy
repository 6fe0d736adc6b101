/** The code generator: it walks the tree and appends text instructions for
    an accumulator machine with registers AX and BX and a stack. Every
    instruction line ends with a newline. */
module CodeGenerator {
  import opened Wrappers
  import opened Text
  import opened Ast

  /** The reasons the generator raises. `UndeclaredName` is the KeyError of
      looking up a name missing from the symbol table; `MissingChild` the
      IndexError of reading a child a node does not have. */
  datatype CodegenError =
    | UndeclaredName(name: string)
    | MissingChild(parent: string)
    | OperandMismatch(left: Option<string>, right: Option<string>)
    | TypeMismatch(left: Option<string>, right: Option<string>)
    | UnsupportedOperator(operator: string)
    | UnsupportedNode(kind: string)

  // ---------------------------------------------------------------------
  // Addresses and labels
  // ---------------------------------------------------------------------

  /** `$` and the address in upper-case hex, padded to four digits: the
      digits read back as the address, and the text is five characters
      exactly for the addresses below 65536. */
  function FormatAddress(address: nat): (s: string)
    ensures |s| >= 5 && s[0] == '$' && ParseHex(s[1..]) == Some(address)
    ensures |s| == 5 <==> address < 65536
    ensures UpperHexOnly(s[1..])
  {
    var digits := Hex4(address);
    Hex4IsUpper(address);
    Hex4RoundTrip(address);
    Hex4Length(address);
    Hex4AtLeastFour(address);
    assert ("$" + digits)[1..] == digits;
    "$" + digits
  }

  lemma Hex4AtLeastFour(n: nat)
    ensures |Hex4(n)| >= 4
  {
  }

  /** The text of the `n`-th label. */
  function Label(n: nat): string {
    "L" + DecimalString(n)
  }

  /** Labels with different numbers differ. */
  lemma LabelsDistinct(m: nat, n: nat)
    requires m != n
    ensures Label(m) != Label(n)
  {
    if Label(m) == Label(n) {
      assert Label(m)[1..] == DecimalString(m) && Label(n)[1..] == DecimalString(n);
      DecimalStringInjective(m, n);
    }
  }

  // ---------------------------------------------------------------------
  // Expressions
  // ---------------------------------------------------------------------

  /** `get_node_type`: Number and String have their own types, a Variable its
      declared type, a binary operation the common type of its operands; any
      other node has no type (None). */
  function NodeType(table: SymbolTable, n: Node): (r: Result<Option<string>, CodegenError>)
    ensures r.Ok? && r.value == Some("string") ==>
              n.kind == "String" || n.kind == "Variable" || n.kind == "BinaryOperation"
    decreases n
  {
    if n.kind == "Number" then Ok(Some("integer"))
    else if n.kind == "String" then Ok(Some("string"))
    else if n.kind == "Variable" then
      if n.value in table then Ok(Some(table[n.value].typ)) else Err(UndeclaredName(n.value))
    else if n.kind == "BinaryOperation" then
      if |n.children| == 0 then Err(MissingChild(n.kind))
      else
        var left :- NodeType(table, n.children[0]);
        if |n.children| == 1 then Err(MissingChild(n.kind))
        else
          var right :- NodeType(table, n.children[1]);
          if left == right then Ok(left) else Err(TypeMismatch(left, right))
    else Ok(None)
  }

  /** The formatted address of a declared name. */
  function AddressOf(table: SymbolTable, name: string): (r: Result<string, CodegenError>)
    ensures r.Ok? <==> name in table
    ensures r.Ok? ==> r.value == FormatAddress(table[name].address)
  {
    if name in table then Ok(FormatAddress(table[name].address)) else Err(UndeclaredName(name))
  }

  /** A binary operation: the left operand's code, `PUSH AX`, the right
      operand's code, `POP BX`, and the operation. */
  function Combine(left: seq<string>, right: seq<string>, operation: string): seq<string> {
    left + ["PUSH AX\n"] + right + ["POP BX\n", operation]
  }

  /** `generate_expression`: code that leaves the expression's value in AX. */
  function GenExpr(table: SymbolTable, n: Node): (r: Result<seq<string>, CodegenError>)
    ensures r.Ok? ==> r.value != []
    decreases n
  {
    if n.kind == "Number" then Ok(["MOV AX, " + n.value + "\n"])
    else if n.kind == "String" then Ok(["MOV AX, \"" + n.value + "\"\n"])
    else if n.kind == "Variable" then
      var a :- AddressOf(table, n.value);
      Ok(["MOV AX, " + a + "\n"])
    else if n.kind == "BinaryOperation" then
      if |n.children| == 0 then Err(MissingChild(n.kind))
      else
        var left :- GenExpr(table, n.children[0]);
        if |n.children| == 1 then Err(MissingChild(n.kind))
        else
          var right :- GenExpr(table, n.children[1]);
          if n.value == "+" then
            var leftType :- NodeType(table, n.children[0]);
            var rightType :- NodeType(table, n.children[1]);
            if leftType == Some("string") && rightType == Some("string") then
              Ok(Combine(left, right, "CONCAT AX, BX\n"))
            else if leftType == Some("integer") && rightType == Some("integer") then
              Ok(Combine(left, right, "ADD AX, BX\n"))
            else Err(OperandMismatch(leftType, rightType))
          else if n.value == "*" then Ok(Combine(left, right, "MUL AX, BX\n"))
          else Err(UnsupportedOperator(n.value))
    else Err(UnsupportedNode(n.kind))
  }

  // ---------------------------------------------------------------------
  // The stack discipline of expression code
  // ---------------------------------------------------------------------

  /** How a line changes the stack height. */
  function Effect(line: string): int {
    if line == "PUSH AX\n" then 1 else if line == "POP BX\n" then -1 else 0
  }

  /** The stack height after running `code` from an empty stack. */
  function Depth(code: seq<string>): int {
    if code == [] then 0 else Depth(code[..|code| - 1]) + Effect(code[|code| - 1])
  }

  /** As many PUSHes as POPs, and no prefix pops more than it pushed. */
  predicate Balanced(code: seq<string>) {
    Depth(code) == 0 && forall k :: 0 <= k <= |code| ==> Depth(code[..k]) >= 0
  }

  lemma {:induction false} DepthAppend(a: seq<string>, b: seq<string>)
    ensures Depth(a + b) == Depth(a) + Depth(b)
    decreases |b|
  {
    if b == [] {
      assert a + b == a;
    } else {
      assert (a + b)[..|a + b| - 1] == a + b[..|b| - 1];
      DepthAppend(a, b[..|b| - 1]);
    }
  }

  lemma {:induction false} CombineBalanced(left: seq<string>, right: seq<string>, operation: string)
    requires Balanced(left) && Balanced(right) && Effect(operation) == 0
    ensures Balanced(Combine(left, right, operation))
  {
    var code := Combine(left, right, operation);
    var pushed := left + ["PUSH AX\n"];
    DepthAppend(left, ["PUSH AX\n"]);
    assert Depth(["PUSH AX\n"]) == 1;
    forall k | 0 <= k <= |code|
      ensures Depth(code[..k]) >= 0
    {
      if k <= |left| {
        assert code[..k] == left[..k];
      } else if k <= |pushed| + |right| {
        assert code[..k] == pushed + right[..k - |pushed|];
        DepthAppend(pushed, right[..k - |pushed|]);
      } else {
        PrefixAfterRight(pushed, right, operation, k);
      }
    }
    assert code == pushed + right + ["POP BX\n", operation];
    DepthAppend(pushed, right);
    DepthAppend(pushed + right, ["POP BX\n", operation]);
    assert ["POP BX\n", operation][..1] == ["POP BX\n"];
    assert Depth(["POP BX\n", operation]) == -1;
    assert right[..|right|] == right;
  }

  lemma PrefixAfterRight(pushed: seq<string>, right: seq<string>, operation: string, k: nat)
    requires Depth(pushed) == 1 && Depth(right) == 0 && Effect(operation) == 0
    requires |pushed| + |right| < k <= |pushed| + |right| + 2
    ensures Depth((pushed + right + ["POP BX\n", operation])[..k]) >= 0
  {
    var tail := ["POP BX\n", operation][..k - |pushed| - |right|];
    assert (pushed + right + ["POP BX\n", operation])[..k] == pushed + right + tail;
    DepthAppend(pushed, right);
    DepthAppend(pushed + right, tail);
    if |tail| == 1 {
      assert Depth(tail) == -1;
    } else {
      assert tail[..1] == ["POP BX\n"];
      assert Depth(tail) == -1;
    }
  }

  lemma LeafBalanced(line: string)
    requires |line| > 0 && line[0] == 'M'
    ensures Balanced([line])
  {
    assert [line][..0] == [] && [line][..1] == [line];
    assert line != "PUSH AX\n" && line != "POP BX\n";
  }

  /** Generated expression code never pops an empty stack and leaves the
      stack as it found it. */
  lemma {:induction false} GenExprBalanced(table: SymbolTable, n: Node)
    requires GenExpr(table, n).Ok?
    ensures Balanced(GenExpr(table, n).value)
    decreases n
  {
    var code := GenExpr(table, n).value;
    if n.kind == "Number" || n.kind == "String" || n.kind == "Variable" {
      LeafBalanced(code[0]);
    } else {
      var left := GenExpr(table, n.children[0]).value;
      var right := GenExpr(table, n.children[1]).value;
      GenExprBalanced(table, n.children[0]);
      GenExprBalanced(table, n.children[1]);
      CombineBalanced(left, right, code[|code| - 1]);
    }
  }

  // ---------------------------------------------------------------------
  // Statements
  // ---------------------------------------------------------------------

  predicate IsContainer(kind: string) {
    kind == "Program" || kind == "Block" || kind == "Statements"
  }

  /** The type `generate_code` gives the argument of a Write. */
  function WriteType(table: SymbolTable, e: Node): Result<Option<string>, CodegenError> {
    if e.kind == "Variable" then
      if e.value in table then Ok(Some(table[e.value].typ)) else Err(UndeclaredName(e.value))
    else NodeType(table, e)
  }

  /** `generate_code`: the instruction list after generating code for `n`
      onto `instrs`, or the error raised. Node kinds it does not list emit
      nothing. */
  function Emit(table: SymbolTable, instrs: seq<string>, n: Node): (r: Result<seq<string>, CodegenError>)
    decreases n, 1, 0
  {
    if n.kind == "ProgramName" then Ok(instrs + ["; Program: " + n.value + "\n"])
    else if IsContainer(n.kind) then EmitFrom(table, instrs, n, 0)
    else if n.kind == "Declarations" then Ok(instrs)
    else if n.kind == "Assignment" then
      if |n.children| == 0 then Err(MissingChild(n.kind))
      else
        var code :- GenExpr(table, n.children[0]);
        var a :- AddressOf(table, n.value);
        Ok(instrs + code + ["MOV " + a + ", AX\n"])
    else if n.kind == "Write" then
      if |n.children| == 0 then Err(MissingChild(n.kind))
      else
        var e := n.children[0];
        var t :- WriteType(table, e);
        if t == Some("integer") then
          var code :- GenExpr(table, e);
          Ok(instrs + code + ["OUT AX\n"])
        else if t == Some("string") then
          if e.kind == "Variable" then
            var a :- AddressOf(table, e.value);
            Ok(instrs + ["OUT_STR " + a + "\n"])
          else if e.kind == "String" then Ok(instrs + ["OUT_STR \"" + e.value + "\"\n"])
          else Ok(instrs)
        else Ok(instrs)
    else Ok(instrs)
  }

  /** The children of `n` from the `i`-th on, in order. */
  function EmitFrom(table: SymbolTable, instrs: seq<string>, n: Node, i: nat): (r: Result<seq<string>, CodegenError>)
    requires i <= |n.children|
    decreases n, 0, |n.children| - i
  {
    if i == |n.children| then Ok(instrs)
    else
      var next :- Emit(table, instrs, n.children[i]);
      EmitFrom(table, next, n, i + 1)
  }

  /** `prefix` followed by what a result holds. */
  function After(prefix: seq<string>, r: Result<seq<string>, CodegenError>): Result<seq<string>, CodegenError> {
    match r
    case Ok(code) => Ok(prefix + code)
    case Err(e) => Err(e)
  }

  /** Generation only appends: what it emits, and whether it raises, does not
      depend on the instructions already there. */
  lemma {:induction false} EmitAppends(table: SymbolTable, instrs: seq<string>, n: Node)
    ensures Emit(table, instrs, n) == After(instrs, Emit(table, [], n))
    decreases n, 1, 0
  {
    if IsContainer(n.kind) {
      EmitFromAppends(table, instrs, [], n, 0);
      assert instrs + [] == instrs;
    } else if n.kind == "Assignment" {
      AssignmentAppends(table, instrs, n);
    } else if n.kind == "Write" {
      WriteAppends(table, instrs, n);
    } else if n.kind == "ProgramName" {
      assert instrs + ["; Program: " + n.value + "\n"] == instrs + ([] + ["; Program: " + n.value + "\n"]);
    } else {
      assert instrs + [] == instrs;
    }
  }

  lemma AssignmentAppends(table: SymbolTable, instrs: seq<string>, n: Node)
    requires n.kind == "Assignment"
    ensures Emit(table, instrs, n) == After(instrs, Emit(table, [], n))
  {
    if |n.children| > 0 && GenExpr(table, n.children[0]).Ok? && n.value in table {
      var code := GenExpr(table, n.children[0]).value;
      var line := "MOV " + AddressOf(table, n.value).value + ", AX\n";
      Regroup(instrs, code, [line]);
      assert Emit(table, instrs, n) == Ok(instrs + code + [line]);
      assert Emit(table, [], n) == Ok([] + code + [line]);
    }
  }

  lemma WriteAppends(table: SymbolTable, instrs: seq<string>, n: Node)
    requires n.kind == "Write"
    ensures Emit(table, instrs, n) == After(instrs, Emit(table, [], n))
  {
    if |n.children| > 0 && WriteType(table, n.children[0]).Ok? {
      var e := n.children[0];
      var t := WriteType(table, e).value;
      if t == Some("integer") {
        if GenExpr(table, e).Ok? {
          var code := GenExpr(table, e).value;
          Regroup(instrs, code, ["OUT AX\n"]);
          assert Emit(table, instrs, n) == Ok(instrs + code + ["OUT AX\n"]);
          assert Emit(table, [], n) == Ok([] + code + ["OUT AX\n"]);
        }
      } else if t == Some("string") {
        if e.kind == "Variable" && e.value in table {
          var line := "OUT_STR " + AddressOf(table, e.value).value + "\n";
          Regroup(instrs, [], [line]);
          assert Emit(table, instrs, n) == Ok(instrs + [line]);
          assert Emit(table, [], n) == Ok([] + [line]);
        } else if e.kind == "String" {
          var line := "OUT_STR \"" + e.value + "\"\n";
          Regroup(instrs, [], [line]);
          assert Emit(table, instrs, n) == Ok(instrs + [line]);
          assert Emit(table, [], n) == Ok([] + [line]);
        } else {
          assert instrs + [] == instrs;
        }
      } else {
        assert instrs + [] == instrs;
      }
    }
  }

  lemma Regroup(instrs: seq<string>, code: seq<string>, tail: seq<string>)
    ensures instrs + code + tail == instrs + ([] + code + tail)
    ensures instrs + tail == instrs + ([] + tail)
  {
  }

  lemma {:induction false} EmitFromAppends(table: SymbolTable, instrs: seq<string>, emitted: seq<string>, n: Node, i: nat)
    requires i <= |n.children|
    ensures EmitFrom(table, instrs + emitted, n, i) == After(instrs, EmitFrom(table, emitted, n, i))
    decreases n, 0, |n.children| - i
  {
    if i < |n.children| {
      var c := n.children[i];
      EmitAppends(table, instrs + emitted, c);
      EmitAppends(table, emitted, c);
      var r := Emit(table, [], c);
      if r.Ok? {
        assert instrs + emitted + r.value == instrs + (emitted + r.value);
        EmitFromAppends(table, instrs, emitted + r.value, n, i + 1);
      }
    }
  }

  // ---------------------------------------------------------------------
  // The generator object
  // ---------------------------------------------------------------------

  class CodeGenerator {
    const symbolTable: SymbolTable
    var instructions: seq<string>
    var currentLabel: nat

    constructor (symbolTable: SymbolTable)
      ensures this.symbolTable == symbolTable && instructions == [] && currentLabel == 0
    {
      this.symbolTable := symbolTable;
      instructions := [];
      currentLabel := 0;
    }

    /** Numbers labels L1, L2, ...: each call returns a label no earlier call returned. */
    method NewLabel() returns (name: string)
      modifies this
      ensures currentLabel == old(currentLabel) + 1 && name == Label(currentLabel)
      ensures instructions == old(instructions)
      ensures forall m :: 1 <= m <= old(currentLabel) ==> name != Label(m)
    {
      currentLabel := currentLabel + 1;
      name := Label(currentLabel);
      forall m | 1 <= m <= old(currentLabel)
        ensures name != Label(m)
      {
        LabelsDistinct(currentLabel, m);
      }
    }

    method GenerateCode(node: Node) returns (r: Outcome<CodegenError>)
      modifies this
      ensures currentLabel == old(currentLabel)
      ensures match Emit(symbolTable, old(instructions), node)
              case Ok(code) => r.Pass? && instructions == code
              case Err(e) => r == Fail(e)
      decreases node
    {
      if node.kind == "ProgramName" {
        instructions := instructions + ["; Program: " + node.value + "\n"];
      } else if IsContainer(node.kind) {
        ghost var initial := instructions;
        for i := 0 to |node.children|
          invariant currentLabel == old(currentLabel)
          invariant Emit(symbolTable, initial, node) == EmitFrom(symbolTable, instructions, node, i)
        {
          var c := GenerateCode(node.children[i]);
          if c.Fail? { return c; }
        }
      } else if node.kind == "Declarations" {
        // Declarations need no code.
      } else if node.kind == "Assignment" {
        if |node.children| == 0 { return Fail(MissingChild(node.kind)); }
        var code := GenExpr(symbolTable, node.children[0]);
        if code.Err? { return Fail(code.error); }
        instructions := instructions + code.value;
        if node.value !in symbolTable { return Fail(UndeclaredName(node.value)); }
        instructions := instructions + ["MOV " + FormatAddress(symbolTable[node.value].address) + ", AX\n"];
      } else if node.kind == "Write" {
        if |node.children| == 0 { return Fail(MissingChild(node.kind)); }
        var e := node.children[0];
        var t := WriteType(symbolTable, e);
        if t.Err? { return Fail(t.error); }
        if t.value == Some("integer") {
          var code := GenExpr(symbolTable, e);
          if code.Err? { return Fail(code.error); }
          instructions := instructions + code.value;
          instructions := instructions + ["OUT AX\n"];
        } else if t.value == Some("string") {
          if e.kind == "Variable" {
            if e.value !in symbolTable { return Fail(UndeclaredName(e.value)); }
            instructions := instructions + ["OUT_STR " + FormatAddress(symbolTable[e.value].address) + "\n"];
          } else if e.kind == "String" {
            instructions := instructions + ["OUT_STR \"" + e.value + "\"\n"];
          }
        }
      }
      return Pass;
    }
  }

  /** A string `+` is compiled to CONCAT, an integer `+` to ADD. */
  lemma PlusByType(table: SymbolTable, n: Node)
    requires n.kind == "BinaryOperation" && n.value == "+" && GenExpr(table, n).Ok?
    ensures var code := GenExpr(table, n).value;
            var leftType := NodeType(table, n.children[0]);
            && (code[|code| - 1] == "CONCAT AX, BX\n" <==> leftType == Ok(Some("string")))
            && (code[|code| - 1] == "ADD AX, BX\n" <==> leftType == Ok(Some("integer")))
  {
  }

  // ---------------------------------------------------------------------
  // What each expression compiles to
  // ---------------------------------------------------------------------

  /** A Number, a String and a declared Variable compile to one `MOV AX, …`
      line holding the literal, the quoted text or the variable's address;
      an undeclared Variable raises. */
  lemma LeafExprCode(table: SymbolTable, n: Node)
    ensures n.kind == "Number" ==> GenExpr(table, n) == Ok(["MOV AX, " + n.value + "\n"])
    ensures n.kind == "String" ==> GenExpr(table, n) == Ok(["MOV AX, \"" + n.value + "\"\n"])
    ensures n.kind == "Variable" ==> (GenExpr(table, n).Ok? <==> n.value in table)
    ensures n.kind == "Variable" && n.value in table
            ==> GenExpr(table, n) == Ok(["MOV AX, " + FormatAddress(table[n.value].address) + "\n"])
    ensures n.kind == "Variable" && n.value !in table ==> GenExpr(table, n) == Err(UndeclaredName(n.value))
  {
  }

  /** Both operands are compiled before the operator is looked at: the left
      operand's error comes first, then a missing right operand, then the
      right operand's error, whatever the operator. */
  lemma OperandsFirst(table: SymbolTable, n: Node)
    requires n.kind == "BinaryOperation" && |n.children| >= 1
    ensures GenExpr(table, n.children[0]).Err? ==> GenExpr(table, n) == Err(GenExpr(table, n.children[0]).error)
    ensures GenExpr(table, n.children[0]).Ok? && |n.children| == 1 ==> GenExpr(table, n) == Err(MissingChild("BinaryOperation"))
    ensures GenExpr(table, n.children[0]).Ok? && |n.children| >= 2 && GenExpr(table, n.children[1]).Err?
            ==> GenExpr(table, n) == Err(GenExpr(table, n.children[1]).error)
  {
  }

  /** Once both operands compile: `*` multiplies, `+` concatenates two
      strings and adds two integers and raises on any other pair of types
      (two `real` operands included), and every other operator raises. */
  lemma OperatorCode(table: SymbolTable, n: Node)
    requires n.kind == "BinaryOperation" && |n.children| >= 2
    requires GenExpr(table, n.children[0]).Ok? && GenExpr(table, n.children[1]).Ok?
    ensures var left, right := GenExpr(table, n.children[0]).value, GenExpr(table, n.children[1]).value;
            var lt, rt := NodeType(table, n.children[0]), NodeType(table, n.children[1]);
            && (n.value == "*" ==> GenExpr(table, n) == Ok(Combine(left, right, "MUL AX, BX\n")))
            && (n.value == "+" && lt == Ok(Some("string")) && rt == Ok(Some("string"))
                ==> GenExpr(table, n) == Ok(Combine(left, right, "CONCAT AX, BX\n")))
            && (n.value == "+" && lt == Ok(Some("integer")) && rt == Ok(Some("integer"))
                ==> GenExpr(table, n) == Ok(Combine(left, right, "ADD AX, BX\n")))
            && (&& n.value == "+" && lt.Ok? && rt.Ok?
                && !(lt.value == Some("string") && rt.value == Some("string"))
                && !(lt.value == Some("integer") && rt.value == Some("integer"))
                ==> GenExpr(table, n) == Err(OperandMismatch(lt.value, rt.value)))
            && (n.value != "+" && n.value != "*" ==> GenExpr(table, n) == Err(UnsupportedOperator(n.value)))
  {
  }

  /** Any node other than a Number, a String, a Variable or a binary
      operation raises. */
  lemma OtherKindRaises(table: SymbolTable, n: Node)
    requires n.kind != "Number" && n.kind != "String" && n.kind != "Variable" && n.kind != "BinaryOperation"
    ensures GenExpr(table, n) == Err(UnsupportedNode(n.kind))
  {
  }
}
