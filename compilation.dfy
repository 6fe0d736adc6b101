/** What the generated instructions do when the machine runs them: addresses
    written by the generator are read back by the machine, an integer
    expression leaves its value in AX, assignments store it (or the string
    literal, or the copied cell, they load) and writes output it. A string
    `+`, compiled to CONCAT, always faults. */
module Compilation {
  import opened Wrappers
  import opened Text
  import opened TextLaws
  import opened Ast
  import M = Machine
  import CG = CodeGenerator

  // ---------------------------------------------------------------------
  // Running a list of lines
  // ---------------------------------------------------------------------

  /** The lines run in order from `st`, stopping at the first that raises. */
  function Exec(table: SymbolTable, code: seq<string>, st: M.State): M.Step
    decreases |code|
  {
    if code == [] then M.Next(st)
    else match M.LineStep(table, st, code[0])
      case Next(s) => Exec(table, code[1..], s)
      case Raise(s, e) => M.Raise(s, e)
  }

  /** `code` run after a step, if that step did not raise. */
  function Then(table: SymbolTable, step: M.Step, code: seq<string>): M.Step {
    match step
    case Next(s) => Exec(table, code, s)
    case Raise(_, _) => step
  }

  function Outcome(f: M.Final): M.Step {
    match f
    case Finished(s, _) => M.Next(s)
    case Failed(s, e, _) => M.Raise(s, e)
  }

  /** The machine's fetch loop from `pc` runs exactly the lines from `pc` on. */
  lemma {:induction false} RunIsExec(table: SymbolTable, code: seq<string>, st: M.State, pc: nat)
    requires pc <= |code|
    ensures Outcome(M.RunFrom(table, code, st, pc)) == Exec(table, code[pc..], st)
    decreases |code| - pc
  {
    if pc < |code| {
      assert code[pc..][0] == code[pc];
      assert code[pc..][1..] == code[pc + 1..];
      var step := M.LineStep(table, st, code[pc]);
      if step.Next? {
        RunIsExec(table, code, step.state, pc + 1);
      }
    }
  }

  /** Running two pieces of code one after the other is running their
      concatenation. */
  lemma {:induction false} ExecAppend(table: SymbolTable, a: seq<string>, b: seq<string>, st: M.State)
    ensures Exec(table, a + b, st) == Then(table, Exec(table, a, st), b)
    decreases |a|
  {
    if a == [] {
      assert a + b == b;
    } else {
      assert (a + b)[0] == a[0];
      assert (a + b)[1..] == a[1..] + b;
      var step := M.LineStep(table, st, a[0]);
      if step.Next? {
        ExecAppend(table, a[1..], b, step.state);
      }
    }
  }

  /** Code that ends with a line that always raises always raises. */
  lemma EndsInRaise(table: SymbolTable, code: seq<string>, last: string, st: M.State)
    requires forall s :: M.LineStep(table, s, last).Raise?
    ensures Exec(table, code + [last], st).Raise?
  {
    ExecAppend(table, code, [last], st);
  }

  // ---------------------------------------------------------------------
  // Reading back a generated line
  // ---------------------------------------------------------------------

  /** The text of a generated line: its words joined by spaces, then a newline. */
  function Line(ws: seq<string>): string {
    JoinSpace(ws) + "\n"
  }

  /** The machine reads a generated line back as exactly its words. */
  lemma LineIsRead(table: SymbolTable, st: M.State, ws: seq<string>)
    requires ws != [] && Words(ws) && ws[0][0] != ';'
    ensures M.LineStep(table, st, Line(ws)) == M.InstructionStep(table, st, JoinSpace(ws))
    ensures Split(JoinSpace(ws)) == ws
  {
    var j := JoinSpace(ws);
    JoinSpaceEnds(ws);
    var last := ws[|ws| - 1];
    assert !IsSpace(last[|last| - 1]);
    StripLine(j);
    SplitJoin(ws);
  }

  /** What the generator writes for an address is one word the machine
      resolves as that address. */
  lemma AddressWord(a: nat)
    ensures var w := CG.FormatAddress(a);
            && Words([w]) && Words([w + ","]) && w[|w| - 1] != ',' && w[|w| - 1] != '"'
            && w != "AX" && w != "BX" && w != "SP" && !IsDigits(w) && M.StartsWith(w, '$')
            && M.AddressOf(w) == Ok(a)
  {
    var w := CG.FormatAddress(a);
    assert AllHex(w[1..]);
    forall k | 0 <= k < |w|
      ensures !IsSpace(w[k]) && w[k] != ',' && w[k] != '"'
    {
      if k > 0 {
        assert w[k] == w[1..][k - 1];
      }
    }
    assert NoSpace(w);
    var wc := w + ",";
    forall k | 0 <= k < |wc|
      ensures !IsSpace(wc[k])
    {
      if k < |w| {
        assert wc[k] == w[k];
      }
    }
  }

  // ---------------------------------------------------------------------
  // The individual generated lines
  // ---------------------------------------------------------------------

  /** A generated line of two words is read back as those two words. */
  lemma ReadTwo(table: SymbolTable, st: M.State, a: string, b: string)
    requires a != [] && NoSpace(a) && a[0] != ';' && b != [] && NoSpace(b)
    ensures Split(a + " " + b) == [a, b]
    ensures M.LineStep(table, st, a + " " + b + "\n") == M.InstructionStep(table, st, a + " " + b)
  {
    var ws := [a, b];
    assert ws[1..] == [b];
    assert JoinSpace(ws) == a + " " + b;
    LineIsRead(table, st, ws);
  }

  /** A generated line of three words is read back as those three words. */
  lemma ReadThree(table: SymbolTable, st: M.State, a: string, b: string, c: string)
    requires a != [] && NoSpace(a) && a[0] != ';' && b != [] && NoSpace(b) && c != [] && NoSpace(c)
    ensures Split(a + " " + b + " " + c) == [a, b, c]
    ensures M.LineStep(table, st, a + " " + b + " " + c + "\n") == M.InstructionStep(table, st, a + " " + b + " " + c)
  {
    var ws := [a, b, c];
    assert Words(ws) by {
      forall k | 0 <= k < |ws|
        ensures ws[k] != [] && NoSpace(ws[k])
      {
      }
    }
    assert ws[1..] == [b, c] && [b, c][1..] == [c];
    JoinSpaceCons(ws);
    JoinSpaceCons([b, c]);
    assert JoinSpace([c]) == c;
    assert JoinSpace(ws) == a + " " + b + " " + c;
    LineIsRead(table, st, ws);
  }

  /** A generated line of four words is read back as those four words. */
  lemma ReadFour(table: SymbolTable, st: M.State, a: string, b: string, c: string, d: string)
    requires a != [] && NoSpace(a) && a[0] != ';' && b != [] && NoSpace(b)
    requires c != [] && NoSpace(c) && d != [] && NoSpace(d)
    ensures Split(a + " " + b + " " + c + " " + d) == [a, b, c, d]
    ensures M.LineStep(table, st, a + " " + b + " " + c + " " + d + "\n") ==
            M.InstructionStep(table, st, a + " " + b + " " + c + " " + d)
  {
    var ws := [a, b, c, d];
    assert Words(ws) by {
      forall k | 0 <= k < |ws|
        ensures ws[k] != [] && NoSpace(ws[k])
      {
      }
    }
    assert ws[1..] == [b, c, d] && [b, c, d][1..] == [c, d] && [c, d][1..] == [d];
    JoinSpaceCons(ws);
    JoinSpaceCons([b, c, d]);
    JoinSpaceCons([c, d]);
    assert JoinSpace([d]) == d;
    assert JoinSpace(ws) == a + " " + b + " " + c + " " + d;
    LineIsRead(table, st, ws);
  }

  /** A generated line of an instruction word and one operand performs
      that instruction on the operand. */
  lemma UnaryLine(table: SymbolTable, st: M.State, a: string, b: string)
    requires a != [] && NoSpace(a) && a[0] != ';' && b != [] && NoSpace(b)
    ensures var step := M.LineStep(table, st, a + " " + b + "\n");
            && (M.CommandOf(a) == M.Push ==> step == M.PushStep(table, st, b))
            && (M.CommandOf(a) == M.Pop ==> step == M.PopStep(st, b))
            && (M.CommandOf(a) == M.Out ==> step == M.OutStep(table, st, b))
            && (M.CommandOf(a) == M.OutStr ==> step == M.OutStrStep(table, st, b))
  {
    ReadTwo(table, st, a, b);
    assert [a, b][1..] == [b];
    assert JoinSpace([b]) == b;
  }

  /** A generated line of an instruction word and two operands performs
      that instruction, with the trailing comma of the first operand
      dropped; an unknown word raises. */
  lemma BinaryLine(table: SymbolTable, st: M.State, a: string, b: string, c: string)
    requires a != [] && NoSpace(a) && a[0] != ';' && b != [] && NoSpace(b) && c != [] && NoSpace(c)
    ensures var step := M.LineStep(table, st, a + " " + b + " " + c + "\n");
            && (M.CommandOf(a) == M.Mov ==> step == M.MovStep(table, st, RStripComma(b), c))
            && (M.CommandOf(a).Arith? ==> step == M.ArithStep(table, st, M.CommandOf(a).op, RStripComma(b), c))
            && (M.CommandOf(a).Unknown? ==> step == M.Raise(st, M.UnknownInstruction(a + " " + b + " " + c)))
  {
    ReadThree(table, st, a, b, c);
    ThreeParts(table, st, a + " " + b + " " + c, a, b, c);
  }

  /** An instruction of three words, by its first word. */
  lemma ThreeParts(table: SymbolTable, st: M.State, t: string, a: string, b: string, c: string)
    requires Split(t) == [a, b, c]
    ensures M.CommandOf(a) == M.Mov ==> M.InstructionStep(table, st, t) == M.MovStep(table, st, RStripComma(b), c)
    ensures M.CommandOf(a).Arith? ==>
              M.InstructionStep(table, st, t) == M.ArithStep(table, st, M.CommandOf(a).op, RStripComma(b), c)
    ensures M.CommandOf(a).Unknown? ==> M.InstructionStep(table, st, t) == M.Raise(st, M.UnknownInstruction(t))
  {
  }

  /** A move whose line carries a word after its source ignores that word. */
  lemma MoveWithExtraWord(table: SymbolTable, st: M.State, a: string, b: string, c: string, d: string)
    requires a != [] && NoSpace(a) && a[0] != ';' && b != [] && NoSpace(b)
    requires c != [] && NoSpace(c) && d != [] && NoSpace(d) && M.CommandOf(a) == M.Mov
    ensures M.LineStep(table, st, a + " " + b + " " + c + " " + d + "\n") == M.MovStep(table, st, RStripComma(b), c)
  {
    ReadFour(table, st, a, b, c, d);
  }

  // The words of the generated lines, as the machine reads them.

  lemma MovWord()
    ensures NoSpace("MOV") && M.CommandOf("MOV") == M.Mov
  {
  }

  lemma OutStrWord()
    ensures NoSpace("OUT_STR") && M.CommandOf("OUT_STR") == M.OutStr
  {
  }

  lemma AxWord()
    ensures NoSpace("AX")
  {
  }

  lemma BxWord()
    ensures NoSpace("BX")
  {
  }

  lemma AxCommaWord()
    ensures NoSpace("AX,") && RStripComma("AX,") == "AX"
  {
  }

  lemma PushAxText()
    ensures NoSpace("PUSH") && NoSpace("AX") && M.CommandOf("PUSH") == M.Push
    ensures "PUSH AX\n" == "PUSH" + " " + "AX" + "\n"
  {
  }

  lemma PopBxText()
    ensures NoSpace("POP") && NoSpace("BX") && M.CommandOf("POP") == M.Pop
    ensures "POP BX\n" == "POP" + " " + "BX" + "\n"
  {
  }

  lemma OutAxText()
    ensures NoSpace("OUT") && NoSpace("AX") && M.CommandOf("OUT") == M.Out
    ensures "OUT AX\n" == "OUT" + " " + "AX" + "\n"
  {
  }

  lemma ConcatText()
    ensures NoSpace("CONCAT") && NoSpace("AX,") && NoSpace("BX") && M.CommandOf("CONCAT") == M.Unknown
    ensures "CONCAT AX, BX\n" == "CONCAT" + " " + "AX," + " " + "BX" + "\n"
    ensures "CONCAT" + " " + "AX," + " " + "BX" == "CONCAT AX, BX"
  {
  }

  lemma MovAxLine(table: SymbolTable, st: M.State, v: string)
    requires v != [] && NoSpace(v) && M.Resolve(table, st, v).Ok?
    ensures M.LineStep(table, st, "MOV AX, " + v + "\n") == M.Next(st.(ax := M.Resolve(table, st, v).value))
  {
    MovWord();
    AxCommaWord();
    assert "MOV AX, " + v + "\n" == "MOV" + " " + "AX," + " " + v + "\n";
    BinaryLine(table, st, "MOV", "AX,", v);
  }

  lemma PushAxLine(table: SymbolTable, st: M.State)
    ensures M.LineStep(table, st, "PUSH AX\n") == M.Next(st.(stack := st.stack + [st.ax]))
  {
    PushAxText();
    UnaryLine(table, st, "PUSH", "AX");
  }

  lemma PopBxLine(table: SymbolTable, st: M.State)
    requires st.stack != []
    ensures M.LineStep(table, st, "POP BX\n") ==
            M.Next(st.(stack := st.stack[..|st.stack| - 1], bx := st.stack[|st.stack| - 1]))
  {
    PopBxText();
    UnaryLine(table, st, "POP", "BX");
  }

  /** An operation's name is read as that operation. */
  lemma OpNameRead(op: M.Op)
    ensures M.CommandOf(M.OpName(op)) == M.Arith(op)
  {
    match op
    case Add => assert M.CommandOf("ADD") == M.Arith(M.Add);
    case Mul => assert M.CommandOf("MUL") == M.Arith(M.Mul);
    case Sub => assert M.CommandOf("SUB") == M.Arith(M.Sub);
    case Div => assert M.CommandOf("DIV") == M.Arith(M.Div);
  }

  /** An operation on AX and BX, read from its line. */
  lemma RegistersLine(table: SymbolTable, st: M.State, op: M.Op, name: string)
    requires name == M.OpName(op) && NoSpace(name) && name != [] && name[0] != ';'
    ensures M.LineStep(table, st, name + " AX, BX\n") == M.ArithStep(table, st, op, "AX", "BX")
  {
    AxCommaWord();
    BxWord();
    OpNameRead(op);
    assert name + " AX, BX\n" == name + " " + "AX," + " " + "BX" + "\n";
    BinaryLine(table, st, name, "AX,", "BX");
  }

  /** `ADD AX, BX` and `MUL AX, BX` on two integers. */
  lemma OperationLine(table: SymbolTable, st: M.State, op: M.Op)
    requires op == M.Add || op == M.Mul
    requires st.ax.VInt? && st.bx.VInt?
    ensures var line := M.OpName(op) + " AX, BX\n";
            var result := if op == M.Add then st.ax.n + st.bx.n else st.ax.n * st.bx.n;
            M.LineStep(table, st, line) == M.Next(st.(ax := M.VInt(result)))
  {
    if op == M.Add {
      assert NoSpace("ADD");
      RegistersLine(table, st, op, "ADD");
    } else {
      assert NoSpace("MUL");
      RegistersLine(table, st, op, "MUL");
    }
  }

  lemma OutAxLine(table: SymbolTable, st: M.State)
    ensures M.LineStep(table, st, "OUT AX\n") == M.Next(st.(outputs := st.outputs + [st.ax]))
  {
    OutAxText();
    UnaryLine(table, st, "OUT", "AX");
  }

  /** A move from AX to an address inside memory stores AX there. */
  lemma StoreStep(table: SymbolTable, st: M.State, w: string, a: nat)
    requires a < |st.memory| && M.AddressOf(w) == Ok(a)
    ensures M.MovStep(table, st, w, "AX") == M.Next(st.(memory := st.memory[a := st.ax]))
  {
    assert w != "AX" && w != "BX" && w != "SP";
  }

  /** A store of AX to a word that names an address inside memory. */
  lemma StoreWordLine(table: SymbolTable, st: M.State, w: string, a: nat)
    requires w != [] && NoSpace(w) && NoSpace(w + ",") && w[|w| - 1] != ','
    requires a < |st.memory| && M.AddressOf(w) == Ok(a)
    ensures M.LineStep(table, st, "MOV " + w + ", AX\n") == M.Next(st.(memory := st.memory[a := st.ax]))
  {
    MovWord();
    AxWord();
    assert "MOV " + w + ", AX\n" == "MOV" + " " + (w + ",") + " " + "AX" + "\n";
    BinaryLine(table, st, "MOV", w + ",", "AX");
    RStripOneComma(w);
    StoreStep(table, st, w, a);
  }

  lemma StoreLine(table: SymbolTable, st: M.State, a: nat)
    requires a < |st.memory|
    ensures M.LineStep(table, st, "MOV " + CG.FormatAddress(a) + ", AX\n") ==
            M.Next(st.(memory := st.memory[a := st.ax]))
  {
    AddressWord(a);
    StoreWordLine(table, st, CG.FormatAddress(a), a);
  }

  /** OUT_STR of a word naming an address whose cell holds a string. */
  lemma OutStrWordLine(table: SymbolTable, st: M.State, w: string, a: nat)
    requires w != [] && NoSpace(w) && w[0] == '$' && w[|w| - 1] != '"'
    requires a < |st.memory| && M.AddressOf(w) == Ok(a) && st.memory[a].VStr?
    ensures M.LineStep(table, st, "OUT_STR " + w + "\n") == M.Next(st.(outputs := st.outputs + [st.memory[a]]))
  {
    OutStrWord();
    assert "OUT_STR " + w + "\n" == "OUT_STR" + " " + w + "\n";
    UnaryLine(table, st, "OUT_STR", w);
    assert w != "AX" && w != "BX" && w != "SP" && !IsDigits(w);
  }

  lemma OutStrAddressLine(table: SymbolTable, st: M.State, a: nat)
    requires a < |st.memory| && st.memory[a].VStr?
    ensures M.LineStep(table, st, "OUT_STR " + CG.FormatAddress(a) + "\n") ==
            M.Next(st.(outputs := st.outputs + [st.memory[a]]))
  {
    AddressWord(a);
    OutStrWordLine(table, st, CG.FormatAddress(a), a);
  }

  /** A string literal in double quotes. */
  function Quote(v: string): string {
    "\"" + v + "\""
  }

  /** An instruction word followed by quoted single-spaced text hands the
      machine that text, re-joined from its words. */
  lemma QuotedTextLine(table: SymbolTable, st: M.State, a: string, q: string)
    requires a != [] && NoSpace(a) && a[0] != ';' && M.CommandOf(a) == M.OutStr
    requires |q| >= 2 && q[0] == '"' && q[|q| - 1] == '"' && SingleSpaced(q)
    ensures M.LineStep(table, st, a + " " + q + "\n") == M.OutStrStep(table, st, q)
  {
    var text := a + " " + q;
    QuotedTextEnds(a, q);
    TextLine(table, st, text);
    QuotedTextWords(a, q);
    OutStrParts(table, st, text);
  }

  lemma QuotedTextEnds(a: string, q: string)
    requires a != [] && NoSpace(a) && a[0] != ';' && |q| >= 2 && q[|q| - 1] == '"'
    ensures var text := a + " " + q;
            text != [] && !IsSpace(text[0]) && !IsSpace(text[|text| - 1]) && text[0] != ';'
  {
    var text := a + " " + q;
    assert text[0] == a[0] && text[|text| - 1] == q[|q| - 1];
  }

  /** The words of an instruction word and single-spaced text: the word
      first, and the rest re-joining to the text. */
  lemma QuotedTextWords(a: string, q: string)
    requires a != [] && NoSpace(a) && SingleSpaced(q)
    ensures var ws := Split(a + " " + q);
            ws != [] && ws[0] == a && JoinSpace(ws[1..]) == q
  {
    SplitAfterWord(a, q);
    JoinSplit(q);
    assert ([a] + Split(q))[1..] == Split(q);
  }

  /** A line whose text has no surrounding space and is not a comment is
      read as that text. */
  lemma TextLine(table: SymbolTable, st: M.State, text: string)
    requires text != [] && !IsSpace(text[0]) && !IsSpace(text[|text| - 1]) && text[0] != ';'
    ensures M.LineStep(table, st, text + "\n") == M.InstructionStep(table, st, text)
  {
    StripLine(text);
  }

  /** A word, a space and more text split into the word and the text's words. */
  lemma SplitAfterWord(a: string, q: string)
    requires a != [] && NoSpace(a)
    ensures Split(a + " " + q) == [a] + Split(q)
  {
    assert a + " " + q == a + (" " + q);
    SplitWord(a, " " + q);
    assert " " + q == [' '] + q;
    SplitSpace(' ', q);
  }

  /** An OUT_STR instruction prints its remaining words re-joined. */
  lemma OutStrParts(table: SymbolTable, st: M.State, t: string)
    requires Split(t) != [] && M.CommandOf(Split(t)[0]) == M.OutStr
    ensures M.InstructionStep(table, st, t) == M.OutStrStep(table, st, JoinSpace(Split(t)[1..]))
  {
  }

  /** OUT_STR of a literal whose quoted text is single-spaced prints the
      literal's text; the machine's re-joining of the words restores it. */
  lemma OutStrLiteralLine(table: SymbolTable, st: M.State, v: string)
    requires SingleSpaced(Quote(v))
    ensures M.LineStep(table, st, "OUT_STR \"" + v + "\"\n") == M.Next(st.(outputs := st.outputs + [M.VStr(v)]))
  {
    var q := Quote(v);
    OutStrWord();
    assert "OUT_STR \"" + v + "\"\n" == "OUT_STR" + " " + q + "\n";
    assert q[1..|q| - 1] == v;
    QuotedTextLine(table, st, "OUT_STR", q);
  }

  /** CONCAT is not an instruction: its line always raises. */
  lemma ConcatLineRaises(table: SymbolTable, st: M.State)
    ensures M.LineStep(table, st, "CONCAT AX, BX\n") == M.Raise(st, M.UnknownInstruction("CONCAT AX, BX"))
  {
    ConcatText();
    BinaryLine(table, st, "CONCAT", "AX,", "BX");
  }

  // ---------------------------------------------------------------------
  // Addresses
  // ---------------------------------------------------------------------

  /** The address the generator formats is the address the machine parses. */
  lemma AddressRoundTrip(a: nat)
    ensures M.AddressOf(CG.FormatAddress(a)) == Ok(a)
  {
    AddressWord(a);
  }

  // ---------------------------------------------------------------------
  // Integer expressions
  // ---------------------------------------------------------------------

  /** The integer value of an expression over `mem`: a decimal literal, a
      variable whose cell holds an integer, or the sum or product of two such
      expressions (a sum only when both sides are typed integer, the case the
      generator compiles to ADD). */
  function Eval(table: SymbolTable, mem: seq<M.Value>, n: Node): Option<int>
    decreases n
  {
    if n.kind == "Number" then
      if IsDigits(n.value) then Some(DecimalValue(n.value)) else None
    else if n.kind == "Variable" then
      if n.value in table && table[n.value].address < |mem| && mem[table[n.value].address].VInt?
      then Some(mem[table[n.value].address].n) else None
    else if n.kind == "BinaryOperation" && |n.children| >= 2 then
      match (Eval(table, mem, n.children[0]), Eval(table, mem, n.children[1]))
      case (Some(left), Some(right)) =>
        if n.value == "+" && CG.NodeType(table, n.children[0]) == Ok(Some("integer"))
           && CG.NodeType(table, n.children[1]) == Ok(Some("integer")) then Some(left + right)
        else if n.value == "*" then Some(left * right)
        else None
      case _ => None
    else None
  }

  /** The machine after evaluating `n`: its value in AX and, for an
      operation, the left operand's value left behind in BX. */
  function ExprState(table: SymbolTable, st: M.State, n: Node): M.State
    requires Eval(table, st.memory, n).Some?
  {
    var scratch := if n.kind == "BinaryOperation" then M.VInt(Eval(table, st.memory, n.children[0]).value) else st.bx;
    st.(ax := M.VInt(Eval(table, st.memory, n).value), bx := scratch)
  }

  lemma {:induction false} ExprRuns(table: SymbolTable, n: Node, st: M.State)
    requires CG.GenExpr(table, n).Ok? && Eval(table, st.memory, n).Some?
    ensures Exec(table, CG.GenExpr(table, n).value, st) == M.Next(ExprState(table, st, n))
    decreases n
  {
    var code := CG.GenExpr(table, n).value;
    if n.kind == "Number" {
      MovAxLine(table, st, n.value);
      assert code == ["MOV AX, " + n.value + "\n"];
    } else if n.kind == "Variable" {
      CopyCode(table, st, n.value);
      assert code == CG.GenExpr(table, Node("Variable", n.value, [])).value;
    } else {
      OperationRuns(table, n, st);
    }
  }

  /** An integer operation compiles to its operands' code around ADD or MUL. */
  lemma OperationCode(table: SymbolTable, n: Node)
    requires n.kind == "BinaryOperation" && |n.children| >= 2 && CG.GenExpr(table, n).Ok?
    requires n.value == "*" ||
             (n.value == "+" && CG.NodeType(table, n.children[0]) == Ok(Some("integer"))
              && CG.NodeType(table, n.children[1]) == Ok(Some("integer")))
    ensures CG.GenExpr(table, n).value ==
            CG.Combine(CG.GenExpr(table, n.children[0]).value, CG.GenExpr(table, n.children[1]).value,
                       if n.value == "+" then "ADD AX, BX\n" else "MUL AX, BX\n")
  {
  }

  lemma {:induction false} OperationRuns(table: SymbolTable, n: Node, st: M.State)
    requires n.kind == "BinaryOperation"
    requires CG.GenExpr(table, n).Ok? && Eval(table, st.memory, n).Some?
    ensures Exec(table, CG.GenExpr(table, n).value, st) == M.Next(ExprState(table, st, n))
    decreases n, 0
  {
    EvalOperation(table, st.memory, n);
    var c0, c1 := n.children[0], n.children[1];
    var l, r := Eval(table, st.memory, c0).value, Eval(table, st.memory, c1).value;
    var left, right := CG.GenExpr(table, c0).value, CG.GenExpr(table, c1).value;
    OperationCode(table, n);
    ExprRuns(table, c0, st);
    var s1 := ExprState(table, st, c0);
    ExprShape(table, st, c0);
    var s2 := s1.(stack := s1.stack + [s1.ax]);
    ExprRuns(table, c1, s2);
    var s3 := ExprState(table, s2, c1);
    ExprShape(table, s2, c1);
    OperationEnds(table, st, n, s1, s3);
    if n.value == "+" {
      AddCombines(table, left, right, st, s1, s3);
    } else {
      MulCombines(table, left, right, st, s1, s3);
    }
  }

  /** The state an operation's code ends in, from the states its operands'
      code ends in. */
  lemma OperationEnds(table: SymbolTable, st: M.State, n: Node, s1: M.State, s3: M.State)
    requires n.kind == "BinaryOperation" && Eval(table, st.memory, n).Some?
    requires |n.children| >= 2 && s1 == ExprState(table, st, n.children[0])
    requires Eval(table, st.memory, n.children[0]).Some? && Eval(table, st.memory, n.children[1]).Some?
    requires s3.ax == M.VInt(Eval(table, st.memory, n.children[1]).value)
    requires s3.memory == st.memory && s3.outputs == st.outputs
    ensures s1.ax.VInt? && s3.ax.VInt?
    ensures s3.(stack := s1.stack, bx := s1.ax,
                ax := M.VInt(if n.value == "+" then s3.ax.n + s1.ax.n else s3.ax.n * s1.ax.n))
            == ExprState(table, st, n)
  {
    EvalOperation(table, st.memory, n);
  }

  /** An expression's state differs from the one before only in AX, which
      holds its value, and in BX. */
  lemma ExprShape(table: SymbolTable, st: M.State, n: Node)
    requires Eval(table, st.memory, n).Some?
    ensures var s := ExprState(table, st, n);
            s.ax == M.VInt(Eval(table, st.memory, n).value)
            && s.stack == st.stack && s.memory == st.memory && s.outputs == st.outputs
  {
  }

  /** ADD code on the values its operands' code computes. */
  lemma AddCombines(table: SymbolTable, left: seq<string>, right: seq<string>,
                    st: M.State, s1: M.State, s3: M.State)
    requires Exec(table, left, st) == M.Next(s1) && s1.ax.VInt?
    requires Exec(table, right, s1.(stack := s1.stack + [s1.ax])) == M.Next(s3)
    requires s3.stack == s1.stack + [s1.ax] && s3.ax.VInt?
    ensures Exec(table, CG.Combine(left, right, "ADD AX, BX\n"), st) ==
            M.Next(s3.(stack := s1.stack, bx := s1.ax, ax := M.VInt(s3.ax.n + s1.ax.n)))
  {
    var s4 := s3.(stack := s1.stack, bx := s1.ax);
    var s5 := s4.(ax := M.VInt(s4.ax.n + s4.bx.n));
    assert s5 == s3.(stack := s1.stack, bx := s1.ax, ax := M.VInt(s3.ax.n + s1.ax.n));
    AddLine(table, s4);
    CombineRuns(table, left, right, "ADD AX, BX\n", st, s1, s3, s5);
  }

  /** MUL code on the values its operands' code computes. */
  lemma MulCombines(table: SymbolTable, left: seq<string>, right: seq<string>,
                    st: M.State, s1: M.State, s3: M.State)
    requires Exec(table, left, st) == M.Next(s1) && s1.ax.VInt?
    requires Exec(table, right, s1.(stack := s1.stack + [s1.ax])) == M.Next(s3)
    requires s3.stack == s1.stack + [s1.ax] && s3.ax.VInt?
    ensures Exec(table, CG.Combine(left, right, "MUL AX, BX\n"), st) ==
            M.Next(s3.(stack := s1.stack, bx := s1.ax, ax := M.VInt(s3.ax.n * s1.ax.n)))
  {
    var s4 := s3.(stack := s1.stack, bx := s1.ax);
    var s5 := s4.(ax := M.VInt(s4.ax.n * s4.bx.n));
    assert s5 == s3.(stack := s1.stack, bx := s1.ax, ax := M.VInt(s3.ax.n * s1.ax.n));
    MulLine(table, s4);
    CombineRuns(table, left, right, "MUL AX, BX\n", st, s1, s3, s5);
  }

  /** The value of an operation is the sum or product of its operands' values. */
  lemma EvalOperation(table: SymbolTable, mem: seq<M.Value>, n: Node)
    requires n.kind == "BinaryOperation" && Eval(table, mem, n).Some?
    ensures |n.children| >= 2
    ensures Eval(table, mem, n.children[0]).Some? && Eval(table, mem, n.children[1]).Some?
    ensures n.value == "*" ||
            (n.value == "+" && CG.NodeType(table, n.children[0]) == Ok(Some("integer"))
             && CG.NodeType(table, n.children[1]) == Ok(Some("integer")))
    ensures var l, r := Eval(table, mem, n.children[0]).value, Eval(table, mem, n.children[1]).value;
            Eval(table, mem, n).value == if n.value == "+" then l + r else l * r
  {
  }

  lemma AddLine(table: SymbolTable, st: M.State)
    requires st.ax.VInt? && st.bx.VInt?
    ensures M.LineStep(table, st, "ADD AX, BX\n") == M.Next(st.(ax := M.VInt(st.ax.n + st.bx.n)))
  {
    OperationLine(table, st, M.Add);
    assert M.OpName(M.Add) + " AX, BX\n" == "ADD AX, BX\n";
  }

  lemma MulLine(table: SymbolTable, st: M.State)
    requires st.ax.VInt? && st.bx.VInt?
    ensures M.LineStep(table, st, "MUL AX, BX\n") == M.Next(st.(ax := M.VInt(st.ax.n * st.bx.n)))
  {
    OperationLine(table, st, M.Mul);
    assert M.OpName(M.Mul) + " AX, BX\n" == "MUL AX, BX\n";
  }

  /** The code of an operation, given what its operands' code does: the
      left value is pushed, the right one computed, the left one popped into
      BX, and the operation line run on the two. */
  lemma CombineRuns(table: SymbolTable, left: seq<string>, right: seq<string>, opLine: string,
                    st: M.State, s1: M.State, s3: M.State, s5: M.State)
    requires Exec(table, left, st) == M.Next(s1)
    requires Exec(table, right, s1.(stack := s1.stack + [s1.ax])) == M.Next(s3)
    requires s3.stack == s1.stack + [s1.ax]
    requires M.LineStep(table, s3.(stack := s1.stack, bx := s1.ax), opLine) == M.Next(s5)
    ensures Exec(table, CG.Combine(left, right, opLine), st) == M.Next(s5)
  {
    var tail := right + ["POP BX\n", opLine];
    CombineRegroups(left, right, opLine);
    var s2 := s1.(stack := s1.stack + [s1.ax]);
    RightThenOperate(table, right, opLine, s1, s2, s3, s5);
    LeftThenPush(table, left, tail, st, s1);
  }

  lemma CombineRegroups(left: seq<string>, right: seq<string>, opLine: string)
    ensures CG.Combine(left, right, opLine) == left + (["PUSH AX\n"] + (right + ["POP BX\n", opLine]))
  {
  }

  /** The left operand's code, then PUSH AX. */
  lemma LeftThenPush(table: SymbolTable, left: seq<string>, tail: seq<string>, st: M.State, s1: M.State)
    requires Exec(table, left, st) == M.Next(s1)
    ensures Exec(table, left + (["PUSH AX\n"] + tail), st) == Exec(table, tail, s1.(stack := s1.stack + [s1.ax]))
  {
    ExecAppend(table, left, ["PUSH AX\n"] + tail, st);
    PushThen(table, s1, tail);
  }

  /** The right operand's code, then POP BX and the operation line. */
  lemma RightThenOperate(table: SymbolTable, right: seq<string>, opLine: string,
                         s1: M.State, s2: M.State, s3: M.State, s5: M.State)
    requires Exec(table, right, s2) == M.Next(s3)
    requires s3.stack == s1.stack + [s1.ax]
    requires M.LineStep(table, s3.(stack := s1.stack, bx := s1.ax), opLine) == M.Next(s5)
    ensures Exec(table, right + ["POP BX\n", opLine], s2) == M.Next(s5)
  {
    ExecAppend(table, right, ["POP BX\n", opLine], s2);
    PopBxLine(table, s3);
    assert s3.stack[..|s3.stack| - 1] == s1.stack;
    ExecTwo(table, "POP BX\n", opLine, s3, s3.(stack := s1.stack, bx := s1.ax), s5);
  }

  /** PUSH AX, then the rest of the code. */
  lemma PushThen(table: SymbolTable, st: M.State, rest: seq<string>)
    ensures Exec(table, ["PUSH AX\n"] + rest, st) == Exec(table, rest, st.(stack := st.stack + [st.ax]))
  {
    PushAxLine(table, st);
    assert (["PUSH AX\n"] + rest)[1..] == rest;
  }

  /** Two lines that each step run one after the other. */
  lemma ExecTwo(table: SymbolTable, first: string, second: string, st: M.State, mid: M.State, last: M.State)
    requires M.LineStep(table, st, first) == M.Next(mid) && M.LineStep(table, mid, second) == M.Next(last)
    ensures Exec(table, [first, second], st) == M.Next(last)
  {
    assert Exec(table, [second], mid) == M.Next(last) by {
      assert [second][1..] == [];
    }
    assert [first, second][1..] == [second];
  }

  /** An integer expression's code leaves its value in AX and the stack,
      the memory and the outputs as they were. */
  lemma ExprComputes(table: SymbolTable, n: Node, st: M.State)
    requires CG.GenExpr(table, n).Ok? && Eval(table, st.memory, n).Some?
    ensures var r := Exec(table, CG.GenExpr(table, n).value, st);
            && r.Next? && r.state.ax == M.VInt(Eval(table, st.memory, n).value)
            && r.state.stack == st.stack && r.state.memory == st.memory && r.state.outputs == st.outputs
  {
    ExprRuns(table, n, st);
  }

  /** A string `+` is compiled to CONCAT, so its code faults on every
      machine state. */
  lemma StringPlusFaults(table: SymbolTable, n: Node, st: M.State)
    requires n.kind == "BinaryOperation" && n.value == "+" && CG.GenExpr(table, n).Ok?
    requires CG.NodeType(table, n.children[0]) == Ok(Some("string"))
    ensures Exec(table, CG.GenExpr(table, n).value, st).Raise?
  {
    var code := ConcatCode(table, n);
    forall s: M.State
      ensures M.LineStep(table, s, "CONCAT AX, BX\n").Raise?
    {
      ConcatLineRaises(table, s);
    }
    EndsInRaise(table, code, "CONCAT AX, BX\n", st);
  }

  /** A string `+` compiles to code ending in CONCAT. */
  lemma ConcatCode(table: SymbolTable, n: Node) returns (code: seq<string>)
    requires n.kind == "BinaryOperation" && n.value == "+" && CG.GenExpr(table, n).Ok?
    requires CG.NodeType(table, n.children[0]) == Ok(Some("string"))
    ensures CG.GenExpr(table, n).value == code + ["CONCAT AX, BX\n"]
  {
    var left, right := CG.GenExpr(table, n.children[0]).value, CG.GenExpr(table, n.children[1]).value;
    assert CG.GenExpr(table, n).value == CG.Combine(left, right, "CONCAT AX, BX\n");
    code := left + ["PUSH AX\n"] + right + ["POP BX\n"];
  }

  /** A string literal with a space loaded into AX is cut at the space: the
      machine reads only its first word as the operand and raises. */
  lemma SpacedLiteralFaults(table: SymbolTable, st: M.State, a: string, b: string)
    requires a != [] && NoSpace(a) && a[|a| - 1] != '"' && b != [] && NoSpace(b)
    requires "\"" + a !in table
    ensures var n := Node("String", a + " " + b, []);
            Exec(table, CG.GenExpr(table, n).value, st) == M.Raise(st, M.UnknownOperand("\"" + a))
  {
    var qa, qb := "\"" + a, b + "\"";
    assert NoSpace(qa) by {
      forall k | 0 <= k < |qa| ensures !IsSpace(qa[k]) {
        if k > 0 { assert qa[k] == a[k - 1]; }
      }
    }
    assert NoSpace(qb) by {
      forall k | 0 <= k < |qb| ensures !IsSpace(qb[k]) {
        if k < |b| { assert qb[k] == b[k]; }
      }
    }
    UnclosedQuote(table, st, a);
    var line := "MOV AX, " + qa + " " + qb + "\n";
    assert "MOV AX, \"" + (a + " " + b) + "\"\n" == line;
    assert CG.GenExpr(table, Node("String", a + " " + b, [])).value == [line];
    MovUnresolvedLine(table, st, qa, qb);
    ExecRaises(table, line, st, st, M.UnknownOperand(qa));
  }

  /** A word that opens a quote it does not close, and names no variable, is
      an unknown operand. */
  lemma UnclosedQuote(table: SymbolTable, st: M.State, a: string)
    requires a != [] && a[|a| - 1] != '"' && "\"" + a !in table
    ensures M.Resolve(table, st, "\"" + a) == Err(M.UnknownOperand("\"" + a))
  {
    var qa := "\"" + a;
    assert qa[0] == '"' && qa[|qa| - 1] == a[|a| - 1];
    assert !IsDigits(qa);
  }

  /** A move into AX of a first operand word the machine cannot resolve
      raises that error, whatever words follow it. */
  lemma MovUnresolvedLine(table: SymbolTable, st: M.State, v: string, extra: string)
    requires v != [] && NoSpace(v) && extra != [] && NoSpace(extra) && M.Resolve(table, st, v).Err?
    ensures M.LineStep(table, st, "MOV AX, " + v + " " + extra + "\n") ==
            M.Raise(st, M.Resolve(table, st, v).error)
  {
    MovWord();
    AxCommaWord();
    assert "MOV AX, " + v + " " + extra + "\n" == "MOV" + " " + "AX," + " " + v + " " + extra + "\n";
    MoveWithExtraWord(table, st, "MOV", "AX,", v, extra);
  }

  /** A single line that raises. */
  lemma ExecRaises(table: SymbolTable, line: string, st: M.State, s: M.State, e: M.VmError)
    requires M.LineStep(table, st, line) == M.Raise(s, e)
    ensures Exec(table, [line], st) == M.Raise(s, e)
  {
  }

  // ---------------------------------------------------------------------
  // Statements
  // ---------------------------------------------------------------------

  /** The machine after the code of an assignment's right-hand side: a
      variable's cell is copied into AX whatever it holds (an integer, a
      string or nothing yet), a string literal that is one word and names no
      variable is loaded as that string, and a number or an operation leaves
      its integer value as `ExprState` says. None where that code does not
      complete as described: an operand that is not an integer, a string
      `+`, a literal with a space, a cell outside memory. */
  function Loaded(table: SymbolTable, st: M.State, n: Node): Option<M.State>
  {
    if n.kind == "Variable" then
      if n.value in table && table[n.value].address < |st.memory|
      then Some(st.(ax := st.memory[table[n.value].address])) else None
    else if n.kind == "String" then
      if NoSpace(Quote(n.value)) && Quote(n.value) !in table then Some(st.(ax := M.VStr(n.value))) else None
    else if Eval(table, st.memory, n).Some? then Some(ExprState(table, st, n))
    else None
  }

  /** The code of a right-hand side runs to `Loaded`. */
  lemma LoadedRuns(table: SymbolTable, n: Node, st: M.State)
    requires CG.GenExpr(table, n).Ok? && Loaded(table, st, n).Some?
    ensures Exec(table, CG.GenExpr(table, n).value, st) == M.Next(Loaded(table, st, n).value)
  {
    if n.kind == "Variable" {
      CopyCode(table, st, n.value);
    } else if n.kind == "String" {
      LiteralCode(table, st, n.value);
    } else {
      ExprRuns(table, n, st);
    }
  }

  /** A variable's code copies its cell into AX. */
  lemma CopyCode(table: SymbolTable, st: M.State, name: string)
    requires name in table && table[name].address < |st.memory|
    ensures var n := Node("Variable", name, []);
            CG.GenExpr(table, n) == Ok(["MOV AX, " + CG.FormatAddress(table[name].address) + "\n"])
            && Exec(table, CG.GenExpr(table, n).value, st) == M.Next(st.(ax := st.memory[table[name].address]))
  {
    var a := table[name].address;
    AddressWord(a);
    MovAxLine(table, st, CG.FormatAddress(a));
    ExecOne(table, "MOV AX, " + CG.FormatAddress(a) + "\n", st, st.(ax := st.memory[a]));
  }

  /** A one-word literal's code loads its text into AX. */
  lemma LiteralCode(table: SymbolTable, st: M.State, v: string)
    requires NoSpace(Quote(v)) && Quote(v) !in table
    ensures var n := Node("String", v, []);
            CG.GenExpr(table, n) == Ok(["MOV AX, " + Quote(v) + "\n"])
            && Exec(table, CG.GenExpr(table, n).value, st) == M.Next(st.(ax := M.VStr(v)))
  {
    var q := Quote(v);
    QuotedLiteral(table, st, v);
    MovAxLine(table, st, q);
    assert "MOV AX, \"" + v + "\"\n" == "MOV AX, " + q + "\n";
    ExecOne(table, "MOV AX, " + q + "\n", st, st.(ax := M.VStr(v)));
  }

  /** A one-word quoted literal that names no variable resolves to its text. */
  lemma QuotedLiteral(table: SymbolTable, st: M.State, v: string)
    requires NoSpace(Quote(v)) && Quote(v) !in table
    ensures M.Resolve(table, st, Quote(v)) == Ok(M.VStr(v))
  {
    var q := Quote(v);
    assert q[0] == '"' && q[|q| - 1] == '"';
    assert !IsDigits(q) by {
      assert !IsDigit(q[0]);
    }
    assert q[1..|q| - 1] == v;
  }

  /** The effect of a statement, where the generator compiles it to code the
      machine completes: an assignment stores what its right-hand side loads
      into the variable's cell, an integer write outputs what its expression
      loads (a variable's cell as it is, whatever it holds), a string write
      outputs the string; declarations and the program name do nothing, and
      a block runs its statements in order. None where the statement's code
      does not complete as described (see `Loaded`), or a string write reads
      a cell that holds no string. */
  function Perform(table: SymbolTable, st: M.State, n: Node): Option<M.State>
    decreases n, 1, 0
  {
    if n.kind == "ProgramName" || n.kind == "Declarations" then Some(st)
    else if CG.IsContainer(n.kind) then PerformFrom(table, st, n, 0)
    else if n.kind == "Assignment" then
      if |n.children| == 0 || n.value !in table then None
      else match Loaded(table, st, n.children[0])
        case None => None
        case Some(s) =>
          var address := table[n.value].address;
          if address < |s.memory| then Some(s.(memory := s.memory[address := s.ax])) else None
    else if n.kind == "Write" then
      if |n.children| == 0 then None
      else
        var e := n.children[0];
        match CG.WriteType(table, e)
        case Err(_) => None
        case Ok(t) =>
          if t == Some("integer") then
            match Loaded(table, st, e)
            case None => None
            case Some(s) => Some(s.(outputs := s.outputs + [s.ax]))
          else if t == Some("string") && e.kind == "Variable" then
            var a := table[e.value].address;
            if a < |st.memory| && st.memory[a].VStr? then Some(st.(outputs := st.outputs + [st.memory[a]]))
            else None
          else if t == Some("string") && e.kind == "String" then
            if SingleSpaced(Quote(e.value)) then Some(st.(outputs := st.outputs + [M.VStr(e.value)])) else None
          else Some(st)
    else Some(st)
  }

  function PerformFrom(table: SymbolTable, st: M.State, n: Node, i: nat): Option<M.State>
    requires i <= |n.children|
    decreases n, 0, |n.children| - i
  {
    if i == |n.children| then Some(st)
    else match Perform(table, st, n.children[i])
      case None => None
      case Some(s) => PerformFrom(table, s, n, i + 1)
  }

  lemma {:induction false} StatementRuns(table: SymbolTable, n: Node, st: M.State)
    requires CG.Emit(table, [], n).Ok? && Perform(table, st, n).Some?
    ensures Exec(table, CG.Emit(table, [], n).value, st) == M.Next(Perform(table, st, n).value)
    decreases n, 1, 0
  {
    if n.kind == "ProgramName" {
      assert CG.Emit(table, [], n).value == ["; Program: " + n.value + "\n"];
      ProgramNameSkipped(table, st, n.value);
      ExecOne(table, "; Program: " + n.value + "\n", st, st);
    } else if CG.IsContainer(n.kind) {
      StatementsRun(table, n, st, 0);
    } else if n.kind == "Assignment" {
      AssignmentRuns(table, n, st);
    } else if n.kind == "Write" {
      WriteRuns(table, n, st);
    }
  }

  /** The comment naming the program is skipped. */
  lemma ProgramNameSkipped(table: SymbolTable, st: M.State, name: string)
    ensures M.LineStep(table, st, "; Program: " + name + "\n") == M.Next(st)
  {
    var text := " Program: " + name + "\n";
    assert "; Program: " + name + "\n" == "" + ";" + text;
    M.CommentLineIsSkipped(table, st, "", text);
  }

  lemma {:induction false} StatementsRun(table: SymbolTable, n: Node, st: M.State, i: nat)
    requires i <= |n.children|
    requires CG.EmitFrom(table, [], n, i).Ok? && PerformFrom(table, st, n, i).Some?
    ensures Exec(table, CG.EmitFrom(table, [], n, i).value, st) == M.Next(PerformFrom(table, st, n, i).value)
    decreases n, 0, |n.children| - i
  {
    if i < |n.children| {
      var c := n.children[i];
      var first := CG.Emit(table, [], c).value;
      assert CG.EmitFrom(table, [], n, i) == CG.EmitFrom(table, first, n, i + 1);
      CG.EmitFromAppends(table, first, [], n, i + 1);
      assert first + [] == first;
      var rest := CG.EmitFrom(table, [], n, i + 1).value;
      StatementRuns(table, c, st);
      ExecAppend(table, first, rest, st);
      StatementsRun(table, n, Perform(table, st, c).value, i + 1);
    }
  }

  lemma AssignmentRuns(table: SymbolTable, n: Node, st: M.State)
    requires n.kind == "Assignment"
    requires CG.Emit(table, [], n).Ok? && Perform(table, st, n).Some?
    ensures Exec(table, CG.Emit(table, [], n).value, st) == M.Next(Perform(table, st, n).value)
  {
    AssignmentMeaning(table, st, n);
    AssignmentCode(table, n);
    var e := n.children[0];
    LoadedRuns(table, e, st);
    StoreAfter(table, CG.GenExpr(table, e).value, table[n.value].address, st, Loaded(table, st, e).value);
  }

  /** What `Perform` makes of an assignment it defines. */
  lemma AssignmentMeaning(table: SymbolTable, st: M.State, n: Node)
    requires n.kind == "Assignment" && Perform(table, st, n).Some?
    ensures |n.children| > 0 && n.value in table && Loaded(table, st, n.children[0]).Some?
    ensures var s := Loaded(table, st, n.children[0]).value;
            table[n.value].address < |s.memory|
            && Perform(table, st, n).value == s.(memory := s.memory[table[n.value].address := s.ax])
  {
  }

  /** The code of an assignment: its right-hand side's, then a store of AX. */
  lemma AssignmentCode(table: SymbolTable, n: Node)
    requires n.kind == "Assignment" && |n.children| > 0 && n.value in table && CG.Emit(table, [], n).Ok?
    ensures CG.GenExpr(table, n.children[0]).Ok?
    ensures CG.Emit(table, [], n).value ==
            CG.GenExpr(table, n.children[0]).value + ["MOV " + CG.FormatAddress(table[n.value].address) + ", AX\n"]
  {
    assert CG.GenExpr(table, n.children[0]).Ok? by {
      assert !CG.IsContainer(n.kind) && n.kind != "ProgramName" && n.kind != "Declarations";
    }
    var code := CG.GenExpr(table, n.children[0]).value;
    var store := "MOV " + CG.FormatAddress(table[n.value].address) + ", AX\n";
    assert CG.Emit(table, [], n) == Ok([] + code + [store]) by {
      assert !CG.IsContainer(n.kind) && n.kind != "ProgramName" && n.kind != "Declarations";
      assert CG.AddressOf(table, n.value) == Ok(CG.FormatAddress(table[n.value].address));
    }
    assert [] + code + [store] == code + [store];
  }

  /** `x := y` compiles, and its code copies `y`'s cell into `x`'s whatever
      that cell holds: an integer, a string, or nothing yet. */
  lemma CopyRuns(table: SymbolTable, st: M.State, x: string, y: string)
    requires x in table && y in table
    requires table[x].address < |st.memory| && table[y].address < |st.memory|
    ensures var n := Node("Assignment", x, [Node("Variable", y, [])]);
            var v := st.memory[table[y].address];
            && CG.Emit(table, [], n).Ok?
            && Exec(table, CG.Emit(table, [], n).value, st) == M.Next(st.(ax := v, memory := st.memory[table[x].address := v]))
  {
    var e := Node("Variable", y, []);
    var n := Node("Assignment", x, [e]);
    var v := st.memory[table[y].address];
    CopyCode(table, st, y);
    assert Loaded(table, st, e) == Some(st.(ax := v));
    StoreRuns(table, st, n, st.(ax := v));
  }

  /** `x := "v"`, for a one-word literal that names no variable, compiles,
      and its code stores the string in `x`'s cell. */
  lemma LiteralRuns(table: SymbolTable, st: M.State, x: string, v: string)
    requires x in table && table[x].address < |st.memory|
    requires NoSpace(Quote(v)) && Quote(v) !in table
    ensures var n := Node("Assignment", x, [Node("String", v, [])]);
            && CG.Emit(table, [], n).Ok?
            && Exec(table, CG.Emit(table, [], n).value, st) ==
               M.Next(st.(ax := M.VStr(v), memory := st.memory[table[x].address := M.VStr(v)]))
  {
    var e := Node("String", v, []);
    var n := Node("Assignment", x, [e]);
    LiteralCode(table, st, v);
    assert Loaded(table, st, e) == Some(st.(ax := M.VStr(v)));
    StoreRuns(table, st, n, st.(ax := M.VStr(v)));
  }

  /** An assignment whose right-hand side compiles and loads `s` runs to
      `s` with AX stored in the target's cell. */
  lemma StoreRuns(table: SymbolTable, st: M.State, n: Node, s: M.State)
    requires n.kind == "Assignment" && |n.children| > 0 && n.value in table
    requires CG.GenExpr(table, n.children[0]).Ok? && Loaded(table, st, n.children[0]) == Some(s)
    requires table[n.value].address < |s.memory|
    ensures CG.Emit(table, [], n).Ok?
    ensures Exec(table, CG.Emit(table, [], n).value, st) ==
            M.Next(s.(memory := s.memory[table[n.value].address := s.ax]))
  {
    AssignmentRuns(table, n, st);
  }

  /** A string stored in a `string` variable is what a later write of that
      variable outputs: `x := "v"; write(x)` outputs `v`. */
  lemma StoredStringWritten(table: SymbolTable, st: M.State, x: string, v: string)
    requires x in table && table[x].typ == "string" && table[x].address < |st.memory|
    requires NoSpace(Quote(v)) && Quote(v) !in table
    ensures var n := Node("Statements", "", [Node("Assignment", x, [Node("String", v, [])]),
                                             Node("Write", "", [Node("Variable", x, [])])]);
            && CG.Emit(table, [], n).Ok?
            && var r := Exec(table, CG.Emit(table, [], n).value, st);
               r.Next? && r.state.outputs == st.outputs + [M.VStr(v)]
               && r.state.memory == st.memory[table[x].address := M.VStr(v)]
  {
    var assign := Node("Assignment", x, [Node("String", v, [])]);
    var write := Node("Write", "", [Node("Variable", x, [])]);
    var n := Node("Statements", "", [assign, write]);
    var a := table[x].address;
    LiteralRuns(table, st, x, v);
    var code1 := CG.Emit(table, [], assign).value;
    var s1 := st.(ax := M.VStr(v), memory := st.memory[a := M.VStr(v)]);
    var out := "OUT_STR " + CG.FormatAddress(a) + "\n";
    StringWriteCode(table, write);
    TwoStatementsCode(table, assign, write, code1, [out]);
    OutStrAddressLine(table, s1, a);
    ExecOne(table, out, s1, s1.(outputs := s1.outputs + [M.VStr(v)]));
    ExecAppend(table, code1, [out], st);
  }

  /** The write of an `integer` variable outputs its cell as it is, whether
      it holds an integer, a string (a redeclared name sharing the cell) or
      nothing yet. */
  lemma IntegerCellWritten(table: SymbolTable, st: M.State, x: string)
    requires x in table && table[x].typ == "integer" && table[x].address < |st.memory|
    ensures var n := Node("Write", "", [Node("Variable", x, [])]);
            var cell := st.memory[table[x].address];
            && CG.Emit(table, [], n).Ok?
            && Exec(table, CG.Emit(table, [], n).value, st) == M.Next(st.(ax := cell, outputs := st.outputs + [cell]))
  {
    var n := Node("Write", "", [Node("Variable", x, [])]);
    var a := table[x].address;
    CopyCode(table, st, x);
    var code := CG.GenExpr(table, n.children[0]).value;
    assert CG.Emit(table, [], n) == Ok([] + code + ["OUT AX\n"]) by {
      assert !CG.IsContainer(n.kind) && n.kind != "ProgramName" && n.kind != "Declarations" && n.kind != "Assignment";
      assert CG.WriteType(table, n.children[0]) == Ok(Some("integer"));
    }
    assert [] + code + ["OUT AX\n"] == code + ["OUT AX\n"];
    OutAxLine(table, st.(ax := st.memory[a]));
    ExecOne(table, "OUT AX\n", st.(ax := st.memory[a]), st.(ax := st.memory[a], outputs := st.outputs + [st.memory[a]]));
    ExecAppend(table, code, ["OUT AX\n"], st);
  }

  /** `var x: integer; begin write(x) end` outputs the empty cell. */
  lemma UnsetIntegerWritten(table: SymbolTable, x: string)
    requires x in table && table[x].typ == "integer" && table[x].address < |table|
    ensures var n := Node("Write", "", [Node("Variable", x, [])]);
            && CG.Emit(table, [], n).Ok?
            && var r := Exec(table, CG.Emit(table, [], n).value, M.Initial(table));
               r.Next? && r.state.outputs == [M.Undefined]
  {
    IntegerCellWritten(table, M.Initial(table), x);
  }

  /** The write of a `string` variable compiles to one OUT_STR of its address. */
  lemma StringWriteCode(table: SymbolTable, n: Node)
    requires n.kind == "Write" && |n.children| > 0 && n.children[0].kind == "Variable"
    requires n.children[0].value in table && table[n.children[0].value].typ == "string"
    ensures CG.Emit(table, [], n) == Ok(["OUT_STR " + CG.FormatAddress(table[n.children[0].value].address) + "\n"])
  {
    var line := "OUT_STR " + CG.FormatAddress(table[n.children[0].value].address) + "\n";
    assert CG.Emit(table, [], n) == Ok([] + [line]) by {
      assert !CG.IsContainer(n.kind) && n.kind != "ProgramName" && n.kind != "Declarations" && n.kind != "Assignment";
      assert CG.WriteType(table, n.children[0]) == Ok(Some("string"));
    }
    assert [] + [line] == [line];
  }

  /** Two statements compile to their code, one after the other. */
  lemma TwoStatementsCode(table: SymbolTable, first: Node, second: Node, code1: seq<string>, code2: seq<string>)
    requires CG.Emit(table, [], first) == Ok(code1) && CG.Emit(table, [], second) == Ok(code2)
    ensures CG.Emit(table, [], Node("Statements", "", [first, second])) == Ok(code1 + code2)
  {
    var n := Node("Statements", "", [first, second]);
    CG.EmitAppends(table, code1, second);
    assert n.children[0] == first && n.children[1] == second;
    assert CG.EmitFrom(table, code1 + code2, n, 2) == Ok(code1 + code2);
    assert CG.EmitFrom(table, code1, n, 1) == Ok(code1 + code2);
    assert CG.EmitFrom(table, [], n, 0) == Ok(code1 + code2);
  }

  /** Code that ends in `s`, then a store of AX to an address inside memory. */
  lemma StoreAfter(table: SymbolTable, code: seq<string>, a: nat, st: M.State, s: M.State)
    requires Exec(table, code, st) == M.Next(s) && a < |s.memory|
    ensures Exec(table, code + ["MOV " + CG.FormatAddress(a) + ", AX\n"], st) ==
            M.Next(s.(memory := s.memory[a := s.ax]))
  {
    var store := "MOV " + CG.FormatAddress(a) + ", AX\n";
    StoreLine(table, s, a);
    ExecOne(table, store, s, s.(memory := s.memory[a := s.ax]));
    ExecAppend(table, code, [store], st);
  }

  /** A single line that steps. */
  lemma ExecOne(table: SymbolTable, line: string, st: M.State, next: M.State)
    requires M.LineStep(table, st, line) == M.Next(next)
    ensures Exec(table, [line], st) == M.Next(next)
  {
    assert [line][1..] == [];
  }

  lemma WriteRuns(table: SymbolTable, n: Node, st: M.State)
    requires n.kind == "Write"
    requires CG.Emit(table, [], n).Ok? && Perform(table, st, n).Some?
    ensures Exec(table, CG.Emit(table, [], n).value, st) == M.Next(Perform(table, st, n).value)
  {
    var e := n.children[0];
    var t := CG.WriteType(table, e).value;
    if t == Some("integer") {
      var code := CG.GenExpr(table, e).value;
      assert CG.Emit(table, [], n).value == code + ["OUT AX\n"];
      LoadedRuns(table, e, st);
      ExecAppend(table, code, ["OUT AX\n"], st);
      OutAxLine(table, Loaded(table, st, e).value);
    } else if t == Some("string") && e.kind == "Variable" {
      var a := table[e.value].address;
      OutStrAddressLine(table, st, a);
      assert CG.Emit(table, [], n).value == ["OUT_STR " + CG.FormatAddress(a) + "\n"];
    } else if t == Some("string") && e.kind == "String" {
      OutStrLiteralLine(table, st, e.value);
      assert CG.Emit(table, [], n).value == ["OUT_STR \"" + e.value + "\"\n"];
    } else {
      assert CG.Emit(table, [], n).value == [];
    }
  }

  /** The whole pipeline's back end: a program the generator compiles and
      `Perform` defines runs to the end on a fresh machine, in the state its
      meaning gives. */
  lemma ProgramRuns(table: SymbolTable, program: Node)
    requires CG.Emit(table, [], program).Ok? && Perform(table, M.Initial(table), program).Some?
    ensures var code := CG.Emit(table, [], program).value;
            M.RunFrom(table, code, M.Initial(table), 0) == M.Finished(Perform(table, M.Initial(table), program).value, |code|)
  {
    var code := CG.Emit(table, [], program).value;
    RunIsExec(table, code, M.Initial(table), 0);
    assert code[0..] == code;
    StatementRuns(table, program, M.Initial(table));
    M.RunStops(table, code, M.Initial(table), 0);
  }
}
