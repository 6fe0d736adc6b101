/** The virtual machine that runs the generated text instructions: registers
    AX and BX, a stack, a memory with one cell per symbol-table entry, and a
    list of outputs. Each line is stripped, skipped when blank or a `;`
    comment, and otherwise split on whitespace and dispatched on its first
    word. */
module Machine {
  import opened Wrappers
  import opened Text
  import opened Ast

  /** A machine value: Python's None, an integer or a string. */
  datatype Value = Undefined | VInt(n: int) | VStr(s: string)

  /** The reasons the machine raises. `MissingPart` is the IndexError of an
      instruction with fewer words than its command reads; `StackRegister`
      stands for every use of `SP` as an ordinary operand or destination. */
  datatype VmError =
    | UnknownInstruction(instruction: string)
    | MissingPart(instruction: string)
    | UnknownDestination(dest: string)
    | RegisterRequired(command: string, dest: string)
    | IntegersRequired(command: string, left: Value, right: Value)
    | DivisionByZero
    | StackUnderflow
    | StringExpected(found: Value)
    | UnknownOperand(operand: string)
    | InvalidAddress(operand: string)
    | AddressOutOfRange(address: nat)
    | StackRegister

  datatype State = State(ax: Value, bx: Value, stack: seq<Value>, memory: seq<Value>, outputs: seq<Value>)

  /** One instruction's effect: the next state, or the state at the moment
      the machine raised, and why. */
  datatype Step = Next(state: State) | Raise(state: State, error: VmError)

  /** Where a run of the program ends, with the program counter then. */
  datatype Final = Finished(state: State, pc: nat) | Failed(state: State, error: VmError, pc: nat)

  /** The machine never resizes its memory, and outputs are only ever appended. */
  predicate Extends(st: State, s: State) {
    |s.memory| == |st.memory| && st.outputs <= s.outputs
  }

  datatype Reg = AX | BX

  function RegisterNamed(name: string): (r: Option<Reg>)
    ensures r == Some(AX) <==> name == "AX"
    ensures r == Some(BX) <==> name == "BX"
  {
    if name == "AX" then Some(AX) else if name == "BX" then Some(BX) else None
  }

  function Get(st: State, r: Reg): Value {
    if r == AX then st.ax else st.bx
  }

  function Set(st: State, r: Reg, v: Value): State {
    if r == AX then st.(ax := v) else st.(bx := v)
  }

  /** The machine as it starts: every register and cell None, one cell per
      symbol-table entry. */
  function Initial(table: SymbolTable): State {
    State(Undefined, Undefined, [], seq(|table|, _ => Undefined), [])
  }

  // ---------------------------------------------------------------------
  // Operands
  // ---------------------------------------------------------------------

  predicate StartsWith(s: string, c: char) {
    |s| > 0 && s[0] == c
  }

  /** Starts and ends with a double quote (a lone `"` does both). */
  predicate Quoted(s: string) {
    |s| > 0 && s[0] == '"' && s[|s| - 1] == '"'
  }

  /** Python's `s[1:-1]`. */
  function Unquote(s: string): string
    requires Quoted(s)
  {
    if |s| >= 2 then s[1..|s| - 1] else ""
  }

  /** `get_address`: the hexadecimal digits after `$`. */
  function AddressOf(operand: string): (r: Result<nat, VmError>)
    ensures r.Ok? <==> StartsWith(operand, '$') && ParseHex(operand[1..]).Some?
    ensures r.Ok? ==> Some(r.value) == ParseHex(operand[1..])
  {
    if !StartsWith(operand, '$') then Err(InvalidAddress(operand))
    else match ParseHex(operand[1..])
      case None => Err(InvalidAddress(operand))
      case Some(a) => Ok(a)
  }

  function Load(st: State, address: nat): (r: Result<Value, VmError>)
    ensures r.Ok? <==> address < |st.memory|
  {
    if address < |st.memory| then Ok(st.memory[address]) else Err(AddressOutOfRange(address))
  }

  /** `get_value`, trying in turn: a register, a run of digits, a `$`
      address, a symbol-table name, a quoted literal. */
  function Resolve(table: SymbolTable, st: State, operand: string): (r: Result<Value, VmError>)
  {
    if operand == "AX" then Ok(st.ax)
    else if operand == "BX" then Ok(st.bx)
    else if operand == "SP" then Err(StackRegister)
    else if IsDigits(operand) then Ok(VInt(DecimalValue(operand)))
    else if StartsWith(operand, '$') then
      var a :- AddressOf(operand);
      Load(st, a)
    else if operand in table then Load(st, table[operand].address)
    else if Quoted(operand) then Ok(VStr(Unquote(operand)))
    else Err(UnknownOperand(operand))
  }

  // ---------------------------------------------------------------------
  // Instructions
  // ---------------------------------------------------------------------

  /** Python's `a // b`: the quotient rounded toward minus infinity. */
  function FloorDiv(a: int, b: int): (q: int)
    requires b != 0
    ensures b > 0 ==> b * q <= a < b * q + b
    ensures b < 0 ==> b * q >= a > b * q + b
  {
    if b > 0 then a / b else (-a) / (-b)
  }

  function MovStep(table: SymbolTable, st: State, dest: string, src: string): (r: Step)
    ensures |r.state.memory| == |st.memory| && r.state.outputs == st.outputs && r.state.stack == st.stack
  {
    match Resolve(table, st, src)
    case Err(e) => Raise(st, e)
    case Ok(v) =>
      if dest == "AX" || dest == "BX" then Next(Set(st, RegisterNamed(dest).value, v))
      else if dest == "SP" then Raise(st, StackRegister)
      else if StartsWith(dest, '$') then
        match AddressOf(dest)
        case Err(e) => Raise(st, e)
        case Ok(a) =>
          if a < |st.memory| then Next(st.(memory := st.memory[a := v]))
          else Raise(st, AddressOutOfRange(a))
      else Raise(st, UnknownDestination(dest))
  }

  datatype Op = Add | Mul | Sub | Div

  /** The instruction a line's first word names. */
  datatype Command = Mov | Arith(op: Op) | Push | Pop | Out | OutStr | Unknown

  function OpName(op: Op): string {
    match op
    case Add => "ADD"
    case Mul => "MUL"
    case Sub => "SUB"
    case Div => "DIV"
  }

  function CommandName(c: Command): string
    requires !c.Unknown?
  {
    match c
    case Mov => "MOV"
    case Arith(op) => OpName(op)
    case Push => "PUSH"
    case Pop => "POP"
    case Out => "OUT"
    case OutStr => "OUT_STR"
  }

  /** The dispatch of `execute_instruction` on the first word. */
  function CommandOf(word: string): (c: Command)
    ensures !c.Unknown? ==> CommandName(c) == word
  {
    if word == "MOV" then Mov
    else if word == "ADD" then Arith(Add)
    else if word == "MUL" then Arith(Mul)
    else if word == "SUB" then Arith(Sub)
    else if word == "DIV" then Arith(Div)
    else if word == "PUSH" then Push
    else if word == "POP" then Pop
    else if word == "OUT" then Out
    else if word == "OUT_STR" then OutStr
    else Unknown
  }

  /** ADD, MUL, SUB and DIV: `dest := dest + src`, `dest * src`,
      `src - dest` and `src // dest`, on integers in a register only. */
  function ArithStep(table: SymbolTable, st: State, op: Op, dest: string, src: string): (r: Step)
    ensures r.state.memory == st.memory && r.state.outputs == st.outputs && r.state.stack == st.stack
  {
    match Resolve(table, st, src)
    case Err(e) => Raise(st, e)
    case Ok(v) =>
      if dest == "SP" then Raise(st, StackRegister)
      else match RegisterNamed(dest)
        case None => Raise(st, RegisterRequired(OpName(op), dest))
        case Some(r) =>
          var current := Get(st, r);
          if !(current.VInt? && v.VInt?) then Raise(st, IntegersRequired(OpName(op), current, v))
          else match op
            case Add => Next(Set(st, r, VInt(current.n + v.n)))
            case Mul => Next(Set(st, r, VInt(current.n * v.n)))
            case Sub => Next(Set(st, r, VInt(v.n - current.n)))
            case Div =>
              if current.n == 0 then Raise(st, DivisionByZero)
              else Next(Set(st, r, VInt(FloorDiv(v.n, current.n))))
  }

  function PushStep(table: SymbolTable, st: State, src: string): (r: Step)
    ensures r.state.memory == st.memory && r.state.outputs == st.outputs
  {
    match Resolve(table, st, src)
    case Err(e) => Raise(st, e)
    case Ok(v) => Next(st.(stack := st.stack + [v]))
  }

  /** POP removes the top of the stack before it looks at the destination. */
  function PopStep(st: State, dest: string): (r: Step)
    ensures r.state.memory == st.memory && r.state.outputs == st.outputs
  {
    if st.stack == [] then Raise(st, StackUnderflow)
    else
      var v := st.stack[|st.stack| - 1];
      var popped := st.(stack := st.stack[..|st.stack| - 1]);
      if dest == "AX" || dest == "BX" then Next(Set(popped, RegisterNamed(dest).value, v))
      else if dest == "SP" then Raise(popped, StackRegister)
      else Raise(popped, RegisterRequired("POP", dest))
  }

  function OutStep(table: SymbolTable, st: State, src: string): (r: Step)
    ensures r.state.memory == st.memory && r.state.stack == st.stack
    ensures r.Next? <==> Resolve(table, st, src).Ok?
    ensures r.Next? ==> r.state.outputs == st.outputs + [Resolve(table, st, src).value]
    ensures r.Raise? ==> r.state == st
  {
    match Resolve(table, st, src)
    case Err(e) => Raise(st, e)
    case Ok(v) => Next(st.(outputs := st.outputs + [v]))
  }

  function OutStrStep(table: SymbolTable, st: State, src: string): (r: Step)
    ensures r.state.memory == st.memory && r.state.stack == st.stack
    ensures r.Next? ==> exists v :: r.state.outputs == st.outputs + [VStr(v)]
    ensures r.Raise? ==> r.state == st
  {
    if Quoted(src) then Next(st.(outputs := st.outputs + [VStr(Unquote(src))]))
    else match Resolve(table, st, src)
      case Err(e) => Raise(st, e)
      case Ok(v) =>
        if v.VStr? then Next(st.(outputs := st.outputs + [v])) else Raise(st, StringExpected(v))
  }

  /** `execute_instruction` on a stripped, non-blank line. */
  function InstructionStep(table: SymbolTable, st: State, instruction: string): (r: Step)
    ensures Extends(st, r.state) && |r.state.outputs| <= |st.outputs| + 1
  {
    var parts := Split(instruction);
    if parts == [] then Raise(st, MissingPart(instruction))
    else
      match CommandOf(parts[0])
      case Mov =>
        if |parts| < 3 then Raise(st, MissingPart(instruction))
        else MovStep(table, st, RStripComma(parts[1]), parts[2])
      case Arith(op) =>
        if |parts| < 3 then Raise(st, MissingPart(instruction))
        else ArithStep(table, st, op, RStripComma(parts[1]), parts[2])
      case Push => if |parts| < 2 then Raise(st, MissingPart(instruction)) else PushStep(table, st, parts[1])
      case Pop => if |parts| < 2 then Raise(st, MissingPart(instruction)) else PopStep(st, parts[1])
      case Out => if |parts| < 2 then Raise(st, MissingPart(instruction)) else OutStep(table, st, parts[1])
      case OutStr => OutStrStep(table, st, JoinSpace(parts[1..]))
      case Unknown => Raise(st, UnknownInstruction(instruction))
  }

  /** Blank lines and `;` comments are skipped. */
  predicate Skipped(instruction: string) {
    instruction == [] || instruction[0] == ';'
  }

  /** One iteration of the fetch loop, on the raw line. */
  function LineStep(table: SymbolTable, st: State, line: string): (r: Step)
    ensures Extends(st, r.state) && |r.state.outputs| <= |st.outputs| + 1
  {
    var instruction := Strip(line);
    if Skipped(instruction) then Next(st) else InstructionStep(table, st, instruction)
  }

  /** `execute` from program counter `pc`: one line per iteration until the
      counter reaches the end of the code or an instruction raises. */
  function RunFrom(table: SymbolTable, code: seq<string>, st: State, pc: nat): Final
    decreases |code| - pc
  {
    if pc >= |code| then Finished(st, pc)
    else match LineStep(table, st, code[pc])
      case Next(s) => RunFrom(table, code, s, pc + 1)
      case Raise(s, e) => Failed(s, e, pc + 1)
  }

  /** A method's error report and final state agree with a step. */
  predicate Agrees(step: Step, st: State, e: Option<VmError>) {
    match step
    case Next(s) => e == None && st == s
    case Raise(s, err) => e == Some(err) && st == s
  }

  predicate Ends(f: Final, st: State, pc: nat, e: Option<VmError>) {
    match f
    case Finished(s, p) => e == None && st == s && pc == p
    case Failed(s, err, p) => e == Some(err) && st == s && pc == p
  }

  // ---------------------------------------------------------------------
  // The machine object
  // ---------------------------------------------------------------------

  class Interpreter {
    const assemblyCode: seq<string>
    const symbolTable: SymbolTable
    const memory: array<Value>
    var ax: Value
    var bx: Value
    var stack: seq<Value>
    var programCounter: nat
    var outputs: seq<Value>

    function Snapshot(): State
      reads this, memory
    {
      State(ax, bx, stack, memory[..], outputs)
    }

    constructor (assemblyCode: seq<string>, symbolTable: SymbolTable)
      ensures this.assemblyCode == assemblyCode && this.symbolTable == symbolTable
      ensures Snapshot() == Initial(symbolTable) && programCounter == 0
    {
      this.assemblyCode := assemblyCode;
      this.symbolTable := symbolTable;
      memory := new Value[|symbolTable|](_ => Undefined);
      ax, bx := Undefined, Undefined;
      stack := [];
      programCounter := 0;
      outputs := [];
    }

    /** Runs the remaining lines; on a raise, stops with the state as it was then. */
    method Execute() returns (e: Option<VmError>)
      modifies this, memory
      ensures Ends(RunFrom(symbolTable, assemblyCode, old(Snapshot()), old(programCounter)), Snapshot(), programCounter, e)
    {
      ghost var start, startPc := Snapshot(), programCounter;
      while programCounter < |assemblyCode|
        invariant RunFrom(symbolTable, assemblyCode, start, startPc) == RunFrom(symbolTable, assemblyCode, Snapshot(), programCounter)
        decreases |assemblyCode| - programCounter
      {
        var instruction := Strip(assemblyCode[programCounter]);
        programCounter := programCounter + 1;
        if instruction == [] || instruction[0] == ';' {
          continue;
        }
        e := ExecuteInstruction(instruction);
        if e.Some? {
          return;
        }
      }
      return None;
    }

    method ExecuteInstruction(instruction: string) returns (e: Option<VmError>)
      modifies this, memory
      ensures programCounter == old(programCounter)
      ensures Agrees(InstructionStep(symbolTable, old(Snapshot()), instruction), Snapshot(), e)
    {
      var parts := Split(instruction);
      if parts == [] {
        return Some(MissingPart(instruction));
      }
      match CommandOf(parts[0]) {
        case Mov =>
          if |parts| < 3 {
            return Some(MissingPart(instruction));
          }
          e := Mov(RStripComma(parts[1]), parts[2]);
        case Arith(op) =>
          if |parts| < 3 {
            return Some(MissingPart(instruction));
          }
          var dest, src := RStripComma(parts[1]), parts[2];
          match op {
            case Add => e := Add(dest, src);
            case Mul => e := Mul(dest, src);
            case Sub => e := Sub(dest, src);
            case Div => e := Div(dest, src);
          }
        case Push =>
          if |parts| < 2 {
            return Some(MissingPart(instruction));
          }
          e := Push(parts[1]);
        case Pop =>
          if |parts| < 2 {
            return Some(MissingPart(instruction));
          }
          e := Pop(parts[1]);
        case Out =>
          if |parts| < 2 {
            return Some(MissingPart(instruction));
          }
          e := Out(parts[1]);
        case OutStr =>
          e := OutStr(JoinSpace(parts[1..]));
        case Unknown =>
          e := Some(UnknownInstruction(instruction));
      }
    }

    method SetRegister(r: Reg, v: Value)
      modifies this
      ensures Snapshot() == Set(old(Snapshot()), r, v) && programCounter == old(programCounter)
    {
      if r == AX { ax := v; } else { bx := v; }
    }

    method GetValue(operand: string) returns (r: Result<Value, VmError>)
      ensures r == Resolve(symbolTable, Snapshot(), operand)
    {
      if operand == "AX" {
        return Ok(ax);
      } else if operand == "BX" {
        return Ok(bx);
      } else if operand == "SP" {
        return Err(StackRegister);
      } else if IsDigits(operand) {
        return Ok(VInt(DecimalValue(operand)));
      } else if StartsWith(operand, '$') {
        var a := AddressOf(operand);
        if a.Err? {
          return Err(a.error);
        }
        if a.value >= memory.Length {
          return Err(AddressOutOfRange(a.value));
        }
        return Ok(memory[a.value]);
      } else if operand in symbolTable {
        var address := symbolTable[operand].address;
        if address >= memory.Length {
          return Err(AddressOutOfRange(address));
        }
        return Ok(memory[address]);
      } else if Quoted(operand) {
        return Ok(VStr(Unquote(operand)));
      } else {
        return Err(UnknownOperand(operand));
      }
    }

    method Mov(dest: string, src: string) returns (e: Option<VmError>)
      modifies this, memory
      ensures programCounter == old(programCounter)
      ensures Agrees(MovStep(symbolTable, old(Snapshot()), dest, src), Snapshot(), e)
    {
      var value := GetValue(src);
      if value.Err? {
        return Some(value.error);
      }
      if dest == "AX" || dest == "BX" {
        SetRegister(RegisterNamed(dest).value, value.value);
      } else if dest == "SP" {
        return Some(StackRegister);
      } else if StartsWith(dest, '$') {
        var a := AddressOf(dest);
        if a.Err? {
          return Some(a.error);
        }
        if a.value >= memory.Length {
          return Some(AddressOutOfRange(a.value));
        }
        memory[a.value] := value.value;
      } else {
        return Some(UnknownDestination(dest));
      }
      return None;
    }

    /** The shared body of `add`, `mul`, `sub` and `div`. */
    method Arithmetic(op: Op, dest: string, src: string) returns (e: Option<VmError>)
      modifies this
      ensures programCounter == old(programCounter)
      ensures Agrees(ArithStep(symbolTable, old(Snapshot()), op, dest, src), Snapshot(), e)
    {
      var value := GetValue(src);
      if value.Err? {
        return Some(value.error);
      }
      if dest == "SP" {
        return Some(StackRegister);
      }
      var r := RegisterNamed(dest);
      if r.None? {
        return Some(RegisterRequired(OpName(op), dest));
      }
      var current := if r.value == AX then ax else bx;
      if !(current.VInt? && value.value.VInt?) {
        return Some(IntegersRequired(OpName(op), current, value.value));
      }
      match op {
        case Add => SetRegister(r.value, VInt(current.n + value.value.n));
        case Mul => SetRegister(r.value, VInt(current.n * value.value.n));
        case Sub => SetRegister(r.value, VInt(value.value.n - current.n));
        case Div =>
          if current.n == 0 {
            return Some(DivisionByZero);
          }
          SetRegister(r.value, VInt(FloorDiv(value.value.n, current.n)));
      }
      return None;
    }

    method Add(dest: string, src: string) returns (e: Option<VmError>)
      modifies this
      ensures programCounter == old(programCounter)
      ensures Agrees(ArithStep(symbolTable, old(Snapshot()), Op.Add, dest, src), Snapshot(), e)
    {
      e := Arithmetic(Op.Add, dest, src);
    }

    method Mul(dest: string, src: string) returns (e: Option<VmError>)
      modifies this
      ensures programCounter == old(programCounter)
      ensures Agrees(ArithStep(symbolTable, old(Snapshot()), Op.Mul, dest, src), Snapshot(), e)
    {
      e := Arithmetic(Op.Mul, dest, src);
    }

    method Sub(dest: string, src: string) returns (e: Option<VmError>)
      modifies this
      ensures programCounter == old(programCounter)
      ensures Agrees(ArithStep(symbolTable, old(Snapshot()), Op.Sub, dest, src), Snapshot(), e)
    {
      e := Arithmetic(Op.Sub, dest, src);
    }

    method Div(dest: string, src: string) returns (e: Option<VmError>)
      modifies this
      ensures programCounter == old(programCounter)
      ensures Agrees(ArithStep(symbolTable, old(Snapshot()), Op.Div, dest, src), Snapshot(), e)
    {
      e := Arithmetic(Op.Div, dest, src);
    }

    method Push(src: string) returns (e: Option<VmError>)
      modifies this
      ensures programCounter == old(programCounter)
      ensures Agrees(PushStep(symbolTable, old(Snapshot()), src), Snapshot(), e)
    {
      var value := GetValue(src);
      if value.Err? {
        return Some(value.error);
      }
      stack := stack + [value.value];
      return None;
    }

    method Pop(dest: string) returns (e: Option<VmError>)
      modifies this
      ensures programCounter == old(programCounter)
      ensures Agrees(PopStep(old(Snapshot()), dest), Snapshot(), e)
    {
      if stack == [] {
        return Some(StackUnderflow);
      }
      var value := stack[|stack| - 1];
      stack := stack[..|stack| - 1];
      if dest == "AX" || dest == "BX" {
        SetRegister(RegisterNamed(dest).value, value);
      } else if dest == "SP" {
        return Some(StackRegister);
      } else {
        return Some(RegisterRequired("POP", dest));
      }
      return None;
    }

    method Out(src: string) returns (e: Option<VmError>)
      modifies this
      ensures programCounter == old(programCounter)
      ensures Agrees(OutStep(symbolTable, old(Snapshot()), src), Snapshot(), e)
    {
      var value := GetValue(src);
      if value.Err? {
        return Some(value.error);
      }
      outputs := outputs + [value.value];
      return None;
    }

    method OutStr(src: string) returns (e: Option<VmError>)
      modifies this
      ensures programCounter == old(programCounter)
      ensures Agrees(OutStrStep(symbolTable, old(Snapshot()), src), Snapshot(), e)
    {
      if Quoted(src) {
        outputs := outputs + [VStr(Unquote(src))];
        return None;
      }
      var value := GetValue(src);
      if value.Err? {
        return Some(value.error);
      }
      if !value.value.VStr? {
        return Some(StringExpected(value.value));
      }
      outputs := outputs + [value.value];
      return None;
    }
  }

  // ---------------------------------------------------------------------
  // Properties of the machine
  // ---------------------------------------------------------------------

  /** A line whose first visible character is `;` changes nothing. */
  lemma CommentLineIsSkipped(table: SymbolTable, st: State, indent: string, text: string)
    requires forall k :: 0 <= k < |indent| ==> IsSpace(indent[k])
    ensures LineStep(table, st, indent + ";" + text) == Next(st)
  {
    var line := indent + ";" + text;
    assert line[..|indent|] == indent;
    assert line[|indent|] == ';';
    var left := TrimLeft(line);
    TrimLeftDropsSpace(line);
    TrimRightDropsSpace(left);
    assert left[0] == ';';
    assert !IsSpace(left[0]);
    assert Strip(line)[0] == ';';
  }

  /** Registers are looked up before numbers, addresses and names, and a
      run of digits is a number even when a variable has that name. */
  lemma ResolvePriority(table: SymbolTable, st: State, operand: string)
    ensures operand == "AX" ==> Resolve(table, st, operand) == Ok(st.ax)
    ensures operand == "BX" ==> Resolve(table, st, operand) == Ok(st.bx)
    ensures IsDigits(operand) ==> Resolve(table, st, operand) == Ok(VInt(DecimalValue(operand)))
    ensures operand in table && operand != "AX" && operand != "BX" && operand != "SP"
            && !IsDigits(operand) && !StartsWith(operand, '$') ==>
              Resolve(table, st, operand) == Load(st, table[operand].address)
  {
    if IsDigits(operand) {
      assert operand[0] != 'A' && operand[0] != 'B' && operand[0] != 'S';
    }
  }

  /** SUB and DIV put the source on the left: `dest := src - dest` and
      `dest := src // dest`, DIV raising with nothing changed when the
      register holds zero. */
  lemma ReversedOperands(table: SymbolTable, st: State, r: Reg, src: string, a: int, b: int)
    requires Get(st, r) == VInt(a) && Resolve(table, st, src) == Ok(VInt(b))
    ensures var dest := if r == AX then "AX" else "BX";
            && ArithStep(table, st, Sub, dest, src) == Next(Set(st, r, VInt(b - a)))
            && (a == 0 ==> ArithStep(table, st, Div, dest, src) == Raise(st, DivisionByZero))
            && (a != 0 ==> ArithStep(table, st, Div, dest, src) == Next(Set(st, r, VInt(FloorDiv(b, a)))))
  {
  }

  /** Arithmetic needs integers on both sides and a register destination. */
  lemma ArithmeticRejects(table: SymbolTable, st: State, op: Op, dest: string, src: string)
    requires Resolve(table, st, src).Ok?
    ensures RegisterNamed(dest).None? && dest != "SP" ==>
              ArithStep(table, st, op, dest, src) == Raise(st, RegisterRequired(OpName(op), dest))
    ensures RegisterNamed(dest).Some? && !(Get(st, RegisterNamed(dest).value).VInt? && Resolve(table, st, src).value.VInt?) ==>
              ArithStep(table, st, op, dest, src).Raise?
  {
  }

  /** What PUSH stores, POP returns, and the stack is as before. */
  lemma PushThenPop(table: SymbolTable, st: State, src: string, r: Reg)
    requires PushStep(table, st, src).Next?
    ensures var dest := if r == AX then "AX" else "BX";
            PopStep(PushStep(table, st, src).state, dest) == Next(Set(st, r, Resolve(table, st, src).value))
  {
    var pushed := PushStep(table, st, src).state;
    assert pushed.stack[..|pushed.stack| - 1] == st.stack;
  }

  /** POP on an empty stack raises and changes nothing; POP to something
      other than a register raises only after the value is gone. */
  lemma PopFailures(st: State, dest: string)
    ensures st.stack == [] ==> PopStep(st, dest) == Raise(st, StackUnderflow)
    ensures st.stack != [] && dest != "AX" && dest != "BX" ==>
              PopStep(st, dest).Raise? && PopStep(st, dest).state.stack == st.stack[..|st.stack| - 1]
  {
  }

  /** CONCAT, which the code generator emits for string `+`, is not an
      instruction of this machine. */
  lemma ConcatIsUnknown(table: SymbolTable, st: State, instruction: string)
    requires Split(instruction) != [] && Split(instruction)[0] == "CONCAT"
    ensures InstructionStep(table, st, instruction) == Raise(st, UnknownInstruction(instruction))
  {
    assert CommandOf("CONCAT") == Unknown;
  }

  /** Every command word is recognised as the command it names. */
  lemma CommandNamesRecognised(c: Command)
    requires !c.Unknown?
    ensures CommandOf(CommandName(c)) == c
  {
  }

  lemma {:induction false} RunExtends(table: SymbolTable, code: seq<string>, st: State, pc: nat)
    ensures Extends(st, RunFrom(table, code, st, pc).state)
    decreases |code| - pc
  {
    if pc < |code| {
      var instruction := Strip(code[pc]);
      var step := LineStep(table, st, code[pc]);
      if step.Next? {
        RunExtends(table, code, step.state, pc + 1);
      }
    }
  }

  /** A run that finishes has consumed every line; one that fails stops
      just past the line that raised. */
  lemma {:induction false} RunStops(table: SymbolTable, code: seq<string>, st: State, pc: nat)
    ensures var f := RunFrom(table, code, st, pc);
            && (f.Finished? ==> f.pc == if pc < |code| then |code| else pc)
            && (f.Failed? ==> pc < f.pc <= |code|)
    decreases |code| - pc
  {
    if pc < |code| && LineStep(table, st, code[pc]).Next? {
      RunStops(table, code, LineStep(table, st, code[pc]).state, pc + 1);
    }
  }
}
