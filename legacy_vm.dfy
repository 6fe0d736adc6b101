/** The older, integer-only machine: registers and memory cells start at
    zero, values are integers only, and just MOV, ADD, MUL, PUSH, POP and OUT
    are understood. What OUT prints is kept as a trace of values. */
module LegacyMachine {
  import opened Wrappers
  import opened Text
  import opened Ast
  import M = Machine

  datatype State = State(ax: int, bx: int, stack: seq<int>, memory: seq<int>, trace: seq<int>)

  datatype Step = Next(state: State) | Raise(state: State, error: M.VmError)

  datatype Final = Finished(state: State, pc: nat) | Failed(state: State, error: M.VmError, pc: nat)

  function Get(st: State, r: M.Reg): int {
    if r == M.AX then st.ax else st.bx
  }

  function Set(st: State, r: M.Reg, v: int): State {
    if r == M.AX then st.(ax := v) else st.(bx := v)
  }

  /** Registers at zero, an empty stack, one zeroed cell per symbol. */
  function Initial(table: SymbolTable): State {
    State(0, 0, [], seq(|table|, _ => 0), [])
  }

  function Load(st: State, address: nat): (r: Result<int, M.VmError>)
    ensures r.Ok? <==> address < |st.memory|
  {
    if address < |st.memory| then Ok(st.memory[address]) else Err(M.AddressOutOfRange(address))
  }

  /** `get_value`: a register, a run of digits, a `$` address or a
      symbol-table name; there are no string literals. */
  function Resolve(table: SymbolTable, st: State, operand: string): Result<int, M.VmError> {
    if operand == "AX" then Ok(st.ax)
    else if operand == "BX" then Ok(st.bx)
    else if operand == "SP" then Err(M.StackRegister)
    else if IsDigits(operand) then Ok(DecimalValue(operand))
    else if M.StartsWith(operand, '$') then
      var a :- M.AddressOf(operand);
      Load(st, a)
    else if operand in table then Load(st, table[operand].address)
    else Err(M.UnknownOperand(operand))
  }

  function MovStep(table: SymbolTable, st: State, dest: string, src: string): (r: Step)
    ensures |r.state.memory| == |st.memory| && r.state.trace == st.trace
  {
    match Resolve(table, st, src)
    case Err(e) => Raise(st, e)
    case Ok(v) =>
      if dest == "AX" || dest == "BX" then Next(Set(st, M.RegisterNamed(dest).value, v))
      else if dest == "SP" then Raise(st, M.StackRegister)
      else if M.StartsWith(dest, '$') then
        match M.AddressOf(dest)
        case Err(e) => Raise(st, e)
        case Ok(a) =>
          if a < |st.memory| then Next(st.(memory := st.memory[a := v]))
          else Raise(st, M.AddressOutOfRange(a))
      else Raise(st, M.UnknownDestination(dest))
  }

  /** ADD and MUL into a register, with no check on the operands' types. */
  function ArithStep(table: SymbolTable, st: State, op: M.Op, dest: string, src: string): (r: Step)
    requires op == M.Add || op == M.Mul
    ensures r.state.memory == st.memory && r.state.trace == st.trace && r.state.stack == st.stack
  {
    match Resolve(table, st, src)
    case Err(e) => Raise(st, e)
    case Ok(v) =>
      if dest == "SP" then Raise(st, M.StackRegister)
      else match M.RegisterNamed(dest)
        case None => Raise(st, M.RegisterRequired(M.OpName(op), dest))
        case Some(r) =>
          if op == M.Add then Next(Set(st, r, Get(st, r) + v)) else Next(Set(st, r, Get(st, r) * v))
  }

  function PushStep(table: SymbolTable, st: State, src: string): (r: Step)
    ensures r.state.memory == st.memory && r.state.trace == st.trace
  {
    match Resolve(table, st, src)
    case Err(e) => Raise(st, e)
    case Ok(v) => Next(st.(stack := st.stack + [v]))
  }

  /** POP removes the top of the stack before it looks at the destination. */
  function PopStep(st: State, dest: string): (r: Step)
    ensures r.state.memory == st.memory && r.state.trace == st.trace
  {
    if st.stack == [] then Raise(st, M.StackUnderflow)
    else
      var v := st.stack[|st.stack| - 1];
      var popped := st.(stack := st.stack[..|st.stack| - 1]);
      if dest == "AX" || dest == "BX" then Next(Set(popped, M.RegisterNamed(dest).value, v))
      else if dest == "SP" then Raise(popped, M.StackRegister)
      else Raise(popped, M.RegisterRequired("POP", dest))
  }

  /** OUT prints the value; the model records it in the trace. */
  function OutStep(table: SymbolTable, st: State, src: string): (r: Step)
    ensures r.state.memory == st.memory && r.state.stack == st.stack
    ensures r.Next? <==> Resolve(table, st, src).Ok?
    ensures r.Next? ==> r.state.trace == st.trace + [Resolve(table, st, src).value]
    ensures r.Raise? ==> r.state == st
  {
    match Resolve(table, st, src)
    case Err(e) => Raise(st, e)
    case Ok(v) => Next(st.(trace := st.trace + [v]))
  }

  /** `execute_instruction`: SUB, DIV and OUT_STR are unknown here. */
  function InstructionStep(table: SymbolTable, st: State, instruction: string): (r: Step)
    ensures |r.state.memory| == |st.memory| && st.trace <= r.state.trace
  {
    var parts := Split(instruction);
    if parts == [] then Raise(st, M.MissingPart(instruction))
    else
      match M.CommandOf(parts[0])
      case Mov =>
        if |parts| < 3 then Raise(st, M.MissingPart(instruction))
        else MovStep(table, st, RStripComma(parts[1]), parts[2])
      case Arith(op) =>
        if op != M.Add && op != M.Mul then Raise(st, M.UnknownInstruction(instruction))
        else if |parts| < 3 then Raise(st, M.MissingPart(instruction))
        else ArithStep(table, st, op, RStripComma(parts[1]), parts[2])
      case Push => if |parts| < 2 then Raise(st, M.MissingPart(instruction)) else PushStep(table, st, parts[1])
      case Pop => if |parts| < 2 then Raise(st, M.MissingPart(instruction)) else PopStep(st, parts[1])
      case Out => if |parts| < 2 then Raise(st, M.MissingPart(instruction)) else OutStep(table, st, parts[1])
      case OutStr => Raise(st, M.UnknownInstruction(instruction))
      case Unknown => Raise(st, M.UnknownInstruction(instruction))
  }

  function LineStep(table: SymbolTable, st: State, line: string): (r: Step)
    ensures |r.state.memory| == |st.memory| && st.trace <= r.state.trace
  {
    var instruction := Strip(line);
    if M.Skipped(instruction) then Next(st) else InstructionStep(table, st, instruction)
  }

  function RunFrom(table: SymbolTable, code: seq<string>, st: State, pc: nat): Final
    decreases |code| - pc
  {
    if pc >= |code| then Finished(st, pc)
    else match LineStep(table, st, code[pc])
      case Next(s) => RunFrom(table, code, s, pc + 1)
      case Raise(s, e) => Failed(s, e, pc + 1)
  }

  predicate Agrees(step: Step, st: State, e: Option<M.VmError>) {
    match step
    case Next(s) => e == None && st == s
    case Raise(s, err) => e == Some(err) && st == s
  }

  predicate Ends(f: Final, st: State, pc: nat, e: Option<M.VmError>) {
    match f
    case Finished(s, p) => e == None && st == s && pc == p
    case Failed(s, err, p) => e == Some(err) && st == s && pc == p
  }

  class Interpreter {
    const assemblyCode: seq<string>
    const symbolTable: SymbolTable
    const memory: array<int>
    var ax: int
    var bx: int
    var stack: seq<int>
    var programCounter: nat
    var trace: seq<int>

    function Snapshot(): State
      reads this, memory
    {
      State(ax, bx, stack, memory[..], trace)
    }

    constructor (assemblyCode: seq<string>, symbolTable: SymbolTable)
      ensures this.assemblyCode == assemblyCode && this.symbolTable == symbolTable
      ensures Snapshot() == Initial(symbolTable) && programCounter == 0
    {
      this.assemblyCode := assemblyCode;
      this.symbolTable := symbolTable;
      memory := new int[|symbolTable|](_ => 0);
      ax, bx := 0, 0;
      stack := [];
      programCounter := 0;
      trace := [];
    }

    method Execute() returns (e: Option<M.VmError>)
      modifies this, memory
      ensures Ends(RunFrom(symbolTable, assemblyCode, old(Snapshot()), old(programCounter)), Snapshot(), programCounter, e)
    {
      ghost var start, startPc := Snapshot(), programCounter;
      while programCounter < |assemblyCode|
        invariant RunFrom(symbolTable, assemblyCode, start, startPc) == RunFrom(symbolTable, assemblyCode, Snapshot(), programCounter)
        decreases |assemblyCode| - programCounter
      {
        var instruction := Strip(assemblyCode[programCounter]);
        programCounter := programCounter + 1;
        if instruction == [] || instruction[0] == ';' {
          continue;
        }
        e := ExecuteInstruction(instruction);
        if e.Some? {
          return;
        }
      }
      return None;
    }

    method ExecuteInstruction(instruction: string) returns (e: Option<M.VmError>)
      modifies this, memory
      ensures programCounter == old(programCounter)
      ensures Agrees(InstructionStep(symbolTable, old(Snapshot()), instruction), Snapshot(), e)
    {
      var parts := Split(instruction);
      if parts == [] {
        return Some(M.MissingPart(instruction));
      }
      match M.CommandOf(parts[0]) {
        case Mov =>
          if |parts| < 3 {
            return Some(M.MissingPart(instruction));
          }
          e := Mov(RStripComma(parts[1]), parts[2]);
        case Arith(op) =>
          if op != M.Add && op != M.Mul {
            return Some(M.UnknownInstruction(instruction));
          }
          if |parts| < 3 {
            return Some(M.MissingPart(instruction));
          }
          if op == M.Add {
            e := Add(RStripComma(parts[1]), parts[2]);
          } else {
            e := Mul(RStripComma(parts[1]), parts[2]);
          }
        case Push =>
          if |parts| < 2 {
            return Some(M.MissingPart(instruction));
          }
          e := Push(parts[1]);
        case Pop =>
          if |parts| < 2 {
            return Some(M.MissingPart(instruction));
          }
          e := Pop(parts[1]);
        case Out =>
          if |parts| < 2 {
            return Some(M.MissingPart(instruction));
          }
          e := Out(parts[1]);
        case OutStr =>
          e := Some(M.UnknownInstruction(instruction));
        case Unknown =>
          e := Some(M.UnknownInstruction(instruction));
      }
    }

    method SetRegister(r: M.Reg, v: int)
      modifies this
      ensures Snapshot() == Set(old(Snapshot()), r, v) && programCounter == old(programCounter)
    {
      if r == M.AX { ax := v; } else { bx := v; }
    }

    method GetValue(operand: string) returns (r: Result<int, M.VmError>)
      ensures r == Resolve(symbolTable, Snapshot(), operand)
    {
      if operand == "AX" {
        return Ok(ax);
      } else if operand == "BX" {
        return Ok(bx);
      } else if operand == "SP" {
        return Err(M.StackRegister);
      } else if IsDigits(operand) {
        return Ok(DecimalValue(operand));
      } else if M.StartsWith(operand, '$') {
        var a := M.AddressOf(operand);
        if a.Err? {
          return Err(a.error);
        }
        if a.value >= memory.Length {
          return Err(M.AddressOutOfRange(a.value));
        }
        return Ok(memory[a.value]);
      } else if operand in symbolTable {
        var address := symbolTable[operand].address;
        if address >= memory.Length {
          return Err(M.AddressOutOfRange(address));
        }
        return Ok(memory[address]);
      } else {
        return Err(M.UnknownOperand(operand));
      }
    }

    method Mov(dest: string, src: string) returns (e: Option<M.VmError>)
      modifies this, memory
      ensures programCounter == old(programCounter)
      ensures Agrees(MovStep(symbolTable, old(Snapshot()), dest, src), Snapshot(), e)
    {
      var value := GetValue(src);
      if value.Err? {
        return Some(value.error);
      }
      if dest == "AX" || dest == "BX" {
        SetRegister(M.RegisterNamed(dest).value, value.value);
      } else if dest == "SP" {
        return Some(M.StackRegister);
      } else if M.StartsWith(dest, '$') {
        var a := M.AddressOf(dest);
        if a.Err? {
          return Some(a.error);
        }
        if a.value >= memory.Length {
          return Some(M.AddressOutOfRange(a.value));
        }
        memory[a.value] := value.value;
      } else {
        return Some(M.UnknownDestination(dest));
      }
      return None;
    }

    method Add(dest: string, src: string) returns (e: Option<M.VmError>)
      modifies this
      ensures programCounter == old(programCounter)
      ensures Agrees(ArithStep(symbolTable, old(Snapshot()), M.Add, dest, src), Snapshot(), e)
    {
      var value := GetValue(src);
      if value.Err? {
        return Some(value.error);
      }
      if dest == "SP" {
        return Some(M.StackRegister);
      }
      var r := M.RegisterNamed(dest);
      if r.None? {
        return Some(M.RegisterRequired("ADD", dest));
      }
      var current := if r.value == M.AX then ax else bx;
      SetRegister(r.value, current + value.value);
      return None;
    }

    method Mul(dest: string, src: string) returns (e: Option<M.VmError>)
      modifies this
      ensures programCounter == old(programCounter)
      ensures Agrees(ArithStep(symbolTable, old(Snapshot()), M.Mul, dest, src), Snapshot(), e)
    {
      var value := GetValue(src);
      if value.Err? {
        return Some(value.error);
      }
      if dest == "SP" {
        return Some(M.StackRegister);
      }
      var r := M.RegisterNamed(dest);
      if r.None? {
        return Some(M.RegisterRequired("MUL", dest));
      }
      var current := if r.value == M.AX then ax else bx;
      SetRegister(r.value, current * value.value);
      return None;
    }

    method Push(src: string) returns (e: Option<M.VmError>)
      modifies this
      ensures programCounter == old(programCounter)
      ensures Agrees(PushStep(symbolTable, old(Snapshot()), src), Snapshot(), e)
    {
      var value := GetValue(src);
      if value.Err? {
        return Some(value.error);
      }
      stack := stack + [value.value];
      return None;
    }

    method Pop(dest: string) returns (e: Option<M.VmError>)
      modifies this
      ensures programCounter == old(programCounter)
      ensures Agrees(PopStep(old(Snapshot()), dest), Snapshot(), e)
    {
      if stack == [] {
        return Some(M.StackUnderflow);
      }
      var value := stack[|stack| - 1];
      stack := stack[..|stack| - 1];
      if dest == "AX" || dest == "BX" {
        SetRegister(M.RegisterNamed(dest).value, value);
      } else if dest == "SP" {
        return Some(M.StackRegister);
      } else {
        return Some(M.RegisterRequired("POP", dest));
      }
      return None;
    }

    method Out(src: string) returns (e: Option<M.VmError>)
      modifies this
      ensures programCounter == old(programCounter)
      ensures Agrees(OutStep(symbolTable, old(Snapshot()), src), Snapshot(), e)
    {
      var value := GetValue(src);
      if value.Err? {
        return Some(value.error);
      }
      trace := trace + [value.value];
      return None;
    }
  }

  // ---------------------------------------------------------------------
  // Properties, and the relation to the newer machine
  // ---------------------------------------------------------------------

  /** Only MOV, ADD, MUL, PUSH, POP and OUT are instructions here. */
  lemma OnlySixCommands(table: SymbolTable, st: State, instruction: string)
    requires Split(instruction) != []
    requires var c := M.CommandOf(Split(instruction)[0]);
             c == M.Arith(M.Sub) || c == M.Arith(M.Div) || c == M.OutStr || c == M.Unknown
    ensures InstructionStep(table, st, instruction) == Raise(st, M.UnknownInstruction(instruction))
  {
  }

  /** ADD and MUL accumulate into the register whatever it holds. */
  lemma Accumulates(table: SymbolTable, st: State, r: M.Reg, src: string)
    requires Resolve(table, st, src).Ok?
    ensures var dest := if r == M.AX then "AX" else "BX";
            var v := Resolve(table, st, src).value;
            && ArithStep(table, st, M.Add, dest, src) == Next(Set(st, r, Get(st, r) + v))
            && ArithStep(table, st, M.Mul, dest, src) == Next(Set(st, r, Get(st, r) * v))
  {
  }

  /** The newer machine's view of a state: every integer wrapped as a value. */
  function Ints(xs: seq<int>): (r: seq<M.Value>)
    ensures |r| == |xs| && forall k :: 0 <= k < |xs| ==> r[k] == M.VInt(xs[k])
  {
    seq(|xs|, k requires 0 <= k < |xs| => M.VInt(xs[k]))
  }

  function Lift(st: State): M.State {
    M.State(M.VInt(st.ax), M.VInt(st.bx), Ints(st.stack), Ints(st.memory), Ints(st.trace))
  }

  lemma IntsAppend(xs: seq<int>, x: int)
    ensures Ints(xs + [x]) == Ints(xs) + [M.VInt(x)]
  {
  }

  lemma IntsPrefix(xs: seq<int>, n: nat)
    requires n <= |xs|
    ensures Ints(xs[..n]) == Ints(xs)[..n]
  {
  }

  lemma IntsUpdate(xs: seq<int>, i: nat, x: int)
    requires i < |xs|
    ensures Ints(xs[i := x]) == Ints(xs)[i := M.VInt(x)]
  {
  }

  /** Where the older machine resolves an operand, the newer one resolves it
      to the same integer. */
  lemma ResolveLifts(table: SymbolTable, st: State, operand: string)
    requires Resolve(table, st, operand).Ok?
    ensures M.Resolve(table, Lift(st), operand) == Ok(M.VInt(Resolve(table, st, operand).value))
  {
  }

  /** Every instruction the older machine completes, the newer one completes
      with the same effect. */
  lemma InstructionLifts(table: SymbolTable, st: State, instruction: string)
    requires InstructionStep(table, st, instruction).Next?
    ensures M.InstructionStep(table, Lift(st), instruction) == M.Next(Lift(InstructionStep(table, st, instruction).state))
  {
    var parts := Split(instruction);
    match M.CommandOf(parts[0]) {
      case Mov =>
        assert InstructionStep(table, st, instruction) == MovStep(table, st, RStripComma(parts[1]), parts[2]);
        MovLifts(table, st, RStripComma(parts[1]), parts[2]);
      case Arith(op) =>
        assert InstructionStep(table, st, instruction) == ArithStep(table, st, op, RStripComma(parts[1]), parts[2]);
        ArithLifts(table, st, op, RStripComma(parts[1]), parts[2]);
      case Push =>
        assert InstructionStep(table, st, instruction) == PushStep(table, st, parts[1]);
        PushLifts(table, st, parts[1]);
      case Pop =>
        assert InstructionStep(table, st, instruction) == PopStep(st, parts[1]);
        PopLifts(st, parts[1]);
      case Out =>
        assert InstructionStep(table, st, instruction) == OutStep(table, st, parts[1]);
        OutLifts(table, st, parts[1]);
    }
  }

  lemma MovLifts(table: SymbolTable, st: State, dest: string, src: string)
    requires MovStep(table, st, dest, src).Next?
    ensures M.MovStep(table, Lift(st), dest, src) == M.Next(Lift(MovStep(table, st, dest, src).state))
  {
    ResolveLifts(table, st, src);
    var a := M.AddressOf(dest);
    if dest != "AX" && dest != "BX" && a.Ok? && a.value < |st.memory| {
      IntsUpdate(st.memory, a.value, Resolve(table, st, src).value);
    }
  }

  lemma ArithLifts(table: SymbolTable, st: State, op: M.Op, dest: string, src: string)
    requires op == M.Add || op == M.Mul
    requires ArithStep(table, st, op, dest, src).Next?
    ensures M.ArithStep(table, Lift(st), op, dest, src) == M.Next(Lift(ArithStep(table, st, op, dest, src).state))
  {
    ResolveLifts(table, st, src);
  }

  lemma PushLifts(table: SymbolTable, st: State, src: string)
    requires PushStep(table, st, src).Next?
    ensures M.PushStep(table, Lift(st), src) == M.Next(Lift(PushStep(table, st, src).state))
  {
    ResolveLifts(table, st, src);
    IntsAppend(st.stack, Resolve(table, st, src).value);
  }

  lemma PopLifts(st: State, dest: string)
    requires PopStep(st, dest).Next?
    ensures M.PopStep(Lift(st), dest) == M.Next(Lift(PopStep(st, dest).state))
  {
    IntsPrefix(st.stack, |st.stack| - 1);
  }

  lemma OutLifts(table: SymbolTable, st: State, src: string)
    requires OutStep(table, st, src).Next?
    ensures M.OutStep(table, Lift(st), src) == M.Next(Lift(OutStep(table, st, src).state))
  {
    ResolveLifts(table, st, src);
    IntsAppend(st.trace, Resolve(table, st, src).value);
  }

  /** A run the older machine finishes, the newer machine finishes from the
      lifted state, in the lifted final state. */
  lemma {:induction false} RunLifts(table: SymbolTable, code: seq<string>, st: State, pc: nat)
    requires RunFrom(table, code, st, pc).Finished?
    ensures M.RunFrom(table, code, Lift(st), pc) == M.Finished(Lift(RunFrom(table, code, st, pc).state), RunFrom(table, code, st, pc).pc)
    decreases |code| - pc
  {
    if pc < |code| {
      var instruction := Strip(code[pc]);
      if !M.Skipped(instruction) {
        InstructionLifts(table, st, instruction);
      }
      RunLifts(table, code, LineStep(table, st, code[pc]).state, pc + 1);
    }
  }
}
