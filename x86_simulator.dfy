/**
 * The Simulator class of backend/Simulador.py: a CPU, a byte array of
 * memory, the loaded program and its labels. Every method is proved to
 * leave the object in the state the corresponding function of X86Machine,
 * X86Execute or X86Loader describes, so the properties proved about those
 * functions hold of the object.
 */
module X86Simulator {
  import opened Wrappers
  import opened Text
  import opened X86Cpu
  import opened X86Machine
  import opened X86Execute
  import opened X86Loader
  import opened Driver

  /** The initial stack pointer and base pointer: the top of a 64 KiB stack segment. */
  const StackTop := 0xFFFE

  /** The registers of a new simulator: all 0 except SP and BP. */
  function InitialRegisters(): (regs: RegFile)
    ensures WellFormed(regs)
  {
    Write(Write(ZeroRegisters(), Word(SP), StackTop), Word(BP), StackTop)
  }

  class Simulator {
    const cpu: Cpu
    var memory: array<byte>
    var program: Program
    var labels: map<string, int>

    ghost predicate Valid()
      reads this, cpu
    {
      cpu.Valid() && memory.Length > 0
    }

    /** The machine the executor's functions work on. */
    ghost function State(): (m: Machine)
      reads this, cpu, memory
      requires Valid()
      ensures Ready(m)
    {
      Machine(cpu.registers, cpu.flags, memory[..])
    }

    /** __init__(memory_size): zeroed memory and registers, SP = BP = 0xFFFE, nothing loaded. */
    constructor (memorySize: nat)
      requires memorySize > 0
      ensures Valid() && fresh(cpu) && fresh(memory)
      ensures State() == Machine(InitialRegisters(), ClearFlags, seq(memorySize, _ => 0 as byte))
      ensures program == map[] && labels == map[]
    {
      cpu := new Cpu();
      memory := new byte[memorySize](_ => 0 as byte);
      program := map[];
      labels := map[];
      new;
      cpu.SetRegister(Word(SP), StackTop);
      cpu.SetRegister(Word(BP), StackTop);
    }

    // -------------------------------------------------------------------
    // Memory
    // -------------------------------------------------------------------

    /** _read_memory on segment DS. */
    method ReadMemory(offset: int, w: Width) returns (r: Result<int>)
      requires Valid()
      ensures r == ReadMem(State(), offset, w)
    {
      PhysicalAddressInRange(cpu.registers, DS, offset, memory.Length);
      var address := PhysicalAddress(cpu.registers, DS, offset, memory.Length);
      if w == W8 {
        return Ok(memory[address] as int);
      }
      var low := memory[address] as int;
      if address + 1 >= memory.Length {
        return Err(AddressOutOfRange);
      }
      var high := memory[address + 1] as int;
      return Ok(high * 256 + low);
    }

    /** _write_memory on segment DS: the low byte first, then the high byte if it fits. */
    method WriteMemory(offset: int, value: int, w: Width) returns (fault: Option<Fault>)
      requires Valid()
      modifies memory
      ensures Valid()
      ensures Effect(State(), fault) == WriteMem(old(State()), offset, value, w)
    {
      PhysicalAddressInRange(cpu.registers, DS, offset, memory.Length);
      var address := PhysicalAddress(cpu.registers, DS, offset, memory.Length);
      if w == W8 {
        memory[address] := (value % 256) as byte;
        return None;
      }
      memory[address] := (value % 256) as byte;
      if address + 1 >= memory.Length {
        return Some(AddressOutOfRange);
      }
      memory[address + 1] := (value / 256 % 256) as byte;
      return None;
    }

    // -------------------------------------------------------------------
    // Operands
    // -------------------------------------------------------------------

    /** _get_operand_value. */
    method GetOperandValue(o: Operand, w: Width) returns (r: Result<int>)
      requires Valid()
      ensures r == ReadOperand(State(), o, w)
    {
      match o
      case Reg(ref) => r := Ok(Read(cpu.registers, ref));
      case Name(_) => r := Err(InvalidOperand);
      case Imm(v) => r := Ok(v);
      case MemAt(a) => r := ReadMemory(a, w);
      case MemVia(ref) => r := ReadMemory(Read(cpu.registers, ref), w);
      case MemInvalid => r := Err(UnknownRegister);
    }

    /** _set_operand_value. */
    method SetOperandValue(o: Operand, value: int, w: Width) returns (fault: Option<Fault>)
      requires Valid()
      modifies cpu, memory
      ensures Valid()
      ensures Effect(State(), fault) == WriteOperand(old(State()), o, value, w)
    {
      match o
      case Reg(ref) =>
        cpu.SetRegister(ref, value);
        fault := None;
      case Name(_) => fault := Some(InvalidDestination);
      case Imm(_) => fault := Some(InvalidDestination);
      case MemAt(a) => fault := WriteMemory(a, value, w);
      case MemVia(ref) => fault := WriteMemory(Read(cpu.registers, ref), value, w);
      case MemInvalid => fault := Some(UnknownRegister);
    }
  
    /** Both operands of a two-operand instruction, destination first. */
    method GetOperandPair(dst: Operand, src: Operand, w: Width) returns (r: Result<(int, int)>)
      requires Valid()
      ensures r == ReadPair(State(), dst, src, w)
    {
      var vd := GetOperandValue(dst, w);
      if vd.Err? {
        return Err(vd.fault);
      }
      var vs := GetOperandValue(src, w);
      if vs.Err? {
        return Err(vs.fault);
      }
      r := Ok((vd.value, vs.value));
    }

    /** Writes an arithmetic result to its destination, then sets ZF and SF from it. */
    method SetResult(dst: Operand, result: int, w: Width) returns (fault: Option<Fault>)
      requires Valid()
      modifies cpu, memory
      ensures Valid()
      ensures Effect(State(), fault) == WriteFlagged(old(State()), dst, result, w)
    {
      fault := SetOperandValue(dst, result, w);
      if fault.Some? {
        return;
      }
      cpu.SetFlagsArith(result, w);
    }

    // -------------------------------------------------------------------
    // The instructions of execute_instruction
    // -------------------------------------------------------------------

    method ExecuteMov(ops: seq<Operand>) returns (fault: Option<Fault>)
      requires Valid()
      modifies cpu, memory
      ensures Valid()
      ensures Effect(State(), fault) == Mov(old(State()), ops)
    {
      if |ops| < 2 {
        return Some(MissingOperand);
      }
      var w := PairWidth(ops[0], ops[1]);
      var v := GetOperandValue(ops[1], w);
      if v.Err? {
        return Some(v.fault);
      }
      fault := SetOperandValue(ops[0], v.value, w);
    }

    method ExecutePush(ops: seq<Operand>) returns (fault: Option<Fault>)
      requires Valid()
      modifies cpu, memory
      ensures Valid()
      ensures Effect(State(), fault) == Push(old(State()), ops)
    {
      if |ops| < 1 {
        return Some(MissingOperand);
      }
      var v := GetOperandValue(ops[0], W16);
      if v.Err? {
        return Some(v.fault);
      }
      var sp := cpu.registers[SP] - 2;
      cpu.SetRegister(Word(SP), sp);
      fault := WriteMemory(sp, v.value, W16);
    }

    method ExecutePop(ops: seq<Operand>) returns (fault: Option<Fault>)
      requires Valid()
      modifies cpu, memory
      ensures Valid()
      ensures Effect(State(), fault) == Pop(old(State()), ops)
    {
      if |ops| < 1 {
        return Some(MissingOperand);
      }
      var sp := cpu.registers[SP];
      var v := ReadMemory(sp, W16);
      if v.Err? {
        return Some(v.fault);
      }
      cpu.SetRegister(Word(SP), sp + 2);
      fault := SetOperandValue(ops[0], v.value, W16);
    }

    method ExecuteXchg(ops: seq<Operand>) returns (fault: Option<Fault>)
      requires Valid()
      modifies cpu, memory
      ensures Valid()
      ensures Effect(State(), fault) == Xchg(old(State()), ops)
    {
      if |ops| < 2 {
        return Some(MissingOperand);
      }
      var w := PairWidth(ops[0], ops[1]);
      var pair := GetOperandPair(ops[0], ops[1], w);
      if pair.Err? {
        return Some(pair.fault);
      }
      var (vd, vs) := pair.value;
      fault := SetOperandValue(ops[1], vd, w);
      if fault.Some? {
        return;
      }
      fault := SetOperandValue(ops[0], vs, w);
    }

    /** ADD, SUB, AND, OR, XOR. */
    method ExecuteAlu(op: Mnemonic, ops: seq<Operand>) returns (fault: Option<Fault>)
      requires Valid()
      modifies cpu, memory
      ensures Valid()
      ensures Effect(State(), fault) == Alu(old(State()), op, ops)
    {
      if |ops| < 2 {
        return Some(MissingOperand);
      }
      var w := PairWidth(ops[0], ops[1]);
      var pair := GetOperandPair(ops[0], ops[1], w);
      if pair.Err? {
        return Some(pair.fault);
      }
      var (vd, vs) := pair.value;
      fault := SetResult(ops[0], Combine(op, vd, vs), w);
    }

    /** INC, DEC, NEG and NOT. */
    method ExecuteUnary(op: Mnemonic, ops: seq<Operand>) returns (fault: Option<Fault>)
      requires Valid()
      modifies cpu, memory
      ensures Valid()
      ensures Effect(State(), fault) == Unary(old(State()), op, ops)
    {
      if |ops| < 1 {
        return Some(MissingOperand);
      }
      var w := UnaryWidth(ops[0]);
      var v := GetOperandValue(ops[0], w);
      if v.Err? {
        return Some(v.fault);
      }
      var result := UnaryResult(op, v.value, w);
      if op == NOT {
        fault := SetOperandValue(ops[0], result, w);
      } else {
        fault := SetResult(ops[0], result, w);
      }
    }

    method ExecuteMul(ops: seq<Operand>) returns (fault: Option<Fault>)
      requires Valid()
      modifies cpu
      ensures Valid()
      ensures Effect(State(), fault) == Mul(old(State()), ops)
    {
      if |ops| < 1 {
        return Some(MissingOperand);
      }
      var w := UnaryWidth(ops[0]);
      var v := GetOperandValue(ops[0], w);
      if v.Err? {
        return Some(v.fault);
      }
      if w == W8 {
        var result := Read(cpu.registers, Low(AX)) * v.value;
        cpu.SetRegister(Word(AX), result);
      } else {
        var result := cpu.registers[AX] * v.value;
        cpu.SetRegister(Word(AX), result % WordModulus);
        cpu.SetRegister(Word(DX), result / WordModulus % WordModulus);
      }
      fault := None;
    }

    method ExecuteDiv(ops: seq<Operand>) returns (fault: Option<Fault>)
      requires Valid()
      modifies cpu
      ensures Valid()
      ensures Effect(State(), fault) == Div(old(State()), ops)
    {
      if |ops| < 1 {
        return Some(MissingOperand);
      }
      var w := UnaryWidth(ops[0]);
      var v := GetOperandValue(ops[0], w);
      if v.Err? {
        return Some(v.fault);
      }
      if v.value == 0 {
        return Some(DivideByZero);
      }
      if w == W8 {
        var dividend := cpu.registers[AX];
        cpu.SetRegister(Low(AX), FloorDiv(dividend, v.value));
        cpu.SetRegister(High(AX), FloorMod(dividend, v.value));
      } else {
        var dividend := cpu.registers[DX] * WordModulus + cpu.registers[AX];
        cpu.SetRegister(Word(AX), FloorDiv(dividend, v.value));
        cpu.SetRegister(Word(DX), FloorMod(dividend, v.value));
      }
      fault := None;
    }

    method ExecuteCmp(ops: seq<Operand>) returns (fault: Option<Fault>)
      requires Valid()
      modifies cpu
      ensures Valid()
      ensures Effect(State(), fault) == Cmp(old(State()), ops)
    {
      if |ops| < 2 {
        return Some(MissingOperand);
      }
      var w := PairWidth(ops[0], ops[1]);
      var pair := GetOperandPair(ops[0], ops[1], w);
      if pair.Err? {
        return Some(pair.fault);
      }
      var (a, b) := pair.value;
      cpu.SetFlagsArith(a - b, w);
      fault := None;
    }

    /** JMP, and Jcc once its condition holds. */
    method ExecuteJmp(ops: seq<Operand>) returns (fault: Option<Fault>)
      requires Valid()
      modifies cpu
      ensures Valid()
      ensures Effect(State(), fault) == Jmp(old(State()), labels, ops)
    {
      if |ops| < 1 {
        return Some(MissingOperand);
      }
      var target := Target(labels, ops[0]);
      if target.None? {
        return Some(UnknownLabel);
      }
      cpu.SetRegister(Word(IP), target.value);
      fault := None;
    }

    method ExecuteJumpIf(op: Mnemonic, ops: seq<Operand>) returns (fault: Option<Fault>)
      requires Valid()
      modifies cpu
      ensures Valid()
      ensures Effect(State(), fault) == JumpIf(old(State()), labels, op, ops)
    {
      if !Taken(op, cpu.flags) {
        return None;
      }
      fault := ExecuteJmp(ops);
    }

    method ExecuteCall(ops: seq<Operand>) returns (fault: Option<Fault>)
      requires Valid()
      modifies cpu, memory
      ensures Valid()
      ensures Effect(State(), fault) == Call(old(State()), labels, ops)
    {
      if |ops| < 1 {
        return Some(MissingOperand);
      }
      ghost var m0 := State();
      var ip := cpu.registers[IP];
      var sp := cpu.registers[SP] - 2;
      cpu.SetRegister(Word(SP), sp);
      assert State() == SetWord(m0, SP, sp);
      fault := WriteMemory(sp, ip, W16);
      ghost var e1 := WriteMem(SetWord(m0, SP, sp), sp, ip, W16);
      assert Effect(State(), fault) == e1;
      if fault.Some? {
        assert Call(m0, labels, ops) == e1;
        return;
      }
      var target := Target(labels, ops[0]);
      if target.None? {
        assert Call(m0, labels, ops) == Fail(e1.m, UnknownLabel);
        return Some(UnknownLabel);
      }
      cpu.SetRegister(Word(IP), target.value);
      assert State() == SetIp(e1.m, target.value);
      assert Call(m0, labels, ops) == Done(SetIp(e1.m, target.value));
    }

    /** RET and IRET. */
    method ExecuteRet() returns (fault: Option<Fault>)
      requires Valid()
      modifies cpu
      ensures Valid()
      ensures Effect(State(), fault) == Ret(old(State()))
    {
      var sp := cpu.registers[SP];
      var ip := ReadMemory(sp, W16);
      if ip.Err? {
        return Some(ip.fault);
      }
      cpu.SetRegister(Word(SP), sp + 2);
      cpu.SetRegister(Word(IP), ip.value);
      fault := None;
    }

    method ExecuteLoop(ops: seq<Operand>) returns (fault: Option<Fault>)
      requires Valid()
      modifies cpu
      ensures Valid()
      ensures Effect(State(), fault) == Loop(old(State()), labels, ops)
    {
      if |ops| < 1 {
        return Some(MissingOperand);
      }
      var cx := cpu.registers[CX] - 1;
      cpu.SetRegister(Word(CX), cx);
      if cx == 0 {
        return None;
      }
      var target := Target(labels, ops[0]);
      if target.None? {
        return Some(UnknownLabel);
      }
      cpu.SetRegister(Word(IP), target.value);
      fault := None;
    }

    method ExecuteIn(ops: seq<Operand>) returns (fault: Option<Fault>)
      requires Valid()
      modifies cpu, memory
      ensures Valid()
      ensures Effect(State(), fault) == In(old(State()), ops)
    {
      if |ops| < 2 {
        return Some(MissingOperand);
      }
      fault := SetOperandValue(ops[0], 0, W16);
    }

    method ExecuteOut(ops: seq<Operand>) returns (fault: Option<Fault>)
      requires Valid()
      ensures Effect(State(), fault) == Out(State(), ops)
    {
      if |ops| < 2 {
        return Some(MissingOperand);
      }
      var v := GetOperandValue(ops[1], W16);
      fault := if v.Err? then Some(v.fault) else None;
    }

    /** The movement group of execute_instruction. */
    method ExecuteMovement(op: Mnemonic, ops: seq<Operand>) returns (fault: Option<Fault>)
      requires Valid() && op in MovementOps
      modifies cpu, memory
      ensures Valid()
      ensures Effect(State(), fault) == Movement(old(State()), op, ops)
    {
      if op == MOV {
        fault := ExecuteMov(ops);
      } else if op == PUSH {
        fault := ExecutePush(ops);
      } else if op == POP {
        fault := ExecutePop(ops);
      } else {
        fault := ExecuteXchg(ops);
      }
    }

    /** The arithmetic group of execute_instruction. */
    method ExecuteArithmetic(op: Mnemonic, ops: seq<Operand>) returns (fault: Option<Fault>)
      requires Valid() && op in ArithmeticOps
      modifies cpu, memory
      ensures Valid()
      ensures Effect(State(), fault) == Arithmetic(old(State()), op, ops)
    {
      if op in {ADD, SUB} {
        fault := ExecuteAlu(op, ops);
      } else if op in {INC, DEC, NEG} {
        fault := ExecuteUnary(op, ops);
      } else if op == MUL {
        fault := ExecuteMul(ops);
      } else {
        fault := ExecuteDiv(ops);
      }
    }

    /** The boolean group of execute_instruction. */
    method ExecuteBoolean(op: Mnemonic, ops: seq<Operand>) returns (fault: Option<Fault>)
      requires Valid() && op in BooleanOps
      modifies cpu, memory
      ensures Valid()
      ensures Effect(State(), fault) == Boolean(old(State()), op, ops)
    {
      if op == NOT {
        fault := ExecuteUnary(op, ops);
      } else {
        fault := ExecuteAlu(op, ops);
      }
    }

    /** The test and jump group of execute_instruction. */
    method ExecuteTestJump(op: Mnemonic, ops: seq<Operand>) returns (fault: Option<Fault>)
      requires Valid() && op in TestJumpOps
      modifies cpu
      ensures Valid()
      ensures Effect(State(), fault) == TestJump(old(State()), labels, op, ops)
    {
      if op == CMP {
        fault := ExecuteCmp(ops);
      } else if op == JMP {
        fault := ExecuteJmp(ops);
      } else {
        fault := ExecuteJumpIf(op, ops);
      }
    }

    /** The procedure and loop group of execute_instruction. */
    method ExecuteProcedure(op: Mnemonic, ops: seq<Operand>) returns (fault: Option<Fault>)
      requires Valid() && op in ProcedureOps
      modifies cpu, memory
      ensures Valid()
      ensures Effect(State(), fault) == Procedure(old(State()), labels, op, ops)
    {
      if op == CALL {
        fault := ExecuteCall(ops);
      } else if op == LOOP {
        fault := ExecuteLoop(ops);
      } else {
        fault := ExecuteRet();
      }
    }

    /** The I/O group of execute_instruction. */
    method ExecuteIo(op: Mnemonic, ops: seq<Operand>) returns (fault: Option<Fault>)
      requires Valid() && op in IoOps
      modifies cpu, memory
      ensures Valid()
      ensures Effect(State(), fault) == Io(old(State()), op, ops)
    {
      if op == IN {
        fault := ExecuteIn(ops);
      } else {
        fault := ExecuteOut(ops);
      }
    }

    /** execute_instruction(opcode, operands); an unknown opcode is NotImplementedError. */
    method ExecuteInstruction(op: Mnemonic, ops: seq<Operand>) returns (fault: Option<Fault>)
      requires Valid()
      modifies cpu, memory
      ensures Valid()
      ensures Effect(State(), fault) == Execute(old(State()), labels, op, ops)
    {
      if op in MovementOps {
        fault := ExecuteMovement(op, ops);
      } else if op in ArithmeticOps {
        fault := ExecuteArithmetic(op, ops);
      } else if op in BooleanOps {
        fault := ExecuteBoolean(op, ops);
      } else if op in TestJumpOps {
        fault := ExecuteTestJump(op, ops);
      } else if op in ProcedureOps {
        fault := ExecuteProcedure(op, ops);
      } else if op in IoOps {
        fault := ExecuteIo(op, ops);
      } else {
        fault := Some(UnknownInstruction);
      }
    }

    // -------------------------------------------------------------------
    // step, run, reset
    // -------------------------------------------------------------------

    /** step(): "END" when CS:IP holds no instruction, else advance IP and execute. */
    method Step() returns (status: Status<Fault>)
      requires Valid()
      modifies cpu, memory
      ensures Valid()
      ensures (State(), status) == StepSpec(old(State()), program, labels)
    {
      ghost var m := State();
      var ip := cpu.registers[IP];
      var address := PhysicalAddress(cpu.registers, CS, ip, memory.Length);
      if address !in program {
        assert Fetch(m, program).None?;
        return End;
      }
      var ins := program[address];
      assert Fetch(m, program) == Some(ins);
      cpu.SetRegister(Word(IP), ip + ins.size);
      // The source fetches the entry and sets IP a second time, to the same value.
      ins := program[address];
      cpu.SetRegister(Word(IP), ip + ins.size);
      SetIpTwice(m, ip + ins.size);
      assert memory[..] == m.mem;
      assert State() == Advance(m, ins);
      var fault := ExecuteInstruction(ins.op, ins.operands);
      status := if fault.Some? then Failed(fault.value) else Executed;
    }

    /**
     * run(): IP := 0, then fetch, advance and execute until CS:IP holds no
     * instruction, an instruction raises, or 1000 instructions have completed.
     */
    method Run()
      requires Valid()
      modifies cpu, memory
      ensures Valid()
      ensures State() == RunSpec(old(State()), program, labels).state
    {
      ghost var step := StepOf(program, labels);
      ghost var outcome := RunSpec(State(), program, labels);
      cpu.SetRegister(Word(IP), 0);
      var count := 0;
      while count < MaxInstructions
        invariant Valid() && count <= MaxInstructions
        invariant RunFrom(step, State(), count, MaxInstructions) == outcome
        decreases MaxInstructions - count
      {
        ghost var before := State();
        var status := RunCycle();
        RunTurn(program, labels, before, State(), status, count);
        if status != Executed {
          break;
        }
        count := count + 1;
      }
    }

    /** One pass of run's loop body: the same fetch, advance and execute as step(). */
    method RunCycle() returns (status: Status<Fault>)
      requires Valid()
      modifies cpu, memory
      ensures Valid()
      ensures (State(), status) == StepSpec(old(State()), program, labels)
    {
      ghost var m := State();
      var ip := cpu.registers[IP];
      var address := PhysicalAddress(cpu.registers, CS, ip, memory.Length);
      if address !in program {
        assert Fetch(m, program).None?;
        return End;
      }
      var ins := program[address];
      assert Fetch(m, program) == Some(ins);
      cpu.SetRegister(Word(IP), ip + ins.size);
      assert memory[..] == m.mem;
      assert State() == Advance(m, ins);
      var fault := ExecuteInstruction(ins.op, ins.operands);
      status := if fault.Some? then Failed(fault.value) else Executed;
    }

    /** reset(): registers cleared and IP 0, program and labels emptied; memory and flags stay. */
    method Reset()
      requires Valid()
      modifies this, cpu
      ensures Valid() && memory == old(memory)
      ensures State() == old(State()).(regs := ZeroRegisters())
      ensures program == map[] && labels == map[]
    {
      cpu.Reset();
      cpu.SetRegister(Word(IP), 0);
      labels := map[];
      program := map[];
    }
  
    // -------------------------------------------------------------------
    // Loading
    // -------------------------------------------------------------------

    /**
     * load_program_from_text(text, initial_segments): program and labels
     * cleared, IP and CS set to 0, each `(name, int(value))` of the segments
     * given to set_reg with failures skipped, IP set to 0 again; then pass 1
     * records every label's offset and pass 2 stores every instruction at
     * phys(CS, offset). Memory and flags are untouched.
     */
    method LoadProgramFromText(text: string, segments: seq<(string, Option<int>)>,
                               parseInt: string -> Option<int>)
      requires Valid()
      modifies this, cpu
      ensures Valid() && memory == old(memory) && cpu.flags == old(cpu.flags)
      ensures cpu.registers == LoadedRegisters(old(cpu.registers), segments)
      ensures var ls := ParseLines(Lines(text), parseInt);
              && labels == LabelPass(ls).labels
              && program == ProgramPass(ls, cpu.registers, memory.Length).program
    {
      program := map[];
      labels := map[];
      cpu.SetRegister(Word(IP), 0);
      cpu.SetRegister(Word(CS), 0);
      ghost var cleared := cpu.registers;
      for i := 0 to |segments|
        invariant cpu.Valid() && cpu.flags == old(cpu.flags) && memory == old(memory)
        invariant program == map[] && labels == map[]
        invariant cpu.registers == ApplySegments(cleared, segments[..i])
      {
        assert segments[..i + 1][..i] == segments[..i];
        var (name, value) := segments[i];
        if value.Some? {
          var _ := cpu.SetReg(name, value.value);
        }
      }
      assert segments[..|segments|] == segments;
      cpu.SetRegister(Word(IP), 0);

      // Both passes read each line the same way: as blank, a label or an instruction.
      var ls := ParseLines(Lines(text), parseInt);
      RecordLabels(ls);
      StoreInstructions(ls);
    }

    /** Pass 1 of load_program_from_text: each label gets the offset of the code before it. */
    method RecordLabels(ls: seq<Line>)
      requires Valid() && labels == map[]
      modifies this
      ensures Valid() && memory == old(memory) && program == old(program)
      ensures labels == LabelPass(ls).labels
    {
      var tempOffset := 0;
      for i := 0 to |ls|
        invariant memory == old(memory) && program == old(program)
        invariant LabelState(labels, tempOffset) == LabelPass(ls[..i])
      {
        assert ls[..i + 1][..i] == ls[..i];
        match ls[i]
        case Blank =>
        case LabelDef(name) => labels := labels[name := tempOffset];
        case Instr(ins) => tempOffset := tempOffset + ins.size;
      }
      assert ls[..|ls|] == ls;
    }

    /** Pass 2 of load_program_from_text: each instruction is stored at phys(CS, offset). */
    method StoreInstructions(ls: seq<Line>)
      requires Valid() && program == map[]
      modifies this
      ensures Valid() && memory == old(memory) && labels == old(labels)
      ensures program == ProgramPass(ls, cpu.registers, memory.Length).program
    {
      var currentOffset := 0;
      for i := 0 to |ls|
        invariant memory == old(memory) && labels == old(labels)
        invariant ProgramState(program, currentOffset) == ProgramPass(ls[..i], cpu.registers, memory.Length)
      {
        assert ls[..i + 1][..i] == ls[..i];
        var line := ls[i];
        if line.Instr? {
          var address := PhysicalAddress(cpu.registers, CS, currentOffset, memory.Length);
          program := program[address := line.ins];
          currentOffset := currentOffset + line.ins.size;
        }
      }
      assert ls[..|ls|] == ls;
    }
  }
}
