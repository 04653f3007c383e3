/**
 * What one instruction does (execute_instruction of backend/Simulador.py),
 * and what step and run do with the loaded program.
 *
 * Each effect follows the source's order of operations, so that an exception
 * raised half-way leaves exactly the changes the source made before it.
 */
module X86Execute {
  import opened Wrappers
  import opened X86Cpu
  import opened X86Machine
  import opened Driver

  datatype Mnemonic =
    | MOV | PUSH | POP | XCHG
    | ADD | SUB | INC | DEC | NEG | MUL | DIV
    | AND | OR | XOR | NOT
    | CMP | JMP | JE | JNE | JG | JGE | JL | JLE
    | CALL | RET | IRET | LOOP
    | IN | OUT
    | Unknown

  /** One entry of the program map: (opcode, operands, size). */
  datatype Instruction = Instruction(op: Mnemonic, operands: seq<Operand>, size: int)

  /** The upper-case spelling execute_instruction compares the opcode against. */
  function MnemonicName(op: Mnemonic): string
    requires op != Unknown
  {
    match op
    case MOV => "MOV" case PUSH => "PUSH" case POP => "POP" case XCHG => "XCHG"
    case ADD => "ADD" case SUB => "SUB" case INC => "INC" case DEC => "DEC"
    case NEG => "NEG" case MUL => "MUL" case DIV => "DIV"
    case AND => "AND" case OR => "OR" case XOR => "XOR" case NOT => "NOT"
    case CMP => "CMP" case JMP => "JMP" case JE => "JE" case JNE => "JNE"
    case JG => "JG" case JGE => "JGE" case JL => "JL" case JLE => "JLE"
    case CALL => "CALL" case RET => "RET" case IRET => "IRET" case LOOP => "LOOP"
    case IN => "IN" case OUT => "OUT"
  }

  /** The opcode an upper-cased mnemonic text selects; anything else is unknown. */
  function DecodeMnemonic(text: string): Mnemonic {
    match text
    case "MOV" => MOV case "PUSH" => PUSH case "POP" => POP case "XCHG" => XCHG
    case "ADD" => ADD case "SUB" => SUB case "INC" => INC case "DEC" => DEC
    case "NEG" => NEG case "MUL" => MUL case "DIV" => DIV
    case "AND" => AND case "OR" => OR case "XOR" => XOR case "NOT" => NOT
    case "CMP" => CMP case "JMP" => JMP case "JE" => JE case "JNE" => JNE
    case "JG" => JG case "JGE" => JGE case "JL" => JL case "JLE" => JLE
    case "CALL" => CALL case "RET" => RET case "IRET" => IRET case "LOOP" => LOOP
    case "IN" => IN case "OUT" => OUT
    case _ => Unknown
  }

  /** Every opcode is selected by its own spelling. */
  lemma DecodeMnemonicName(op: Mnemonic)
    requires op != Unknown
    ensures DecodeMnemonic(MnemonicName(op)) == op
  {
    if op in {MOV, PUSH, POP, XCHG, ADD, SUB, INC, DEC, NEG, MUL} {
      DecodeFirstGroup(op);
    } else if op in {DIV, AND, OR, XOR, NOT, CMP, JMP, JE, JNE, JG} {
      DecodeSecondGroup(op);
    } else {
      DecodeThirdGroup(op);
    }
  }

  /** Only an opcode's own spelling selects it: any other text is unknown. */
  lemma DecodeOnlyNames(text: string)
    ensures DecodeMnemonic(text) != Unknown ==> text == MnemonicName(DecodeMnemonic(text))
  {
  }

  lemma DecodeFirstGroup(op: Mnemonic)
    requires op in {MOV, PUSH, POP, XCHG, ADD, SUB, INC, DEC, NEG, MUL}
    ensures DecodeMnemonic(MnemonicName(op)) == op
  {
    match op
    case MOV => case PUSH => case POP => case XCHG => case ADD =>
    case SUB => case INC => case DEC => case NEG => case MUL =>
  }

  lemma DecodeSecondGroup(op: Mnemonic)
    requires op in {DIV, AND, OR, XOR, NOT, CMP, JMP, JE, JNE, JG}
    ensures DecodeMnemonic(MnemonicName(op)) == op
  {
    match op
    case DIV => case AND => case OR => case XOR => case NOT =>
    case CMP => case JMP => case JE => case JNE => case JG =>
  }

  lemma DecodeThirdGroup(op: Mnemonic)
    requires op in {JGE, JL, JLE, CALL, RET, IRET, LOOP, IN, OUT}
    ensures DecodeMnemonic(MnemonicName(op)) == op
  {
    match op
    case JGE => case JL => case JLE => case CALL => case RET =>
    case IRET => case LOOP => case IN => case OUT =>
  }

  // ---------------------------------------------------------------------
  // Arithmetic as Python computes it
  // ---------------------------------------------------------------------

  /** Python's `//`: rounds toward negative infinity for either sign of divisor. */
  function FloorDiv(a: int, b: int): int
    requires b != 0
  {
    if b > 0 then a / b else (-a) / (-b)
  }

  /** Python's `%`: the remainder has the sign of the divisor. */
  function FloorMod(a: int, b: int): int
    requires b != 0
  {
    a - b * FloorDiv(a, b)
  }

  /**
   * `&`, `|`, `^` on the low 16 bits. Every place a result goes (set_reg,
   * _write_memory, set_flags_arith) keeps at most its low 16 bits, and those
   * bits of Python's result depend only on the low 16 bits of the inputs.
   */
  function BitAnd(a: int, b: int): int {
    (((a % WordModulus) as bv16) & ((b % WordModulus) as bv16)) as int
  }

  function BitOr(a: int, b: int): int {
    (((a % WordModulus) as bv16) | ((b % WordModulus) as bv16)) as int
  }

  function BitXor(a: int, b: int): int {
    (((a % WordModulus) as bv16) ^ ((b % WordModulus) as bv16)) as int
  }

  /** `(~v) & mask`: Python's `~v` is `-v - 1`. */
  function BitNot(v: int, w: Width): int {
    (-v - 1) % WidthModulus(w)
  }

  /** The result of a two-operand ALU instruction (ADD, SUB, AND, OR, XOR). */
  function Combine(op: Mnemonic, a: int, b: int): int {
    match op
    case ADD => a + b
    case SUB => a - b
    case AND => BitAnd(a, b)
    case OR => BitOr(a, b)
    case _ => BitXor(a, b)
  }

  /** The result of a one-operand instruction (INC, DEC, NEG, NOT). */
  function UnaryResult(op: Mnemonic, v: int, w: Width): int {
    match op
    case INC => v + 1
    case DEC => v - 1
    case NEG => 0 - v
    case _ => BitNot(v, w)
  }

  function SetIp(m: Machine, v: int): (r: Machine)
    requires Ready(m)
    ensures Ready(r) && |r.mem| == |m.mem|
  {
    m.(regs := Write(m.regs, Word(IP), v))
  }

  function SetWord(m: Machine, r: Reg16, v: int): (res: Machine)
    requires Ready(m)
    ensures Ready(res) && |res.mem| == |m.mem|
  {
    m.(regs := Write(m.regs, Word(r), v))
  }

  /** The jump target of a label operand: `labels[operand.lower()]`. */
  function Target(labels: map<string, int>, o: Operand): Option<int> {
    match LabelKey(o)
    case Some(key) => if key in labels then Some(labels[key]) else None
    case None => None
  }

  /**
   * The lower-cased text of a bare-word operand; a register operand's text
   * lower-cases to the register's name.
   */
  function LabelKey(o: Operand): Option<string> {
    match o
    case Name(text) => Some(Text.Lower(text))
    case Reg(ref) => if IsNamed(ref) then Some(NameOf(ref)) else None
    case _ => None
  }

  // ---------------------------------------------------------------------
  // The instructions
  // ---------------------------------------------------------------------

  function Fail(m: Machine, f: Fault): Effect {
    Effect(m, Some(f))
  }

  function Done(m: Machine): Effect {
    Effect(m, None)
  }

  ghost predicate Sound(m: Machine, e: Effect) {
    Ready(e.m) && |e.m.mem| == |m.mem|
  }

  /** The two operand values a two-operand instruction reads, destination first. */
  function ReadPair(m: Machine, dst: Operand, src: Operand, w: Width): Result<(int, int)>
    requires Ready(m)
  {
    match ReadOperand(m, dst, w)
    case Err(f) => Err(f)
    case Ok(vd) =>
      match ReadOperand(m, src, w)
      case Err(f) => Err(f)
      case Ok(vs) => Ok((vd, vs))
  }

  /** The result written to the destination, then ZF and SF set from it. */
  function WriteFlagged(m: Machine, dst: Operand, result: int, w: Width): (e: Effect)
    requires Ready(m)
    ensures Sound(m, e)
  {
    var e1 := WriteOperand(m, dst, result, w);
    if e1.fault.Some? then e1
    else Done(e1.m.(flags := ArithFlags(e1.m.flags, result, w)))
  }

  /** MOV dst, src. */
  function Mov(m: Machine, ops: seq<Operand>): (e: Effect)
    requires Ready(m)
    ensures Sound(m, e) && e.m.flags == m.flags
  {
    if |ops| < 2 then Fail(m, MissingOperand)
    else
      var w := PairWidth(ops[0], ops[1]);
      match ReadOperand(m, ops[1], w)
      case Err(f) => Fail(m, f)
      case Ok(v) => WriteOperand(m, ops[0], v, w)
  }

  /** XCHG dst, src: write src first, then dst. */
  function Xchg(m: Machine, ops: seq<Operand>): (e: Effect)
    requires Ready(m)
    ensures Sound(m, e) && e.m.flags == m.flags
  {
    if |ops| < 2 then Fail(m, MissingOperand)
    else
      var w := PairWidth(ops[0], ops[1]);
      match ReadPair(m, ops[0], ops[1], w)
      case Err(f) => Fail(m, f)
      case Ok((vd, vs)) =>
        var e1 := WriteOperand(m, ops[1], vd, w);
        if e1.fault.Some? then e1 else WriteOperand(e1.m, ops[0], vs, w)
  }

  /** PUSH src: SP := SP - 2, then the 16-bit value goes to DS:SP. */
  function Push(m: Machine, ops: seq<Operand>): (e: Effect)
    requires Ready(m)
    ensures Sound(m, e) && e.m.flags == m.flags
  {
    if |ops| < 1 then Fail(m, MissingOperand)
    else
      match ReadOperand(m, ops[0], W16)
      case Err(f) => Fail(m, f)
      case Ok(v) =>
        var sp := m.regs[SP] - 2;
        WriteMem(SetWord(m, SP, sp), sp, v, W16)
  }

  /** POP dst: read DS:SP, SP := SP + 2, then write the destination. */
  function Pop(m: Machine, ops: seq<Operand>): (e: Effect)
    requires Ready(m)
    ensures Sound(m, e) && e.m.flags == m.flags
  {
    if |ops| < 1 then Fail(m, MissingOperand)
    else
      var sp := m.regs[SP];
      match ReadMem(m, sp, W16)
      case Err(f) => Fail(m, f)
      case Ok(v) => WriteOperand(SetWord(m, SP, sp + 2), ops[0], v, W16)
  }

  /** ADD, SUB, AND, OR, XOR dst, src: write the result, then set ZF and SF from it. */
  function Alu(m: Machine, op: Mnemonic, ops: seq<Operand>): (e: Effect)
    requires Ready(m)
    ensures Sound(m, e)
  {
    if |ops| < 2 then Fail(m, MissingOperand)
    else
      var w := PairWidth(ops[0], ops[1]);
      match ReadPair(m, ops[0], ops[1], w)
      case Err(f) => Fail(m, f)
      case Ok((vd, vs)) => WriteFlagged(m, ops[0], Combine(op, vd, vs), w)
  }

  /** INC, DEC, NEG (which set ZF and SF) and NOT (which does not). */
  function Unary(m: Machine, op: Mnemonic, ops: seq<Operand>): (e: Effect)
    requires Ready(m)
    ensures Sound(m, e)
    ensures op == NOT ==> e.m.flags == m.flags
  {
    if |ops| < 1 then Fail(m, MissingOperand)
    else
      var w := UnaryWidth(ops[0]);
      match ReadOperand(m, ops[0], w)
      case Err(f) => Fail(m, f)
      case Ok(v) =>
        var result := UnaryResult(op, v, w);
        if op == NOT then WriteOperand(m, ops[0], result, w)
        else WriteFlagged(m, ops[0], result, w)
  }

  /** MUL src: AX := AL * src (8-bit), or DX:AX := AX * src (16-bit); flags untouched. */
  function Mul(m: Machine, ops: seq<Operand>): (e: Effect)
    requires Ready(m)
    ensures Sound(m, e) && e.m.flags == m.flags && e.m.mem == m.mem
  {
    if |ops| < 1 then Fail(m, MissingOperand)
    else
      var w := UnaryWidth(ops[0]);
      match ReadOperand(m, ops[0], w)
      case Err(f) => Fail(m, f)
      case Ok(v) =>
        if w == W8 then
          Done(SetWord(m, AX, Read(m.regs, Low(AX)) * v))
        else
          var result := m.regs[AX] * v;
          var m1 := SetWord(m, AX, result % WordModulus);
          Done(SetWord(m1, DX, result / WordModulus % WordModulus))
  }

  /**
   * DIV src: ZeroDivisionError for 0; otherwise AL, AH := AX // src, AX % src
   * (8-bit) or AX, DX := DX:AX // src, DX:AX % src (16-bit), each truncated by
   * set_reg.
   */
  function Div(m: Machine, ops: seq<Operand>): (e: Effect)
    requires Ready(m)
    ensures Sound(m, e) && e.m.flags == m.flags && e.m.mem == m.mem
  {
    if |ops| < 1 then Fail(m, MissingOperand)
    else
      var w := UnaryWidth(ops[0]);
      match ReadOperand(m, ops[0], w)
      case Err(f) => Fail(m, f)
      case Ok(v) =>
        if v == 0 then Fail(m, DivideByZero)
        else if w == W8 then
          var dividend := m.regs[AX];
          var r1 := Write(m.regs, Low(AX), FloorDiv(dividend, v));
          Done(m.(regs := Write(r1, High(AX), FloorMod(dividend, v))))
        else
          var dividend := m.regs[DX] * WordModulus + m.regs[AX];
          var m1 := SetWord(m, AX, FloorDiv(dividend, v));
          Done(SetWord(m1, DX, FloorMod(dividend, v)))
  }

  /** CMP a, b: flags from a - b, nothing else. */
  function Cmp(m: Machine, ops: seq<Operand>): (e: Effect)
    requires Ready(m)
    ensures Sound(m, e) && e.m.regs == m.regs && e.m.mem == m.mem
  {
    if |ops| < 2 then Fail(m, MissingOperand)
    else
      var w := PairWidth(ops[0], ops[1]);
      match ReadPair(m, ops[0], ops[1], w)
      case Err(f) => Fail(m, f)
      case Ok((a, b)) => Done(m.(flags := ArithFlags(m.flags, a - b, w)))
  }

  /**
   * The jump conditions as the source writes them: the signed comparisons
   * test SF alone (OF is never set), not SF against OF.
   */
  predicate Taken(op: Mnemonic, f: Flags) {
    match op
    case JE => f.zf
    case JNE => !f.zf
    case JG => !f.zf && !f.sf
    case JGE => !f.sf
    case JL => f.sf
    case JLE => f.zf || f.sf
    case _ => true
  }

  /**
   * The six conditions come in complementary pairs (JE/JNE, JL/JGE, JLE/JG),
   * and JG holds exactly when both JNE and JGE do.
   */
  lemma JumpConditionsPaired(f: Flags)
    ensures Taken(JE, f) != Taken(JNE, f)
    ensures Taken(JL, f) != Taken(JGE, f)
    ensures Taken(JLE, f) != Taken(JG, f)
    ensures Taken(JG, f) <==> Taken(JNE, f) && Taken(JGE, f)
  {
  }

  /** JMP label: ValueError when the label is unknown. */
  function Jmp(m: Machine, labels: map<string, int>, ops: seq<Operand>): (e: Effect)
    requires Ready(m)
    ensures Sound(m, e) && e.m.flags == m.flags && e.m.mem == m.mem
  {
    if |ops| < 1 then Fail(m, MissingOperand)
    else
      match Target(labels, ops[0])
      case None => Fail(m, UnknownLabel)
      case Some(t) => Done(SetIp(m, t))
  }

  /** Jcc label: the operand is looked at only when the condition holds. */
  function JumpIf(m: Machine, labels: map<string, int>, op: Mnemonic, ops: seq<Operand>): (e: Effect)
    requires Ready(m)
    ensures Sound(m, e) && e.m.flags == m.flags && e.m.mem == m.mem
  {
    if !Taken(op, m.flags) then Done(m)
    else Jmp(m, labels, ops)
  }

  /** CALL label: push IP (already past the CALL), then jump; KeyError after the push. */
  function Call(m: Machine, labels: map<string, int>, ops: seq<Operand>): (e: Effect)
    requires Ready(m)
    ensures Sound(m, e) && e.m.flags == m.flags
  {
    if |ops| < 1 then Fail(m, MissingOperand)
    else
      var ip := m.regs[IP];
      var sp := m.regs[SP] - 2;
      var e1 := WriteMem(SetWord(m, SP, sp), sp, ip, W16);
      if e1.fault.Some? then e1
      else
        match Target(labels, ops[0])
        case None => Fail(e1.m, UnknownLabel)
        case Some(t) => Done(SetIp(e1.m, t))
  }

  /** RET and IRET: pop IP. */
  function Ret(m: Machine): (e: Effect)
    requires Ready(m)
    ensures Sound(m, e) && e.m.flags == m.flags && e.m.mem == m.mem
  {
    var sp := m.regs[SP];
    match ReadMem(m, sp, W16)
    case Err(f) => Fail(m, f)
    case Ok(ip) => Done(SetIp(SetWord(m, SP, sp + 2), ip))
  }

  /** LOOP label: CX := CX - 1, and jump unless the decremented value is 0. */
  function Loop(m: Machine, labels: map<string, int>, ops: seq<Operand>): (e: Effect)
    requires Ready(m)
    ensures Sound(m, e) && e.m.flags == m.flags && e.m.mem == m.mem
  {
    if |ops| < 1 then Fail(m, MissingOperand)
    else
      var cx := m.regs[CX] - 1;
      var m1 := SetWord(m, CX, cx);
      if cx == 0 then Done(m1)
      else
        match Target(labels, ops[0])
        case None => Fail(m1, UnknownLabel)
        case Some(t) => Done(SetIp(m1, t))
  }

  /** IN dst, port: the simulated port always reads 0. */
  function In(m: Machine, ops: seq<Operand>): (e: Effect)
    requires Ready(m)
    ensures Sound(m, e) && e.m.flags == m.flags
  {
    if |ops| < 2 then Fail(m, MissingOperand)
    else WriteOperand(m, ops[0], 0, W16)
  }

  /** OUT port, src: reads the source (which may fail) and changes nothing. */
  function Out(m: Machine, ops: seq<Operand>): (e: Effect)
    requires Ready(m)
    ensures Sound(m, e) && e.m == m
  {
    if |ops| < 2 then Fail(m, MissingOperand)
    else
      match ReadOperand(m, ops[1], W16)
      case Err(f) => Fail(m, f)
      case Ok(_) => Done(m)
  }

  /** The groups execute_instruction's comments mark, in its order. */
  const MovementOps: set<Mnemonic> := {MOV, PUSH, POP, XCHG}
  const ArithmeticOps: set<Mnemonic> := {ADD, SUB, INC, DEC, NEG, MUL, DIV}
  const BooleanOps: set<Mnemonic> := {AND, OR, XOR, NOT}
  const TestJumpOps: set<Mnemonic> := {CMP, JMP, JE, JNE, JG, JGE, JL, JLE}
  const ProcedureOps: set<Mnemonic> := {CALL, RET, IRET, LOOP}
  const IoOps: set<Mnemonic> := {IN, OUT}

  /** The movement group: MOV, PUSH, POP, XCHG. */
  function Movement(m: Machine, op: Mnemonic, ops: seq<Operand>): (e: Effect)
    requires Ready(m) && op in MovementOps
    ensures Sound(m, e)
  {
    if op == MOV then Mov(m, ops)
    else if op == PUSH then Push(m, ops)
    else if op == POP then Pop(m, ops)
    else Xchg(m, ops)
  }

  /** The arithmetic group: ADD, SUB, INC, DEC, NEG, MUL, DIV. */
  function Arithmetic(m: Machine, op: Mnemonic, ops: seq<Operand>): (e: Effect)
    requires Ready(m) && op in ArithmeticOps
    ensures Sound(m, e)
  {
    if op in {ADD, SUB} then Alu(m, op, ops)
    else if op in {INC, DEC, NEG} then Unary(m, op, ops)
    else if op == MUL then Mul(m, ops)
    else Div(m, ops)
  }

  /** The boolean group: AND, OR, XOR, NOT. */
  function Boolean(m: Machine, op: Mnemonic, ops: seq<Operand>): (e: Effect)
    requires Ready(m) && op in BooleanOps
    ensures Sound(m, e)
  {
    if op == NOT then Unary(m, op, ops) else Alu(m, op, ops)
  }

  /** The test and jump group: CMP, JMP and the conditional jumps. */
  function TestJump(m: Machine, labels: map<string, int>, op: Mnemonic, ops: seq<Operand>): (e: Effect)
    requires Ready(m) && op in TestJumpOps
    ensures Sound(m, e)
  {
    if op == CMP then Cmp(m, ops)
    else if op == JMP then Jmp(m, labels, ops)
    else JumpIf(m, labels, op, ops)
  }

  /** The procedure and loop group: CALL, RET, IRET, LOOP. */
  function Procedure(m: Machine, labels: map<string, int>, op: Mnemonic, ops: seq<Operand>): (e: Effect)
    requires Ready(m) && op in ProcedureOps
    ensures Sound(m, e)
  {
    if op == CALL then Call(m, labels, ops)
    else if op == LOOP then Loop(m, labels, ops)
    else Ret(m)
  }

  /** The I/O group: IN, OUT. */
  function Io(m: Machine, op: Mnemonic, ops: seq<Operand>): (e: Effect)
    requires Ready(m) && op in IoOps
    ensures Sound(m, e)
  {
    if op == IN then In(m, ops) else Out(m, ops)
  }

  /** execute_instruction(opcode, operands). */
  function Execute(m: Machine, labels: map<string, int>, op: Mnemonic, ops: seq<Operand>): (e: Effect)
    requires Ready(m)
    ensures Sound(m, e)
    ensures op == Unknown ==> e == Effect(m, Some(UnknownInstruction))
  {
    if op in MovementOps then Movement(m, op, ops)
    else if op in ArithmeticOps then Arithmetic(m, op, ops)
    else if op in BooleanOps then Boolean(m, op, ops)
    else if op in TestJumpOps then TestJump(m, labels, op, ops)
    else if op in ProcedureOps then Procedure(m, labels, op, ops)
    else if op in IoOps then Io(m, op, ops)
    else Fail(m, UnknownInstruction)
  }

  // ---------------------------------------------------------------------
  // step and run
  // ---------------------------------------------------------------------

  /** The loaded program: physical address to instruction. */
  type Program = map<int, Instruction>

  /** The instruction at CS:IP, if the program has one there. */
  function Fetch(m: Machine, program: Program): (r: Option<Instruction>)
    requires Ready(m)
    ensures r.Some? <==> PhysicalAddress(m.regs, CS, m.regs[IP], |m.mem|) in program
    ensures r.Some? ==> r.value == program[PhysicalAddress(m.regs, CS, m.regs[IP], |m.mem|)] && r.value in program.Values
    ensures r.None? ==> forall a :: a in program ==> a != PhysicalAddress(m.regs, CS, m.regs[IP], |m.mem|)
  {
    var a := PhysicalAddress(m.regs, CS, m.regs[IP], |m.mem|);
    if a in program then Some(program[a]) else None
  }

  /** IP moves past the instruction before it executes. */
  function Advance(m: Machine, ins: Instruction): (r: Machine)
    requires Ready(m)
    ensures Ready(r) && |r.mem| == |m.mem|
    ensures r.regs == m.regs[IP := (m.regs[IP] + ins.size) % WordModulus]
    ensures r.mem == m.mem && r.flags == m.flags
  {
    SetIp(m, m.regs[IP] + ins.size)
  }

  /** step(): fetch, advance IP, execute; "END", "OK" or the error text. */
  function StepSpec(m: Machine, program: Program, labels: map<string, int>): (r: (Machine, Status<Fault>))
    requires Ready(m)
    ensures Ready(r.0) && |r.0.mem| == |m.mem|
    ensures r.1 == End <==> Fetch(m, program).None?
    ensures r.1 == End ==> r.0 == m
  {
    match Fetch(m, program)
    case None => (m, End)
    case Some(ins) =>
      var e := Execute(Advance(m, ins), labels, ins.op, ins.operands);
      (e.m, if e.fault.Some? then Failed(e.fault.value) else Executed)
  }

  /**
   * step() as a function on every machine; only well-formed machines are
   * ever reached, and on the others it reports End.
   */
  ghost function StepOf(program: Program, labels: map<string, int>): Machine -> (Machine, Status<Fault>) {
    m => if Ready(m) then StepSpec(m, program, labels) else (m, End)
  }

  const MaxInstructions: nat := 1000

  /** run(): IP := 0, then at most 1000 steps, stopping at END or the first exception. */
  ghost function RunSpec(m: Machine, program: Program, labels: map<string, int>): (r: Outcome<Machine, Fault>)
    requires Ready(m)
    ensures Ready(r.state) && |r.state.mem| == |m.mem|
    ensures r.executed <= MaxInstructions
  {
    StepOfKeepsReady(program, labels, |m.mem|);
    RunFromKeeps(StepOf(program, labels), ReadyOfSize(|m.mem|), SetIp(m, 0), 0, MaxInstructions);
    RunFrom(StepOf(program, labels), SetIp(m, 0), 0, MaxInstructions)
  }

  /** A ready machine with a memory of the given size. */
  ghost function ReadyOfSize(size: nat): Machine -> bool {
    x => Ready(x) && |x.mem| == size
  }

  /** step() writes IP twice with the same value, which is writing it once. */
  lemma SetIpTwice(m: Machine, v: int)
    requires Ready(m)
    ensures SetIp(SetIp(m, v), v) == SetIp(m, v)
  {
  }

  /** step() keeps a machine well-formed and its memory size fixed. */
  lemma StepOfKeepsReady(program: Program, labels: map<string, int>, size: nat)
    ensures forall x :: ReadyOfSize(size)(x) ==> ReadyOfSize(size)(StepOf(program, labels)(x).0)
  {
    forall x | ReadyOfSize(size)(x)
      ensures ReadyOfSize(size)(StepOf(program, labels)(x).0)
    {
      assert StepOf(program, labels)(x) == StepSpec(x, program, labels);
    }
  }

  /**
   * One turn of run's loop: a step that executes moves on to the next turn;
   * any other status ends run in the state the step left.
   */
  lemma RunTurn(program: Program, labels: map<string, int>, m: Machine, next: Machine,
                status: Status<Fault>, count: nat)
    requires Ready(m) && count < MaxInstructions
    requires (next, status) == StepSpec(m, program, labels)
    ensures var step := StepOf(program, labels);
            && (status == Executed ==>
                  RunFrom(step, m, count, MaxInstructions) == RunFrom(step, next, count + 1, MaxInstructions))
            && (status != Executed ==> RunFrom(step, m, count, MaxInstructions).state == next)
  {
    assert StepOf(program, labels)(m) == StepSpec(m, program, labels);
  }
}
