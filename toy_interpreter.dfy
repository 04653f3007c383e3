/**
 * The page script src/main.js as values: a four-instruction language over
 * five registers and 32 memory cells, what one line of it means, and how the
 * loaded program is stepped and run line by line.
 *
 * The script leaves three cases to JavaScript's object semantics: a register
 * name that is none of the five adds a new property, an index outside the
 * array grows it, and a number text parseInt cannot read stores NaN. The model
 * closes each of them as a rejected line that changes nothing.
 */
module ToyInterpreter {
  import opened Wrappers
  import opened Text
  import opened Driver

  datatype ToyReg = AX | BX | CX | DX | IP

  /** The `registers` object. */
  type Registers = map<ToyReg, int>

  /** `new Array(32)`. */
  const MemorySize: nat := 32

  /** An index of the memory array. */
  type Cell = a: int | 0 <= a < 32

  ghost predicate Complete(regs: Registers) {
    forall r: ToyReg :: r in regs
  }

  /** `{ AX: 0, BX: 0, CX: 0, DX: 0, IP: 0 }`. */
  function ZeroRegisters(): (regs: Registers)
    ensures Complete(regs)
    ensures forall r: ToyReg :: regs[r] == 0
  {
    ZeroMapCovers();
    map[AX := 0, BX := 0, CX := 0, DX := 0, IP := 0]
  }

  lemma ZeroMapCovers()
    ensures var regs := map[AX := 0, BX := 0, CX := 0, DX := 0, IP := 0];
            forall r: ToyReg :: r in regs && regs[r] == 0
  {
    var regs := map[AX := 0, BX := 0, CX := 0, DX := 0, IP := 0];
    forall r: ToyReg ensures r in regs && regs[r] == 0 {
      match r
      case AX => case BX => case CX => case DX => case IP =>
    }
  }

  /** The property name of a register: two upper-case letters. */
  function NameOf(r: ToyReg): (n: string)
    ensures |n| == 2 && 'A' <= n[0] <= 'Z' && 'A' <= n[1] <= 'Z'
  {
    match r
    case AX => "AX" case BX => "BX" case CX => "CX" case DX => "DX" case IP => "IP"
  }

  /** The property names of the `registers` object. */
  const PropertyNames: map<string, ToyReg> := map["AX" := AX, "BX" := BX, "CX" := CX, "DX" := DX, "IP" := IP]

  /** The register an upper-cased property name denotes, if it is one of the five. */
  function RegisterOf(name: string): (r: Option<ToyReg>)
    ensures r.Some? ==> NameOf(r.value) == name
  {
    if name in PropertyNames then Some(PropertyNames[name]) else None
  }

  /** Each register's own name denotes it. */
  lemma RegisterOfName(r: ToyReg)
    ensures RegisterOf(NameOf(r)) == Some(r)
  {
  }

  // ---------------------------------------------------------------------
  // What a line means
  // ---------------------------------------------------------------------

  /** A case the script leaves to JavaScript and the model refuses. */
  datatype Rejection = UnknownRegister(name: string) | NotANumber(text: string) | OutsideMemory(address: int)

  /** The four instructions executeLine knows. */
  datatype ToyOp = MOV | ADD | STORE | LOAD

  function OpName(op: ToyOp): string {
    match op
    case MOV => "MOV" case ADD => "ADD" case STORE => "STORE" case LOAD => "LOAD"
  }

  /** The case labels of executeLine's `switch (instr)`. */
  const CaseLabels: map<string, ToyOp> := map["MOV" := MOV, "ADD" := ADD, "STORE" := STORE, "LOAD" := LOAD]

  /** The `switch (instr)` of executeLine: a case label, or the default. */
  function OpOf(instr: string): (op: Option<ToyOp>)
    ensures op.Some? ==> OpName(op.value) == instr
  {
    if instr in CaseLabels then Some(CaseLabels[instr]) else None
  }

  /** Each instruction's own spelling selects it. */
  lemma OpOfName(op: ToyOp)
    ensures OpOf(OpName(op)) == Some(op)
  {
  }

  /**
   * What executeLine does with a line: nothing (empty or a comment), one of
   * the four instructions, a diagnostic for an unknown instruction, a refused
   * case, or a TypeError because an operand text is missing.
   */
  datatype Command =
    | Skip
    | Mov(reg: ToyReg, value: int)
    | Add(reg: ToyReg, value: int)
    | Store(reg: ToyReg, address: Cell)
    | Load(reg: ToyReg, address: Cell)
    | Unknown(instr: string)
    | Rejected(reason: Rejection)
    | Malformed

  /**
   * The command an instruction makes of its register and number: only a
   * STORE or LOAD outside the memory is refused; every other command keeps
   * the register and the number.
   */
  function Instruction(op: ToyOp, r: ToyReg, n: int): (c: Command)
    ensures c.Rejected? <==> (op == STORE || op == LOAD) && !(0 <= n < MemorySize)
    ensures c.Rejected? ==> c.reason == OutsideMemory(n)
    ensures c.Mov? <==> op == MOV
    ensures c.Add? <==> op == ADD
    ensures c.Store? <==> op == STORE && 0 <= n < MemorySize
    ensures c.Load? <==> op == LOAD && 0 <= n < MemorySize
    ensures c.Mov? || c.Add? ==> c.reg == r && c.value == n
    ensures c.Store? || c.Load? ==> c.reg == r && c.address == n
  {
    match op
    case MOV => Mov(r, n)
    case ADD => Add(r, n)
    case STORE => if 0 <= n < MemorySize then Store(r, n) else Rejected(OutsideMemory(n))
    case LOAD => if 0 <= n < MemorySize then Load(r, n) else Rejected(OutsideMemory(n))
  }

  /**
   * The operand text `parts[1]` of a known instruction: split on "," into a
   * register name (trimmed, upper-cased) and a number text (trimmed, given to
   * parseInt, where None stands for NaN); a missing number text is a TypeError.
   */
  function ParseOperands(op: ToyOp, operands: string, parseInt: string -> Option<int>): (c: Command)
    ensures c.Mov? || c.Add? || c.Store? || c.Load? || c.Rejected? || c.Malformed?
    ensures c.Malformed? <==> ',' !in operands
  {
    var pieces := Split(operands, ',');
    SplitOnePiece(operands, ',');
    if |pieces| < 2 then Malformed
    else
      var name := Upper(Trim(pieces[0], IsJsSpace));
      var text := Trim(pieces[1], IsJsSpace);
      match RegisterOf(name)
      case None => Rejected(UnknownRegister(name))
      case Some(r) =>
        match parseInt(text)
        case None => Rejected(NotANumber(text))
        case Some(n) => Instruction(op, r, n)
  }

  /**
   * executeLine's reading of a line: `line.split(" ")` and the first piece in
   * upper case as the instruction; a known instruction without a second piece
   * is a TypeError.
   */
  function Parse(line: string, parseInt: string -> Option<int>): (c: Command)
    ensures c.Skip? <==> line == [] || line[0] == ';'
    ensures c.Unknown? ==> OpOf(c.instr).None?
  {
    if line == [] || line[0] == ';' then Skip
    else
      var parts := Split(line, ' ');
      var instr := Upper(parts[0]);
      match OpOf(instr)
      case None => Unknown(instr)
      case Some(op) =>
        if |parts| < 2 then Malformed
        else ParseOperands(op, parts[1], parseInt)
  }

  /** The registers and memory after a command; only the four instructions change anything. */
  function Apply(c: Command, regs: Registers, mem: seq<int>): (r: (Registers, seq<int>))
    requires Complete(regs) && |mem| == MemorySize
    ensures Complete(r.0) && |r.1| == MemorySize
    ensures !(c.Mov? || c.Add? || c.Store? || c.Load?) ==> r == (regs, mem)
  {
    match c
    case Mov(reg, v) => (regs[reg := v], mem)
    case Add(reg, v) => (regs[reg := regs[reg] + v], mem)
    case Store(reg, a) => (regs, mem[a := regs[reg]])
    case Load(reg, a) => (regs[reg := mem[a]], mem)
    case _ => (regs, mem)
  }

  // ---------------------------------------------------------------------
  // The page: registers, memory, program and cursor
  // ---------------------------------------------------------------------

  datatype PageState = PageState(registers: Registers, memory: seq<int>, program: seq<string>, currentLine: nat)

  ghost predicate Consistent(p: PageState) {
    Complete(p.registers) && |p.memory| == MemorySize && p.currentLine <= |p.program|
  }

  /** The exception executeLine lets escape when an operand text is missing. */
  datatype Thrown = TypeError

  /** `editor.value.split("\n").map(l => l.trim())`. */
  function LoadedProgram(text: string): (program: seq<string>)
    ensures |program| == |Split(text, '\n')| >= 1
    ensures forall i :: 0 <= i < |program| ==> program[i] == Trim(Split(text, '\n')[i], IsJsSpace)
  {
    var lines := Split(text, '\n');
    seq(|lines|, i requires 0 <= i < |lines| => Trim(lines[i], IsJsSpace))
  }

  /**
   * stepProgram: past the last line nothing changes; otherwise the current
   * line runs, and then currentLine and IP both become the next line. A line
   * that throws leaves everything as it was.
   */
  function StepPage(p: PageState, parse: string -> Command): (r: (PageState, Status<Thrown>))
    requires Consistent(p)
    ensures Consistent(r.0) && r.0.program == p.program
    ensures r.1 == End <==> p.currentLine == |p.program|
    ensures r.1 != Executed ==> r.0 == p
    ensures r.1.Failed? <==> p.currentLine < |p.program| && parse(p.program[p.currentLine]).Malformed?
    ensures r.1 == Executed ==> r.0.currentLine == p.currentLine + 1 && r.0.registers[IP] == r.0.currentLine
  {
    if p.currentLine == |p.program| then (p, End)
    else
      var c := parse(p.program[p.currentLine]);
      if c.Malformed? then (p, Failed(TypeError))
      else
        var (regs, mem) := Apply(c, p.registers, p.memory);
        var next := p.currentLine + 1;
        (PageState(regs[IP := next], mem, p.program, next), Executed)
  }

  /** A step on a line that does not throw: the line's effect, then the next line in both cursor and IP. */
  lemma StepPageNext(p: PageState, parse: string -> Command, c: Command)
    requires Consistent(p) && p.currentLine < |p.program|
    requires c == parse(p.program[p.currentLine]) && !c.Malformed?
    ensures var applied := Apply(c, p.registers, p.memory);
            var next := p.currentLine + 1;
            StepPage(p, parse) == (PageState(applied.0[IP := next], applied.1, p.program, next), Executed)
  {
  }

  /** executeLine's reading of every line, given the parseInt it calls. */
  function Parser(parseInt: string -> Option<int>): string -> Command {
    line => Parse(line, parseInt)
  }

  /** stepProgram as a function on every state; only consistent states are ever reached. */
  ghost function StepOf(parse: string -> Command): PageState -> (PageState, Status<Thrown>) {
    p => if Consistent(p) then StepPage(p, parse) else (p, End)
  }

  /** runProgram: the remaining lines in order, stopping at the first that throws. */
  ghost function RunPage(p: PageState, parse: string -> Command): (r: Outcome<PageState, Thrown>)
    requires Consistent(p)
    ensures r.executed <= |p.program| - p.currentLine
  {
    RunFrom(StepOf(parse), p, 0, |p.program| - p.currentLine)
  }

  // ---------------------------------------------------------------------
  // Facts
  // ---------------------------------------------------------------------

  /**
   * What running `n` remaining lines from `p` ends in: unless a line throws,
   * the state after `n` steps, on the last line with IP equal to it (when at
   * least one line ran); when a line throws, the state after the lines before
   * it, stopped on that line, which is one whose operand text is missing.
   */
  ghost predicate RanLines(p: PageState, r: Outcome<PageState, Thrown>, n: nat, parse: string -> Command) {
    && Consistent(r.state) && r.state.program == p.program
    && (!r.reason.Faulted? ==>
          && r.state == Steps(StepOf(parse), p, n)
          && r.state.currentLine == |p.program|
          && (n > 0 ==> r.state.registers[IP] == |p.program|))
    && (r.reason.Faulted? ==>
          && p.currentLine <= r.state.currentLine < |p.program|
          && r.state == Steps(StepOf(parse), p, r.state.currentLine - p.currentLine)
          && parse(p.program[r.state.currentLine]).Malformed?)
  }

  /** runProgram is stepProgram repeated once per remaining line, stopping at a TypeError. */
  lemma RunIsRepeatedStep(p: PageState, parse: string -> Command)
    requires Consistent(p)
    ensures RanLines(p, RunPage(p, parse), |p.program| - p.currentLine, parse)
  {
    RunFromPage(p, parse, 0, |p.program| - p.currentLine);
  }

  lemma {:induction false} RunFromPage(p: PageState, parse: string -> Command, count: nat, limit: nat)
    requires Consistent(p) && count <= limit && limit - count == |p.program| - p.currentLine
    ensures RanLines(p, RunFrom(StepOf(parse), p, count, limit), limit - count, parse)
    decreases limit - count
  {
    var step := StepOf(parse);
    var (next, status) := StepPage(p, parse);
    assert step(p) == (next, status);
    if count == limit {
      assert RunFrom(step, p, count, limit) == Outcome(p, FuelExhausted, count);
    } else if status.Failed? {
      assert RunFrom(step, p, count, limit) == Outcome(p, Faulted(TypeError), count);
    } else {
      assert status == Executed;
      RunFromPage(next, parse, count + 1, limit);
      StepsUnfold(step, p, limit - count - 1);
      var r := RunFrom(step, next, count + 1, limit);
      if r.reason.Faulted? {
        StepsUnfold(step, p, r.state.currentLine - p.currentLine - 1);
      }
    }
  }

  /** An empty line and a comment change nothing. */
  lemma SkippedLine(line: string, parseInt: string -> Option<int>, regs: Registers, mem: seq<int>)
    requires Complete(regs) && |mem| == MemorySize
    requires line == [] || line[0] == ';'
    ensures Apply(Parse(line, parseInt), regs, mem) == (regs, mem)
  {
  }

  /** A line whose first word is no known instruction gets a diagnostic and changes nothing. */
  lemma UnknownLine(line: string, parseInt: string -> Option<int>, regs: Registers, mem: seq<int>)
    requires Complete(regs) && |mem| == MemorySize
    requires line != [] && line[0] != ';' && OpOf(Upper(Split(line, ' ')[0])).None?
    ensures Parse(line, parseInt) == Unknown(Upper(Split(line, ' ')[0]))
    ensures Apply(Parse(line, parseInt), regs, mem) == (regs, mem)
  {
  }

  /**
   * A known instruction (in any letter case) followed by one space: its
   * operand text is whatever comes before the next space.
   */
  lemma ParseKnown(mnemonic: string, op: ToyOp, rest: string, parseInt: string -> Option<int>)
    requires Upper(mnemonic) == OpName(op) && ' ' !in mnemonic
    ensures Parse(mnemonic + " " + rest, parseInt) == ParseOperands(op, Split(rest, ' ')[0], parseInt)
  {
    var line := mnemonic + " " + rest;
    KnownLineRead(mnemonic, op, rest);
    assert line == mnemonic + [' '] + rest;
    SplitAfter(mnemonic, ' ', rest);
    var parts := Split(line, ' ');
    assert parts[0] == mnemonic && |parts| >= 2 && parts[1] == Split(rest, ' ')[0];
    OpOfName(op);
    assert OpOf(Upper(parts[0])) == Some(op);
  }

  /** A line that starts with an instruction's spelling is neither empty nor a comment. */
  lemma KnownLineRead(mnemonic: string, op: ToyOp, rest: string)
    requires Upper(mnemonic) == OpName(op)
    ensures var line := mnemonic + " " + rest; line != [] && line[0] != ';'
  {
    assert |OpName(op)| >= 3 && OpName(op)[0] != ';';
    assert UpperChar(mnemonic[0]) == OpName(op)[0];
  }

  /** A number text parseInt can read, with no white space and no comma in it. */
  predicate PlainNumber(text: string, parseInt: string -> Option<int>) {
    && text != []
    && (forall i :: 0 <= i < |text| ==> !IsJsSpace(text[i]) && text[i] != ',')
    && parseInt(text).Some?
  }

  /** Register names hold neither a space nor a comma, are trimmed and are upper case. */
  lemma PlainName(r: ToyReg)
    ensures ' ' !in NameOf(r) && ',' !in NameOf(r)
    ensures Trim(NameOf(r), IsJsSpace) == NameOf(r) && Upper(NameOf(r)) == NameOf(r)
  {
    var n := NameOf(r);
    assert Upper(n) == n by {
      assert forall i :: 0 <= i < |n| ==> Upper(n)[i] == n[i];
    }
    TrimmedAlready(n, IsJsSpace);
  }

  /** `REG,TEXT` names that register, and the number is parseInt of the trimmed text. */
  lemma {:induction false} OperandsAfterName(op: ToyOp, r: ToyReg, text: string, parseInt: string -> Option<int>)
    requires ',' !in text
    ensures var number := Trim(text, IsJsSpace);
            ParseOperands(op, NameOf(r) + "," + text, parseInt)
            == match parseInt(number)
               case None => Rejected(NotANumber(number))
               case Some(n) => Instruction(op, r, n)
  {
    var operands := NameOf(r) + "," + text;
    PlainName(r);
    assert operands == NameOf(r) + [','] + text;
    SplitAfter(NameOf(r), ',', text);
    SplitNoSep(text, ',');
    assert Split(operands, ',') == [NameOf(r), text];
    RegisterOfName(r);
  }

  /** `REG,NUMBER` with nothing around the comma names that register and number. */
  lemma OperandsOf(op: ToyOp, r: ToyReg, text: string, parseInt: string -> Option<int>)
    requires PlainNumber(text, parseInt)
    ensures ParseOperands(op, NameOf(r) + "," + text, parseInt) == Instruction(op, r, parseInt(text).value)
  {
    assert ',' !in text;
    OperandsAfterName(op, r, text, parseInt);
    TrimmedAlready(text, IsJsSpace);
  }

  /**
   * `INSTR REG,NUMBER` written with a single space and no space around the
   * comma is the instruction the script's comments describe.
   */
  lemma {:induction false} InstructionLine(mnemonic: string, op: ToyOp, r: ToyReg, text: string, parseInt: string -> Option<int>)
    requires Upper(mnemonic) == OpName(op) && ' ' !in mnemonic
    requires PlainNumber(text, parseInt)
    ensures Parse(mnemonic + " " + NameOf(r) + "," + text, parseInt) == Instruction(op, r, parseInt(text).value)
  {
    var operands := NameOf(r) + "," + text;
    PlainName(r);
    assert ' ' !in operands by {
      assert forall i :: 0 <= i < |text| ==> text[i] != ' ';
      assert operands == NameOf(r) + [','] + text;
    }
    SplitNoSep(operands, ' ');
    ParseKnown(mnemonic, op, operands, parseInt);
    Associative(mnemonic + " " + NameOf(r), ",", text);
    Associative(mnemonic + " ", NameOf(r), "," + text);
    Associative(NameOf(r), ",", text);
    OperandsOf(op, r, text, parseInt);
  }

  /**
   * The script's own example `MOV AX, 10` (a space after the comma) does not
   * do what its comment says: the second piece of `split(" ")` is "AX,", so
   * the number text is "" and parseInt gives NaN.
   */
  lemma {:induction false} SpaceAfterComma(mnemonic: string, op: ToyOp, r: ToyReg, text: string, parseInt: string -> Option<int>)
    requires Upper(mnemonic) == OpName(op) && ' ' !in mnemonic
    requires parseInt("") == None
    ensures Parse(mnemonic + " " + NameOf(r) + ", " + text, parseInt) == Rejected(NotANumber(""))
  {
    var first := NameOf(r) + ",";
    CommaSpaceLine(mnemonic, NameOf(r), text);
    PlainName(r);
    assert ' ' !in first;
    FirstPiece(first, text);
    ParseKnown(mnemonic, op, first + " " + text, parseInt);
    NameAndComma(op, r, parseInt);
  }

  /** A text with no space in it is the first piece of itself, a space and more. */
  lemma FirstPiece(first: string, text: string)
    requires ' ' !in first
    ensures Split(first + " " + text, ' ')[0] == first
  {
    assert first + " " + text == first + [' '] + text;
    SplitAfter(first, ' ', text);
  }

  /** `REG,` with nothing after the comma hands the empty text to parseInt. */
  lemma NameAndComma(op: ToyOp, r: ToyReg, parseInt: string -> Option<int>)
    requires parseInt("") == None
    ensures ParseOperands(op, NameOf(r) + ",", parseInt) == Rejected(NotANumber(""))
  {
    var operands := NameOf(r) + ",";
    assert operands + "" == operands;
    OperandsAfterName(op, r, "", parseInt);
    assert Trim("", IsJsSpace) == "";
  }

  /** `M NAME, TEXT` is `M` and a space before `NAME,`, a space and `TEXT`. */
  lemma CommaSpaceLine(mnemonic: string, name: string, text: string)
    ensures mnemonic + " " + name + ", " + text == mnemonic + " " + (name + "," + " " + text)
  {
    assert "," + " " == ", ";
    Associative(",", " ", text);
    Associative(name, ",", " " + text);
    Associative(name + ",", " ", text);
    Associative(mnemonic + " " + name, ", ", text);
    Associative(mnemonic + " ", name, ", " + text);
  }

  /**
   * What each instruction does: MOV sets the register, ADD adds to it, LOAD
   * copies a cell into it, every other register kept; STORE copies the
   * register into the cell, every other cell kept.
   */
  lemma InstructionEffect(op: ToyOp, r: ToyReg, n: int, regs: Registers, mem: seq<int>)
    requires Complete(regs) && |mem| == MemorySize
    ensures var (regs1, mem1) := Apply(Instruction(op, r, n), regs, mem);
            && (op == MOV ==> regs1[r] == n && mem1 == mem)
            && (op == ADD ==> regs1[r] == regs[r] + n && mem1 == mem)
            && (op != STORE ==> forall q: ToyReg :: q != r ==> regs1[q] == regs[q])
            && (op == LOAD && 0 <= n < MemorySize ==> regs1[r] == mem[n] && mem1 == mem)
            && (op == STORE && 0 <= n < MemorySize ==>
                  && regs1 == regs && mem1[n] == regs[r]
                  && forall a :: 0 <= a < MemorySize && a != n ==> mem1[a] == mem[a])
            && ((op == STORE || op == LOAD) && !(0 <= n < MemorySize) ==> regs1 == regs && mem1 == mem)
  {
  }

  /** Every loaded line is already trimmed. */
  lemma LoadedLinesTrimmed(text: string)
    ensures var program := LoadedProgram(text);
            forall i :: 0 <= i < |program| ==> Trim(program[i], IsJsSpace) == program[i]
  {
    var lines := Split(text, '\n');
    forall i | 0 <= i < |lines| ensures Trim(Trim(lines[i], IsJsSpace), IsJsSpace) == Trim(lines[i], IsJsSpace) {
      TrimIdempotent(lines[i], IsJsSpace);
    }
  }

  /** STORE R,A then LOAD R2,A copies R into R2 and leaves it in cell A. */
  lemma StoreThenLoad(r: ToyReg, r2: ToyReg, a: Cell, regs: Registers, mem: seq<int>)
    requires Complete(regs) && |mem| == MemorySize
    ensures var (regs1, mem1) := Apply(Store(r, a), regs, mem);
            var (regs2, mem2) := Apply(Load(r2, a), regs1, mem1);
            && regs2 == regs[r2 := regs[r]]
            && mem2 == mem[a := regs[r]]
  {
  }
}
