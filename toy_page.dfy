/**
 * The page script's top-level state as an object: the `registers` object is
 * a map field reassigned on every write, `memory` is the 32-cell array
 * written in place, `program` and `currentLine` are plain fields. Each action
 * is proved to be the corresponding function on page states.
 */
module ToyPage {
  import opened Wrappers
  import opened Driver
  import opened ToyInterpreter

  /** `memory.fill(0)` as a value. */
  function ZeroMemory(): (mem: seq<int>)
    ensures |mem| == MemorySize && forall a :: 0 <= a < |mem| ==> mem[a] == 0
  {
    seq(MemorySize, _ => 0)
  }

  /** resetProgram: registers and memory zero, back to the first line, program kept. */
  function ResetPage(p: PageState): (r: PageState)
    ensures Consistent(r) && r.program == p.program && r.currentLine == 0
    ensures forall q: ToyReg :: r.registers[q] == 0
    ensures forall a :: 0 <= a < |r.memory| ==> r.memory[a] == 0
  {
    PageState(ZeroRegisters(), ZeroMemory(), p.program, 0)
  }

  /** Reset forgets everything but the program, and resetting again changes nothing. */
  lemma ResetForgets(p: PageState, q: PageState)
    requires p.program == q.program
    ensures ResetPage(p) == ResetPage(q)
    ensures ResetPage(ResetPage(p)) == ResetPage(p)
  {
  }

  /** loadProgram: the trimmed lines, back to the first line, IP zero, all else kept. */
  function LoadPage(p: PageState, text: string): (r: PageState)
    requires Consistent(p)
    ensures Consistent(r) && r.program == LoadedProgram(text) && r.currentLine == 0
    ensures r.registers[IP] == 0
    ensures forall q: ToyReg :: q != IP ==> r.registers[q] == p.registers[q]
    ensures r.memory == p.memory
  {
    PageState(p.registers[IP := 0], p.memory, LoadedProgram(text), 0)
  }

  class Page {
    var registers: Registers
    const memory: array<int>
    var program: seq<string>
    var currentLine: nat

    ghost predicate Valid()
      reads this
    {
      Complete(registers) && memory.Length == MemorySize && currentLine <= |program|
    }

    ghost function State(): PageState
      reads this, memory
    {
      PageState(registers, memory[..], program, currentLine)
    }

    /** The page as it is first shown: zero registers, zero memory, no program. */
    constructor()
      ensures Valid() && fresh(memory)
      ensures State() == PageState(ZeroRegisters(), ZeroMemory(), [], 0)
    {
      registers := ZeroRegisters();
      memory := new int[MemorySize](_ => 0);
      program := [];
      currentLine := 0;
      new;
      assert memory[..] == ZeroMemory();
    }

    /** executeLine: `threw` stands for the TypeError a missing operand text raises. */
    method ExecuteLine(line: string, parseInt: string -> Option<int>) returns (threw: bool)
      requires Valid()
      modifies this, memory
      ensures Valid()
      ensures threw <==> Parse(line, parseInt).Malformed?
      ensures (registers, memory[..]) == Apply(Parse(line, parseInt), old(registers), old(memory[..]))
      ensures program == old(program) && currentLine == old(currentLine)
    {
      var c := Parse(line, parseInt);
      threw := Perform(c);
    }

    /** The `switch (instr)` of executeLine once the line is read. */
    method Perform(c: Command) returns (threw: bool)
      requires Valid()
      modifies this, memory
      ensures Valid()
      ensures threw <==> c.Malformed?
      ensures (registers, memory[..]) == Apply(c, old(registers), old(memory[..]))
      ensures program == old(program) && currentLine == old(currentLine)
    {
      threw := false;
      match c
      case Mov(r, v) =>
        registers := registers[r := v];
      case Add(r, v) =>
        registers := registers[r := registers[r] + v];
      case Store(r, a) =>
        memory[a] := registers[r];
      case Load(r, a) =>
        registers := registers[r := memory[a]];
      case Malformed =>
        threw := true;
      case _ =>
    }

    /** loadProgram. */
    method LoadProgram(text: string)
      requires Valid()
      modifies this
      ensures Valid()
      ensures State() == LoadPage(old(State()), text)
    {
      program := LoadedProgram(text);
      currentLine := 0;
      registers := registers[IP := 0];
    }

    /**
     * The body stepProgram and runProgram's loop share: execute the current
     * line, then move currentLine and IP to the next one. A line that throws
     * leaves both where they were.
     */
    method AdvanceLine(parseInt: string -> Option<int>) returns (threw: bool)
      requires Valid() && currentLine < |program|
      modifies this, memory
      ensures Valid()
      ensures (State(), if threw then Failed(TypeError) else Executed) == StepPage(old(State()), Parser(parseInt))
    {
      ghost var before := State();
      var line := program[currentLine];
      ghost var cmd := Parse(line, parseInt);
      assert Parser(parseInt)(line) == cmd;
      ghost var applied := Apply(cmd, before.registers, before.memory);
      threw := ExecuteLine(line, parseInt);
      if threw {
        assert registers == before.registers && memory[..] == before.memory;
        assert StepPage(before, Parser(parseInt)) == (before, Failed(TypeError));
        return;
      }
      currentLine := currentLine + 1;
      registers := registers[IP := currentLine];
      StepPageNext(before, Parser(parseInt), cmd);
      assert State() == PageState(applied.0[IP := currentLine], applied.1, program, currentLine);
    }

    /** stepProgram: past the last line nothing changes. */
    method StepProgram(parseInt: string -> Option<int>) returns (status: Status<Thrown>)
      requires Valid()
      modifies this, memory
      ensures Valid()
      ensures (State(), status) == StepPage(old(State()), Parser(parseInt))
    {
      if currentLine >= |program| {
        assert StepPage(State(), Parser(parseInt)) == (State(), End);
        return End;
      }
      var threw := AdvanceLine(parseInt);
      status := if threw then Failed(TypeError) else Executed;
    }

    /** runProgram: the remaining lines in order; `threw` when one of them raised. */
    method RunProgram(parseInt: string -> Option<int>) returns (threw: bool)
      requires Valid()
      modifies this, memory
      ensures Valid()
      ensures var outcome := RunPage(old(State()), Parser(parseInt));
              State() == outcome.state && (threw <==> outcome.reason.Faulted?)
    {
      ghost var step := StepOf(Parser(parseInt));
      ghost var start := currentLine;
      ghost var limit := |program| - currentLine;
      ghost var outcome := RunFrom(step, State(), 0, limit);
      assert outcome == RunPage(State(), Parser(parseInt));
      ghost var count := 0;
      threw := false;
      while currentLine < |program|
        invariant Valid() && program == old(program)
        invariant count == currentLine - start && limit - count == |program| - currentLine
        invariant RunFrom(step, State(), count, limit) == outcome
        decreases |program| - currentLine
      {
        ghost var before := State();
        var t := AdvanceLine(parseInt);
        assert step(before) == (State(), if t then Failed(TypeError) else Executed);
        if t {
          RunFromFailed(step, before, count, limit);
          threw := true;
          return;
        }
        RunFromExecuted(step, before, count, limit);
        count := count + 1;
      }
    }

    /** resetProgram. */
    method ResetProgram()
      requires Valid()
      modifies this, memory
      ensures Valid()
      ensures State() == ResetPage(old(State()))
    {
      registers := ZeroRegisters();
      for i := 0 to memory.Length
        invariant registers == ZeroRegisters() && program == old(program)
        invariant forall a :: 0 <= a < i ==> memory[a] == 0
      {
        memory[i] := 0;
      }
      currentLine := 0;
      assert memory[..] == ZeroMemory();
    }
  }
}
