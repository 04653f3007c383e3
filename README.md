# 8086 real-mode simulator: a Dafny model

The repository is a teaching simulator for 16-bit x86 real mode. It has two
interpreters, and this project models both.

- `backend/Simulador.py` is the full simulator.
  - A `CPU` holds thirteen 16-bit registers (with the 8-bit halves AL..DH of
    AX..DX) and the ZF/SF/OF/CF flags.
  - A `Simulator` holds the CPU, a byte-addressed memory with
    segment:offset translation, and a program map from physical address to
    `(opcode, operands, size)`. It fills that map from assembly text in two
    passes: labels first, then instructions.
  - The simulator executes MOV, PUSH, POP, XCHG, ADD, SUB, INC, DEC, NEG,
    MUL, DIV, AND, OR, XOR, NOT, CMP, JMP, the Jcc family, CALL, RET, IRET,
    LOOP, IN and OUT.
  - It can step, run (at most 1000 instructions) and reset.
- `src/main.js` is the page script. It is a much smaller line interpreter
  with five registers (AX, BX, CX, DX, IP), 32 memory cells and the
  instructions MOV, ADD, STORE and LOAD. It can load, run, step and reset.

Modules:

| module | contents |
|---|---|
| `Wrappers` | `Option` and `Result` |
| `Text` | Python/JavaScript string helpers: strip, split, lower/upper, with their lemmas |
| `Arith` | small lemmas on `%` and `/` |
| `Driver` | stepping a state machine: `Steps` and `RunFrom`, generic over the step function |
| `X86Cpu` | register names, the register file, `get_reg`/`set_reg`, the flags, the `Cpu` class |
| `X86Machine` | physical addresses, memory reads and writes, operand access |
| `X86Execute` | every instruction as a function on a machine, `step` and `run` |
| `X86Loader` | line parsing, pass 1 (labels) and pass 2 (program map) |
| `X86Properties` | lemmas relating the instructions to each other |
| `X86Simulator` | the `Simulator` class, with every method proved to compute the matching function |
| `ToyInterpreter` | `executeLine` as a parse into a `Command` and its effect, and page-state stepping |
| `ToyPage` | the script's global state as the `Page` class, with its four actions |

On both sides, the imperative layer (`Cpu`, `Simulator`, `Page`) updates its
fields in place. Each of its methods is proved equal to a function on values
(`Machine`, `PageState`), and the properties are proved about those
functions.

Python exceptions become a `Fault` value. When an instruction raises half-way
through, the modelled state keeps whatever was changed before the raise, as
the source does. Examples:
- CALL to an unknown label has already pushed the return address;
- a 16-bit write at the last byte has already written its low byte.

Consequences worth knowing, each proved:
- The Jcc conditions read SF alone, so a signed comparison that overflows
  jumps the wrong way (`SignedJumpsMissOverflow`).
- In the page script, the instruction is split from its operands at every
  space. The written form `MOV AX, 10` (a space after the comma) therefore
  hands `""` to `parseInt`: the line stores NaN, in the model a rejected
  number (`SpaceAfterComma`). Only `MOV AX,10` sets AX
  (`InstructionLine`).

## Model

| member | source | states |
|---|---|---|
| X86Cpu.Resolve | backend/Simulador.py:25-59 | a name resolves exactly when its lower-case form is one of the 21 register names, and to the reference with that name |
| X86Cpu.ResolvesToByte | backend/Simulador.py:139-141 | a register text resolves to a low or high byte half (what `IsByteReg` tests on the classified operand) exactly when its lower-case form is one of al, ah, bl, bh, cl, ch, dl, dh |
| X86Cpu.ResolveNameOf | backend/Simulador.py:25-59 | a name resolves to a given register reference exactly when it lower-cases to that reference's name |
| X86Cpu.NameOfInjective | backend/Simulador.py:25-59 | two register references with the same name are the same reference |
| X86Cpu.ZeroRegisters | backend/Simulador.py:10-16 | all thirteen registers are present and 0 |
| X86Cpu.Read | backend/Simulador.py:25-39 | a register read lies in the width of the reference: 16 bits for a word, 8 bits for AL..DH |
| X86Cpu.Write | backend/Simulador.py:41-59 | after a write, a read gives the value reduced to the width; only the named register changes; writing one byte half keeps the other |
| X86Cpu.GetByName | backend/Simulador.py:25-39 | get_reg fails with ValueError exactly for names outside the 21; otherwise the value is a 16-bit number |
| X86Cpu.SetByName | backend/Simulador.py:41-59 | set_reg fails with ValueError exactly for names outside the 21; otherwise the register file stays well formed |
| X86Cpu.SetThenGetWord | backend/Simulador.py:25-59 | after set_reg on a word register, get_reg of it gives the value mod 2^16, and every other register is unchanged |
| X86Cpu.SetThenGetByte | backend/Simulador.py:25-59 | after set_reg on a byte half, get_reg of it gives the value mod 2^8, the other half is kept, and every other register is unchanged |
| X86Cpu.UnknownNameRefused | backend/Simulador.py:25-59 | a name outside the 21 is refused by both get_reg and set_reg |
| X86Cpu.ArithFlagsMeaning | backend/Simulador.py:61-77 | ZF is set exactly when the masked result is 0, SF exactly when its top bit is set; OF and CF are kept |
| X86Cpu.Cpu.constructor | backend/Simulador.py:10-23 | a new CPU has every register 0 and every flag clear |
| X86Cpu.Cpu.GetReg | backend/Simulador.py:25-39 | fails exactly for unknown names; otherwise returns the resolved register's value |
| X86Cpu.Cpu.SetRegister | backend/Simulador.py:41-59 | the registers become `Write` of the old ones; the flags are kept |
| X86Cpu.Cpu.SetReg | backend/Simulador.py:41-59 | succeeds exactly for the 21 names and then stores `SetByName`'s register file; on failure nothing changes |
| X86Cpu.Cpu.SetFlagsArith | backend/Simulador.py:61-77 | the flags become `ArithFlags` of the result; the registers are kept |
| X86Cpu.Cpu.Dump | backend/Simulador.py:82-104 | the snapshot holds exactly the thirteen registers with their values, and the flags |
| X86Cpu.Cpu.Reset | backend/Simulador.py:115-123 | every register becomes 0; the flags are kept, because the source assigns a different attribute |
| X86Machine.WrapIsModulo | backend/Simulador.py:160-163 | the wrap-around reduction equals the linear address mod the memory size |
| X86Machine.PhysicalAddressInRange | backend/Simulador.py:149-165 | the physical address is segment*16 + (offset mod 2^16), taken mod the memory size, and always a valid index |
| X86Machine.PhysicalAddress | backend/Simulador.py:149-165 | the physical address is always a valid index into memory; its value is given by `PhysicalAddressInRange` |
| X86Machine.PhysicalAddressOffsetModulo | backend/Simulador.py:155-158 | offsets equal mod 2^16 give the same physical address |
| X86Machine.DataAddress | backend/Simulador.py:169 | the DS-relative address is inside memory |
| X86Machine.ReadMem | backend/Simulador.py:167-177 | a read is within the width, and fails with IndexError exactly for a 16-bit read at the last byte |
| X86Machine.WriteMem | backend/Simulador.py:179-191 | a write keeps registers, flags and memory size, and fails exactly for a 16-bit write at the last byte |
| X86Machine.WordWriteRead | backend/Simulador.py:167-191 | a 16-bit write is read back mod 2^16, stores the low byte then the high byte (little-endian), and leaves every other byte untouched |
| X86Machine.ByteWriteRead | backend/Simulador.py:167-191 | an 8-bit write is read back as the value & 0xFF and changes only its byte |
| X86Machine.WordAtLastByte | backend/Simulador.py:174-191 | at the last byte a 16-bit read fails, and a write fails after storing its low byte |
| X86Machine.ReadOperand | backend/Simulador.py:193-212 | a register reads its value and an immediate its number; `[n]` and `[reg]` read memory at DS:n or DS:reg at the width hint; the read fails exactly for a bare word that is no register (ValueError), a bracket holding neither number nor register (ValueError from get_reg), and a word at the last byte (IndexError) |
| X86Machine.WriteOperand | backend/Simulador.py:214-232 | a register destination takes the value through `Write` (at its width, other half kept); `[n]` and `[reg]` write memory at DS:n or DS:reg at the width hint; a bare word or number is an invalid destination (ValueError) and `[x]` with no number or register inside an unknown register, both changing nothing; flags never change, and the write succeeds exactly for registers and fitting memory accesses |
| X86Machine.WriteThenReadRegister | backend/Simulador.py:193-232 | writing a register operand then reading it gives the value at the register's width; nothing else changes |
| X86Machine.WriteThenReadMemory | backend/Simulador.py:193-232 | writing a memory operand then reading it gives the value at the access width; the registers are kept |
| X86Loader.Code | backend/Simulador.py:266 | a line's code has neither leading nor trailing white space |
| X86Loader.Lines | backend/Simulador.py:260 | the stripped text is cut at every newline: at least one line, none holding a newline, and joined with newlines they give back the stripped text |
| X86Loader.OperandTexts | backend/Simulador.py:273-274 | a one-word line has no operand texts; otherwise there is one text per comma in what follows the mnemonic, plus one, each the stripped piece between commas |
| X86Loader.InstructionSize | backend/Simulador.py:143-147 | the size is even, at least 2, and (size - 2) / 2 is the operand count |
| X86Loader.Classify | backend/Simulador.py:193-232 | a bracketed text is `[n]` when its inside parses as a number, else `[reg]` when the inside is a register name, else invalid; an unbracketed text is a register when it names one, else an immediate when it parses as a number, else a bare word keeping its text; each carries the number or register found |
| X86Loader.InstructionOf | backend/Simulador.py:283-291 | the stored opcode is the first word of the code, upper-cased and decoded; the size is 2 + 2 per operand, and there is one classified operand per operand text |
| X86Loader.ParseLine | backend/Simulador.py:266-285 | a line is blank exactly when its code is empty, a label exactly when the code ends in ':', with the lower-cased name before it; otherwise it is the instruction the code spells |
| X86Loader.LabelPass | backend/Simulador.py:263-276 | pass 1 ends at the offset equal to the sizes of all instructions added up |
| X86Loader.ProgramPass | backend/Simulador.py:278-292 | pass 2 ends at that same offset |
| X86Loader.ApplySegments | backend/Simulador.py:248-255 | a register that no converted, known segment names keeps its value; the last segment, when its value converted and its name is a register, is `Write` of that value to the named part (at its width, the other byte half kept) and changes no other register; otherwise it is skipped |
| X86Loader.LoadedRegisters | backend/Simulador.py:245-257 | after loading IP is 0; the registers are the segments applied to the old ones with IP and CS cleared, so CS is 0 unless a segment sets it, and every other register no segment sets keeps its value |
| X86Loader.CommentIgnored | backend/Simulador.py:266 | text after the first ';' does not change a line's code |
| X86Loader.BlankIgnored | backend/Simulador.py:267-281 | inserting a blank line changes neither pass |
| X86Loader.LabelsDefined | backend/Simulador.py:269-270 | the labels defined are exactly the names of the label lines |
| X86Loader.LabelOffset | backend/Simulador.py:264-276 | a label that is last defined at line i maps to the total size of the instructions before line i |
| X86Loader.ProgramKeys | backend/Simulador.py:278-292 | the program's addresses are exactly phys(CS, offset) of the instruction lines |
| X86Loader.InstructionPlaced | backend/Simulador.py:286-292 | an instruction line not overwritten by a later one sits at phys(CS, its offset) |
| X86Loader.LabelTargetsNextInstruction | backend/Simulador.py:263-292 | a label followed only by blank and label lines has the offset of the next instruction |
| X86Execute.DecodeMnemonicName | backend/Simulador.py:323-533 | every opcode is selected by its own upper-case spelling |
| X86Execute.DecodeOnlyNames | backend/Simulador.py:323-533 | the converse: a text selects an opcode only when it is that opcode's spelling, so every other text falls through to NotImplementedError |
| X86Execute.Mov | backend/Simulador.py:327-331 | MOV keeps the machine well formed and the flags unchanged |
| X86Execute.Xchg | backend/Simulador.py:347-353 | XCHG keeps the machine well formed and the flags unchanged |
| X86Execute.Push | backend/Simulador.py:333-338 | PUSH keeps the machine well formed and the flags unchanged |
| X86Execute.Pop | backend/Simulador.py:340-345 | POP keeps the machine well formed and the flags unchanged |
| X86Execute.Alu | backend/Simulador.py:356-363 | ADD/SUB keep the machine well formed (AND/OR/XOR at 414-423 share it) |
| X86Execute.Unary | backend/Simulador.py:365-379 | INC/DEC/NEG keep the machine well formed, and NOT (425-432) leaves the flags unchanged |
| X86Execute.Mul | backend/Simulador.py:381-393 | MUL changes neither memory nor flags |
| X86Execute.Div | backend/Simulador.py:395-411 | DIV changes neither memory nor flags |
| X86Execute.Cmp | backend/Simulador.py:435-442 | CMP changes neither registers nor memory |
| X86Execute.Jmp | backend/Simulador.py:444-449 | JMP changes neither memory nor flags |
| X86Execute.JumpIf | backend/Simulador.py:452-472 | Jcc changes neither memory nor flags |
| X86Execute.JumpConditionsPaired | backend/Simulador.py:459-464 | the jump conditions (`Taken`) are complementary in pairs: JE/JNE, JL/JGE, JLE/JG; JG holds exactly when JNE and JGE both do |
| X86Execute.Call | backend/Simulador.py:475-486 | CALL keeps the flags unchanged |
| X86Execute.Ret | backend/Simulador.py:488-503 | RET and IRET change neither memory nor flags |
| X86Execute.Loop | backend/Simulador.py:505-516 | LOOP changes neither memory nor flags |
| X86Execute.In | backend/Simulador.py:519-524 | IN keeps the flags unchanged |
| X86Execute.Out | backend/Simulador.py:526-530 | OUT changes nothing, whether or not its source reads |
| X86Execute.Execute | backend/Simulador.py:323-533 | an unknown opcode raises NotImplementedError and changes nothing |
| X86Execute.StepSpec | backend/Simulador.py:536-558 | step reports END exactly when CS:IP holds no instruction, and then changes nothing; a step that fetches an instruction is stated by `StepExecutes` |
| X86Execute.Fetch | backend/Simulador.py:537-544 | an instruction is fetched exactly when phys(CS, IP) is a program address, and it is `program[phys(CS, IP)]` |
| X86Execute.Advance | backend/Simulador.py:546-550 | IP becomes (ip + size) mod 2^16; every other register, the flags and the memory are kept |
| X86Execute.RunSpec | backend/Simulador.py:294-321 | run completes at most 1000 instructions and keeps the memory size |
| X86Execute.SetIpTwice | backend/Simulador.py:545-550 | step's second IP write, of the same value, is the same as one write |
| X86Execute.StepOfKeepsReady | backend/Simulador.py:536-558 | a step keeps the machine well formed and its memory size fixed |
| X86Properties.PushWord | backend/Simulador.py:333-338 | after the push's write, the word at DS:SP is the pushed value mod 2^16 and only SP changed among the registers |
| X86Properties.PushThenPop | backend/Simulador.py:333-345 | PUSH src then POP reg restores SP and leaves src's value in the register at its width |
| X86Properties.PopIntoRegister | backend/Simulador.py:340-345 | POP into a register other than SP: SP + 2 (16 bits) and the register holds the word at DS:SP at its width; memory and flags kept |
| X86Properties.PushEffect | backend/Simulador.py:333-338 | PUSH is SP := SP - 2 followed by a 16-bit write at the new SP |
| X86Properties.PopToRegister | backend/Simulador.py:340-345 | POP into a register is SP := SP + 2 followed by writing the word read at the old SP |
| X86Properties.CallKnownLabel | backend/Simulador.py:475-486 | CALL to a known label jumps to it, lowers SP by 2, and leaves the return IP at DS:SP |
| X86Properties.CallPushesFirst | backend/Simulador.py:475-486 | CALL pushes the return address first and looks the label up afterwards |
| X86Properties.CallUnknownLabelAfterPush | backend/Simulador.py:475-486 | CALL to an unknown label raises after the push: SP lowered, return IP stored, IP unchanged |
| X86Properties.RetPops | backend/Simulador.py:488-495 | RET loads IP from DS:SP and adds 2 to SP |
| X86Properties.SameMemoryView | backend/Simulador.py:167-177 | a memory read depends only on DS and the bytes |
| X86Properties.CallThenRet | backend/Simulador.py:475-495 | CALL to a known label then RET returns to the instruction after the CALL, with SP restored |
| X86Properties.JumpAfterCompare | backend/Simulador.py:435-472 | after CMP a, b on any integers (negative immediates and a wider source included): JE/JNE decide whether a and b agree at the width, and JL/JGE/JLE/JG follow the sign bit of a - b at the width |
| X86Properties.SignedJumpsWithoutOverflow | backend/Simulador.py:435-472 | when a - b does not overflow, the signed jumps compare a and b as two's-complement numbers |
| X86Properties.SignedJumpsMissOverflow | backend/Simulador.py:458-465 | with overflow, JL is not taken for -32768 < 1, and JGE is |
| X86Properties.CompareThenJumpIfEqual | backend/Simulador.py:435-472 | CMP x, y then JE jumps to the label exactly when the values agree at the width |
| X86Properties.AluOnRegister | backend/Simulador.py:356-363 | an ALU instruction on a register stores the result at its width, changes only that register, and sets ZF/SF from the result |
| X86Properties.XorSelfClears | backend/Simulador.py:414-423 | XOR r, r clears r and sets ZF |
| X86Properties.NotOnRegister | backend/Simulador.py:425-432 | NOT on a register writes the complement at its width and changes nothing else |
| X86Properties.NotTwice | backend/Simulador.py:425-432 | NOT twice restores the register file, and the flags stay |
| X86Properties.BitNotTwice | backend/Simulador.py:429 | `(~v) & mask` applied twice returns v |
| X86Properties.MulWide | backend/Simulador.py:381-393 | 16-bit MUL leaves AX * src (mod 2^32) in DX:AX and keeps the flags |
| X86Properties.MulWideEffect | backend/Simulador.py:387-393 | 16-bit MUL writes the low word to AX and the high word to DX |
| X86Properties.MulByte | backend/Simulador.py:381-388 | 8-bit MUL leaves AL * src in AX unreduced (both are bytes) and changes no other register, memory or flag |
| X86Properties.MulByteEffect | backend/Simulador.py:385-388 | 8-bit MUL writes AL * src to AX |
| X86Properties.DivWide | backend/Simulador.py:395-411 | 16-bit DIV, when the quotient fits, leaves quotient and remainder of DX:AX in AX and DX |
| X86Properties.DivWideEffect | backend/Simulador.py:404-411 | 16-bit DIV writes the floor quotient to AX and the floor remainder to DX |
| X86Properties.DivByte | backend/Simulador.py:395-403 | 8-bit DIV, when the quotient fits, leaves quotient and remainder of AX in AL and AH |
| X86Properties.DivByteEffect | backend/Simulador.py:400-403 | 8-bit DIV writes the floor quotient to AL and the floor remainder to AH |
| X86Properties.DivByZeroChangesNothing | backend/Simulador.py:399 | DIV by zero raises ZeroDivisionError before changing anything |
| X86Properties.FloorDivision | backend/Simulador.py:401-408 | Python's `//` and `%` agree with Euclidean division for the non-negative dividends DIV sees |
| X86Properties.MovToRegister | backend/Simulador.py:327-331 | MOV reg, src gives the register src's value at its width and changes no other register, memory or flag |
| X86Properties.MovToMemory | backend/Simulador.py:327-331 | MOV [a], src makes the cell at a read back as src's value at the width, and keeps the registers and flags |
| X86Properties.XchgRegisters | backend/Simulador.py:347-353 | XCHG of two different word registers swaps their values and changes nothing else |
| X86Properties.XchgRegisterPair | backend/Simulador.py:347-353 | XCHG of two registers of any width that share no bits gives each the other's value at its own width and changes no other register, memory or flag |
| X86Properties.XchgRegisterMemory | backend/Simulador.py:347-353 | XCHG reg, [a] stores the register's value at DS:a and gives the register the old memory value, both at the pair's width; no other register or flag changes |
| X86Properties.InToRegister | backend/Simulador.py:519-524 | IN reg, port leaves 0 in the register and changes nothing else |
| X86Properties.UnaryOnRegister | backend/Simulador.py:365-379 | INC, DEC and NEG on a register store the result at its width, change only that register, and set ZF/SF from the result |
| X86Properties.JmpToLabel | backend/Simulador.py:444-449 | JMP to a known label sets IP to its offset and nothing else; to an unknown label it raises ValueError and changes nothing |
| X86Properties.LoopCounts | backend/Simulador.py:505-516 | LOOP lowers CX by one mod 2^16 and jumps to the label unless CX was 1; nothing else changes |
| X86Properties.RunIsSteps | backend/Simulador.py:294-321 | run is step repeated from IP 0: all completed steps executed; it stops at END, at the 1000th instruction, or at the first exception |
| X86Properties.StepUnknownOpcode | backend/Simulador.py:536-558 | a step on an unknown opcode advances IP, raises, and changes nothing else |
| X86Properties.StepExecutes | backend/Simulador.py:536-558 | a step that fetches an instruction executes it on `Advance` of the machine (IP already at (ip + size) mod 2^16, nothing else changed); its exception is the step's status |
| X86Properties.StepCompare | backend/Simulador.py:434-442 | a step on CMP is `Cmp` on the advanced machine |
| X86Properties.StepOut | backend/Simulador.py:526-530 | a step on OUT is `Out` on the advanced machine |
| X86Properties.StepCall | backend/Simulador.py:475-486 | a step on CALL is `Call` on the advanced machine |
| X86Properties.StepCompareAdvances | backend/Simulador.py:536-558 | after a step on CMP, raised or not, the registers are the old ones with IP at (ip + size) mod 2^16, and memory is unchanged |
| X86Properties.StepOutAdvances | backend/Simulador.py:536-558 | after a step on OUT, raised or not, IP is (ip + size) mod 2^16 and nothing else changed |
| X86Properties.CallAfterAdvance | backend/Simulador.py:475-486 | CALL on the advanced machine pushes (ip + size) mod 2^16, moves SP down by 2 and jumps to the label |
| X86Properties.StepCallPushesReturn | backend/Simulador.py:536-558 | a step on `CALL name` with a known label succeeds, jumps to the label, and the word at the new DS:SP is the address of the next instruction, (ip + size) mod 2^16 |
| X86Simulator.InitialRegisters | backend/Simulador.py:128-137 | the initial register file is well formed |
| X86Simulator.Simulator.constructor | backend/Simulador.py:128-137 | zeroed memory of the given size, registers 0 except SP = BP = 0xFFFE, flags clear, no program and no labels |
| X86Simulator.Simulator.ReadMemory | backend/Simulador.py:167-177 | returns `ReadMem` of the machine |
| X86Simulator.Simulator.WriteMemory | backend/Simulador.py:179-191 | the new machine and fault are `WriteMem` of the old machine |
| X86Simulator.Simulator.GetOperandValue | backend/Simulador.py:193-212 | returns `ReadOperand` of the machine |
| X86Simulator.Simulator.GetOperandPair | backend/Simulador.py:359-360 | returns `ReadPair`: the destination's value, then the source's, or the first exception |
| X86Simulator.Simulator.SetResult | backend/Simulador.py:362-363 | the new machine and fault are `WriteFlagged`: the destination written, then ZF and SF set from the result unless the write raised |
| X86Simulator.Simulator.SetOperandValue | backend/Simulador.py:214-232 | the new machine and fault are `WriteOperand` of the old machine |
| X86Simulator.Simulator.ExecuteMov | backend/Simulador.py:327-331 | the new machine and fault are `Mov` of the old machine |
| X86Simulator.Simulator.ExecutePush | backend/Simulador.py:333-338 | the new machine and fault are `Push` of the old machine |
| X86Simulator.Simulator.ExecutePop | backend/Simulador.py:340-345 | the new machine and fault are `Pop` of the old machine |
| X86Simulator.Simulator.ExecuteXchg | backend/Simulador.py:347-353 | the new machine and fault are `Xchg` of the old machine |
| X86Simulator.Simulator.ExecuteAlu | backend/Simulador.py:356-423 | the new machine and fault are `Alu` of the old machine |
| X86Simulator.Simulator.ExecuteUnary | backend/Simulador.py:365-432 | the new machine and fault are `Unary` of the old machine |
| X86Simulator.Simulator.ExecuteMul | backend/Simulador.py:381-393 | the new machine and fault are `Mul` of the old machine |
| X86Simulator.Simulator.ExecuteDiv | backend/Simulador.py:395-411 | the new machine and fault are `Div` of the old machine |
| X86Simulator.Simulator.ExecuteCmp | backend/Simulador.py:435-442 | the new machine and fault are `Cmp` of the old machine |
| X86Simulator.Simulator.ExecuteJmp | backend/Simulador.py:444-449 | the new machine and fault are `Jmp` of the old machine |
| X86Simulator.Simulator.ExecuteJumpIf | backend/Simulador.py:452-472 | the new machine and fault are `JumpIf` of the old machine |
| X86Simulator.Simulator.ExecuteCall | backend/Simulador.py:475-486 | the new machine and fault are `Call` of the old machine |
| X86Simulator.Simulator.ExecuteRet | backend/Simulador.py:488-503 | the new machine and fault are `Ret` of the old machine |
| X86Simulator.Simulator.ExecuteLoop | backend/Simulador.py:505-516 | the new machine and fault are `Loop` of the old machine |
| X86Simulator.Simulator.ExecuteIn | backend/Simulador.py:519-524 | the new machine and fault are `In` of the old machine |
| X86Simulator.Simulator.ExecuteOut | backend/Simulador.py:526-530 | the fault is `Out`'s, and the machine is unchanged |
| X86Simulator.Simulator.ExecuteInstruction | backend/Simulador.py:323-533 | the new machine and fault are `Execute` of the old machine |
| X86Simulator.Simulator.ExecuteMovement | backend/Simulador.py:326-353 | the movement group (MOV, PUSH, POP, XCHG) leaves the machine and fault given by `Movement` of the old machine |
| X86Simulator.Simulator.ExecuteArithmetic | backend/Simulador.py:355-411 | the arithmetic group (ADD, SUB, INC, DEC, NEG, MUL, DIV) leaves the machine and fault given by `Arithmetic` |
| X86Simulator.Simulator.ExecuteBoolean | backend/Simulador.py:413-432 | the boolean group (AND, OR, XOR, NOT) leaves the machine and fault given by `Boolean` |
| X86Simulator.Simulator.ExecuteTestJump | backend/Simulador.py:434-472 | CMP, JMP and the conditional jumps leave the machine and fault given by `TestJump`; memory is not in the frame |
| X86Simulator.Simulator.ExecuteProcedure | backend/Simulador.py:474-516 | CALL, RET, IRET and LOOP leave the machine and fault given by `Procedure` |
| X86Simulator.Simulator.ExecuteIo | backend/Simulador.py:518-530 | IN and OUT leave the machine and fault given by `Io` |
| X86Simulator.Simulator.Step | backend/Simulador.py:536-558 | the new machine and status are `StepSpec` of the old machine |
| X86Simulator.Simulator.Run | backend/Simulador.py:294-321 | the new machine is the state `RunSpec` stops in |
| X86Simulator.Simulator.RunCycle | backend/Simulador.py:302-319 | one pass of run's loop leaves the machine and status that `StepSpec` gives for the old machine |
| X86Simulator.Simulator.Reset | backend/Simulador.py:560-569 | the registers become 0 (IP too); memory and flags are kept; program and labels are emptied |
| X86Simulator.Simulator.LoadProgramFromText | backend/Simulador.py:237-292 | the registers become `LoadedRegisters`, the labels those of pass 1, and the program that of pass 2; memory and flags are kept |
| X86Simulator.Simulator.RecordLabels | backend/Simulador.py:263-276 | the labels become those of `LabelPass` |
| X86Simulator.Simulator.StoreInstructions | backend/Simulador.py:278-292 | the program becomes that of `ProgramPass` |
| ToyInterpreter.ZeroRegisters | src/main.js:2-8 | all five registers are present and 0 |
| ToyInterpreter.RegisterOf | src/main.js:148 | a name denotes a register only when it is that register's name |
| ToyInterpreter.RegisterOfName | src/main.js:148-174 | each register's own name denotes it |
| ToyInterpreter.OpOf | src/main.js:143 | a text selects an instruction only when it is that instruction's spelling |
| ToyInterpreter.OpOfName | src/main.js:143-175 | each instruction's own spelling selects it |
| ToyInterpreter.Instruction | src/main.js:145-175 | a command is rejected exactly when it is a STORE or LOAD outside the 32 cells, with that address as the reason; otherwise it is the command of its own op, holding the given register and number |
| ToyInterpreter.ParseOperands | src/main.js:147-173 | the operand text makes one of the four instructions, a rejection, or a TypeError, and the TypeError comes exactly when it has no comma |
| ToyInterpreter.Parse | src/main.js:137-180 | a line is skipped exactly when it is empty or starts with ';'; the default case is taken only for an unknown instruction |
| ToyInterpreter.Apply | src/main.js:143-179 | only the four instructions change registers or memory |
| ToyInterpreter.LoadedProgram | src/main.js:64 | the program is the text's lines split at '\n', each trimmed, and has at least one line |
| ToyInterpreter.StepPage | src/main.js:93-109 | a step keeps the program; it ends exactly at the last line, and then changes nothing; it throws exactly on a TypeError line, and then changes nothing; otherwise it moves to the next line with IP equal to it |
| ToyInterpreter.RunIsRepeatedStep | src/main.js:76-88 | run is step repeated once per remaining line: without a throw it reaches the end with IP at the line count, and a throw stops it at a TypeError line in the state the lines before it left |
| ToyInterpreter.RunPage | src/main.js:76-88 | runProgram executes at most the lines that remain; `RunIsRepeatedStep` gives the full meaning |
| ToyInterpreter.RunFromPage | src/main.js:79-83 | the same, for the run loop entered at any line |
| ToyInterpreter.SkippedLine | src/main.js:138 | empty and comment lines change nothing |
| ToyInterpreter.UnknownLine | src/main.js:177-178 | a line with an unknown first word takes the default case and changes nothing |
| ToyInterpreter.ParseKnown | src/main.js:140-147 | for a known instruction, only the text up to the second space is read as operands |
| ToyInterpreter.PlainName | src/main.js:148 | register names contain no space or comma and are trimmed and upper case |
| ToyInterpreter.OperandsAfterName | src/main.js:147-149 | `REG,TEXT` names that register, and its number is parseInt of the trimmed text or a rejection |
| ToyInterpreter.OperandsOf | src/main.js:147-149 | `REG,NUMBER` makes the instruction on that register and number |
| ToyInterpreter.InstructionLine | src/main.js:137-175 | `OP REG,NUMBER` reads as that instruction, on that register and number |
| ToyInterpreter.SpaceAfterComma | src/main.js:140-149 | `OP REG, NUMBER` (a space after the comma) hands the empty text to parseInt and is rejected |
| ToyInterpreter.InstructionEffect | src/main.js:145-175 | MOV sets and ADD adds to the register; STORE copies the register into a cell inside memory; LOAD copies a cell into the register; other registers and cells are kept, and an address outside memory changes nothing |
| ToyInterpreter.LoadedLinesTrimmed | src/main.js:64 | every loaded line is already trimmed |
| ToyInterpreter.StoreThenLoad | src/main.js:161-175 | STORE r,a then LOAD r2,a copies r into r2 and leaves r's value in cell a |
| ToyPage.ZeroMemory | src/main.js:11 | 32 cells, all 0 |
| ToyPage.ResetPage | src/main.js:114-118 | after a reset, all registers and cells are 0, the line is 0, and the program is kept |
| ToyPage.ResetForgets | src/main.js:114-118 | a reset depends only on the program, and resetting twice is resetting once |
| ToyPage.LoadPage | src/main.js:63-66 | after loading, the program is the trimmed lines, the line and IP are 0, and the other registers and all cells are kept |
| ToyPage.Page.constructor | src/main.js:1-15 | zero registers, zero memory, no program, line 0 |
| ToyPage.Page.ExecuteLine | src/main.js:137-180 | throws exactly on a TypeError line; the registers and memory become `Apply` of the parsed line; program and line are kept |
| ToyPage.Page.Perform | src/main.js:143-179 | the registers and memory become `Apply` of the command |
| ToyPage.Page.LoadProgram | src/main.js:63-71 | the new state is `LoadPage` of the old one |
| ToyPage.Page.StepProgram | src/main.js:93-109 | the new state and status are `StepPage` of the old state |
| ToyPage.Page.AdvanceLine | src/main.js:99-105 | the shared body of runProgram and stepProgram: the new state and status are `StepPage` of the old state at a line before the end |
| ToyPage.Page.RunProgram | src/main.js:76-88 | the new state is the state `RunPage` stops in, and it throws exactly when that run faulted |
| ToyPage.Page.ResetProgram | src/main.js:114-122 | the new state is `ResetPage` of the old one |

## Left out

- Output: `print`, `log_print`, `output_log`, `dump_print`, and the page's console, register and memory views (`logToConsole`, `updateRegisters`, `updateMemory`, `dumpMemory`). They only display state.
- `backend/app.py`, the web server in front of the simulator, is not part of this model.
- Python's `int(text, 0)` and JavaScript's `parseInt` are parameters (`parseInt: string -> Option<int>`), because number syntax is library behaviour, not the simulator's. `None` stands for a ValueError or NaN.
- Operand texts are classified once, at load time (`X86Loader.Classify`). The source reads the text again at each execution; the outcome is the same.
- Lower and upper case cover ASCII letters only. Python's `str.lower` and JavaScript's `toUpperCase` map more characters.
- Memory of size 0 is excluded by a precondition. The source would fail on the first modulo by zero.
- The JavaScript side treats numbers as unbounded integers. The doubles, NaN results and `undefined` values the script would keep are not modelled:
  - an unknown register name, a number parseInt rejects and an address outside 0..31 are `Rejected` and change nothing;
  - the engine would instead store `undefined` or NaN, or add a property or an array element.
- A missing operand text (the `TypeError` of `parts[1].split` or `value.trim`) is the only exception on the JavaScript side. It stops `runProgram` at that line. `stepProgram` then changes nothing.
- `halted`, set by no instruction, and the `_flags` attribute written by `CPU.reset` are not modelled. `Cpu.Reset` therefore keeps the flags.
- IN writes 0: the simulated port has no device behind it.
- Every memory access, including PUSH, POP, CALL and RET, goes through DS, because the source's default segment argument is DS.
- AND, OR and XOR work on the low 16 bits of their operands. The source applies them to Python integers. Only the value reduced to the register's width reaches the state.
- A label whose name parses as a number, or is bracketed, is classified as an immediate or a memory operand. Jumping to it therefore fails. The source would look it up in the labels.
- X86Execute.Mov: its own contract only says what the instruction keeps; what it computes is stated by `MovToRegister` and `MovToMemory` in `X86Properties`.
- X86Execute.Xchg: its own contract only says what the instruction keeps; what it computes is stated by `XchgRegisterPair`, `XchgRegisters` and `XchgRegisterMemory` in `X86Properties`. No lemma covers `XCHG [a], reg` (memory first), `[reg]` operands, or two overlapping registers such as `XCHG AX, AL`.
- X86Execute.Push: its own contract only says what the instruction keeps; what it computes is stated by `PushEffect`, `PushWord` and `PushThenPop` in `X86Properties`.
- X86Execute.Pop: its own contract only says what the instruction keeps; what it computes is stated by `PopToRegister` and `PushThenPop` in `X86Properties`.
- X86Execute.Alu: its own contract only says what the instruction keeps; what it computes is stated by `AluOnRegister` and `XorSelfClears` in `X86Properties`.
- X86Execute.Unary: its own contract only says what the instruction keeps; what it computes is stated by `UnaryOnRegister`, `NotOnRegister` and `NotTwice` in `X86Properties`.
- X86Execute.Mul: its own contract only says what the instruction keeps; what it computes is stated by `MulWide` and `MulWideEffect` (16-bit) and `MulByte` and `MulByteEffect` (8-bit) in `X86Properties`.
- X86Execute.Div: its own contract only says what the instruction keeps; what it computes is stated by `DivWide`, `DivByte` and `DivByZeroChangesNothing` in `X86Properties`.
- X86Execute.Cmp: its own contract only says what the instruction keeps; what it computes is stated by `JumpAfterCompare` and `CompareThenJumpIfEqual` in `X86Properties`.
- X86Execute.Jmp: its own contract only says what the instruction keeps; what it computes is stated by `JmpToLabel` in `X86Properties`.
- X86Execute.JumpIf: its own contract only says what the instruction keeps; what it computes is stated by `JumpAfterCompare` and `CompareThenJumpIfEqual` in `X86Properties`.
- X86Execute.Call: its own contract only says what the instruction keeps; what it computes is stated by `CallKnownLabel`, `CallPushesFirst` and `CallUnknownLabelAfterPush` in `X86Properties`.
- X86Execute.Ret: its own contract only says what the instruction keeps; what it computes is stated by `RetPops` and `CallThenRet` in `X86Properties`.
- X86Execute.Loop: its own contract only says what the instruction keeps; what it computes is stated by `LoopCounts` in `X86Properties`.
- X86Execute.In: its own contract only says what the instruction keeps; what it computes is stated by `InToRegister` in `X86Properties`.
