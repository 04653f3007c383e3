/**
 * The register file and status flags of the 16-bit real-mode simulator
 * (class CPU of backend/Simulador.py).
 *
 * Thirteen 16-bit registers are stored; AL..DL and AH..DH are views on the low
 * and high byte of AX..DX. Every write is reduced to 16 (or 8) bits, which is
 * what `value & 0xFFFF` and `value & 0xFF` do for Python's unbounded integers.
 */
module X86Cpu {
  import opened Wrappers
  import opened Text

  const WordModulus: int := 0x1_0000
  const ByteModulus: int := 0x100

  datatype Reg16 = AX | BX | CX | DX | SI | DI | BP | SP | IP | CS | DS | SS | ES

  /** A register as an operand names it: a whole word, or the low or high byte of one. */
  datatype RegRef = Word(reg: Reg16) | Low(reg: Reg16) | High(reg: Reg16)

  /** The exceptions the simulator raises, by cause. */
  datatype Fault =
    | UnknownRegister      // ValueError from get_reg / set_reg
    | InvalidOperand       // ValueError: neither register nor integer
    | InvalidDestination   // ValueError: destination is not a register
    | MissingOperand       // IndexError on operands[k]
    | AddressOutOfRange    // IndexError on memory[address + 1]
    | UnknownLabel         // ValueError (JMP) or KeyError (Jcc, CALL, LOOP)
    | DivideByZero         // ZeroDivisionError
    | UnknownInstruction   // NotImplementedError

  datatype Result<+T> = Ok(value: T) | Err(fault: Fault)

  predicate HasByteHalves(r: Reg16) {
    r == AX || r == BX || r == CX || r == DX
  }

  /** The 21 register names the CPU accepts denote exactly these references. */
  predicate IsNamed(ref: RegRef) {
    ref.Word? || HasByteHalves(ref.reg)
  }

  predicate IsByteRef(ref: RegRef) {
    !ref.Word?
  }

  /** The lower-case name of a register reference. */
  function NameOf(ref: RegRef): string
    requires IsNamed(ref)
  {
    match ref
    case Word(r) =>
      (match r
       case AX => "ax" case BX => "bx" case CX => "cx" case DX => "dx"
       case SI => "si" case DI => "di" case BP => "bp" case SP => "sp" case IP => "ip"
       case CS => "cs" case DS => "ds" case SS => "ss" case ES => "es")
    case Low(r) =>
      if r == AX then "al" else if r == BX then "bl" else if r == CX then "cl" else "dl"
    case High(r) =>
      if r == AX then "ah" else if r == BX then "bh" else if r == CX then "ch" else "dh"
  }

  const RegisterNames: set<string> :=
    {"ax", "bx", "cx", "dx", "si", "di", "bp", "sp", "ip", "cs", "ds", "ss", "es",
     "al", "bl", "cl", "dl", "ah", "bh", "ch", "dh"}

  /** Name lookup as get_reg and set_reg do it, after `reg_name.lower()`. */
  function Resolve(name: string): (r: Option<RegRef>)
    ensures r.Some? <==> Lower(name) in RegisterNames
    ensures r.Some? ==> IsNamed(r.value) && NameOf(r.value) == Lower(name)
  {
    Lookup(Lower(name))
  }

  function Lookup(n: string): (r: Option<RegRef>)
    ensures r.Some? <==> n in RegisterNames
    ensures r.Some? ==> IsNamed(r.value) && NameOf(r.value) == n
  {
    if n == "ax" then Some(Word(AX)) else if n == "bx" then Some(Word(BX))
    else if n == "cx" then Some(Word(CX)) else if n == "dx" then Some(Word(DX))
    else if n == "si" then Some(Word(SI)) else if n == "di" then Some(Word(DI))
    else if n == "bp" then Some(Word(BP)) else if n == "sp" then Some(Word(SP))
    else if n == "ip" then Some(Word(IP)) else if n == "cs" then Some(Word(CS))
    else if n == "ds" then Some(Word(DS)) else if n == "ss" then Some(Word(SS))
    else if n == "es" then Some(Word(ES))
    else if n == "al" then Some(Low(AX)) else if n == "bl" then Some(Low(BX))
    else if n == "cl" then Some(Low(CX)) else if n == "dl" then Some(Low(DX))
    else if n == "ah" then Some(High(AX)) else if n == "bh" then Some(High(BX))
    else if n == "ch" then Some(High(CX)) else if n == "dh" then Some(High(DX))
    else None
  }

  /** The names _is_reg_8bit accepts. */
  const ByteNames: set<string> := {"al", "ah", "bl", "bh", "cl", "ch", "dl", "dh"}

  /**
   * _is_reg_8bit: a name resolves to the low or high byte of a register
   * exactly when its lower-case form is one of al..dh.
   */
  lemma ResolvesToByte(name: string)
    ensures (Resolve(name).Some? && IsByteRef(Resolve(name).value)) <==> Lower(name) in ByteNames
  {
    if Resolve(name).Some? {
      ByteRefName(Resolve(name).value);
    } else {
      assert ByteNames <= RegisterNames;
    }
  }

  /** The byte halves are exactly the references named al..dh. */
  lemma ByteRefName(ref: RegRef)
    requires IsNamed(ref)
    ensures IsByteRef(ref) <==> NameOf(ref) in ByteNames
  {
    match ref
    case Word(r) => {
      match r
      case AX => case BX => case CX => case DX => case SI => case DI => case BP =>
      case SP => case IP => case CS => case DS => case SS => case ES =>
    }
    case Low(r) =>
    case High(r) =>
  }

  /**
   * A name resolves to a register exactly when its lower-case form is that
   * register's name: Resolve is the inverse of NameOf.
   */
  lemma ResolveNameOf(name: string, ref: RegRef)
    requires IsNamed(ref)
    ensures Resolve(name) == Some(ref) <==> Lower(name) == NameOf(ref)
  {
    if Lower(name) == NameOf(ref) {
      NameOfInjective(Resolve(name).value, ref);
    }
  }

  lemma NameOfInjective(a: RegRef, b: RegRef)
    requires IsNamed(a) && IsNamed(b) && NameOf(a) == NameOf(b)
    ensures a == b
  {
  }

  /** The register file `_registers`: all thirteen names present, each a 16-bit value. */
  type RegFile = map<Reg16, int>

  ghost predicate WellFormed(regs: RegFile) {
    forall r: Reg16 :: r in regs && 0 <= regs[r] < WordModulus
  }

  /** The thirteen registers are all there are; named so that case splits over Reg16 stay cheap. */
  lemma EveryRegister(r: Reg16)
    ensures r in {AX, BX, CX, DX, SI, DI, BP, SP, IP, CS, DS, SS, ES}
  {
  }

  function ZeroRegisters(): (regs: RegFile)
    ensures WellFormed(regs)
    ensures forall r: Reg16 :: regs[r] == 0
  {
    var regs := map[AX := 0, BX := 0, CX := 0, DX := 0, SI := 0, DI := 0, BP := 0, SP := 0, IP := 0,
                    CS := 0, DS := 0, SS := 0, ES := 0];
    assert forall r: Reg16 :: r in regs by {
      forall r: Reg16 ensures r in regs {
        EveryRegister(r);
      }
    }
    regs
  }

  function Modulus(ref: RegRef): int {
    if ref.Word? then WordModulus else ByteModulus
  }

  /** get_reg for a resolved name: the word, `& 0xFF`, or `(>> 8) & 0xFF`. */
  function Read(regs: RegFile, ref: RegRef): (v: int)
    requires WellFormed(regs)
    ensures 0 <= v < Modulus(ref)
  {
    match ref
    case Word(r) => regs[r]
    case Low(r) => regs[r] % ByteModulus
    case High(r) => regs[r] / ByteModulus % ByteModulus
  }

  /**
   * set_reg for a resolved name. A byte write keeps the other byte of the
   * parent: `(x & 0xFF00) | (v & 0xFF)` and `(x & 0x00FF) | ((v & 0xFF) << 8)`.
   */
  function Write(regs: RegFile, ref: RegRef, v: int): (r: RegFile)
    requires WellFormed(regs)
    ensures WellFormed(r)
    ensures Read(r, ref) == v % Modulus(ref)
    ensures r == regs[ref.reg := r[ref.reg]]
    ensures ref.Low? ==> Read(r, High(ref.reg)) == Read(regs, High(ref.reg))
    ensures ref.High? ==> Read(r, Low(ref.reg)) == Read(regs, Low(ref.reg))
  {
    match ref
    case Word(r) => regs[r := v % WordModulus]
    case Low(r) =>
      var x := regs[r];
      ByteHalves(x / ByteModulus, v % ByteModulus);
      regs[r := x / ByteModulus * ByteModulus + v % ByteModulus]
    case High(r) =>
      var x := regs[r];
      ByteHalves(v % ByteModulus, x % ByteModulus);
      regs[r := v % ByteModulus * ByteModulus + x % ByteModulus]
  }

  /** A word is its high byte times 256 plus its low byte, and nothing else. */
  lemma ByteHalves(hi: int, lo: int)
    requires 0 <= hi < ByteModulus && 0 <= lo < ByteModulus
    ensures 0 <= hi * ByteModulus + lo < WordModulus
    ensures (hi * ByteModulus + lo) % ByteModulus == lo
    ensures (hi * ByteModulus + lo) / ByteModulus == hi
  {
  }

  /** get_reg(name): the value, or ValueError for a name outside the 21. */
  function GetByName(regs: RegFile, name: string): (r: Result<int>)
    requires WellFormed(regs)
    ensures r.Err? <==> Lower(name) !in RegisterNames
    ensures r.Err? ==> r.fault == UnknownRegister
    ensures r.Ok? ==> 0 <= r.value < WordModulus
  {
    match Resolve(name)
    case None => Err(UnknownRegister)
    case Some(ref) => Ok(Read(regs, ref))
  }

  /** set_reg(name, value) on the register file, or ValueError. */
  function SetByName(regs: RegFile, name: string, v: int): (r: Result<RegFile>)
    requires WellFormed(regs)
    ensures r.Err? <==> Lower(name) !in RegisterNames
    ensures r.Err? ==> r.fault == UnknownRegister
    ensures r.Ok? ==> WellFormed(r.value)
  {
    match Resolve(name)
    case None => Err(UnknownRegister)
    case Some(ref) => Ok(Write(regs, ref, v))
  }

  /**
   * Writing a 16-bit name stores v mod 2^16 and reading the name returns it;
   * no other register changes.
   */
  lemma SetThenGetWord(regs: RegFile, name: string, v: int)
    requires WellFormed(regs)
    requires Resolve(name).Some? && Resolve(name).value.Word?
    ensures SetByName(regs, name, v).Ok?
    ensures GetByName(SetByName(regs, name, v).value, name) == Ok(v % WordModulus)
    ensures forall q: Reg16 :: q != Resolve(name).value.reg ==> SetByName(regs, name, v).value[q] == regs[q]
  {
  }

  /**
   * Writing AL..DL (AH..DH) replaces only the low (high) byte of the parent:
   * reading the name gives v & 0xFF, the other half and every other register
   * are unchanged.
   */
  lemma SetThenGetByte(regs: RegFile, name: string, v: int)
    requires WellFormed(regs)
    requires Resolve(name).Some? && IsByteRef(Resolve(name).value)
    ensures SetByName(regs, name, v).Ok?
    ensures GetByName(SetByName(regs, name, v).value, name) == Ok(v % ByteModulus)
    ensures var ref := Resolve(name).value;
            var other := if ref.Low? then High(ref.reg) else Low(ref.reg);
            Read(SetByName(regs, name, v).value, other) == Read(regs, other)
    ensures forall q: Reg16 :: q != Resolve(name).value.reg ==> SetByName(regs, name, v).value[q] == regs[q]
  {
  }

  /** A name outside the 21 is refused by both get_reg and set_reg. */
  lemma UnknownNameRefused(regs: RegFile, name: string, v: int)
    requires WellFormed(regs)
    requires Lower(name) !in RegisterNames
    ensures GetByName(regs, name) == Err(UnknownRegister)
    ensures SetByName(regs, name, v) == Err(UnknownRegister)
  {
  }

  // ---------------------------------------------------------------------
  // Flags
  // ---------------------------------------------------------------------

  /** The `flags` dictionary; true stands for 1. */
  datatype Flags = Flags(zf: bool, sf: bool, of: bool, cf: bool)

  const ClearFlags: Flags := Flags(false, false, false, false)

  datatype Width = W8 | W16

  function WidthModulus(w: Width): int {
    if w == W16 then WordModulus else ByteModulus
  }

  /** set_flags_arith(result, bits): mask, reinterpret as signed, then set ZF and SF. */
  function ArithFlags(flags: Flags, result: int, w: Width): Flags
  {
    var mask := WidthModulus(w) - 1;
    var maxSigned := WidthModulus(w) / 2 - 1;
    var masked := result % (mask + 1);
    var signed := if masked > maxSigned then masked - (mask + 1) else masked;
    flags.(zf := masked == 0, sf := signed < 0)
  }

  /**
   * ZF is set iff the result is 0 modulo 2^bits, SF iff its top bit is set;
   * OF and CF are never touched.
   */
  lemma ArithFlagsMeaning(flags: Flags, result: int, w: Width)
    ensures var f := ArithFlags(flags, result, w);
            && (f.zf <==> result % WidthModulus(w) == 0)
            && (f.sf <==> result % WidthModulus(w) >= WidthModulus(w) / 2)
            && f.of == flags.of && f.cf == flags.cf
  {
  }

  // ---------------------------------------------------------------------
  // The CPU object
  // ---------------------------------------------------------------------

  /** The register bank and flags of one simulated CPU. */
  datatype Snapshot = Snapshot(registers: map<Reg16, int>, flags: Flags)

  class Cpu {
    var registers: RegFile
    var flags: Flags

    ghost predicate Valid()
      reads this
    {
      WellFormed(registers)
    }

    constructor ()
      ensures Valid()
      ensures registers == ZeroRegisters() && flags == ClearFlags
    {
      registers := ZeroRegisters();
      flags := ClearFlags;
    }

    /** get_reg: the value of a named register or byte half. */
    function GetReg(name: string): (r: Result<int>)
      reads this
      requires Valid()
      ensures r.Err? <==> Lower(name) !in RegisterNames
      ensures r.Ok? ==> r.value == Read(registers, Resolve(name).value)
    {
      GetByName(registers, name)
    }

    /** The write behind set_reg once the name is resolved. */
    method SetRegister(ref: RegRef, value: int)
      requires Valid()
      modifies this
      ensures Valid()
      ensures registers == Write(old(registers), ref, value)
      ensures flags == old(flags)
    {
      var x := registers[ref.reg];
      match ref
      case Word(r) =>
        registers := registers[r := value % WordModulus];
      case Low(r) =>
        registers := registers[r := x / ByteModulus * ByteModulus + value % ByteModulus];
      case High(r) =>
        registers := registers[r := value % ByteModulus * ByteModulus + x % ByteModulus];
    }

    /** set_reg: update a named register, or report the unknown name and change nothing. */
    method SetReg(name: string, value: int) returns (fault: Option<Fault>)
      requires Valid()
      modifies this
      ensures Valid() && flags == old(flags)
      ensures fault.None? <==> Lower(name) in RegisterNames
      ensures match SetByName(old(registers), name, value)
              case Ok(regs) => fault == None && registers == regs
              case Err(f) => fault == Some(f) && registers == old(registers)
    {
      var ref := Resolve(name);
      if ref.None? {
        return Some(UnknownRegister);
      }
      SetRegister(ref.value, value);
      fault := None;
    }

    /** set_flags_arith: ZF and SF from the masked result; OF, CF and the registers unchanged. */
    method SetFlagsArith(result: int, w: Width)
      requires Valid()
      modifies this
      ensures Valid() && registers == old(registers)
      ensures flags == ArithFlags(old(flags), result, w)
    {
      var mask := if w == W16 then 0xFFFF else 0xFF;
      var maxSigned := if w == W16 then 0x7FFF else 0x7F;
      var masked := result % (mask + 1);
      var signed := masked;
      if signed > maxSigned {
        signed := signed - (mask + 1);
      }
      flags := flags.(zf := masked == 0);
      flags := flags.(sf := signed < 0);
    }

    /** dump: the thirteen 16-bit registers and the flags. */
    function Dump(): (d: Snapshot)
      reads this
      requires Valid()
      ensures d.registers.Keys == registers.Keys
      ensures forall r: Reg16 :: r in d.registers && d.registers[r] == registers[r]
      ensures d.flags == flags
    {
      Snapshot(registers, flags)
    }

    /**
     * reset: every register becomes 0. The flags are NOT cleared: the source
     * assigns a new attribute `_flags`, so `flags` keeps its values.
     */
    method Reset()
      requires Valid()
      modifies this
      ensures Valid()
      ensures registers == ZeroRegisters()
      ensures flags == old(flags)
    {
      registers := ZeroRegisters();
    }
  }
}
