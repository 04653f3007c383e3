/**
 * The simulator's memory and operands (Simulator of backend/Simulador.py):
 * a byte array addressed as segment:offset, little-endian words, and the four
 * operand forms an instruction can name.
 */
module X86Machine {
  import opened Wrappers
  import opened X86Cpu
  import opened Arith

  newtype byte = x: int | 0 <= x < 256

  /** Everything an instruction can read or change. */
  datatype Machine = Machine(regs: RegFile, flags: Flags, mem: seq<byte>)

  ghost predicate Ready(m: Machine) {
    WellFormed(m.regs) && |m.mem| > 0
  }

  /**
   * The state after an operation, and the exception it raised if any. When
   * the exception comes half-way through, `m` holds the effects made before it.
   */
  datatype Effect = Effect(m: Machine, fault: Option<Fault>)

  /**
   * get_physical_address: segment * 16 + (offset & 0xFFFF), reduced modulo the
   * memory size when it falls outside (real-address-mode translation of the
   * Intel SDM, with the model's wrap-around).
   */
  function PhysicalAddress(regs: RegFile, segment: Reg16, offset: int, size: nat): (a: nat)
    requires WellFormed(regs) && size > 0
    ensures a < size
  {
    var linear := regs[segment] * 16 + offset % WordModulus;
    if linear >= size then Wrap(linear, size) else linear
  }

  /** `linear % size`, taken by repeated subtraction so that it stays linear arithmetic. */
  function Wrap(linear: nat, size: nat): (a: nat)
    requires size > 0
    ensures a < size
    decreases linear
  {
    if linear < size then linear else Wrap(linear - size, size)
  }

  lemma {:induction false} WrapIsModulo(linear: nat, size: nat)
    requires size > 0
    ensures Wrap(linear, size) == linear % size
    decreases linear
  {
    if linear >= size {
      WrapIsModulo(linear - size, size);
      SubtractModulus(linear, size);
    }
  }


  /** The address is always inside memory and equals the linear address modulo the size. */
  lemma PhysicalAddressInRange(regs: RegFile, segment: Reg16, offset: int, size: nat)
    requires WellFormed(regs) && size > 0
    ensures PhysicalAddress(regs, segment, offset, size) < size
    ensures PhysicalAddress(regs, segment, offset, size)
            == (regs[segment] * 16 + offset % WordModulus) % size
  {
    var linear := regs[segment] * 16 + offset % WordModulus;
    WrapIsModulo(linear, size);
  }

  /** Offsets that agree modulo 2^16 name the same byte. */
  lemma PhysicalAddressOffsetModulo(regs: RegFile, segment: Reg16, a: int, b: int, size: nat)
    requires WellFormed(regs) && size > 0
    requires a % WordModulus == b % WordModulus
    ensures PhysicalAddress(regs, segment, a, size) == PhysicalAddress(regs, segment, b, size)
  {
  }

  function DataAddress(m: Machine, offset: int): (a: nat)
    requires Ready(m)
    ensures a < |m.mem|
  {
    PhysicalAddressInRange(m.regs, DS, offset, |m.mem|);
    PhysicalAddress(m.regs, DS, offset, |m.mem|)
  }

  /**
   * _read_memory(offset, bits) on segment DS: one byte, or a little-endian
   * word whose high byte is the next address; IndexError past the end.
   */
  function ReadMem(m: Machine, offset: int, w: Width): (r: Result<int>)
    requires Ready(m)
    ensures r.Ok? ==> 0 <= r.value < WidthModulus(w)
    ensures r.Err? <==> w == W16 && DataAddress(m, offset) + 1 == |m.mem|
    ensures r.Err? ==> r.fault == AddressOutOfRange
  {
    var a := DataAddress(m, offset);
    match w
    case W8 => Ok(m.mem[a] as int)
    case W16 =>
      if a + 1 < |m.mem| then Ok(m.mem[a + 1] as int * 256 + m.mem[a] as int)
      else Err(AddressOutOfRange)
  }

  /**
   * _write_memory(offset, value, bits) on segment DS. A word stores its low
   * byte first; when the high byte would fall past the end the low byte is
   * already written and IndexError follows.
   */
  function WriteMem(m: Machine, offset: int, v: int, w: Width): (e: Effect)
    requires Ready(m)
    ensures Ready(e.m) && |e.m.mem| == |m.mem|
    ensures e.m.regs == m.regs && e.m.flags == m.flags
    ensures e.fault.Some? <==> w == W16 && DataAddress(m, offset) + 1 == |m.mem|
    ensures e.fault.Some? ==> e.fault.value == AddressOutOfRange
  {
    var a := DataAddress(m, offset);
    var low := m.mem[a := (v % 256) as byte];
    match w
    case W8 => Effect(m.(mem := low), None)
    case W16 =>
      if a + 1 < |m.mem| then Effect(m.(mem := low[a + 1 := (v / 256 % 256) as byte]), None)
      else Effect(m.(mem := low), Some(AddressOutOfRange))
  }

  /**
   * A 16-bit write followed by a 16-bit read of the same offset returns
   * v & 0xFFFF; the low byte sits at the lower address and no other byte changes.
   */
  lemma WordWriteRead(m: Machine, offset: int, v: int)
    requires Ready(m) && DataAddress(m, offset) + 1 < |m.mem|
    ensures var e := WriteMem(m, offset, v, W16);
            var a := DataAddress(m, offset);
            && e.fault.None?
            && ReadMem(e.m, offset, W16) == Ok(v % WordModulus)
            && e.m.mem[a] as int == v % 256
            && e.m.mem[a + 1] as int == v / 256 % 256
            && forall i :: 0 <= i < |m.mem| && i != a && i != a + 1 ==> e.m.mem[i] == m.mem[i]
  {
    var e := WriteMem(m, offset, v, W16);
    var a := DataAddress(m, offset);
    assert DataAddress(e.m, offset) == a;
    var lo, hi := v % 256, v / 256 % 256;
    assert e.m.mem[a + 1] as int * 256 + e.m.mem[a] as int == hi * 256 + lo;
    WordDigits(v);
  }

  /** v mod 2^16 is its second byte times 256 plus its first. */
  lemma WordDigits(v: int)
    ensures v / 256 % 256 * 256 + v % 256 == v % WordModulus
  {
    var q := v / 256;
    assert v == q * 256 + v % 256;
    var q2 := q / 256;
    assert q == q2 * 256 + q % 256;
    assert v == q2 * WordModulus + (q % 256 * 256 + v % 256);
  }

  /** An 8-bit write changes exactly one byte, to v & 0xFF. */
  lemma ByteWriteRead(m: Machine, offset: int, v: int)
    requires Ready(m)
    ensures var e := WriteMem(m, offset, v, W8);
            var a := DataAddress(m, offset);
            && e.fault.None?
            && ReadMem(e.m, offset, W8) == Ok(v % 256)
            && forall i :: 0 <= i < |m.mem| && i != a ==> e.m.mem[i] == m.mem[i]
  {
    var e := WriteMem(m, offset, v, W8);
    assert DataAddress(e.m, offset) == DataAddress(m, offset);
  }

  /** A word access at the last byte raises IndexError; a write leaves its low byte behind. */
  lemma WordAtLastByte(m: Machine, offset: int, v: int)
    requires Ready(m) && DataAddress(m, offset) + 1 == |m.mem|
    ensures ReadMem(m, offset, W16) == Err(AddressOutOfRange)
    ensures WriteMem(m, offset, v, W16).fault == Some(AddressOutOfRange)
    ensures WriteMem(m, offset, v, W16).m.mem == m.mem[|m.mem| - 1 := (v % 256) as byte]
  {
  }

  // ---------------------------------------------------------------------
  // Operands
  // ---------------------------------------------------------------------

  /**
   * An operand after classification of its text, with register names
   * already resolved: a register, any other bare word (a label for the jumps,
   * an invalid operand elsewhere), an immediate, `[imm]`, `[reg]`, or a
   * bracket whose inside is neither a number nor a register.
   */
  datatype Operand =
    | Reg(ref: RegRef)
    | Name(text: string)
    | Imm(value: int)
    | MemAt(address: int)
    | MemVia(base: RegRef)
    | MemInvalid

  /**
   * What classification can produce: register references have a name, and a
   * bare word is kept as a word only when it is not a register name.
   */
  predicate Classified(o: Operand) {
    match o
    case Reg(ref) => IsNamed(ref)
    case MemVia(ref) => IsNamed(ref)
    case Name(text) => Resolve(text).None?
    case _ => true
  }

  /** _is_reg_8bit: the operand is one of AL..DH. */
  predicate IsByteReg(o: Operand) {
    o.Reg? && IsByteRef(o.ref)
  }

  /** The `bits` of a two-operand instruction: 8 if either side is a byte register. */
  function PairWidth(dst: Operand, src: Operand): Width {
    if IsByteReg(dst) || IsByteReg(src) then W8 else W16
  }

  function UnaryWidth(o: Operand): Width {
    if IsByteReg(o) then W8 else W16
  }

  /**
   * _get_operand_value(operand, bits_hint): a register's value, an immediate,
   * or memory at the address (through the register for `[reg]`); a word that
   * is no register is ValueError, and so is `[x]` with x neither a number nor
   * a register. A memory read fails only for a word at the last byte.
   */
  function ReadOperand(m: Machine, o: Operand, w: Width): (r: Result<int>)
    requires Ready(m)
    ensures r.Err? <==> o.Name? || o.MemInvalid? || ((o.MemAt? || o.MemVia?) && !WidthOk(m, o, w))
    ensures o.Name? ==> r == Err(InvalidOperand)
    ensures o.MemInvalid? ==> r == Err(UnknownRegister)
    ensures o.Reg? ==> r == Ok(Read(m.regs, o.ref))
    ensures o.Imm? ==> r == Ok(o.value)
    ensures o.MemAt? ==> r == ReadMem(m, o.address, w)
    ensures o.MemVia? ==> r == ReadMem(m, Read(m.regs, o.base), w)
    ensures (o.MemAt? || o.MemVia?) && r.Ok? ==> 0 <= r.value < WidthModulus(w)
  {
    match o
    case Reg(ref) => Ok(Read(m.regs, ref))
    case Name(_) => Err(InvalidOperand)
    case Imm(v) => Ok(v)
    case MemAt(a) => ReadMem(m, a, w)
    case MemVia(ref) => ReadMem(m, Read(m.regs, ref), w)
    case MemInvalid => Err(UnknownRegister)
  }

  /** A memory operand's access fits: a word must not start at the last byte. */
  predicate WidthOk(m: Machine, o: Operand, w: Width)
    requires Ready(m) && (o.MemAt? || o.MemVia?)
  {
    var a := if o.MemAt? then o.address else Read(m.regs, o.base);
    w == W16 ==> DataAddress(m, a) + 1 < |m.mem|
  }

  /**
   * _set_operand_value(operand, value, bits_hint): a register takes the value
   * at its width, memory takes it at the width hint; anything else is an
   * invalid destination and changes nothing.
   */
  function WriteOperand(m: Machine, o: Operand, v: int, w: Width): (e: Effect)
    requires Ready(m)
    ensures Ready(e.m) && |e.m.mem| == |m.mem| && e.m.flags == m.flags
    ensures o.Reg? || o.Name? || o.Imm? || o.MemInvalid? ==> e.m.mem == m.mem
    ensures !o.Reg? ==> e.m.regs == m.regs
    ensures e.fault.None? <==> o.Reg? || ((o.MemAt? || o.MemVia?) && WidthOk(m, o, w))
    ensures o.Reg? ==> e == Effect(m.(regs := Write(m.regs, o.ref, v)), None)
    ensures o.MemAt? ==> e == WriteMem(m, o.address, v, w)
    ensures o.MemVia? ==> e == WriteMem(m, Read(m.regs, o.base), v, w)
    ensures o.Name? || o.Imm? ==> e.fault == Some(InvalidDestination)
    ensures o.MemInvalid? ==> e.fault == Some(UnknownRegister)
  {
    match o
    case Reg(ref) => Effect(m.(regs := Write(m.regs, ref, v)), None)
    case Name(_) => Effect(m, Some(InvalidDestination))
    case Imm(_) => Effect(m, Some(InvalidDestination))
    case MemAt(a) => WriteMem(m, a, v, w)
    case MemVia(ref) => WriteMem(m, Read(m.regs, ref), v, w)
    case MemInvalid => Effect(m, Some(UnknownRegister))
  }

  /**
   * Writing a register operand and reading it back gives the value reduced to
   * the register's width; no other register, no flag and no memory changes.
   */
  lemma WriteThenReadRegister(m: Machine, ref: RegRef, v: int, w: Width)
    requires Ready(m)
    ensures var e := WriteOperand(m, Reg(ref), v, w);
            && e.fault.None?
            && ReadOperand(e.m, Reg(ref), w) == Ok(v % Modulus(ref))
            && (forall q: Reg16 :: q != ref.reg ==> e.m.regs[q] == m.regs[q])
            && e.m.mem == m.mem && e.m.flags == m.flags
  {
  }

  /**
   * Writing a memory operand and reading it back at the same width gives the
   * value reduced to the width, when the word fits in memory.
   */
  lemma WriteThenReadMemory(m: Machine, a: int, v: int, w: Width)
    requires Ready(m) && (w == W16 ==> DataAddress(m, a) + 1 < |m.mem|)
    ensures var e := WriteOperand(m, MemAt(a), v, w);
            && e.fault.None?
            && ReadOperand(e.m, MemAt(a), w) == Ok(v % WidthModulus(w))
            && e.m.regs == m.regs
  {
    if w == W16 {
      WordWriteRead(m, a, v);
    } else {
      ByteWriteRead(m, a, v);
    }
  }
}
