/**
 * Properties of the instruction semantics: stack discipline, the jump
 * conditions after CMP, the MUL/DIV register pairs, and run as a sequence
 * of steps.
 */
module X86Properties {
  import opened Wrappers
  import opened X86Cpu
  import opened X86Machine
  import opened X86Execute
  import opened Driver
  import opened Arith
  import Text

  // ---------------------------------------------------------------------
  // Stack
  // ---------------------------------------------------------------------

  /** A stack pointer moved by -2 and back by +2 is the original 16-bit value. */
  lemma StackPointerRestored(sp: int)
    requires 0 <= sp < WordModulus
    ensures ((sp - 2) % WordModulus + 2) % WordModulus == sp
  {
  }

  /**
   * Pushing a word: SP moves down by 2 (in 16 bits) and the word at the new
   * DS:SP is v & 0xFFFF; registers other than SP and the flags are unchanged.
   */
  lemma PushWord(m: Machine, v: int)
    requires Ready(m) && DataAddress(m, m.regs[SP] - 2) + 1 < |m.mem|
    ensures var sp := m.regs[SP] - 2;
            var e := WriteMem(SetWord(m, SP, sp), sp, v, W16);
            && e.fault.None?
            && e.m.regs == Write(m.regs, Word(SP), sp)
            && e.m.flags == m.flags
            && ReadMem(e.m, e.m.regs[SP], W16) == Ok(v % WordModulus)
  {
    var sp := m.regs[SP] - 2;
    var m1 := SetWord(m, SP, sp);
    assert m1.regs[DS] == m.regs[DS];
    assert DataAddress(m1, sp) == DataAddress(m, sp);
    WordWriteRead(m1, sp, v);
    var e := WriteMem(m1, sp, v, W16);
    assert e.m.regs[SP] == sp % WordModulus;
    PhysicalAddressOffsetModulo(e.m.regs, DS, e.m.regs[SP], sp, |e.m.mem|);
    assert DataAddress(e.m, e.m.regs[SP]) == DataAddress(e.m, sp);
  }

  /**
   * PUSH x then POP y: SP is back where it was and y holds the pushed 16-bit
   * value (reduced to y's width), provided the word at DS:SP-2 fits in
   * memory and y is not SP itself.
   */
  lemma PushThenPop(m: Machine, src: Operand, ref: RegRef)
    requires Ready(m)
    requires ReadOperand(m, src, W16).Ok?
    requires ref.reg != SP
    requires DataAddress(m, m.regs[SP] - 2) + 1 < |m.mem|
    ensures var pushed := Push(m, [src]);
            var popped := Pop(pushed.m, [Reg(ref)]);
            && pushed.fault.None? && popped.fault.None?
            && popped.m.regs[SP] == m.regs[SP]
            && Read(popped.m.regs, ref) == ReadOperand(m, src, W16).value % Modulus(ref)
            && popped.m.mem == pushed.m.mem && popped.m.flags == m.flags
  {
    var v := ReadOperand(m, src, W16).value;
    var sp := m.regs[SP];
    PushWord(m, v);
    PushEffect(m, src);
    var m2 := Push(m, [src]).m;
    assert m2.regs[SP] == (sp - 2) % WordModulus;
    PopIntoRegister(m2, ref);
    StackPointerRestored(sp);
    ModOfModulus(v, ref);
  }

  /**
   * POP into a register other than SP: SP moves up by 2 and the register
   * holds the word that was at DS:SP, reduced to its width.
   */
  lemma PopIntoRegister(m: Machine, ref: RegRef)
    requires Ready(m) && ReadMem(m, m.regs[SP], W16).Ok? && ref.reg != SP
    ensures var popped := Pop(m, [Reg(ref)]);
            && popped.fault.None?
            && popped.m.regs[SP] == (m.regs[SP] + 2) % WordModulus
            && Read(popped.m.regs, ref) == ReadMem(m, m.regs[SP], W16).value % Modulus(ref)
            && popped.m.mem == m.mem && popped.m.flags == m.flags
  {
    var sp := m.regs[SP];
    PopToRegister(m, ref);
    var m3 := SetWord(m, SP, sp + 2);
    WriteThenReadRegister(m3, ref, ReadMem(m, sp, W16).value, W16);
  }

  /** PUSH src: the write of src at DS:SP-2 after SP moved. */
  lemma PushEffect(m: Machine, src: Operand)
    requires Ready(m) && ReadOperand(m, src, W16).Ok?
    ensures var sp := m.regs[SP] - 2;
            Push(m, [src]) == WriteMem(SetWord(m, SP, sp), sp, ReadOperand(m, src, W16).value, W16)
  {
  }

  /** POP into a register: the word at DS:SP written to the register after SP moved. */
  lemma PopToRegister(m: Machine, ref: RegRef)
    requires Ready(m) && ReadMem(m, m.regs[SP], W16).Ok?
    ensures var sp := m.regs[SP];
            Pop(m, [Reg(ref)]) == WriteOperand(SetWord(m, SP, sp + 2), Reg(ref), ReadMem(m, sp, W16).value, W16)
  {
  }

  /** Reducing to 16 bits first does not change a register-width reduction. */
  lemma ModOfModulus(v: int, ref: RegRef)
    ensures v % WordModulus % Modulus(ref) == v % Modulus(ref)
  {
    if !ref.Word? {
      ModUnique(v, ByteModulus, v / WordModulus * ByteModulus + v % WordModulus / ByteModulus, v % WordModulus % ByteModulus);
    }
  }

  /**
   * CALL L with L a known label: SP moves down by 2, the word at the new
   * DS:SP is the return address, and IP is the label's offset.
   */
  lemma CallKnownLabel(m: Machine, labels: map<string, int>, name: string)
    requires Ready(m) && Text.Lower(name) in labels
    requires DataAddress(m, m.regs[SP] - 2) + 1 < |m.mem|
    ensures var called := Call(m, labels, [Name(name)]);
            && called.fault.None?
            && called.m.regs[IP] == labels[Text.Lower(name)] % WordModulus
            && called.m.regs[SP] == (m.regs[SP] - 2) % WordModulus
            && ReadMem(called.m, called.m.regs[SP], W16) == Ok(m.regs[IP])
  {
    var sp := m.regs[SP];
    SmallModulo(m.regs[IP], WordModulus);
    PushWord(m, m.regs[IP]);
    CallPushesFirst(m, labels, Name(name));
    var e1 := WriteMem(SetWord(m, SP, sp - 2), sp - 2, m.regs[IP], W16);
    var after := SetIp(e1.m, labels[Text.Lower(name)]);
    assert after.regs[SP] == e1.m.regs[SP];
    SameMemoryView(e1.m, after, e1.m.regs[SP]);
    assert ReadMem(after, after.regs[SP], W16) == Ok(m.regs[IP] % WordModulus);
  }

  /** CALL pushes the return address, and only then looks the label up. */
  lemma CallPushesFirst(m: Machine, labels: map<string, int>, o: Operand)
    requires Ready(m) && DataAddress(m, m.regs[SP] - 2) + 1 < |m.mem|
    ensures var e1 := WriteMem(SetWord(m, SP, m.regs[SP] - 2), m.regs[SP] - 2, m.regs[IP], W16);
            && e1.fault.None?
            && Call(m, labels, [o]) == match Target(labels, o)
                                       case None => Effect(e1.m, Some(UnknownLabel))
                                       case Some(t) => Effect(SetIp(e1.m, t), None)
  {
    var sp := m.regs[SP] - 2;
    var e1 := WriteMem(SetWord(m, SP, sp), sp, m.regs[IP], W16);
    PushWord(m, m.regs[IP]);
    assert e1.fault.None?;
  }

  /** Memory reads depend only on DS and the bytes. */
  lemma SameMemoryView(a: Machine, b: Machine, offset: int)
    requires Ready(a) && Ready(b) && a.mem == b.mem && a.regs[DS] == b.regs[DS]
    ensures ReadMem(a, offset, W16) == ReadMem(b, offset, W16)
    ensures ReadMem(a, offset, W8) == ReadMem(b, offset, W8)
  {
    assert DataAddress(a, offset) == DataAddress(b, offset);
  }

  /** RET (and IRET): IP takes the word at DS:SP and SP moves up by 2. */
  lemma RetPops(m: Machine)
    requires Ready(m) && ReadMem(m, m.regs[SP], W16).Ok?
    ensures var e := Ret(m);
            && e.fault.None?
            && e.m.regs[IP] == ReadMem(m, m.regs[SP], W16).value
            && e.m.regs[SP] == (m.regs[SP] + 2) % WordModulus
  {
  }

  /**
   * CALL L then RET: IP becomes the label's offset and then the return
   * address (the IP the CALL saw, already past it), and SP is restored.
   */
  lemma CallThenRet(m: Machine, labels: map<string, int>, name: string)
    requires Ready(m) && Text.Lower(name) in labels
    requires DataAddress(m, m.regs[SP] - 2) + 1 < |m.mem|
    ensures var called := Call(m, labels, [Name(name)]);
            var returned := Ret(called.m);
            && called.fault.None?
            && called.m.regs[IP] == labels[Text.Lower(name)] % WordModulus
            && returned.fault.None?
            && returned.m.regs[IP] == m.regs[IP]
            && returned.m.regs[SP] == m.regs[SP]
  {
    CallKnownLabel(m, labels, name);
    RetPops(Call(m, labels, [Name(name)]).m);
    StackPointerRestored(m.regs[SP]);
  }

  /**
   * CALL to a label that does not exist: the return address is already on
   * the stack and SP already moved when the KeyError comes.
   */
  lemma CallUnknownLabelAfterPush(m: Machine, labels: map<string, int>, name: string)
    requires Ready(m) && Text.Lower(name) !in labels
    requires DataAddress(m, m.regs[SP] - 2) + 1 < |m.mem|
    ensures var called := Call(m, labels, [Name(name)]);
            && called.fault == Some(UnknownLabel)
            && called.m.regs[SP] == (m.regs[SP] - 2) % WordModulus
            && called.m.regs[IP] == m.regs[IP]
            && ReadMem(called.m, called.m.regs[SP], W16) == Ok(m.regs[IP])
  {
    var sp := m.regs[SP];
    SmallModulo(m.regs[IP], WordModulus);
    PushWord(m, m.regs[IP]);
    CallPushesFirst(m, labels, Name(name));
    var e1 := WriteMem(SetWord(m, SP, sp - 2), sp - 2, m.regs[IP], W16);
    assert e1.m.regs[IP] == m.regs[IP];
  }

  // ---------------------------------------------------------------------
  // Jumps after CMP
  // ---------------------------------------------------------------------

  /** A value of the given width read as two's complement. */
  function Signed(v: int, w: Width): int {
    if v >= WidthModulus(w) / 2 then v - WidthModulus(w) else v
  }

  /**
   * After CMP a, b on any values (negative immediates and a wider source
   * included): JE/JNE decide whether they agree at the width, and the signed
   * jumps look at the sign of a - b reduced to the width (SF alone).
   */
  lemma JumpAfterCompare(flags: Flags, a: int, b: int, w: Width)
    ensures var f := ArithFlags(flags, a - b, w);
            var mod := WidthModulus(w);
            var negative := (a - b) % mod >= mod / 2;
            && (Taken(JE, f) <==> a % mod == b % mod)
            && (Taken(JNE, f) <==> a % mod != b % mod)
            && (Taken(JL, f) <==> negative)
            && (Taken(JGE, f) <==> !negative)
            && (Taken(JLE, f) <==> a % mod == b % mod || negative)
            && (Taken(JG, f) <==> a % mod != b % mod && !negative)
  {
    ArithFlagsMeaning(flags, a - b, w);
    DifferenceModulo(a, b, WidthModulus(w));
  }

  /**
   * Without signed overflow the SF-only conditions agree with the signed
   * order of the operands.
   */
  lemma SignedJumpsWithoutOverflow(flags: Flags, a: int, b: int, w: Width)
    requires 0 <= a < WidthModulus(w) && 0 <= b < WidthModulus(w)
    requires -(WidthModulus(w) / 2) <= Signed(a, w) - Signed(b, w) < WidthModulus(w) / 2
    ensures var f := ArithFlags(flags, a - b, w);
            && (Taken(JL, f) <==> Signed(a, w) < Signed(b, w))
            && (Taken(JLE, f) <==> Signed(a, w) <= Signed(b, w))
            && (Taken(JG, f) <==> Signed(a, w) > Signed(b, w))
            && (Taken(JGE, f) <==> Signed(a, w) >= Signed(b, w))
  {
    JumpAfterCompare(flags, a, b, w);
    var mod := WidthModulus(w);
    SmallModulo(a, mod);
    SmallModulo(b, mod);
    var d := Signed(a, w) - Signed(b, w);
    assert (a - b) % mod == (if d < 0 then d + mod else d) by {
      assert a - b == d || a - b == d + mod || a - b == d - mod;
    }
  }

  /**
   * With signed overflow they do not: -32768 is less than 1, yet after
   * CMP 0x8000, 1 JL is not taken and JGE is.
   */
  lemma SignedJumpsMissOverflow(flags: Flags)
    ensures Signed(0x8000, W16) < Signed(1, W16)
    ensures !Taken(JL, ArithFlags(flags, 0x8000 - 1, W16))
    ensures Taken(JGE, ArithFlags(flags, 0x8000 - 1, W16))
  {
  }

  /**
   * CMP x, y then JE L: the jump lands on L exactly when the operands agree
   * at the comparison's width; otherwise IP stays where it was.
   */
  lemma CompareThenJumpIfEqual(m: Machine, labels: map<string, int>, x: Operand, y: Operand, name: string)
    requires Ready(m) && Text.Lower(name) in labels
    requires ReadOperand(m, x, PairWidth(x, y)).Ok? && ReadOperand(m, y, PairWidth(x, y)).Ok?
    ensures var w := PairWidth(x, y);
            var a := ReadOperand(m, x, w).value;
            var b := ReadOperand(m, y, w).value;
            var compared := Cmp(m, [x, y]);
            var jumped := JumpIf(compared.m, labels, JE, [Name(name)]);
            && compared.fault.None? && jumped.fault.None?
            && jumped.m.regs[IP] == (if a % WidthModulus(w) == b % WidthModulus(w)
                                     then labels[Text.Lower(name)] % WordModulus
                                     else m.regs[IP])
  {
    var w := PairWidth(x, y);
    var a := ReadOperand(m, x, w).value;
    var b := ReadOperand(m, y, w).value;
    ArithFlagsMeaning(m.flags, a - b, w);
    DifferenceModulo(a, b, WidthModulus(w));
  }

  // ---------------------------------------------------------------------
  // ALU, MUL, DIV
  // ---------------------------------------------------------------------

  /**
   * ADD/SUB/AND/OR/XOR on a register destination: the register receives the
   * result at its own width, ZF and SF describe the result at the
   * instruction's width, and nothing else changes.
   */
  lemma AluOnRegister(m: Machine, op: Mnemonic, ref: RegRef, src: Operand)
    requires Ready(m) && op in {ADD, SUB, AND, OR, XOR}
    requires ReadOperand(m, src, PairWidth(Reg(ref), src)).Ok?
    ensures var w := PairWidth(Reg(ref), src);
            var result := Combine(op, Read(m.regs, ref), ReadOperand(m, src, w).value);
            var e := Alu(m, op, [Reg(ref), src]);
            && e.fault.None?
            && Read(e.m.regs, ref) == result % Modulus(ref)
            && (forall q: Reg16 :: q != ref.reg ==> e.m.regs[q] == m.regs[q])
            && e.m.mem == m.mem
            && (e.m.flags.zf <==> result % WidthModulus(w) == 0)
            && (e.m.flags.sf <==> result % WidthModulus(w) >= WidthModulus(w) / 2)
  {
    var w := PairWidth(Reg(ref), src);
    var result := Combine(op, Read(m.regs, ref), ReadOperand(m, src, w).value);
    WriteThenReadRegister(m, ref, result, w);
    ArithFlagsMeaning(WriteOperand(m, Reg(ref), result, w).m.flags, result, w);
  }

  /** XOR r, r clears r and sets ZF. */
  lemma XorSelfClears(m: Machine, ref: RegRef)
    requires Ready(m)
    ensures var e := Alu(m, XOR, [Reg(ref), Reg(ref)]);
            && e.fault.None? && Read(e.m.regs, ref) == 0 && e.m.flags.zf
  {
    var v := Read(m.regs, ref);
    assert BitXor(v, v) == 0;
    AluOnRegister(m, XOR, ref, Reg(ref));
  }

  /** NOT on a register writes the complement at the register's width and nothing else. */
  lemma NotOnRegister(m: Machine, ref: RegRef)
    requires Ready(m)
    ensures Modulus(ref) == WidthModulus(UnaryWidth(Reg(ref)))
    ensures var r := Write(m.regs, ref, BitNot(Read(m.regs, ref), UnaryWidth(Reg(ref))));
            Unary(m, NOT, [Reg(ref)]) == Effect(m.(regs := r), None)
  {
  }

  /** NOT twice restores a register, and NOT never touches the flags. */
  lemma NotTwice(m: Machine, ref: RegRef)
    requires Ready(m)
    ensures var once := Unary(m, NOT, [Reg(ref)]);
            var twice := Unary(once.m, NOT, [Reg(ref)]);
            && once.fault.None? && twice.fault.None?
            && twice.m.regs == m.regs && twice.m.flags == m.flags
  {
    var w := UnaryWidth(Reg(ref));
    var v := Read(m.regs, ref);
    NotOnRegister(m, ref);
    var r1 := Write(m.regs, ref, BitNot(v, w));
    BitNotInRange(v, w);
    var u := Read(r1, ref);
    assert u == BitNot(v, w);
    NotOnRegister(m.(regs := r1), ref);
    var r2 := Write(r1, ref, BitNot(u, w));
    BitNotInRange(u, w);
    SmallModulo(BitNot(u, w), Modulus(ref));
    assert Read(r2, ref) == BitNot(u, w);
    BitNotTwice(v, w);
    SameRegisterFile(m.regs, r2, ref);
  }

  lemma BitNotInRange(v: int, w: Width)
    requires 0 <= v < WidthModulus(w)
    ensures BitNot(v, w) == WidthModulus(w) - 1 - v
  {
  }

  /** ~~v == v on a value of the width. */
  lemma BitNotTwice(v: int, w: Width)
    requires 0 <= v < WidthModulus(w)
    ensures BitNot(BitNot(v, w), w) == v
  {
    BitNotInRange(v, w);
    BitNotInRange(WidthModulus(w) - 1 - v, w);
  }

  /** Two register files that agree outside ref's register and agree on ref are equal. */
  lemma SameRegisterFile(a: RegFile, b: RegFile, ref: RegRef)
    requires WellFormed(a) && WellFormed(b)
    requires forall q: Reg16 :: q != ref.reg ==> a[q] == b[q]
    requires Read(a, ref) == Read(b, ref)
    requires ref.Low? ==> Read(a, High(ref.reg)) == Read(b, High(ref.reg))
    requires ref.High? ==> Read(a, Low(ref.reg)) == Read(b, Low(ref.reg))
    ensures a == b
  {
    var r := ref.reg;
    if !ref.Word? {
      ByteHalvesDetermine(a[r], b[r]);
    }
    forall q: Reg16
      ensures a[q] == b[q]
    {
      EveryRegister(q);
    }
    assert forall q :: q in a <==> q in b by {
      forall q: Reg16 ensures q in a && q in b { EveryRegister(q); }
    }
  }

  lemma ByteHalvesDetermine(x: int, y: int)
    requires 0 <= x < WordModulus && 0 <= y < WordModulus
    requires x % ByteModulus == y % ByteModulus
    requires x / ByteModulus % ByteModulus == y / ByteModulus % ByteModulus
    ensures x == y
  {
  }

  /** (r mod 2^16) + ((r div 2^16) mod 2^16) * 2^16 is r mod 2^32. */
  lemma WordPair(r: int)
    ensures r % WordModulus + r / WordModulus % WordModulus * WordModulus == r % (WordModulus * WordModulus)
  {
    var q := r / WordModulus;
    var lo := r % WordModulus;
    var mid := q % WordModulus;
    assert r == q * WordModulus + lo;
    assert q == q / WordModulus * WordModulus + mid;
    assert r == q / WordModulus * (WordModulus * WordModulus) + (mid * WordModulus + lo);
    assert 0 <= mid * WordModulus + lo < WordModulus * WordModulus;
    ModUnique(r, WordModulus * WordModulus, q / WordModulus, mid * WordModulus + lo);
  }

  /** 16-bit MUL: DX:AX holds AX * src reduced to 32 bits; the flags stay. */
  lemma MulWide(m: Machine, src: Operand)
    requires Ready(m) && UnaryWidth(src) == W16 && ReadOperand(m, src, W16).Ok?
    ensures var e := Mul(m, [src]);
            && e.fault.None?
            && e.m.regs[DX] * WordModulus + e.m.regs[AX]
               == m.regs[AX] * ReadOperand(m, src, W16).value % (WordModulus * WordModulus)
            && e.m.flags == m.flags
  {
    var v := ReadOperand(m, src, W16).value;
    var p := m.regs[AX] * v;
    MulWideEffect(m, src, v, p);
    var m1 := SetWord(m, AX, p % WordModulus);
    var m2 := SetWord(m1, DX, p / WordModulus % WordModulus);
    SmallModulo(p % WordModulus, WordModulus);
    SmallModulo(p / WordModulus % WordModulus, WordModulus);
    assert m2.regs[AX] == m1.regs[AX] == p % WordModulus;
    assert m2.regs[DX] == p / WordModulus % WordModulus;
    WordPair(p);
  }

  /** The effect of a 16-bit MUL, before any arithmetic. */
  lemma MulWideEffect(m: Machine, src: Operand, v: int, p: int)
    requires Ready(m) && UnaryWidth(src) == W16 && ReadOperand(m, src, W16) == Ok(v)
    requires p == m.regs[AX] * v
    ensures Mul(m, [src]) == Effect(SetWord(SetWord(m, AX, p % WordModulus), DX, p / WordModulus % WordModulus), None)
  {
  }

  /**
   * 8-bit MUL by a byte register: AX := AL * src. Both factors are bytes, so
   * the product fits in AX unreduced; the other registers, the memory and the
   * flags stay.
   */
  lemma MulByte(m: Machine, src: RegRef)
    requires Ready(m) && IsByteRef(src)
    ensures var e := Mul(m, [Reg(src)]);
            && e.fault.None?
            && e.m.regs[AX] == Read(m.regs, Low(AX)) * Read(m.regs, src)
            && (forall q: Reg16 :: q != AX ==> e.m.regs[q] == m.regs[q])
            && e.m.mem == m.mem && e.m.flags == m.flags
  {
    var a, b := Read(m.regs, Low(AX)), Read(m.regs, src);
    MulByteEffect(m, src);
    ProductBelow(a, b, ByteModulus);
    SmallModulo(a * b, WordModulus);
    var r := Write(m.regs, Word(AX), a * b);
    assert r[AX] == a * b;
  }

  /** The effect of an 8-bit MUL, before any arithmetic. */
  lemma MulByteEffect(m: Machine, src: RegRef)
    requires Ready(m) && IsByteRef(src)
    ensures Mul(m, [Reg(src)]) == Effect(SetWord(m, AX, Read(m.regs, Low(AX)) * Read(m.regs, src)), None)
  {
  }

  /**
   * 16-bit DIV by a positive 16-bit divisor whose quotient fits: AX is the
   * quotient and DX the remainder of DX:AX.
   */
  lemma DivWide(m: Machine, src: Operand)
    requires Ready(m) && UnaryWidth(src) == W16 && ReadOperand(m, src, W16).Ok?
    requires 0 < ReadOperand(m, src, W16).value < WordModulus
    requires (m.regs[DX] * WordModulus + m.regs[AX]) / ReadOperand(m, src, W16).value < WordModulus
    ensures var v := ReadOperand(m, src, W16).value;
            var e := Div(m, [src]);
            && e.fault.None?
            && e.m.regs[AX] * v + e.m.regs[DX] == m.regs[DX] * WordModulus + m.regs[AX]
            && 0 <= e.m.regs[DX] < v
  {
    var v := ReadOperand(m, src, W16).value;
    var d := m.regs[DX] * WordModulus + m.regs[AX];
    DivWideEffect(m, src, v, d);
    FloorDivision(d, v);
    var m1 := SetWord(m, AX, d / v);
    assert m1.regs[AX] == d / v;
    assert SetWord(m1, DX, d % v).regs[DX] == d % v;
  }

  /** The effect of a 16-bit DIV by a nonzero divisor, before any arithmetic. */
  lemma DivWideEffect(m: Machine, src: Operand, v: int, d: int)
    requires Ready(m) && UnaryWidth(src) == W16 && ReadOperand(m, src, W16) == Ok(v) && v != 0
    requires d == m.regs[DX] * WordModulus + m.regs[AX]
    ensures Div(m, [src]) == Effect(SetWord(SetWord(m, AX, FloorDiv(d, v)), DX, FloorMod(d, v)), None)
  {
  }

  /** For a non-negative dividend and a positive divisor, Python's // and % are Euclidean. */
  lemma FloorDivision(d: int, v: int)
    requires d >= 0 && v > 0
    ensures FloorDiv(d, v) == d / v && FloorMod(d, v) == d % v
    ensures d / v * v + d % v == d && 0 <= d % v < v && d / v >= 0
  {
    assert d == d / v * v + d % v;
    QuotientNonNegative(d, v);
  }

  lemma QuotientNonNegative(d: int, v: int)
    requires d >= 0 && v > 0
    ensures d / v >= 0
  {
  }

  /** 8-bit DIV: AL is the quotient and AH the remainder of AX. */
  lemma DivByte(m: Machine, src: Operand)
    requires Ready(m) && UnaryWidth(src) == W8 && ReadOperand(m, src, W8).Ok?
    requires 0 < ReadOperand(m, src, W8).value < ByteModulus
    requires m.regs[AX] / ReadOperand(m, src, W8).value < ByteModulus
    ensures var v := ReadOperand(m, src, W8).value;
            var e := Div(m, [src]);
            && e.fault.None?
            && Read(e.m.regs, Low(AX)) * v + Read(e.m.regs, High(AX)) == m.regs[AX]
  {
    var v := ReadOperand(m, src, W8).value;
    var a := m.regs[AX];
    DivByteEffect(m, src, v);
    FloorDivision(a, v);
    var r1 := Write(m.regs, Low(AX), a / v);
    var r2 := Write(r1, High(AX), a % v);
    assert Read(r1, Low(AX)) == a / v;
    assert Read(r2, Low(AX)) == Read(r1, Low(AX));
    assert Read(r2, High(AX)) == a % v;
  }

  /** The effect of an 8-bit DIV by a nonzero divisor, before any arithmetic. */
  lemma DivByteEffect(m: Machine, src: Operand, v: int)
    requires Ready(m) && UnaryWidth(src) == W8 && ReadOperand(m, src, W8) == Ok(v) && v != 0
    ensures var r1 := Write(m.regs, Low(AX), FloorDiv(m.regs[AX], v));
            Div(m, [src]) == Effect(m.(regs := Write(r1, High(AX), FloorMod(m.regs[AX], v))), None)
  {
  }

  /** DIV by zero raises before any change. */
  lemma DivByZeroChangesNothing(m: Machine, src: Operand)
    requires Ready(m) && ReadOperand(m, src, UnaryWidth(src)) == Ok(0)
    ensures Div(m, [src]) == Effect(m, Some(DivideByZero))
  {
  }

  // ---------------------------------------------------------------------
  // MOV, XCHG, IN, INC/DEC/NEG
  // ---------------------------------------------------------------------

  /** MOV reg, src: the register receives src at its width, and nothing else changes. */
  lemma MovToRegister(m: Machine, ref: RegRef, src: Operand)
    requires Ready(m) && ReadOperand(m, src, PairWidth(Reg(ref), src)).Ok?
    ensures var e := Mov(m, [Reg(ref), src]);
            && e.fault.None?
            && Read(e.m.regs, ref) == ReadOperand(m, src, PairWidth(Reg(ref), src)).value % Modulus(ref)
            && (forall q: Reg16 :: q != ref.reg ==> e.m.regs[q] == m.regs[q])
            && e.m.mem == m.mem && e.m.flags == m.flags
  {
    var w := PairWidth(Reg(ref), src);
    WriteThenReadRegister(m, ref, ReadOperand(m, src, w).value, w);
  }

  /** MOV [a], src: the cell at a reads back as src at the width, and no register changes. */
  lemma MovToMemory(m: Machine, a: int, src: Operand)
    requires Ready(m) && ReadOperand(m, src, PairWidth(MemAt(a), src)).Ok?
    requires PairWidth(MemAt(a), src) == W16 ==> DataAddress(m, a) + 1 < |m.mem|
    ensures var w := PairWidth(MemAt(a), src);
            var e := Mov(m, [MemAt(a), src]);
            && e.fault.None?
            && ReadOperand(e.m, MemAt(a), w) == Ok(ReadOperand(m, src, w).value % WidthModulus(w))
            && e.m.regs == m.regs && e.m.flags == m.flags
  {
    var w := PairWidth(MemAt(a), src);
    WriteThenReadMemory(m, a, ReadOperand(m, src, w).value, w);
  }

  /** XCHG of two different word registers swaps their values and changes nothing else. */
  lemma XchgRegisters(m: Machine, a: Reg16, b: Reg16)
    requires Ready(m) && a != b
    ensures var e := Xchg(m, [Reg(Word(a)), Reg(Word(b))]);
            && e.fault.None?
            && e.m.regs == m.regs[b := m.regs[a]][a := m.regs[b]]
            && e.m.mem == m.mem && e.m.flags == m.flags
  {
    SmallModulo(m.regs[a], WordModulus);
    SmallModulo(m.regs[b], WordModulus);
    var r1 := Write(m.regs, Word(b), m.regs[a]);
    assert r1 == m.regs[b := m.regs[a]];
    var r2 := Write(r1, Word(a), m.regs[b]);
    assert r2 == r1[a := m.regs[b]];
  }

  /** Two register references that share no bits: different registers, or the two halves of one. */
  predicate Apart(a: RegRef, b: RegRef) {
    a.reg != b.reg || (a.Low? && b.High?) || (a.High? && b.Low?)
  }

  /**
   * XCHG of two registers that share no bits, of either width: each takes the
   * other's value reduced to its own width, and nothing else changes.
   */
  lemma XchgRegisterPair(m: Machine, a: RegRef, b: RegRef)
    requires Ready(m) && Apart(a, b)
    ensures var e := Xchg(m, [Reg(a), Reg(b)]);
            && e.fault.None?
            && Read(e.m.regs, a) == Read(m.regs, b) % Modulus(a)
            && Read(e.m.regs, b) == Read(m.regs, a) % Modulus(b)
            && (forall q: Reg16 :: q != a.reg && q != b.reg ==> e.m.regs[q] == m.regs[q])
            && e.m.mem == m.mem && e.m.flags == m.flags
  {
    var va, vb := Read(m.regs, a), Read(m.regs, b);
    var r1 := Write(m.regs, b, va);
    var r2 := Write(r1, a, vb);
    assert Xchg(m, [Reg(a), Reg(b)]) == Effect(m.(regs := r2), None);
    if a.reg != b.reg {
      assert r2[b.reg] == r1[b.reg];
      assert Read(r2, b) == Read(r1, b);
    }
  }

  /**
   * XCHG reg, [a] when the access fits: the memory at DS:a (DS as it was)
   * takes the register's value and the register the memory's, both at the
   * pair's width; no other register and no flag changes.
   */
  lemma XchgRegisterMemory(m: Machine, ref: RegRef, a: int)
    requires Ready(m) && (PairWidth(Reg(ref), MemAt(a)) == W16 ==> DataAddress(m, a) + 1 < |m.mem|)
    ensures var w := PairWidth(Reg(ref), MemAt(a));
            var e := Xchg(m, [Reg(ref), MemAt(a)]);
            && e.fault.None?
            && Read(e.m.regs, ref) == ReadMem(m, a, w).value % Modulus(ref)
            && ReadMem(e.m.(regs := m.regs), a, w) == Ok(Read(m.regs, ref) % WidthModulus(w))
            && (forall q: Reg16 :: q != ref.reg ==> e.m.regs[q] == m.regs[q])
            && e.m.flags == m.flags
  {
    var w := PairWidth(Reg(ref), MemAt(a));
    var vr, vm := Read(m.regs, ref), ReadMem(m, a, w).value;
    var e1 := WriteMem(m, a, vr, w);
    if w == W16 {
      WordWriteRead(m, a, vr);
    } else {
      ByteWriteRead(m, a, vr);
    }
    assert Xchg(m, [Reg(ref), MemAt(a)]) == Effect(e1.m.(regs := Write(m.regs, ref, vm)), None);
    assert e1.m.(regs := Write(m.regs, ref, vm)).(regs := m.regs) == e1.m;
  }

  /** IN reg, port: the register reads 0 afterwards, and nothing else changes. */
  lemma InToRegister(m: Machine, ref: RegRef, port: Operand)
    requires Ready(m)
    ensures var e := In(m, [Reg(ref), port]);
            && e.fault.None?
            && Read(e.m.regs, ref) == 0
            && (forall q: Reg16 :: q != ref.reg ==> e.m.regs[q] == m.regs[q])
            && e.m.mem == m.mem && e.m.flags == m.flags
  {
    WriteThenReadRegister(m, ref, 0, W16);
  }

  /**
   * INC, DEC and NEG on a register: the register receives the result at its
   * width, ZF and SF describe it, and nothing else changes.
   */
  lemma UnaryOnRegister(m: Machine, op: Mnemonic, ref: RegRef)
    requires Ready(m) && op in {INC, DEC, NEG}
    ensures var w := UnaryWidth(Reg(ref));
            var result := UnaryResult(op, Read(m.regs, ref), w);
            var e := Unary(m, op, [Reg(ref)]);
            && e.fault.None?
            && Read(e.m.regs, ref) == result % Modulus(ref)
            && (forall q: Reg16 :: q != ref.reg ==> e.m.regs[q] == m.regs[q])
            && e.m.mem == m.mem
            && (e.m.flags.zf <==> result % WidthModulus(w) == 0)
            && (e.m.flags.sf <==> result % WidthModulus(w) >= WidthModulus(w) / 2)
  {
    var w := UnaryWidth(Reg(ref));
    var result := UnaryResult(op, Read(m.regs, ref), w);
    WriteThenReadRegister(m, ref, result, w);
    ArithFlagsMeaning(WriteOperand(m, Reg(ref), result, w).m.flags, result, w);
  }

  // ---------------------------------------------------------------------
  // JMP and LOOP
  // ---------------------------------------------------------------------

  /** JMP L: IP becomes L's offset when L is known; otherwise ValueError and no change. */
  lemma JmpToLabel(m: Machine, labels: map<string, int>, name: string)
    requires Ready(m)
    ensures var e := Jmp(m, labels, [Name(name)]);
            && e.m.mem == m.mem && e.m.flags == m.flags
            && (forall q: Reg16 :: q != IP ==> e.m.regs[q] == m.regs[q])
            && (Text.Lower(name) in labels ==>
                  e.fault.None? && e.m.regs[IP] == labels[Text.Lower(name)] % WordModulus)
            && (Text.Lower(name) !in labels ==> e == Effect(m, Some(UnknownLabel)))
  {
  }

  /**
   * LOOP L with L known: CX goes down by one (from 0 to 0xFFFF), and IP
   * becomes L's offset unless CX was 1.
   */
  lemma LoopCounts(m: Machine, labels: map<string, int>, name: string)
    requires Ready(m) && Text.Lower(name) in labels
    ensures var e := Loop(m, labels, [Name(name)]);
            && e.fault.None?
            && e.m.regs[CX] == (m.regs[CX] - 1) % WordModulus
            && e.m.regs[IP] == (if m.regs[CX] == 1 then m.regs[IP] else labels[Text.Lower(name)] % WordModulus)
            && (forall q: Reg16 :: q != CX && q != IP ==> e.m.regs[q] == m.regs[q])
            && e.m.mem == m.mem && e.m.flags == m.flags
  {
    SmallModulo(m.regs[IP], WordModulus);
  }

  // ---------------------------------------------------------------------
  // run and step
  // ---------------------------------------------------------------------

  /**
   * run() is a sequence of step() calls from IP = 0: each of the `executed`
   * steps reports OK, and then run stops because 1000 instructions are done,
   * because step would report END, or in the state the next step leaves when
   * it raises (partial effects included), with that step's exception.
   */
  lemma RunIsSteps(m: Machine, program: Program, labels: map<string, int>)
    requires Ready(m)
    ensures var r := RunSpec(m, program, labels);
            var step := StepOf(program, labels);
            var start := SetIp(m, 0);
            && (forall i :: 0 <= i < r.executed ==> step(Steps(step, start, i)).1 == Executed)
            && (!r.reason.Faulted? ==> r.state == Steps(step, start, r.executed))
            && (r.reason.Halted? ==> Fetch(r.state, program).None?)
            && (r.reason.FuelExhausted? ==> r.executed == MaxInstructions)
            && (r.reason.Faulted? ==> step(Steps(step, start, r.executed)) == (r.state, Failed(r.reason.fault)))
  {
    RunFromIsSteps(StepOf(program, labels), SetIp(m, 0), 0, MaxInstructions);
    var r := RunSpec(m, program, labels);
    if r.reason.Halted? {
      assert StepOf(program, labels)(r.state) == StepSpec(r.state, program, labels);
    }
  }

  /**
   * step moves IP past the instruction before executing it, so an
   * instruction that raises leaves IP after itself (plus its partial effects);
   * an unknown opcode raises with nothing else changed.
   */
  lemma StepUnknownOpcode(m: Machine, program: Program, labels: map<string, int>)
    requires Ready(m) && Fetch(m, program).Some? && Fetch(m, program).value.op == Unknown
    ensures var ins := Fetch(m, program).value;
            var r := StepSpec(m, program, labels);
            && r.1 == Failed(UnknownInstruction)
            && r.0.regs[IP] == (m.regs[IP] + ins.size) % WordModulus
            && r.0.mem == m.mem && r.0.flags == m.flags
            && (forall q: Reg16 :: q != IP ==> r.0.regs[q] == m.regs[q])
  {
  }

  /**
   * step on a fetched instruction: IP is first set to (ip + size) mod 2^16,
   * with every other register, the flags and the memory kept, and the
   * instruction executes on that machine; its exception, if any, is the
   * step's status.
   */
  lemma StepExecutes(m: Machine, program: Program, labels: map<string, int>, ins: Instruction)
    requires Ready(m) && Fetch(m, program) == Some(ins)
    ensures var e := Execute(Advance(m, ins), labels, ins.op, ins.operands);
            StepSpec(m, program, labels) == (e.m, if e.fault.Some? then Failed(e.fault.value) else Executed)
  {
  }

  /** A step on CMP is Cmp on the advanced machine. */
  lemma StepCompare(m: Machine, program: Program, labels: map<string, int>, ins: Instruction)
    requires Ready(m) && Fetch(m, program) == Some(ins) && ins.op == CMP
    ensures var c := Cmp(Advance(m, ins), ins.operands);
            StepSpec(m, program, labels) == (c.m, if c.fault.Some? then Failed(c.fault.value) else Executed)
  {
    StepExecutes(m, program, labels, ins);
    assert Execute(Advance(m, ins), labels, ins.op, ins.operands) == Cmp(Advance(m, ins), ins.operands);
  }

  /** A step on OUT is Out on the advanced machine. */
  lemma StepOut(m: Machine, program: Program, labels: map<string, int>, ins: Instruction)
    requires Ready(m) && Fetch(m, program) == Some(ins) && ins.op == OUT
    ensures var o := Out(Advance(m, ins), ins.operands);
            StepSpec(m, program, labels) == (o.m, if o.fault.Some? then Failed(o.fault.value) else Executed)
  {
    StepExecutes(m, program, labels, ins);
    assert Execute(Advance(m, ins), labels, ins.op, ins.operands) == Out(Advance(m, ins), ins.operands);
  }

  /** A step on CALL is Call on the advanced machine. */
  lemma StepCall(m: Machine, program: Program, labels: map<string, int>, ins: Instruction)
    requires Ready(m) && Fetch(m, program) == Some(ins) && ins.op == CALL
    ensures var c := Call(Advance(m, ins), labels, ins.operands);
            StepSpec(m, program, labels) == (c.m, if c.fault.Some? then Failed(c.fault.value) else Executed)
  {
    StepExecutes(m, program, labels, ins);
    assert Execute(Advance(m, ins), labels, ins.op, ins.operands) == Call(Advance(m, ins), labels, ins.operands);
  }

  /**
   * CMP does not touch IP, so after a step on it IP is (ip + size) mod 2^16,
   * whether or not it raised, and only the flags may have changed.
   */
  lemma StepCompareAdvances(m: Machine, program: Program, labels: map<string, int>, ins: Instruction)
    requires Ready(m) && Fetch(m, program) == Some(ins) && ins.op == CMP
    ensures var r := StepSpec(m, program, labels);
            && r.0.regs == m.regs[IP := (m.regs[IP] + ins.size) % WordModulus]
            && r.0.mem == m.mem
  {
    StepCompare(m, program, labels, ins);
    var a := Advance(m, ins);
    var e := Cmp(a, ins.operands);
    assert StepSpec(m, program, labels).0 == e.m;
    assert e.m.regs == a.regs && e.m.mem == a.mem;
  }

  /**
   * OUT only reads its source: after a step on it IP is (ip + size) mod 2^16,
   * whether or not the read raised, and nothing else has changed.
   */
  lemma StepOutAdvances(m: Machine, program: Program, labels: map<string, int>, ins: Instruction)
    requires Ready(m) && Fetch(m, program) == Some(ins) && ins.op == OUT
    ensures var r := StepSpec(m, program, labels);
            && r.0.regs == m.regs[IP := (m.regs[IP] + ins.size) % WordModulus]
            && r.0.mem == m.mem && r.0.flags == m.flags
  {
    StepOut(m, program, labels, ins);
    var a := Advance(m, ins);
    var e := Out(a, ins.operands);
    assert StepSpec(m, program, labels).0 == e.m;
    assert e.m.regs == a.regs && e.m.mem == a.mem;
  }

  /**
   * CALL on the advanced machine: the return address it pushes is the
   * address of the next instruction, (ip + size) mod 2^16.
   */
  lemma CallAfterAdvance(m: Machine, ins: Instruction, labels: map<string, int>, name: string)
    requires Ready(m) && Text.Lower(name) in labels
    requires DataAddress(m, m.regs[SP] - 2) + 1 < |m.mem|
    ensures var c := Call(Advance(m, ins), labels, [Name(name)]);
            && c.fault.None?
            && c.m.regs[IP] == labels[Text.Lower(name)] % WordModulus
            && c.m.regs[SP] == (m.regs[SP] - 2) % WordModulus
            && ReadMem(c.m, c.m.regs[SP], W16) == Ok((m.regs[IP] + ins.size) % WordModulus)
  {
    var a := Advance(m, ins);
    assert a.regs[SP] == m.regs[SP] && a.regs[DS] == m.regs[DS];
    assert DataAddress(a, a.regs[SP] - 2) == DataAddress(m, m.regs[SP] - 2);
    CallKnownLabel(a, labels, name);
  }

  /**
   * A step on `CALL name` with a known label pushes the address of the next
   * instruction, (ip + size) mod 2^16, at the new DS:SP and jumps to the label.
   */
  lemma StepCallPushesReturn(m: Machine, program: Program, labels: map<string, int>, ins: Instruction, name: string)
    requires Ready(m) && Fetch(m, program) == Some(ins) && ins.op == CALL && ins.operands == [Name(name)]
    requires Text.Lower(name) in labels
    requires DataAddress(m, m.regs[SP] - 2) + 1 < |m.mem|
    ensures var r := StepSpec(m, program, labels);
            && r.1 == Executed
            && r.0.regs[IP] == labels[Text.Lower(name)] % WordModulus
            && r.0.regs[SP] == (m.regs[SP] - 2) % WordModulus
            && ReadMem(r.0, r.0.regs[SP], W16) == Ok((m.regs[IP] + ins.size) % WordModulus)
  {
    StepCall(m, program, labels, ins);
    CallAfterAdvance(m, ins, labels, name);
  }
}
