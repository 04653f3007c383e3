/**
 * load_program_from_text of backend/Simulador.py as functions: the text is
 * cut into lines, each line into its code (comment and surrounding white
 * space removed), and two passes over the same lines build the label table
 * and the program map.
 *
 * Operand texts are classified here, once, into the `Operand` datatype the
 * executor works on; Python's `int(s, 0)` is the parameter `parseInt`.
 */
module X86Loader {
  import opened Wrappers
  import opened Text
  import opened X86Cpu
  import opened X86Machine
  import opened X86Execute

  // ---------------------------------------------------------------------
  // Lines and their code
  // ---------------------------------------------------------------------

  /**
   * `text.strip().split('\n')`: at least one line, none holding a newline,
   * and joined back with newlines they give the stripped text.
   */
  function Lines(text: string): (ls: seq<string>)
    ensures |ls| >= 1 && forall i :: 0 <= i < |ls| ==> '\n' !in ls[i]
    ensures Join(ls, '\n') == Trim(text, IsPythonSpace)
  {
    SplitJoin(Trim(text, IsPythonSpace), '\n');
    Split(Trim(text, IsPythonSpace), '\n')
  }

  /** `line.strip().split(';')[0].strip()`: the line without its comment. */
  function Code(line: string): (c: string)
    ensures c == [] || (!IsPythonSpace(c[0]) && !IsPythonSpace(c[|c| - 1]))
  {
    Trim(Before(Trim(line, IsPythonSpace), ';'), IsPythonSpace)
  }

  /** A label definition is a code that ends with ':'. */
  predicate IsLabel(code: string) {
    |code| > 0 && code[|code| - 1] == ':'
  }

  /** The key a label definition stores: the text before ':' in lower case. */
  function LabelName(code: string): string
    requires IsLabel(code)
  {
    Lower(code[..|code| - 1])
  }

  /**
   * `[x.strip() for x in parts[1].split(',')]`, or no operands when the line
   * is one word: one text per comma in what follows the mnemonic, plus one,
   * each the stripped piece between two commas.
   */
  function OperandTexts(code: string): (texts: seq<string>)
    ensures forall i :: 0 <= i < |texts| ==> Stripped(texts[i])
    ensures |texts| == 0 <==> |SplitFirstWord(code, IsPythonSpace)| < 2
    ensures var parts := SplitFirstWord(code, IsPythonSpace);
            |parts| == 2 ==>
              && |texts| == |Split(parts[1], ',')| == Count(parts[1], ',') + 1
              && forall i :: 0 <= i < |texts| ==> texts[i] == Trim(Split(parts[1], ',')[i], IsPythonSpace)
  {
    var parts := SplitFirstWord(code, IsPythonSpace);
    if |parts| > 1 then
      var pieces := Split(parts[1], ',');
      PiecesStripped(pieces);
      SplitCount(parts[1], ',');
      seq(|pieces|, i requires 0 <= i < |pieces| => Trim(pieces[i], IsPythonSpace))
    else []
  }

  /** No white space at either end, as `str.strip()` leaves it. */
  predicate Stripped(t: string) {
    t == [] || (!IsPythonSpace(t[0]) && !IsPythonSpace(t[|t| - 1]))
  }

  lemma PiecesStripped(pieces: seq<string>)
    ensures forall i :: 0 <= i < |pieces| ==> Stripped(Trim(pieces[i], IsPythonSpace))
  {
    forall i | 0 <= i < |pieces|
      ensures Stripped(Trim(pieces[i], IsPythonSpace))
    {
      var t := Trim(pieces[i], IsPythonSpace);
      assert t == [] || (!IsPythonSpace(t[0]) && !IsPythonSpace(t[|t| - 1]));
    }
  }

  /**
   * _get_instruction_size: two bytes of opcode and two per operand, so the
   * size is even, at least 2, and gives back the operand count.
   */
  function InstructionSize(operands: seq<string>): (size: int)
    ensures size >= 2 && size % 2 == 0 && (size - 2) / 2 == |operands|
  {
    2 + |operands| * 2
  }

  // ---------------------------------------------------------------------
  // Operands
  // ---------------------------------------------------------------------

  predicate IsBracketed(t: string) {
    |t| >= 2 && t[0] == '[' && t[|t| - 1] == ']'
  }

  /** `operand[1:-1]`: the text between the brackets. */
  function Inner(t: string): string
    requires IsBracketed(t)
  {
    t[1..|t| - 1]
  }

  /**
   * What _get_operand_value and _set_operand_value make of an operand text
   * (lower-cased first): `[n]` and `[reg]` are memory, any other bracketed
   * text fails as a register name; otherwise a register name, a number, or a
   * bare word (a label, or an invalid operand). The number is tried first
   * inside brackets and last outside them.
   */
  function Classify(text: string, parseInt: string -> Option<int>): (o: Operand)
    ensures Classified(o)
    ensures IsBracketed(Lower(text)) <==> o.MemAt? || o.MemVia? || o.MemInvalid?
    ensures o.MemAt? <==> IsBracketed(Lower(text)) && parseInt(Inner(Lower(text))).Some?
    ensures o.MemAt? ==> IsBracketed(Lower(text)) && parseInt(Inner(Lower(text))) == Some(o.address)
    ensures o.MemVia? <==> IsBracketed(Lower(text)) && parseInt(Inner(Lower(text))).None? && Resolve(Inner(Lower(text))).Some?
    ensures o.MemVia? ==> IsBracketed(Lower(text)) && Resolve(Inner(Lower(text))) == Some(o.base)
    ensures o.Reg? <==> !IsBracketed(Lower(text)) && Resolve(text).Some?
    ensures o.Reg? ==> Resolve(text) == Some(o.ref)
    ensures o.Imm? <==> !IsBracketed(Lower(text)) && Resolve(text).None? && parseInt(Lower(text)).Some?
    ensures o.Imm? ==> parseInt(Lower(text)) == Some(o.value)
    ensures o.Name? <==> !IsBracketed(Lower(text)) && Resolve(text).None? && parseInt(Lower(text)).None?
    ensures o.Name? ==> o.text == text
  {
    var t := Lower(text);
    if IsBracketed(t) then
      var inner := Inner(t);
      match parseInt(inner)
      case Some(n) => MemAt(n)
      case None =>
        match Resolve(inner)
        case Some(ref) => MemVia(ref)
        case None => MemInvalid
    else
      match Resolve(text)
      case Some(ref) => Reg(ref)
      case None =>
        match parseInt(t)
        case Some(n) => Imm(n)
        case None => Name(text)
  }

  /**
   * The (opcode, operands, size) entry pass 2 stores for an instruction code:
   * the opcode is the first word upper-cased and decoded.
   */
  function InstructionOf(code: string, parseInt: string -> Option<int>): (ins: Instruction)
    requires code != [] && !IsPythonSpace(code[0])
    ensures ins.op == DecodeMnemonic(Upper(Text.Word(code, IsPythonSpace)))
    ensures ins.size == InstructionSize(OperandTexts(code))
    ensures |ins.operands| == |OperandTexts(code)|
    ensures forall i :: 0 <= i < |ins.operands| ==> ins.operands[i] == Classify(OperandTexts(code)[i], parseInt)
  {
    var parts := SplitFirstWord(code, IsPythonSpace);
    FirstWordOf(code, IsPythonSpace);
    var texts := OperandTexts(code);
    Instruction(DecodeMnemonic(Upper(parts[0])), ClassifyAll(texts, parseInt), InstructionSize(texts))
  }

  function ClassifyAll(texts: seq<string>, parseInt: string -> Option<int>): (os: seq<Operand>)
    ensures |os| == |texts| && forall i :: 0 <= i < |texts| ==> os[i] == Classify(texts[i], parseInt)
  {
    seq(|texts|, i requires 0 <= i < |texts| => Classify(texts[i], parseInt))
  }

  // ---------------------------------------------------------------------
  // What a line is
  // ---------------------------------------------------------------------

  /**
   * Both passes look at a line the same way: nothing (empty code), a label
   * definition, or an instruction. Pass 1 only needs the instruction's size,
   * which is the size pass 2 stores.
   */
  datatype Line = Blank | LabelDef(name: string) | Instr(ins: Instruction)

  function ParseLine(line: string, parseInt: string -> Option<int>): (l: Line)
    ensures l.Blank? <==> Code(line) == []
    ensures l.LabelDef? <==> IsLabel(Code(line))
    ensures l.LabelDef? ==> l.name == LabelName(Code(line))
    ensures l.Instr? ==> l.ins == InstructionOf(Code(line), parseInt)
  {
    var c := Code(line);
    if c == [] then Blank
    else if IsLabel(c) then LabelDef(LabelName(c))
    else Instr(InstructionOf(c, parseInt))
  }

  function ParseLines(lines: seq<string>, parseInt: string -> Option<int>): (ls: seq<Line>)
    ensures |ls| == |lines|
    ensures forall i :: 0 <= i < |lines| ==> ls[i] == ParseLine(lines[i], parseInt)
  {
    seq(|lines|, i requires 0 <= i < |lines| => ParseLine(lines[i], parseInt))
  }

  /** The bytes a line occupies in the program: an instruction's size, else 0. */
  function Size(l: Line): int {
    if l.Instr? then l.ins.size else 0
  }

  /** The offset after the given lines: the sizes of their instructions added up. */
  function TotalSize(ls: seq<Line>): int {
    if |ls| == 0 then 0 else TotalSize(ls[..|ls| - 1]) + Size(ls[|ls| - 1])
  }

  // ---------------------------------------------------------------------
  // Pass 1: labels
  // ---------------------------------------------------------------------

  datatype LabelState = LabelState(labels: map<string, int>, offset: int)

  /** One iteration of the first loop. */
  function LabelStep(st: LabelState, l: Line): LabelState {
    match l
    case Blank => st
    case LabelDef(name) => st.(labels := st.labels[name := st.offset])
    case Instr(ins) => st.(offset := st.offset + ins.size)
  }

  /** The first loop over a prefix of the lines. */
  function LabelPass(ls: seq<Line>): (st: LabelState)
    ensures st.offset == TotalSize(ls)
  {
    if |ls| == 0 then LabelState(map[], 0)
    else LabelStep(LabelPass(ls[..|ls| - 1]), ls[|ls| - 1])
  }

  // ---------------------------------------------------------------------
  // Pass 2: the program map
  // ---------------------------------------------------------------------

  datatype ProgramState = ProgramState(program: Program, offset: int)

  /** Where pass 2 stores the instruction at a code offset: phys(CS, offset). */
  function CodeAddress(regs: RegFile, size: nat, offset: int): nat
    requires WellFormed(regs) && size > 0
  {
    PhysicalAddress(regs, CS, offset, size)
  }

  /** One iteration of the second loop. */
  function ProgramStep(st: ProgramState, l: Line, regs: RegFile, size: nat): ProgramState
    requires WellFormed(regs) && size > 0
  {
    match l
    case Instr(ins) => ProgramState(st.program[CodeAddress(regs, size, st.offset) := ins], st.offset + ins.size)
    case _ => st
  }

  /** The second loop over a prefix of the lines. */
  function ProgramPass(ls: seq<Line>, regs: RegFile, size: nat): (st: ProgramState)
    requires WellFormed(regs) && size > 0
    ensures st.offset == TotalSize(ls)
  {
    if |ls| == 0 then ProgramState(map[], 0)
    else ProgramStep(ProgramPass(ls[..|ls| - 1], regs, size), ls[|ls| - 1], regs, size)
  }

  // ---------------------------------------------------------------------
  // The registers
  // ---------------------------------------------------------------------

  /** A segment that set_reg takes and that lands in register `q`: its value converted and its name one of `q`'s. */
  predicate Sets(segment: (string, Option<int>), q: Reg16) {
    segment.1.Some? && Resolve(segment.0).Some? && Resolve(segment.0).value.reg == q
  }

  /**
   * The `initial_segments` loop: each (name, int(value)) pair is given to
   * set_reg; a value whose conversion failed (None) or an unknown name is
   * skipped, as the `except Exception: pass` does. A register no segment
   * sets keeps its value, and the last segment, when taken, leaves its value
   * (at the register's width) in its register and touches no other.
   */
  function ApplySegments(regs: RegFile, segments: seq<(string, Option<int>)>): (r: RegFile)
    requires WellFormed(regs)
    ensures WellFormed(r)
    ensures forall q: Reg16 :: (forall i :: 0 <= i < |segments| ==> !Sets(segments[i], q)) ==> r[q] == regs[q]
    ensures |segments| > 0 ==>
              var (name, value) := segments[|segments| - 1];
              var before := ApplySegments(regs, segments[..|segments| - 1]);
              if value.Some? && Resolve(name).Some? then
                && r == Write(before, Resolve(name).value, value.value)
                && Read(r, Resolve(name).value) == value.value % Modulus(Resolve(name).value)
                && forall q: Reg16 :: q != Resolve(name).value.reg ==> r[q] == before[q]
              else r == before
  {
    if |segments| == 0 then regs
    else
      var prefix := segments[..|segments| - 1];
      var before := ApplySegments(regs, prefix);
      var (name, value) := segments[|segments| - 1];
      assert forall q: Reg16, i :: 0 <= i < |prefix| && Sets(prefix[i], q) ==> Sets(segments[i], q);
      if value.None? then before
      else match SetByName(before, name, value.value)
           case Ok(next) => next
           case Err(_) => before
  }

  /**
   * The registers after loading: IP and CS cleared, the segments applied, IP
   * cleared again. So IP is 0, CS is 0 unless a segment sets it, and every
   * other register no segment sets keeps its value.
   */
  function LoadedRegisters(regs: RegFile, segments: seq<(string, Option<int>)>): (r: RegFile)
    requires WellFormed(regs)
    ensures WellFormed(r) && r[IP] == 0
    ensures r == ApplySegments(regs[IP := 0][CS := 0], segments)[IP := 0]
    ensures (forall i :: 0 <= i < |segments| ==> !Sets(segments[i], CS)) ==> r[CS] == 0
    ensures forall q: Reg16 :: q != IP && q != CS && (forall i :: 0 <= i < |segments| ==> !Sets(segments[i], q)) ==> r[q] == regs[q]
  {
    var cleared := Write(Write(regs, Word(IP), 0), Word(CS), 0);
    assert cleared == regs[IP := 0][CS := 0];
    Write(ApplySegments(cleared, segments), Word(IP), 0)
  }

  // ---------------------------------------------------------------------
  // Facts about loading
  // ---------------------------------------------------------------------

  /** Everything from the first ';' on is a comment: it does not change the code of a line. */
  lemma CommentIgnored(a: string, comment: string)
    requires ';' !in a
    ensures Code(a + [';'] + comment) == Code(a)
  {
    TrimmedFieldCut(a, ';', comment, IsPythonSpace);
  }

  /** A line whose code is empty (blank, or only a comment) changes neither pass. */
  lemma BlankIgnored(a: seq<Line>, b: seq<Line>, regs: RegFile, size: nat)
    requires WellFormed(regs) && size > 0
    ensures LabelPass(a + [Blank] + b) == LabelPass(a + b)
    ensures ProgramPass(a + [Blank] + b, regs, size) == ProgramPass(a + b, regs, size)
  {
    LabelPassSkipsBlank(a, b);
    ProgramPassSkipsBlank(a, b, regs, size);
  }

  lemma {:induction false} LabelPassSkipsBlank(a: seq<Line>, b: seq<Line>)
    ensures LabelPass(a + [Blank] + b) == LabelPass(a + b)
    decreases |b|
  {
    var with, without := a + [Blank] + b, a + b;
    if |b| == 0 {
      assert with[..|with| - 1] == a == without;
    } else {
      LabelPassSkipsBlank(a, b[..|b| - 1]);
      assert with[..|with| - 1] == a + [Blank] + b[..|b| - 1];
      assert without[..|without| - 1] == a + b[..|b| - 1];
      assert with[|with| - 1] == without[|without| - 1];
    }
  }

  lemma {:induction false} ProgramPassSkipsBlank(a: seq<Line>, b: seq<Line>, regs: RegFile, size: nat)
    requires WellFormed(regs) && size > 0
    ensures ProgramPass(a + [Blank] + b, regs, size) == ProgramPass(a + b, regs, size)
    decreases |b|
  {
    var with, without := a + [Blank] + b, a + b;
    if |b| == 0 {
      assert with[..|with| - 1] == a == without;
    } else {
      ProgramPassSkipsBlank(a, b[..|b| - 1], regs, size);
      assert with[..|with| - 1] == a + [Blank] + b[..|b| - 1];
      assert without[..|without| - 1] == a + b[..|b| - 1];
      assert with[|with| - 1] == without[|without| - 1];
    }
  }

  /** The labels pass 1 defines are exactly the names of the label lines. */
  lemma {:induction false} LabelsDefined(ls: seq<Line>, name: string)
    ensures name in LabelPass(ls).labels <==> LabelDef(name) in ls
  {
    if |ls| > 0 {
      var n := |ls| - 1;
      LabelsDefined(ls[..n], name);
      assert ls == ls[..n] + [ls[n]];
    }
  }

  /**
   * A label's offset is the total size of the instructions before its line
   * (the last definition of a name wins, as in the dictionary assignment).
   */
  lemma {:induction false} LabelOffset(ls: seq<Line>, i: nat)
    requires i < |ls| && ls[i].LabelDef?
    requires LabelDef(ls[i].name) !in ls[i + 1..]
    ensures ls[i].name in LabelPass(ls).labels && LabelPass(ls).labels[ls[i].name] == TotalSize(ls[..i])
    decreases |ls|
  {
    var n := |ls| - 1;
    if i < n {
      var prefix := ls[..n];
      assert prefix[i] == ls[i] && prefix[..i] == ls[..i];
      assert prefix[i + 1..] == ls[i + 1..n];
      assert ls[n] in ls[i + 1..];
      LabelOffset(prefix, i);
    } else {
      assert ls[..n] == ls[..i];
    }
  }

  /** The addresses of the program map are exactly phys(CS, offset) of the instruction lines. */
  lemma {:induction false} ProgramKeys(ls: seq<Line>, regs: RegFile, size: nat, a: int)
    requires WellFormed(regs) && size > 0
    ensures a in ProgramPass(ls, regs, size).program <==>
            exists i :: 0 <= i < |ls| && ls[i].Instr? && a == CodeAddress(regs, size, TotalSize(ls[..i]))
  {
    if |ls| > 0 {
      var n := |ls| - 1;
      var prefix := ls[..n];
      var before := ProgramPass(prefix, regs, size);
      assert ProgramPass(ls, regs, size) == ProgramStep(before, ls[n], regs, size);
      assert ls[..n] == prefix;
      ProgramKeys(prefix, regs, size, a);
      if exists i :: 0 <= i < n && prefix[i].Instr? && a == CodeAddress(regs, size, TotalSize(prefix[..i])) {
        var i :| 0 <= i < n && prefix[i].Instr? && a == CodeAddress(regs, size, TotalSize(prefix[..i]));
        assert ls[i] == prefix[i] && ls[..i] == prefix[..i];
      }
      if exists i :: 0 <= i < |ls| && ls[i].Instr? && a == CodeAddress(regs, size, TotalSize(ls[..i])) {
        var i :| 0 <= i < |ls| && ls[i].Instr? && a == CodeAddress(regs, size, TotalSize(ls[..i]));
        if i < n {
          assert prefix[i] == ls[i] && prefix[..i] == ls[..i];
        }
      }
    }
  }

  /**
   * Each instruction line is stored at phys(CS, its offset), unless a later
   * instruction line lands on the same address and replaces it.
   */
  lemma {:induction false} InstructionPlaced(ls: seq<Line>, regs: RegFile, size: nat, i: nat)
    requires WellFormed(regs) && size > 0
    requires i < |ls| && ls[i].Instr?
    requires forall j :: i < j < |ls| && ls[j].Instr? ==>
               CodeAddress(regs, size, TotalSize(ls[..j])) != CodeAddress(regs, size, TotalSize(ls[..i]))
    ensures var a := CodeAddress(regs, size, TotalSize(ls[..i]));
            var program := ProgramPass(ls, regs, size).program;
            a in program && program[a] == ls[i].ins
    decreases |ls|
  {
    var n := |ls| - 1;
    if i < n {
      var prefix := ls[..n];
      assert prefix[i] == ls[i] && prefix[..i] == ls[..i];
      forall j | i < j < |prefix| && prefix[j].Instr?
        ensures CodeAddress(regs, size, TotalSize(prefix[..j])) != CodeAddress(regs, size, TotalSize(prefix[..i]))
      {
        assert prefix[j] == ls[j] && prefix[..j] == ls[..j];
      }
      InstructionPlaced(prefix, regs, size, i);
    } else {
      assert ls[..n] == ls[..i];
    }
  }

  /**
   * A label stands at the offset of the first instruction after it: the
   * lines in between add no size.
   */
  lemma {:induction false} LabelTargetsNextInstruction(ls: seq<Line>, i: nat, j: nat)
    requires i < j <= |ls| && ls[i].LabelDef?
    requires forall k :: i < k < j ==> !ls[k].Instr?
    ensures TotalSize(ls[..j]) == TotalSize(ls[..i])
    decreases j
  {
    if j > i + 1 {
      LabelTargetsNextInstruction(ls, i, j - 1);
      assert ls[..j][..j - 1] == ls[..j - 1];
    } else {
      assert ls[..j][..i] == ls[..i];
    }
  }
}
