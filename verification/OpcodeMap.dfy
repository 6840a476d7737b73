/**
 What the opcode table of the executor dispatches, checked against two things that are not that table: the
 names and formats the disassembler has for the opcodes, and the bits of the opcodes themselves.
 */
module OpcodeMap {
  import opened Words
  import opened Opcodes
  import opened Machine
  import opened Executor
  import opened Disassembler
  import opened Inverses
  import opened BlockMove
  import opened Addresses
  import opened Targets
  import I = Instructions
  import M = Mnemonics

  // Names of the operations --------------------------------------------------------------------------

  function ReadName(op: ReadOp): M.Name {
    match op
    case ADC => M.ADC
    case AND => M.AND
    case BIT => M.BIT
    case CMP => M.CMP
    case CPX => M.CPX
    case CPY => M.CPY
    case EOR => M.EOR
    case LDA => M.LDA
    case LDX => M.LDX
    case LDY => M.LDY
    case ORA => M.ORA
    case SBC => M.SBC
  }

  function WriteName(op: WriteOp): M.Name {
    match op
    case STA => M.STA
    case STX => M.STX
    case STY => M.STY
    case STZ => M.STZ
  }

  function ModifyName(op: ModifyOp): M.Name {
    match op
    case ASL => M.ASL
    case DEC => M.DEC
    case INC => M.INC
    case LSR => M.LSR
    case ROL => M.ROL
    case ROR => M.ROR
    case TRB => M.TRB
    case TSB => M.TSB
  }

  function BranchName(op: Cond): M.Name {
    match op
    case BCC => M.BCC
    case BCS => M.BCS
    case BEQ => M.BEQ
    case BMI => M.BMI
    case BNE => M.BNE
    case BPL => M.BPL
    case BRA => M.BRA
    case BVC => M.BVC
    case BVS => M.BVS
  }

  function PushName(op: PushOp): M.Name {
    match op
    case PHA => M.PHA
    case PHB => M.PHB
    case PHD => M.PHD
    case PHK => M.PHK
    case PHP => M.PHP
    case PHX => M.PHX
    case PHY => M.PHY
    case PEA => M.PEA
    case PEI => M.PEI
    case PER => M.PER
  }

  function PullName(op: PullOp): M.Name {
    match op
    case PLA => M.PLA
    case PLB => M.PLB
    case PLD => M.PLD
    case PLP => M.PLP
    case PLX => M.PLX
    case PLY => M.PLY
  }

  /** INA and DEA are printed as INC and DEC without an operand. */
  function RegisterName(op: RegOp): M.Name {
    match op
    case CLC => M.CLC
    case CLD => M.CLD
    case CLI => M.CLI
    case CLV => M.CLV
    case SEC => M.SEC
    case SED => M.SED
    case SEI => M.SEI
    case DEA => M.DEC
    case DEX => M.DEX
    case DEY => M.DEY
    case INA => M.INC
    case INX => M.INX
    case INY => M.INY
    case TAX => M.TAX
    case TAY => M.TAY
    case TCD => M.TCD
    case TCS => M.TCS
    case TDC => M.TDC
    case TSC => M.TSC
    case TSX => M.TSX
    case TXA => M.TXA
    case TXS => M.TXS
    case TXY => M.TXY
    case TYA => M.TYA
    case TYX => M.TYX
    case NOP => M.NOP
    case WDM => M.WDM
    case XBA => M.XBA
    case XCE => M.XCE
    case WAI => M.WAI
    case STP => M.STP
  }

  /** What an instruction of the executor is called. */
  function NameOf(ins: Ins): M.Name {
    match ins
    case Read(op, _, _, _) => ReadName(op)
    case Write(op, _, _) => WriteName(op)
    case Modify(op, _, _) => ModifyName(op)
    case ModifyA(op) => ModifyName(op)
    case Register(op) => RegisterName(op)
    case Push(op) => PushName(op)
    case Pull(op) => PullName(op)
    case Branch(c) => BranchName(c)
    case Jump(_) => M.JMP
    case Call(_) => M.JSR
    case BranchLong => M.BRL
    case CallLong => M.JSR
    case Return => M.RTS
    case ReturnLong => M.RTL
    case ReturnFromInterrupt => M.RTI
    case Break => M.BRK
    case Coprocessor => M.COP
    case ResetBits => M.REP
    case SetBits => M.SEP
    case Move(dir) => if dir == 1 then M.MVN else M.MVP
  }

  /** The mode of its operand, in which the operand of PER is a word and that of BRK and COP a byte. */
  function ModeOf(ins: Ins): Mode {
    match ins
    case Read(_, _, from, _) => from
    case Write(_, mode, _) => mode
    case Modify(_, mode, _) => mode
    case Register(op) => if op.WDM? then IMMD else IMPD
    case Push(op) => if op.PEA? || op.PER? then ABS else if op.PEI? then DPIND else IMPD
    case Branch(_) => PCR
    case Jump(mode) => mode
    case Call(mode) => mode
    case BranchLong => PCRL
    case CallLong => ABSL
    case Break | Coprocessor => DP
    case ResetBits | SetBits => IMMD
    case Move(_) => BMV
    case _ => IMPD
  }

  /** Its operands are as long as their mode. */
  predicate Sized(ins: Ins) {
    match ins
    case Read(_, _, from, size) => size == FormatSize(from)
    case Write(_, mode, size) => size == FormatSize(mode)
    case Modify(_, mode, size) => size == FormatSize(mode)
    case _ => true
  }

  /** Where the disassembler names another mode than the executor uses. */
  predicate Misprinted(op: int) { op == 0x34 || op == 0x35 || op == 0x36 || op == 0x6c }

  /** The mode the executor uses, from the one the disassembler names. */
  function ActualMode(op: int, mode: Mode): Mode {
    if op == 0x6c then INDABS else if Misprinted(op) then DPX else mode
  }

  /** The operation is told the mode its address is computed with, but for opcode 0x75. */
  predicate ToldMode(op: int, ins: Ins) { ins.Read? ==> ins.mode == if op == 0x75 then DPINDX else ins.from }

  predicate Named(ins: Ins, e: Entry) { NameOf(ins) == e.name }

  predicate Formed(op: int, ins: Ins, e: Entry) {
    ModeOf(ins) == ActualMode(op, e.mode) && Sized(ins) && ToldMode(op, ins)
  }

  // What the bits of an opcode say ------------------------------------------------------------------

  /** Bits 5 to 7 name an operation of the accumulator. */
  function OperationBits(op: int, a: int, mode: Mode): Ins {
    var size := FormatSize(mode);
    match a
    case 0 => Read(ORA, mode, mode, size)
    case 1 => Read(AND, mode, mode, size)
    case 2 => Read(EOR, mode, mode, size)
    case 3 => Read(ADC, if op == 0x75 then DPINDX else mode, mode, size)
    case 4 => Write(STA, mode, size)
    case 5 => Read(LDA, mode, mode, size)
    case 6 => Read(CMP, mode, mode, size)
    case _ => Read(SBC, mode, mode, size)
  }

  /** Bits 2 to 4 name the mode, for opcodes that end in 01. */
  function ModeBits01(b: int): Mode {
    match b
    case 0 => DPINDX
    case 1 => DP
    case 2 => IMMD
    case 3 => ABS
    case 4 => INDDPY
    case 5 => DPX
    case 6 => ABSY
    case _ => ABSX
  }

  /** And for opcodes that end in 11, except where b is 2 or 6. */
  function ModeBits11(b: int): Mode {
    match b
    case 0 => SR
    case 1 => DPINDL
    case 3 => ABSL
    case 4 => SRINDY
    case 5 => INDDPLY
    case _ => ABSLX
  }

  /** The bit of SR a branch looks at, from bits 6 and 7 of its opcode. */
  function BranchFlag(op: int): nat { if op < 0x40 then 7 else if op < 0x80 then 6 else if op < 0xc0 then 0 else 1 }

  predicate BitsSay(op: int, ins: Ins) {
    var a, b := op / 32, op / 4 % 8;
    && (op % 4 == 1 && op != 0x89 ==> ins == OperationBits(op, a, ModeBits01(b)))
    && (op == 0x89 ==> ins == Read(BIT, IMMD, IMMD, 2))
    && (op % 4 == 3 && b != 2 && b != 6 ==> ins == OperationBits(op, a, ModeBits11(b)))
  }

  lemma Row0NamedLow(low: int)
    requires 0 <= low < 8
    ensures Named(Row0(low), Table0(low))
  {
  }

  lemma Row0NamedHigh(low: int)
    requires 8 <= low < 16
    ensures Named(Row0(low), Table0(low))
  {
  }

  lemma Row0Formed(low: int)
    requires 0 <= low < 16
    ensures Formed(0x00 + low, Row0(low), Table0(low))
  {
  }

  lemma Row1NamedLow(low: int)
    requires 0 <= low < 8
    ensures Named(Row1(low), Table1(low))
  {
  }

  lemma Row1NamedHigh(low: int)
    requires 8 <= low < 16
    ensures Named(Row1(low), Table1(low))
  {
  }

  lemma Row1Formed(low: int)
    requires 0 <= low < 16
    ensures Formed(0x10 + low, Row1(low), Table1(low))
  {
  }

  lemma Row2NamedLow(low: int)
    requires 0 <= low < 8
    ensures Named(Row2(low), Table2(low))
  {
  }

  lemma Row2NamedHigh(low: int)
    requires 8 <= low < 16
    ensures Named(Row2(low), Table2(low))
  {
  }

  lemma Row2Formed(low: int)
    requires 0 <= low < 16
    ensures Formed(0x20 + low, Row2(low), Table2(low))
  {
  }

  lemma Row3NamedLow(low: int)
    requires 0 <= low < 8
    ensures Named(Row3(low), Table3(low))
  {
  }

  lemma Row3NamedHigh(low: int)
    requires 8 <= low < 16
    ensures Named(Row3(low), Table3(low))
  {
  }

  lemma Row3Formed(low: int)
    requires 0 <= low < 16
    ensures Formed(0x30 + low, Row3(low), Table3(low))
  {
  }

  lemma Row4NamedLow(low: int)
    requires 0 <= low < 8
    ensures Named(Row4(low), Table4(low))
  {
  }

  lemma Row4NamedHigh(low: int)
    requires 8 <= low < 16
    ensures Named(Row4(low), Table4(low))
  {
  }

  lemma Row4Formed(low: int)
    requires 0 <= low < 16
    ensures Formed(0x40 + low, Row4(low), Table4(low))
  {
  }

  lemma Row5NamedLow(low: int)
    requires 0 <= low < 8
    ensures Named(Row5(low), Table5(low))
  {
  }

  lemma Row5NamedHigh(low: int)
    requires 8 <= low < 16
    ensures Named(Row5(low), Table5(low))
  {
  }

  lemma Row5Formed(low: int)
    requires 0 <= low < 16
    ensures Formed(0x50 + low, Row5(low), Table5(low))
  {
  }

  lemma Row6NamedLow(low: int)
    requires 0 <= low < 8
    ensures Named(Row6(low), Table6(low))
  {
  }

  lemma Row6NamedHigh(low: int)
    requires 8 <= low < 16
    ensures Named(Row6(low), Table6(low))
  {
  }

  lemma Row6Formed(low: int)
    requires 0 <= low < 16
    ensures Formed(0x60 + low, Row6(low), Table6(low))
  {
  }

  lemma Row7NamedLow(low: int)
    requires 0 <= low < 8
    ensures Named(Row7(low), Table7(low))
  {
  }

  lemma Row7NamedHigh(low: int)
    requires 8 <= low < 16
    ensures Named(Row7(low), Table7(low))
  {
  }

  lemma Row7Formed(low: int)
    requires 0 <= low < 16
    ensures Formed(0x70 + low, Row7(low), Table7(low))
  {
  }

  lemma Row8NamedLow(low: int)
    requires 0 <= low < 8
    ensures Named(Row8(low), Table8(low))
  {
  }

  lemma Row8NamedHigh(low: int)
    requires 8 <= low < 16
    ensures Named(Row8(low), Table8(low))
  {
  }

  lemma Row8Formed(low: int)
    requires 0 <= low < 16
    ensures Formed(0x80 + low, Row8(low), Table8(low))
  {
  }

  lemma Row9NamedLow(low: int)
    requires 0 <= low < 8
    ensures Named(Row9(low), Table9(low))
  {
  }

  lemma Row9NamedHigh(low: int)
    requires 8 <= low < 16
    ensures Named(Row9(low), Table9(low))
  {
  }

  lemma Row9Formed(low: int)
    requires 0 <= low < 16
    ensures Formed(0x90 + low, Row9(low), Table9(low))
  {
  }

  lemma RowANamedLow(low: int)
    requires 0 <= low < 8
    ensures Named(RowA(low), TableA(low))
  {
  }

  lemma RowANamedHigh(low: int)
    requires 8 <= low < 16
    ensures Named(RowA(low), TableA(low))
  {
  }

  lemma RowAFormed(low: int)
    requires 0 <= low < 16
    ensures Formed(0xa0 + low, RowA(low), TableA(low))
  {
  }

  lemma RowBNamedLow(low: int)
    requires 0 <= low < 8
    ensures Named(RowB(low), TableB(low))
  {
  }

  lemma RowBNamedHigh(low: int)
    requires 8 <= low < 16
    ensures Named(RowB(low), TableB(low))
  {
  }

  lemma RowBFormed(low: int)
    requires 0 <= low < 16
    ensures Formed(0xb0 + low, RowB(low), TableB(low))
  {
  }

  lemma RowCNamedLow(low: int)
    requires 0 <= low < 8
    ensures Named(RowC(low), TableC(low))
  {
  }

  lemma RowCNamedHigh(low: int)
    requires 8 <= low < 16
    ensures Named(RowC(low), TableC(low))
  {
  }

  lemma RowCFormed(low: int)
    requires 0 <= low < 16
    ensures Formed(0xc0 + low, RowC(low), TableC(low))
  {
  }

  lemma RowDNamedLow(low: int)
    requires 0 <= low < 8
    ensures Named(RowD(low), TableD(low))
  {
  }

  lemma RowDNamedHigh(low: int)
    requires 8 <= low < 16
    ensures Named(RowD(low), TableD(low))
  {
  }

  lemma RowDFormed(low: int)
    requires 0 <= low < 16
    ensures Formed(0xd0 + low, RowD(low), TableD(low))
  {
  }

  lemma RowENamedLow(low: int)
    requires 0 <= low < 8
    ensures Named(RowE(low), TableE(low))
  {
  }

  lemma RowENamedHigh(low: int)
    requires 8 <= low < 16
    ensures Named(RowE(low), TableE(low))
  {
  }

  lemma RowEFormed(low: int)
    requires 0 <= low < 16
    ensures Formed(0xe0 + low, RowE(low), TableE(low))
  {
  }

  lemma RowFNamedLow(low: int)
    requires 0 <= low < 8
    ensures Named(RowF(low), TableF(low))
  {
  }

  lemma RowFNamedHigh(low: int)
    requires 8 <= low < 16
    ensures Named(RowF(low), TableF(low))
  {
  }

  lemma RowFFormed(low: int)
    requires 0 <= low < 16
    ensures Formed(0xf0 + low, RowF(low), TableF(low))
  {
  }

  lemma Row0Bits(low: int)
    requires 0 <= low < 16
    ensures BitsSay(0x00 + low, Row0(low))
  {
  }

  lemma Row1Bits(low: int)
    requires 0 <= low < 16
    ensures BitsSay(0x10 + low, Row1(low))
  {
  }

  lemma Row2Bits(low: int)
    requires 0 <= low < 16
    ensures BitsSay(0x20 + low, Row2(low))
  {
  }

  lemma Row3Bits(low: int)
    requires 0 <= low < 16
    ensures BitsSay(0x30 + low, Row3(low))
  {
  }

  lemma Row4Bits(low: int)
    requires 0 <= low < 16
    ensures BitsSay(0x40 + low, Row4(low))
  {
  }

  lemma Row5Bits(low: int)
    requires 0 <= low < 16
    ensures BitsSay(0x50 + low, Row5(low))
  {
  }

  lemma Row6Bits(low: int)
    requires 0 <= low < 16
    ensures BitsSay(0x60 + low, Row6(low))
  {
  }

  lemma Row7Bits(low: int)
    requires 0 <= low < 16
    ensures BitsSay(0x70 + low, Row7(low))
  {
  }

  lemma Row8Bits(low: int)
    requires 0 <= low < 16
    ensures BitsSay(0x80 + low, Row8(low))
  {
  }

  lemma Row9Bits(low: int)
    requires 0 <= low < 16
    ensures BitsSay(0x90 + low, Row9(low))
  {
  }

  lemma RowABits(low: int)
    requires 0 <= low < 16
    ensures BitsSay(0xa0 + low, RowA(low))
  {
  }

  lemma RowBBits(low: int)
    requires 0 <= low < 16
    ensures BitsSay(0xb0 + low, RowB(low))
  {
  }

  lemma RowCBits(low: int)
    requires 0 <= low < 16
    ensures BitsSay(0xc0 + low, RowC(low))
  {
  }

  lemma RowDBits(low: int)
    requires 0 <= low < 16
    ensures BitsSay(0xd0 + low, RowD(low))
  {
  }

  lemma RowEBits(low: int)
    requires 0 <= low < 16
    ensures BitsSay(0xe0 + low, RowE(low))
  {
  }

  lemma RowFBits(low: int)
    requires 0 <= low < 16
    ensures BitsSay(0xf0 + low, RowF(low))
  {
  }

  /**
   * Every opcode is dispatched to the instruction the disassembler names for it. The mode is the one the
   * disassembler prints, but for four opcodes, and the one the operation is told, but for 0x75.
   */
  lemma DecodeNamed(op: byte)
    ensures Named(Decode(op), Table(op)) && Formed(op, Decode(op), Table(op))
  {
    hide Named, Formed;
    DecodeNames(op);
    DecodeForms(op);
  }

  lemma DecodeNames(op: byte)
    ensures Named(Decode(op), Table(op))
  {
    hide Named;
    hide Row0, Row1, Row2, Row3, Row4, Row5, Row6, Row7, Row8, Row9, RowA, RowB, RowC, RowD, RowE, RowF;
    hide Table0, Table1, Table2, Table3, Table4, Table5, Table6, Table7;
    hide Table8, Table9, TableA, TableB, TableC, TableD, TableE, TableF;
    var low := op % 16;
    if low < 8 {
      Row0NamedLow(low);
      Row1NamedLow(low);
      Row2NamedLow(low);
      Row3NamedLow(low);
      Row4NamedLow(low);
      Row5NamedLow(low);
      Row6NamedLow(low);
      Row7NamedLow(low);
      Row8NamedLow(low);
      Row9NamedLow(low);
      RowANamedLow(low);
      RowBNamedLow(low);
      RowCNamedLow(low);
      RowDNamedLow(low);
      RowENamedLow(low);
      RowFNamedLow(low);
    } else {
      Row0NamedHigh(low);
      Row1NamedHigh(low);
      Row2NamedHigh(low);
      Row3NamedHigh(low);
      Row4NamedHigh(low);
      Row5NamedHigh(low);
      Row6NamedHigh(low);
      Row7NamedHigh(low);
      Row8NamedHigh(low);
      Row9NamedHigh(low);
      RowANamedHigh(low);
      RowBNamedHigh(low);
      RowCNamedHigh(low);
      RowDNamedHigh(low);
      RowENamedHigh(low);
      RowFNamedHigh(low);
    }
  }

  lemma DecodeForms(op: byte)
    ensures Formed(op, Decode(op), Table(op))
  {
    hide Formed;
    hide Row0, Row1, Row2, Row3, Row4, Row5, Row6, Row7, Row8, Row9, RowA, RowB, RowC, RowD, RowE, RowF;
    hide Table0, Table1, Table2, Table3, Table4, Table5, Table6, Table7;
    hide Table8, Table9, TableA, TableB, TableC, TableD, TableE, TableF;
    var low := op % 16;
    Row0Formed(low);
    Row1Formed(low);
    Row2Formed(low);
    Row3Formed(low);
    Row4Formed(low);
    Row5Formed(low);
    Row6Formed(low);
    Row7Formed(low);
    Row8Formed(low);
    Row9Formed(low);
    RowAFormed(low);
    RowBFormed(low);
    RowCFormed(low);
    RowDFormed(low);
    RowEFormed(low);
    RowFFormed(low);
  }

  /** The disassembler prints another mode than the executor uses for exactly four opcodes. */
  lemma FourMisprinted(op: byte)
    ensures ModeOf(Decode(op)) != Table(op).mode <==> op == 0x34 || op == 0x35 || op == 0x36 || op == 0x6c
  {
    hide Table, Decode, NameOf, ModeOf, Sized, ToldMode;
    DecodeNamed(op);
    MisprintedModes();
  }

  lemma MisprintedModes()
    ensures Table(0x34).mode == Table(0x35).mode == Table(0x36).mode == DPINDX && Table(0x6c).mode == ABSINDX
  {
  }

  /** In the two regular columns of the opcode map the bits of the opcode say which instruction it is. */
  lemma DecodeBits(op: byte)
    ensures BitsSay(op, Decode(op))
  {
    hide BitsSay;
    hide Row0, Row1, Row2, Row3, Row4, Row5, Row6, Row7, Row8, Row9, RowA, RowB, RowC, RowD, RowE, RowF;
    var low := op % 16;
    Row0Bits(low);
    Row1Bits(low);
    Row2Bits(low);
    Row3Bits(low);
    Row4Bits(low);
    Row5Bits(low);
    Row6Bits(low);
    Row7Bits(low);
    Row8Bits(low);
    Row9Bits(low);
    RowABits(low);
    RowBBits(low);
    RowCBits(low);
    RowDBits(low);
    RowEBits(low);
    RowFBits(low);
  }

  /** The eight conditional branches are taken when their flag is as bit 5 of the opcode says; BRA always is. */
  lemma BranchTaken(op: byte, p: Status)
    requires op % 0x20 == 0x10 || op == 0x80
    ensures Decode(op).Branch?
    ensures I.Taken(p, Decode(op).cond) <==> op == 0x80 || (Flag(p, BranchFlag(op)) <==> op / 0x20 % 2 == 1)
  {
    var a := op / 0x20;
    assert op == 0x80 || op == 0x20 * a + 0x10;
    assert a == 0 || a == 1 || a == 2 || a == 3 || a == 4 || a == 5 || a == 6 || a == 7;
  }

  /** A branch that is taken goes on at its displacement from the next instruction, and otherwise there. */
  lemma BranchStep(s: State)
    requires Ready(s.P) && (Opcode(s) % 0x20 == 0x10 || Opcode(s) == 0x80)
    ensures var op := Opcode(s);
            var taken := op == 0x80 || (Flag(s.P, BranchFlag(op)) <==> op / 0x20 % 2 == 1);
            Step(s).0 == s.(PC := (s.PC + 2 + if taken then Signed(CodeByte(s, 1)) else 0) % 0x1_0000)
  {
    hide Decode, Effective, CodeByte, Opcode, Step, I.Taken, Flag, Signed, Wrap;
    BranchTaken(Opcode(s), s.P);
    RelativeAddresses(s);
    WrapIsMod(s.PC + 2);
    StepIsExecute(s, I.Branch(s, Decode(Opcode(s)).cond));
  }

  // Lengths -------------------------------------------------------------------------------------------

  /** The length of an instruction by the two digits of its opcode, column by column. */
  function ExtentBits(row: int, low: int): Extent {
    if low == 8 || low == 10 || low == 11 then Extent(1, NoReg)
    else if low == 9 then if row % 2 == 1 then Extent(3, NoReg) else Extent(2, RegA)
    else if low == 15 then Extent(4, NoReg)
    else if low >= 12 then Extent(if row == 5 && low == 12 then 4 else 3, NoReg)
    else if low == 0 then
      Extent(if row == 2 then 3 else if row == 4 || row == 6 then 1 else 2,
             if row == 10 || row == 12 || row == 14 then RegX else NoReg)
    else if low == 2 then
      Extent(if row == 2 then 4 else if row == 6 || row == 8 then 3 else 2, if row == 10 then RegX else NoReg)
    else if low == 4 then Extent(if row == 4 || row == 5 || row == 15 then 3 else 2, NoReg)
    else Extent(2, NoReg)
  }

  lemma Row0Length(low: int)
    requires 0 <= low < 16
    ensures EntryExtent(Table0(low)) == ExtentBits(0, low)
  {
  }

  lemma Row1Length(low: int)
    requires 0 <= low < 16
    ensures EntryExtent(Table1(low)) == ExtentBits(1, low)
  {
  }

  lemma Row2Length(low: int)
    requires 0 <= low < 16
    ensures EntryExtent(Table2(low)) == ExtentBits(2, low)
  {
  }

  lemma Row3Length(low: int)
    requires 0 <= low < 16
    ensures EntryExtent(Table3(low)) == ExtentBits(3, low)
  {
  }

  lemma Row4Length(low: int)
    requires 0 <= low < 16
    ensures EntryExtent(Table4(low)) == ExtentBits(4, low)
  {
  }

  lemma Row5Length(low: int)
    requires 0 <= low < 16
    ensures EntryExtent(Table5(low)) == ExtentBits(5, low)
  {
  }

  lemma Row6Length(low: int)
    requires 0 <= low < 16
    ensures EntryExtent(Table6(low)) == ExtentBits(6, low)
  {
  }

  lemma Row7Length(low: int)
    requires 0 <= low < 16
    ensures EntryExtent(Table7(low)) == ExtentBits(7, low)
  {
  }

  lemma Row8Length(low: int)
    requires 0 <= low < 16
    ensures EntryExtent(Table8(low)) == ExtentBits(8, low)
  {
  }

  lemma Row9Length(low: int)
    requires 0 <= low < 16
    ensures EntryExtent(Table9(low)) == ExtentBits(9, low)
  {
  }

  lemma RowALength(low: int)
    requires 0 <= low < 16
    ensures EntryExtent(TableA(low)) == ExtentBits(10, low)
  {
  }

  lemma RowBLength(low: int)
    requires 0 <= low < 16
    ensures EntryExtent(TableB(low)) == ExtentBits(11, low)
  {
  }

  lemma RowCLength(low: int)
    requires 0 <= low < 16
    ensures EntryExtent(TableC(low)) == ExtentBits(12, low)
  {
  }

  lemma RowDLength(low: int)
    requires 0 <= low < 16
    ensures EntryExtent(TableD(low)) == ExtentBits(13, low)
  {
  }

  lemma RowELength(low: int)
    requires 0 <= low < 16
    ensures EntryExtent(TableE(low)) == ExtentBits(14, low)
  {
  }

  lemma RowFLength(low: int)
    requires 0 <= low < 16
    ensures EntryExtent(TableF(low)) == ExtentBits(15, low)
  {
  }

  /** The disassembler reports these lengths for all 256 opcodes. */
  lemma ReportedLengths(op: byte)
    ensures EntryExtent(Table(op)) == ExtentBits(op / 16, op % 16)
  {
    var row, low := op / 16, op % 16;
    hide ExtentBits, EntryExtent;
    hide Table0, Table1, Table2, Table3, Table4, Table5, Table6, Table7;
    hide Table8, Table9, TableA, TableB, TableC, TableD, TableE, TableF;
    match row {
      case 0 => Row0Length(low);
      case 1 => Row1Length(low);
      case 2 => Row2Length(low);
      case 3 => Row3Length(low);
      case 4 => Row4Length(low);
      case 5 => Row5Length(low);
      case 6 => Row6Length(low);
      case 7 => Row7Length(low);
      case 8 => Row8Length(low);
      case 9 => Row9Length(low);
      case 10 => RowALength(low);
      case 11 => RowBLength(low);
      case 12 => RowCLength(low);
      case 13 => RowDLength(low);
      case 14 => RowELength(low);
      case _ =>
        assert row == 15;
        RowFLength(low);
    }
  }
}
