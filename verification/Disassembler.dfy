/**
 The disassembler's own table of the instruction set, and the agreement of the instruction lengths it
 reports with the distance the executor moves the program counter.
 */
module Disassembler {
  import opened Words
  import opened Opcodes
  import opened Machine
  import opened Executor
  import opened Invariants
  import B = BlockMove
  import C = Cpu
  import I = Instructions
  import J = Calls
  import K = Stack
  import M = Mnemonics
  import N = Interrupts

  /** The register whose width decides the length of an immediate operand. */
  datatype Reg = NoReg | RegX | RegA

  /** What the table holds for an opcode: its format, its name, and the register its width depends on. */
  datatype Entry = Entry(mode: Mode, name: M.Name, reg: Reg)

  function FormatSize(mode: Mode): nat {
    match mode
    case IMPD => 1
    case ABS | ABSX | ABSY | INDABS | ABSINDL | ABSINDX | BMV | PCRL => 3
    case ABSL | ABSLX => 4
    case _ => 2
  }

  function Table0(low: int): Entry {
    match low
    case 0 => Entry(DP, M.BRK, NoReg)
    case 1 => Entry(DPINDX, M.ORA, RegA)
    case 2 => Entry(DP, M.COP, NoReg)
    case 3 => Entry(SR, M.ORA, RegA)
    case 4 => Entry(DP, M.TSB, RegA)
    case 5 => Entry(DP, M.ORA, RegA)
    case 6 => Entry(DP, M.ASL, RegA)
    case 7 => Entry(DPINDL, M.ORA, RegA)
    case 8 => Entry(IMPD, M.PHP, NoReg)
    case 9 => Entry(IMMD, M.ORA, RegA)
    case 10 => Entry(IMPD, M.ASL, RegA)
    case 11 => Entry(IMPD, M.PHD, NoReg)
    case 12 => Entry(ABS, M.TSB, RegA)
    case 13 => Entry(ABS, M.ORA, RegA)
    case 14 => Entry(ABS, M.ASL, RegA)
    case _ => Entry(ABSL, M.ORA, RegA)
  }

  function Table1(low: int): Entry {
    match low
    case 0 => Entry(PCR, M.BPL, NoReg)
    case 1 => Entry(INDDPY, M.ORA, RegA)
    case 2 => Entry(DPIND, M.ORA, RegA)
    case 3 => Entry(SRINDY, M.ORA, RegA)
    case 4 => Entry(DP, M.TRB, RegA)
    case 5 => Entry(DPX, M.ORA, RegA)
    case 6 => Entry(DPX, M.ASL, RegA)
    case 7 => Entry(INDDPLY, M.ORA, RegA)
    case 8 => Entry(IMPD, M.CLC, NoReg)
    case 9 => Entry(ABSY, M.ORA, RegA)
    case 10 => Entry(IMPD, M.INC, RegA)
    case 11 => Entry(IMPD, M.TCS, RegA)
    case 12 => Entry(ABS, M.TRB, RegA)
    case 13 => Entry(ABSX, M.ORA, RegA)
    case 14 => Entry(ABSX, M.ASL, RegA)
    case _ => Entry(ABSLX, M.ORA, RegA)
  }

  function Table2(low: int): Entry {
    match low
    case 0 => Entry(ABS, M.JSR, NoReg)
    case 1 => Entry(DPINDX, M.AND, RegA)
    case 2 => Entry(ABSL, M.JSR, NoReg)
    case 3 => Entry(SR, M.AND, RegA)
    case 4 => Entry(DP, M.BIT, RegA)
    case 5 => Entry(DP, M.AND, RegA)
    case 6 => Entry(DP, M.ROL, RegA)
    case 7 => Entry(DPINDL, M.AND, RegA)
    case 8 => Entry(IMPD, M.PLP, NoReg)
    case 9 => Entry(IMMD, M.AND, RegA)
    case 10 => Entry(IMPD, M.ROL, RegA)
    case 11 => Entry(IMPD, M.PLD, NoReg)
    case 12 => Entry(ABS, M.BIT, RegA)
    case 13 => Entry(ABS, M.AND, RegA)
    case 14 => Entry(ABS, M.ROL, RegA)
    case _ => Entry(ABSL, M.AND, RegA)
  }

  function Table3(low: int): Entry {
    match low
    case 0 => Entry(PCR, M.BMI, NoReg)
    case 1 => Entry(INDDPY, M.AND, RegA)
    case 2 => Entry(DPIND, M.AND, RegA)
    case 3 => Entry(SRINDY, M.AND, RegA)
    case 4 => Entry(DPINDX, M.BIT, RegA)
    case 5 => Entry(DPINDX, M.AND, RegA)
    case 6 => Entry(DPINDX, M.ROL, RegA)
    case 7 => Entry(INDDPLY, M.AND, RegA)
    case 8 => Entry(IMPD, M.SEC, NoReg)
    case 9 => Entry(ABSY, M.AND, RegA)
    case 10 => Entry(IMPD, M.DEC, RegA)
    case 11 => Entry(IMPD, M.TSC, RegA)
    case 12 => Entry(ABSX, M.BIT, RegA)
    case 13 => Entry(ABSX, M.AND, RegA)
    case 14 => Entry(ABSX, M.ROL, RegA)
    case _ => Entry(ABSLX, M.AND, RegA)
  }

  function Table4(low: int): Entry {
    match low
    case 0 => Entry(IMPD, M.RTI, NoReg)
    case 1 => Entry(DPINDX, M.EOR, RegA)
    case 2 => Entry(IMMD, M.WDM, NoReg)
    case 3 => Entry(SR, M.EOR, RegA)
    case 4 => Entry(BMV, M.MVP, NoReg)
    case 5 => Entry(DP, M.EOR, RegA)
    case 6 => Entry(DP, M.LSR, RegA)
    case 7 => Entry(DPINDL, M.EOR, RegA)
    case 8 => Entry(IMPD, M.PHA, RegA)
    case 9 => Entry(IMMD, M.EOR, RegA)
    case 10 => Entry(IMPD, M.LSR, RegA)
    case 11 => Entry(IMPD, M.PHK, NoReg)
    case 12 => Entry(ABS, M.JMP, NoReg)
    case 13 => Entry(ABS, M.EOR, RegA)
    case 14 => Entry(ABS, M.LSR, RegA)
    case _ => Entry(ABSL, M.EOR, RegA)
  }

  function Table5(low: int): Entry {
    match low
    case 0 => Entry(PCR, M.BVC, NoReg)
    case 1 => Entry(INDDPY, M.EOR, RegA)
    case 2 => Entry(DPIND, M.EOR, RegA)
    case 3 => Entry(SRINDY, M.EOR, RegA)
    case 4 => Entry(BMV, M.MVN, NoReg)
    case 5 => Entry(DPX, M.EOR, RegA)
    case 6 => Entry(DPX, M.LSR, RegA)
    case 7 => Entry(INDDPLY, M.EOR, RegA)
    case 8 => Entry(IMPD, M.CLI, NoReg)
    case 9 => Entry(ABSY, M.EOR, RegA)
    case 10 => Entry(IMPD, M.PHY, RegX)
    case 11 => Entry(IMPD, M.TCD, RegA)
    case 12 => Entry(ABSL, M.JMP, RegA)
    case 13 => Entry(ABSX, M.EOR, RegA)
    case 14 => Entry(ABSX, M.LSR, RegA)
    case _ => Entry(ABSLX, M.EOR, RegA)
  }

  function Table6(low: int): Entry {
    match low
    case 0 => Entry(IMPD, M.RTS, NoReg)
    case 1 => Entry(DPINDX, M.ADC, RegA)
    case 2 => Entry(ABS, M.PER, NoReg)
    case 3 => Entry(SR, M.ADC, RegA)
    case 4 => Entry(DP, M.STZ, RegA)
    case 5 => Entry(DP, M.ADC, RegA)
    case 6 => Entry(DP, M.ROR, RegA)
    case 7 => Entry(DPINDL, M.ADC, RegA)
    case 8 => Entry(IMPD, M.PLA, RegA)
    case 9 => Entry(IMMD, M.ADC, RegA)
    case 10 => Entry(IMPD, M.ROR, RegA)
    case 11 => Entry(IMPD, M.RTL, NoReg)
    case 12 => Entry(ABSINDX, M.JMP, NoReg)
    case 13 => Entry(ABS, M.ADC, RegA)
    case 14 => Entry(ABS, M.ROR, RegA)
    case _ => Entry(ABSL, M.ADC, RegA)
  }

  function Table7(low: int): Entry {
    match low
    case 0 => Entry(PCR, M.BVS, NoReg)
    case 1 => Entry(INDDPY, M.ADC, RegA)
    case 2 => Entry(DPIND, M.ADC, RegA)
    case 3 => Entry(SRINDY, M.ADC, RegA)
    case 4 => Entry(DPX, M.STZ, RegA)
    case 5 => Entry(DPX, M.ADC, RegA)
    case 6 => Entry(DPX, M.ROR, RegA)
    case 7 => Entry(INDDPLY, M.ADC, RegA)
    case 8 => Entry(IMPD, M.SEI, NoReg)
    case 9 => Entry(ABSY, M.ADC, RegA)
    case 10 => Entry(IMPD, M.PLY, RegX)
    case 11 => Entry(IMPD, M.TDC, RegA)
    case 12 => Entry(ABSINDX, M.JMP, NoReg)
    case 13 => Entry(ABSX, M.ADC, RegA)
    case 14 => Entry(ABSX, M.ROR, RegA)
    case _ => Entry(ABSLX, M.ADC, RegA)
  }

  function Table8(low: int): Entry {
    match low
    case 0 => Entry(PCR, M.BRA, NoReg)
    case 1 => Entry(DPINDX, M.STA, RegA)
    case 2 => Entry(PCRL, M.BRL, NoReg)
    case 3 => Entry(SR, M.STA, RegA)
    case 4 => Entry(DP, M.STY, RegX)
    case 5 => Entry(DP, M.STA, RegA)
    case 6 => Entry(DP, M.STX, RegX)
    case 7 => Entry(DPINDL, M.STA, RegA)
    case 8 => Entry(IMPD, M.DEY, RegX)
    case 9 => Entry(IMMD, M.BIT, RegA)
    case 10 => Entry(IMPD, M.TXA, RegA)
    case 11 => Entry(IMPD, M.PHB, NoReg)
    case 12 => Entry(ABS, M.STY, RegX)
    case 13 => Entry(ABS, M.STA, RegA)
    case 14 => Entry(ABS, M.STX, RegX)
    case _ => Entry(ABSL, M.STA, RegA)
  }

  function Table9(low: int): Entry {
    match low
    case 0 => Entry(PCR, M.BCC, NoReg)
    case 1 => Entry(INDDPY, M.STA, RegA)
    case 2 => Entry(DPIND, M.STA, RegA)
    case 3 => Entry(SRINDY, M.STA, RegA)
    case 4 => Entry(DPX, M.STY, RegX)
    case 5 => Entry(DPX, M.STA, RegA)
    case 6 => Entry(DPY, M.STX, RegX)
    case 7 => Entry(INDDPLY, M.STA, RegA)
    case 8 => Entry(IMPD, M.TYA, RegA)
    case 9 => Entry(ABSY, M.STA, RegX)
    case 10 => Entry(IMPD, M.TXS, RegX)
    case 11 => Entry(IMPD, M.TXY, RegX)
    case 12 => Entry(ABS, M.STZ, RegA)
    case 13 => Entry(ABSX, M.STA, RegA)
    case 14 => Entry(ABSX, M.STZ, RegA)
    case _ => Entry(ABSLX, M.STA, RegA)
  }

  function TableA(low: int): Entry {
    match low
    case 0 => Entry(IMMD, M.LDY, RegX)
    case 1 => Entry(DPINDX, M.LDA, RegA)
    case 2 => Entry(IMMD, M.LDX, RegX)
    case 3 => Entry(SR, M.LDA, RegA)
    case 4 => Entry(DP, M.LDY, RegX)
    case 5 => Entry(DP, M.LDA, RegA)
    case 6 => Entry(DP, M.LDX, RegX)
    case 7 => Entry(DPINDL, M.LDA, RegA)
    case 8 => Entry(IMPD, M.TAY, RegX)
    case 9 => Entry(IMMD, M.LDA, RegA)
    case 10 => Entry(IMPD, M.TAX, RegX)
    case 11 => Entry(IMPD, M.PLB, NoReg)
    case 12 => Entry(ABS, M.LDY, RegX)
    case 13 => Entry(ABS, M.LDA, RegA)
    case 14 => Entry(ABS, M.LDX, RegX)
    case _ => Entry(ABSL, M.LDA, RegA)
  }

  function TableB(low: int): Entry {
    match low
    case 0 => Entry(PCR, M.BCS, NoReg)
    case 1 => Entry(INDDPY, M.LDA, RegA)
    case 2 => Entry(DPIND, M.LDA, RegA)
    case 3 => Entry(SRINDY, M.LDA, RegA)
    case 4 => Entry(DPX, M.LDY, RegX)
    case 5 => Entry(DPX, M.LDA, RegA)
    case 6 => Entry(DPY, M.LDX, RegX)
    case 7 => Entry(INDDPLY, M.LDA, RegA)
    case 8 => Entry(IMPD, M.CLV, NoReg)
    case 9 => Entry(ABSY, M.LDA, RegA)
    case 10 => Entry(IMPD, M.TSX, RegX)
    case 11 => Entry(IMPD, M.TYX, RegX)
    case 12 => Entry(ABSX, M.LDY, RegX)
    case 13 => Entry(ABSX, M.LDA, RegA)
    case 14 => Entry(ABSY, M.LDX, RegX)
    case _ => Entry(ABSLX, M.LDA, RegA)
  }

  function TableC(low: int): Entry {
    match low
    case 0 => Entry(IMMD, M.CPY, RegX)
    case 1 => Entry(DPINDX, M.CMP, RegA)
    case 2 => Entry(IMMD, M.REP, NoReg)
    case 3 => Entry(SR, M.CMP, RegA)
    case 4 => Entry(DP, M.CPY, RegX)
    case 5 => Entry(DP, M.CMP, RegA)
    case 6 => Entry(DP, M.DEC, RegA)
    case 7 => Entry(DPINDL, M.CMP, RegA)
    case 8 => Entry(IMPD, M.INY, RegX)
    case 9 => Entry(IMMD, M.CMP, RegA)
    case 10 => Entry(IMPD, M.DEX, RegX)
    case 11 => Entry(IMPD, M.WAI, NoReg)
    case 12 => Entry(ABS, M.CPY, RegX)
    case 13 => Entry(ABS, M.CMP, RegA)
    case 14 => Entry(ABS, M.DEC, RegA)
    case _ => Entry(ABSL, M.CMP, RegA)
  }

  function TableD(low: int): Entry {
    match low
    case 0 => Entry(PCR, M.BNE, NoReg)
    case 1 => Entry(INDDPY, M.CMP, RegA)
    case 2 => Entry(DPIND, M.CMP, RegA)
    case 3 => Entry(SRINDY, M.CMP, RegA)
    case 4 => Entry(DPIND, M.PEI, NoReg)
    case 5 => Entry(DPX, M.CMP, RegA)
    case 6 => Entry(DPX, M.DEC, RegA)
    case 7 => Entry(INDDPLY, M.CMP, RegA)
    case 8 => Entry(IMPD, M.CLD, NoReg)
    case 9 => Entry(ABSY, M.CMP, RegA)
    case 10 => Entry(IMPD, M.PHX, RegX)
    case 11 => Entry(IMPD, M.STP, NoReg)
    case 12 => Entry(ABSINDL, M.JMP, NoReg)
    case 13 => Entry(ABSX, M.CMP, RegA)
    case 14 => Entry(ABSX, M.DEC, RegA)
    case _ => Entry(ABSLX, M.CMP, RegA)
  }

  function TableE(low: int): Entry {
    match low
    case 0 => Entry(IMMD, M.CPX, RegX)
    case 1 => Entry(DPINDX, M.SBC, RegA)
    case 2 => Entry(IMMD, M.SEP, NoReg)
    case 3 => Entry(SR, M.SBC, RegA)
    case 4 => Entry(DP, M.CPX, RegX)
    case 5 => Entry(DP, M.SBC, RegA)
    case 6 => Entry(DP, M.INC, RegA)
    case 7 => Entry(DPINDL, M.SBC, RegA)
    case 8 => Entry(IMPD, M.INX, RegX)
    case 9 => Entry(IMMD, M.SBC, RegA)
    case 10 => Entry(IMPD, M.NOP, NoReg)
    case 11 => Entry(IMPD, M.XBA, NoReg)
    case 12 => Entry(ABS, M.CPX, RegX)
    case 13 => Entry(ABS, M.SBC, RegA)
    case 14 => Entry(ABS, M.INC, RegA)
    case _ => Entry(ABSL, M.SBC, RegA)
  }

  function TableF(low: int): Entry {
    match low
    case 0 => Entry(PCR, M.BEQ, NoReg)
    case 1 => Entry(INDDPY, M.SBC, RegA)
    case 2 => Entry(DPIND, M.SBC, RegA)
    case 3 => Entry(SRINDY, M.SBC, RegA)
    case 4 => Entry(ABS, M.PEA, NoReg)
    case 5 => Entry(DPX, M.SBC, RegA)
    case 6 => Entry(DPX, M.INC, RegA)
    case 7 => Entry(INDDPLY, M.SBC, RegA)
    case 8 => Entry(IMPD, M.SED, NoReg)
    case 9 => Entry(ABSY, M.SBC, RegA)
    case 10 => Entry(IMPD, M.PLX, RegX)
    case 11 => Entry(IMPD, M.XCE, NoReg)
    case 12 => Entry(ABSINDX, M.JSR, NoReg)
    case 13 => Entry(ABSX, M.SBC, RegA)
    case 14 => Entry(ABSX, M.INC, RegA)
    case _ => Entry(ABSLX, M.SBC, RegA)
  }

  function Table(op: int): Entry {
    var low := op % 16;
    match op / 16
    case 0 => Table0(low)
    case 1 => Table1(low)
    case 2 => Table2(low)
    case 3 => Table3(low)
    case 4 => Table4(low)
    case 5 => Table5(low)
    case 6 => Table6(low)
    case 7 => Table7(low)
    case 8 => Table8(low)
    case 9 => Table9(low)
    case 10 => TableA(low)
    case 11 => TableB(low)
    case 12 => TableC(low)
    case 13 => TableD(low)
    case 14 => TableE(low)
    case _ => TableF(low)
  }

  /** A length in bytes, one more when it is an immediate operand of a register that is 16 bits wide. */
  datatype Extent = Extent(n: nat, widens: Reg)
  {
    function Size(p: Status): nat {
      if (widens.RegA? && !p.Acc8()) || (widens.RegX? && !p.Idx8()) then n + 1 else n
    }
  }

  function EntryExtent(e: Entry): Extent { Extent(FormatSize(e.mode), if e.mode.IMMD? then e.reg else NoReg) }

  /** The length reported for the instruction at the program counter. */
  function OpcodeSize(s: State): nat { EntryExtent(Table(Opcode(s))).Size(s.P) }

  method GetOpcode(cpu: C.Processor, mem: array<C.Cell>) returns (size: nat)
    requires mem.Length == MEM_SIZE
    ensures size == OpcodeSize(C.View(cpu, mem))
  {
    var op := Table(mem[C.EffectivePc(cpu)].val);
    size := FormatSize(op.mode);
    if size == 2 && op.mode == IMMD {
      var wideA := !(cpu.P.E || (!cpu.P.E && cpu.P.M));
      var wideX := !(cpu.P.E || (!cpu.P.E && cpu.P.XB));
      if (op.reg == RegA && wideA) || (op.reg == RegX && wideX) {
        size := 3;
      }
    }
  }

  /** Instructions after which the program goes on with the next one in memory. */
  predicate Sequential(p: Status, ins: Ins) {
    match ins
    case Read(_, _, _, _) | Write(_, _, _) | Modify(_, _, _) | ModifyA(_) => true
    case Push(_) | Pull(_) | ResetBits | SetBits => true
    case Register(op) => !op.WAI? && !op.STP?
    case Branch(c) => !I.Taken(p, c)
    case _ => false
  }

  function PushSize(op: PushOp): nat {
    match op
    case PEA | PER => 3
    case PEI => 2
    case _ => 1
  }

  /** How far the executor moves the program counter. */
  function ExecutedExtent(ins: Ins): Extent {
    match ins
    case Read(op, mode, _, size) =>
      Extent(size, if !mode.IMMD? then NoReg
                   else if op.CPX? || op.CPY? || op.LDX? || op.LDY? then RegX else RegA)
    case Write(_, _, size) => Extent(size, NoReg)
    case Modify(_, _, size) => Extent(size, NoReg)
    case Push(op) => Extent(PushSize(op), NoReg)
    case Register(op) => Extent(if op.WDM? then 2 else 1, NoReg)
    case Branch(_) | ResetBits | SetBits => Extent(2, NoReg)
    case _ => Extent(1, NoReg)
  }

  lemma ExecuteAdvances(s: State, ins: Ins)
    requires WellFormed(ins) && Sequential(s.P, ins)
    ensures Execute(s, ins).PC == Wrap(s.PC + ExecutedExtent(ins).Size(s.P))
  {
    hide Effective, Wrap, I.Knows, I.KnowsStore, I.KnowsModify, I.Taken;
    hide I.Read, I.Write, I.Modify, I.ModifyA, I.Register, I.Push, I.Pull, I.Branch, I.ResetBits, I.SetBits;
    match ins {
      case Read(op, mode, from, size) => ReadAdvances(s, op, mode, Effective(s, from), size);
      case Write(op, mode, size) => StoreAdvances(s, op, ASL, mode, Effective(s, mode), size);
      case Modify(op, mode, size) => StoreAdvances(s, STA, op, mode, Effective(s, mode), size);
      case ModifyA(op) => StoreAdvances(s, STA, op, ABS, 0, 1);
      case Register(op) => RegisterAdvances(s, op);
      case Push(op) => PushAdvances(s, op);
      case Pull(op) => PullAdvances(s, op);
      case Branch(c) => FlagsAdvance(s, c);
      case ResetBits | SetBits => FlagsAdvance(s, BRA);
    }
  }

  lemma StoreAdvances(s: State, w: WriteOp, op: ModifyOp, mode: Mode, a: addr, size: nat)
    ensures I.KnowsStore(w, mode) ==> I.Write(s, w, mode, a, size).PC == Wrap(s.PC + size)
    ensures I.KnowsModify(op, mode) ==> I.Modify(s, op, mode, a, size).PC == Wrap(s.PC + size)
    ensures I.ModifyA(s, op).PC == Wrap(s.PC + 1)
  {
    hide I.Write, I.Modify, I.ModifyA, Wrap, I.KnowsStore, I.KnowsModify;
  }

  lemma PullAdvances(s: State, op: PullOp)
    ensures I.Pull(s, op).PC == Wrap(s.PC + 1)
  {
    hide TopWord, TopByte, State.SetA, Status.NZ, Status.WithSr, Wrap, InPage1, Low;
  }

  lemma FlagsAdvance(s: State, c: Cond)
    ensures !I.Taken(s.P, c) ==> I.Branch(s, c).PC == Wrap(s.PC + 2)
    ensures I.ResetBits(s).PC == Wrap(s.PC + 2) && I.SetBits(s).PC == Wrap(s.PC + 2)
  {
    hide Effective, Status.WithSr, Wrap, Low, I.Taken;
  }

  lemma ReadAdvances(s: State, op: ReadOp, mode: Mode, a: addr, size: nat)
    requires I.Knows(op, mode)
    ensures I.Read(s, op, mode, a, size).PC == Wrap(s.PC + ExecutedExtent(Ins.Read(op, mode, mode, size)).Size(s.P))
  {
    hide I.Knows, I.Fetch, I.StaysInBank, I.AddTo, I.SubtractFrom, I.Combine, I.Compared, I.TestBits;
    hide State.SetA, Status.NZ, I.Narrowed;
  }

  lemma RegisterAdvances(s: State, op: RegOp)
    requires !op.WAI? && !op.STP?
    ensures I.Register(s, op).PC == Wrap(s.PC + if op.WDM? then 2 else 1)
  {
    hide I.ModifyA, I.IndexToA, I.ToIndex, Status.NZ, Low, High;
  }

  lemma PushAdvances(s: State, op: PushOp)
    ensures I.Push(s, op).PC == Wrap(s.PC + PushSize(op))
  {
    hide StoreWord, WordInBank, At, Low, High, Status.Sr;
  }

  /** Instructions that may go on with the next one in memory. */
  predicate MayContinue(ins: Ins) {
    match ins
    case Jump(_) | Call(_) | BranchLong | CallLong | Return | ReturnLong | ReturnFromInterrupt => false
    case Break | Coprocessor | Move(_) => false
    case _ => true
  }

  predicate SameExtent(ins: Ins, e: Entry) { MayContinue(ins) ==> ExecutedExtent(ins) == EntryExtent(e) }

  lemma SameRow0(low: int)
    ensures SameExtent(Row0(low), Table0(low))
  {
  }

  lemma SameRow1(low: int)
    ensures SameExtent(Row1(low), Table1(low))
  {
  }

  lemma SameRow2(low: int)
    ensures SameExtent(Row2(low), Table2(low))
  {
  }

  lemma SameRow3(low: int)
    ensures SameExtent(Row3(low), Table3(low))
  {
  }

  lemma SameRow4(low: int)
    ensures SameExtent(Row4(low), Table4(low))
  {
  }

  lemma SameRow5(low: int)
    ensures SameExtent(Row5(low), Table5(low))
  {
  }

  lemma SameRow6(low: int)
    ensures SameExtent(Row6(low), Table6(low))
  {
  }

  lemma SameRow7(low: int)
    ensures SameExtent(Row7(low), Table7(low))
  {
  }

  lemma SameRow8(low: int)
    ensures SameExtent(Row8(low), Table8(low))
  {
  }

  lemma SameRow9(low: int)
    ensures SameExtent(Row9(low), Table9(low))
  {
  }

  lemma SameRowA(low: int)
    ensures SameExtent(RowA(low), TableA(low))
  {
  }

  lemma SameRowB(low: int)
    ensures SameExtent(RowB(low), TableB(low))
  {
  }

  lemma SameRowC(low: int)
    ensures SameExtent(RowC(low), TableC(low))
  {
  }

  lemma SameRowD(low: int)
    ensures SameExtent(RowD(low), TableD(low))
  {
  }

  lemma SameRowE(low: int)
    ensures SameExtent(RowE(low), TableE(low))
  {
  }

  lemma SameRowF(low: int)
    ensures SameExtent(RowF(low), TableF(low))
  {
  }

  /** The two tables give every opcode that does not transfer control the same length, whatever the widths. */
  lemma TablesAgree(op: byte)
    ensures SameExtent(Decode(op), Table(op))
  {
    hide SameExtent;
    hide Row0, Row1, Row2, Row3, Row4, Row5, Row6, Row7, Row8, Row9, RowA, RowB, RowC, RowD, RowE, RowF;
    hide Table0, Table1, Table2, Table3, Table4, Table5, Table6, Table7;
    hide Table8, Table9, TableA, TableB, TableC, TableD, TableE, TableF;
    var low := op % 16;
    SameRow0(low);
    SameRow1(low);
    SameRow2(low);
    SameRow3(low);
    SameRow4(low);
    SameRow5(low);
    SameRow6(low);
    SameRow7(low);
    SameRow8(low);
    SameRow9(low);
    SameRowA(low);
    SameRowB(low);
    SameRowC(low);
    SameRowD(low);
    SameRowE(low);
    SameRowF(low);
  }

  /**
   * After an instruction that does not transfer control the program counter has moved by exactly the
   * length the disassembler reports, inside its bank.
   */
  lemma LengthsAgree(s: State)
    requires Active(s.P) && Sequential(s.P, Decode(Opcode(s))) && Quiet(Execute(s, Decode(Opcode(s))).P)
    ensures Step(s).0.PC == (s.PC + OpcodeSize(s)) % 0x1_0000
  {
    WrapIsMod(s.PC + OpcodeSize(s));
    hide Execute, Decode, Table, Opcode, ExecutedExtent, EntryExtent, Extent.Size, WellFormed;
    DecodeWellFormed(Opcode(s));
    ExecuteAdvances(s, Decode(Opcode(s)));
    TablesAgree(Opcode(s));
  }

  // Instructions the program comes back behind ------------------------------------------------------

  lemma CallEntries()
    ensures EntryExtent(Table(0x20)) == EntryExtent(Table(0xfc)) == Extent(3, NoReg)
    ensures EntryExtent(Table(0x22)) == Extent(4, NoReg)
  {
  }

  lemma OtherEntries()
    ensures EntryExtent(Table(0x00)) == EntryExtent(Table(0x02)) == Extent(2, NoReg)
    ensures EntryExtent(Table(0x44)) == EntryExtent(Table(0x54)) == Extent(3, NoReg)
  {
  }

  /** Every return lands behind its call by exactly the length the disassembler reports for the call. */
  lemma CallLengths(s: State, far: bool)
    requires J.Calling(s, far)
    ensures J.Following(s, far).offset == (s.PC + OpcodeSize(s)) % 0x1_0000
  {
    hide Table, EntryExtent, Opcode, Wrap;
    CallEntries();
    WrapIsMod(s.PC + OpcodeSize(s));
  }

  /** A block move ends behind its instruction by that length. */
  lemma MoveLengths(s: State, dir: int, dst: byte, src: byte)
    requires B.Direction(dir) && B.Ready(s.P) && B.AtMove(s, dir, dst, src) && B.SparesInstruction(s, dir, dst)
    ensures Steps(s, s.C + 1).PC == (s.PC + OpcodeSize(s)) % 0x1_0000
  {
    hide Table, EntryExtent, Opcode, Wrap, Steps, B.Copy, B.Along, B.SparesInstruction, Later;
    OtherEntries();
    B.MoveCompletes(s, dir, dst, src);
    WrapIsMod(s.PC + 3);
  }

  /** RTI comes back behind BRK or COP by that length, though the byte after the opcode means nothing to BRK. */
  lemma BreakLengths(s: State)
    requires Opcode(s) == 0x00 || Opcode(s) == 0x02
    requires K.Placed(s.P.E, s.SP)
    ensures I.ReturnFromInterrupt(Execute(s, Decode(Opcode(s)))).PC == (s.PC + OpcodeSize(s)) % 0x1_0000
  {
    hide Table, EntryExtent, Wrap, Opcode, I.Break, I.Coprocessor, I.ReturnFromInterrupt;
    assert Decode(0x00) == Break && Decode(0x02) == Coprocessor;
    hide Decode;
    OtherEntries();
    WrapIsMod(s.PC + 2);
    BreakReturns(s);
  }

  lemma BreakReturns(s: State)
    requires K.Placed(s.P.E, s.SP)
    ensures I.ReturnFromInterrupt(I.Break(s)).PC == Wrap(s.PC + 2)
    ensures I.ReturnFromInterrupt(I.Coprocessor(s)).PC == Wrap(s.PC + 2)
  {
    hide I.Enter, I.ReturnFromInterrupt, WordAt;
    var t := s.Advance(2);
    ReturnsTo(t, true, if t.P.E then 0xfffe else 0xffe6, I.Break(s));
    ReturnsTo(t, false, if t.P.E then 0xfff4 else 0xffe4, I.Coprocessor(s));
  }

  /** RTI finds the program counter the entry has saved, wherever the handler starts. */
  lemma ReturnsTo(t: State, xb: bool, vector: word, v: State)
    requires K.Placed(t.P.E, t.SP)
    requires var u := I.Enter(t, t.P.(XB := xb), vector); v == u.(P := u.P.(I := true), PC := v.PC)
    ensures I.ReturnFromInterrupt(v).PC == t.PC
  {
    hide Status.Sr, Status.WithSr, I.Enter, K.SameOutside, Later, Low;
    hide TopByte, TopWord, TopLong, DropByte, DropWord, DropLong;
    var u := I.Enter(t, t.P.(XB := xb), vector);
    N.FrameOnStack(t, t.P.(XB := xb), vector);
    N.FlagsOnly(u, true);
    N.AtParts(t.PBR, t.PC);
    PlaceOnly(u.(P := u.P.(I := true)), v);
  }

  /** The stack operations do not look at the program counter. */
  lemma PlaceOnly(u: State, v: State)
    requires v == u.(PC := v.PC)
    ensures DropByte(v) == DropByte(u).(PC := v.PC)
    ensures TopWord(DropByte(v), true) == TopWord(DropByte(u), true) && TopLong(DropByte(v)) == TopLong(DropByte(u))
  {
    hide WordAt, At, Low;
  }
}
