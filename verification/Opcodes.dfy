/**
 The instruction set: addressing modes, operations by family, and the opcode table of the executor.
 */
module Opcodes {
  datatype Mode =
    | DP | DPX | DPINDX | DPY | INDDPY | INDDPLY | DPIND | DPINDL
    | ABS | ABSX | ABSY | INDABS | ABSL | ABSLX | ABSINDL | ABSINDX
    | IMMD | SR | SRINDY | IMPD | BMV | PCR | PCRL

  datatype ReadOp = ADC | AND | BIT | CMP | CPX | CPY | EOR | LDA | LDX | LDY | ORA | SBC

  datatype WriteOp = STA | STX | STY | STZ

  datatype ModifyOp = ASL | DEC | INC | LSR | ROL | ROR | TRB | TSB

  datatype Cond = BCC | BCS | BEQ | BMI | BNE | BPL | BRA | BVC | BVS

  datatype PushOp = PHA | PHB | PHD | PHK | PHP | PHX | PHY | PEA | PEI | PER

  datatype PullOp = PLA | PLB | PLD | PLP | PLX | PLY

  datatype RegOp =
    | CLC | CLD | CLI | CLV | SEC | SED | SEI
    | DEA | DEX | DEY | INA | INX | INY
    | TAX | TAY | TCD | TCS | TDC | TSC | TSX | TXA | TXS | TXY | TYA | TYX
    | NOP | WDM | XBA | XCE | WAI | STP

  /**
   * One entry of the opcode table. `mode` is the mode the operation is told; `from` is the mode its
   * operand's address is computed with, and differs from `mode` for opcode 0x75 only.
   */
  datatype Ins =
    | Read(read: ReadOp, mode: Mode, from: Mode, size: nat)
    | Write(write: WriteOp, mode: Mode, size: nat)
    | Modify(rmw: ModifyOp, mode: Mode, size: nat)
    | ModifyA(rmw: ModifyOp)
    | Register(reg: RegOp)
    | Push(push: PushOp)
    | Pull(pull: PullOp)
    | Branch(cond: Cond)
    | Jump(mode: Mode)
    | Call(mode: Mode)
    | BranchLong | CallLong | Return | ReturnLong | ReturnFromInterrupt
    | Break | Coprocessor | ResetBits | SetBits
    | Move(dir: int)

  function Row0(low: int): Ins {
    match low
    case 0 => Break
    case 1 => Read(ORA, DPINDX, DPINDX, 2)
    case 2 => Coprocessor
    case 3 => Read(ORA, SR, SR, 2)
    case 4 => Modify(TSB, DP, 2)
    case 5 => Read(ORA, DP, DP, 2)
    case 6 => Modify(ASL, DP, 2)
    case 7 => Read(ORA, DPINDL, DPINDL, 2)
    case 8 => Push(PHP)
    case 9 => Read(ORA, IMMD, IMMD, 2)
    case 10 => ModifyA(ASL)
    case 11 => Push(PHD)
    case 12 => Modify(TSB, ABS, 3)
    case 13 => Read(ORA, ABS, ABS, 3)
    case 14 => Modify(ASL, ABS, 3)
    case _ => Read(ORA, ABSL, ABSL, 4)
  }

  function Row1(low: int): Ins {
    match low
    case 0 => Branch(BPL)
    case 1 => Read(ORA, INDDPY, INDDPY, 2)
    case 2 => Read(ORA, DPIND, DPIND, 2)
    case 3 => Read(ORA, SRINDY, SRINDY, 2)
    case 4 => Modify(TRB, DP, 2)
    case 5 => Read(ORA, DPX, DPX, 2)
    case 6 => Modify(ASL, DPX, 2)
    case 7 => Read(ORA, INDDPLY, INDDPLY, 2)
    case 8 => Register(CLC)
    case 9 => Read(ORA, ABSY, ABSY, 3)
    case 10 => Register(INA)
    case 11 => Register(TCS)
    case 12 => Modify(TRB, ABS, 3)
    case 13 => Read(ORA, ABSX, ABSX, 3)
    case 14 => Modify(ASL, ABSX, 3)
    case _ => Read(ORA, ABSLX, ABSLX, 4)
  }

  function Row2(low: int): Ins {
    match low
    case 0 => Call(ABS)
    case 1 => Read(AND, DPINDX, DPINDX, 2)
    case 2 => CallLong
    case 3 => Read(AND, SR, SR, 2)
    case 4 => Read(BIT, DP, DP, 2)
    case 5 => Read(AND, DP, DP, 2)
    case 6 => Modify(ROL, DP, 2)
    case 7 => Read(AND, DPINDL, DPINDL, 2)
    case 8 => Pull(PLP)
    case 9 => Read(AND, IMMD, IMMD, 2)
    case 10 => ModifyA(ROL)
    case 11 => Pull(PLD)
    case 12 => Read(BIT, ABS, ABS, 3)
    case 13 => Read(AND, ABS, ABS, 3)
    case 14 => Modify(ROL, ABS, 3)
    case _ => Read(AND, ABSL, ABSL, 4)
  }

  function Row3(low: int): Ins {
    match low
    case 0 => Branch(BMI)
    case 1 => Read(AND, INDDPY, INDDPY, 2)
    case 2 => Read(AND, DPIND, DPIND, 2)
    case 3 => Read(AND, SRINDY, SRINDY, 2)
    case 4 => Read(BIT, DPX, DPX, 2)
    case 5 => Read(AND, DPX, DPX, 2)
    case 6 => Modify(ROL, DPX, 2)
    case 7 => Read(AND, INDDPLY, INDDPLY, 2)
    case 8 => Register(SEC)
    case 9 => Read(AND, ABSY, ABSY, 3)
    case 10 => Register(DEA)
    case 11 => Register(TSC)
    case 12 => Read(BIT, ABSX, ABSX, 3)
    case 13 => Read(AND, ABSX, ABSX, 3)
    case 14 => Modify(ROL, ABSX, 3)
    case _ => Read(AND, ABSLX, ABSLX, 4)
  }

  function Row4(low: int): Ins {
    match low
    case 0 => ReturnFromInterrupt
    case 1 => Read(EOR, DPINDX, DPINDX, 2)
    case 2 => Register(WDM)
    case 3 => Read(EOR, SR, SR, 2)
    case 4 => Move(-1)
    case 5 => Read(EOR, DP, DP, 2)
    case 6 => Modify(LSR, DP, 2)
    case 7 => Read(EOR, DPINDL, DPINDL, 2)
    case 8 => Push(PHA)
    case 9 => Read(EOR, IMMD, IMMD, 2)
    case 10 => ModifyA(LSR)
    case 11 => Push(PHK)
    case 12 => Jump(ABS)
    case 13 => Read(EOR, ABS, ABS, 3)
    case 14 => Modify(LSR, ABS, 3)
    case _ => Read(EOR, ABSL, ABSL, 4)
  }

  function Row5(low: int): Ins {
    match low
    case 0 => Branch(BVC)
    case 1 => Read(EOR, INDDPY, INDDPY, 2)
    case 2 => Read(EOR, DPIND, DPIND, 2)
    case 3 => Read(EOR, SRINDY, SRINDY, 2)
    case 4 => Move(1)
    case 5 => Read(EOR, DPX, DPX, 2)
    case 6 => Modify(LSR, DPX, 2)
    case 7 => Read(EOR, INDDPLY, INDDPLY, 2)
    case 8 => Register(CLI)
    case 9 => Read(EOR, ABSY, ABSY, 3)
    case 10 => Push(PHY)
    case 11 => Register(TCD)
    case 12 => Jump(ABSL)
    case 13 => Read(EOR, ABSX, ABSX, 3)
    case 14 => Modify(LSR, ABSX, 3)
    case _ => Read(EOR, ABSLX, ABSLX, 4)
  }

  function Row6(low: int): Ins {
    match low
    case 0 => Return
    case 1 => Read(ADC, DPINDX, DPINDX, 2)
    case 2 => Push(PER)
    case 3 => Read(ADC, SR, SR, 2)
    case 4 => Write(STZ, DP, 2)
    case 5 => Read(ADC, DP, DP, 2)
    case 6 => Modify(ROR, DP, 2)
    case 7 => Read(ADC, DPINDL, DPINDL, 2)
    case 8 => Pull(PLA)
    case 9 => Read(ADC, IMMD, IMMD, 2)
    case 10 => ModifyA(ROR)
    case 11 => ReturnLong
    case 12 => Jump(INDABS)
    case 13 => Read(ADC, ABS, ABS, 3)
    case 14 => Modify(ROR, ABS, 3)
    case _ => Read(ADC, ABSL, ABSL, 4)
  }

  function Row7(low: int): Ins {
    match low
    case 0 => Branch(BVS)
    case 1 => Read(ADC, INDDPY, INDDPY, 2)
    case 2 => Read(ADC, DPIND, DPIND, 2)
    case 3 => Read(ADC, SRINDY, SRINDY, 2)
    case 4 => Write(STZ, DPX, 2)
    case 5 => Read(ADC, DPINDX, DPX, 2)
    case 6 => Modify(ROR, DPX, 2)
    case 7 => Read(ADC, INDDPLY, INDDPLY, 2)
    case 8 => Register(SEI)
    case 9 => Read(ADC, ABSY, ABSY, 3)
    case 10 => Pull(PLY)
    case 11 => Register(TDC)
    case 12 => Jump(ABSINDX)
    case 13 => Read(ADC, ABSX, ABSX, 3)
    case 14 => Modify(ROR, ABSX, 3)
    case _ => Read(ADC, ABSLX, ABSLX, 4)
  }

  function Row8(low: int): Ins {
    match low
    case 0 => Branch(BRA)
    case 1 => Write(STA, DPINDX, 2)
    case 2 => BranchLong
    case 3 => Write(STA, SR, 2)
    case 4 => Write(STY, DP, 2)
    case 5 => Write(STA, DP, 2)
    case 6 => Write(STX, DP, 2)
    case 7 => Write(STA, DPINDL, 2)
    case 8 => Register(DEY)
    case 9 => Read(BIT, IMMD, IMMD, 2)
    case 10 => Register(TXA)
    case 11 => Push(PHB)
    case 12 => Write(STY, ABS, 3)
    case 13 => Write(STA, ABS, 3)
    case 14 => Write(STX, ABS, 3)
    case _ => Write(STA, ABSL, 4)
  }

  function Row9(low: int): Ins {
    match low
    case 0 => Branch(BCC)
    case 1 => Write(STA, INDDPY, 2)
    case 2 => Write(STA, DPIND, 2)
    case 3 => Write(STA, SRINDY, 2)
    case 4 => Write(STY, DPX, 2)
    case 5 => Write(STA, DPX, 2)
    case 6 => Write(STX, DPY, 2)
    case 7 => Write(STA, INDDPLY, 2)
    case 8 => Register(TYA)
    case 9 => Write(STA, ABSY, 3)
    case 10 => Register(TXS)
    case 11 => Register(TXY)
    case 12 => Write(STZ, ABS, 3)
    case 13 => Write(STA, ABSX, 3)
    case 14 => Write(STZ, ABSX, 3)
    case _ => Write(STA, ABSLX, 4)
  }

  function RowA(low: int): Ins {
    match low
    case 0 => Read(LDY, IMMD, IMMD, 2)
    case 1 => Read(LDA, DPINDX, DPINDX, 2)
    case 2 => Read(LDX, IMMD, IMMD, 2)
    case 3 => Read(LDA, SR, SR, 2)
    case 4 => Read(LDY, DP, DP, 2)
    case 5 => Read(LDA, DP, DP, 2)
    case 6 => Read(LDX, DP, DP, 2)
    case 7 => Read(LDA, DPINDL, DPINDL, 2)
    case 8 => Register(TAY)
    case 9 => Read(LDA, IMMD, IMMD, 2)
    case 10 => Register(TAX)
    case 11 => Pull(PLB)
    case 12 => Read(LDY, ABS, ABS, 3)
    case 13 => Read(LDA, ABS, ABS, 3)
    case 14 => Read(LDX, ABS, ABS, 3)
    case _ => Read(LDA, ABSL, ABSL, 4)
  }

  function RowB(low: int): Ins {
    match low
    case 0 => Branch(BCS)
    case 1 => Read(LDA, INDDPY, INDDPY, 2)
    case 2 => Read(LDA, DPIND, DPIND, 2)
    case 3 => Read(LDA, SRINDY, SRINDY, 2)
    case 4 => Read(LDY, DPX, DPX, 2)
    case 5 => Read(LDA, DPX, DPX, 2)
    case 6 => Read(LDX, DPY, DPY, 2)
    case 7 => Read(LDA, INDDPLY, INDDPLY, 2)
    case 8 => Register(CLV)
    case 9 => Read(LDA, ABSY, ABSY, 3)
    case 10 => Register(TSX)
    case 11 => Register(TYX)
    case 12 => Read(LDY, ABSX, ABSX, 3)
    case 13 => Read(LDA, ABSX, ABSX, 3)
    case 14 => Read(LDX, ABSY, ABSY, 3)
    case _ => Read(LDA, ABSLX, ABSLX, 4)
  }

  function RowC(low: int): Ins {
    match low
    case 0 => Read(CPY, IMMD, IMMD, 2)
    case 1 => Read(CMP, DPINDX, DPINDX, 2)
    case 2 => ResetBits
    case 3 => Read(CMP, SR, SR, 2)
    case 4 => Read(CPY, DP, DP, 2)
    case 5 => Read(CMP, DP, DP, 2)
    case 6 => Modify(DEC, DP, 2)
    case 7 => Read(CMP, DPINDL, DPINDL, 2)
    case 8 => Register(INY)
    case 9 => Read(CMP, IMMD, IMMD, 2)
    case 10 => Register(DEX)
    case 11 => Register(WAI)
    case 12 => Read(CPY, ABS, ABS, 3)
    case 13 => Read(CMP, ABS, ABS, 3)
    case 14 => Modify(DEC, ABS, 3)
    case _ => Read(CMP, ABSL, ABSL, 4)
  }

  function RowD(low: int): Ins {
    match low
    case 0 => Branch(BNE)
    case 1 => Read(CMP, INDDPY, INDDPY, 2)
    case 2 => Read(CMP, DPIND, DPIND, 2)
    case 3 => Read(CMP, SRINDY, SRINDY, 2)
    case 4 => Push(PEI)
    case 5 => Read(CMP, DPX, DPX, 2)
    case 6 => Modify(DEC, DPX, 2)
    case 7 => Read(CMP, INDDPLY, INDDPLY, 2)
    case 8 => Register(CLD)
    case 9 => Read(CMP, ABSY, ABSY, 3)
    case 10 => Push(PHX)
    case 11 => Register(STP)
    case 12 => Jump(ABSINDL)
    case 13 => Read(CMP, ABSX, ABSX, 3)
    case 14 => Modify(DEC, ABSX, 3)
    case _ => Read(CMP, ABSLX, ABSLX, 4)
  }

  function RowE(low: int): Ins {
    match low
    case 0 => Read(CPX, IMMD, IMMD, 2)
    case 1 => Read(SBC, DPINDX, DPINDX, 2)
    case 2 => SetBits
    case 3 => Read(SBC, SR, SR, 2)
    case 4 => Read(CPX, DP, DP, 2)
    case 5 => Read(SBC, DP, DP, 2)
    case 6 => Modify(INC, DP, 2)
    case 7 => Read(SBC, DPINDL, DPINDL, 2)
    case 8 => Register(INX)
    case 9 => Read(SBC, IMMD, IMMD, 2)
    case 10 => Register(NOP)
    case 11 => Register(XBA)
    case 12 => Read(CPX, ABS, ABS, 3)
    case 13 => Read(SBC, ABS, ABS, 3)
    case 14 => Modify(INC, ABS, 3)
    case _ => Read(SBC, ABSL, ABSL, 4)
  }

  function RowF(low: int): Ins {
    match low
    case 0 => Branch(BEQ)
    case 1 => Read(SBC, INDDPY, INDDPY, 2)
    case 2 => Read(SBC, DPIND, DPIND, 2)
    case 3 => Read(SBC, SRINDY, SRINDY, 2)
    case 4 => Push(PEA)
    case 5 => Read(SBC, DPX, DPX, 2)
    case 6 => Modify(INC, DPX, 2)
    case 7 => Read(SBC, INDDPLY, INDDPLY, 2)
    case 8 => Register(SED)
    case 9 => Read(SBC, ABSY, ABSY, 3)
    case 10 => Pull(PLX)
    case 11 => Register(XCE)
    case 12 => Call(ABSINDX)
    case 13 => Read(SBC, ABSX, ABSX, 3)
    case 14 => Modify(INC, ABSX, 3)
    case _ => Read(SBC, ABSLX, ABSLX, 4)
  }

  function Decode(op: int): Ins
  {
    var low := op % 16;
    match op / 16
    case 0 => Row0(low)
    case 1 => Row1(low)
    case 2 => Row2(low)
    case 3 => Row3(low)
    case 4 => Row4(low)
    case 5 => Row5(low)
    case 6 => Row6(low)
    case 7 => Row7(low)
    case 8 => Row8(low)
    case 9 => Row9(low)
    case 10 => RowA(low)
    case 11 => RowB(low)
    case 12 => RowC(low)
    case 13 => RowD(low)
    case 14 => RowE(low)
    case _ => RowF(low)
  }
}
