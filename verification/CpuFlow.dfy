/**
 The instructions on registers, on the stack and on the flow of control, interrupt entry, and block
 moves, as methods that change the processor and its memory in place.

 Each method is tied to the function of module Instructions that says what it does to the machine state.
 What it adds is what that state does not show: the result does not depend on the access flags of the
 cells or on whether accesses are recorded, and `Recorded` says which flags may be set meanwhile. What the
 functions themselves mean is the matter of the modules on arithmetic, inverses, the stack, calls,
 interrupts and block moves.
 */
module CpuFlow {
  import opened Words
  import opened Opcodes
  import opened Machine
  import opened Cpu
  import Data = CpuData
  import I = Instructions

  // Registers -------------------------------------------------------------------------------------

  method ChangeFlag(cpu: Processor, mem: array<Cell>, op: RegOp)
    requires mem.Length == MEM_SIZE
    requires op in {CLC, CLD, CLI, CLV, SEC, SED, SEI}
    modifies cpu`P, cpu`PC
    ensures mem[..] == old(mem[..])
    ensures View(cpu, mem) == I.Register(old(View(cpu, mem)), op)
  {
    hide Content, State.Advance;
    if op == CLC {
      cpu.P := cpu.P.(C := false);
    } else if op == CLD {
      cpu.P := cpu.P.(D := false);
    } else if op == CLI {
      cpu.P := cpu.P.(I := false);
    } else if op == CLV {
      cpu.P := cpu.P.(V := false);
    } else if op == SEC {
      cpu.P := cpu.P.(C := true);
    } else if op == SED {
      cpu.P := cpu.P.(D := true);
    } else {
      cpu.P := cpu.P.(I := true);
    }
    UpdatePc(cpu, mem, 1);
  }

  method SetX(cpu: Processor, mem: array<Cell>, v: word)
    requires mem.Length == MEM_SIZE
    modifies cpu`X, cpu`P
    ensures mem[..] == old(mem[..])
    ensures var s := old(View(cpu, mem));
            var x := I.ToIndex(s, v);
            View(cpu, mem) == s.(X := x, P := s.P.NZ(x, !s.P.Idx8()))
  {
    hide Content, Status.NZ, Low;
    if cpu.P.XB || cpu.P.E {
      cpu.X := Low(v);
      cpu.P := cpu.P.NZ(cpu.X, false);
    } else {
      cpu.X := v;
      cpu.P := cpu.P.NZ(cpu.X, true);
    }
  }

  method SetY(cpu: Processor, mem: array<Cell>, v: word)
    requires mem.Length == MEM_SIZE
    modifies cpu`Y, cpu`P
    ensures mem[..] == old(mem[..])
    ensures var s := old(View(cpu, mem));
            var y := I.ToIndex(s, v);
            View(cpu, mem) == s.(Y := y, P := s.P.NZ(y, !s.P.Idx8()))
  {
    hide Content, Status.NZ, Low;
    if cpu.P.XB || cpu.P.E {
      cpu.Y := Low(v);
      cpu.P := cpu.P.NZ(cpu.Y, false);
    } else {
      cpu.Y := v;
      cpu.P := cpu.P.NZ(cpu.Y, true);
    }
  }

  /** What goes into X or Y, before it is cut to the width of the register. */
  function NewIndex(op: RegOp, c: word, x: word, y: word, sp: word): word {
    match op
    case DEX => Wrap(x - 1)
    case INX => Wrap(x + 1)
    case DEY => Wrap(y - 1)
    case INY => Wrap(y + 1)
    case TAX | TAY => c
    case TSX => sp
    case TXY => x
    case _ => y
  }

  lemma RegisterX(s: State, op: RegOp)
    requires op in {DEX, INX, TAX, TSX, TYX}
    ensures var x := I.ToIndex(s, NewIndex(op, s.C, s.X, s.Y, s.SP));
            I.Register(s, op) == s.(X := x, P := s.P.NZ(x, !s.P.Idx8())).Advance(1)
  {
    hide State.Advance, Status.NZ, Wrap, I.ToIndex;
  }

  lemma RegisterY(s: State, op: RegOp)
    requires op in {DEY, INY, TAY, TXY}
    ensures var y := I.ToIndex(s, NewIndex(op, s.C, s.X, s.Y, s.SP));
            I.Register(s, op) == s.(Y := y, P := s.P.NZ(y, !s.P.Idx8())).Advance(1)
  {
    hide State.Advance, Status.NZ, Wrap, I.ToIndex;
  }

  method ChangeX(cpu: Processor, mem: array<Cell>, op: RegOp)
    requires mem.Length == MEM_SIZE
    requires op in {DEX, INX, TAX, TSX, TYX}
    modifies cpu`X, cpu`P, cpu`PC
    ensures mem[..] == old(mem[..])
    ensures View(cpu, mem) == I.Register(old(View(cpu, mem)), op)
  {
    hide Content, State.Advance, Status.NZ, I.ToIndex, I.Register, NewIndex;
    RegisterX(View(cpu, mem), op);
    SetX(cpu, mem, NewIndex(op, cpu.C, cpu.X, cpu.Y, cpu.SP));
    UpdatePc(cpu, mem, 1);
  }

  method ChangeY(cpu: Processor, mem: array<Cell>, op: RegOp)
    requires mem.Length == MEM_SIZE
    requires op in {DEY, INY, TAY, TXY}
    modifies cpu`Y, cpu`P, cpu`PC
    ensures mem[..] == old(mem[..])
    ensures View(cpu, mem) == I.Register(old(View(cpu, mem)), op)
  {
    hide Content, State.Advance, Status.NZ, I.ToIndex, I.Register, NewIndex;
    RegisterY(View(cpu, mem), op);
    SetY(cpu, mem, NewIndex(op, cpu.C, cpu.X, cpu.Y, cpu.SP));
    UpdatePc(cpu, mem, 1);
  }

  /** TXA and TYA. */
  method IndexToA(cpu: Processor, mem: array<Cell>, index: word)
    requires mem.Length == MEM_SIZE
    modifies cpu`C, cpu`P
    ensures mem[..] == old(mem[..])
    ensures View(cpu, mem) == I.IndexToA(old(View(cpu, mem)), index)
  {
    hide Content, WithLow, Low, Status.NZ;
    if cpu.P.M || cpu.P.E {
      cpu.C := WithLow(cpu.C, Low(index));
      cpu.P := cpu.P.NZ(cpu.C, false);
    } else {
      cpu.C := if cpu.P.XB && !cpu.P.M then Low(index) else index;
      cpu.P := cpu.P.NZ(cpu.C, true);
    }
  }

  /** TXA and TYA. */
  method TransferToA(cpu: Processor, mem: array<Cell>, op: RegOp)
    requires mem.Length == MEM_SIZE
    requires op in {TXA, TYA}
    modifies cpu`C, cpu`P, cpu`PC
    ensures mem[..] == old(mem[..])
    ensures View(cpu, mem) == I.Register(old(View(cpu, mem)), op)
  {
    hide Content, State.Advance, I.IndexToA;
    IndexToA(cpu, mem, if op == TXA then cpu.X else cpu.Y);
    UpdatePc(cpu, mem, 1);
  }

  /** TDC, TSC and XBA. */
  method ChangeC(cpu: Processor, mem: array<Cell>, op: RegOp)
    requires mem.Length == MEM_SIZE
    requires op in {TDC, TSC, XBA}
    modifies cpu`C, cpu`P, cpu`PC
    ensures mem[..] == old(mem[..])
    ensures View(cpu, mem) == I.Register(old(View(cpu, mem)), op)
  {
    hide Content, State.Advance, State.SetSp, Status.NZ, Low, High, Wrap;
    hide I.ToIndex, I.ModifyA, I.IndexToA, I.ExchangeCE;
    cpu.C := if op == TDC then cpu.D else if op == XBA then Pair(High(cpu.C), Low(cpu.C))
             else if cpu.P.E then 0x100 + Low(cpu.SP) else cpu.SP;
    cpu.P := cpu.P.NZ(cpu.C, op != XBA);
    UpdatePc(cpu, mem, 1);
  }

  lemma LowByte(w: word)
    ensures 0 <= Low(w) < 0x100
  {
  }

  method ExchangeCE(cpu: Processor, mem: array<Cell>)
    requires mem.Length == MEM_SIZE
    modifies cpu`X, cpu`Y, cpu`SP, cpu`P
    ensures mem[..] == old(mem[..])
    ensures View(cpu, mem) == I.ExchangeCE(old(View(cpu, mem)))
  {
    hide Content, Low;
    LowByte(cpu.SP);
    if cpu.P.C {
      cpu.P := cpu.P.(E := true, C := cpu.P.E, M := true);
      cpu.X, cpu.Y, cpu.SP := Low(cpu.X), Low(cpu.Y), 0x100 + Low(cpu.SP);
    } else {
      cpu.P := cpu.P.(E := false, C := cpu.P.E, M := true, XB := true);
    }
  }

  /** TCS and TXS. */
  method ChangeSp(cpu: Processor, mem: array<Cell>, op: RegOp)
    requires mem.Length == MEM_SIZE
    requires op in {TCS, TXS}
    modifies cpu`SP, cpu`PC
    ensures mem[..] == old(mem[..])
    ensures View(cpu, mem) == I.Register(old(View(cpu, mem)), op)
  {
    hide Content, State.Advance, Status.NZ;
    hide I.ToIndex, I.ModifyA, I.IndexToA, I.ExchangeCE;
    if op == TCS {
      cpu.SP := if cpu.P.E then 0x100 + Low(cpu.C) else cpu.C;
    } else {
      cpu.SP := if cpu.P.E then 0x100 + Low(cpu.X) else if cpu.P.XB then Low(cpu.X) else cpu.X;
    }
    UpdatePc(cpu, mem, 1);
  }

  method TransferToD(cpu: Processor, mem: array<Cell>)
    requires mem.Length == MEM_SIZE
    modifies cpu`D, cpu`P, cpu`PC
    ensures mem[..] == old(mem[..])
    ensures View(cpu, mem) == I.Register(old(View(cpu, mem)), TCD)
  {
    hide Content, State.Advance, Status.NZ;
    cpu.D := cpu.C;
    cpu.P := cpu.P.NZ(cpu.D, true);
    UpdatePc(cpu, mem, 1);
  }

  /** NOP, STP, WAI and WDM. */
  method ChangeOther(cpu: Processor, mem: array<Cell>, op: RegOp)
    requires mem.Length == MEM_SIZE
    requires op.NOP? || op.STP? || op.WAI? || op.WDM?
    modifies cpu`P, cpu`PC
    ensures mem[..] == old(mem[..])
    ensures View(cpu, mem) == I.Register(old(View(cpu, mem)), op)
  {
    hide Content, State.Advance, State.SetSp, Status.NZ, Low, High, Wrap;
    hide I.ToIndex, I.ModifyA, I.IndexToA, I.ExchangeCE;
    if op.STP? {
      cpu.P := cpu.P.(STP := true);
    } else if op.WDM? {
      UpdatePc(cpu, mem, 2);
    } else if op.NOP? || cpu.P.NMI || cpu.P.IRQ {
      UpdatePc(cpu, mem, 1);
    }
  }

  method Register(cpu: Processor, mem: array<Cell>, op: RegOp)
    requires mem.Length == MEM_SIZE
    modifies cpu
    ensures mem[..] == old(mem[..]) && cpu.setacc == old(cpu.setacc)
    ensures View(cpu, mem) == I.Register(old(View(cpu, mem)), op)
  {
    hide Content;
    match op {
      case CLC | CLD | CLI | CLV | SEC | SED | SEI => hide I.Register; ChangeFlag(cpu, mem, op);
      case DEX | INX | TAX | TSX | TYX => hide I.Register; ChangeX(cpu, mem, op);
      case DEY | INY | TAY | TXY => hide I.Register; ChangeY(cpu, mem, op);
      case TDC | TSC | XBA => hide I.Register; ChangeC(cpu, mem, op);
      case TXA | TYA => hide I.Register; TransferToA(cpu, mem, op);
      case XCE =>
        hide I.ExchangeCE;
        ExchangeCE(cpu, mem);
        UpdatePc(cpu, mem, 1);
      case DEA => hide I.ModifyA; Data.ModifyA(cpu, mem, DEC);
      case INA => hide I.ModifyA; Data.ModifyA(cpu, mem, INC);
      case TCS | TXS => hide I.Register; ChangeSp(cpu, mem, op);
      case TCD => hide I.Register; TransferToD(cpu, mem);
      case NOP | STP | WAI | WDM => hide I.Register; ChangeOther(cpu, mem, op);
    }
  }

  method MaskIndex(cpu: Processor, mem: array<Cell>)
    requires mem.Length == MEM_SIZE
    modifies cpu`X, cpu`Y
    ensures mem[..] == old(mem[..])
    ensures View(cpu, mem) == I.MaskIndex(old(View(cpu, mem)))
  {
    hide Low;
    if !cpu.P.E && cpu.P.XB {
      cpu.X := Low(cpu.X);
      cpu.Y := Low(cpu.Y);
    }
  }

  method ResetBits(cpu: Processor, mem: array<Cell>)
    requires mem.Length == MEM_SIZE
    modifies cpu`X, cpu`Y, cpu`P, cpu`PC, mem
    ensures View(cpu, mem) == I.ResetBits(old(View(cpu, mem)))
    ensures Recorded(old(mem[..]), mem[..], cpu.setacc)
  {
    hide Content, State.Advance, I.MaskIndex, State.Op8, Status.WithSr, I.Cleared, Recorded;
    var val := GetOperandByte(cpu, mem);
    cpu.P := I.Cleared(cpu.P, cpu.P.WithSr(val));
    MaskIndex(cpu, mem);
    UpdatePc(cpu, mem, 2);
  }

  method SetBits(cpu: Processor, mem: array<Cell>)
    requires mem.Length == MEM_SIZE
    modifies cpu`X, cpu`Y, cpu`P, cpu`PC, mem
    ensures View(cpu, mem) == I.SetBits(old(View(cpu, mem)))
    ensures Recorded(old(mem[..]), mem[..], cpu.setacc)
  {
    hide Content, State.Advance, I.MaskIndex, Status.WithSr, I.Raised, Recorded, At, BankWrap;
    BankWrapZero(cpu.PC, 1);
    var val := GetByte(mem, BankWrap(cpu.PC, 1), cpu.setacc);
    cpu.P := I.Raised(cpu.P, cpu.P.WithSr(val));
    MaskIndex(cpu, mem);
    UpdatePc(cpu, mem, 2);
  }

  // Stack -----------------------------------------------------------------------------------------

  /** PHA, PHX and PHY push a byte or a word, as wide as the register is. */
  method PushRegister(cpu: Processor, mem: array<Cell>, v: word, wide: bool)
    requires mem.Length == MEM_SIZE
    modifies cpu`SP, mem
    ensures var s := old(View(cpu, mem));
            View(cpu, mem) == if wide then Machine.PushWord(s, v, true) else Machine.PushByte(s, Low(v))
    ensures Recorded(old(mem[..]), mem[..], cpu.setacc)
  {
    hide Content, Machine.PushByte, Machine.PushWord, Recorded;
    if wide {
      Cpu.PushWord(cpu, mem, v, true);
    } else {
      Cpu.PushByte(cpu, mem, Low(v));
    }
  }

  /** PEA, PEI and PER push a word without regard for page 1. */
  method PushEffective(cpu: Processor, mem: array<Cell>, op: PushOp)
    requires mem.Length == MEM_SIZE && op in {PEA, PEI, PER}
    modifies cpu`SP, cpu`PC, mem
    ensures View(cpu, mem) == I.Push(old(View(cpu, mem)), op)
    ensures Recorded(old(mem[..]), mem[..], cpu.setacc)
  {
    hide Content, Machine.PushWord, State.Advance, State.Op8, State.Op16, At, WordInBank;
    var v: word;
    if op == PEA {
      v := GetOperandWord(cpu, mem);
    } else if op == PEI {
      var a := GetAddress(cpu, mem, DP);
      v := GetWordBankWrap(mem, a, cpu.setacc);
    } else {
      var displacement := GetOperandWord(cpu, mem);
      v := (cpu.PC + 3 + displacement) % 0x1_0000;
      AtZero(cpu.PC + 3 + displacement);
    }
    Cpu.PushWord(cpu, mem, v, false);
    UpdatePc(cpu, mem, if op == PEI then 2 else 3);
  }

  method Push(cpu: Processor, mem: array<Cell>, op: PushOp)
    requires mem.Length == MEM_SIZE
    modifies cpu`SP, cpu`PC, mem
    ensures View(cpu, mem) == I.Push(old(View(cpu, mem)), op)
    ensures Recorded(old(mem[..]), mem[..], cpu.setacc)
  {
    hide Content, Machine.PushWord, Machine.PushByte, Recorded, At, WordInBank;
    hide State.Advance, State.Op8, State.Op16, Status.Sr;
    if op in {PEA, PEI, PER} {
      PushEffective(cpu, mem, op);
    } else {
      if op == PHA {
        PushRegister(cpu, mem, cpu.C, !cpu.P.E && !cpu.P.M);
      } else if op == PHX {
        PushRegister(cpu, mem, cpu.X, !cpu.P.E && !cpu.P.XB);
      } else if op == PHY {
        PushRegister(cpu, mem, cpu.Y, !cpu.P.E && !cpu.P.XB);
      } else if op == PHD {
        Cpu.PushWord(cpu, mem, cpu.D, false);
      } else {
        Cpu.PushByte(cpu, mem, if op == PHB then cpu.DBR else if op == PHK then cpu.PBR else cpu.P.Sr());
      }
      UpdatePc(cpu, mem, 1);
    }
  }

  /** The value PLA, PLX and PLY take off the stack, as wide as the register is. */
  method PullRegister(cpu: Processor, mem: array<Cell>, wide: bool) returns (v: word)
    requires mem.Length == MEM_SIZE
    modifies cpu`SP, mem
    ensures var s := old(View(cpu, mem));
            && View(cpu, mem) == (if wide then DropWord(s, true) else DropByte(s))
            && v == (if wide then TopWord(s, true) else TopByte(s))
    ensures Recorded(old(mem[..]), mem[..], cpu.setacc)
  {
    hide Content, TopWord, TopByte, DropWord, DropByte, Recorded;
    if wide {
      v := PopWord(cpu, mem, true);
    } else {
      v := PopByte(cpu, mem);
    }
  }

  /** PLA, PLX and PLY. */
  method PullIndexOrA(cpu: Processor, mem: array<Cell>, op: PullOp)
    requires mem.Length == MEM_SIZE && op in {PLA, PLX, PLY}
    modifies cpu`SP, cpu`C, cpu`X, cpu`Y, cpu`P, cpu`PC, mem
    ensures View(cpu, mem) == I.Pull(old(View(cpu, mem)), op)
    ensures Recorded(old(mem[..]), mem[..], cpu.setacc)
  {
    hide Content, TopWord, TopByte, State.Advance, Status.NZ, WithLow, Recorded;
    var wide := if op == PLA then !cpu.P.E && !cpu.P.M else !cpu.P.E && !cpu.P.XB;
    var v := PullRegister(cpu, mem, wide);
    if op == PLA {
      cpu.C := if wide then v else WithLow(cpu.C, v);
    } else if op == PLX {
      cpu.X := v;
    } else {
      cpu.Y := v;
    }
    cpu.P := cpu.P.NZ(v, wide);
    UpdatePc(cpu, mem, 1);
  }

  method PullStatus(cpu: Processor, mem: array<Cell>)
    requires mem.Length == MEM_SIZE
    modifies cpu`SP, cpu`X, cpu`Y, cpu`P, cpu`PC, mem
    ensures View(cpu, mem) == I.Pull(old(View(cpu, mem)), PLP)
    ensures Recorded(old(mem[..]), mem[..], cpu.setacc)
  {
    hide Content, TopByte, State.Advance, Status.WithSr, Recorded;
    var val := PopByte(cpu, mem);
    if cpu.P.E {
      cpu.P := cpu.P.WithSr(val).(XB := true, M := true);
    } else {
      cpu.P := cpu.P.WithSr(val);
      MaskIndex(cpu, mem);
    }
    UpdatePc(cpu, mem, 1);
  }

  method Pull(cpu: Processor, mem: array<Cell>, op: PullOp)
    requires mem.Length == MEM_SIZE
    modifies cpu`SP, cpu`C, cpu`X, cpu`Y, cpu`D, cpu`DBR, cpu`P, cpu`PC, mem
    ensures View(cpu, mem) == I.Pull(old(View(cpu, mem)), op)
    ensures Recorded(old(mem[..]), mem[..], cpu.setacc)
  {
    hide Content, TopByte, TopWord, State.Advance, Status.NZ, Recorded;
    match op {
      case PLA | PLX | PLY => hide I.Pull; PullIndexOrA(cpu, mem, op);
      case PLP => hide I.Pull; PullStatus(cpu, mem);
      case PLB =>
        cpu.DBR := PopByte(cpu, mem);
        cpu.P := cpu.P.NZ(cpu.DBR, false);
        UpdatePc(cpu, mem, 1);
      case PLD =>
        cpu.D := PopWord(cpu, mem, false);
        cpu.P := cpu.P.NZ(cpu.D, true);
        UpdatePc(cpu, mem, 1);
    }
  }

  // Control flow ----------------------------------------------------------------------------------

  method Branch(cpu: Processor, mem: array<Cell>, c: Cond)
    requires mem.Length == MEM_SIZE
    modifies cpu`PC, mem
    ensures View(cpu, mem) == I.Branch(old(View(cpu, mem)), c)
    ensures Recorded(old(mem[..]), mem[..], cpu.setacc)
  {
    hide Content, State.Advance, Effective, I.Taken, Recorded;
    if I.Taken(cpu.P, c) {
      var target := GetRelative8(cpu, mem);
      cpu.PC := target % 0x1_0000;
    } else {
      UpdatePc(cpu, mem, 2);
      SelfRecorded(mem[..], cpu.setacc);
    }
  }

  method Jump(cpu: Processor, mem: array<Cell>, mode: Mode, a: addr)
    requires mem.Length == MEM_SIZE
    modifies cpu`PC, cpu`PBR
    ensures mem[..] == old(mem[..])
    ensures View(cpu, mem) == I.Jump(old(View(cpu, mem)), mode, a)
  {
    hide Content;
    if mode == ABSL {
      cpu.PBR := a / 0x1_0000;
    }
    cpu.PC := a % 0x1_0000;
  }

  method Call(cpu: Processor, mem: array<Cell>, cycles: nat, a: addr)
    requires mem.Length == MEM_SIZE
    modifies cpu`SP, cpu`PC, cpu`cycles, mem
    ensures View(cpu, mem) == I.Call(old(View(cpu, mem)), cycles, a)
    ensures Recorded(old(mem[..]), mem[..], cpu.setacc)
  {
    hide Content, Machine.PushWord, At, BankWrap, Recorded;
    BankWrapZero(cpu.PC, 2);
    AtZero(cpu.PC + 2);
    Cpu.PushWord(cpu, mem, BankWrap(cpu.PC, 2), true);
    cpu.PC, cpu.cycles := a % 0x1_0000, Later(cpu.cycles, cycles);
  }

  method CallLong(cpu: Processor, mem: array<Cell>, a: addr)
    requires mem.Length == MEM_SIZE
    modifies cpu`SP, cpu`PC, cpu`PBR, cpu`cycles, mem
    ensures View(cpu, mem) == I.CallLong(old(View(cpu, mem)), a)
    ensures Recorded(old(mem[..]), mem[..], cpu.setacc)
  {
    hide Content, Machine.PushLong, At, BankWrap, Recorded;
    BankWrapAt(cpu.PBR, cpu.PC, 3);
    Cpu.PushLong(cpu, mem, BankWrap(EffectivePc(cpu), 3));
    cpu.PBR := a / 0x1_0000;
    cpu.PC, cpu.cycles := a % 0x1_0000, Later(cpu.cycles, 8);
  }

  method Return(cpu: Processor, mem: array<Cell>)
    requires mem.Length == MEM_SIZE
    modifies cpu`SP, cpu`PC, cpu`cycles, mem
    ensures View(cpu, mem) == I.Return(old(View(cpu, mem)))
    ensures Recorded(old(mem[..]), mem[..], cpu.setacc)
  {
    hide Content, TopWord, Recorded;
    var a: int := PopWord(cpu, mem, true);
    cpu.PC, cpu.cycles := (a + 1) % 0x1_0000, Later(cpu.cycles, 6);
  }

  method ReturnLong(cpu: Processor, mem: array<Cell>)
    requires mem.Length == MEM_SIZE
    modifies cpu`SP, cpu`PC, cpu`PBR, cpu`cycles, mem
    ensures View(cpu, mem) == I.ReturnLong(old(View(cpu, mem)))
    ensures Recorded(old(mem[..]), mem[..], cpu.setacc)
  {
    hide Content, TopLong, Recorded;
    var a: int := PopLong(cpu, mem);
    cpu.PC, cpu.PBR := (a % 0x1_0000 + 1) % 0x1_0000, a / 0x1_0000;
    cpu.cycles := Later(cpu.cycles, 6);
  }

  // Interrupts ------------------------------------------------------------------------------------

  /** Pushes the return address and SR, and jumps through a vector; `sr` is the SR pushed in emulation mode. */
  method Enter(cpu: Processor, mem: array<Cell>, sr: Status, vector: word)
    requires mem.Length == MEM_SIZE && vector < 0xffff
    modifies cpu`SP, cpu`PC, cpu`PBR, cpu`P, cpu`cycles, mem
    ensures View(cpu, mem) == I.Enter(old(View(cpu, mem)), sr, vector)
    ensures Recorded(old(mem[..]), mem[..], cpu.setacc)
  {
    hide Content, Machine.PushByte, Machine.PushWord, Machine.PushLong, Status.Sr, At;
    SaveState(cpu, mem, sr);
    var target := GetWord(mem, vector, cpu.setacc);
    cpu.PC, cpu.PBR, cpu.P := target, 0, cpu.P.(D := false);
    cpu.cycles := Later(cpu.cycles, if cpu.P.E then 7 else 8);
  }

  method SaveState(cpu: Processor, mem: array<Cell>, sr: Status)
    requires mem.Length == MEM_SIZE
    modifies cpu`SP, mem
    ensures var s := old(View(cpu, mem));
            View(cpu, mem) == if s.P.E then Machine.PushByte(Machine.PushWord(s, s.PC, true), sr.Sr())
                              else Machine.PushByte(Machine.PushLong(s, At(s.PBR, s.PC)), s.P.Sr())
    ensures cpu.P == old(cpu.P)
    ensures Recorded(old(mem[..]), mem[..], cpu.setacc)
  {
    hide Content, Machine.PushByte, Machine.PushWord, Machine.PushLong, Status.Sr, At;
    if cpu.P.E {
      Cpu.PushWord(cpu, mem, cpu.PC, true);
      Cpu.PushByte(cpu, mem, sr.Sr());
    } else {
      Cpu.PushLong(cpu, mem, EffectivePc(cpu));
      Cpu.PushByte(cpu, mem, cpu.P.Sr());
    }
  }

  method Break(cpu: Processor, mem: array<Cell>)
    requires mem.Length == MEM_SIZE
    modifies cpu`SP, cpu`PC, cpu`PBR, cpu`P, cpu`cycles, mem
    ensures View(cpu, mem) == I.Break(old(View(cpu, mem)))
    ensures Recorded(old(mem[..]), mem[..], cpu.setacc)
  {
    hide Content, I.Enter, State.Advance, Recorded;
    UpdatePc(cpu, mem, 2);
    Enter(cpu, mem, cpu.P.(XB := true), if cpu.P.E then 0xfffe else 0xffe6);
    cpu.P := cpu.P.(I := true);
  }

  method Coprocessor(cpu: Processor, mem: array<Cell>)
    requires mem.Length == MEM_SIZE
    modifies cpu`SP, cpu`PC, cpu`PBR, cpu`P, cpu`cycles, mem
    ensures View(cpu, mem) == I.Coprocessor(old(View(cpu, mem)))
    ensures Recorded(old(mem[..]), mem[..], cpu.setacc)
  {
    hide Content, I.Enter, State.Advance, State.Op8, WordAt;
    var immd: int := GetOperandByte(cpu, mem);
    UpdatePc(cpu, mem, 2);
    Enter(cpu, mem, cpu.P.(XB := false), if cpu.P.E then 0xfff4 else 0xffe4);
    cpu.P := cpu.P.(I := true);
    if cpu.copVect {
      cpu.PC := GetWordQuietly(cpu, mem, cpu.PC + immd * 2 % 0x100);
    }
  }

  /** A read the processor itself would not make is never recorded. */
  method GetWordQuietly(cpu: Processor, mem: array<Cell>, a: addr) returns (v: word)
    requires mem.Length == MEM_SIZE
    modifies mem
    ensures View(cpu, mem) == old(View(cpu, mem)) && v == WordAt(View(cpu, mem).m, a)
    ensures Recorded(old(mem[..]), mem[..], cpu.setacc)
  {
    v := GetWord(mem, a, false);
    RecordedQuietly(old(mem[..]), mem[..], cpu.setacc);
  }

  method ReturnFromInterrupt(cpu: Processor, mem: array<Cell>)
    requires mem.Length == MEM_SIZE
    modifies cpu`SP, cpu`X, cpu`Y, cpu`PC, cpu`PBR, cpu`P, cpu`cycles, mem
    ensures View(cpu, mem) == I.ReturnFromInterrupt(old(View(cpu, mem)))
    ensures Recorded(old(mem[..]), mem[..], cpu.setacc)
  {
    hide Content, TopByte, WordAt, Triple, At, Status.WithSr;
    var sr := cpu.P;
    var val := PopByte(cpu, mem);
    if cpu.P.E {
      PopEmulated(cpu, mem, cpu.P.WithSr(val).(XB := sr.XB, M := sr.M));
    } else {
      PopNative(cpu, mem, cpu.P.WithSr(val));
    }
    cpu.cycles := Later(cpu.cycles, if cpu.P.E then 6 else 7);
  }

  method PopEmulated(cpu: Processor, mem: array<Cell>, p: Status)
    requires mem.Length == MEM_SIZE && cpu.P.E && p.E
    modifies cpu`SP, cpu`PC, cpu`P, mem
    ensures var t := old(View(cpu, mem));
            View(cpu, mem) == I.Goto(DropWord(t, true), TopWord(t, true)).(P := p)
    ensures Recorded(old(mem[..]), mem[..], cpu.setacc)
  {
    hide Content, TopByte, Recorded;
    var pc := PopWord(cpu, mem, true);
    cpu.PC := pc;
    cpu.P := p;
  }

  method PopNative(cpu: Processor, mem: array<Cell>, p: Status)
    requires mem.Length == MEM_SIZE && !cpu.P.E && !p.E
    modifies cpu`SP, cpu`X, cpu`Y, cpu`PC, cpu`PBR, cpu`P, mem
    ensures var t := old(View(cpu, mem));
            View(cpu, mem) == I.Goto(I.MaskIndex(DropLong(t).(P := p)), TopLong(t)).(PBR := TopLong(t) / 0x1_0000)
    ensures Recorded(old(mem[..]), mem[..], cpu.setacc)
  {
    hide Content, TopLong, Recorded, Low;
    var data := PopLong(cpu, mem);
    cpu.P := p;
    MaskIndex(cpu, mem);
    cpu.PBR := data / 0x1_0000;
    cpu.PC := data % 0x1_0000;
  }

  // Block moves -----------------------------------------------------------------------------------

  /** MVN (`dir` is 1) and MVP (`dir` is -1) move one byte each time they are executed. */
  method MoveByte(cpu: Processor, mem: array<Cell>, dir: int)
    requires mem.Length == MEM_SIZE
    modifies cpu`C, cpu`X, cpu`Y, cpu`DBR, cpu`PC, cpu`cycles, mem
    ensures View(cpu, mem) == I.MoveByte(old(View(cpu, mem)), dir)
    ensures Recorded(old(mem[..]), mem[..], cpu.setacc)
  {
    hide Content, At, BankWrap, State.Advance, Wrap, Later;
    var src, dst := MoveBanks(cpu, mem);
    var tmp := GetByte(mem, At(src, cpu.X), cpu.setacc);
    SetByte(mem, At(dst, cpu.Y), tmp, cpu.setacc);
    cpu.Y := Wrap(cpu.Y + dir);
    cpu.X := Wrap(cpu.X + dir);
    cpu.DBR := dst;
    cpu.C := Wrap(cpu.C - 1);
    cpu.cycles := Later(cpu.cycles, 7);
    if cpu.C == 0xffff {
      UpdatePc(cpu, mem, 3);
    }
  }

  method MoveBanks(cpu: Processor, mem: array<Cell>) returns (src: byte, dst: byte)
    requires mem.Length == MEM_SIZE
    modifies mem
    ensures View(cpu, mem) == old(View(cpu, mem))
    ensures dst == View(cpu, mem).Op8() && src == View(cpu, mem).m[At(cpu.PBR, cpu.PC + 2)]
    ensures Recorded(old(mem[..]), mem[..], cpu.setacc)
  {
    hide Content, At, BankWrap;
    var operand := GetAddress(cpu, mem, IMMD);
    dst := GetByte(mem, operand, cpu.setacc);
    BankWrapAt(cpu.PBR, cpu.PC + 1, 1);
    src := GetByte(mem, BankWrap(operand, 1), cpu.setacc);
  }
}
