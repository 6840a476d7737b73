/**
 The instructions that work on memory operands, on registers and accumulator, as methods that change
 the processor and its memory in place.

 Each method is tied to the function of module Instructions that says what it does to the machine state.
 What it adds is what that state does not show: the result does not depend on the access flags of the
 cells or on whether accesses are recorded, and `Recorded` says which flags may be set meanwhile. What the
 functions themselves mean is the matter of the modules on arithmetic, inverses, the stack, calls,
 interrupts and block moves.
 */
module CpuData {
  import opened Words
  import opened Bits
  import opened Opcodes
  import opened Machine
  import opened Cpu
  import A = Arith
  import I = Instructions

  /** The cell an operand ends in. */
  function LastCell(a: addr, wide: bool, inBank: bool): addr {
    if !wide then a else if inBank then BankWrap(a, 1) else Linear(a + 1)
  }

  /** The operand at `a`: a byte, a word inside its bank, or a word that may cross into the next bank. */
  method FetchData(cpu: Processor, mem: array<Cell>, a: addr, wide: bool, inBank: bool) returns (v: word)
    requires mem.Length == MEM_SIZE
    modifies mem
    ensures View(cpu, mem) == old(View(cpu, mem)) && v == I.Fetch(View(cpu, mem).m, a, wide, inBank)
    ensures wide || v < 0x100
    ensures Recorded(old(mem[..]), mem[..], cpu.setacc)
    ensures cpu.setacc ==> mem[a].r && mem[LastCell(a, wide, inBank)].r
  {
    if !wide {
      v := GetByte(mem, a, cpu.setacc);
    } else if inBank {
      v := GetWordBankWrap(mem, a, cpu.setacc);
    } else {
      v := GetWord(mem, a, cpu.setacc);
    }
  }

  method StoreData(cpu: Processor, mem: array<Cell>, a: addr, v: word, wide: bool, inBank: bool)
    requires mem.Length == MEM_SIZE
    modifies mem
    ensures View(cpu, mem) == old(View(cpu, mem)).(m := I.Store(old(View(cpu, mem)).m, a, v, wide, inBank))
    ensures Recorded(old(mem[..]), mem[..], cpu.setacc)
  {
    if !wide {
      SetByte(mem, a, Low(v), cpu.setacc);
    } else if inBank {
      SetWordBankWrap(mem, a, v, cpu.setacc);
    } else {
      SetWord(mem, a, v, cpu.setacc);
    }
  }

  // Addition and subtraction --------------------------------------------------------------------

  method ApplyAdd(cpu: Processor, mem: array<Cell>, v: word, wide: bool)
    requires mem.Length == MEM_SIZE && (wide || v < 0x100)
    modifies cpu`C, cpu`P
    ensures mem[..] == old(mem[..])
    ensures View(cpu, mem) == I.AddTo(old(View(cpu, mem)), v, wide)
  {
    hide A.RawSum, A.Kept, A.Carried, Content, Low, WithLow;
    var sum: A.Sum;
    if wide {
      sum := A.RawSum(cpu.P.D, wide, cpu.C, v, cpu.P.C);
      cpu.C := A.Kept(wide, sum.al);
    } else {
      sum := A.RawSum(cpu.P.D, wide, Low(cpu.C), v, cpu.P.C);
      cpu.C := WithLow(cpu.C, A.Kept(wide, sum.al));
    }
    cpu.P := cpu.P.(V := sum.v, C := A.Carried(wide, sum.al)).NZ(A.Kept(wide, sum.al), wide);
  }

  method ApplySubtract(cpu: Processor, mem: array<Cell>, v: word, wide: bool)
    requires mem.Length == MEM_SIZE && (wide || v < 0x100)
    modifies cpu`C, cpu`P
    ensures mem[..] == old(mem[..])
    ensures View(cpu, mem) == I.SubtractFrom(old(View(cpu, mem)), v, wide)
  {
    hide A.RawDifference, A.Kept, Content, Low, WithLow, I.Borrowed, I.ArithmeticFlags;
    var a := if wide then cpu.C else Low(cpu.C);
    var overflow, carry := Borrow(a, v, cpu.P.C, wide);
    var out := A.Kept(wide, A.RawDifference(cpu.P.D, wide, a, v, cpu.P.C));
    cpu.C := if wide then out else WithLow(cpu.C, out);
    FlagsTogether(cpu.P, out, overflow, carry, wide);
    cpu.P := cpu.P.(V := overflow, C := carry).NZ(out, wide);
  }

  /** V and C of a subtraction, from the binary difference. */
  method Borrow(a: word, v: word, cin: bool, wide: bool) returns (overflow: bool, carry: bool)
    requires wide || (a < 0x100 && v < 0x100)
    ensures (overflow, carry) == I.Borrowed(a, v, cin, wide)
  {
    hide A.Borrow8, A.Borrow16, A.OutOf8, A.OutOf16;
    if wide {
      var alb := A.Borrow16(a, v, cin);
      overflow, carry := A.OutOf16(alb), alb >= 0x1_0000;
    } else {
      var alb := A.Borrow8(a, v, cin);
      overflow, carry := A.OutOf8(alb), alb >= 0x100;
    }
  }

  lemma FlagsTogether(p: Status, out: word, v: bool, c: bool, wide: bool)
    ensures p.(V := v, C := c).NZ(out, wide) == I.ArithmeticFlags(p, out, v, c, wide)
  {
  }

  method ApplyLogic(cpu: Processor, mem: array<Cell>, op: Logic, v: word, wide: bool)
    requires mem.Length == MEM_SIZE && (wide || v < 0x100)
    modifies cpu`C, cpu`P
    ensures mem[..] == old(mem[..])
    ensures View(cpu, mem) == I.Combine(old(View(cpu, mem)), op, v, wide)
  {
    hide Content, Bitwise;
    if wide {
      cpu.C := Logic16(op, cpu.C, v);
    } else {
      cpu.C := WithLow(cpu.C, Logic8(op, Low(cpu.C), v));
    }
    cpu.P := cpu.P.NZ(cpu.C, wide);
  }

  /** As the original does, the carry is found by asking whether the difference wrapped around. */
  method Compare(p: Status, a: word, v: word, wide: bool) returns (q: Status)
    requires wide || (a < 0x100 && v < 0x100)
    ensures q == I.Compared(p, a, v, wide)
  {
    var res: word := if wide then (a - v) % 0x1_0000 else (a - v) % 0x100;
    CarryOfDifference(a, v, wide);
    hide Status.NZ;
    q := p.NZ(res, wide).(C := !(a < res));
  }

  lemma CarryOfDifference(a: word, v: word, wide: bool)
    requires wide || (a < 0x100 && v < 0x100)
    ensures !(a < (if wide then (a - v) % 0x1_0000 else (a - v) % 0x100)) <==> a >= v
  {
  }

  method ApplyBit(cpu: Processor, mem: array<Cell>, v: word, mode: Mode, wide: bool)
    requires mem.Length == MEM_SIZE && (wide || v < 0x100)
    modifies cpu`P
    ensures mem[..] == old(mem[..])
    ensures View(cpu, mem) == old(View(cpu, mem)).(P := I.TestBits(old(View(cpu, mem)), v, mode, wide))
  {
    hide Content, Bitwise, Low, Logic8, Logic16, I.SecondBit;
    if wide {
      cpu.P := cpu.P.(Z := Logic16(And, cpu.C, v) == 0);
      if mode != IMMD {
        cpu.P := cpu.P.(N := v >= 0x8000, V := I.SecondBit(v, wide));
      }
    } else {
      cpu.P := cpu.P.(Z := Logic8(And, Low(cpu.C), v) == 0);
      if mode != IMMD {
        cpu.P := cpu.P.(N := v >= 0x80, V := I.SecondBit(v, wide));
      }
    }
  }

  /** What an operand does to the registers and flags. */
  method Apply(cpu: Processor, mem: array<Cell>, op: ReadOp, v: word, mode: Mode, wide: bool)
    requires mem.Length == MEM_SIZE
    requires wide == I.Wide(cpu.P, op) && (wide || v < 0x100)
    modifies cpu`C, cpu`X, cpu`Y, cpu`P
    ensures mem[..] == old(mem[..])
    ensures View(cpu, mem) == I.Reading(old(View(cpu, mem)), op, v, mode)
  {
    hide Content, Low, WithLow, I.AddTo, I.SubtractFrom, I.Combine, I.TestBits, I.Compared, Status.NZ;
    match op {
      case ADC => ApplyAdd(cpu, mem, v, wide);
      case SBC => ApplySubtract(cpu, mem, v, wide);
      case AND => ApplyLogic(cpu, mem, And, v, wide);
      case ORA => ApplyLogic(cpu, mem, Or, v, wide);
      case EOR => ApplyLogic(cpu, mem, Xor, v, wide);
      case BIT =>
        if I.TestMode(mode) {
          ApplyBit(cpu, mem, v, mode, wide);
        }
      case CMP => cpu.P := Compare(cpu.P, I.Narrowed(cpu.C, wide), v, wide);
      case CPX => cpu.P := Compare(cpu.P, I.Narrowed(cpu.X, wide), v, wide);
      case CPY => cpu.P := Compare(cpu.P, I.Narrowed(cpu.Y, wide), v, wide);
      case LDA =>
        cpu.C := if wide then v else WithLow(cpu.C, v);
        cpu.P := cpu.P.NZ(v, wide);
      case LDX =>
        cpu.X := v;
        cpu.P := cpu.P.NZ(v, wide);
      case LDY =>
        cpu.Y := v;
        cpu.P := cpu.P.NZ(v, wide);
    }
  }

  method RejectRead(cpu: Processor, mem: array<Cell>, op: ReadOp)
    requires mem.Length == MEM_SIZE
    modifies cpu`P
    ensures mem[..] == old(mem[..])
    ensures View(cpu, mem) == I.Rejected(old(View(cpu, mem)), op)
  {
    hide Content;
    cpu.P := cpu.P.(CRASH := true);
    if op in {EOR, LDA, ORA} {
      cpu.P := cpu.P.NZ(cpu.C, !cpu.P.E && !cpu.P.M);
    }
  }

  method ReadData(cpu: Processor, mem: array<Cell>, op: ReadOp, mode: Mode, a: addr)
    requires mem.Length == MEM_SIZE && I.Knows(op, mode)
    modifies cpu`C, cpu`X, cpu`Y, cpu`P, mem
    ensures var s := old(View(cpu, mem));
            var wide := I.Wide(s.P, op);
            var inBank := I.StaysInBank(mode) && (op.LDX? || !mode.DPY?);
            && View(cpu, mem) == I.Reading(s, op, I.Fetch(s.m, a, wide, inBank), mode)
            && (cpu.setacc ==> mem[a].r && mem[LastCell(a, wide, inBank)].r)
    ensures Recorded(old(mem[..]), mem[..], cpu.setacc)
  {
    hide Content, I.Reading, I.Fetch, I.Knows, I.StaysInBank, I.Wide, Recorded, LastCell;
    var wide := I.Wide(cpu.P, op);
    var v := FetchData(cpu, mem, a, wide, I.StaysInBank(mode) && (op.LDX? || !mode.DPY?));
    Apply(cpu, mem, op, v, mode, wide);
  }

  /** In a mode the operation knows. */
  method ReadKnown(cpu: Processor, mem: array<Cell>, op: ReadOp, size: nat, mode: Mode, a: addr)
    requires mem.Length == MEM_SIZE && I.Knows(op, mode)
    modifies cpu`C, cpu`X, cpu`Y, cpu`P, cpu`PC, mem
    ensures View(cpu, mem) == I.Read(old(View(cpu, mem)), op, mode, a, size)
    ensures Recorded(old(mem[..]), mem[..], cpu.setacc)
    ensures cpu.setacc ==>
              mem[a].r && mem[LastCell(a, old(I.Wide(cpu.P, op)), I.StaysInBank(mode) && (op.LDX? || !mode.DPY?))].r
  {
    hide Content, LastCell, I.Reading, I.Rejected, I.Fetch, State.Advance, I.Knows, I.StaysInBank, I.Wide, Recorded;
    var wide := I.Wide(cpu.P, op);
    ReadData(cpu, mem, op, mode, a);
    UpdatePc(cpu, mem, I.Length(size, mode, wide));
  }

  /** In any other. */
  method ReadUnknown(cpu: Processor, mem: array<Cell>, op: ReadOp, size: nat, mode: Mode, a: addr)
    requires mem.Length == MEM_SIZE && !I.Knows(op, mode)
    modifies cpu`P, cpu`PC, mem
    ensures View(cpu, mem) == I.Read(old(View(cpu, mem)), op, mode, a, size)
    ensures Recorded(old(mem[..]), mem[..], cpu.setacc)
  {
    hide Content, I.Reading, I.Rejected, I.Fetch, State.Advance, I.Knows, I.StaysInBank, I.Wide, Recorded;
    var wide := I.Wide(cpu.P, op);
    RejectRead(cpu, mem, op);
    SelfRecorded(mem[..], cpu.setacc);
    UpdatePc(cpu, mem, I.Length(size, mode, wide));
  }

  /** ADC, AND, BIT, CMP, CPX, CPY, EOR, LDA, LDX, LDY, ORA and SBC. */
  method Read(cpu: Processor, mem: array<Cell>, op: ReadOp, size: nat, mode: Mode, a: addr)
    requires mem.Length == MEM_SIZE
    modifies cpu`C, cpu`X, cpu`Y, cpu`P, cpu`PC, mem
    ensures View(cpu, mem) == I.Read(old(View(cpu, mem)), op, mode, a, size)
    ensures Recorded(old(mem[..]), mem[..], cpu.setacc)
    ensures cpu.setacc && I.Knows(op, mode) ==>
              mem[a].r && mem[LastCell(a, old(I.Wide(cpu.P, op)), I.StaysInBank(mode) && (op.LDX? || !mode.DPY?))].r
  {
    hide Content, View, LastCell, I.Read, I.Knows, I.StaysInBank, I.Wide, Recorded;
    if I.Knows(op, mode) {
      ReadKnown(cpu, mem, op, size, mode, a);
    } else {
      ReadUnknown(cpu, mem, op, size, mode, a);
    }
  }

  // Stores ----------------------------------------------------------------------------------------

  /** STX, STY and STZ write their second byte without wrapping at the end of memory. */
  method StoreBytes(cpu: Processor, mem: array<Cell>, a: addr, v: word, wide: bool, inBank: bool)
    requires mem.Length == MEM_SIZE
    requires wide && !inBank ==> a + 1 < MEM_SIZE
    modifies mem
    ensures var s := old(View(cpu, mem));
            View(cpu, mem) == s.(m := if wide && !inBank then Poke(s.m[a := Low(v)], a + 1, High(v))
                                      else I.Store(s.m, a, v, wide, inBank))
    ensures Recorded(old(mem[..]), mem[..], cpu.setacc)
  {
    hide Content;
    SetByte(mem, a, Low(v), cpu.setacc);
    if wide {
      if inBank {
        SetByte(mem, BankWrap(a, 1), High(v), cpu.setacc);
      } else {
        SetByte(mem, a + 1, High(v), cpu.setacc);
      }
    }
  }

  method StoreRegister(cpu: Processor, mem: array<Cell>, op: WriteOp, mode: Mode, a: addr)
    requires mem.Length == MEM_SIZE && I.KnowsStore(op, mode)
    requires !I.WritesOutside(View(cpu, mem), op, mode, a)
    modifies mem
    ensures View(cpu, mem) == I.Kept(old(View(cpu, mem)), op, mode, a)
    ensures Recorded(old(mem[..]), mem[..], cpu.setacc)
  {
    hide Content, I.Store, Poke, I.KnowsStore, I.StaysInBank, Recorded;
    match op {
      case STA => StoreData(cpu, mem, a, cpu.C, !cpu.P.E && !cpu.P.M, I.StaysInBank(mode));
      case STX => StoreBytes(cpu, mem, a, cpu.X, !cpu.P.E && !cpu.P.XB, I.StaysInBank(mode));
      case STY => StoreBytes(cpu, mem, a, cpu.Y, !cpu.P.E && !cpu.P.XB, I.StaysInBank(mode));
      case STZ => StoreBytes(cpu, mem, a, 0, !cpu.P.M, I.StaysInBank(mode));
    }
  }

  /** STA, STX, STY and STZ. */
  method Write(cpu: Processor, mem: array<Cell>, op: WriteOp, size: nat, mode: Mode, a: addr)
    requires mem.Length == MEM_SIZE
    requires !I.WritesOutside(View(cpu, mem), op, mode, a)
    modifies cpu`P, cpu`PC, mem
    ensures View(cpu, mem) == I.Write(old(View(cpu, mem)), op, mode, a, size)
    ensures Recorded(old(mem[..]), mem[..], cpu.setacc)
  {
    hide Content, I.Kept, I.KnowsStore, State.Advance, Recorded, I.WritesOutside;
    if I.KnowsStore(op, mode) {
      StoreRegister(cpu, mem, op, mode, a);
    } else {
      cpu.P := cpu.P.(CRASH := true);
      SelfRecorded(mem[..], cpu.setacc);
    }
    UpdatePc(cpu, mem, size);
  }

  // Read-modify-write -----------------------------------------------------------------------------

  /** A shift reads a whole word even when it is eight bits wide. */
  method FetchForShift(cpu: Processor, mem: array<Cell>, a: addr, wide: bool, inBank: bool) returns (v: word)
    requires mem.Length == MEM_SIZE
    modifies mem
    ensures View(cpu, mem) == old(View(cpu, mem)) && v == I.Fetch(View(cpu, mem).m, a, wide, inBank)
    ensures wide || v < 0x100
    ensures Recorded(old(mem[..]), mem[..], cpu.setacc)
  {
    hide Content, Recorded, WordAt, WordInBank, Low;
    if inBank {
      v := GetWordBankWrap(mem, a, cpu.setacc);
    } else {
      v := GetWord(mem, a, cpu.setacc);
    }
    if !wide {
      LowOfWords(Content(mem), a);
      v := Low(v);
    }
  }

  lemma LowOfWords(m: Bytes, a: addr)
    ensures Low(WordAt(m, a)) == Low(WordInBank(m, a)) == m[a]
  {
    hide Linear, BankWrap;
  }

  method ModifyData(cpu: Processor, mem: array<Cell>, op: ModifyOp, a: addr, wide: bool, inBank: bool)
    requires mem.Length == MEM_SIZE && wide == !cpu.P.Acc8()
    modifies cpu`P, mem
    ensures var s := old(View(cpu, mem));
            var v := I.Fetch(s.m, a, wide, inBank);
            View(cpu, mem) == s.(m := I.Store(s.m, a, I.Modified(s, op, v, wide), wide, inBank),
                                 P := I.ModifiedFlags(s, op, v, wide))
    ensures Recorded(old(mem[..]), mem[..], cpu.setacc)
  {
    hide Content, I.Fetch, I.Store, I.Modified, I.ModifiedFlags;
    ghost var s := View(cpu, mem);
    var v: word;
    if op in {ASL, LSR, ROL, ROR} {
      v := FetchForShift(cpu, mem, a, wide, inBank);
    } else {
      v := FetchData(cpu, mem, a, wide, inBank);
    }
    var out, p := Transform(cpu, mem, op, v, wide);
    StoreData(cpu, mem, a, out, wide, inBank);
    cpu.P := p;
  }

  /** What a read-modify-write operation makes of `v`, with the flags it leaves. */
  method Transform(cpu: Processor, mem: array<Cell>, op: ModifyOp, v: word, wide: bool) returns (out: word, p: Status)
    requires mem.Length == MEM_SIZE && (wide || v < 0x100)
    ensures out == I.Modified(View(cpu, mem), op, v, wide)
    ensures p == I.ModifiedFlags(View(cpu, mem), op, v, wide)
  {
    hide Content, Bitwise, Low, I.Doubled, I.RotatedLeft, I.Rotated, I.Bumped, I.Masked, Status.NZ, Logic8, Logic16;
    match op {
      case ASL => out := I.Doubled(v, wide);
      case ROL => out := I.RotatedLeft(v, cpu.P.C, wide);
      case LSR => out := v / 2;
      case ROR => out := I.Rotated(v, cpu.P.C, wide);
      case DEC => out := I.Bumped(v, -1, wide);
      case INC => out := I.Bumped(v, 1, wide);
      case TRB => out := I.Masked(v, I.Narrowed(cpu.C, wide), false, wide);
      case TSB => out := I.Masked(v, I.Narrowed(cpu.C, wide), true, wide);
    }
    if op in {TRB, TSB} {
      var common := if wide then Logic16(And, cpu.C, v) else Logic8(And, Low(cpu.C), v);
      p := cpu.P.(Z := common == 0);
    } else {
      p := cpu.P.NZ(out, wide);
      p := p.(C := I.ShiftedOut(cpu.P, op, v, wide));
    }
  }

  /** ASL, DEC, INC, LSR, ROL, ROR, TRB and TSB on memory. */
  method Modify(cpu: Processor, mem: array<Cell>, op: ModifyOp, size: nat, mode: Mode, a: addr)
    requires mem.Length == MEM_SIZE
    modifies cpu`P, cpu`PC, mem
    ensures View(cpu, mem) == I.Modify(old(View(cpu, mem)), op, mode, a, size)
    ensures Recorded(old(mem[..]), mem[..], cpu.setacc)
  {
    hide Content, State.Advance, Recorded;
    hide I.Fetch, I.Store, I.Modified, I.ModifiedFlags, I.KnowsModify, I.StaysInBank, I.RejectedModify;
    if I.KnowsModify(op, mode) {
      var inBank := if op in {TRB, TSB} then mode == DP else I.StaysInBank(mode);
      ModifyData(cpu, mem, op, a, !cpu.P.Acc8(), inBank);
    } else {
      cpu.P := I.RejectedModify(cpu.P, op);
      SelfRecorded(mem[..], cpu.setacc);
    }
    UpdatePc(cpu, mem, size);
  }

  /** The same operations on the accumulator, INA and DEA among them. */
  method ModifyA(cpu: Processor, mem: array<Cell>, op: ModifyOp)
    requires mem.Length == MEM_SIZE
    modifies cpu`C, cpu`P, cpu`PC
    ensures mem[..] == old(mem[..])
    ensures View(cpu, mem) == I.ModifyA(old(View(cpu, mem)), op)
  {
    hide Content, I.Modified, I.ModifiedFlags, WithLow, Low, State.Advance;
    var wide := !cpu.P.Acc8();
    if wide {
      var out, p := Transform(cpu, mem, op, cpu.C, wide);
      cpu.C, cpu.P := out, p;
    } else {
      var out, p := Transform(cpu, mem, op, Low(cpu.C), wide);
      cpu.C, cpu.P := WithLow(cpu.C, out), p;
    }
    UpdatePc(cpu, mem, 1);
  }
}
