/**
 The processor and its memory as the original keeps them: a struct of registers updated in place and
 an array of cells, each a value with its access flags. The helpers here are proved against module
 Machine, whose states have no access flags: whatever the flags are, and whether or not they are being
 recorded, the values read and written are the same.
 */
module Cpu {
  import opened Words
  import opened Opcodes
  import opened Machine

  /** A memory cell: its value, and whether it was read, was written, and is a breakpoint. */
  datatype Cell = Cell(val: byte, r: bool, w: bool, b: bool)

  class Processor {
    var C: word
    var DBR: byte
    var X: word
    var Y: word
    var D: word
    var SP: word
    var PBR: byte
    var PC: word
    var P: Status
    /** Counts the cycles of the instructions listed at `State` in module Machine. */
    var cycles: uint64
    var setacc: bool
    var copVect: bool

    constructor ()
    {
      C, DBR, X, Y, D, SP, PBR, PC := 0, 0, 0, 0, 0, 0, 0, 0;
      P := Status(false, false, false, false, false, false, false, false, false, false, false, false, false, false);
      cycles, setacc, copVect := 0, false, false;
    }
  }

  ghost function Values(cells: seq<Cell>): Bytes
    requires |cells| == MEM_SIZE
  {
    seq(MEM_SIZE, i requires 0 <= i < MEM_SIZE => cells[i].val)
  }

  /** The values of the memory cells, whatever their flags. */
  ghost function Content(mem: array<Cell>): Bytes
    requires mem.Length == MEM_SIZE
    reads mem
  {
    Values(mem[..])
  }

  /** The machine state a processor and its memory stand for. */
  ghost function View(cpu: Processor, mem: array<Cell>): State
    requires mem.Length == MEM_SIZE
    reads cpu, mem
  {
    State(cpu.C, cpu.DBR, cpu.X, cpu.Y, cpu.D, cpu.SP, cpu.PBR, cpu.PC, cpu.P, cpu.cycles, cpu.copVect,
          Content(mem))
  }

  /**
   * What recording accesses may do: breakpoints stay, flags are only ever set, and only while recording;
   * a cell whose value changed while recording is marked as written.
   */
  ghost predicate Recorded(before: seq<Cell>, after: seq<Cell>, setacc: bool) {
    |before| == |after| &&
    forall i | 0 <= i < |after| ::
      && after[i].b == before[i].b
      && (before[i].r ==> after[i].r) && (before[i].w ==> after[i].w)
      && (!setacc ==> after[i].r == before[i].r && after[i].w == before[i].w)
      && (setacc && after[i].val != before[i].val ==> after[i].w)
  }

  lemma SelfRecorded(cells: seq<Cell>, setacc: bool)
    ensures Recorded(cells, cells, setacc)
  {
  }

  lemma RecordedTwice(a: seq<Cell>, b: seq<Cell>, c: seq<Cell>, setacc: bool)
    requires Recorded(a, b, setacc) && Recorded(b, c, setacc)
    ensures Recorded(a, c, setacc)
  {
  }

  /** Reading without recording changes nothing. */
  lemma RecordedQuietly(a: seq<Cell>, b: seq<Cell>, setacc: bool)
    requires |a| == MEM_SIZE && Recorded(a, b, false) && Values(a) == Values(b)
    ensures Recorded(a, b, setacc)
  {
    forall i | 0 <= i < |a| ensures a[i].val == b[i].val {
      assert Values(a)[i] == Values(b)[i];
    }
  }

  // Memory --------------------------------------------------------------------------------------

  method GetByte(mem: array<Cell>, a: addr, setacc: bool) returns (v: byte)
    requires mem.Length == MEM_SIZE
    modifies mem
    ensures Content(mem) == old(Content(mem)) && v == Content(mem)[a]
    ensures Recorded(old(mem[..]), mem[..], setacc) && (setacc ==> mem[a].r)
  {
    if setacc {
      mem[a] := mem[a].(r := true);
    }
    return mem[a].val;
  }

  method SetByte(mem: array<Cell>, a: addr, v: byte, setacc: bool)
    requires mem.Length == MEM_SIZE
    modifies mem
    ensures Content(mem) == old(Content(mem))[a := v]
    ensures Recorded(old(mem[..]), mem[..], setacc) && (setacc ==> mem[a].w)
  {
    if setacc {
      mem[a] := mem[a].(w := true);
    }
    mem[a] := mem[a].(val := v);
  }

  method GetWord(mem: array<Cell>, a: addr, setacc: bool) returns (v: word)
    requires mem.Length == MEM_SIZE
    modifies mem
    ensures Content(mem) == old(Content(mem)) && v == WordAt(Content(mem), a)
    ensures Recorded(old(mem[..]), mem[..], setacc) && (setacc ==> mem[a].r && mem[Linear(a + 1)].r)
  {
    hide Linear;
    LinearIsMod(a + 1);
    var lo := GetByte(mem, a, setacc);
    var hi := GetByte(mem, (a + 1) % MEM_SIZE, setacc);
    return Pair(lo, hi);
  }

  method GetWordPageWrap(mem: array<Cell>, a: addr, setacc: bool) returns (v: word)
    requires mem.Length == MEM_SIZE
    modifies mem
    ensures Content(mem) == old(Content(mem)) && v == WordInPage(Content(mem), a)
    ensures Recorded(old(mem[..]), mem[..], setacc)
  {
    var lo := GetByte(mem, a, setacc);
    var hi := GetByte(mem, PageWrap(a, 1), setacc);
    return Pair(lo, hi);
  }

  method GetWordBankWrap(mem: array<Cell>, a: addr, setacc: bool) returns (v: word)
    requires mem.Length == MEM_SIZE
    modifies mem
    ensures Content(mem) == old(Content(mem)) && v == WordInBank(Content(mem), a)
    ensures Recorded(old(mem[..]), mem[..], setacc) && (setacc ==> mem[a].r && mem[BankWrap(a, 1)].r)
  {
    var lo := GetByte(mem, a, setacc);
    var hi := GetByte(mem, BankWrap(a, 1), setacc);
    return Pair(lo, hi);
  }

  method GetLongBankWrap(mem: array<Cell>, a: addr, setacc: bool) returns (v: addr)
    requires mem.Length == MEM_SIZE
    modifies mem
    ensures Content(mem) == old(Content(mem)) && v == LongInBank(Content(mem), a)
    ensures Recorded(old(mem[..]), mem[..], setacc)
  {
    var lo := GetByte(mem, a, setacc);
    var mid := GetByte(mem, BankWrap(a, 1), setacc);
    var hi := GetByte(mem, BankWrap(a, 2), setacc);
    return Triple(Pair(lo, mid), hi);
  }

  method SetWord(mem: array<Cell>, a: addr, v: word, setacc: bool)
    requires mem.Length == MEM_SIZE
    modifies mem
    ensures Content(mem) == StoreWord(old(Content(mem)), a, v)
    ensures Recorded(old(mem[..]), mem[..], setacc) && (setacc ==> mem[a].w && mem[Linear(a + 1)].w)
  {
    hide Linear;
    LinearIsMod(a + 1);
    SetByte(mem, a, Low(v), setacc);
    SetByte(mem, (a + 1) % MEM_SIZE, v / 0x100, setacc);
  }

  method SetWordBankWrap(mem: array<Cell>, a: addr, v: word, setacc: bool)
    requires mem.Length == MEM_SIZE
    modifies mem
    ensures Content(mem) == StoreWordInBank(old(Content(mem)), a, v)
    ensures Recorded(old(mem[..]), mem[..], setacc)
  {
    SetByte(mem, a, Low(v), setacc);
    SetByte(mem, BankWrap(a, 1), v / 0x100, setacc);
  }

  // Registers -----------------------------------------------------------------------------------

  /** The 24-bit program counter. */
  function EffectivePc(cpu: Processor): addr
    reads cpu
  {
    At(cpu.PBR, cpu.PC)
  }

  method UpdatePc(cpu: Processor, mem: array<Cell>, offset: nat)
    requires mem.Length == MEM_SIZE
    modifies cpu`PC
    ensures mem[..] == old(mem[..])
    ensures View(cpu, mem) == old(View(cpu, mem)).Advance(offset)
  {
    cpu.PC := Wrap(cpu.PC + offset);
  }

  method SetSp(cpu: Processor, mem: array<Cell>, v: int)
    requires mem.Length == MEM_SIZE
    modifies cpu`SP
    ensures mem[..] == old(mem[..])
    ensures View(cpu, mem) == old(View(cpu, mem)).SetSp(v)
  {
    hide Wrap, InPage1, Low;
    WrapIsMod(v);
    InPage1IsMod(v);
    if cpu.P.E {
      cpu.SP := 0x100 + Low(v);
    } else {
      cpu.SP := v % 0x1_0000;
    }
  }

  method GetOperandByte(cpu: Processor, mem: array<Cell>) returns (v: byte)
    requires mem.Length == MEM_SIZE
    modifies mem
    ensures View(cpu, mem) == old(View(cpu, mem)) && v == View(cpu, mem).Op8()
    ensures Recorded(old(mem[..]), mem[..], cpu.setacc)
  {
    hide At, BankWrap;
    BankWrapAt(cpu.PBR, cpu.PC, 1);
    v := GetByte(mem, BankWrap(EffectivePc(cpu), 1), cpu.setacc);
  }

  method GetOperandWord(cpu: Processor, mem: array<Cell>) returns (v: word)
    requires mem.Length == MEM_SIZE
    modifies mem
    ensures View(cpu, mem) == old(View(cpu, mem)) && v == View(cpu, mem).Op16()
    ensures Recorded(old(mem[..]), mem[..], cpu.setacc)
  {
    hide At, BankWrap;
    var a := BankWrap(EffectivePc(cpu), 1);
    BankWrapAt(cpu.PBR, cpu.PC, 1);
    var lo := GetByte(mem, a, cpu.setacc);
    BankWrapAt(cpu.PBR, cpu.PC + 1, 1);
    var hi := GetByte(mem, BankWrap(a, 1), cpu.setacc);
    return Pair(lo, hi);
  }

  method GetOperandLong(cpu: Processor, mem: array<Cell>) returns (v: addr)
    requires mem.Length == MEM_SIZE
    modifies mem
    ensures View(cpu, mem) == old(View(cpu, mem)) && v == View(cpu, mem).Op24()
    ensures Recorded(old(mem[..]), mem[..], cpu.setacc)
  {
    hide At, BankWrap, Pair, Triple;
    var a := BankWrap(EffectivePc(cpu), 1);
    BankWrapAt(cpu.PBR, cpu.PC, 1);
    var lo := GetByte(mem, a, cpu.setacc);
    BankWrapAt(cpu.PBR, cpu.PC + 1, 1);
    a := BankWrap(a, 1);
    var mid := GetByte(mem, a, cpu.setacc);
    BankWrapAt(cpu.PBR, cpu.PC + 2, 1);
    var hi := GetByte(mem, BankWrap(a, 1), cpu.setacc);
    return Triple(Pair(lo, mid), hi);
  }

  // Stack ---------------------------------------------------------------------------------------

  /** Where the low and the high byte of a pushed word go. */
  function LowPlace(s: State, page1: bool): addr {
    if s.P.E && page1 then s.SetSp(s.SP - 1).SP else At(0, s.SP - 1)
  }

  function HighPlace(s: State, page1: bool): addr {
    if s.P.E && page1 then s.SP else Linear(At(0, s.SP - 1) + 1)
  }

  method PushByte(cpu: Processor, mem: array<Cell>, v: byte)
    requires mem.Length == MEM_SIZE
    modifies cpu`SP, mem
    ensures View(cpu, mem) == Machine.PushByte(old(View(cpu, mem)), v)
    ensures Recorded(old(mem[..]), mem[..], cpu.setacc) && (cpu.setacc ==> mem[old(cpu.SP)].w)
  {
    SetByte(mem, cpu.SP, v, cpu.setacc);
    SetSp(cpu, mem, cpu.SP - 1);
  }

  method PushWord(cpu: Processor, mem: array<Cell>, v: word, emulationStack: bool)
    requires mem.Length == MEM_SIZE
    modifies cpu`SP, mem
    ensures View(cpu, mem) == Machine.PushWord(old(View(cpu, mem)), v, emulationStack)
    ensures Recorded(old(mem[..]), mem[..], cpu.setacc)
    ensures var s := old(View(cpu, mem));
            cpu.setacc ==> mem[LowPlace(s, emulationStack)].w && mem[HighPlace(s, emulationStack)].w
  {
    hide At, BankWrap, Linear;
    if cpu.P.E && emulationStack {
      SetByte(mem, cpu.SP, v / 0x100, cpu.setacc);
      SetSp(cpu, mem, cpu.SP - 1);
      SetByte(mem, cpu.SP, Low(v), cpu.setacc);
      SetSp(cpu, mem, cpu.SP - 1);
    } else {
      BankWrapZero(cpu.SP, -1);
      SetWord(mem, BankWrap(cpu.SP, -1), v, cpu.setacc);
      SetSp(cpu, mem, cpu.SP - 2);
    }
  }

  method PushLong(cpu: Processor, mem: array<Cell>, v: addr)
    requires mem.Length == MEM_SIZE
    modifies cpu`SP, mem
    ensures View(cpu, mem) == Machine.PushLong(old(View(cpu, mem)), v)
    ensures Recorded(old(mem[..]), mem[..], cpu.setacc)
    ensures var p := At(0, old(cpu.SP) - 2);
            cpu.setacc ==> mem[old(cpu.SP)].w && mem[p].w && mem[Linear(p + 1)].w
  {
    hide At, BankWrap, Linear;
    SetByte(mem, cpu.SP, v / 0x1_0000, cpu.setacc);
    BankWrapZero(cpu.SP, -2);
    SetWord(mem, BankWrap(cpu.SP, -2), v % 0x1_0000, cpu.setacc);
    SetSp(cpu, mem, cpu.SP - 3);
  }

  method PopByte(cpu: Processor, mem: array<Cell>) returns (v: byte)
    requires mem.Length == MEM_SIZE
    modifies cpu`SP, mem
    ensures View(cpu, mem) == DropByte(old(View(cpu, mem))) && v == TopByte(old(View(cpu, mem)))
    ensures Recorded(old(mem[..]), mem[..], cpu.setacc)
  {
    SetSp(cpu, mem, cpu.SP + 1);
    v := GetByte(mem, cpu.SP, cpu.setacc);
  }

  method PopWord(cpu: Processor, mem: array<Cell>, emulationStack: bool) returns (v: word)
    requires mem.Length == MEM_SIZE
    modifies cpu`SP, mem
    ensures View(cpu, mem) == DropWord(old(View(cpu, mem)), emulationStack)
    ensures v == TopWord(old(View(cpu, mem)), emulationStack)
    ensures Recorded(old(mem[..]), mem[..], cpu.setacc)
  {
    hide At, BankWrap;
    if cpu.P.E && emulationStack {
      SetSp(cpu, mem, cpu.SP + 1);
      var lo := GetByte(mem, cpu.SP, cpu.setacc);
      SetSp(cpu, mem, cpu.SP + 1);
      var hi := GetByte(mem, cpu.SP, cpu.setacc);
      v := Pair(lo, hi);
    } else {
      BankWrapZero(cpu.SP, 1);
      v := GetWord(mem, BankWrap(cpu.SP, 1), cpu.setacc);
      SetSp(cpu, mem, cpu.SP + 2);
    }
  }

  method PopLong(cpu: Processor, mem: array<Cell>) returns (v: addr)
    requires mem.Length == MEM_SIZE
    modifies cpu`SP, mem
    ensures View(cpu, mem) == DropLong(old(View(cpu, mem))) && v == TopLong(old(View(cpu, mem)))
    ensures Recorded(old(mem[..]), mem[..], cpu.setacc)
  {
    hide At, BankWrap;
    BankWrapZero(cpu.SP, 1);
    BankWrapZero(cpu.SP, 3);
    var low := GetWord(mem, BankWrap(cpu.SP, 1), cpu.setacc);
    var hi := GetByte(mem, BankWrap(cpu.SP, 3), cpu.setacc);
    SetSp(cpu, mem, cpu.SP + 3);
    return Triple(low, hi);
  }

  // Effective addresses -------------------------------------------------------------------------

  method GetAbsoluteModes(cpu: Processor, mem: array<Cell>, mode: Mode) returns (a: addr)
    requires mem.Length == MEM_SIZE
    requires mode in {ABS, ABSX, ABSY, ABSL, ABSLX, INDABS, ABSINDX, ABSINDL}
    modifies mem
    ensures View(cpu, mem) == old(View(cpu, mem)) && a == Effective(View(cpu, mem), mode)
    ensures Recorded(old(mem[..]), mem[..], cpu.setacc)
  {
    hide At, WordInBank, LongInBank, State.Op16, State.Op24;
    if mode == ABSL {
      a := GetOperandLong(cpu, mem);
    } else if mode == ABSLX {
      var p := GetOperandLong(cpu, mem);
      a := (p + cpu.X) % MEM_SIZE;
    } else {
      var operand := GetOperandWord(cpu, mem);
      if mode == ABS {
        a := cpu.DBR * 0x1_0000 + operand;
      } else if mode == ABSX {
        a := (operand + cpu.DBR * 0x1_0000 + cpu.X) % MEM_SIZE;
      } else if mode == ABSY {
        a := (operand + cpu.DBR * 0x1_0000 + cpu.Y) % MEM_SIZE;
      } else if mode == INDABS {
        a := GetWordBankWrap(mem, operand, cpu.setacc);
      } else if mode == ABSINDX {
        a := At(cpu.PBR, operand + cpu.X);
        a := GetWordBankWrap(mem, a, cpu.setacc);
      } else {
        a := GetLongBankWrap(mem, operand, cpu.setacc);
      }
    }
  }

  /** The direct page with an index, wrapping inside an aligned page in emulation mode. */
  method GetDirectIndexed(cpu: Processor, mem: array<Cell>, index: word) returns (a: addr)
    requires mem.Length == MEM_SIZE
    modifies mem
    ensures View(cpu, mem) == old(View(cpu, mem)) && a == Direct(View(cpu, mem), index)
    ensures Recorded(old(mem[..]), mem[..], cpu.setacc)
  {
    hide At, BankWrap, PageWrap, State.Op8;
    var operand := GetOperandByte(cpu, mem);
    if cpu.P.E && cpu.D % 0x100 == 0 {
      PageWrapAligned(cpu.D, operand + index);
      a := PageWrap(cpu.D, operand + index);
    } else {
      BankWrapZero(operand, cpu.D);
      BankWrapAt(0, operand + cpu.D, index);
      a := BankWrap(operand, cpu.D);
      a := BankWrap(a, index);
    }
  }

  method GetDirect(cpu: Processor, mem: array<Cell>) returns (a: addr)
    requires mem.Length == MEM_SIZE
    modifies mem
    ensures View(cpu, mem) == old(View(cpu, mem)) && a == Effective(View(cpu, mem), DP)
    ensures Recorded(old(mem[..]), mem[..], cpu.setacc)
  {
    hide At, BankWrap, State.Op8;
    var operand := GetOperandByte(cpu, mem);
    BankWrapZero(cpu.D, operand);
    a := BankWrap(cpu.D, operand);
  }

  /** Modes that go through a 24-bit pointer in the direct page. */
  method GetDirectLong(cpu: Processor, mem: array<Cell>, mode: Mode) returns (a: addr)
    requires mem.Length == MEM_SIZE
    requires mode in {DPINDL, INDDPLY}
    modifies mem
    ensures View(cpu, mem) == old(View(cpu, mem)) && a == Effective(View(cpu, mem), mode)
    ensures Recorded(old(mem[..]), mem[..], cpu.setacc)
  {
    hide At, LongInBank, State.Op8;
    a := GetDirect(cpu, mem);
    a := GetLongBankWrap(mem, a, cpu.setacc);
    if mode == INDDPLY {
      a := (a + cpu.Y) % MEM_SIZE;
    }
  }

  /** Modes that go through a 16-bit pointer in the direct page, into the data bank. */
  method GetDirectIndirect(cpu: Processor, mem: array<Cell>, mode: Mode) returns (a: addr)
    requires mem.Length == MEM_SIZE
    requires mode in {DPINDX, DPIND, INDDPY}
    modifies mem
    ensures View(cpu, mem) == old(View(cpu, mem)) && a == Effective(View(cpu, mem), mode)
    ensures Recorded(old(mem[..]), mem[..], cpu.setacc)
  {
    hide At, Direct, WordInBank, WordInPage, State.Op8;
    if mode == DPINDX {
      a := GetDirectIndexed(cpu, mem, cpu.X);
    } else {
      a := GetDirect(cpu, mem);
    }
    var p: word;
    if mode == INDDPY && cpu.P.E && cpu.D % 0x100 == 0 {
      p := GetWordPageWrap(mem, a, cpu.setacc);
    } else {
      p := GetWordBankWrap(mem, a, cpu.setacc);
    }
    a := cpu.DBR * 0x1_0000 + p;
    if mode == INDDPY {
      a := (a + cpu.Y) % MEM_SIZE;
    }
  }

  method GetStackModes(cpu: Processor, mem: array<Cell>, mode: Mode) returns (a: addr)
    requires mem.Length == MEM_SIZE
    requires mode in {SR, SRINDY}
    modifies mem
    ensures View(cpu, mem) == old(View(cpu, mem)) && a == Effective(View(cpu, mem), mode)
    ensures Recorded(old(mem[..]), mem[..], cpu.setacc)
  {
    hide At, BankWrap, WordInBank, State.Op8;
    var operand := GetOperandByte(cpu, mem);
    BankWrapZero(cpu.SP, operand);
    a := BankWrap(cpu.SP, operand);
    if mode == SRINDY {
      var p := GetWordBankWrap(mem, a, cpu.setacc);
      a := (cpu.DBR * 0x1_0000 + p + cpu.Y) % MEM_SIZE;
    }
  }

  lemma AtPeriodic(bank: byte, x: int, k: int)
    requires k % 0x1_0000 == 0
    ensures At(bank, x + k) == At(bank, x)
  {
    hide Wrap;
    WrapIsMod(x + k);
    WrapIsMod(x);
  }

  method GetRelative8(cpu: Processor, mem: array<Cell>) returns (a: addr)
    requires mem.Length == MEM_SIZE
    modifies mem
    ensures View(cpu, mem) == old(View(cpu, mem)) && a == Effective(View(cpu, mem), PCR)
    ensures Recorded(old(mem[..]), mem[..], cpu.setacc)
  {
    hide At, BankWrap, State.Op8;
    var offset: int := GetOperandByte(cpu, mem);
    if offset >= 0x80 {
      AtPeriodic(cpu.PBR, cpu.PC + 2 + offset - 0x100, 0x1_0000_0000);
      offset := offset + 0xffff_ff00;
    }
    BankWrapAt(cpu.PBR, cpu.PC, 2);
    BankWrapAt(cpu.PBR, cpu.PC + 2, offset);
    a := BankWrap(EffectivePc(cpu), 2);
    a := BankWrap(a, offset);
  }

  method GetRelative16(cpu: Processor, mem: array<Cell>) returns (a: addr)
    requires mem.Length == MEM_SIZE
    modifies mem
    ensures View(cpu, mem) == old(View(cpu, mem)) && a == Effective(View(cpu, mem), PCRL)
    ensures Recorded(old(mem[..]), mem[..], cpu.setacc)
  {
    hide At, BankWrap, State.Op16;
    var offset: int := GetOperandWord(cpu, mem);
    if offset >= 0x8000 {
      AtPeriodic(cpu.PBR, cpu.PC + 3 + offset, 0xffff_0000);
      offset := offset + 0xffff_0000;
    }
    BankWrapAt(cpu.PBR, cpu.PC, 3);
    BankWrapAt(cpu.PBR, cpu.PC + 3, offset);
    a := BankWrap(EffectivePc(cpu), 3);
    a := BankWrap(a, offset);
  }

  /** The address of an instruction's operand. */
  method GetAddress(cpu: Processor, mem: array<Cell>, mode: Mode) returns (a: addr)
    requires mem.Length == MEM_SIZE
    modifies mem
    ensures View(cpu, mem) == old(View(cpu, mem)) && a == Effective(View(cpu, mem), mode)
    ensures Recorded(old(mem[..]), mem[..], cpu.setacc)
  {
    hide Direct, At, BankWrap, WordInBank, WordInPage, LongInBank, State.Op8, State.Op16, State.Op24;
    match mode {
      case ABS | ABSX | ABSY | ABSL | ABSLX | INDABS | ABSINDX | ABSINDL => a := GetAbsoluteModes(cpu, mem, mode);
      case SR | SRINDY => a := GetStackModes(cpu, mem, mode);
      case PCR => a := GetRelative8(cpu, mem);
      case PCRL => a := GetRelative16(cpu, mem);
      case IMMD | BMV =>
        BankWrapAt(cpu.PBR, cpu.PC, 1);
        a := BankWrap(EffectivePc(cpu), 1);
      case IMPD => a := 0;
      case DP => a := GetDirect(cpu, mem);
      case DPX => a := GetDirectIndexed(cpu, mem, cpu.X);
      case DPY => a := GetDirectIndexed(cpu, mem, cpu.Y);
      case DPINDL | INDDPLY => a := GetDirectLong(cpu, mem, mode);
      case DPIND | DPINDX | INDDPY => a := GetDirectIndirect(cpu, mem, mode);
    }
  }
}
