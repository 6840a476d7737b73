/**
 The state of the emulated computer as a value, and what its memory, stack and effective-address
 helpers mean on it. Access flags are not part of this value: see module Cpu.
 */
module Machine {
  import opened Words
  import opened Opcodes

  /** The processor status: the eight bits of SR first, then the bits outside it. */
  datatype Status = Status(
    C: bool, Z: bool, I: bool, D: bool, XB: bool, M: bool, V: bool, N: bool,
    E: bool, RST: bool, IRQ: bool, NMI: bool, STP: bool, CRASH: bool)
  {
    function Sr(): byte {
      Bit(C) + 2 * Bit(Z) + 4 * Bit(I) + 8 * Bit(D) + 16 * Bit(XB) + 32 * Bit(M) + 64 * Bit(V) + 128 * Bit(N)
    }

    function WithSr(v: byte): (p: Status)
      ensures p == this.(C := p.C, Z := p.Z, I := p.I, D := p.D, XB := p.XB, M := p.M, V := p.V, N := p.N)
    {
      var v1 := v / 2;
      var v2 := v1 / 2;
      var v3 := v2 / 2;
      var v4 := v3 / 2;
      var v5 := v4 / 2;
      var v6 := v5 / 2;
      var v7 := v6 / 2;
      this.(C := v % 2 == 1, Z := v1 % 2 == 1, I := v2 % 2 == 1, D := v3 % 2 == 1,
            XB := v4 % 2 == 1, M := v5 % 2 == 1, V := v6 % 2 == 1, N := v7 % 2 == 1)
    }

    /** Accumulator and memory operations are eight bits wide. */
    predicate Acc8() { E || M }

    /** Index registers are eight bits wide. */
    predicate Idx8() { E || XB }

    /** N and Z as set from a result of the given width. */
    function NZ(v: int, wide: bool): (p: Status)
      ensures p == this.(N := p.N, Z := p.Z)
    {
      if wide then this.(N := v >= 0x8000, Z := v == 0)
      else this.(N := v % 0x100 >= 0x80, Z := v % 0x100 == 0)
    }
  }

  /**
   * The registers and the memory. `cycles` counts what is modelled of the cycles: block moves, calls and
   * returns, the entry to interrupts, BRK and COP, and RTI; other instructions leave it alone.
   */
  datatype State = State(
    C: word, DBR: byte, X: word, Y: word, D: word, SP: word, PBR: byte, PC: word,
    P: Status, cycles: uint64, copVect: bool, m: Bytes)
  {
    function Op8(): byte { m[At(PBR, PC + 1)] }

    function Op16(): word { Pair(m[At(PBR, PC + 1)], m[At(PBR, PC + 2)]) }

    function Op24(): addr { Triple(Op16(), m[At(PBR, PC + 3)]) }

    function Advance(n: int): State { this.(PC := Wrap(PC + n)) }

    /** The stack pointer stays in page 1 in emulation mode. */
    function SetSp(v: int): State { this.(SP := if P.E then InPage1(v) else Wrap(v)) }

    /** The accumulator, whose high byte an 8-bit operation leaves alone. */
    function SetA(v: int, wide: bool): (t: State)
      requires 0 <= v < 0x1_0000
      ensures t == this.(C := t.C)
    {
      this.(C := WithA(C, v, wide))
    }

    function Narrow(): State { this.(X := Low(X), Y := Low(Y)) }
  }

  /** SR has one bit per flag, so reading it back recovers exactly the eight flags written. */
  lemma SrRoundTrip(p: Status, q: Status)
    ensures var r := p.WithSr(q.Sr());
            && r.C == q.C && r.Z == q.Z && r.I == q.I && r.D == q.D
            && r.XB == q.XB && r.M == q.M && r.V == q.V && r.N == q.N
  {
    var n7 := Bit(q.N);
    var n6 := Bit(q.V) + 2 * n7;
    var n5 := Bit(q.M) + 2 * n6;
    var n4 := Bit(q.XB) + 2 * n5;
    var n3 := Bit(q.D) + 2 * n4;
    var n2 := Bit(q.I) + 2 * n3;
    var n1 := Bit(q.Z) + 2 * n2;
    assert q.Sr() == Bit(q.C) + 2 * n1;
    assert q.Sr() / 2 == n1 && n1 / 2 == n2 && n2 / 2 == n3;
    assert n3 / 2 == n4 && n4 / 2 == n5 && n5 / 2 == n6 && n6 / 2 == n7;
  }

  /** Only the accumulator, the memory and the arithmetic flags differ. */
  predicate SameControl(s: State, t: State) {
    t == s.(C := t.C, m := t.m, P := s.P.(C := t.P.C, Z := t.P.Z, V := t.P.V, N := t.P.N))
  }

  // Memory ------------------------------------------------------------------------------------

  /** A write past the last cell has no meaning in the original; here it is lost. */
  function Poke(m: Bytes, a: int, v: byte): Bytes
    requires a >= 0
  {
    if a < MEM_SIZE then m[a := v] else m
  }

  function WordAt(m: Bytes, a: addr): word { Pair(m[a], m[Linear(a + 1)]) }

  function WordInBank(m: Bytes, a: addr): word { Pair(m[a], m[BankWrap(a, 1)]) }

  function WordInPage(m: Bytes, a: addr): word { Pair(m[a], m[PageWrap(a, 1)]) }

  function LongInBank(m: Bytes, a: addr): addr { Triple(WordInBank(m, a), m[BankWrap(a, 2)]) }

  function StoreWord(m: Bytes, a: addr, v: word): Bytes { m[a := Low(v)][Linear(a + 1) := High(v)] }

  function StoreWordInBank(m: Bytes, a: addr, v: word): Bytes { m[a := Low(v)][BankWrap(a, 1) := High(v)] }

  // Stack -------------------------------------------------------------------------------------

  function PushByte(s: State, v: byte): State { s.(m := s.m[s.SP := v]).SetSp(s.SP - 1) }

  /** `page1`: the instruction keeps the stack inside page 1 when in emulation mode. */
  function PushWord(s: State, v: word, page1: bool): State {
    if s.P.E && page1 then PushByte(PushByte(s, High(v)), Low(v))
    else s.(m := StoreWord(s.m, At(0, s.SP - 1), v)).SetSp(s.SP - 2)
  }

  function PushLong(s: State, v: addr): State {
    s.(m := StoreWord(s.m[s.SP := v / 0x1_0000], At(0, s.SP - 2), v % 0x1_0000)).SetSp(s.SP - 3)
  }

  function TopByte(s: State): byte { s.m[s.SetSp(s.SP + 1).SP] }

  function DropByte(s: State): State { s.SetSp(s.SP + 1) }

  function TopWord(s: State, page1: bool): word {
    if s.P.E && page1 then Pair(TopByte(s), TopByte(DropByte(s))) else WordAt(s.m, At(0, s.SP + 1))
  }

  function DropWord(s: State, page1: bool): State {
    if s.P.E && page1 then DropByte(DropByte(s)) else s.SetSp(s.SP + 2)
  }

  function TopLong(s: State): addr {
    Triple(WordAt(s.m, At(0, s.SP + 1)), s.m[At(0, s.SP + 3)])
  }

  function DropLong(s: State): State { s.SetSp(s.SP + 3) }

  // Effective addresses -----------------------------------------------------------------------

  /** Direct-page accesses wrap inside the page when emulating a 6502 with an aligned direct page. */
  predicate PageMode(s: State) { s.P.E && s.D % 0x100 == 0 }

  function Direct(s: State, index: int): addr {
    if PageMode(s) then s.D + (s.Op8() + index) % 0x100 else At(0, s.D + s.Op8() + index)
  }

  function InData(s: State, off: word): addr { s.DBR * 0x1_0000 + off }

  function Effective(s: State, mode: Mode): addr {
    match mode
    case DP => At(0, s.D + s.Op8())
    case DPX => Direct(s, s.X)
    case DPY => Direct(s, s.Y)
    case DPINDX => InData(s, WordInBank(s.m, Direct(s, s.X)))
    case DPIND => InData(s, WordInBank(s.m, At(0, s.D + s.Op8())))
    case DPINDL => LongInBank(s.m, At(0, s.D + s.Op8()))
    case INDDPY =>
      var p := At(0, s.D + s.Op8());
      Linear(InData(s, if PageMode(s) then WordInPage(s.m, p) else WordInBank(s.m, p)) + s.Y)
    case INDDPLY => Linear(LongInBank(s.m, At(0, s.D + s.Op8())) + s.Y)
    case ABS => InData(s, s.Op16())
    case ABSX => Linear(InData(s, s.Op16()) + s.X)
    case ABSY => Linear(InData(s, s.Op16()) + s.Y)
    case ABSL => s.Op24()
    case ABSLX => Linear(s.Op24() + s.X)
    case IMMD => At(s.PBR, s.PC + 1)
    case SR => At(0, s.SP + s.Op8())
    case SRINDY => Linear(InData(s, WordInBank(s.m, At(0, s.SP + s.Op8()))) + s.Y)
    case INDABS => WordInBank(s.m, s.Op16())
    case ABSINDX => WordInBank(s.m, At(s.PBR, s.Op16() + s.X))
    case ABSINDL => LongInBank(s.m, s.Op16())
    case PCR => At(s.PBR, s.PC + 2 + (if s.Op8() >= 0x80 then s.Op8() - 0x100 else s.Op8()))
    case PCRL => At(s.PBR, s.PC + 3 + s.Op16())
    case IMPD => 0
    case BMV => At(s.PBR, s.PC + 1)
  }
}
