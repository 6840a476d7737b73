/**
 Where the operands of each addressing mode are, told by the bytes of the instruction and of memory: what
 the modes without an index mean, which bytes an indirect mode goes through, what one more in an index
 register does, and where branches reach.
 */
module Addresses {
  import opened Words
  import opened Opcodes
  import opened Machine

  /** Byte `i` of the instruction; the offset wraps inside the program bank. */
  function CodeByte(s: State, i: nat): byte { s.m[s.PBR * 0x1_0000 + (s.PC + i) % 0x1_0000] }

  lemma CodeBytes(s: State)
    ensures s.Op8() == CodeByte(s, 1) && s.Op16() == CodeByte(s, 1) + 0x100 * CodeByte(s, 2)
    ensures s.Op24() == CodeByte(s, 1) + 0x100 * CodeByte(s, 2) + 0x1_0000 * CodeByte(s, 3)
  {
    hide Wrap;
    WrapIsMod(s.PC + 1);
    WrapIsMod(s.PC + 2);
    WrapIsMod(s.PC + 3);
  }

  lemma AtIsMod(bank: byte, x: int)
    ensures At(bank, x) == bank * 0x1_0000 + x % 0x1_0000
  {
    WrapIsMod(x);
    hide Wrap;
  }

  /** Two bytes of a bank, the second one after the first or at the start of the bank. */
  function TwoBytes(m: Bytes, bank: byte, x: int): word {
    var high: int := m[bank * 0x1_0000 + (x + 1) % 0x1_0000];
    m[bank * 0x1_0000 + x % 0x1_0000] + 0x100 * high
  }

  /** And three. */
  function ThreeBytes(m: Bytes, bank: byte, x: int): addr {
    var top: int := m[bank * 0x1_0000 + (x + 2) % 0x1_0000];
    TwoBytes(m, bank, x) + 0x1_0000 * top
  }

  lemma PointerBytes(m: Bytes, bank: byte, x: int)
    ensures WordInBank(m, At(bank, x)) == TwoBytes(m, bank, x)
    ensures LongInBank(m, At(bank, x)) == ThreeBytes(m, bank, x)
  {
    hide At, BankWrap;
    BankWrapAt(bank, x, 1);
    BankWrapAt(bank, x, 2);
    AtIsMod(bank, x);
    AtIsMod(bank, x + 1);
    AtIsMod(bank, x + 2);
  }

  lemma AtWord(w: word)
    ensures At(0, w) == w
  {
  }

  // Without an index --------------------------------------------------------------------------------

  /** The operand's own bytes: behind the opcode, in the data bank, in full, or in bank 0. */
  lemma PlainAddresses(s: State)
    ensures Effective(s, IMMD) == Effective(s, BMV) == s.PBR * 0x1_0000 + (s.PC + 1) % 0x1_0000
    ensures Effective(s, ABS) == CodeByte(s, 1) + 0x100 * CodeByte(s, 2) + 0x1_0000 * s.DBR
    ensures Effective(s, ABSL) == CodeByte(s, 1) + 0x100 * CodeByte(s, 2) + 0x1_0000 * CodeByte(s, 3)
    ensures Effective(s, DP) == (s.D + CodeByte(s, 1)) % 0x1_0000
    ensures Effective(s, SR) == (s.SP + CodeByte(s, 1)) % 0x1_0000
  {
    CodeBytes(s);
    AtIsMod(s.PBR, s.PC + 1);
    AtIsMod(0, s.D + CodeByte(s, 1));
    AtIsMod(0, s.SP + CodeByte(s, 1));
    hide At, State.Op8, State.Op16, State.Op24, CodeByte;
  }

  /** Pointers of jumps are in bank 0, or with an index in the program bank. */
  lemma JumpPointers(s: State)
    ensures var a := CodeByte(s, 1) + 0x100 * CodeByte(s, 2);
            && Effective(s, INDABS) == TwoBytes(s.m, 0, a) && Effective(s, ABSINDL) == ThreeBytes(s.m, 0, a)
            && Effective(s, ABSINDX) == TwoBytes(s.m, s.PBR, a + s.X)
  {
    hide At, WordInBank, LongInBank, TwoBytes, ThreeBytes, CodeByte;
    var a := s.Op16();
    CodeBytes(s);
    hide State.Op16;
    AtWord(a);
    PointerBytes(s.m, 0, a);
    PointerBytes(s.m, s.PBR, a + s.X);
  }

  // The direct page ---------------------------------------------------------------------------------

  /** The offset in bank 0 `k` bytes on from the direct operand: around the page, or around the bank. */
  function InDirectPage(s: State, k: word): word {
    if s.P.E && s.D % 0x100 == 0 then s.D + (CodeByte(s, 1) + k) % 0x100 else (s.D + CodeByte(s, 1) + k) % 0x1_0000
  }

  lemma DirectAddresses(s: State)
    ensures Effective(s, DPX) == InDirectPage(s, s.X) && Effective(s, DPY) == InDirectPage(s, s.Y)
  {
    DirectIs(s, s.X);
    DirectIs(s, s.Y);
    hide Direct, InDirectPage;
  }

  lemma DirectIs(s: State, k: word)
    ensures Direct(s, k) == InDirectPage(s, k)
  {
    FirstByte(s);
    AtIsMod(0, s.D + CodeByte(s, 1) + k);
    hide At, State.Op8, CodeByte;
  }

  lemma FirstByte(s: State)
    ensures s.Op8() == CodeByte(s, 1)
  {
    hide Wrap;
    WrapIsMod(s.PC + 1);
  }

  /** Pointers in the direct page name a byte of the data bank, or of any. */
  lemma DirectPointers(s: State)
    ensures Effective(s, DPIND) == TwoBytes(s.m, 0, s.D + CodeByte(s, 1)) + 0x1_0000 * s.DBR
    ensures Effective(s, DPINDL) == ThreeBytes(s.m, 0, s.D + CodeByte(s, 1))
    ensures Effective(s, DPINDX) == TwoBytes(s.m, 0, InDirectPage(s, s.X)) + 0x1_0000 * s.DBR
  {
    hide At, WordInBank, LongInBank, TwoBytes, ThreeBytes, Direct, InDirectPage, CodeByte, State.Op8;
    FirstByte(s);
    PointerBytes(s.m, 0, s.D + CodeByte(s, 1));
    IndexedDirect(s);
  }

  lemma IndexedDirect(s: State)
    ensures WordInBank(s.m, Direct(s, s.X)) == TwoBytes(s.m, 0, InDirectPage(s, s.X))
  {
    hide At, WordInBank, LongInBank, TwoBytes, ThreeBytes, Direct, InDirectPage;
    DirectIs(s, s.X);
    AtWord(InDirectPage(s, s.X));
    PointerBytes(s.m, 0, InDirectPage(s, s.X));
  }

  /** Two bytes of a page of bank 0, the second one after the first or at the start of the page. */
  function PageBytes(m: Bytes, p: word): word {
    var high: int := m[p / 0x100 * 0x100 + (p + 1) % 0x100];
    m[p] + 0x100 * high
  }

  lemma PagePointerBytes(m: Bytes, p: word)
    ensures WordInPage(m, p) == PageBytes(m, p)
  {
  }

  /** The pointer of (dp),Y: its second byte may be found around the page. */
  function PagePointer(s: State): word {
    var p := (s.D + CodeByte(s, 1)) % 0x1_0000;
    if s.P.E && s.D % 0x100 == 0 then PageBytes(s.m, p) else TwoBytes(s.m, 0, p)
  }

  /** Modes that go through a pointer and then add Y, around the end of memory. */
  lemma IndexedPointers(s: State)
    ensures Effective(s, INDDPY) == (PagePointer(s) + 0x1_0000 * s.DBR + s.Y) % 0x100_0000
    ensures Effective(s, INDDPLY) == (ThreeBytes(s.m, 0, s.D + CodeByte(s, 1)) + s.Y) % 0x100_0000
    ensures Effective(s, SRINDY) == (TwoBytes(s.m, 0, s.SP + CodeByte(s, 1)) + 0x1_0000 * s.DBR + s.Y) % 0x100_0000
  {
    hide PagePointer, ThreeBytes, TwoBytes, CodeByte, Effective, Linear;
    PagePointerIndexed(s);
    LongPointerIndexed(s);
    StackPointerIndexed(s);
    LinearIsMod(PagePointer(s) + 0x1_0000 * s.DBR + s.Y);
    LinearIsMod(ThreeBytes(s.m, 0, s.D + CodeByte(s, 1)) + s.Y);
    LinearIsMod(TwoBytes(s.m, 0, s.SP + CodeByte(s, 1)) + 0x1_0000 * s.DBR + s.Y);
  }

  lemma PagePointerIndexed(s: State)
    ensures Effective(s, INDDPY) == Linear(PagePointer(s) + 0x1_0000 * s.DBR + s.Y)
  {
    hide At, WordInBank, TwoBytes, Linear, CodeByte, State.Op8, WordInPage, PageBytes;
    FirstByte(s);
    PagePointerIs(s);
    hide PagePointer;
  }

  lemma PagePointerIs(s: State)
    ensures var p := At(0, s.D + CodeByte(s, 1));
            PagePointer(s) == if PageMode(s) then WordInPage(s.m, p) else WordInBank(s.m, p)
  {
    hide At, WordInBank, TwoBytes, CodeByte, PageBytes, WordInPage;
    var p := (s.D + CodeByte(s, 1)) % 0x1_0000;
    AtIsMod(0, s.D + CodeByte(s, 1));
    WrappedPointer(s.m, p);
    PagePointerBytes(s.m, p);
  }

  lemma WrappedPointer(m: Bytes, p: word)
    ensures WordInBank(m, p) == TwoBytes(m, 0, p)
  {
    hide At, WordInBank, LongInBank, TwoBytes, ThreeBytes;
    AtWord(p);
    PointerBytes(m, 0, p);
  }

  lemma LongPointerIndexed(s: State)
    ensures Effective(s, INDDPLY) == Linear(ThreeBytes(s.m, 0, s.D + CodeByte(s, 1)) + s.Y)
  {
    hide At, LongInBank, ThreeBytes, Linear, CodeByte, State.Op8;
    FirstByte(s);
    PointerBytes(s.m, 0, s.D + CodeByte(s, 1));
  }

  lemma StackPointerIndexed(s: State)
    ensures Effective(s, SRINDY) == Linear(TwoBytes(s.m, 0, s.SP + CodeByte(s, 1)) + 0x1_0000 * s.DBR + s.Y)
  {
    hide At, WordInBank, TwoBytes, Linear, CodeByte, State.Op8;
    FirstByte(s);
    PointerBytes(s.m, 0, s.SP + CodeByte(s, 1));
  }

  /** An index added to an absolute operand may leave the bank. */
  lemma IndexedAbsolutes(s: State)
    ensures Effective(s, ABSX) == (Effective(s, ABS) + s.X) % 0x100_0000
    ensures Effective(s, ABSY) == (Effective(s, ABS) + s.Y) % 0x100_0000
    ensures Effective(s, ABSLX) == (Effective(s, ABSL) + s.X) % 0x100_0000
  {
    hide Linear, State.Op16, State.Op24;
    LinearIsMod(s.DBR * 0x1_0000 + s.Op16() + s.X);
    LinearIsMod(s.DBR * 0x1_0000 + s.Op16() + s.Y);
    LinearIsMod(s.Op24() + s.X);
  }

  // What the index registers do -----------------------------------------------------------------------

  predicate ByX(mode: Mode) { mode.DPX? || mode.DPINDX? || mode.ABSX? || mode.ABSLX? || mode.ABSINDX? }

  predicate ByY(mode: Mode) { mode.DPY? || mode.INDDPY? || mode.INDDPLY? || mode.ABSY? || mode.SRINDY? }

  function WithIndex(s: State, mode: Mode, v: word): State { if ByX(mode) then s.(X := v) else s.(Y := v) }

  /** The instruction bytes and the direct page do not depend on the index registers. */
  lemma Reindexed(s: State, x: word, y: word)
    ensures var t := s.(X := x, Y := y);
            && CodeByte(t, 1) == CodeByte(s, 1) && CodeByte(t, 2) == CodeByte(s, 2) && CodeByte(t, 3) == CodeByte(s, 3)
            && PagePointer(t) == PagePointer(s) && forall k: word :: InDirectPage(t, k) == InDirectPage(s, k)
  {
    hide TwoBytes, PageBytes;
  }

  /** A register that is not the index register of the mode has no influence on the address. */
  lemma OtherIndex(s: State, mode: Mode, x: word, y: word)
    requires (x != s.X ==> !ByX(mode)) && (y != s.Y ==> !ByY(mode))
    ensures Effective(s.(X := x, Y := y), mode) == Effective(s, mode)
  {
    hide TwoBytes, ThreeBytes, PagePointer, InDirectPage, CodeByte, Effective;
    var t := s.(X := x, Y := y);
    Reindexed(s, x, y);
    match mode {
      case IMPD => NoOperand(s, t);
      case IMMD | BMV | ABS | ABSL | DP | SR =>
        PlainAddresses(s);
        PlainAddresses(t);
      case INDABS | ABSINDL | ABSINDX =>
        JumpPointers(s);
        JumpPointers(t);
      case DPX | DPY =>
        DirectAddresses(s);
        DirectAddresses(t);
      case DPIND | DPINDL | DPINDX =>
        DirectPointers(s);
        DirectPointers(t);
      case INDDPY | INDDPLY | SRINDY =>
        IndexedPointers(s);
        IndexedPointers(t);
      case ABSX | ABSY | ABSLX =>
        PlainAddresses(s);
        PlainAddresses(t);
        IndexedAbsolutes(s);
        IndexedAbsolutes(t);
      case PCR | PCRL =>
        RelativeAddresses(s);
        RelativeAddresses(t);
    }
  }

  lemma NoOperand(s: State, t: State)
    ensures Effective(s, IMPD) == Effective(t, IMPD)
  {
  }

  /** The modes that end with adding the index, and may leave the bank by it. */
  predicate Crosses(mode: Mode) {
    mode.ABSX? || mode.ABSY? || mode.ABSLX? || mode.INDDPY? || mode.INDDPLY? || mode.SRINDY?
  }

  /** One more in the index register is one more in the address, around the end of memory. */
  lemma IndexMoves(s: State, mode: Mode, v: word)
    requires Crosses(mode) && v < 0xffff
    ensures Effective(WithIndex(s, mode, v + 1), mode) == (Effective(WithIndex(s, mode, v), mode) + 1) % 0x100_0000
  {
    hide Effective, WithIndex, CrossesFrom;
    CrossesBy(s, mode, v);
    CrossesBy(s, mode, v + 1);
    NextAddress(CrossesFrom(s, mode), v);
  }

  /** The address such a mode adds the index to. */
  function CrossesFrom(s: State, mode: Mode): addr {
    match mode
    case INDDPY => PagePointer(s) + 0x1_0000 * s.DBR
    case INDDPLY => ThreeBytes(s.m, 0, s.D + CodeByte(s, 1))
    case SRINDY => TwoBytes(s.m, 0, s.SP + CodeByte(s, 1)) + 0x1_0000 * s.DBR
    case ABSLX => Effective(s, ABSL)
    case _ => Effective(s, ABS)
  }

  lemma CrossesBy(s: State, mode: Mode, v: word)
    requires Crosses(mode)
    ensures Effective(WithIndex(s, mode, v), mode) == (CrossesFrom(s, mode) + v) % 0x100_0000
  {
    hide TwoBytes, ThreeBytes, PagePointer, CodeByte, Effective;
    var a := WithIndex(s, mode, v);
    Reindexed(s, a.X, a.Y);
    if mode.ABSX? || mode.ABSY? || mode.ABSLX? {
      OtherIndex(s, ABS, a.X, a.Y);
      OtherIndex(s, ABSL, a.X, a.Y);
      IndexedAbsolutes(a);
    } else {
      IndexedPointers(a);
    }
  }

  lemma NextAddress(a: int, v: word)
    ensures (a + (v + 1)) % 0x100_0000 == ((a + v) % 0x100_0000 + 1) % 0x100_0000
  {
  }

  /** In the direct page, around the end of the bank or, with an aligned page in emulation mode, of the page. */
  lemma DirectIndexMoves(s: State, v: word)
    requires v < 0xffff
    ensures var a, b := Effective(s.(X := v), DPX), Effective(s.(X := v + 1), DPX);
            && b == (if s.P.E && s.D % 0x100 == 0 then a / 0x100 * 0x100 + (a + 1) % 0x100 else (a + 1) % 0x1_0000)
            && Effective(s.(Y := v), DPY) == a && Effective(s.(Y := v + 1), DPY) == b
  {
    hide CodeByte, Effective;
    DirectAddresses(s.(X := v));
    DirectAddresses(s.(X := v + 1));
    DirectAddresses(s.(Y := v));
    DirectAddresses(s.(Y := v + 1));
    SameCode(s, v);
    SameCode(s, v + 1);
    NextInPage(s.D, CodeByte(s, 1), v);
  }

  lemma SameCode(s: State, v: word)
    ensures CodeByte(s.(X := v), 1) == CodeByte(s, 1) == CodeByte(s.(Y := v), 1)
  {
  }

  lemma NextInPage(d: word, k: byte, v: word)
    ensures var a := (d + k + v) % 0x1_0000; (d + k + v + 1) % 0x1_0000 == (a + 1) % 0x1_0000
    ensures d % 0x100 == 0 ==>
              var a := d + (k + v) % 0x100; d + (k + v + 1) % 0x100 == a / 0x100 * 0x100 + (a + 1) % 0x100
  {
    NextInBank(d + k + v);
    if d % 0x100 == 0 {
      NextByte(k + v);
      InsidePage(d / 0x100, (k + v) % 0x100);
    }
  }

  lemma NextInBank(x: nat)
    ensures (x + 1) % 0x1_0000 == (x % 0x1_0000 + 1) % 0x1_0000
  {
    if x % 0x1_0000 == 0xffff {
      assert x + 1 == 0x1_0000 * (x / 0x1_0000 + 1);
    } else {
      assert x + 1 == 0x1_0000 * (x / 0x1_0000) + (x % 0x1_0000 + 1);
    }
  }

  lemma NextByte(x: nat)
    ensures (x + 1) % 0x100 == (x % 0x100 + 1) % 0x100
  {
    if x % 0x100 == 0xff {
      assert x + 1 == 0x100 * (x / 0x100 + 1);
    } else {
      assert x + 1 == 0x100 * (x / 0x100) + (x % 0x100 + 1);
    }
  }

  lemma InsidePage(page: nat, r: byte)
    ensures (0x100 * page + r) / 0x100 == page && (0x100 * page + r + 1) % 0x100 == (r + 1) % 0x100
  {
  }

  /** With index 0 an indexed mode gives the address of the mode without it. */
  lemma IndexZero(s: State)
    ensures Effective(s.(X := 0), ABSX) == Effective(s, ABS) == Effective(s.(Y := 0), ABSY)
    ensures Effective(s.(X := 0), ABSLX) == Effective(s, ABSL)
    ensures Effective(s.(X := 0), DPX) == Effective(s, DP) == Effective(s.(Y := 0), DPY)
  {
    hide Effective;
    IndexZeroAbsolute(s);
    IndexZeroDirect(s);
  }

  lemma IndexZeroAbsolute(s: State)
    ensures Effective(s.(X := 0), ABSX) == Effective(s, ABS) == Effective(s.(Y := 0), ABSY)
    ensures Effective(s.(X := 0), ABSLX) == Effective(s, ABSL)
  {
    hide Effective;
    var x, y := s.(X := 0), s.(Y := 0);
    OtherIndex(s, ABS, 0, s.Y);
    OtherIndex(s, ABS, s.X, 0);
    OtherIndex(s, ABSL, 0, s.Y);
    IndexedAbsolutes(x);
    IndexedAbsolutes(y);
    Inside(Effective(s, ABS));
    Inside(Effective(s, ABSL));
  }

  lemma Inside(a: addr)
    ensures (a + 0) % 0x100_0000 == a
  {
  }

  lemma IndexZeroDirect(s: State)
    ensures Effective(s.(X := 0), DPX) == Effective(s, DP) == Effective(s.(Y := 0), DPY)
  {
    hide Effective, InDirectPage, CodeByte;
    var x, y := s.(X := 0), s.(Y := 0);
    DirectAddresses(x);
    DirectAddresses(y);
    PlainAddresses(s);
    FirstInPage(x);
    FirstInPage(y);
    SameCode(s, 0);
  }

  /** The same for the modes that go through a pointer, unless (dp),Y finds the second byte around the page. */
  lemma PointerIndexZero(s: State)
    ensures Effective(s.(X := 0), DPINDX) == Effective(s, DPIND)
    ensures Effective(s.(Y := 0), INDDPLY) == Effective(s, DPINDL)
    ensures !(s.P.E && s.D % 0x100 == 0) ==> Effective(s.(Y := 0), INDDPY) == Effective(s, DPIND)
  {
    hide TwoBytes, ThreeBytes, CodeByte, Effective, InDirectPage;
    var x, y := s.(X := 0), s.(Y := 0);
    Reindexed(s, 0, s.Y);
    Reindexed(s, s.X, 0);
    DirectPointers(s);
    DirectPointers(x);
    IndexedPointers(y);
    FirstInPage(x);
    SamePointer(s.m, s.D + CodeByte(s, 1));
  }

  lemma FirstInPage(s: State)
    ensures InDirectPage(s, 0) == (s.D + CodeByte(s, 1)) % 0x1_0000
  {
    hide CodeByte;
  }

  lemma SamePointer(m: Bytes, x: int)
    ensures TwoBytes(m, 0, x % 0x1_0000) == TwoBytes(m, 0, x)
  {
  }

  // Branches ------------------------------------------------------------------------------------------

  /** A displacement, as a signed number. */
  function Signed(b: byte): int { if b >= 0x80 then b - 0x100 else b }

  /** Branches are relative to the end of the instruction, and stay in the bank. */
  lemma RelativeAddresses(s: State)
    ensures Effective(s, PCR) == s.PBR * 0x1_0000 + (s.PC + 2 + Signed(CodeByte(s, 1))) % 0x1_0000
    ensures Effective(s, PCRL) == s.PBR * 0x1_0000 + (s.PC + 3 + CodeByte(s, 1) + 0x100 * CodeByte(s, 2)) % 0x1_0000
  {
    hide At, CodeByte;
    CodeBytes(s);
    hide State.Op8, State.Op16;
    AtIsMod(s.PBR, s.PC + 2 + Signed(CodeByte(s, 1)));
    AtIsMod(s.PBR, s.PC + 3 + CodeByte(s, 1) + 0x100 * CodeByte(s, 2));
  }

  /** The state with other operand bytes. */
  function WithOperand(s: State, low: byte, high: byte): State {
    s.(m := s.m[s.PBR * 0x1_0000 + (s.PC + 1) % 0x1_0000 := low][s.PBR * 0x1_0000 + (s.PC + 2) % 0x1_0000 := high])
  }

  lemma OperandBytes(s: State, low: byte, high: byte)
    ensures CodeByte(WithOperand(s, low, high), 1) == low && CodeByte(WithOperand(s, low, high), 2) == high
  {
  }

  /** The offsets a short branch can reach are those from 128 before to 127 behind its end. */
  lemma ShortBranchReach(s: State, target: word)
    ensures (exists b: byte :: Effective(WithOperand(s, b, 0), PCR) == s.PBR * 0x1_0000 + target)
            <==> (target - s.PC - 2 + 0x80) % 0x1_0000 < 0x100
  {
    hide CodeByte, Effective;
    forall b: byte
      ensures Effective(WithOperand(s, b, 0), PCR) == s.PBR * 0x1_0000 + (s.PC + 2 + Signed(b)) % 0x1_0000
    {
      OperandBytes(s, b, 0);
      RelativeAddresses(WithOperand(s, b, 0));
    }
    var d := (target - s.PC - 2 + 0x80) % 0x1_0000;
    if d < 0x100 {
      var b: byte := if d >= 0x80 then d - 0x80 else d + 0x80;
      ReachedBy(s.PC, target, b);
      assert Effective(WithOperand(s, b, 0), PCR) == s.PBR * 0x1_0000 + target;
    }
    if b: byte :| Effective(WithOperand(s, b, 0), PCR) == s.PBR * 0x1_0000 + target {
      ReachedBy(s.PC, target, b);
    }
  }

  lemma ReachedBy(pc: word, target: word, b: byte)
    ensures (pc + 2 + Signed(b)) % 0x1_0000 == target <==> (target - pc - 2 + 0x80) % 0x1_0000 == Signed(b) + 0x80
  {
  }

  /** A long branch reaches every offset of its bank. */
  lemma LongBranchReach(s: State, target: word)
    ensures exists low: byte, high: byte :: Effective(WithOperand(s, low, high), PCRL) == s.PBR * 0x1_0000 + target
  {
    hide CodeByte, Effective;
    var d := (target - s.PC - 3) % 0x1_0000;
    var low, high := d % 0x100, d / 0x100;
    OperandBytes(s, low, high);
    RelativeAddresses(WithOperand(s, low, high));
    hide WithOperand;
    ReachedByLong(s.PC + 3, target);
    assert Effective(WithOperand(s, low, high), PCRL) == s.PBR * 0x1_0000 + target;
  }

  lemma ReachedByLong(from: int, target: word)
    ensures (from + (target - from) % 0x1_0000) % 0x1_0000 == target
  {
  }
}
