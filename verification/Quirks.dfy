/**
 Instructions and flags that do not do what their names say, and exactly when that can be noticed.
 */
module Quirks {
  import opened Words
  import opened Opcodes
  import opened Machine
  import opened Executor
  import opened Inverses
  import A = Arith
  import I = Instructions

  /** JMP [abs] goes to the address it finds exactly when that is in the bank it comes from. */
  lemma JumpLongStaysInBank(s: State)
    ensures var pointer := LongInBank(s.m, s.Op16());
            var t := Execute(s, Decode(0xdc));
            t.PBR == s.PBR && (At(t.PBR, t.PC) == pointer <==> pointer / 0x1_0000 == s.PBR)
  {
    hide LongInBank, State.Op16;
    assert Decode(0xdc) == Jump(ABSINDL);
    hide Decode;
    BankAndOffset(s.PBR, LongInBank(s.m, s.Op16()));
  }

  lemma BankAndOffset(bank: byte, a: addr)
    ensures At(bank, a % 0x1_0000) == a <==> a / 0x1_0000 == bank
  {
  }

  /** What SEP would do with the operand that follows it in its own bank. */
  function SetOwnBits(s: State): State {
    I.MaskIndex(s.(P := I.Raised(s.P, s.P.WithSr(s.Op8())))).Advance(2)
  }

  /** A flag that SEP can set: one that is clear, other than XB and M in emulation mode. */
  predicate Settable(p: Status, k: nat)
    requires k < 8
  {
    !Flag(p, k) && !(p.E && (k == 4 || k == 5))
  }

  /**
   * SEP takes its operand from bank 0. That is noticed unless the byte there and the operand agree on all
   * flags that can still be set.
   */
  lemma SetBitsFromBankZero(s: State)
    ensures Execute(s, Decode(0xe2)) == SetOwnBits(s)
            <==> forall k | 0 <= k < 8 && Settable(s.P, k) :: BitAt(s.Op8(), k) == BitAt(s.m[At(0, s.PC + 1)], k)
  {
    hide Status.WithSr, I.Raised, BitAt, At, Settable, Wrap, Low;
    assert Decode(0xe2) == SetBits;
    hide Decode;
    var v, w := s.Op8(), s.m[At(0, s.PC + 1)];
    RaisedAlike(s.P, s.P.WithSr(v), s.P.WithSr(w));
    FlagsAlike(s.P, s.P.WithSr(v), s.P.WithSr(w));
    hide SetAlike;
    forall k | 0 <= k < 8
      ensures Flag(s.P.WithSr(v), k) == BitAt(v, k) && Flag(s.P.WithSr(w), k) == BitAt(w, k)
    {
      WithSrBits(s.P, v, k);
      WithSrBits(s.P, w, k);
    }
  }

  /** The flags that can be set are the same in `q` and `r`. */
  predicate SetAlike(p: Status, q: Status, r: Status) {
    && (p.C || q.C == r.C) && (p.Z || q.Z == r.Z) && (p.I || q.I == r.I) && (p.D || q.D == r.D)
    && (p.E || p.XB || q.XB == r.XB) && (p.E || p.M || q.M == r.M)
    && (p.V || q.V == r.V) && (p.N || q.N == r.N)
  }

  lemma RaisedAlike(p: Status, q: Status, r: Status)
    ensures I.Raised(p, q) == I.Raised(p, r) <==> SetAlike(p, q, r)
  {
  }

  lemma SettableValues(p: Status)
    ensures (Settable(p, 0) <==> !p.C) && (Settable(p, 1) <==> !p.Z) && (Settable(p, 2) <==> !p.I)
    ensures (Settable(p, 3) <==> !p.D) && (Settable(p, 4) <==> !p.XB && !p.E) && (Settable(p, 5) <==> !p.M && !p.E)
    ensures (Settable(p, 6) <==> !p.V) && (Settable(p, 7) <==> !p.N)
  {
    FlagValues(p);
    hide Flag;
  }

  lemma FlagsAlike(p: Status, q: Status, r: Status)
    ensures SetAlike(p, q, r) <==> forall k | 0 <= k < 8 && Settable(p, k) :: Flag(q, k) == Flag(r, k)
  {
    SettableValues(p);
    FlagValues(q);
    FlagValues(r);
    hide Flag, Settable;
    if SetAlike(p, q, r) {
      forall k | 0 <= k < 8 && Settable(p, k) ensures Flag(q, k) == Flag(r, k) {
        assert k == 0 || k == 1 || k == 2 || k == 3 || k == 4 || k == 5 || k == 6 || k == 7;
      }
    }
  }

  /** The operand opcode 0x75 adds, and the one an instruction with its address would add. */
  function AddedOperand(s: State): word { I.Fetch(s.m, Effective(s, DPX), !s.P.Acc8(), false) }

  function IndexedOperand(s: State): word { I.Fetch(s.m, Effective(s, DPX), !s.P.Acc8(), true) }

  /**
   * ADC dp,X is dispatched with the mode of ADC (dp,X). The operand differs only when it is 16 bits wide
   * and lies at the end of bank 0.
   */
  lemma AddIndexedOperand(s: State)
    ensures AddedOperand(s) == IndexedOperand(s)
            <==> s.P.Acc8() || Effective(s, DPX) != 0xffff || s.m[0x1_0000] == s.m[0]
  {
    hide Effective, WordAt, WordInBank;
    DirectInBankZero(s);
    WordAtEnd(s.m, Effective(s, DPX));
  }

  /** A word at the end of bank 0 is the only one there that wrapping makes a difference to. */
  lemma WordAtEnd(m: Bytes, a: addr)
    requires a < 0x1_0000
    ensures WordAt(m, a) == WordInBank(m, a) <==> a != 0xffff || m[0x1_0000] == m[0]
  {
    BankWrapZero(a, 1);
    AtNearZero(a + 1);
    hide At, BankWrap;
  }

  lemma DirectInBankZero(s: State)
    ensures Effective(s, DPX) < 0x1_0000
  {
    hide State.Op8;
  }

  /**
   * The results are the same exactly when the operands are, for operands that stand for numbers: all in
   * binary mode, decimal digits in decimal mode.
   */
  lemma AddIndexedResult(s: State)
    requires A.Operand(s.P.D, true, s.C) && A.Operand(s.P.D, true, AddedOperand(s))
    requires A.Operand(s.P.D, true, IndexedOperand(s))
    ensures Execute(s, Decode(0x75)) == I.Read(s, ADC, DPX, Effective(s, DPX), 2)
            <==> AddedOperand(s) == IndexedOperand(s)
  {
    hide Effective, I.Fetch, A.Operand, I.AddTo, Execute, Decode;
    AddIndexedExecuted(s);
    if s.P.Acc8() {
      AddIndexedOperand(s);
    } else if AddedOperand(s) != IndexedOperand(s) {
      AddedDiffer(s, AddedOperand(s), IndexedOperand(s));
    }
  }

  lemma AddIndexedExecuted(s: State)
    ensures Execute(s, Decode(0x75)) == I.Read(s, ADC, DPINDX, Effective(s, DPX), 2)
  {
    hide Effective, I.Read;
  }

  lemma AddedDiffer(s: State, v: word, w: word)
    requires A.Operand(s.P.D, true, s.C) && A.Operand(s.P.D, true, v) && A.Operand(s.P.D, true, w) && v != w
    ensures I.AddTo(s, v, true).C != I.AddTo(s, w, true).C
  {
    hide A.Operand, A.RawSum, A.Kept, A.Carried, I.ArithmeticFlags;
    SumsDiffer(s.P.D, s.C, v, w, s.P.C);
  }

  lemma SumsDiffer(dec: bool, a: word, v: word, w: word, cin: bool)
    requires A.Operand(dec, true, a) && A.Operand(dec, true, v) && A.Operand(dec, true, w) && v != w
    ensures A.Kept(true, A.RawSum(dec, true, a, v, cin).al) != A.Kept(true, A.RawSum(dec, true, a, w, cin).al)
  {
    hide A.Value, A.Operand, A.RawSum, A.Kept, A.Carried;
    A.AddIsAddition(dec, true, a, v, cin);
    A.AddIsAddition(dec, true, a, w, cin);
    A.ValueRange(dec, true, v);
    A.ValueRange(dec, true, w);
    if A.Value(dec, v) == A.Value(dec, w) {
      A.ValueInjective(dec, true, v, w);
    }
  }

  // Flags of addition and subtraction ---------------------------------------------------------------

  /** The first number whose top bit is set. */
  function Half(wide: bool): int { if wide then 0x8000 else 0x80 }

  /** A register as a signed number. */
  function Signed(wide: bool, x: word): int { if x >= Half(wide) then x - 2 * Half(wide) else x }

  /** A number no register can hold as a signed one. */
  predicate Overflows(wide: bool, x: int) { x < -Half(wide) || x >= Half(wide) }

  /**
   * V after a binary ADC is the signed overflow exactly when both operands are positive, or both are
   * negative and their sum is out of range.
   */
  lemma AddOverflow(wide: bool, a: word, v: word, cin: bool)
    requires wide || (a < 0x100 && v < 0x100)
    ensures A.RawSum(false, wide, a, v, cin).v == Overflows(wide, Signed(wide, a) + Signed(wide, v) + Bit(cin))
            <==> (a < Half(wide) && v < Half(wide))
                 || (a >= Half(wide) && v >= Half(wide) && a + v + Bit(cin) < 3 * Half(wide))
  {
  }

  /** V after SBC is the signed overflow exactly when the operands have the same sign. */
  lemma SubOverflow(wide: bool, a: word, v: word, cin: bool)
    requires wide || (a < 0x100 && v < 0x100)
    ensures I.Borrowed(a, v, cin, wide).0 == Overflows(wide, Signed(wide, a) - Signed(wide, v) - 1 + Bit(cin))
            <==> (a < Half(wide) <==> v < Half(wide))
  {
  }

  /** C after SBC says that there was a borrow, while a C that is set before it says that there was none. */
  lemma CarryIsBorrow(wide: bool, a: word, v: word, cin: bool)
    requires wide || (a < 0x100 && v < 0x100)
    ensures I.Borrowed(a, v, cin, wide).1 <==> a - v - 1 + Bit(cin) < 0
  {
  }

  /** One digit of a difference, in binary mode. */
  function Digit(wide: bool, d: int): int { if d < 0 then d + A.Base(false, wide) else d }

  /**
   * So SBC cannot be chained: for no two numbers of two digits does subtracting first the low digits and
   * then the high ones give their difference. The high digit is always off by one.
   */
  lemma SubtractDoesNotChain(wide: bool, low: word, high: word, lowV: word, highV: word)
    requires wide || (low < 0x100 && high < 0x100 && lowV < 0x100 && highV < 0x100)
    ensures var c := I.Borrowed(low, lowV, true, wide).1;
            var out := A.Kept(wide, A.RawDifference(false, wide, high, highV, c));
            var borrow := if low < lowV then 1 else 0;
            && A.Kept(wide, A.RawDifference(false, wide, low, lowV, true)) == Digit(wide, low - lowV)
            && out == Digit(wide, high - highV - 1 + borrow)
            && out != Digit(wide, high - highV - borrow)
  {
    var c := I.Borrowed(low, lowV, true, wide).1;
    CarryIsBorrow(wide, low, lowV, true);
    hide I.Borrowed;
    A.SubIsSubtraction(false, wide, low, lowV, true);
    A.SubIsSubtraction(false, wide, high, highV, c);
    hide A.RawDifference, A.Kept;
  }
}
