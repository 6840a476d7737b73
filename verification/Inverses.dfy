/**
 What the register and memory operations mean, told by what undoes them: rotations, shifts, exclusive or,
 bit setting, comparisons, flag masks and stores.
 */
module Inverses {
  import opened Words
  import opened Bits
  import opened Opcodes
  import opened Machine
  import I = Instructions
  import K = Stack

  /** Bit `k` of a number. */
  predicate BitAt(x: nat, k: nat) {
    if k == 0 then x % 2 == 1 else BitAt(x / 2, k - 1)
  }

  /** A bitwise operation combines the bits at each place, and nothing else. */
  lemma {:induction false} BitwiseBits(op: Logic, n: nat, x: nat, y: nat, k: nat)
    requires k < n
    ensures BitAt(Bitwise(op, n, x, y), k) == Combine(op, BitAt(x, k), BitAt(y, k))
  {
    hide BitAt;
    HalvedBit(x, k);
    HalvedBit(y, k);
    LowBit(Combine(op, x % 2 == 1, y % 2 == 1), Bitwise(op, n - 1, x / 2, y / 2), k);
    if k == 0 {
    } else {
      BitwiseBits(op, n - 1, x / 2, y / 2, k - 1);
    }
  }

  /** The low bits of `x + 2^n * y` are those of `x`, the others those of `y`. */
  lemma {:induction false} JoinedBits(n: nat, x: nat, y: nat, k: nat)
    requires x < Pow2(n)
    ensures BitAt(x + Pow2(n) * y, k) == if k < n then BitAt(x, k) else BitAt(y, k - n)
  {
    if n == 0 {
    } else {
      hide BitAt;
      var z := x + Pow2(n) * y;
      assert Pow2(n) * y == 2 * (Pow2(n - 1) * y);
      assert z % 2 == x % 2 && z / 2 == x / 2 + Pow2(n - 1) * y;
      HalvedBit(z, k);
      HalvedBit(x, k);
      if k > 0 {
        JoinedBits(n - 1, x / 2, y, k - 1);
      }
    }
  }

  /** The bits from place `n` on are the same. */
  ghost predicate SameAbove(n: nat, x: word, y: word) { forall j | n <= j < 16 :: BitAt(x, j) == BitAt(y, j) }

  /** Below it they are the combined bits of `x` and `y`. */
  ghost predicate Combines(op: Logic, n: nat, r: word, x: word, y: word) {
    forall j | 0 <= j < n :: BitAt(r, j) == Combine(op, BitAt(x, j), BitAt(y, j))
  }

  ghost predicate NoneSet(n: nat, x: nat) { forall j | 0 <= j < n :: !BitAt(x, j) }

  /**
   * AND, ORA and EOR combine operand and accumulator at every bit place of the accumulator's width, leave
   * the other bits of C alone, and set N and Z from the result.
   */
  lemma LogicBits(s: State, op: Logic, v: word, wide: bool)
    requires wide || v < 0x100
    ensures var t := I.Combine(s, op, v, wide);
            var n := if wide then 16 else 8;
            && Combines(op, n, t.C, s.C, v) && SameAbove(n, t.C, s.C)
            && (t.P.N <==> BitAt(t.C, n - 1)) && (t.P.Z <==> NoneSet(n, t.C))
  {
    hide Bitwise, BitAt, Pow2, Combines, SameAbove, NoneSet, WithLow, Low;
    if wide {
      WideLogic(op, s.C, v);
      assert I.Combine(s, op, v, wide) == s.(C := Logic16(op, s.C, v), P := s.P.NZ(Logic16(op, s.C, v), true));
    } else {
      var out := Logic8(op, Low(s.C), v);
      NarrowLogic(op, s.C, v);
      LowIs(out);
      assert I.Combine(s, op, v, wide) == s.(C := WithLow(s.C, out), P := s.P.NZ(out, false));
    }
  }

  lemma LowIs(b: byte)
    ensures Low(b) == b
  {
  }

  lemma WideLogic(op: Logic, c: word, v: word)
    ensures var out := Logic16(op, c, v);
            && Combines(op, 16, out, c, v) && SameAbove(16, out, c)
            && (BitAt(out, 15) <==> out >= 0x8000) && (NoneSet(16, out) <==> out == 0)
  {
    hide Bitwise, BitAt, Pow2;
    Pow2Of8And16();
    var out := Logic16(op, c, v);
    forall j | 0 <= j < 16 ensures BitAt(out, j) == Combine(op, BitAt(c, j), BitAt(v, j)) {
      BitwiseBits(op, 16, c, v, j);
    }
    TopBitAt(out, 16);
    NoBits(16, out);
  }

  lemma NarrowLogic(op: Logic, c: word, v: byte)
    ensures var out := Logic8(op, Low(c), v);
            var r := WithLow(c, out);
            && Combines(op, 8, r, c, v) && SameAbove(8, r, c)
            && (BitAt(r, 7) <==> out >= 0x80) && (NoneSet(8, r) <==> out == 0)
  {
    hide Bitwise, BitAt, Pow2, Low, WithLow;
    Pow2Of8And16();
    var out := Logic8(op, Low(c), v);
    forall j | 0 <= j < 16 ensures BitAt(WithLow(c, out), j) == BitAt(if j < 8 then out else c, j) {
      BytesBits(c, out, j);
    }
    forall j | 0 <= j < 8 ensures BitAt(out, j) == Combine(op, BitAt(c, j), BitAt(v, j)) {
      BitwiseBits(op, 8, Low(c), v, j);
      BytesBits(c, out, j);
    }
    TopBitAt(out, 8);
    NoBits(8, out);
  }

  /** A word with another low byte. */
  lemma BytesBits(w: word, b: byte, k: nat)
    requires k < 16
    ensures BitAt(WithLow(w, b), k) == if k < 8 then BitAt(b, k) else BitAt(w, k)
    ensures k < 8 ==> BitAt(Low(w), k) == BitAt(w, k)
  {
    hide BitAt, Pow2;
    Pow2Of8And16();
    JoinedBits(8, b, w / 0x100, k);
    JoinedBits(8, Low(w), w / 0x100, k);
    assert Low(w) + 0x100 * (w / 0x100) == w && WithLow(w, b) == b + 0x100 * (w / 0x100);
  }

  lemma TopBitAt(x: nat, n: nat)
    requires 0 < n && x < Pow2(n)
    ensures BitAt(x, n - 1) <==> 2 * x >= Pow2(n)
  {
    var y := if 2 * x >= Pow2(n) then 1 else 0;
    JoinedBits(n - 1, x - Pow2(n - 1) * y, y, n - 1);
  }

  lemma NoBits(n: nat, x: nat)
    requires x < Pow2(n)
    ensures NoneSet(n, x) <==> x == 0
  {
    hide BitAt, Pow2;
    var y := 0;
    forall j | 0 <= j < n ensures !BitAt(y, j) {
      NoBitsOfZero(y, j);
    }
    if NoneSet(n, x) {
      SameBits(n, x, y);
    }
  }

  lemma {:induction false} NoBitsOfZero(x: nat, k: nat)
    requires x == 0
    ensures !BitAt(x, k)
  {
    if k == 0 {
    } else {
      NoBitsOfZero(x / 2, k - 1);
    }
  }

  lemma {:induction false} XorTwice(n: nat, x: nat, y: nat)
    requires x < Pow2(n)
    ensures Bitwise(Xor, n, Bitwise(Xor, n, x, y), y) == x
  {
    if n == 0 {
    } else {
      var b, rest := Bit(Combine(Xor, x % 2 == 1, y % 2 == 1)), Bitwise(Xor, n - 1, x / 2, y / 2);
      assert (b + 2 * rest) % 2 == b && (b + 2 * rest) / 2 == rest;
      XorTwice(n - 1, x / 2, y / 2);
    }
  }

  /** EOR of the same operand twice restores the accumulator. */
  lemma ExclusiveOrTwice(s: State, v: word, wide: bool)
    requires wide || v < 0x100
    ensures I.Combine(I.Combine(s, Xor, v, wide), Xor, v, wide).C == s.C
  {
    hide Bitwise, Status.NZ;
    Pow2Of8And16();
    XorTwice(16, s.C, v);
    if !wide {
      XorTwice(8, Low(s.C), v);
      LowAgain(s.C, Logic8(Xor, Low(s.C), v));
    }
  }

  lemma LowAgain(w: word, v: int)
    requires 0 <= v < 0x100
    ensures Low(WithLow(w, v)) == v && WithLow(WithLow(w, v), Low(w)) == w
  {
  }

  /** A shift moves the operand and its carry by one bit, losing nothing. */
  lemma ShiftsKeepAllBits(s: State, v: word, wide: bool)
    requires wide || v < 0x100
    ensures var out, carry := I.Modified(s, ASL, v, wide), I.ModifiedFlags(s, ASL, v, wide).C;
            out + (if wide then 0x1_0000 else 0x100) * Bit(carry) == 2 * v
    ensures 2 * I.Modified(s, LSR, v, wide) + Bit(I.ModifiedFlags(s, LSR, v, wide).C) == v
  {
    hide Status.NZ;
  }

  /** A rotation to the right undoes one to the left: operand and carry are as they were. */
  lemma RotateBack(s: State, v: word, wide: bool)
    requires wide || v < 0x100
    ensures var w := I.Modified(s, ROL, v, wide);
            var t := s.(P := I.ModifiedFlags(s, ROL, v, wide));
            && (wide || w < 0x100)
            && I.Modified(t, ROR, w, wide) == v && I.ModifiedFlags(t, ROR, w, wide).C == s.P.C
  {
    hide Status.NZ, I.Rotated, I.RotatedLeft, I.TopBit;
    RotatedBack(v, s.P.C, wide);
  }

  lemma TwiceCut(v: word, rest: word, half: word)
    requires half == 0x8000 || half == 0x80
    requires v < 2 * half && rest == if v >= half then v - half else v
    ensures v * 2 % (if half == 0x8000 then 0x1_0000 else 0x100) == 2 * rest
  {
  }

  lemma RotatedBack(v: word, c: bool, wide: bool)
    requires wide || v < 0x100
    ensures var w, top := I.RotatedLeft(v, c, wide), I.TopBit(v, wide);
            && (wide || w < 0x100)
            && I.Rotated(w, top, wide) == v && (w % 2 == 1 <==> c)
  {
    var half := if wide then 0x8000 else 0x80;
    var rest := if I.TopBit(v, wide) then v - half else v;
    assert I.RotatedLeft(v, c, wide) == 2 * rest + Bit(c) by {
      TwiceCut(v, rest, half);
    }
    hide I.RotatedLeft;
    assert (2 * rest + Bit(c)) / 2 == rest && (2 * rest + Bit(c)) % 2 == Bit(c);
  }

  /** After TSB the bits of the accumulator are set in memory, after TRB they are clear; the others stay. */
  lemma MaskedBits(v: word, a: word, wide: bool, k: nat)
    requires wide || (v < 0x100 && a < 0x100)
    requires k < if wide then 16 else 8
    ensures BitAt(I.Masked(v, a, true, wide), k) == (BitAt(v, k) || BitAt(a, k))
    ensures BitAt(I.Masked(v, a, false, wide), k) == (BitAt(v, k) && !BitAt(a, k))
  {
    hide Bitwise, BitAt;
    var n := if wide then 16 else 8;
    Pow2Of8And16();
    BitwiseBits(Or, n, v, a, k);
    BitwiseBits(And, n, v, Pow2(n) - 1 - a, k);
    Complement(n, a, k);
  }

  lemma {:induction false} Complement(n: nat, a: nat, k: nat)
    requires k < n && a < Pow2(n)
    ensures BitAt(Pow2(n) - 1 - a, k) == !BitAt(a, k)
  {
    var c := Pow2(n) - 1 - a;
    assert c == 2 * (Pow2(n - 1) - 1 - a / 2) + (1 - a % 2);
    assert c % 2 == 1 - a % 2 && c / 2 == Pow2(n - 1) - 1 - a / 2;
    if k == 0 {
    } else {
      Complement(n - 1, a / 2, k - 1);
    }
  }

  /** A comparison orders: C means not less, Z equal, and N is the top bit of the difference. */
  lemma ComparisonOrders(p: Status, a: word, v: word, wide: bool)
    requires wide || (a < 0x100 && v < 0x100)
    ensures var q := I.Compared(p, a, v, wide);
            var base := if wide then 0x1_0000 else 0x100;
            && (q.C <==> v <= a) && (q.Z <==> v == a)
            && (q.N <==> if v <= a then 2 * (a - v) >= base else 2 * (a - v + base) >= base)
  {
  }

  /** The flag kept in bit `k` of SR. */
  function Flag(p: Status, k: nat): bool {
    if k < 4 then if k < 2 then if k == 0 then p.C else p.Z else if k == 2 then p.I else p.D
    else if k < 6 then if k == 4 then p.XB else p.M
    else if k == 6 then p.V else p.N
  }

  lemma SrBits(p: Status, k: nat)
    requires k < 8
    ensures BitAt(p.Sr(), k) == Flag(p, k)
  {
    var n4 := Bit(p.XB) + 2 * (Bit(p.M) + 2 * (Bit(p.V) + 2 * Bit(p.N)));
    assert p.Sr() == Bit(p.C) + 2 * (Bit(p.Z) + 2 * (Bit(p.I) + 2 * (Bit(p.D) + 2 * n4)));
    hide BitAt, Status.Sr, Flag;
    if k < 4 {
      LowBits(p, n4, k);
    } else {
      FourBits(p.C, p.Z, p.I, p.D, n4, k);
      HighBits(p, k - 4);
    }
  }

  lemma LowBits(p: Status, rest: nat, k: nat)
    requires k < 4
    ensures BitAt(Bit(p.C) + 2 * (Bit(p.Z) + 2 * (Bit(p.I) + 2 * (Bit(p.D) + 2 * rest))), k) == Flag(p, k)
  {
    hide BitAt;
    LowBit(p.C, Bit(p.Z) + 2 * (Bit(p.I) + 2 * (Bit(p.D) + 2 * rest)), k);
    LowBit(p.Z, Bit(p.I) + 2 * (Bit(p.D) + 2 * rest), k - 1);
    LowBit(p.I, Bit(p.D) + 2 * rest, k - 2);
    LowBit(p.D, rest, k - 3);
    assert k == 0 || k == 1 || k == 2 || k == 3;
  }

  lemma HighBits(p: Status, k: nat)
    requires k < 4
    ensures BitAt(Bit(p.XB) + 2 * (Bit(p.M) + 2 * (Bit(p.V) + 2 * Bit(p.N))), k) == Flag(p, k + 4)
  {
    hide BitAt;
    LowBit(p.XB, Bit(p.M) + 2 * (Bit(p.V) + 2 * Bit(p.N)), k);
    LowBit(p.M, Bit(p.V) + 2 * Bit(p.N), k - 1);
    LowBit(p.V, Bit(p.N), k - 2);
    LowBit(p.N, 0, k - 3);
    assert k == 0 || k == 1 || k == 2 || k == 3;
  }

  lemma FourBits(a: bool, b: bool, c: bool, d: bool, rest: nat, k: nat)
    requires k >= 4
    ensures BitAt(Bit(a) + 2 * (Bit(b) + 2 * (Bit(c) + 2 * (Bit(d) + 2 * rest))), k) == BitAt(rest, k - 4)
  {
    hide BitAt;
    LowBit(a, Bit(b) + 2 * (Bit(c) + 2 * (Bit(d) + 2 * rest)), k);
    LowBit(b, Bit(c) + 2 * (Bit(d) + 2 * rest), k - 1);
    LowBit(c, Bit(d) + 2 * rest, k - 2);
    LowBit(d, rest, k - 3);
  }

  lemma LowBit(b: bool, rest: nat, k: int)
    ensures k == 0 ==> BitAt(Bit(b) + 2 * rest, 0) == b
    ensures k > 0 ==> BitAt(Bit(b) + 2 * rest, k) == BitAt(rest, k - 1)
  {
    assert (Bit(b) + 2 * rest) % 2 == Bit(b) && (Bit(b) + 2 * rest) / 2 == rest;
  }

  lemma WithSrBits(p: Status, v: byte, k: nat)
    requires k < 8
    ensures Flag(p.WithSr(v), k) == BitAt(v, k)
  {
    HalvedBit(v, k);
    HalvedBit(v / 2, k - 1);
    HalvedBit(v / 2 / 2, k - 2);
    HalvedBit(v / 2 / 2 / 2, k - 3);
    HalvedBit(v / 2 / 2 / 2 / 2, k - 4);
    HalvedBit(v / 2 / 2 / 2 / 2 / 2, k - 5);
    HalvedBit(v / 2 / 2 / 2 / 2 / 2 / 2, k - 6);
    HalvedBit(v / 2 / 2 / 2 / 2 / 2 / 2 / 2, k - 7);
    hide BitAt;
  }

  lemma HalvedBit(x: nat, k: int)
    ensures k == 0 ==> BitAt(x, 0) == (x % 2 == 1)
    ensures k > 0 ==> BitAt(x, k) == BitAt(x / 2, k - 1)
  {
  }

  lemma {:induction false} SameBits(n: nat, x: nat, y: nat)
    requires x < Pow2(n) && y < Pow2(n) && forall k | 0 <= k < n :: BitAt(x, k) == BitAt(y, k)
    ensures x == y
  {
    if n == 0 {
    } else {
      HalvedBit(x, 0);
      HalvedBit(y, 0);
      forall k | 0 <= k < n - 1 ensures BitAt(x / 2, k) == BitAt(y / 2, k) {
        HalvedBit(x, k + 1);
        HalvedBit(y, k + 1);
        assert BitAt(x, k + 1) == BitAt(y, k + 1);
      }
      SameBits(n - 1, x / 2, y / 2);
    }
  }

  lemma FlagValues(p: Status)
    ensures Flag(p, 0) == p.C && Flag(p, 1) == p.Z && Flag(p, 2) == p.I && Flag(p, 3) == p.D
    ensures Flag(p, 4) == p.XB && Flag(p, 5) == p.M && Flag(p, 6) == p.V && Flag(p, 7) == p.N
  {
  }

  lemma MaskBits(p: Status, q: Status, k: nat)
    requires k < 8
    ensures var active := !(p.E && (k == 4 || k == 5));
            && Flag(I.Raised(p, q), k) == (Flag(p, k) || (active && Flag(q, k)))
            && Flag(I.Cleared(p, q), k) == (Flag(p, k) && !(active && Flag(q, k)))
  {
    hide Flag;
    FlagValues(p);
    FlagValues(q);
    FlagValues(I.Raised(p, q));
    FlagValues(I.Cleared(p, q));
    assert k == 0 || k == 1 || k == 2 || k == 3 || k == 4 || k == 5 || k == 6 || k == 7;
  }

  /** The bits of the operand that REP and SEP act on: not those of XB and M in emulation mode. */
  function ActiveBits(p: Status, v: byte): byte { if p.E then Logic8(And, v, 0xcf) else v }

  lemma ActiveBitAt(p: Status, v: byte, k: nat)
    requires k < 8
    ensures BitAt(ActiveBits(p, v), k) == (BitAt(v, k) && !(p.E && (k == 4 || k == 5)))
  {
    if p.E {
      BitwiseBits(And, 8, v, 0xcf, k);
      MaskBit(k);
    }
  }

  lemma MaskBit(k: nat)
    requires k < 8
    ensures BitAt(0xcf, k) == (k != 4 && k != 5)
  {
    HalvedBit(0xcf, k);
    HalvedBit(0x67, k - 1);
    HalvedBit(0x33, k - 2);
    HalvedBit(0x19, k - 3);
    HalvedBit(0x0c, k - 4);
    HalvedBit(0x06, k - 5);
    HalvedBit(0x03, k - 6);
    HalvedBit(0x01, k - 7);
    hide BitAt;
  }

  lemma RaisedIsOr(p: Status, v: byte)
    ensures I.Raised(p, p.WithSr(v)).Sr() == Logic8(Or, p.Sr(), ActiveBits(p, v))
  {
    hide BitAt, Status.Sr, Status.WithSr, Bitwise, Pow2, I.Raised, Flag, ActiveBits;
    Pow2Of8And16();
    var raised, w := I.Raised(p, p.WithSr(v)), ActiveBits(p, v);
    forall k | 0 <= k < 8 ensures BitAt(raised.Sr(), k) == BitAt(Bitwise(Or, 8, p.Sr(), w), k) {
      MaskBits(p, p.WithSr(v), k);
      WithSrBits(p, v, k);
      ActiveBitAt(p, v, k);
      SrBits(p, k);
      SrBits(raised, k);
      BitwiseBits(Or, 8, p.Sr(), w, k);
    }
    SameBits(8, raised.Sr(), Bitwise(Or, 8, p.Sr(), w));
  }

  lemma ClearedIsAnd(p: Status, v: byte)
    ensures I.Cleared(p, p.WithSr(v)).Sr() == Logic8(And, p.Sr(), 0xff - ActiveBits(p, v))
  {
    hide BitAt, Status.Sr, Status.WithSr, Bitwise, Pow2, I.Cleared, Flag, ActiveBits;
    Pow2Of8And16();
    var cleared, w := I.Cleared(p, p.WithSr(v)), ActiveBits(p, v);
    forall k | 0 <= k < 8 ensures BitAt(cleared.Sr(), k) == BitAt(Bitwise(And, 8, p.Sr(), 0xff - w), k) {
      MaskBits(p, p.WithSr(v), k);
      WithSrBits(p, v, k);
      ActiveBitAt(p, v, k);
      SrBits(p, k);
      SrBits(cleared, k);
      BitwiseBits(And, 8, p.Sr(), 0xff - w, k);
      Complement(8, w, k);
    }
    SameBits(8, cleared.Sr(), Bitwise(And, 8, p.Sr(), 0xff - w));
  }

  /** SEP is a bitwise or of the active bits of the byte it takes into SR. */
  lemma SetIsBitwiseOr(s: State)
    ensures I.SetBits(s).P.Sr() == Logic8(Or, s.P.Sr(), ActiveBits(s.P, s.m[At(0, s.PC + 1)]))
  {
    hide Status.Sr, Status.WithSr, I.Raised, ActiveBits, Bitwise;
    RaisedIsOr(s.P, s.m[At(0, s.PC + 1)]);
  }

  /** REP is a bitwise and of SR with the complement of the active bits of its operand. */
  lemma ResetIsBitwiseAnd(s: State)
    ensures I.ResetBits(s).P.Sr() == Logic8(And, s.P.Sr(), 0xff - ActiveBits(s.P, s.Op8()))
  {
    hide Status.Sr, Status.WithSr, I.Cleared, ActiveBits, Bitwise, State.Op8;
    ClearedIsAnd(s.P, s.Op8());
  }

  /** PLP undoes PHP: all eight flags are back, but that emulation mode forces M and XB. */
  lemma PullUndoesPushOfFlags(s: State)
    requires K.Placed(s.P.E, s.SP)
    ensures var t := I.Pull(I.Push(s, PHP), PLP);
            t.SP == s.SP && t.P == if s.P.E then s.P.(XB := true, M := true) else s.P
  {
    hide Status.Sr, Status.WithSr, TopByte, DropByte, PushByte, I.Push, I.Pull, K.SameInside, K.SameOutside, K.Below;
    var u := I.Push(s, PHP);
    PushedFlags(s);
    K.ByteEffect(s, s.P.Sr());
    K.SameAsPushed(s.P.E, s.SP, PushByte(s, s.P.Sr()).m);
    K.PullByte(s, s.P.Sr(), u);
    PulledFlags(u);
    FlagsBack(s.P);
  }

  lemma PushedFlags(s: State)
    ensures I.Push(s, PHP) == PushByte(s, s.P.Sr()).Advance(1)
  {
    hide Status.Sr, PushByte, State.Advance;
  }

  lemma PulledFlags(s: State)
    ensures var t, q := I.Pull(s, PLP), s.P.WithSr(TopByte(s));
            t.SP == DropByte(s).SP && t.P == if s.P.E then q.(XB := true, M := true) else q
  {
    hide Status.WithSr, TopByte, Low, State.SetSp, Wrap;
  }

  lemma FlagsBack(p: Status)
    ensures p.WithSr(p.Sr()) == p
  {
    hide Status.Sr, Status.WithSr;
    SrRoundTrip(p, p);
  }
}
