/**
 What the operations on data do, told by values, bits and bytes: loads, arithmetic, comparisons, tests and
 logic on an operand, stores, and changes made in place.
 */
module DataEffects {
  import opened Words
  import opened Bits
  import opened Opcodes
  import opened Machine
  import opened Inverses
  import opened Effects
  import A = Arith
  import I = Instructions

  // Operands ----------------------------------------------------------------------------------------

  /** How many values the operand of an operation has. */
  function OperandValues(p: Status, op: ReadOp): int {
    if op.LDX? || op.LDY? || op.CPX? || op.CPY? then IndexValues(p) else AccValues(p)
  }

  /** Where the second byte of an operand is: at the start of the bank or of memory after its end. */
  function SecondByte(a: addr, around: bool): addr {
    if around then a / 0x1_0000 * 0x1_0000 + (a + 1) % 0x1_0000 else (a + 1) % 0x100_0000
  }

  /** The operand of as many values at an address. */
  function OperandAt(m: Bytes, a: addr, values: int, around: bool): word {
    var high: int := m[SecondByte(a, around)];
    if values == 0x100 then m[a] else m[a] + 0x100 * high
  }

  /** Operands in the direct page, on the stack and in the program stay in their bank. */
  predicate Around(mode: Mode) { mode.DP? || mode.DPX? || mode.DPY? || mode.SR? || mode.IMMD? }

  lemma FetchedBytes(m: Bytes, a: addr, wide: bool, inBank: bool)
    ensures I.Fetch(m, a, wide, inBank) == OperandAt(m, a, Values(wide), inBank)
  {
    BankNext(a);
    LinearIsMod(a + 1);
    hide Linear, BankWrap;
  }

  lemma BankNext(a: addr)
    ensures BankWrap(a, 1) == SecondByte(a, true)
  {
  }

  /** An operation takes its operand from the bytes at the address, and an immediate one may be longer. */
  lemma ReadsOperand(s: State, op: ReadOp, mode: Mode, a: addr, size: nat)
    requires I.Knows(op, mode) && (mode.DPY? ==> op.LDX?)
    ensures var values := OperandValues(s.P, op);
            var v := OperandAt(s.m, a, values, Around(mode));
            && v < values
            && I.Read(s, op, mode, a, size)
               == I.Reading(s, op, v, mode).Advance(if mode.IMMD? && values == 0x1_0000 then size + 1 else size)
  {
    hide I.Fetch, OperandAt, I.Reading, I.Knows, Wrap;
    FetchedBytes(s.m, a, I.Wide(s.P, op), Around(mode));
  }

  // Loads -------------------------------------------------------------------------------------------

  /** A load changes the register of its name to the operand, shows it in N and Z, and leaves the rest alone. */
  lemma Loads(s: State, op: ReadOp, v: word, mode: Mode)
    requires (op.LDA? || op.LDX? || op.LDY?) && v < OperandValues(s.P, op)
    ensures var t := I.Reading(s, op, v, mode);
            && (if op.LDA? then t == s.(C := s.C - s.C % AccValues(s.P) + v, P := t.P)
                else if op.LDX? then t == s.(X := v, P := t.P)
                else t == s.(Y := v, P := t.P))
            && ShowsResult(s.P, t.P, v, OperandValues(s.P, op))
  {
    hide Status.NZ, ShowsResult;
    ResultShown(s.P, v, I.Wide(s.P, op));
  }

  // Arithmetic --------------------------------------------------------------------------------------

  /** Only the low bits of C that the accumulator has may change, and these flags. */
  predicate OnlyAccumulator(s: State, t: State) {
    && t == s.(C := t.C, P := s.P.(C := t.P.C, Z := t.P.Z, V := t.P.V, N := t.P.N))
    && s.C - s.C % AccValues(s.P) == t.C - t.C % AccValues(s.P)
  }

  predicate Shown(q: Status, out: int, values: int) { (q.Z <==> out == 0) && (q.N <==> 2 * out >= values) }

  /** ADC leaves the low part of the sum in the accumulator, its carry in C, its overflow in V. */
  lemma AddsOperand(s: State, v: word, mode: Mode)
    requires v < AccValues(s.P)
    ensures var t, n := I.Reading(s, ADC, v, mode), AccValues(s.P);
            var sum := A.RawSum(s.P.D, n == 0x1_0000, s.C % n, v, s.P.C);
            && OnlyAccumulator(s, t) && t.C % n == sum.al % n
            && t.P.V == sum.v && (t.P.C <==> sum.al >= n) && Shown(t.P, t.C % n, n)
  {
    hide A.RawSum, Low, WithLow;
    var n, wide := AccValues(s.P), !s.P.Acc8();
    var sum := A.RawSum(s.P.D, wide, I.Narrowed(s.C, wide), v, s.P.C);
    LowPart(s.C);
    WithLowPart(s.C, A.Kept(wide, sum.al));
    ResultShown(s.P, A.Kept(wide, sum.al), wide);
  }

  /** SBC does the same with the difference, C and V being those of the binary one. */
  lemma SubtractsOperand(s: State, v: word, mode: Mode)
    requires v < AccValues(s.P)
    ensures var t, n := I.Reading(s, SBC, v, mode), AccValues(s.P);
            var (overflow, carry) := I.Borrowed(s.C % n, v, s.P.C, n == 0x1_0000);
            && OnlyAccumulator(s, t)
            && t.C % n == A.RawDifference(s.P.D, n == 0x1_0000, s.C % n, v, s.P.C) % n
            && t.P.V == overflow && t.P.C == carry && Shown(t.P, t.C % n, n)
  {
    hide A.RawDifference, I.Borrowed, Low, WithLow;
    var n, wide := AccValues(s.P), !s.P.Acc8();
    var al := A.RawDifference(s.P.D, wide, I.Narrowed(s.C, wide), v, s.P.C);
    LowPart(s.C);
    WithLowPart(s.C, A.Kept(wide, al));
    ResultShown(s.P, A.Kept(wide, al), wide);
  }

  lemma LowPart(c: word)
    ensures Low(c) == c % 0x100
  {
  }

  lemma WithLowPart(c: word, v: word)
    ensures v < 0x100 ==> WithLow(c, v) % 0x100 == v && WithLow(c, v) - v == c - c % 0x100
  {
  }

  // Comparisons and tests -----------------------------------------------------------------------------

  /** The register a comparison takes, by its name. */
  function Comparand(s: State, op: ReadOp): int {
    if op.CPX? then s.X % IndexValues(s.P) else if op.CPY? then s.Y % IndexValues(s.P) else s.C % AccValues(s.P)
  }

  /** CMP, CPX and CPY order a register and the operand in C and Z, and change no register. */
  lemma Compares(s: State, op: ReadOp, v: word, mode: Mode)
    requires (op.CMP? || op.CPX? || op.CPY?) && v < OperandValues(s.P, op)
    ensures var t, a, n := I.Reading(s, op, v, mode), Comparand(s, op), OperandValues(s.P, op);
            && t == s.(P := s.P.(C := t.P.C, Z := t.P.Z, N := t.P.N))
            && (t.P.C <==> v <= a) && (t.P.Z <==> v == a)
            && (t.P.N <==> 2 * (if v <= a then a - v else a - v + n) >= n)
  {
    hide I.Compared, Comparand, I.Reading;
    var wide := OperandValues(s.P, op) == 0x1_0000;
    ComparandIs(s, op, v, mode);
    ComparisonOrders(s.P, Comparand(s, op), v, wide);
  }

  lemma ComparandIs(s: State, op: ReadOp, v: word, mode: Mode)
    requires (op.CMP? || op.CPX? || op.CPY?) && v < OperandValues(s.P, op)
    ensures var a, values := Comparand(s, op), OperandValues(s.P, op);
            0 <= a < values && I.Reading(s, op, v, mode) == s.(P := I.Compared(s.P, a, v, values == 0x1_0000))
  {
    hide I.Compared;
  }

  lemma HalfBits(v: word, wide: bool)
    requires wide || v < 0x100
    ensures BitAt(v, if wide then 15 else 7) == (v >= if wide then 0x8000 else 0x80)
    ensures BitAt(v, if wide then 14 else 6) == I.SecondBit(v, wide)
  {
    if wide {
      EighthBit(v, 7);
      EighthBit(v, 6);
      ByteBits(v / 0x100);
    } else {
      ByteBits(v);
    }
  }

  lemma EighthBit(v: word, k: nat)
    requires k < 8
    ensures BitAt(v, k + 8) == BitAt(v / 0x100, k)
  {
    Pow2Of8And16();
    assert v == v % 0x100 + Pow2(8) * (v / 0x100);
    JoinedBits(8, v % 0x100, v / 0x100, k + 8);
  }

  lemma ByteBits(b: byte)
    ensures BitAt(b, 7) == (b >= 0x80) && BitAt(b, 6) == (b / 0x40 % 2 == 1)
  {
    HalvedBit(b, 7);
    HalvedBit(b / 2, 6);
    HalvedBit(b / 2 / 2, 5);
    HalvedBit(b / 2 / 2 / 2, 4);
    HalvedBit(b / 2 / 2 / 2 / 2, 3);
    HalvedBit(b / 2 / 2 / 2 / 2 / 2, 2);
    HalvedBit(b / 2 / 2 / 2 / 2 / 2 / 2, 1);
    HalvedBit(b / 2 / 2 / 2 / 2 / 2 / 2 / 2, 0);
    HalvedBit(b, 6);
    HalvedBit(b / 2, 5);
    HalvedBit(b / 2 / 2, 4);
    HalvedBit(b / 2 / 2 / 2, 3);
    HalvedBit(b / 2 / 2 / 2 / 2, 2);
    HalvedBit(b / 2 / 2 / 2 / 2 / 2, 1);
    HalvedBit(b / 2 / 2 / 2 / 2 / 2 / 2, 0);
    hide BitAt;
  }

  /** No place below `n` has a one in both. */
  ghost predicate NoCommonBit(n: nat, x: nat, y: nat) { forall j | 0 <= j < n :: !(BitAt(x, j) && BitAt(y, j)) }

  lemma CommonIsNone(n: nat, x: nat, y: nat)
    ensures Bitwise(And, n, x, y) == 0 <==> NoCommonBit(n, x, y)
  {
    hide BitAt, Bitwise, Pow2;
    forall j | 0 <= j < n ensures BitAt(Bitwise(And, n, x, y), j) == (BitAt(x, j) && BitAt(y, j)) {
      BitwiseBits(And, n, x, y, j);
    }
    NoBits(n, Bitwise(And, n, x, y));
  }

  lemma LowCommon(c: word, v: word)
    ensures NoCommonBit(8, Low(c), v) <==> NoCommonBit(8, c, v)
  {
    hide BitAt, Low;
    forall j | 0 <= j < 8 ensures BitAt(Low(c), j) == BitAt(c, j) {
      BytesBits(c, 0, j);
    }
  }

  lemma CommonBits(c: word, v: word, wide: bool)
    requires wide || v < 0x100
    ensures (if wide then Logic16(And, c, v) else Logic8(And, Low(c), v)) == 0
            <==> NoCommonBit(if wide then 16 else 8, c, v)
  {
    hide Bitwise, NoCommonBit, Low;
    CommonIsNone(16, c, v);
    CommonIsNone(8, Low(c), v);
    LowCommon(c, v);
  }

  /** BIT sets Z when operand and accumulator have no bit in common; in memory it shows the top two bits. */
  lemma Tests(s: State, v: word, mode: Mode)
    requires v < AccValues(s.P) && (mode.DP? || mode.DPX? || mode.ABS? || mode.ABSX? || mode.IMMD?)
    ensures var t, n := I.Reading(s, BIT, v, mode), if s.P.E || s.P.M then 8 else 16;
            && t == s.(P := s.P.(Z := t.P.Z, V := t.P.V, N := t.P.N))
            && (t.P.Z <==> NoCommonBit(n, s.C, v))
            && t.P.N == (if mode.IMMD? then s.P.N else BitAt(v, n - 1))
            && t.P.V == (if mode.IMMD? then s.P.V else BitAt(v, n - 2))
  {
    hide BitAt, NoCommonBit, Logic8, Logic16, I.SecondBit, Low;
    CommonBits(s.C, v, !s.P.Acc8());
    HalfBits(v, !s.P.Acc8());
  }

  /** AND, ORA and EOR combine accumulator and operand bit by bit and show the result. */
  lemma CombinesBits(s: State, op: ReadOp, v: word, mode: Mode, k: nat)
    requires (op.AND? || op.ORA? || op.EOR?) && v < AccValues(s.P) && k < 16
    ensures var t, n := I.Reading(s, op, v, mode), AccValues(s.P);
            && t == s.(C := t.C, P := t.P) && ShowsResult(s.P, t.P, t.C % n, n)
            && BitAt(t.C, k) == if n == 0x100 && k >= 8 then BitAt(s.C, k)
                                else if op.AND? then BitAt(s.C, k) && BitAt(v, k)
                                else if op.ORA? then BitAt(s.C, k) || BitAt(v, k)
                                else BitAt(s.C, k) != BitAt(v, k)
  {
    hide BitAt, ShowsResult, I.Combine, I.Reading;
    var how := if op.AND? then And else if op.ORA? then Or else Xor;
    CombinesBy(s, op, v, mode);
    LogicBits(s, how, v, !s.P.Acc8());
    CombinedShown(s, how, v, !s.P.Acc8());
  }

  lemma CombinesBy(s: State, op: ReadOp, v: word, mode: Mode)
    requires (op.AND? || op.ORA? || op.EOR?) && v < AccValues(s.P)
    ensures I.Reading(s, op, v, mode)
            == I.Combine(s, if op.AND? then And else if op.ORA? then Or else Xor, v, !s.P.Acc8())
  {
    hide I.Combine;
  }

  lemma CombinedShown(s: State, how: Logic, v: word, wide: bool)
    requires wide || v < 0x100
    ensures var t := I.Combine(s, how, v, wide);
            t == s.(C := t.C, P := t.P) && ShowsResult(s.P, t.P, t.C % Values(wide), Values(wide))
  {
    hide Bitwise, Status.NZ, ShowsResult, Pow2, Low, WithLow;
    Pow2Of8And16();
    if wide {
      ResultShown(s.P, Logic16(how, s.C, v), true);
    } else {
      var out := Logic8(how, Low(s.C), v);
      WithLowPart(s.C, out);
      ResultShown(s.P, out, false);
    }
  }

  // Stores ------------------------------------------------------------------------------------------

  /** The memory with a value of as many values put at an address. */
  predicate PutAt(m: Bytes, m': Bytes, a: addr, v: word, values: int, around: bool) {
    if values == 0x100 then m' == m[a := v % 0x100]
    else m' == m[a := v % 0x100][SecondByte(a, around) := v / 0x100]
  }

  lemma StoredBytes(m: Bytes, a: addr, v: word, wide: bool, inBank: bool)
    ensures PutAt(m, I.Store(m, a, v, wide, inBank), a, v, Values(wide), inBank)
  {
    BankNext(a);
    LinearIsMod(a + 1);
    hide Linear, BankWrap;
  }

  /** What was put at an address is found there, and all other bytes are as they were. */
  lemma PutAndFound(m: Bytes, m': Bytes, a: addr, v: word, values: int, around: bool)
    requires (values == 0x100 || values == 0x1_0000) && PutAt(m, m', a, v, values, around)
    ensures OperandAt(m', a, values, around) == v % values
    ensures forall b: addr | b != a && (values == 0x1_0000 ==> b != SecondByte(a, around)) :: m'[b] == m[b]
  {
    assert SecondByte(a, around) != a;
    hide SecondByte;
  }

  /** The register a store takes, by its name, and how many values of it are stored; STZ looks at M alone. */
  function StoredRegister(s: State, op: WriteOp): word {
    if op.STA? then s.C else if op.STX? then s.X else if op.STY? then s.Y else 0
  }

  function StoredValues(p: Status, op: WriteOp): int {
    if op.STA? then AccValues(p) else if op.STZ? then if p.M then 0x100 else 0x1_0000 else IndexValues(p)
  }

  /** A store puts its register where the mode says and changes nothing else. */
  lemma Stores(s: State, op: WriteOp, mode: Mode, a: addr, size: nat)
    requires I.KnowsStore(op, mode) && !I.WritesOutside(s, op, mode, a)
    ensures var t := I.Write(s, op, mode, a, size);
            && t == s.(m := t.m).Advance(size)
            && PutAt(s.m, t.m, a, StoredRegister(s, op), StoredValues(s.P, op), Around(mode))
  {
    hide I.Store, PutAt, Wrap;
    var v, wide := I.Stored(s, op), I.WideStore(s.P, op);
    StoredBytes(s.m, a, v, wide, Around(mode));
    if op.STA? || !wide || Around(mode) {
    } else {
      PokedBytes(s.m, a, v);
    }
  }

  lemma PokedBytes(m: Bytes, a: addr, v: word)
    requires a + 1 < MEM_SIZE
    ensures PutAt(m, Poke(m[a := Low(v)], a + 1, High(v)), a, v, 0x1_0000, false)
  {
  }

  // Changes in place ----------------------------------------------------------------------------------

  /** TSB and TRB stay in the bank for a direct operand, the others for an indexed direct one too. */
  predicate ModifiesAround(op: ModifyOp, mode: Mode) { mode.DP? || (mode.DPX? && !op.TRB? && !op.TSB?) }

  /** A change in place takes the operand, puts back what the operation makes of it, and sets its flags. */
  lemma ModifiesOperand(s: State, op: ModifyOp, mode: Mode, a: addr, size: nat)
    requires mode.DP? || mode.DPX? || mode.ABS? || mode.ABSX?
    ensures var t, n := I.Modify(s, op, mode, a, size), AccValues(s.P);
            var v := OperandAt(s.m, a, n, ModifiesAround(op, mode));
            && v < n && t == s.(m := t.m, P := I.ModifiedFlags(s, op, v, n == 0x1_0000)).Advance(size)
            && PutAt(s.m, t.m, a, I.Modified(s, op, v, n == 0x1_0000), n, ModifiesAround(op, mode))
  {
    hide I.Fetch, I.Store, I.Modified, I.ModifiedFlags, OperandAt, PutAt, Wrap;
    var wide, around := !s.P.Acc8(), ModifiesAround(op, mode);
    FetchedBytes(s.m, a, wide, around);
    var v := I.Fetch(s.m, a, wide, around);
    StoredBytes(s.m, a, I.Modified(s, op, v, wide), wide, around);
  }

  /** The same on the accumulator: what it works with is replaced, the rest of C stays. */
  lemma ModifiesAccumulator(s: State, op: ModifyOp)
    ensures var t, n := I.ModifyA(s, op), AccValues(s.P);
            && t == s.(C := t.C, P := I.ModifiedFlags(s, op, s.C % n, n == 0x1_0000)).Advance(1)
            && t.C % n == I.Modified(s, op, s.C % n, n == 0x1_0000) && t.C - t.C % n == s.C - s.C % n
  {
    hide I.Modified, I.ModifiedFlags, Wrap, Low, WithLow;
    var n := AccValues(s.P);
    LowPart(s.C);
    ModifiedFits(s, op, s.C % n, n == 0x1_0000);
    WithLowPart(s.C, I.Modified(s, op, s.C % n, n == 0x1_0000));
  }

  lemma ModifiedFits(s: State, op: ModifyOp, v: word, wide: bool)
    requires wide || v < 0x100
    ensures I.Modified(s, op, v, wide) < Values(wide)
  {
    hide I.Masked, Bitwise;
    MaskedFits(v, I.Narrowed(s.C, wide), op.TSB?, wide);
  }

  lemma MaskedFits(v: word, a: word, set1: bool, wide: bool)
    requires wide || (v < 0x100 && a < 0x100)
    ensures I.Masked(v, a, set1, wide) < Values(wide)
  {
    hide Bitwise;
  }

  /** Rotations take the carry in at one end and put the bit that falls out at the other into it. */
  lemma Rotations(s: State, v: word, wide: bool)
    requires wide || v < 0x100
    ensures var out, q := I.Modified(s, ROL, v, wide), I.ModifiedFlags(s, ROL, v, wide);
            out + Values(wide) * Bit(q.C) == 2 * v + Bit(s.P.C)
    ensures var out, q := I.Modified(s, ROR, v, wide), I.ModifiedFlags(s, ROR, v, wide);
            2 * out + Bit(q.C) == v + Values(wide) * Bit(s.P.C)
  {
    hide Status.NZ;
  }

  /** A shift or rotation shows its result in N and Z, and changes no flag but these and C. */
  lemma ShiftsShown(s: State, op: ModifyOp, v: word, wide: bool)
    requires (op.ASL? || op.LSR? || op.ROL? || op.ROR?) && (wide || v < 0x100)
    ensures var q := I.ModifiedFlags(s, op, v, wide);
            ShowsResult(s.P.(C := q.C), q, I.Modified(s, op, v, wide), Values(wide))
  {
    hide I.Modified, I.ModifiedFlags, Status.NZ, ShowsResult;
    var out, c := I.Modified(s, op, v, wide), I.ModifiedFlags(s, op, v, wide).C;
    ModifiedFits(s, op, v, wide);
    ResultShown(s.P, out, wide);
    ShiftStatus(s, op, v, wide);
    ShownWithCarry(s.P, s.P.NZ(out, wide), c, out, Values(wide));
  }

  lemma ShiftStatus(s: State, op: ModifyOp, v: word, wide: bool)
    requires (op.ASL? || op.LSR? || op.ROL? || op.ROR?) && (wide || v < 0x100)
    ensures var q := I.ModifiedFlags(s, op, v, wide);
            q == s.P.NZ(I.Modified(s, op, v, wide), wide).(C := q.C)
  {
    hide I.Modified, Status.NZ, I.ShiftFlags;
    CarryOfShift(s.P, op, v, I.Modified(s, op, v, wide), wide);
  }

  lemma CarryOfShift(p: Status, op: ModifyOp, v: word, out: word, wide: bool)
    ensures var q := I.ShiftFlags(p, op, v, out, wide);
            q == p.NZ(out, wide).(C := q.C)
  {
    hide Status.NZ, I.ShiftedOut;
  }

  lemma ShownWithCarry(p: Status, q: Status, c: bool, out: int, values: int)
    requires ShowsResult(p, q, out, values)
    ensures ShowsResult(p.(C := c), q.(C := c), out, values)
  {
  }

  /** TSB and TRB change Z alone: whether operand and accumulator had no bit in common. */
  lemma MaskShown(s: State, op: ModifyOp, v: word, wide: bool)
    requires (op.TSB? || op.TRB?) && (wide || v < 0x100)
    ensures var q := I.ModifiedFlags(s, op, v, wide);
            && q == s.P.(Z := q.Z)
            && (q.Z <==> NoCommonBit(if wide then 16 else 8, s.C, v))
  {
    hide NoCommonBit, Logic8, Logic16, Low;
    CommonBits(s.C, v, wide);
  }
}
