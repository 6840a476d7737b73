/**
 What the single operations do to registers, flags and memory, told by values, bits and what undoes them:
 steps by one, loads and stores, transfers, flags, pushes and pulls.
 */
module Effects {
  import opened Words
  import opened Bits
  import opened Opcodes
  import opened Machine
  import opened Inverses
  import A = Arith
  import I = Instructions
  import K = Stack

  /** How many values an operand of the given width has. */
  function Values(wide: bool): int { if wide then 0x1_0000 else 0x100 }

  /** And how many the accumulator and the index registers work with. */
  function AccValues(p: Status): int { if p.E || p.M then 0x100 else 0x1_0000 }

  function IndexValues(p: Status): int { if p.E || p.XB then 0x100 else 0x1_0000 }

  /** N and Z as a result among `values` values sets them, and all other flags as they were. */
  predicate ShowsResult(p: Status, q: Status, out: int, values: int) {
    && q == p.(N := q.N, Z := q.Z)
    && (q.Z <==> out == 0) && (q.N <==> 2 * out >= values)
  }

  lemma ResultShown(p: Status, out: int, wide: bool)
    requires 0 <= out < Values(wide)
    ensures ShowsResult(p, p.NZ(out, wide), out, Values(wide))
  {
  }

  // Steps by one ------------------------------------------------------------------------------------

  /** INC adds one around the width and DEC takes it away again; N and Z are those of the result. */
  lemma StepsByOne(s: State, v: word, wide: bool)
    requires wide || v < 0x100
    ensures var up, down := I.Modified(s, INC, v, wide), I.Modified(s, DEC, v, wide);
            && up == (if v == Values(wide) - 1 then 0 else v + 1)
            && down == (if v == 0 then Values(wide) - 1 else v - 1)
            && I.Modified(s, DEC, up, wide) == v && I.Modified(s, INC, down, wide) == v
            && ShowsResult(s.P, I.ModifiedFlags(s, INC, v, wide), up, Values(wide))
            && ShowsResult(s.P, I.ModifiedFlags(s, DEC, v, wide), down, Values(wide))
  {
    hide Status.NZ, I.Bumped, ShowsResult;
    Bumps(v, wide);
    Bumps(I.Bumped(v, 1, wide), wide);
    Bumps(I.Bumped(v, -1, wide), wide);
    ResultShown(s.P, I.Bumped(v, 1, wide), wide);
    ResultShown(s.P, I.Bumped(v, -1, wide), wide);
    ModifiedShown(s, INC, v, wide);
    ModifiedShown(s, DEC, v, wide);
  }

  lemma Bumps(v: word, wide: bool)
    requires wide || v < 0x100
    ensures I.Bumped(v, 1, wide) == if v == Values(wide) - 1 then 0 else v + 1
    ensures I.Bumped(v, -1, wide) == if v == 0 then Values(wide) - 1 else v - 1
  {
  }

  lemma ModifiedShown(s: State, op: ModifyOp, v: word, wide: bool)
    requires (op.INC? || op.DEC?) && (wide || v < 0x100)
    ensures I.ModifiedFlags(s, op, v, wide) == s.P.NZ(I.Modified(s, op, v, wide), wide)
  {
    hide I.Modified, Status.NZ;
  }

  /** INA leaves the accumulator that adding 0 with the carry set leaves in binary mode. */
  lemma IncrementIsAddition(s: State)
    ensures var t := s.(P := s.P.(C := true, D := false));
            I.ModifyA(s, INC).C == I.AddTo(t, 0, !s.P.Acc8()).C
  {
    hide Status.NZ, WithLow;
  }

  lemma NextIndex(s: State, v: word)
    ensures I.ToIndex(s, Wrap(v + 1)) == (v + 1) % IndexValues(s.P)
    ensures I.ToIndex(s, Wrap(v - 1)) == (v - 1) % IndexValues(s.P)
  {
    hide Wrap;
    WrapIsMod(v + 1);
    WrapIsMod(v - 1);
    LowOfMod(v + 1);
    LowOfMod(v - 1);
  }

  lemma LowOfMod(x: int)
    ensures Low(x % 0x1_0000) == x % 0x100
  {
  }

  /** INX, DEX, INY and DEY do the same to the index registers, at their width; nothing else changes. */
  lemma IndexSteps(s: State, op: RegOp)
    requires op.INX? || op.DEX? || op.INY? || op.DEY?
    ensures var t, step := I.Register(s, op), if op.INX? || op.INY? then 1 else -1;
            var x, y := (s.X + step) % IndexValues(s.P), (s.Y + step) % IndexValues(s.P);
            && (if op.INX? || op.DEX? then t == s.(X := x, P := t.P, PC := Wrap(s.PC + 1))
                else t == s.(Y := y, P := t.P, PC := Wrap(s.PC + 1)))
            && ShowsResult(s.P, t.P, if op.INX? || op.DEX? then x else y, IndexValues(s.P))
  {
    hide I.ToIndex, Wrap, Status.NZ, ShowsResult;
    var v := if op.INX? || op.DEX? then s.X else s.Y;
    NextIndex(s, v);
    ResultShown(s.P, (v + 1) % IndexValues(s.P), !s.P.Idx8());
    ResultShown(s.P, (v - 1) % IndexValues(s.P), !s.P.Idx8());
  }

  // Transfers -----------------------------------------------------------------------------------------

  datatype Place = InA | InX | InY | InS | InD

  /** The letters of a transfer: where it takes the value from and where it puts it. */
  function Letters(op: RegOp): (Place, Place) {
    match op
    case TAX => (InA, InX)
    case TAY => (InA, InY)
    case TCD => (InA, InD)
    case TCS => (InA, InS)
    case TDC => (InD, InA)
    case TSC => (InS, InA)
    case TSX => (InS, InX)
    case TXA => (InX, InA)
    case TXS => (InX, InS)
    case TXY => (InX, InY)
    case TYA => (InY, InA)
    case _ => (InY, InX)
  }

  predicate IsTransfer(op: RegOp) {
    op.TAX? || op.TAY? || op.TCD? || op.TCS? || op.TDC? || op.TSC? || op.TSX? || op.TXA? || op.TXS? || op.TXY?
    || op.TYA? || op.TYX?
  }

  function Held(s: State, p: Place): word {
    match p
    case InA => s.C
    case InX => s.X
    case InY => s.Y
    case InS => s.SP
    case InD => s.D
  }

  /** What of a value that leaves `from` arrives in `to`. */
  function Arriving(s: State, from: Place, to: Place): int {
    var v := Held(s, from);
    var index := from.InX? || from.InY?;
    match to
    case InX | InY => v % IndexValues(s.P)
    case InD => v
    case InS => if s.P.E then 0x100 + v % 0x100 else if index then v % Values(!s.P.XB) else v
    case InA =>
      if !index then if from.InS? && s.P.E then 0x100 + v % 0x100 else v
      else if s.P.Acc8() then s.C / 0x100 * 0x100 + v % 0x100
      else v % Values(!s.P.XB)
  }

  /** Nothing but one register, N and Z is changed, and the next instruction follows. */
  predicate OnlyPlace(s: State, t: State, p: Place) {
    match p
    case InA => t == s.(C := t.C, P := t.P, PC := Wrap(s.PC + 1))
    case InX => t == s.(X := t.X, P := t.P, PC := Wrap(s.PC + 1))
    case InY => t == s.(Y := t.Y, P := t.P, PC := Wrap(s.PC + 1))
    case InS => t == s.(SP := t.SP, PC := Wrap(s.PC + 1))
    case InD => t == s.(D := t.D, P := t.P, PC := Wrap(s.PC + 1))
  }

  predicate Moves(s: State, op: RegOp) {
    var t, (from, to) := I.Register(s, op), Letters(op);
    Held(t, to) == Arriving(s, from, to) && OnlyPlace(s, t, to)
  }

  /** A transfer moves the register its name says to the other one, at the width that one has. */
  lemma Transfers(s: State, op: RegOp)
    requires IsTransfer(op)
    ensures Moves(s, op)
  {
    hide Status.NZ, Wrap;
    if op.TAX? || op.TAY? || op.TXY? || op.TYX? || op.TSX? {
      ToIndexRegister(s, op);
    } else if op.TXA? || op.TYA? {
      IndexToAccumulator(s, op);
    } else {
      WholeTransfer(s, op);
    }
  }

  lemma ToIndexRegister(s: State, op: RegOp)
    requires op.TAX? || op.TAY? || op.TXY? || op.TYX? || op.TSX?
    ensures Moves(s, op)
  {
    hide Status.NZ, Wrap, I.Register;
    IndexRegistered(s);
  }

  lemma IndexToAccumulator(s: State, op: RegOp)
    requires op.TXA? || op.TYA?
    ensures Moves(s, op)
  {
    hide Status.NZ, Wrap, I.Register;
    AccumulatorRegistered(s);
    AccumulatorTakes(s, s.X);
    AccumulatorTakes(s, s.Y);
    hide I.IndexToA;
  }

  lemma AccumulatorRegistered(s: State)
    ensures I.Register(s, TXA) == I.IndexToA(s, s.X).Advance(1)
    ensures I.Register(s, TYA) == I.IndexToA(s, s.Y).Advance(1)
  {
    hide State.Advance, I.IndexToA;
  }

  /** The accumulator takes an index register as its own width and XB say. */
  lemma AccumulatorTakes(s: State, v: word)
    ensures var t := I.IndexToA(s, v);
            && t == s.(C := t.C, P := t.P)
            && t.C == if s.P.E || s.P.M then s.C / 0x100 * 0x100 + v % 0x100 else v % Values(!s.P.XB)
  {
    hide Status.NZ;
  }

  lemma WholeTransfer(s: State, op: RegOp)
    requires op.TCD? || op.TCS? || op.TDC? || op.TSC? || op.TXS?
    ensures Moves(s, op)
  {
    hide Moves;
    if op.TCS? || op.TXS? {
      PointerTransfer(s, op);
    } else {
      WholeMoves(s, op);
    }
  }

  lemma WholeRegistered(s: State)
    ensures I.Register(s, TCD) == s.(D := s.C, P := s.P.NZ(s.C, true)).Advance(1)
    ensures I.Register(s, TDC) == s.(C := s.D, P := s.P.NZ(s.D, true)).Advance(1)
    ensures var c := if s.P.E then 0x100 + s.SP % 0x100 else s.SP;
            I.Register(s, TSC) == s.(C := c, P := s.P.NZ(c, true)).Advance(1)
  {
    hide State.Advance, Status.NZ;
  }

  lemma WholeMoves(s: State, op: RegOp)
    requires op.TCD? || op.TDC? || op.TSC?
    ensures Moves(s, op)
  {
    hide Status.NZ, Wrap, I.Register;
    WholeRegistered(s);
  }

  lemma PointerRegistered(s: State)
    ensures I.Register(s, TCS) == s.SetSp(s.C).Advance(1)
    ensures I.Register(s, TXS) == s.SetSp(s.X % Values(!s.P.XB)).Advance(1)
  {
    hide State.Advance, State.SetSp;
  }

  lemma PointerTransfer(s: State, op: RegOp)
    requires op.TCS? || op.TXS?
    ensures Moves(s, op)
  {
    hide Wrap, InPage1, I.Register;
    PointerRegistered(s);
    var v := if op.TCS? then s.C else s.X % Values(!s.P.XB);
    WrapIsMod(v);
    InPage1IsMod(v);
  }

  /** N and Z are those of the value moved, except that a transfer to SP leaves them alone. */
  predicate FlagsShown(s: State, op: RegOp) {
    var t, to := I.Register(s, op), Letters(op).1;
    match to
    case InS => t.P == s.P
    case InX | InY => ShowsResult(s.P, t.P, Held(t, to), IndexValues(s.P))
    case InD => ShowsResult(s.P, t.P, t.D, 0x1_0000)
    case InA =>
      if op.TXA? || op.TYA? then ShowsResult(s.P, t.P, t.C % AccValues(s.P), AccValues(s.P))
      else ShowsResult(s.P, t.P, t.C, 0x1_0000)
  }

  lemma TransferFlags(s: State, op: RegOp)
    requires IsTransfer(op)
    ensures FlagsShown(s, op)
  {
    hide I.Register, FlagsShown;
    if op.TAX? || op.TAY? || op.TXY? || op.TYX? || op.TSX? {
      IndexShown(s, op);
    } else if op.TXA? || op.TYA? {
      AccumulatorShown(s, op);
    } else if op.TCS? || op.TXS? {
      NothingShown(s, op);
    } else {
      WholeShown(s, op);
    }
  }

  lemma IndexRegistered(s: State)
    ensures I.Register(s, TAX) == ToX(s, s.C) && I.Register(s, TSX) == ToX(s, s.SP) && I.Register(s, TYX) == ToX(s, s.Y)
    ensures I.Register(s, TAY) == ToY(s, s.C) && I.Register(s, TXY) == ToY(s, s.X)
  {
    hide I.Register, ToX, ToY;
    XRegistered(s);
    YRegistered(s);
  }

  lemma IndexValue(s: State, v: word)
    ensures I.ToIndex(s, v) == v % IndexValues(s.P) && (!s.P.Idx8() <==> IndexValues(s.P) == 0x1_0000)
  {
  }

  lemma XRegistered(s: State)
    ensures I.Register(s, TAX) == ToX(s, s.C) && I.Register(s, TSX) == ToX(s, s.SP) && I.Register(s, TYX) == ToX(s, s.Y)
  {
    hide State.Advance, Status.NZ, I.ToIndex, IndexValues, Status.Idx8;
    IndexValue(s, s.C);
    IndexValue(s, s.SP);
    IndexValue(s, s.Y);
  }

  lemma YRegistered(s: State)
    ensures I.Register(s, TAY) == ToY(s, s.C) && I.Register(s, TXY) == ToY(s, s.X)
  {
    hide State.Advance, Status.NZ, I.ToIndex, IndexValues, Status.Idx8;
    IndexValue(s, s.C);
    IndexValue(s, s.X);
  }

  /** An index register given what its width holds of a value. */
  function ToX(s: State, v: word): State {
    var x := v % IndexValues(s.P);
    s.(X := x, P := s.P.NZ(x, IndexValues(s.P) == 0x1_0000)).Advance(1)
  }

  function ToY(s: State, v: word): State {
    var y := v % IndexValues(s.P);
    s.(Y := y, P := s.P.NZ(y, IndexValues(s.P) == 0x1_0000)).Advance(1)
  }

  lemma IndexShown(s: State, op: RegOp)
    requires op.TAX? || op.TAY? || op.TXY? || op.TYX? || op.TSX?
    ensures FlagsShown(s, op)
  {
    hide Status.NZ, Wrap, ShowsResult, I.Register;
    IndexRegistered(s);
    ResultShown(s.P, Held(s, Letters(op).0) % IndexValues(s.P), IndexValues(s.P) == 0x1_0000);
  }

  lemma AccumulatorShown(s: State, op: RegOp)
    requires op.TXA? || op.TYA?
    ensures FlagsShown(s, op)
  {
    hide Status.NZ, Wrap, ShowsResult, I.Register;
    AccumulatorRegistered(s);
    var t := I.IndexToA(s, Held(s, Letters(op).0));
    TakenShown(s, Held(s, Letters(op).0));
    hide I.IndexToA;
  }

  lemma TakenShown(s: State, v: word)
    ensures var t := I.IndexToA(s, v);
            ShowsResult(s.P, t.P, t.C % AccValues(s.P), AccValues(s.P))
  {
    hide Status.NZ, ShowsResult;
    var t := I.IndexToA(s, v);
    assert t.P == s.P.NZ(t.C, !s.P.Acc8());
    hide I.IndexToA;
    LowResult(s.P, t.C);
    ResultShown(s.P, t.C % AccValues(s.P), !s.P.Acc8());
  }

  lemma NothingShown(s: State, op: RegOp)
    requires op.TCS? || op.TXS?
    ensures FlagsShown(s, op)
  {
    hide Wrap, InPage1, I.Register;
    PointerRegistered(s);
  }

  lemma WholeShown(s: State, op: RegOp)
    requires op.TCD? || op.TDC? || op.TSC?
    ensures FlagsShown(s, op)
  {
    hide Status.NZ, Wrap, ShowsResult, I.Register;
    WholeRegistered(s);
    var v := if op.TCD? then s.C else if op.TDC? then s.D else if s.P.E then 0x100 + s.SP % 0x100 else s.SP;
    ResultShown(s.P, v, true);
  }

  lemma LowResult(p: Status, c: word)
    ensures p.NZ(c, false) == p.NZ(c % 0x100, false)
  {
  }

  /** XBA swaps the bytes of C and shows the new low one. */
  lemma ExchangeBytes(s: State)
    ensures var t := I.Register(s, XBA);
            && t == s.(C := t.C, P := t.P, PC := Wrap(s.PC + 1))
            && t.C % 0x100 == s.C / 0x100 && t.C / 0x100 == s.C % 0x100 && ShowsResult(s.P, t.P, t.C % 0x100, 0x100)
            && I.Register(t, XBA).C == s.C
  {
    hide Wrap;
  }

  // Flags ---------------------------------------------------------------------------------------------

  /** The bit of SR the name of a flag operation means, and what it makes of it. */
  function FlagNamed(op: RegOp): (nat, bool) {
    match op
    case CLC => (0, false)
    case SEC => (0, true)
    case CLI => (2, false)
    case SEI => (2, true)
    case CLD => (3, false)
    case SED => (3, true)
    case _ => (6, false)
  }

  predicate IsFlagOp(op: RegOp) { op.CLC? || op.SEC? || op.CLI? || op.SEI? || op.CLD? || op.SED? || op.CLV? }

  /** The flags outside SR are the same. */
  predicate SameOthers(p: Status, q: Status) {
    q == p.(C := q.C, Z := q.Z, I := q.I, D := q.D, XB := q.XB, M := q.M, V := q.V, N := q.N)
  }

  function WithFlag(p: Status, n: nat, v: bool): Status {
    p.(C := if n == 0 then v else p.C, I := if n == 2 then v else p.I,
       D := if n == 3 then v else p.D, V := if n == 6 then v else p.V)
  }

  /** It changes that bit and nothing else. */
  lemma FlagOperations(s: State, op: RegOp, k: nat)
    requires IsFlagOp(op) && k < 8
    ensures var t, (n, v) := I.Register(s, op), FlagNamed(op);
            && t == s.(P := t.P, PC := Wrap(s.PC + 1)) && SameOthers(s.P, t.P)
            && BitAt(t.P.Sr(), k) == if k == n then v else BitAt(s.P.Sr(), k)
  {
    hide BitAt, Status.Sr, Wrap, I.Register, WithFlag, SameOthers;
    var (n, v) := FlagNamed(op);
    FlagRegistered(s, op);
    WithFlagBit(s.P, n, v, k);
  }

  lemma FlagRegistered(s: State, op: RegOp)
    requires IsFlagOp(op)
    ensures var (n, v) := FlagNamed(op);
            I.Register(s, op) == s.(P := WithFlag(s.P, n, v)).Advance(1)
  {
    hide State.Advance;
    if op.CLC? || op.SEC? {
      assert I.Register(s, op) == s.(P := s.P.(C := op.SEC?)).Advance(1);
    } else if op.CLI? || op.SEI? {
      assert I.Register(s, op) == s.(P := s.P.(I := op.SEI?)).Advance(1);
    } else if op.CLD? || op.SED? {
      assert I.Register(s, op) == s.(P := s.P.(D := op.SED?)).Advance(1);
    } else {
      assert I.Register(s, op) == s.(P := s.P.(V := false)).Advance(1);
    }
  }

  lemma WithFlagBit(p: Status, n: nat, v: bool, k: nat)
    requires (n == 0 || n == 2 || n == 3 || n == 6) && k < 8
    ensures BitAt(WithFlag(p, n, v).Sr(), k) == if k == n then v else BitAt(p.Sr(), k)
    ensures SameOthers(p, WithFlag(p, n, v))
  {
    hide BitAt, Status.Sr, Flag, WithFlag, SameOthers;
    SrBits(p, k);
    SrBits(WithFlag(p, n, v), k);
    WithFlagAt(p, n, v, k);
    WithFlagOthers(p, n, v);
  }

  lemma WithFlagAt(p: Status, n: nat, v: bool, k: nat)
    requires (n == 0 || n == 2 || n == 3 || n == 6) && k < 8
    ensures Flag(WithFlag(p, n, v), k) == if k == n then v else Flag(p, k)
  {
    hide Flag;
    FlagValues(p);
    FlagValues(WithFlag(p, n, v));
    assert k == 0 || k == 1 || k == 2 || k == 3 || k == 4 || k == 5 || k == 6 || k == 7;
  }

  lemma WithFlagOthers(p: Status, n: nat, v: bool)
    ensures SameOthers(p, WithFlag(p, n, v))
  {
  }

  /**
   * XCE swaps C and E and sets M. Entering emulation mode brings the stack pointer into page 1 and makes
   * the index registers narrow; leaving it sets XB.
   */
  predicate Exchanged(s: State, t: State) {
    && t.P == s.P.(C := s.P.E, E := s.P.C, M := true, XB := s.P.XB || !s.P.C)
    && t == s.(P := t.P, X := if s.P.C then s.X % 0x100 else s.X, Y := if s.P.C then s.Y % 0x100 else s.Y,
               SP := if s.P.C then 0x100 + s.SP % 0x100 else s.SP, PC := Wrap(s.PC + 1))
  }

  lemma Exchanges(s: State)
    ensures Exchanged(s, I.Register(s, XCE))
  {
    hide Wrap, Exchanged, I.ExchangeCE;
    ExchangesModes(s);
    ExchangedStep(s, I.ExchangeCE(s));
  }

  lemma ExchangesModes(s: State)
    ensures Exchanged(s, I.ExchangeCE(s).(PC := Wrap(s.PC + 1))) && I.ExchangeCE(s).PC == s.PC
  {
    hide Wrap;
    if s.P.C {
    } else {
    }
  }

  lemma ExchangedStep(s: State, t: State)
    requires t.PC == s.PC && Exchanged(s, t.(PC := Wrap(s.PC + 1)))
    ensures Exchanged(s, t.Advance(1))
  {
    hide Wrap, Exchanged;
  }

  /** A second XCE swaps C and E back. */
  lemma ExchangeTwice(s: State)
    ensures var t := I.Register(I.Register(s, XCE), XCE);
            t.P.C == s.P.C && t.P.E == s.P.E && (s.P.C && s.P.E ==> t.SP == 0x100 + s.SP % 0x100)
  {
    hide Wrap, I.Register;
    Exchanges(s);
    Exchanges(I.Register(s, XCE));
  }

  /** NOP and WDM are skipped, WAI only when a line is raised, and STP stops where it is. */
  lemma Skips(s: State)
    ensures I.Register(s, NOP) == s.(PC := (s.PC + 1) % 0x1_0000)
    ensures I.Register(s, WDM) == s.(PC := (s.PC + 2) % 0x1_0000)
    ensures I.Register(s, WAI) == if s.P.NMI || s.P.IRQ then I.Register(s, NOP) else s
    ensures I.Register(s, STP) == s.(P := s.P.(STP := true))
  {
    hide Wrap;
    SkipsRegistered(s);
    hide I.Register;
    WrapIsMod(s.PC + 1);
    WrapIsMod(s.PC + 2);
  }

  lemma SkipsRegistered(s: State)
    ensures I.Register(s, NOP) == s.Advance(1) && I.Register(s, WDM) == s.Advance(2)
    ensures I.Register(s, WAI) == if s.P.NMI || s.P.IRQ then s.Advance(1) else s
    ensures I.Register(s, STP) == s.(P := s.P.(STP := true))
  {
    hide State.Advance, I.ModifyA, I.ExchangeCE, I.IndexToA, Status.NZ, State.SetSp;
  }

  /** Index registers that become narrow lose their high bytes; no others do. */
  lemma MasksNarrowIndex(s: State)
    ensures var n, t := if !s.P.E && s.P.XB then 0x100 else 0x1_0000, I.MaskIndex(s);
            t == s.(X := s.X % n, Y := s.Y % n)
  {
  }

  /** REP and SEP change the flags in SR and may make the index registers narrow, and nothing else. */
  predicate MasksOnly(s: State, t: State) {
    var n := if !s.P.E && t.P.XB then 0x100 else 0x1_0000;
    SameOthers(s.P, t.P) && t == s.(P := t.P, X := s.X % n, Y := s.Y % n, PC := Wrap(s.PC + 2))
  }

  lemma FlagMasksOnly(s: State)
    ensures MasksOnly(s, I.ResetBits(s)) && MasksOnly(s, I.SetBits(s))
  {
    hide Wrap, Status.WithSr, I.MaskIndex, I.Cleared, I.Raised, MasksOnly, SameOthers;
    MasksChange(s, s.P.WithSr(s.Op8()));
    MasksChange(s, s.P.WithSr(s.m[At(0, s.PC + 1)]));
  }

  lemma MasksChange(s: State, q: Status)
    ensures MasksOnly(s, I.MaskIndex(s.(P := I.Cleared(s.P, q))).Advance(2))
    ensures MasksOnly(s, I.MaskIndex(s.(P := I.Raised(s.P, q))).Advance(2))
  {
    hide Wrap, I.MaskIndex, I.Cleared, I.Raised, SameOthers;
    MasksOthers(s.P, q);
    MasksNarrowIndex(s.(P := I.Cleared(s.P, q)));
    MasksNarrowIndex(s.(P := I.Raised(s.P, q)));
    assert I.Cleared(s.P, q).E == I.Raised(s.P, q).E == s.P.E by { MasksMode(s.P, q); }
  }

  lemma MasksOthers(p: Status, q: Status)
    ensures SameOthers(p, I.Cleared(p, q)) && SameOthers(p, I.Raised(p, q))
  {
    hide I.Cleared, I.Raised, SameOthers;
    ClearedOthers(p, q);
    RaisedOthers(p, q);
  }

  lemma ClearedOthers(p: Status, q: Status)
    ensures SameOthers(p, I.Cleared(p, q))
  {
    hide SameOthers;
    WrittenOthers(p, p.C && !q.C, p.Z && !q.Z, p.I && !q.I, p.D && !q.D,
                  p.XB && (p.E || !q.XB), p.M && (p.E || !q.M), p.V && !q.V, p.N && !q.N);
  }

  lemma RaisedOthers(p: Status, q: Status)
    ensures SameOthers(p, I.Raised(p, q))
  {
    hide SameOthers;
    WrittenOthers(p, p.C || q.C, p.Z || q.Z, p.I || q.I, p.D || q.D,
                  p.XB || (!p.E && q.XB), p.M || (!p.E && q.M), p.V || q.V, p.N || q.N);
  }

  lemma WrittenOthers(p: Status, c: bool, z: bool, i: bool, d: bool, xb: bool, m: bool, v: bool, n: bool)
    ensures SameOthers(p, p.(C := c, Z := z, I := i, D := d, XB := xb, M := m, V := v, N := n))
  {
  }

  lemma MasksMode(p: Status, q: Status)
    ensures I.Cleared(p, q).E == I.Raised(p, q).E == p.E
  {
  }
}
