/**
 What each instruction does to the state of the machine, grouped by family. An instruction that is
 given an addressing mode its family does not know sets the CRASH flag, as the original does.
 */
module Instructions {
  import opened Words
  import opened Bits
  import opened Opcodes
  import opened Machine
  import A = Arith

  // Operands ----------------------------------------------------------------------------------

  /** Modes whose 16-bit operand wraps inside its bank; every other operand runs on into the next bank. */
  predicate StaysInBank(mode: Mode) { mode.DP? || mode.DPX? || mode.DPY? || mode.IMMD? || mode.SR? }

  function Fetch(m: Bytes, a: addr, wide: bool, inBank: bool): (v: word)
    ensures wide || v < 0x100
  {
    if !wide then m[a] else if inBank then WordInBank(m, a) else WordAt(m, a)
  }

  function Store(m: Bytes, a: addr, v: word, wide: bool, inBank: bool): Bytes {
    if !wide then m[a := Low(v)] else if inBank then StoreWordInBank(m, a, v) else StoreWord(m, a, v)
  }

  /** Modes of the accumulator's data operations. */
  predicate DataMode(mode: Mode) {
    match mode
    case DP | DPX | DPINDX | INDDPY | INDDPLY | DPIND | DPINDL => true
    case ABS | ABSX | ABSY | ABSL | ABSLX | IMMD | SR | SRINDY => true
    case _ => false
  }

  predicate Knows(op: ReadOp, mode: Mode) {
    match op
    case ADC | SBC | BIT => true
    case AND | CMP | EOR | LDA | ORA => DataMode(mode)
    case CPX | CPY => mode.DP? || mode.IMMD? || mode.ABS?
    case LDX => mode.DP? || mode.DPY? || mode.ABS? || mode.ABSY? || mode.IMMD?
    case LDY => mode.DP? || mode.DPX? || mode.ABS? || mode.ABSX? || mode.IMMD?
  }

  predicate Wide(p: Status, op: ReadOp) {
    match op
    case CPX | CPY | LDX | LDY => !p.Idx8()
    case _ => !p.Acc8()
  }

  /** An immediate operand is one byte longer when it is 16 bits wide. */
  function Length(size: nat, mode: Mode, wide: bool): nat { if wide && mode.IMMD? then size + 1 else size }

  // Operations that only read memory ------------------------------------------------------------

  function Narrowed(x: word, wide: bool): word { if wide then x else Low(x) }

  /** The flags an addition or subtraction leaves, from its result, overflow and carry. */
  function ArithmeticFlags(p: Status, out: word, v: bool, c: bool, wide: bool): (q: Status)
    ensures q == p.(C := q.C, Z := q.Z, V := q.V, N := q.N)
  {
    p.NZ(out, wide).(V := v, C := c)
  }

  function AddTo(s: State, v: word, wide: bool): (t: State)
    requires wide || v < 0x100
    ensures SameControl(s, t) && t.m == s.m
  {
    hide A.RawSum, A.Kept, A.Carried, WithLow, Low, ArithmeticFlags;
    var sum := A.RawSum(s.P.D, wide, Narrowed(s.C, wide), v, s.P.C);
    var out := A.Kept(wide, sum.al);
    var p := ArithmeticFlags(s.P, out, sum.v, A.Carried(wide, sum.al), wide);
    s.(C := WithA(s.C, out, wide), P := p)
  }

  function SubtractFrom(s: State, v: word, wide: bool): (t: State)
    requires wide || v < 0x100
    ensures SameControl(s, t) && t.m == s.m
  {
    hide A.RawDifference, A.Kept, Borrowed, WithLow, Low, ArithmeticFlags;
    var out := A.Kept(wide, A.RawDifference(s.P.D, wide, Narrowed(s.C, wide), v, s.P.C));
    var (overflow, carry) := Borrowed(Narrowed(s.C, wide), v, s.P.C, wide);
    s.(C := WithA(s.C, out, wide), P := ArithmeticFlags(s.P, out, overflow, carry, wide))
  }

  /** The overflow and carry flags of SBC, which come from the binary difference. */
  function Borrowed(a: word, v: word, cin: bool, wide: bool): (bool, bool)
    requires wide || (a < 0x100 && v < 0x100)
  {
    if wide then (A.OutOf16(A.Borrow16(a, v, cin)), A.Borrow16(a, v, cin) >= 0x1_0000)
    else (A.OutOf8(A.Borrow8(a, v, cin)), A.Borrow8(a, v, cin) >= 0x100)
  }

  function Combine(s: State, op: Logic, v: word, wide: bool): (t: State)
    requires wide || v < 0x100
    ensures SameControl(s, t) && t.m == s.m
  {
    var out := if wide then Logic16(op, s.C, v) else Logic8(op, Low(s.C), v);
    s.SetA(out, wide).(P := s.P.NZ(out, wide))
  }

  /** A comparison subtracts without keeping the difference: carry means "not less". */
  function Compared(p: Status, a: word, v: word, wide: bool): (q: Status)
    ensures q == p.(C := q.C, Z := q.Z, N := q.N)
  {
    p.NZ(if wide then (a - v) % 0x1_0000 else (a - v) % 0x100, wide).(C := a >= v)
  }

  /** The bit below the top one. */
  predicate SecondBit(v: word, wide: bool) { if wide then v / 0x4000 % 2 == 1 else v / 0x40 % 2 == 1 }

  /** BIT does nothing in any other mode. */
  predicate TestMode(mode: Mode) { mode.DP? || mode.DPX? || mode.ABS? || mode.ABSX? || mode.IMMD? }

  function TestBits(s: State, v: word, mode: Mode, wide: bool): (q: Status)
    requires wide || v < 0x100
    ensures q == s.P.(Z := q.Z, V := q.V, N := q.N)
  {
    var common := if wide then Logic16(And, s.C, v) else Logic8(And, Low(s.C), v);
    var p := s.P.(Z := common == 0);
    if mode.IMMD? then p else p.(N := v >= (if wide then 0x8000 else 0x80), V := SecondBit(v, wide))
  }

  function Reading(s: State, op: ReadOp, v: word, mode: Mode): State
    requires Wide(s.P, op) || v < 0x100
  {
    var wide := Wide(s.P, op);
    match op
    case ADC => AddTo(s, v, wide)
    case SBC => SubtractFrom(s, v, wide)
    case AND => Combine(s, And, v, wide)
    case ORA => Combine(s, Or, v, wide)
    case EOR => Combine(s, Xor, v, wide)
    case BIT => s.(P := if TestMode(mode) then TestBits(s, v, mode, wide) else s.P)
    case CMP => s.(P := Compared(s.P, Narrowed(s.C, wide), v, wide))
    case CPX => s.(P := Compared(s.P, Narrowed(s.X, wide), v, wide))
    case CPY => s.(P := Compared(s.P, Narrowed(s.Y, wide), v, wide))
    case LDA => s.SetA(v, wide).(P := s.P.NZ(v, wide))
    case LDX => s.(X := v, P := s.P.NZ(v, wide))
    case LDY => s.(Y := v, P := s.P.NZ(v, wide))
  }

  /** An unknown mode: the accumulator loads and EOR, ORA still take N and Z from the accumulator. */
  function Rejected(s: State, op: ReadOp): State {
    var p := s.P.(CRASH := true);
    s.(P := if op in {EOR, LDA, ORA} then p.NZ(s.C, !s.P.Acc8()) else p)
  }

  function Read(s: State, op: ReadOp, mode: Mode, a: addr, size: nat): State {
    var wide := Wide(s.P, op);
    var t := if !Knows(op, mode) then Rejected(s, op)
             else Reading(s, op, Fetch(s.m, a, wide, StaysInBank(mode) && (op.LDX? || !mode.DPY?)), mode);
    t.Advance(Length(size, mode, wide))
  }

  // Operations that write memory ----------------------------------------------------------------

  predicate KnowsStore(op: WriteOp, mode: Mode) {
    match op
    case STA => DataMode(mode)
    case STX => mode.DP? || mode.DPY? || mode.ABS?
    case STY => mode.DP? || mode.DPX? || mode.ABS?
    case STZ => mode.DP? || mode.DPX? || mode.ABS? || mode.ABSX?
  }

  /** STZ looks at M alone, even in emulation mode. */
  predicate WideStore(p: Status, op: WriteOp) {
    match op
    case STA => !p.Acc8()
    case STZ => !p.M
    case _ => !p.Idx8()
  }

  function Stored(s: State, op: WriteOp): word {
    match op
    case STA => s.C
    case STX => s.X
    case STY => s.Y
    case STZ => 0
  }

  /** The state after a store, but for the program counter. */
  function Kept(s: State, op: WriteOp, mode: Mode, a: addr): State {
    var v := Stored(s, op);
    var wide := WideStore(s.P, op);
    s.(m := if op.STA? || !wide || StaysInBank(mode) then Store(s.m, a, v, wide, StaysInBank(mode))
            else Poke(s.m[a := Low(v)], a + 1, High(v)))
  }

  function Write(s: State, op: WriteOp, mode: Mode, a: addr, size: nat): (t: State)
    ensures KnowsStore(op, mode) ==> t == s.Advance(size).(m := t.m)
  {
    (if KnowsStore(op, mode) then Kept(s, op, mode, a) else s.(P := s.P.(CRASH := true))).Advance(size)
  }

  /** A 16-bit STX, STY or STZ at the very last cell would write outside the memory array. */
  predicate WritesOutside(s: State, op: WriteOp, mode: Mode, a: addr) {
    !op.STA? && KnowsStore(op, mode) && WideStore(s.P, op) && !StaysInBank(mode) && a + 1 == MEM_SIZE
  }

  /** Twice `v`, less the bit that falls out at the top. */
  function Doubled(v: word, wide: bool): word
    requires wide || v < 0x100
  {
    if wide then v * 2 % 0x1_0000 else v * 2 % 0x100
  }

  function RotatedLeft(v: word, carry: bool, wide: bool): word
    requires wide || v < 0x100
  {
    Doubled(v, wide) + Bit(carry)
  }

  predicate TopBit(v: word, wide: bool) { v >= if wide then 0x8000 else 0x80 }

  function Rotated(v: word, carry: bool, wide: bool): word
    requires wide || v < 0x100
  {
    if !carry then v / 2 else if wide then v / 2 + 0x8000 else v / 2 + 0x80
  }

  function Bumped(v: word, step: int, wide: bool): word {
    if wide then (v + step) % 0x1_0000 else (v + step) % 0x100
  }

  function Masked(v: word, a: word, set1: bool, wide: bool): word
    requires wide || (v < 0x100 && a < 0x100)
  {
    if wide then if set1 then Logic16(Or, v, a) else Logic16(And, v, 0xffff - a)
    else if set1 then Logic8(Or, v, a) else Logic8(And, v, 0xff - a)
  }

  /** The value an operation leaves in place of `v`. */
  function Modified(s: State, op: ModifyOp, v: word, wide: bool): word
    requires wide || v < 0x100
  {
    match op
    case ASL => Doubled(v, wide)
    case ROL => RotatedLeft(v, s.P.C, wide)
    case LSR => v / 2
    case ROR => Rotated(v, s.P.C, wide)
    case DEC => Bumped(v, -1, wide)
    case INC => Bumped(v, 1, wide)
    case TRB => Masked(v, Narrowed(s.C, wide), false, wide)
    case TSB => Masked(v, Narrowed(s.C, wide), true, wide)
  }

  /** The status it leaves. */
  function ModifiedFlags(s: State, op: ModifyOp, v: word, wide: bool): (q: Status)
    requires wide || v < 0x100
    ensures q == s.P.(C := q.C, Z := q.Z, N := q.N)
  {
    hide Modified, ShiftFlags, TestedFlags;
    if op.TRB? || op.TSB? then TestedFlags(s, v, wide) else ShiftFlags(s.P, op, v, Modified(s, op, v, wide), wide)
  }

  function TestedFlags(s: State, v: word, wide: bool): (q: Status)
    requires wide || v < 0x100
    ensures q == s.P.(C := q.C, Z := q.Z, N := q.N)
  {
    s.P.(Z := (if wide then Logic16(And, s.C, v) else Logic8(And, Low(s.C), v)) == 0)
  }

  /** The bit a shift or rotation pushes out goes into the carry. */
  predicate ShiftedOut(p: Status, op: ModifyOp, v: word, wide: bool) {
    match op
    case ASL | ROL => TopBit(v, wide)
    case LSR | ROR => v % 2 == 1
    case _ => p.C
  }

  function ShiftFlags(p: Status, op: ModifyOp, v: word, out: word, wide: bool): (q: Status)
    ensures q == p.(C := q.C, Z := q.Z, N := q.N)
  {
    hide Status.NZ;
    var q := p.NZ(out, wide);
    q.(C := ShiftedOut(p, op, v, wide))
  }

  predicate KnowsModify(op: ModifyOp, mode: Mode) {
    op.TRB? || op.TSB? || mode.DP? || mode.DPX? || mode.ABS? || mode.ABSX?
  }

  /** The flags a shift or rotation leaves when its mode is unknown. */
  function RejectedModify(p: Status, op: ModifyOp): Status {
    var q := p.(CRASH := true);
    if op in {ASL, LSR, ROL, ROR} then q.(C := false, N := false, Z := true) else q
  }

  function Modify(s: State, op: ModifyOp, mode: Mode, a: addr, size: nat): (t: State)
    ensures KnowsModify(op, mode) ==> SameControl(s.Advance(size), t)
  {
    var wide := !s.P.Acc8();
    var inBank := if op.TRB? || op.TSB? then mode.DP? else StaysInBank(mode);
    var t := if !KnowsModify(op, mode) then s.(P := RejectedModify(s.P, op))
             else
               var v := Fetch(s.m, a, wide, inBank);
               s.(m := Store(s.m, a, Modified(s, op, v, wide), wide, inBank), P := ModifiedFlags(s, op, v, wide));
    t.Advance(size)
  }

  /** The same operation on the accumulator. */
  function ModifyA(s: State, op: ModifyOp): (t: State)
    ensures SameControl(s.Advance(1), t) && t.m == s.m
  {
    var wide := !s.P.Acc8();
    var v := Narrowed(s.C, wide);
    s.SetA(Modified(s, op, v, wide), wide).(P := ModifiedFlags(s, op, v, wide)).Advance(1)
  }

  // Registers -----------------------------------------------------------------------------------

  /** A transfer into an index register, which keeps only what its width holds. */
  function ToIndex(s: State, v: word): word { if s.P.Idx8() then Low(v) else v }

  /** A transfer from an index register into the accumulator. */
  function IndexToA(s: State, x: word): (t: State)
    ensures SameControl(s, t) && t.m == s.m
  {
    var wide := !s.P.Acc8();
    var v := if s.P.XB then Low(x) else x;
    var t := s.SetA(if wide then v else Low(x), wide);
    t.(P := s.P.NZ(t.C, wide))
  }

  function ExchangeCE(s: State): State {
    var p := s.P.(E := s.P.C, C := s.P.E, M := true);
    if p.E then s.(P := p, SP := 0x100 + Low(s.SP)).Narrow() else s.(P := p.(XB := true))
  }

  function Register(s: State, op: RegOp): State {
    var p := s.P;
    match op
    case CLC => s.(P := p.(C := false)).Advance(1)
    case CLD => s.(P := p.(D := false)).Advance(1)
    case CLI => s.(P := p.(I := false)).Advance(1)
    case CLV => s.(P := p.(V := false)).Advance(1)
    case SEC => s.(P := p.(C := true)).Advance(1)
    case SED => s.(P := p.(D := true)).Advance(1)
    case SEI => s.(P := p.(I := true)).Advance(1)
    case DEA => ModifyA(s, DEC)
    case INA => ModifyA(s, INC)
    case DEX => var x := ToIndex(s, Wrap(s.X - 1)); s.(X := x, P := p.NZ(x, !p.Idx8())).Advance(1)
    case DEY => var y := ToIndex(s, Wrap(s.Y - 1)); s.(Y := y, P := p.NZ(y, !p.Idx8())).Advance(1)
    case INX => var x := ToIndex(s, Wrap(s.X + 1)); s.(X := x, P := p.NZ(x, !p.Idx8())).Advance(1)
    case INY => var y := ToIndex(s, Wrap(s.Y + 1)); s.(Y := y, P := p.NZ(y, !p.Idx8())).Advance(1)
    case TAX => var x := ToIndex(s, s.C); s.(X := x, P := p.NZ(x, !p.Idx8())).Advance(1)
    case TAY => var y := ToIndex(s, s.C); s.(Y := y, P := p.NZ(y, !p.Idx8())).Advance(1)
    case TSX => var x := ToIndex(s, s.SP); s.(X := x, P := p.NZ(x, !p.Idx8())).Advance(1)
    case TXY => var y := ToIndex(s, s.X); s.(Y := y, P := p.NZ(y, !p.Idx8())).Advance(1)
    case TYX => var x := ToIndex(s, s.Y); s.(X := x, P := p.NZ(x, !p.Idx8())).Advance(1)
    case TXA => IndexToA(s, s.X).Advance(1)
    case TYA => IndexToA(s, s.Y).Advance(1)
    case TCD => s.(D := s.C, P := p.NZ(s.C, true)).Advance(1)
    case TDC => s.(C := s.D, P := p.NZ(s.D, true)).Advance(1)
    case TCS => s.SetSp(s.C).Advance(1)
    case TXS => s.SetSp(if p.XB then Low(s.X) else s.X).Advance(1)
    case TSC => var c := if p.E then 0x100 + Low(s.SP) else s.SP; s.(C := c, P := p.NZ(c, true)).Advance(1)
    case XBA => var c := Pair(High(s.C), Low(s.C)); s.(C := c, P := p.NZ(c, false)).Advance(1)
    case XCE => ExchangeCE(s).Advance(1)
    case NOP => s.Advance(1)
    case WDM => s.Advance(2)
    case WAI => if p.NMI || p.IRQ then s.Advance(1) else s
    case STP => s.(P := p.(STP := true))
  }

  /** Index registers lose their high bytes when they become narrow; emulation mode never masks here. */
  function MaskIndex(s: State): State { if !s.P.E && s.P.XB then s.Narrow() else s }

  /** Bits 4 and 5 of SR cannot be changed in emulation mode. */
  function Cleared(p: Status, q: Status): Status {
    p.(C := p.C && !q.C, Z := p.Z && !q.Z, I := p.I && !q.I, D := p.D && !q.D,
       XB := p.XB && (p.E || !q.XB), M := p.M && (p.E || !q.M), V := p.V && !q.V, N := p.N && !q.N)
  }

  function Raised(p: Status, q: Status): Status {
    p.(C := p.C || q.C, Z := p.Z || q.Z, I := p.I || q.I, D := p.D || q.D,
       XB := p.XB || (!p.E && q.XB), M := p.M || (!p.E && q.M), V := p.V || q.V, N := p.N || q.N)
  }

  function ResetBits(s: State): State {
    MaskIndex(s.(P := Cleared(s.P, s.P.WithSr(s.Op8())))).Advance(2)
  }

  /** SEP takes its mask from bank 0, whatever the program bank. */
  function SetBits(s: State): State {
    MaskIndex(s.(P := Raised(s.P, s.P.WithSr(s.m[At(0, s.PC + 1)])))).Advance(2)
  }

  // Control flow --------------------------------------------------------------------------------

  predicate Taken(p: Status, c: Cond) {
    match c
    case BCC => !p.C
    case BCS => p.C
    case BEQ => p.Z
    case BMI => p.N
    case BNE => !p.Z
    case BPL => !p.N
    case BRA => true
    case BVC => !p.V
    case BVS => p.V
  }

  function Goto(s: State, target: int): State { s.(PC := target % 0x1_0000) }

  function Branch(s: State, c: Cond): State {
    if Taken(s.P, c) then Goto(s, Effective(s, PCR)) else s.Advance(2)
  }

  /** Only an absolute long jump loads the program bank. */
  function Jump(s: State, mode: Mode, a: addr): State {
    Goto(if mode.ABSL? then s.(PBR := a / 0x1_0000) else s, a)
  }

  /** JSR takes its number of cycles from the opcode table. */
  function Call(s: State, cycles: nat, a: addr): State {
    Goto(PushWord(s, At(0, s.PC + 2), true), a).(cycles := Later(s.cycles, cycles))
  }

  function CallLong(s: State, a: addr): State {
    Goto(PushLong(s, At(s.PBR, s.PC + 3)), a).(PBR := a / 0x1_0000, cycles := Later(s.cycles, 8))
  }

  function Return(s: State): State {
    Goto(DropWord(s, true), TopWord(s, true) + 1).(cycles := Later(s.cycles, 6))
  }

  function ReturnLong(s: State): State {
    Goto(DropLong(s), TopLong(s) + 1).(PBR := TopLong(s) / 0x1_0000, cycles := Later(s.cycles, 6))
  }

  // Stack ---------------------------------------------------------------------------------------

  function Push(s: State, op: PushOp): State {
    match op
    case PHA => (if s.P.Acc8() then PushByte(s, Low(s.C)) else PushWord(s, s.C, true)).Advance(1)
    case PHX => (if s.P.Idx8() then PushByte(s, Low(s.X)) else PushWord(s, s.X, true)).Advance(1)
    case PHY => (if s.P.Idx8() then PushByte(s, Low(s.Y)) else PushWord(s, s.Y, true)).Advance(1)
    case PHB => PushByte(s, s.DBR).Advance(1)
    case PHK => PushByte(s, s.PBR).Advance(1)
    case PHP => PushByte(s, s.P.Sr()).Advance(1)
    case PHD => PushWord(s, s.D, false).Advance(1)
    case PEA => PushWord(s, s.Op16(), false).Advance(3)
    case PEI => PushWord(s, WordInBank(s.m, At(0, s.D + s.Op8())), false).Advance(2)
    case PER => PushWord(s, At(0, s.PC + 3 + s.Op16()), false).Advance(3)
  }

  function Pull(s: State, op: PullOp): State {
    match op
    case PLA =>
      var wide := !s.P.Acc8();
      var v := if wide then TopWord(s, true) else TopByte(s);
      (if wide then DropWord(s, true) else DropByte(s)).SetA(v, wide).(P := s.P.NZ(v, wide)).Advance(1)
    case PLX =>
      var wide := !s.P.Idx8();
      var v := if wide then TopWord(s, true) else TopByte(s);
      (if wide then DropWord(s, true) else DropByte(s)).(X := v, P := s.P.NZ(v, wide)).Advance(1)
    case PLY =>
      var wide := !s.P.Idx8();
      var v := if wide then TopWord(s, true) else TopByte(s);
      (if wide then DropWord(s, true) else DropByte(s)).(Y := v, P := s.P.NZ(v, wide)).Advance(1)
    case PLB => DropByte(s).(DBR := TopByte(s), P := s.P.NZ(TopByte(s), false)).Advance(1)
    case PLD => DropWord(s, false).(D := TopWord(s, false), P := s.P.NZ(TopWord(s, false), true)).Advance(1)
    case PLP =>
      var q := s.P.WithSr(TopByte(s));
      MaskIndex(DropByte(s).(P := if s.P.E then q.(XB := true, M := true) else q)).Advance(1)
  }

  // Interrupts and block moves --------------------------------------------------------------------

  function EntryCycles(e: bool, cycles: uint64): uint64 { Later(cycles, if e then 7 else 8) }

  /** Saves PC and SR (PBR too in native mode) and jumps through a vector in bank 0. */
  function Enter(s: State, sr: Status, vector: word): (t: State)
    ensures t == s.(SP := t.SP, PC := t.PC, PBR := 0, P := s.P.(D := false),
                    cycles := EntryCycles(s.P.E, s.cycles), m := t.m)
    ensures s.P.E ==> 0x100 <= t.SP < 0x200
  {
    hide StoreWord, WordAt, At, Status.Sr;
    var pushed := if s.P.E then PushByte(PushWord(s, s.PC, true), sr.Sr())
                  else PushByte(PushLong(s, At(s.PBR, s.PC)), s.P.Sr());
    pushed.(PC := WordAt(pushed.m, vector), PBR := 0, P := s.P.(D := false), cycles := EntryCycles(s.P.E, s.cycles))
  }

  function Break(s: State): State {
    var t := s.Advance(2);
    var u := Enter(t, t.P.(XB := true), if t.P.E then 0xfffe else 0xffe6);
    u.(P := u.P.(I := true))
  }

  /** With `copVect` the operand selects an entry of a table of addresses at the COP vector's target. */
  function Coprocessor(s: State): State {
    var t := s.Advance(2);
    var u := Enter(t, t.P.(XB := false), if t.P.E then 0xfff4 else 0xffe4);
    var v := u.(P := u.P.(I := true));
    if s.copVect then v.(PC := WordAt(v.m, v.PC + s.Op8() * 2 % 0x100)) else v
  }

  function ReturnFromInterrupt(s: State): State {
    var q := s.P.WithSr(TopByte(s));
    var t := DropByte(s);
    var u := if s.P.E then Goto(DropWord(t, true), TopWord(t, true)).(P := q.(XB := s.P.XB, M := s.P.M))
             else Goto(MaskIndex(DropLong(t).(P := q)), TopLong(t)).(PBR := TopLong(t) / 0x1_0000);
    u.(cycles := Later(s.cycles, if s.P.E then 6 else 7))
  }

  /** One byte of a block move; `dir` is 1 for MVN and -1 for MVP. */
  function MoveByte(s: State, dir: int): (r: State)
    ensures r == s.(C := r.C, X := r.X, Y := r.Y, DBR := r.DBR, PC := r.PC, cycles := r.cycles, m := r.m)
  {
    var dst := s.Op8();
    var src := s.m[At(s.PBR, s.PC + 2)];
    var t := s.(
      m := s.m[At(dst, s.Y) := s.m[At(src, s.X)]],
      X := Wrap(s.X + dir), Y := Wrap(s.Y + dir), DBR := dst, C := Wrap(s.C - 1),
      cycles := Later(s.cycles, 7));
    if t.C == 0xffff then t.Advance(3) else t
  }
}
