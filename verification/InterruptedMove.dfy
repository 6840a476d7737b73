/**
 A block move whose bytes are separated by interrupts, each served by a handler that returns at once.
 */
module InterruptedMove {
  import opened Words
  import opened Opcodes
  import opened Machine
  import opened Executor
  import opened BlockMove
  import opened Interrupts
  import I = Instructions
  import K = Stack

  /** How many interrupts are taken when the lines `l` are raised: IRQ is not, while I is set. */
  function Taken(l: Lines, i: bool): nat { (if l.nmi then 1 else 0) + if l.irq && !i then 1 else 0 }

  /** One step with the lines raised, and one step, the RTI, for each handler. */
  function Serve(s: State, l: Lines): State { Steps(Step(Raise(s, l)).0, Taken(l, s.P.I)) }

  /** The state when with each byte the lines `events` gives for it were raised. */
  function Served(s: State, events: seq<Lines>): State {
    if events == [] then s else Serve(Served(s, events[..|events| - 1]), events[|events| - 1])
  }

  /** How many interrupts are served. */
  function Count(events: seq<Lines>, i: bool): nat {
    if events == [] then 0 else Count(events[..|events| - 1], i) + Taken(events[|events| - 1], i)
  }

  /** IRQs that are masked stay waiting. */
  predicate Waiting(s: State, events: seq<Lines>) {
    if events == [] then s.P.IRQ else Waiting(s, events[..|events| - 1]) || (s.P.I && events[|events| - 1].irq)
  }

  /** The cycles of `n` interrupts and their handlers. */
  function ServiceCycles(n: nat, e: bool): nat { if e then 13 * n else 15 * n }

  predicate InFrame(s: State, a: addr) { K.Window(s.P.E, s.SP, Frame(s.P.E), a) }

  /** A byte that neither the move nor the interrupts write. */
  ghost predicate Untouched(s: State, dir: int, dst: byte, a: addr) {
    !InFrame(s, a) && forall k: nat | k <= s.C :: a != Cell(dst, s.Y, dir, k)
  }

  /** The handler at a vector is a single RTI, and stays one. */
  ghost predicate HandlerReturns(s: State, dir: int, dst: byte, vector: word)
    requires vector < 0xffff
  {
    var h := WordAt(s.m, vector);
    && s.m[h] == 0x40 && Untouched(s, dir, dst, h)
    && Untouched(s, dir, dst, vector) && Untouched(s, dir, dst, vector + 1)
  }

  ghost predicate ServesNmi(s: State, dir: int, dst: byte) {
    HandlerReturns(s, dir, dst, if s.P.E then 0xfffa else 0xffea)
  }

  ghost predicate ServesIrq(s: State, dir: int, dst: byte) {
    HandlerReturns(s, dir, dst, if s.P.E then 0xfffe else 0xffee)
  }

  /** The stack bytes used by interrupts are outside the instruction and both areas of the move. */
  ghost predicate FrameApart(s: State, dir: int, dst: byte, src: byte) {
    && !InFrame(s, At(s.PBR, s.PC)) && !InFrame(s, At(s.PBR, s.PC + 1)) && !InFrame(s, At(s.PBR, s.PC + 2))
    && forall k: nat | k <= s.C :: !InFrame(s, Cell(dst, s.Y, dir, k)) && !InFrame(s, Cell(src, s.X, dir, k))
  }

  /**
   * The same but for the interrupts' stack bytes, for the cycles of `n` of them, and for `w`, whether an IRQ
   * is waiting.
   */
  ghost predicate Agrees(s: State, a: State, t: State, n: nat, w: bool) {
    t == a.(P := a.P.(IRQ := w), m := t.m, cycles := Later(a.cycles, ServiceCycles(n, s.P.E)))
    && K.SameOutside(s.P.E, s.SP, Frame(s.P.E), a.m, t.m)
  }

  /** What is assumed of the state in which the move starts. */
  ghost predicate Moving(s: State, dir: int, dst: byte, src: byte) {
    && Direction(dir) && Ready(s.P) && AtMove(s, dir, dst, src) && SparesInstruction(s, dir, dst)
    && FrameApart(s, dir, dst, src) && K.Placed(s.P.E, s.SP)
  }

  /**
   * Where an interrupt after `k` bytes can be undone: in bank 0 in emulation mode, and in native mode
   * when narrow index registers have not run past their width.
   */
  predicate Resumable(s: State, dir: int, k: nat) {
    if s.P.E then s.PBR == 0
    else s.P.XB ==> Wrap(s.X + Along(dir, k)) < 0x100 && Wrap(s.Y + Along(dir, k)) < 0x100
  }

  lemma NextByte(s: State, dir: int, dst: byte, src: byte, k: nat, t: State, n: nat, w: bool)
    requires Moving(s, dir, dst, src) && k <= s.C && Agrees(s, Steps(s, k), t, n, w)
    ensures AtMove(t, dir, dst, src) && Agrees(s, Steps(s, k + 1), I.MoveByte(t, dir), n, w)
    ensures t.P == s.P.(IRQ := w) && t.SP == s.SP && t.PBR == s.PBR
  {
    hide Step, Steps, Cell, At, K.Window, AtMove, I.MoveByte, InFrame, Later;
    Halfway(s, dir, dst, src, k);
    assert !InFrame(s, Cell(src, s.X, dir, k));
    MoveAgrees(s, dir, dst, src, Steps(s, k), t, n, w);
  }

  /** The state half-way through an undisturbed move. */
  lemma Halfway(s: State, dir: int, dst: byte, src: byte, k: nat)
    requires Moving(s, dir, dst, src) && k <= s.C
    ensures var a := Steps(s, k);
            && AtMove(a, dir, dst, src) && a.P == s.P && a.SP == s.SP && a.PC == s.PC && a.PBR == s.PBR
            && At(dst, a.Y) == Cell(dst, s.Y, dir, k) && At(src, a.X) == Cell(src, s.X, dir, k)
            && Steps(s, k + 1) == I.MoveByte(a, dir)
  {
    hide Step, At, Copy, AtMove, I.MoveByte, Cell;
    CellStep(dst, s.Y, dir, k);
    CellStep(src, s.X, dir, k);
    if k > 0 {
      MoveSteps(s, dir, dst, src, k);
      StillAtMove(s, dir, dst, src, k);
    } else {
      Offset0(s, dir);
    }
    MoveStep(Steps(s, k), dir, dst, src);
  }

  lemma Offset0(s: State, dir: int)
    ensures Wrap(s.X + Along(dir, 0)) == s.X && Wrap(s.Y + Along(dir, 0)) == s.Y
  {
  }

  lemma MoveAgrees(s: State, dir: int, dst: byte, src: byte, a: State, t: State, n: nat, w: bool)
    requires Agrees(s, a, t, n, w) && AtMove(a, dir, dst, src)
    requires !InFrame(s, At(a.PBR, a.PC)) && !InFrame(s, At(a.PBR, a.PC + 1)) && !InFrame(s, At(a.PBR, a.PC + 2))
    requires !InFrame(s, At(src, a.X))
    ensures AtMove(t, dir, dst, src) && Agrees(s, I.MoveByte(a, dir), I.MoveByte(t, dir), n, w)
  {
    hide At, K.Window, Later, ServiceCycles;
    var c := ServiceCycles(n, s.P.E);
    LaterTwice(a.cycles, c, 7);
    LaterTwice(a.cycles, 7, c);
  }

  lemma RaiseThenMove(t: State, dir: int, l: Lines)
    ensures I.MoveByte(Raise(t, l), dir) == Raise(I.MoveByte(t, dir), l)
  {
    hide At;
    var u := Raise(t, l);
    var a, b := I.MoveByte(u, dir), I.MoveByte(t, dir);
    assert u.Op8() == t.Op8();
    assert a.m == b.m;
    assert a.C == b.C && a.X == b.X && a.Y == b.Y && a.DBR == b.DBR && a.cycles == b.cycles;
    assert a.PC == b.PC;
    hide I.MoveByte;
    assert a == b.(P := u.P);
  }

  /** A byte moved while interrupts are pending: the byte is moved first, and then an interrupt taken. */
  lemma PendingStep(t: State, dir: int, dst: byte, src: byte, l: Lines)
    requires Direction(dir) && Ready(t.P) && AtMove(t, dir, dst, src)
    ensures var x := Raise(I.MoveByte(t, dir), l);
            Step(Raise(t, l)).0 == TakeInterrupt(x) && Active(x.P) && x.SP == t.SP
  {
    hide Decode, TakeInterrupt, At, I.MoveByte;
    DecodeMoves();
    RaiseThenMove(t, dir, l);
    assert Opcode(Raise(t, l)) == Opcode(t);
  }

  /** Taking an interrupt goes where the vector points, having written only its stack frame. */
  lemma Entered(x: State)
    requires !Quiet(x.P) && K.Placed(x.P.E, x.SP)
    ensures var u := TakeInterrupt(x);
            u.PC == WordAt(u.m, Vector(x.P)) && u.PBR == 0 && K.SameOutside(x.P.E, x.SP, Frame(x.P.E), x.m, u.m)
  {
    hide I.Enter, TakeInterrupt, Frame, WordAt, At, Status.Sr, TopByte, DropByte, ReturnAddress;
    hide K.Window, K.Top, K.Drop, K.SameOutside;
    var t, vector := Acknowledged(x), Vector(x.P);
    TakenInterrupt(x);
    FrameOnStack(t, t.P.(XB := false), vector);
    EntersAt(t, t.P.(XB := false), vector);
  }

  /** An interrupt whose vector and handler lie outside its own stack bytes enters a handler that returns. */
  lemma HandlerEntered(x: State, h: word)
    requires !Quiet(x.P) && K.Placed(x.P.E, x.SP)
    requires WordAt(x.m, Vector(x.P)) == h && x.m[h] == 0x40
    requires !InFrame(x, Vector(x.P)) && !InFrame(x, Vector(x.P) + 1) && !InFrame(x, h)
    ensures Opcode(TakeInterrupt(x)) == 0x40
  {
    hide I.Enter, K.Window, TakeInterrupt, Frame, WordAt, At, Quiet;
    Entered(x);
    K.SameWord(x.m, TakeInterrupt(x).m, Vector(x.P));
    AtZero(h);
  }

  lemma EntersAt(s: State, sr: Status, vector: word)
    requires vector < 0xffff
    ensures var u := I.Enter(s, sr, vector); u.PC == WordAt(u.m, vector) && u.PBR == 0
  {
    hide PushByte, PushWord, PushLong, WordAt, Status.Sr, At;
  }

  lemma SparedByte(s: State, dir: int, dst: byte, src: byte, k: nat, a: addr)
    requires Moving(s, dir, dst, src) && 0 < k <= s.C + 1 && Untouched(s, dir, dst, a)
    ensures Steps(s, k).m[a] == s.m[a]
  {
    hide Steps, Cell, Copy;
    MoveSteps(s, dir, dst, src, k);
    CopyOutside(s.m, dst, s.Y, src, s.X, dir, k, a);
  }

  lemma HandlerSpared(s: State, dir: int, dst: byte, src: byte, k: nat, x: State)
    requires Moving(s, dir, dst, src) && 0 < k <= s.C + 1
    requires K.SameOutside(s.P.E, s.SP, Frame(s.P.E), Steps(s, k).m, x.m)
    requires !Quiet(x.P) && x.P.E == s.P.E && x.SP == s.SP && HandlerReturns(s, dir, dst, Vector(x.P))
    ensures Opcode(TakeInterrupt(x)) == 0x40
  {
    hide Steps, TakeInterrupt, Moving, Opcode;
    var vector := Vector(x.P);
    var h := WordAt(s.m, vector);
    SparedByte(s, dir, dst, src, k, h);
    SparedByte(s, dir, dst, src, k, vector);
    SparedByte(s, dir, dst, src, k, vector + 1);
    MovingPlaced(s, dir, dst, src);
    HandlerEntered(x, h);
  }

  lemma MovingPlaced(s: State, dir: int, dst: byte, src: byte)
    requires Moving(s, dir, dst, src)
    ensures K.Placed(s.P.E, s.SP) && Ready(s.P) && Direction(dir)
  {
  }

  lemma FewSteps(s: State)
    ensures Steps(s, 0) == s && Steps(s, 1) == Step(s).0 && Steps(s, 2) == Step(Step(s).0).0
  {
    hide Step;
    assert Steps(s, 1) == Step(Steps(s, 0)).0;
  }

  /** The handler of the only interrupt that can be taken. */
  lemma LastServed(x: State)
    requires Active(x.P) && !Quiet(x.P) && Quiet(Acknowledged(x).P) && K.Placed(x.P.E, x.SP)
    requires Opcode(TakeInterrupt(x)) == 0x40
    ensures var y, z := Acknowledged(x), Steps(TakeInterrupt(x), 1);
            && z == Restored(y).(m := z.m, cycles := Later(y.cycles, RoundTrip(x.P.E)))
            && K.SameOutside(x.P.E, x.SP, Frame(x.P.E), y.m, z.m)
  {
    hide Step, Steps, TakeInterrupt, Opcode, K.SameOutside, Restored, Later, Quiet;
    InterruptServed(x);
    RestoredParts(Acknowledged(x));
    QuietStays(AfterHandler(x, TakeInterrupt(x).m));
    FewSteps(TakeInterrupt(x));
  }

  /** The first of two handlers ends with the second interrupt being taken. */
  lemma FirstServed(x: State) returns (y: State)
    requires Active(x.P) && x.P.NMI && x.P.IRQ && !x.P.I && K.Placed(x.P.E, x.SP)
    requires Opcode(TakeInterrupt(x)) == 0x40
    ensures y == Restored(Acknowledged(x)).(m := y.m, cycles := Later(x.cycles, RoundTrip(x.P.E)))
    ensures K.SameOutside(x.P.E, x.SP, Frame(x.P.E), x.m, y.m)
    ensures Steps(TakeInterrupt(x), 2) == Steps(TakeInterrupt(y), 1)
  {
    hide Step, Steps, TakeInterrupt, Opcode, K.SameOutside, Restored, Later;
    InterruptServed(x);
    y := AfterHandler(x, TakeInterrupt(x).m);
    FewSteps(TakeInterrupt(x));
    FewSteps(TakeInterrupt(y));
  }

  /** What RTI cannot bring back, it cannot bring back twice. */
  lemma RestoredTwice(s: State)
    ensures Restored(Restored(s)) == Restored(s)
  {
    LowNarrow(Low(s.X));
    LowNarrow(Low(s.Y));
  }

  /** The byte moved with the result `y`, and the one interrupt taken in `x` served. */
  lemma ServedOne(s: State, dir: int, dst: byte, src: byte, j: nat, y: State, x: State, n: nat, w: bool)
    requires Moving(s, dir, dst, src) && 0 < j <= s.C + 1 && Agrees(s, Steps(s, j), y, n, w)
    requires Active(x.P) && !Quiet(x.P) && Acknowledged(x) == y && Quiet(y.P) && x.P.E == s.P.E && x.SP == s.SP
    requires HandlerReturns(s, dir, dst, Vector(x.P))
    ensures Agrees(s, Restored(Steps(s, j)), Steps(TakeInterrupt(x), 1), n + 1, w)
  {
    hide Step, Steps, TakeInterrupt, Moving, Opcode, HandlerReturns, K.SameOutside, Later, Restored, Quiet, Vector;
    MovingPlaced(s, dir, dst, src);
    HandlerSpared(s, dir, dst, src, j, x);
    LastServed(x);
    RestoredAgrees(s, Steps(s, j), y, Steps(TakeInterrupt(x), 1), n, w);
  }

  /** The same with both interrupts. */
  lemma ServedBoth(s: State, dir: int, dst: byte, src: byte, j: nat, y: State, x: State, n: nat)
    requires Moving(s, dir, dst, src) && 0 < j <= s.C + 1 && Agrees(s, Steps(s, j), y, n, false)
    requires Ready(y.P) && !y.P.I && x == y.(P := y.P.(NMI := true, IRQ := true)) && x.P.E == s.P.E && x.SP == s.SP
    requires HandlerReturns(s, dir, dst, Vector(x.P)) && HandlerReturns(s, dir, dst, Vector(x.P.(NMI := false)))
    ensures Agrees(s, Restored(Steps(s, j)), Steps(TakeInterrupt(x), 2), n + 2, false)
  {
    hide Step, Steps, TakeInterrupt, Moving, Opcode, HandlerReturns, K.SameOutside, Later, Restored, Vector;
    hide Agrees, Acknowledged, RoundTrip;
    MovingPlaced(s, dir, dst, src);
    BothPending(y, x);
    AgreesMemory(s, Steps(s, j), y, n, false);
    HandlerSpared(s, dir, dst, src, j, x);
    var z := FirstServed(x);
    FirstLetGo(y, x, z);
    RestoredAgrees(s, Steps(s, j), y, Acknowledged(z), n, false);
    SecondServed(s, dir, dst, src, j, z, n + 1);
  }

  lemma AgreesMemory(s: State, a: State, t: State, n: nat, w: bool)
    requires Agrees(s, a, t, n, w)
    ensures K.SameOutside(s.P.E, s.SP, Frame(s.P.E), a.m, t.m)
  {
  }

  lemma BothPending(y: State, x: State)
    requires Ready(y.P) && x == y.(P := y.P.(NMI := true, IRQ := true))
    ensures Active(x.P) && !Quiet(x.P) && x.m == y.m && x.P.I == y.P.I
  {
  }

  /** When the first of two handlers has returned only IRQ is pending. */
  lemma FirstLetGo(y: State, x: State, z: State)
    requires Ready(y.P) && !y.P.I && x == y.(P := y.P.(NMI := true, IRQ := true))
    requires z == Restored(Acknowledged(x)).(m := z.m, cycles := z.cycles)
    ensures Acknowledged(z) == Restored(y).(m := z.m, cycles := z.cycles) && z.P == y.P.(IRQ := true)
    ensures Active(z.P) && !z.P.NMI && !z.P.I && z.P.E == y.P.E && z.SP == y.SP
  {
    hide Restored;
    RestoredParts(y);
    RestoredParts(Acknowledged(x));
    RestoredFlags(y, Acknowledged(x));
  }

  lemma RestoredFlags(t: State, x: State)
    requires x == t.(P := x.P) && x.P.E == t.P.E && x.P.XB == t.P.XB
    ensures Restored(x) == Restored(t).(P := x.P)
  {
    hide Low;
  }

  lemma SecondServed(s: State, dir: int, dst: byte, src: byte, j: nat, y: State, n: nat)
    requires Moving(s, dir, dst, src) && 0 < j <= s.C + 1
    requires Agrees(s, Restored(Steps(s, j)), Acknowledged(y), n, false)
    requires Active(y.P) && !y.P.NMI && y.P.IRQ && !y.P.I && y.P.E == s.P.E && y.SP == s.SP
    requires HandlerReturns(s, dir, dst, Vector(y.P))
    ensures Agrees(s, Restored(Steps(s, j)), Steps(TakeInterrupt(y), 1), n + 1, false)
  {
    hide Step, Steps, TakeInterrupt, Moving, Opcode, HandlerReturns, K.SameOutside, Later, Restored, Vector;
    MovingPlaced(s, dir, dst, src);
    RestoredParts(Steps(s, j));
    HandlerSpared(s, dir, dst, src, j, y);
    LastServed(y);
    RestoredAgrees(s, Restored(Steps(s, j)), Acknowledged(y), Steps(TakeInterrupt(y), 1), n, false);
    RestoredTwice(Steps(s, j));
  }

  /** The step in which a byte is moved and an interrupt, if one has come, is taken. */
  lemma MovedAndTaken(s: State, dir: int, dst: byte, src: byte, k: nat, t: State, n: nat, w: bool, l: Lines)
    requires Moving(s, dir, dst, src) && k <= s.C && Agrees(s, Steps(s, k), t, n, w) && (w ==> s.P.I)
    ensures var y := I.MoveByte(t, dir);
            && Step(Raise(t, l)).0 == TakeInterrupt(Raise(y, l)) && Agrees(s, Steps(s, k + 1), y, n, w)
            && y.P == t.P == s.P.(IRQ := w) && y.SP == s.SP && Ready(y.P)
  {
    hide Step, Steps, AtMove, I.MoveByte, TakeInterrupt, Moving, Agrees;
    MovingPlaced(s, dir, dst, src);
    NextByte(s, dir, dst, src, k, t, n, w);
    PendingStep(t, dir, dst, src, l);
  }

  /** An IRQ that is masked only waits. */
  lemma AgreesWaiting(s: State, a: State, y: State, n: nat, w: bool, w': bool)
    requires Agrees(s, a, y, n, w)
    ensures Agrees(s, a, y.(P := y.P.(IRQ := w')), n, w')
  {
    hide K.SameOutside, Later;
  }

  /** The interrupts that are taken after a byte has been moved with the result `y`. */
  lemma ServedTaken(s: State, dir: int, dst: byte, src: byte, j: nat, y: State, n: nat, w: bool, l: Lines)
    requires Moving(s, dir, dst, src) && 0 < j <= s.C + 1 && Agrees(s, Steps(s, j), y, n, w)
    requires Ready(y.P) && y.P == s.P.(IRQ := w) && y.SP == s.SP && Serves(s, dir, dst, l) && Taken(l, s.P.I) > 0
    ensures var c := Taken(l, s.P.I);
            Agrees(s, Restored(Steps(s, j)), Steps(TakeInterrupt(Raise(y, l)), c), n + c, w || (s.P.I && l.irq))
  {
    hide Step, Steps, TakeInterrupt, Moving, Serves, Agrees, Restored, Raise;
    if Taken(l, s.P.I) == 2 {
      ServedPair(s, dir, dst, src, j, y, n, w, l);
    } else {
      ServedSingle(s, dir, dst, src, j, y, n, w, l);
    }
  }

  lemma ServedSingle(s: State, dir: int, dst: byte, src: byte, j: nat, y: State, n: nat, w: bool, l: Lines)
    requires Moving(s, dir, dst, src) && 0 < j <= s.C + 1 && Agrees(s, Steps(s, j), y, n, w)
    requires Ready(y.P) && y.P == s.P.(IRQ := w) && y.SP == s.SP && Serves(s, dir, dst, l) && Taken(l, s.P.I) == 1
    ensures var w' := w || (s.P.I && l.irq);
            Agrees(s, Restored(Steps(s, j)), Steps(TakeInterrupt(Raise(y, l)), 1), n + 1, w')
  {
    hide Step, Steps, TakeInterrupt, Moving, Serves, HandlerReturns, Agrees, Restored, Vector;
    hide Raise, Acknowledged, Quiet, Taken;
    var w' := w || (s.P.I && l.irq);
    RaisedCases(y, l);
    AgreesWaiting(s, Steps(s, j), y, n, w, w');
    ServesVector(s, dir, dst, l, Raise(y, l).P);
    ServedOne(s, dir, dst, src, j, y.(P := y.P.(IRQ := w')), Raise(y, l), n, w');
  }

  lemma ServedPair(s: State, dir: int, dst: byte, src: byte, j: nat, y: State, n: nat, w: bool, l: Lines)
    requires Moving(s, dir, dst, src) && 0 < j <= s.C + 1 && Agrees(s, Steps(s, j), y, n, w)
    requires Ready(y.P) && y.P == s.P.(IRQ := w) && y.SP == s.SP && Serves(s, dir, dst, l) && Taken(l, s.P.I) == 2
    ensures !w && !s.P.I && Agrees(s, Restored(Steps(s, j)), Steps(TakeInterrupt(Raise(y, l)), 2), n + 2, false)
  {
    hide Step, Steps, TakeInterrupt, Moving, Serves, HandlerReturns, Agrees, Restored, Vector;
    hide Raise, Acknowledged, Quiet, Taken;
    var x := Raise(y, l);
    RaisedCases(y, l);
    ServesVector(s, dir, dst, l, x.P);
    ServesVector(s, dir, dst, l, x.P.(NMI := false));
    ServedBoth(s, dir, dst, src, j, y, x, n);
  }

  /** A byte moved, and whatever came with it served, differs from the byte moved by what RTI cannot restore. */
  lemma ServedByte(s: State, dir: int, dst: byte, src: byte, k: nat, t: State, n: nat, w: bool, l: Lines)
    requires Moving(s, dir, dst, src) && k <= s.C && Agrees(s, Steps(s, k), t, n, w) && (w ==> s.P.I)
    requires Serves(s, dir, dst, l)
    ensures var c, w' := Taken(l, s.P.I), w || (s.P.I && l.irq);
            Agrees(s, if c == 0 then Steps(s, k + 1) else Restored(Steps(s, k + 1)), Serve(t, l), n + c, w')
  {
    hide Step, Steps, I.MoveByte, TakeInterrupt, Moving, Serves, Agrees, Restored, Raise, Taken, Quiet;
    MovedAndTaken(s, dir, dst, src, k, t, n, w, l);
    var y := I.MoveByte(t, dir);
    if Taken(l, s.P.I) == 0 {
      RaisedCases(y, l);
      AgreesWaiting(s, Steps(s, k + 1), y, n, w, w || (s.P.I && l.irq));
      QuietStays(Raise(y, l));
      FewSteps(Raise(y, l));
    } else {
      ServedTaken(s, dir, dst, src, k + 1, y, n, w, l);
    }
  }

  /** What is pending once lines have been raised, when nothing was that is not masked. */
  lemma RaisedCases(y: State, l: Lines)
    requires Ready(y.P)
    ensures var x, c := Raise(y, l), Taken(l, y.P.I);
            var z := y.(P := y.P.(IRQ := y.P.IRQ || (y.P.I && l.irq)));
            && Active(x.P) && x.P.E == y.P.E && x.SP == y.SP && Ready(z.P) && c <= 2
            && (c == 0 ==> x == z && Quiet(x.P))
            && (c == 1 ==> !Quiet(x.P) && Acknowledged(x) == z && (if x.P.NMI then l.nmi else l.irq && !y.P.I))
            && (c == 2 ==> x == z.(P := z.P.(NMI := true, IRQ := true)) && !z.P.I && !z.P.IRQ && l.nmi && l.irq)
  {
    LinesCases(y.P, l);
    LinesOnly(y.P, l);
    hide WithLines, Taken;
  }

  lemma LinesCases(p: Status, l: Lines)
    requires Ready(p)
    ensures var q, r, c := WithLines(p, l), p.(IRQ := p.IRQ || (p.I && l.irq)), Taken(l, p.I);
            && c <= 2 && (c == 0 ==> q == r)
            && (c == 1 && l.nmi ==> q.NMI && q.(NMI := false) == r)
            && (c == 1 && !l.nmi ==> !q.NMI && q.IRQ && !q.I && q.(IRQ := false) == r && l.irq)
            && (c == 2 ==> q == r.(NMI := true, IRQ := true) && !r.I && !r.IRQ && l.nmi && l.irq)
  {
    match l {
      case Lines(false, false) =>
      case Lines(false, true) =>
      case Lines(true, false) =>
      case Lines(true, true) =>
    }
  }

  lemma LinesOnly(p: Status, l: Lines)
    requires Ready(p)
    ensures var q := WithLines(p, l); Active(q) && Ready(p.(IRQ := p.IRQ || (p.I && l.irq))) && q.E == p.E && q.I == p.I
  {
  }

  lemma RestoredAgrees(s: State, a: State, y: State, z: State, n: nat, w: bool)
    requires Agrees(s, a, y, n, w)
    requires z == Restored(y).(m := z.m, cycles := Later(y.cycles, RoundTrip(s.P.E)))
    requires K.SameOutside(s.P.E, s.SP, Frame(s.P.E), y.m, z.m)
    ensures Agrees(s, Restored(a), z, n + 1, w)
  {
    hide K.SameOutside, Low, Later;
    LaterTwice(a.cycles, ServiceCycles(n, s.P.E), RoundTrip(s.P.E));
    SameTwice(s.P.E, s.SP, Frame(s.P.E), a.m, y.m, z.m);
  }

  /** The handlers of the interrupts that will be taken are prepared. */
  ghost predicate Serves(s: State, dir: int, dst: byte, l: Lines) {
    (l.nmi ==> ServesNmi(s, dir, dst)) && (l.irq && !s.P.I ==> ServesIrq(s, dir, dst))
  }

  lemma ServesVector(s: State, dir: int, dst: byte, l: Lines, p: Status)
    requires Serves(s, dir, dst, l) && p.E == s.P.E
    ensures (if p.NMI then l.nmi else l.irq && !s.P.I) ==> HandlerReturns(s, dir, dst, Vector(p))
  {
    hide HandlerReturns;
  }

  /** The condition on the start of the move that decides whether the interrupt can be undone. */
  lemma ResumableSteps(s: State, dir: int, dst: byte, src: byte, k: nat)
    requires Moving(s, dir, dst, src) && 0 < k <= s.C + 1
    ensures Resumable(s, dir, k) <==> Restored(Steps(s, k)) == Steps(s, k)
  {
    hide Step, Steps, Copy, Along, AtMove, Ready, FrameApart, SparesInstruction;
    MoveSteps(s, dir, dst, src, k);
    RestoredWhenInterruptible(Steps(s, k));
    hide Restored;
  }

  /** Every interrupt comes where it can be undone. */
  ghost predicate Undisturbed(s: State, dir: int, events: seq<Lines>) {
    forall k | 0 <= k < |events| && Taken(events[k], s.P.I) > 0 :: Resumable(s, dir, k + 1)
  }

  ghost predicate AllServed(s: State, dir: int, dst: byte, events: seq<Lines>) {
    forall k | 0 <= k < |events| :: Serves(s, dir, dst, events[k])
  }

  /** After the bytes for which there are events, the move is where the undisturbed one is. */
  ghost predicate OnCourse(s: State, events: seq<Lines>) {
    Agrees(s, Steps(s, |events|), Served(s, events), Count(events, s.P.I), Waiting(s, events))
  }

  lemma {:induction false} WaitingMasked(s: State, events: seq<Lines>)
    requires Quiet(s.P)
    ensures Waiting(s, events) ==> s.P.I
  {
    if events == [] {
    } else {
      WaitingMasked(s, events[..|events| - 1]);
    }
  }

  /** One byte more. */
  lemma OnCourseNext(s: State, dir: int, dst: byte, src: byte, before: seq<Lines>, l: Lines)
    requires Moving(s, dir, dst, src) && |before| <= s.C && OnCourse(s, before) && Serves(s, dir, dst, l)
    ensures var a, events := Steps(s, |before| + 1), before + [l];
            Agrees(s, if Taken(l, s.P.I) == 0 then a else Restored(a),
                   Served(s, events), Count(events, s.P.I), Waiting(s, events))
  {
    hide Step, Steps, Moving, Serves, Serve, Restored, Agrees, Ready, Taken;
    MovingPlaced(s, dir, dst, src);
    WaitingMasked(s, before);
    ServedByte(s, dir, dst, src, |before|, Served(s, before), Count(before, s.P.I), Waiting(s, before), l);
    assert (before + [l])[..|before|] == before;
  }

  lemma {:induction false} OnCourseThroughout(s: State, dir: int, dst: byte, src: byte, events: seq<Lines>)
    requires Moving(s, dir, dst, src) && |events| <= s.C + 1
    requires AllServed(s, dir, dst, events) && Undisturbed(s, dir, events)
    ensures OnCourse(s, events)
  {
    hide Step, Steps, Moving, Serves, Served, Count, Waiting, Resumable, Restored, Agrees, Taken;
    if events == [] {
      OnCourseAtStart(s);
    } else {
      var n := |events|;
      var before := events[..n - 1];
      OnCourseThroughout(s, dir, dst, src, before);
      OnCourseNext(s, dir, dst, src, before, events[n - 1]);
      assert before + [events[n - 1]] == events;
      ResumableSteps(s, dir, dst, src, n);
    }
  }

  lemma OnCourseAtStart(s: State)
    ensures OnCourse(s, [])
  {
  }

  /**
   * A block move during whose bytes interrupt lines are raised in any pattern goes, after every byte,
   * through the states of the undisturbed move, but for the stack bytes and the cycles of the interrupts
   * and for a masked IRQ that is waiting, if and only if every interrupt comes where it can be undone.
   * Where one does not, the two part at that byte.
   */
  lemma InterruptsDoNotMatter(s: State, dir: int, dst: byte, src: byte, events: seq<Lines>)
    requires Moving(s, dir, dst, src) && |events| <= s.C + 1 && AllServed(s, dir, dst, events)
    ensures (forall j | 0 <= j <= |events| :: OnCourse(s, events[..j])) <==> Undisturbed(s, dir, events)
  {
    hide Moving, Serves, Resumable, OnCourse, Taken;
    if Undisturbed(s, dir, events) {
      forall j | 0 <= j <= |events| ensures OnCourse(s, events[..j]) {
        OnCourseThroughout(s, dir, dst, src, events[..j]);
      }
    }
    if forall j | 0 <= j <= |events| :: OnCourse(s, events[..j]) {
      forall k | 0 <= k < |events| && Taken(events[k], s.P.I) > 0 ensures Resumable(s, dir, k + 1) {
        NoPartingAt(s, dir, dst, src, events, k);
      }
    }
  }

  lemma NoPartingAt(s: State, dir: int, dst: byte, src: byte, events: seq<Lines>, k: nat)
    requires Moving(s, dir, dst, src) && |events| <= s.C + 1 && AllServed(s, dir, dst, events)
    requires k < |events| && Taken(events[k], s.P.I) > 0
    requires OnCourse(s, events[..k]) && OnCourse(s, events[..k + 1])
    ensures Resumable(s, dir, k + 1)
  {
    hide Step, Steps, Moving, Serves, Served, Count, Waiting, Resumable, Restored, K.SameOutside, Later, Taken;
    OnCourseNext(s, dir, dst, src, events[..k], events[k]);
    assert events[..k] + [events[k]] == events[..k + 1];
    RestoredParts(Steps(s, k + 1));
    ResumableSteps(s, dir, dst, src, k + 1);
  }

  /** So an interrupted move finishes like an undisturbed one, however many of its bytes were interrupted. */
  lemma InterruptedMoveCompletes(s: State, dir: int, dst: byte, src: byte, events: seq<Lines>)
    requires Moving(s, dir, dst, src) && |events| == s.C + 1
    requires AllServed(s, dir, dst, events) && Undisturbed(s, dir, events)
    ensures var t, n := Served(s, events), s.C + 1;
            && t == s.(C := 0xffff, X := Wrap(s.X + Along(dir, n)), Y := Wrap(s.Y + Along(dir, n)), DBR := dst,
                       PC := Wrap(s.PC + 3), P := s.P.(IRQ := Waiting(s, events)), m := t.m,
                       cycles := Later(s.cycles, 7 * n + ServiceCycles(Count(events, s.P.I), s.P.E)))
            && K.SameOutside(s.P.E, s.SP, Frame(s.P.E), Copy(s.m, dst, s.Y, src, s.X, dir, n), t.m)
  {
    hide Step, Steps, Copy, AtMove, Along, K.SameOutside, Served, Count, Later, FrameApart, SparesInstruction, Waiting;
    OnCourseThroughout(s, dir, dst, src, events);
    MoveCompletes(s, dir, dst, src);
    LaterTwice(s.cycles, 7 * (s.C + 1), ServiceCycles(Count(events, s.P.I), s.P.E));
  }

  /** In native mode with narrow index registers MVN at X = 0xff shows the difference: RTI masks X. */
  lemma NarrowMoveDisturbed(s: State, dst: byte, src: byte, l: Lines)
    requires Moving(s, 1, dst, src) && Serves(s, 1, dst, l) && Taken(l, s.P.I) > 0
    requires !s.P.E && s.P.XB && s.X == 0xff
    ensures Steps(s, 1).X == 0x100 && Serve(s, l).X == 0
  {
    hide Step, Steps, Serves, Serve, Copy, AtMove, FrameApart, SparesInstruction, K.SameOutside, Later, Taken;
    OnCourseAtStart(s);
    ServedByte(s, 1, dst, src, 0, s, 0, s.P.IRQ, l);
    MoveSteps(s, 1, dst, src, 1);
  }
}
