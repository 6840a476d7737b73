/**
 Taking an interrupt and returning from it puts the processor back where it was. A block move that is
 interrupted between its bytes therefore ends like one that is not.
 */
module Interrupts {
  import opened Words
  import opened Opcodes
  import opened Machine
  import opened Executor
  import opened BlockMove
  import I = Instructions
  import K = Stack
  import V = Invariants

  /** The stack bytes an interrupt uses. */
  function Frame(e: bool): nat { if e then 3 else 4 }

  /** What entering an interrupt and returning from it cost together. */
  function RoundTrip(e: bool): nat { if e then 13 else 15 }

  /**
   * What RTI cannot bring back: the program bank in emulation mode, where it is not saved, and the high
   * bytes of narrow index registers in native mode, which it masks.
   */
  function Restored(s: State): State {
    if s.P.E then s.(PBR := 0) else I.MaskIndex(s)
  }

  /** Where returning from an interrupt restores the processor. */
  predicate Interruptible(s: State) { if s.P.E then s.PBR == 0 else V.Fits(s) }

  lemma RestoredWhenInterruptible(s: State)
    ensures Interruptible(s) <==> Restored(s) == s
  {
    LowNarrow(s.X);
    LowNarrow(s.Y);
    hide Low;
  }

  /** What an interrupt pushes first. */
  function ReturnAddress(s: State): K.Item { if s.P.E then K.Word(s.PC, true) else K.Long(At(s.PBR, s.PC)) }

  function SavedSr(s: State, sr: Status): byte { if s.P.E then sr.Sr() else s.P.Sr() }

  lemma EnterPushes(s: State, sr: Status, vector: word)
    ensures var u := I.Enter(s, sr, vector);
            var v := PushByte(K.Push(s, ReturnAddress(s)), SavedSr(s, sr));
            u.m == v.m && u.SP == v.SP
  {
    hide PushByte, PushWord, PushLong, At, WordAt, Status.Sr;
  }

  lemma TwoPushes(s: State, item: K.Item, b: byte)
    requires K.HasRoom(s.P.E, s.SP, item)
    ensures var t := K.Push(s, item);
            var u := PushByte(t, b);
            && t == s.(SP := K.Below(s.P.E, s.SP, item.Size()), m := t.m) && K.Placed(s.P.E, t.SP)
            && u == t.(SP := K.Below(s.P.E, t.SP, 1), m := u.m)
            && K.SameOutside(s.P.E, s.SP, item.Size() + 1, s.m, u.m)
            && K.SameInside(s.P.E, s.SP, item.Size(), t.m, u.m)
  {
    hide K.Push, PushByte, K.Window, K.Below;
    K.PushEffect(s, item);
    K.Windows(s.P.E, s.SP, item.Size(), 1, 0);
    K.ByteEffect(K.Push(s, item), b);
    forall a: addr {
      K.Windows(s.P.E, s.SP, item.Size(), 1, a);
    }
  }

  /** What the handler finds on the stack. */
  lemma FrameOnStack(s: State, sr: Status, vector: word)
    requires K.Placed(s.P.E, s.SP)
    ensures var u := I.Enter(s, sr, vector);
            var item := ReturnAddress(s);
            && K.SameOutside(s.P.E, s.SP, Frame(s.P.E), s.m, u.m)
            && TopByte(u) == SavedSr(s, sr)
            && K.Top(DropByte(u), item) == item.Value() && K.Drop(DropByte(u), item) == u.(SP := s.SP)
  {
    var u, item := I.Enter(s, sr, vector), ReturnAddress(s);
    assert item.Size() + 1 == Frame(s.P.E) && K.HasRoom(s.P.E, s.SP, item);
    hide K.Push, PushByte, I.Enter, K.Window, K.Below, K.Top, K.Drop, TopByte, DropByte, ReturnAddress, SavedSr;
    hide K.SameInside, K.SameOutside, K.HasRoom;
    EnterPushes(s, sr, vector);
    TwoPushes(s, item, SavedSr(s, sr));
    var t := K.Push(s, item);
    K.SameAsPushed(t.P.E, t.SP, u.m);
    K.PullByte(t, SavedSr(s, sr), u);
    K.PullPushed(s, item, DropByte(u));
  }

  /**
   * Exactly what an interrupt whose handler only returns leaves behind, wherever the stack pointer is: the
   * three or four stack bytes, 13 or 15 cycles, and what RTI cannot bring back. `i` is what the entry
   * makes of the I flag.
   */
  lemma ReturnAfterEnter(s: State, vector: word, i: bool)
    requires K.Placed(s.P.E, s.SP)
    ensures var u := I.Enter(s, s.P.(XB := false), vector);
            && I.ReturnFromInterrupt(u.(P := u.P.(I := i)))
               == Restored(s).(m := u.m, cycles := Later(s.cycles, RoundTrip(s.P.E)))
            && K.SameOutside(s.P.E, s.SP, Frame(s.P.E), s.m, u.m)
  {
    hide Status.Sr, Status.WithSr, I.Enter, K.SameOutside, I.ReturnFromInterrupt, Restored, Later;
    hide TopByte, TopWord, TopLong, DropByte, DropWord, DropLong;
    var sr := s.P.(XB := false);
    var u := I.Enter(s, sr, vector);
    FrameOnStack(s, sr, vector);
    FlagsOnly(u, i);
    RestoredEmulated(s.P, u.P.(I := i));
    RestoredNative(s.P, u.P.(I := i));
    AtParts(s.PBR, s.PC);
    LaterTwice(s.cycles, if s.P.E then 7 else 8, if s.P.E then 6 else 7);
    if s.P.E {
      ReturnEmulated(u.(P := u.P.(I := i)), s);
    } else {
      ReturnNative(u.(P := u.P.(I := i)), s);
    }
  }

  /** RTI undoes the entry to an interrupt handler exactly where the processor is interruptible. */
  lemma ReturnUndoesEnter(s: State, vector: word, i: bool)
    requires K.Placed(s.P.E, s.SP)
    ensures var u := I.Enter(s, s.P.(XB := false), vector);
            I.ReturnFromInterrupt(u.(P := u.P.(I := i))) == s.(m := u.m, cycles := Later(s.cycles, RoundTrip(s.P.E)))
            <==> Interruptible(s)
  {
    hide I.Enter, I.ReturnFromInterrupt, K.SameOutside, Interruptible, Later, Restored;
    ReturnAfterEnter(s, vector, i);
    RestoredParts(s);
    RestoredWhenInterruptible(s);
  }

  lemma RestoredParts(s: State)
    ensures Restored(s) == s.(PBR := Restored(s).PBR, X := Restored(s).X, Y := Restored(s).Y)
  {
  }

  /** The status RTI makes of the SR saved from `p` when D and I have changed since. */
  lemma RestoredEmulated(p: Status, q: Status)
    requires q == p.(D := q.D, I := q.I)
    ensures q.WithSr(p.(XB := false).Sr()).(XB := q.XB, M := q.M) == p
  {
    hide Status.Sr, Status.WithSr;
    SrRoundTrip(q, p.(XB := false));
  }

  lemma RestoredNative(p: Status, q: Status)
    requires q == p.(D := q.D, I := q.I)
    ensures q.WithSr(p.Sr()) == p
  {
    hide Status.Sr, Status.WithSr;
    SrRoundTrip(q, p);
  }

  /** RTI that finds the saved program counter, and a status that gives back the flags of `s`. */
  lemma ReturnEmulated(t: State, s: State)
    requires s.P.E
    requires t == s.(SP := t.SP, PC := t.PC, PBR := 0, cycles := t.cycles, m := t.m, P := s.P.(D := t.P.D, I := t.P.I))
    requires t.P.WithSr(TopByte(t)).(XB := s.P.XB, M := s.P.M) == s.P
    requires TopWord(DropByte(t), true) == s.PC && DropWord(DropByte(t), true) == t.(SP := s.SP)
    ensures I.ReturnFromInterrupt(t) == Restored(s).(m := t.m, cycles := Later(t.cycles, 6))
  {
    hide Status.Sr, Status.WithSr, TopByte, TopWord, TopLong, DropByte, DropWord, DropLong, Later;
    assert I.ReturnFromInterrupt(t) == I.Goto(t.(SP := s.SP), s.PC).(P := s.P, cycles := Later(t.cycles, 6));
  }

  lemma ReturnNative(t: State, s: State)
    requires !s.P.E
    requires t == s.(SP := t.SP, PC := t.PC, PBR := 0, cycles := t.cycles, m := t.m, P := s.P.(D := t.P.D, I := t.P.I))
    requires t.P.WithSr(TopByte(t)) == s.P
    requires TopLong(DropByte(t)) / 0x1_0000 == s.PBR && TopLong(DropByte(t)) % 0x1_0000 == s.PC
    requires DropLong(DropByte(t)) == t.(SP := s.SP)
    ensures I.ReturnFromInterrupt(t) == Restored(s).(m := t.m, cycles := Later(t.cycles, 7))
  {
    hide Status.Sr, Status.WithSr, TopByte, TopWord, TopLong, DropByte, DropWord, DropLong, Low, Later;
  }

  /** The stack operations look at no flag but E. */
  lemma FlagsOnly(u: State, i: bool)
    ensures var t := u.(P := u.P.(I := i));
            && TopByte(t) == TopByte(u) && DropByte(t) == DropByte(u).(P := t.P)
            && TopWord(DropByte(t), true) == TopWord(DropByte(u), true)
            && DropWord(DropByte(t), true) == DropWord(DropByte(u), true).(P := t.P)
            && TopLong(DropByte(t)) == TopLong(DropByte(u))
            && DropLong(DropByte(t)) == DropLong(DropByte(u)).(P := t.P)
  {
    hide WordAt, At, Low;
  }

  lemma AtParts(bank: byte, off: word)
    ensures At(bank, off) / 0x1_0000 == bank && At(bank, off) % 0x1_0000 == off
  {
  }

  lemma LowNarrow(x: word)
    ensures x < 0x100 ==> Low(x) == x
  {
  }

  /** The state with the interrupt line that is served next let go. */
  function Acknowledged(s: State): State {
    if s.P.NMI then s.(P := s.P.(NMI := false)) else s.(P := s.P.(IRQ := false))
  }

  lemma DecodeReturn()
    ensures Decode(0x40) == ReturnFromInterrupt
  {
  }

  function Vector(p: Status): word {
    if p.NMI then if p.E then 0xfffa else 0xffea else if p.E then 0xfffe else 0xffee
  }

  lemma TakenInterrupt(s: State)
    requires !Quiet(s.P)
    ensures var t := Acknowledged(s);
            var u := I.Enter(t, t.P.(XB := false), Vector(s.P));
            TakeInterrupt(s) == u.(P := u.P.(I := s.P.I || !s.P.NMI))
  {
    hide I.Enter;
  }

  /** The state after the handler has returned: the line is let go and the memory is `m`. */
  function AfterHandler(s: State, m: Bytes): State {
    Restored(Acknowledged(s)).(m := m, cycles := Later(s.cycles, RoundTrip(s.P.E)))
  }

  /** The RTI of a handler that does nothing else. If another line is waiting, its interrupt is taken next. */
  lemma InterruptServed(s: State)
    requires Active(s.P) && !Quiet(s.P) && K.Placed(s.P.E, s.SP) && Opcode(TakeInterrupt(s)) == 0x40
    ensures var u := TakeInterrupt(s);
            && Step(u).0 == TakeInterrupt(AfterHandler(s, u.m))
            && K.SameOutside(s.P.E, s.SP, Frame(s.P.E), s.m, u.m)
  {
    hide Step, TakeInterrupt, Opcode, K.SameOutside, I.ReturnFromInterrupt, Quiet, Later;
    HandlerUndone(s);
    StaysActive(s);
    StepOfReturn(TakeInterrupt(s));
  }

  /**
   * Where the processor is interruptible, an interrupt whose handler only returns leaves no trace but its
   * stack bytes and its cycles.
   */
  lemma InterruptTransparent(s: State)
    requires Active(s.P) && !Quiet(s.P) && K.Placed(s.P.E, s.SP) && Interruptible(s)
    requires Opcode(TakeInterrupt(s)) == 0x40
    ensures var u := TakeInterrupt(s);
            && Step(u).0 == TakeInterrupt(Acknowledged(s).(m := u.m, cycles := Later(s.cycles, RoundTrip(s.P.E))))
            && K.SameOutside(s.P.E, s.SP, Frame(s.P.E), s.m, u.m)
  {
    hide Step, TakeInterrupt, Opcode, K.SameOutside, Quiet, Later, Restored;
    InterruptServed(s);
    RestoredWhenInterruptible(Acknowledged(s));
  }

  /** With both lines waiting NMI is served first and then IRQ, and together they leave no trace either. */
  lemma BothServed(s: State)
    requires Active(s.P) && s.P.NMI && s.P.IRQ && !s.P.I && K.Placed(s.P.E, s.SP) && Interruptible(s)
    requires Opcode(TakeInterrupt(s)) == 0x40 && Opcode(Step(TakeInterrupt(s)).0) == 0x40
    ensures var v := Step(TakeInterrupt(s)).0;
            && Step(v).0 == s.(P := s.P.(NMI := false, IRQ := false), m := v.m,
                               cycles := Later(s.cycles, 2 * RoundTrip(s.P.E)))
            && K.SameOutside(s.P.E, s.SP, Frame(s.P.E), s.m, v.m)
  {
    hide Step, TakeInterrupt, Opcode, K.SameOutside, Later;
    InterruptTransparent(s);
    var u := TakeInterrupt(s);
    var s1 := s.(P := s.P.(NMI := false), m := u.m, cycles := Later(s.cycles, RoundTrip(s.P.E)));
    InterruptTransparent(s1);
    var v := TakeInterrupt(s1);
    LaterTwice(s.cycles, RoundTrip(s.P.E), RoundTrip(s.P.E));
    QuietStays(Acknowledged(s1).(m := v.m, cycles := Later(s1.cycles, RoundTrip(s.P.E))));
    SameTwice(s.P.E, s.SP, Frame(s.P.E), s.m, u.m, v.m);
  }

  lemma QuietStays(s: State)
    requires Quiet(s.P)
    ensures TakeInterrupt(s) == s
  {
  }

  lemma SameTwice(e: bool, sp: word, depth: int, m: Bytes, m': Bytes, m'': Bytes)
    requires K.SameOutside(e, sp, depth, m, m') && K.SameOutside(e, sp, depth, m', m'')
    ensures K.SameOutside(e, sp, depth, m, m'')
  {
    hide K.Window;
  }

  lemma HandlerUndone(s: State)
    requires !Quiet(s.P) && K.Placed(s.P.E, s.SP)
    ensures var u := TakeInterrupt(s);
            && I.ReturnFromInterrupt(u)
               == Restored(Acknowledged(s)).(m := u.m, cycles := Later(s.cycles, RoundTrip(s.P.E)))
            && K.SameOutside(s.P.E, s.SP, Frame(s.P.E), s.m, u.m)
  {
    hide I.Enter, I.ReturnFromInterrupt, TakeInterrupt, K.SameOutside;
    hide Quiet, Acknowledged, Vector, Frame, Restored, Later;
    TakenInterrupt(s);
    AcknowledgedFirst(s);
    ReturnAfterEnter(Acknowledged(s), Vector(s.P), s.P.I || !s.P.NMI);
  }

  lemma AcknowledgedFirst(s: State)
    ensures var t := Acknowledged(s);
            && t.P.E == s.P.E && t.P.I == s.P.I && t.SP == s.SP && t.m == s.m && t.cycles == s.cycles
            && Interruptible(t) == Interruptible(s)
  {
  }

  lemma StaysActive(s: State)
    requires !Quiet(s.P)
    ensures Active(TakeInterrupt(s).P) == Active(s.P)
  {
    hide I.Enter;
  }

  lemma StepOfReturn(u: State)
    requires Active(u.P) && Opcode(u) == 0x40 && Active(I.ReturnFromInterrupt(u).P)
    ensures Step(u).0 == TakeInterrupt(I.ReturnFromInterrupt(u))
  {
    hide Decode, Opcode, I.ReturnFromInterrupt, TakeInterrupt;
    DecodeReturn();
  }
}
