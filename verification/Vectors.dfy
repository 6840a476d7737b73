/**
 Where resets, interrupts, BRK and COP go and what they leave for their handlers, and how WAI and STP end.
 */
module Vectors {
  import opened Words
  import opened Bits
  import opened Opcodes
  import opened Machine
  import opened Executor
  import opened BlockMove
  import opened Addresses
  import opened Inverses
  import opened Effects
  import I = Instructions
  import K = Stack
  import N = Interrupts

  /** The word at an address of bank 0. */
  function VectorAt(m: Bytes, a: word): word
    requires a < 0xffff
  {
    var high: int := m[a + 1];
    m[a] + 0x100 * high
  }

  /** In emulation mode bit 4 of a saved SR tells whether BRK has saved it. */
  function SavedSr(p: Status, b: bool): byte { p.(XB := if p.E then b else p.XB).Sr() }

  /** The byte pushed last is an SR with the given bit 4, and before it the address `back` was pushed. */
  ghost predicate Framed(s: State, u: State, back: word, b: bool) {
    && TopByte(u) == SavedSr(s.P, b)
    && (if s.P.E then TopWord(DropByte(u), true) == back && DropWord(DropByte(u), true).SP == s.SP
        else TopLong(DropByte(u)) == s.PBR * 0x1_0000 + back && DropLong(DropByte(u)).SP == s.SP)
    && K.SameOutside(s.P.E, s.SP, if s.P.E then 3 else 4, s.m, u.m)
  }

  /** The handler runs in bank 0 with D clear; entering it takes 7 or 8 cycles. */
  predicate Entered(s: State, u: State, p: Status) {
    u == s.(SP := u.SP, PC := u.PC, PBR := 0, P := p.(D := false),
            cycles := Later(s.cycles, if s.P.E then 7 else 8), m := u.m)
  }

  lemma EntersThrough(s: State, sr: Status, vector: word)
    requires vector < 0xffff && K.Placed(s.P.E, s.SP)
    ensures var u := I.Enter(s, sr, vector);
            && Entered(s, u, s.P) && u.PC == VectorAt(u.m, vector)
            && (sr == s.P.(XB := sr.XB) ==> Framed(s, u, s.PC, sr.XB))
  {
    var u := I.Enter(s, sr, vector);
    assert Entered(s, u, s.P) by {
      hide I.Enter, Later;
    }
    assert u.PC == VectorAt(u.m, vector) by {
      hide PushByte, PushWord, PushLong, Status.Sr, At, Later, Entered;
      LinearIsMod(vector + 1);
      hide Linear;
    }
    if sr == s.P.(XB := sr.XB) {
      FrameLeft(s, sr, vector);
    }
  }

  lemma FrameLeft(s: State, sr: Status, vector: word)
    requires K.Placed(s.P.E, s.SP) && sr == s.P.(XB := sr.XB)
    ensures Framed(s, I.Enter(s, sr, vector), s.PC, sr.XB)
  {
    hide I.Enter, TopByte, TopWord, TopLong, DropByte, DropWord, DropLong, K.SameOutside, Wrap;
    N.FrameOnStack(s, sr, vector);
    WrapIsMod(s.PC);
  }

  lemma MaskedAfter(s: State, u: State, back: word, b: bool, i: bool)
    requires Framed(s, u, back, b) && Entered(s, u, s.P)
    ensures var v := u.(P := u.P.(I := i));
            Framed(s, v, back, b) && Entered(s, v, s.P.(I := i))
  {
    hide TopByte, TopWord, TopLong, DropByte, DropWord, DropLong, K.SameOutside, Later, Status.Sr;
    N.FlagsOnly(u, i);
  }

  /** BRK returns to the second byte after it; in emulation mode the saved SR shows that it was no IRQ. */
  lemma BreakStep(s: State)
    requires Ready(s.P) && Opcode(s) == 0x00 && K.Placed(s.P.E, s.SP)
    ensures var u := Step(s).0;
            && Entered(s, u, s.P.(I := true)) && Framed(s, u, (s.PC + 2) % 0x1_0000, true)
            && u.PC == VectorAt(u.m, if s.P.E then 0xfffe else 0xffe6)
  {
    hide Decode, Opcode, I.Enter, Framed, Entered, VectorAt, Wrap, TakeInterrupt;
    assert Decode(0) == Break by { DecodeEntries(); }
    var t := s.Advance(2);
    WrapIsMod(s.PC + 2);
    var vector := if s.P.E then 0xfffe else 0xffe6;
    var u := I.Enter(t, t.P.(XB := true), vector);
    EntersThrough(t, t.P.(XB := true), vector);
    MaskedAfter(t, u, t.PC, true, true);
    SameBut(s, t, I.Break(s), t.PC, true);
    NothingPending(I.Break(s));
  }

  /** Where COP goes: to its vector, or to the entry its operand selects of the table the vector points to. */
  function CopTarget(s: State, m: Bytes): word {
    var v := VectorAt(m, if s.P.E then 0xfff4 else 0xffe4);
    if s.copVect then WordAt(m, v + CodeByte(s, 1) * 2 % 0x100) else v
  }

  lemma CoprocessorStep(s: State)
    requires Ready(s.P) && Opcode(s) == 0x02 && K.Placed(s.P.E, s.SP)
    ensures var u := Step(s).0;
            && Entered(s, u, s.P.(I := true)) && Framed(s, u, (s.PC + 2) % 0x1_0000, false)
            && u.PC == CopTarget(s, u.m)
  {
    hide Decode, Opcode, I.Coprocessor, Framed, Entered, TakeInterrupt, CopTarget;
    DecodeEntries();
    CoprocessorEntry(s);
    NothingPending(I.Coprocessor(s));
  }

  lemma CoprocessorEntry(s: State)
    requires K.Placed(s.P.E, s.SP)
    ensures var u := I.Coprocessor(s);
            && Entered(s, u, s.P.(I := true)) && Framed(s, u, (s.PC + 2) % 0x1_0000, false)
            && u.PC == CopTarget(s, u.m) && u.P == s.P.(I := true, D := false)
  {
    hide I.Enter, Framed, Entered, VectorAt, Wrap, WordAt, CodeByte, State.Op8, I.Coprocessor;
    var t := s.Advance(2);
    WrapIsMod(s.PC + 2);
    var vector := if s.P.E then 0xfff4 else 0xffe4;
    var u := I.Enter(t, t.P.(XB := false), vector);
    EntersThrough(t, t.P.(XB := false), vector);
    MaskedAfter(t, u, t.PC, false, true);
    var v := u.(P := u.P.(I := true));
    CoprocessorIs(s, v);
    SameOffset(t, v, I.Coprocessor(s).PC, t.PC, false);
    SameBut(s, t, I.Coprocessor(s), t.PC, false);
    CodeBytes(s);
  }

  lemma CoprocessorIs(s: State, v: State)
    requires var t := s.Advance(2);
             var u := I.Enter(t, t.P.(XB := false), if t.P.E then 0xfff4 else 0xffe4);
             v == u.(P := u.P.(I := true))
    ensures I.Coprocessor(s) == if s.copVect then v.(PC := WordAt(v.m, v.PC + s.Op8() * 2 % 0x100)) else v
    ensures v.P == s.P.(I := true, D := false)
  {
    hide I.Enter, WordAt, State.Op8, Wrap;
  }

  /** The frame does not depend on where the handler is. */
  lemma SameOffset(s: State, u: State, pc: word, back: word, b: bool)
    requires Framed(s, u, back, b) && Entered(s, u, s.P.(I := true))
    ensures Framed(s, u.(PC := pc), back, b) && Entered(s, u.(PC := pc), s.P.(I := true))
  {
    hide WordAt, At, K.SameOutside, Later, Status.Sr, Low;
  }

  lemma DecodeEntries()
    ensures Decode(0) == Break && Decode(2) == Coprocessor && Decode(0xcb) == Register(WAI)
    ensures Decode(0xdb) == Register(STP)
  {
  }

  /** Only the program counter is different. */
  lemma SameBut(s: State, t: State, u: State, back: word, b: bool)
    requires t == s.(PC := t.PC) && Framed(t, u, back, b) && Entered(t, u, t.P.(I := true))
    ensures Framed(s, u, back, b) && Entered(s, u, s.P.(I := true))
  {
    hide TopByte, TopWord, TopLong, DropByte, DropWord, DropLong, K.SameOutside, Later, Status.Sr;
  }

  lemma NothingPending(s: State)
    requires Quiet(s.P)
    ensures TakeInterrupt(s) == s
  {
  }

  /** NMI goes before IRQ and leaves I alone; IRQ waits until I is clear and sets it. Both save I as it was. */
  lemma InterruptEntry(s: State)
    requires K.Placed(s.P.E, s.SP)
    ensures var u := TakeInterrupt(s);
            if s.P.NMI then
              && Entered(s, u, s.P.(NMI := false)) && Framed(s, u, s.PC, false)
              && u.PC == VectorAt(u.m, if s.P.E then 0xfffa else 0xffea)
            else if s.P.IRQ && !s.P.I then
              && Entered(s, u, s.P.(IRQ := false, I := true)) && Framed(s, u, s.PC, false)
              && u.PC == VectorAt(u.m, if s.P.E then 0xfffe else 0xffee)
            else u == s
  {
    hide I.Enter, Framed, Entered, VectorAt;
    if s.P.NMI {
      var t := s.(P := s.P.(NMI := false));
      EntersThrough(t, t.P.(XB := false), if t.P.E then 0xfffa else 0xffea);
      LineLetGo(s, t, TakeInterrupt(s), t.P);
    } else if s.P.IRQ && !s.P.I {
      var t := s.(P := s.P.(IRQ := false));
      var vector := if t.P.E then 0xfffe else 0xffee;
      EntersThrough(t, t.P.(XB := false), vector);
      MaskedAfter(t, I.Enter(t, t.P.(XB := false), vector), t.PC, false, true);
      LineLetGo(s, t, TakeInterrupt(s), t.P.(I := true));
    }
  }

  /** The lines are not part of SR. */
  lemma LineLetGo(s: State, t: State, u: State, p: Status)
    requires t == s.(P := s.P.(IRQ := t.P.IRQ, NMI := t.P.NMI)) && Framed(t, u, s.PC, false) && Entered(t, u, p)
    ensures Framed(s, u, s.PC, false) && Entered(s, u, p)
  {
    hide TopByte, TopWord, TopLong, DropByte, DropWord, DropLong, K.SameOutside, Later, SavedSr;
    SameSr(s.P, t.P, false);
  }

  lemma SameSr(p: Status, q: Status, b: bool)
    requires q == p.(IRQ := q.IRQ, NMI := q.NMI)
    ensures SavedSr(p, b) == SavedSr(q, b)
  {
    hide BitAt, SavedSr;
    forall k | 0 <= k < 8 ensures BitAt(SavedSr(p, b), k) == BitAt(SavedSr(q, b), k) {
      SavedBit(p, b, k);
      SavedBit(q, b, k);
    }
    Pow2Of8And16();
    SameBits(8, SavedSr(p, b), SavedSr(q, b));
  }

  lemma SavedBit(p: Status, b: bool, k: nat)
    requires k < 8
    ensures BitAt(SavedSr(p, b), k) == if k == 4 && p.E then b else Flag(p, k)
  {
    hide BitAt, Status.Sr;
    SrBits(p.(XB := if p.E then b else p.XB), k);
  }

  // Reset, WAI and STP --------------------------------------------------------------------------------

  /**
   * The first step after a reset takes the program counter from the two bytes at 0xfffc. The processor is
   * then in emulation mode and bank 0, with narrow registers and the stack in page 1; memory, C and the
   * arithmetic flags are as they were.
   */
  lemma ResetStep(s: State)
    ensures var t := Step(Reset(s)).0;
            && Step(Reset(s)).1 == Ok && Ready(t.P)
            && t == s.(PBR := 0, DBR := 0, D := 0, X := s.X % 0x100, Y := s.Y % 0x100,
                       SP := 0x100 + s.SP % 0x100, PC := VectorAt(s.m, 0xfffc), cycles := 0, P := t.P)
            && t.P == s.P.(E := true, M := true, XB := true, I := true, D := false, RST := t.P.RST, IRQ := t.P.IRQ,
                           NMI := t.P.NMI, STP := t.P.STP, CRASH := t.P.CRASH)
  {
    hide Decode, Execute, TakeInterrupt, Opcode;
    ResetParts(s);
    hide Reset;
  }

  lemma ResetParts(s: State)
    ensures var t := Reset(s);
            t == s.(PBR := 0, DBR := 0, D := 0, X := s.X % 0x100, Y := s.Y % 0x100, SP := 0x100 + s.SP % 0x100,
                    cycles := 0, P := t.P)
    ensures Reset(s).P == s.P.(E := true, M := true, XB := true, I := true, D := false, RST := true, IRQ := false,
                               NMI := false, STP := false, CRASH := false)
  {
  }

  /** A stopped processor stays where it is whatever lines are raised. */
  lemma {:induction false} StaysStopped(s: State, ls: seq<Lines>)
    requires s.P.STP && !s.P.RST && !s.P.CRASH
    ensures var t := Run(s, ls);
            && t == s.(P := s.P.(IRQ := t.P.IRQ, NMI := t.P.NMI)) && Step(t) == (t, Stopped)
    decreases ls
  {
    hide Decode, Execute, TakeInterrupt;
    if ls == [] {
    } else {
      StaysStopped(Raise(s, ls[0]), ls[1..]);
    }
  }

  /** STP stops it: the next step reports so and changes nothing. */
  lemma StopStep(s: State)
    requires Ready(s.P) && Opcode(s) == 0xdb
    ensures var t := s.(P := s.P.(STP := true));
            Step(s) == (t, Ok) && Step(t) == (t, Stopped)
  {
    hide Decode, Opcode;
    DecodeEntries();
  }

  /** WAI is not left while no line is raised. */
  lemma {:induction false} WaitStep(s: State, n: nat)
    requires Ready(s.P) && Opcode(s) == 0xcb && !s.P.IRQ
    ensures Steps(s, n) == s
  {
    hide Step, Ready, Opcode;
    if n == 0 {
    } else {
      WaitStep(s, n - 1);
      WaitsOnce(s);
    }
  }

  lemma WaitsOnce(s: State)
    requires Ready(s.P) && Opcode(s) == 0xcb && !s.P.IRQ
    ensures Step(s).0 == s
  {
    hide Decode, Opcode, State.Advance;
    DecodeEntries();
  }

  /** A line ends it: the handler returns behind the WAI, and with IRQ masked it goes on there. */
  lemma WaitEnds(s: State, nmi: bool)
    requires Active(s.P) && Opcode(s) == 0xcb && (if nmi then s.P.NMI else s.P.IRQ && !s.P.NMI)
    ensures Step(s) == (TakeInterrupt(s.(PC := (s.PC + 1) % 0x1_0000)), Ok)
    ensures !nmi && s.P.I ==> Step(s).0 == s.(PC := (s.PC + 1) % 0x1_0000)
  {
    hide Decode, Opcode, TakeInterrupt, Wrap;
    DecodeEntries();
    WrapIsMod(s.PC + 1);
    if !nmi && s.P.I {
      NothingPending(s.(PC := (s.PC + 1) % 0x1_0000));
    }
  }
}
