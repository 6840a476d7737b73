/**
 Subroutine calls nest: however deep near and far calls are nested, and whatever the routines do in
 between, every return comes back to the instruction after its own call.
 */
module Calls {
  import opened Words
  import opened Opcodes
  import opened Machine
  import opened Executor
  import opened BlockMove
  import opened Addresses
  import opened Targets
  import I = Instructions
  import K = Stack

  /** The processor is at a JSR, or at a JSL when `far`. */
  predicate Calling(s: State, far: bool) {
    Ready(s.P) && (if far then Opcode(s) == 0x22 else Opcode(s) == 0x20 || Opcode(s) == 0xfc)
  }

  /** The processor is at an RTS, or at an RTL when `far`. */
  predicate Returning(s: State, far: bool) { Ready(s.P) && Opcode(s) == if far then 0x6b else 0x60 }

  /** What a call pushes: the address of its own last byte. */
  function Saved(s: State, far: bool): K.Item {
    if far then K.Long(At(s.PBR, s.PC + 3)) else K.Word(At(0, s.PC + 2), true)
  }

  /** The instruction after a call: JSR has three bytes and JSL four. */
  function Following(s: State, far: bool): Place { Place(s.PBR, Wrap(s.PC + if far then 4 else 3)) }

  lemma DecodeReturns()
    ensures Decode(0x60) == Return && Decode(0x6b) == ReturnLong
  {
  }

  /** A call saves where it is and goes on where its operand says. */
  lemma CallStep(s: State, far: bool)
    requires Calling(s, far)
    ensures Step(s).0
            == K.Push(s, Saved(s, far)).(PBR := Destination(s).bank, PC := Destination(s).offset,
                                         cycles := Later(s.cycles, if Opcode(s) == 0x20 then 6 else 8))
  {
    hide Step, Opcode, Destination, K.Push, Saved, Later;
    if far {
      FarCallStep(s);
    } else {
      NearCallStep(s);
    }
  }

  lemma FarCallStep(s: State)
    requires Calling(s, true)
    ensures Step(s).0
            == K.Push(s, Saved(s, true)).(PBR := Destination(s).bank, PC := Destination(s).offset,
                                          cycles := Later(s.cycles, 8))
  {
    hide Decode, Effective, At, PushLong, Later, TwoBytes, CodeByte, Opcode, Step;
    DecodeTargets();
    OperandTarget(s);
    PushesFlags(s, 0, Saved(s, true).l);
    StepIsExecute(s, I.CallLong(s, Effective(s, ABSL)));
  }

  lemma NearCallStep(s: State)
    requires Calling(s, false)
    ensures Step(s).0
            == K.Push(s, Saved(s, false)).(PBR := s.PBR, PC := Destination(s).offset,
                                           cycles := Later(s.cycles, if Opcode(s) == 0x20 then 6 else 8))
    ensures Destination(s).bank == s.PBR
  {
    hide Decode, Effective, Later, TwoBytes, CodeByte, Opcode, Step, I.Call, K.Push, Saved;
    DecodeTargets();
    OperandTarget(s);
    var mode := if Opcode(s) == 0x20 then ABS else ABSINDX;
    CallExecutes(s, CallCycles(mode), Effective(s, mode));
    StepIsExecute(s, I.Call(s, CallCycles(mode), Effective(s, mode)));
  }

  lemma CallExecutes(s: State, cycles: nat, a: addr)
    ensures I.Call(s, cycles, a)
            == K.Push(s, Saved(s, false)).(PBR := s.PBR, PC := a % 0x1_0000, cycles := Later(s.cycles, cycles))
    ensures I.Call(s, cycles, a).P == s.P
  {
    hide PushWord, At, Later;
    PushesFlags(s, Saved(s, false).w, 0);
  }

  /** The state with another opcode in place of the one at the program counter. */
  function WithOpcode(s: State, op: byte): State { s.(m := s.m[At(s.PBR, s.PC) := op]) }

  lemma SameOperand(s: State, op: byte)
    ensures var t := WithOpcode(s, op);
            && Opcode(t) == op && CodeByte(t, 1) == CodeByte(s, 1) && CodeByte(t, 2) == CodeByte(s, 2)
            && CodeByte(t, 3) == CodeByte(s, 3)
  {
    hide Wrap;
    WrapIsMod(s.PC);
  }

  /** JSR goes where JMP, and JSL where JMP long, with the same operand goes. */
  lemma CallsLikeJumps(s: State, far: bool)
    requires Calling(s, far) && Opcode(s) != 0xfc
    ensures Here(Step(s).0) == Here(Step(WithOpcode(s, if far then 0x5c else 0x4c)).0)
  {
    hide Step, CodeByte, TwoBytes, Opcode, K.Push;
    var t := WithOpcode(s, if far then 0x5c else 0x4c);
    SameOperand(s, if far then 0x5c else 0x4c);
    CallStep(s, far);
    JumpStep(t);
  }

  lemma PushesFlags(s: State, w: word, l: addr)
    ensures PushWord(s, w, true).P == s.P && PushLong(s, l).P == s.P
    ensures PushWord(s, w, true).PBR == s.PBR
  {
    hide StoreWord, At, Low, High;
  }

  /** A return finds what its call pushed, if those bytes and the stack pointer are still the same. */
  lemma ReturnStep(s: State, far: bool, t: State)
    requires Returning(t, far) && K.HasRoom(s.P.E, s.SP, Saved(s, far))
    requires t.P.E == s.P.E && t.SP == K.Below(s.P.E, s.SP, Saved(s, far).Size())
    requires K.SameInside(s.P.E, s.SP, Saved(s, far).Size(), K.Push(s, Saved(s, far)).m, t.m)
    ensures Step(t).0 == t.(SP := s.SP, PC := Following(s, far).offset, PBR := if far then s.PBR else t.PBR,
                            cycles := Later(t.cycles, 6))
  {
    hide Decode, At, TopWord, TopLong, DropWord, DropLong, K.Push, K.SameInside, K.Below, K.HasRoom, Later;
    DecodeReturns();
    K.PullPushed(s, Saved(s, far), t);
    AfterSaved(s);
  }

  lemma AfterSaved(s: State)
    ensures (At(0, s.PC + 2) + 1) % 0x1_0000 == Wrap(s.PC + 3)
    ensures (At(s.PBR, s.PC + 3) + 1) % 0x1_0000 == Wrap(s.PC + 4) && At(s.PBR, s.PC + 3) / 0x1_0000 == s.PBR
  {
  }

  /**
   * What a routine does: work that ends in some other state, and calls of further routines. The work may
   * be any number of steps and may do anything the calls depend on.
   */
  datatype Routine = End | Work(to: State, rest: Routine) | Sub(far: bool, inner: Routine, rest: Routine)

  function Finish(s: State, r: Routine): State
    decreases r
  {
    match r
    case End => s
    case Work(to, rest) => Finish(to, rest)
    case Sub(_, inner, rest) => Finish(Step(Finish(Step(s).0, inner)).0, rest)
  }

  /** Where the returns land, in the order they happen. */
  function Landings(s: State, r: Routine): seq<Place>
    decreases r
  {
    match r
    case End => []
    case Work(to, rest) => Landings(to, rest)
    case Sub(_, inner, rest) =>
      var back := Step(Finish(Step(s).0, inner)).0;
      Landings(Step(s).0, inner) + [Here(back)] + Landings(back, rest)
  }

  /** Where the calls go, in the order they happen. */
  function Entries(s: State, r: Routine): seq<Place>
    decreases r
  {
    match r
    case End => []
    case Work(to, rest) => Entries(to, rest)
    case Sub(_, inner, rest) =>
      [Here(Step(s).0)] + Entries(Step(s).0, inner) + Entries(Step(Finish(Step(s).0, inner)).0, rest)
  }

  /** The places their operands name. */
  function Destinations(s: State, r: Routine): seq<Place>
    decreases r
  {
    match r
    case End => []
    case Work(to, rest) => Destinations(to, rest)
    case Sub(_, inner, rest) =>
      [Destination(s)] + Destinations(Step(s).0, inner) + Destinations(Step(Finish(Step(s).0, inner)).0, rest)
  }

  /** The instructions after the calls, innermost call first. */
  function Continuations(s: State, r: Routine): seq<Place>
    decreases r
  {
    match r
    case End => []
    case Work(to, rest) => Continuations(to, rest)
    case Sub(far, inner, rest) =>
      var back := Step(Finish(Step(s).0, inner)).0;
      Continuations(Step(s).0, inner) + [Following(s, far)] + Continuations(back, rest)
  }

  /**
   * Work keeps the stack pointer and the `used` bytes of pending return addresses, the stack below `sp`
   * does not run into itself, and each call is left by its own kind of return. As a near return does not
   * load the program bank, a near routine has to end in its caller's bank.
   */
  ghost predicate Disciplined(s: State, r: Routine, sp: word, used: nat)
    decreases r
  {
    match r
    case End => true
    case Work(to, rest) =>
      && to.P.E == s.P.E && to.SP == s.SP && K.SameInside(s.P.E, sp, used, s.m, to.m)
      && Disciplined(to, rest, sp, used)
    case Sub(far, inner, rest) =>
      var n := Saved(s, far).Size();
      var last := Finish(Step(s).0, inner);
      && Calling(s, far) && K.HasRoom(s.P.E, s.SP, Saved(s, far)) && used + n <= K.Room(s.P.E)
      && Disciplined(Step(s).0, inner, sp, used + n)
      && Returning(last, far) && (!far ==> last.PBR == s.PBR)
      && Disciplined(Step(last).0, rest, sp, used)
  }

  lemma BelowBelow(e: bool, sp: word, used: nat, n: nat)
    requires K.Placed(e, sp) && used + n <= K.Room(e)
    ensures K.Placed(e, K.Below(e, sp, used)) && K.Below(e, K.Below(e, sp, used), n) == K.Below(e, sp, used + n)
  {
  }

  /** A call leaves the return addresses already on the stack alone. */
  lemma CallSpares(s: State, far: bool, sp: word, used: nat)
    requires Calling(s, far) && K.Placed(s.P.E, sp) && K.HasRoom(s.P.E, s.SP, Saved(s, far))
    requires used + Saved(s, far).Size() <= K.Room(s.P.E) && s.SP == K.Below(s.P.E, sp, used)
    ensures var t := Step(s).0;
            && t.P.E == s.P.E && t.SP == K.Below(s.P.E, sp, used + Saved(s, far).Size())
            && K.SameInside(s.P.E, sp, used, s.m, t.m) && t.m == K.Push(s, Saved(s, far)).m
            && Here(t) == Destination(s)
  {
    hide Step, K.Push, K.Below, K.Window, K.HasRoom, Calling, Saved, Destination;
    var n := Saved(s, far).Size();
    CallStep(s, far);
    K.PushEffect(s, Saved(s, far));
    BelowBelow(s.P.E, sp, used, n);
    forall a: addr {
      K.Windows(s.P.E, sp, used, n, a);
    }
  }

  /** The routine's own return address is part of what it has to keep. */
  lemma InsideMore(e: bool, sp: word, used: nat, n: nat, m: Bytes, m': Bytes)
    requires K.Placed(e, sp) && used + n <= K.Room(e) && K.SameInside(e, sp, used + n, m, m')
    ensures K.SameInside(e, sp, used, m, m') && K.SameInside(e, K.Below(e, sp, used), n, m, m')
  {
    hide K.Window, K.Below;
    forall a: addr {
      K.Windows(e, sp, used, n, a);
    }
  }

  /**
   * In a disciplined run every call goes to the place its operand names, and every return lands on the
   * instruction after its own call, innermost first, in the bank of the call; the stack pointer ends where
   * it started, with the return addresses above it intact.
   */
  lemma {:induction false} CallsReturn(s: State, r: Routine, sp: word, used: nat)
    requires K.Placed(s.P.E, sp) && used <= K.Room(s.P.E) && s.SP == K.Below(s.P.E, sp, used)
    requires Disciplined(s, r, sp, used)
    ensures var t := Finish(s, r);
            t.P.E == s.P.E && t.SP == s.SP && K.SameInside(s.P.E, sp, used, s.m, t.m)
    ensures Entries(s, r) == Destinations(s, r) && Landings(s, r) == Continuations(s, r)
    decreases r
  {
    hide Step, K.Push, K.Below, K.Window, K.HasRoom, Calling, Returning, Saved, Destination;
    match r {
      case End =>
      case Work(to, rest) => CallsReturn(to, rest, sp, used);
      case Sub(far, inner, rest) =>
        var n := Saved(s, far).Size();
        CallSpares(s, far, sp, used);
        CallsReturn(Step(s).0, inner, sp, used + n);
        var last := Finish(Step(s).0, inner);
        InsideMore(s.P.E, sp, used, n, Step(s).0.m, last.m);
        BelowBelow(s.P.E, sp, used, n);
        ReturnStep(s, far, last);
        CallsReturn(Step(last).0, rest, sp, used);
    }
  }
}
