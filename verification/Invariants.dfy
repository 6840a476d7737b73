/**
 What every step of every run keeps, and when the index registers stay inside their width.
 */
module Invariants {
  import opened Words
  import opened Opcodes
  import opened Machine
  import opened Executor
  import I = Instructions

  /** An entry of the opcode table that its operation can execute. */
  predicate WellFormed(ins: Ins) {
    match ins
    case Read(op, mode, _, _) => I.Knows(op, mode)
    case Write(op, mode, _) => I.KnowsStore(op, mode)
    case Modify(op, mode, _) => I.KnowsModify(op, mode)
    case Move(dir) => dir == 1 || dir == -1
    case _ => true
  }

  /** No opcode is given a mode its operation would crash on. */
  lemma DecodeWellFormed(op: byte)
    ensures WellFormed(Decode(op))
  {
  }

  /**
   * The processor has not crashed, and emulation mode means an 8-bit accumulator and a stack in page 1.
   */
  predicate Sound(s: State) { !s.P.CRASH && (s.P.E ==> s.P.M && 0x100 <= s.SP < 0x200) }

  /** The index registers hold no more than their width allows. */
  predicate Fits(s: State) { s.P.Idx8() ==> s.X < 0x100 && s.Y < 0x100 }

  predicate Keeps(s: State, t: State) { (Sound(s) ==> Sound(t)) && (Fits(s) ==> Fits(t)) }

  /** Loads put into an index register what its width allows. */
  lemma LoadKeeps(s: State, op: ReadOp, v: word, mode: Mode)
    requires (op.LDA? || op.LDX? || op.LDY?) && (I.Wide(s.P, op) || v < 0x100)
    ensures Keeps(s, I.Reading(s, op, v, mode))
  {
    hide I.AddTo, I.SubtractFrom, I.Combine, State.SetA, Status.NZ;
  }

  lemma FlagsKeepControl(s: State, q: Status)
    requires q == s.P.(C := q.C, Z := q.Z, V := q.V, N := q.N)
    ensures SameControl(s, s.(P := q))
  {
  }

  /** Comparisons and bit tests change nothing but flags outside the invariants. */
  lemma CompareKeeps(s: State, op: ReadOp, v: word, mode: Mode)
    requires (op.BIT? || op.CMP? || op.CPX? || op.CPY?) && (I.Wide(s.P, op) || v < 0x100)
    ensures SameControl(s, I.Reading(s, op, v, mode))
  {
    hide I.AddTo, I.SubtractFrom, I.Combine, I.Compared, I.TestBits, I.Narrowed, SameControl;
    var wide := I.Wide(s.P, op);
    hide I.Wide;
    var q := match op
      case BIT => if I.TestMode(mode) then I.TestBits(s, v, mode, wide) else s.P
      case CMP => I.Compared(s.P, I.Narrowed(s.C, wide), v, wide)
      case CPX => I.Compared(s.P, I.Narrowed(s.X, wide), v, wide)
      case _ => I.Compared(s.P, I.Narrowed(s.Y, wide), v, wide);
    assert I.Reading(s, op, v, mode) == s.(P := q);
    hide I.Reading;
    FlagsKeepControl(s, q);
  }

  lemma ReadingKeeps(s: State, op: ReadOp, v: word, mode: Mode)
    requires I.Wide(s.P, op) || v < 0x100
    ensures Keeps(s, I.Reading(s, op, v, mode))
  {
    hide I.Wide, Keeps, SameControl;
    if op.LDA? || op.LDX? || op.LDY? {
      hide I.Reading;
      LoadKeeps(s, op, v, mode);
    } else if op.BIT? || op.CMP? || op.CPX? || op.CPY? {
      hide I.Reading;
      CompareKeeps(s, op, v, mode);
      SameControlKeeps(s, I.Reading(s, op, v, mode));
    } else {
      hide I.AddTo, I.SubtractFrom, I.Combine;
      SameControlKeeps(s, I.Reading(s, op, v, mode));
    }
  }

  lemma SameControlKeeps(s: State, t: State)
    requires SameControl(s, t)
    ensures Keeps(s, t)
  {
  }

  lemma ReadKeeps(s: State, op: ReadOp, mode: Mode, a: addr, size: nat)
    requires I.Knows(op, mode)
    ensures Keeps(s, I.Read(s, op, mode, a, size))
  {
    hide I.Reading, I.Fetch, I.StaysInBank, I.Knows, I.Wide;
    ReadingKeeps(s, op, I.Fetch(s.m, a, I.Wide(s.P, op), I.StaysInBank(mode) && (op.LDX? || !mode.DPY?)), mode);
  }

  lemma StoreKeeps(s: State, w: WriteOp, op: ModifyOp, mode: Mode, a: addr, size: nat)
    ensures I.KnowsStore(w, mode) ==> Keeps(s, I.Write(s, w, mode, a, size))
    ensures I.KnowsModify(op, mode) ==> Keeps(s, I.Modify(s, op, mode, a, size))
    ensures Keeps(s, I.ModifyA(s, op))
  {
    hide I.Write, I.Modify, I.ModifyA;
  }

  /** XCE makes the index registers narrow without masking them when it leaves native mode as it was. */
  predicate Widens(s: State, ins: Ins) {
    match ins
    case Register(XCE) => !s.P.E && !s.P.C && (s.X >= 0x100 || s.Y >= 0x100)
    case Move(dir) =>
      s.P.Idx8() && (if dir == 1 then s.X == 0xff || s.Y == 0xff else s.X == 0 || s.Y == 0)
    case _ => false
  }

  lemma RegisterKeeps(s: State, op: RegOp)
    requires !op.DEA? && !op.INA?
    ensures Sound(s) ==> Sound(I.Register(s, op))
    ensures Fits(s) ==> (Fits(I.Register(s, op)) <==> !Widens(s, Register(op)))
  {
    hide Status.NZ, I.ModifyA, I.IndexToA;
  }

  lemma MoveKeeps(s: State, dir: int)
    requires dir == 1 || dir == -1
    ensures Sound(s) ==> Sound(I.MoveByte(s, dir))
    ensures Fits(s) ==> (Fits(I.MoveByte(s, dir)) <==> !Widens(s, Move(dir)))
  {
  }

  lemma FlagsKeep(s: State)
    ensures Keeps(s, I.ResetBits(s)) && Keeps(s, I.SetBits(s))
  {
    hide Status.WithSr;
  }

  lemma PushKeeps(s: State, op: PushOp)
    ensures Keeps(s, I.Push(s, op))
  {
    hide Status.Sr, StoreWord, WordInBank, At, Low, High, State.Op8, State.Op16;
    LowRange(s);
  }

  lemma PullKeeps(s: State, op: PullOp)
    ensures Keeps(s, I.Pull(s, op))
  {
    hide Status.WithSr, Status.NZ, State.SetA, TopWord;
  }

  lemma CallsKeep(s: State, a: addr, mode: Mode, cycles: nat)
    ensures Keeps(s, I.Call(s, cycles, a)) && Keeps(s, I.CallLong(s, a)) && Keeps(s, I.Jump(s, mode, a))
    ensures Keeps(s, I.Return(s)) && Keeps(s, I.ReturnLong(s))
  {
    hide StoreWord, WordAt, Low, At;
    LowRange(s);
  }

  lemma LowRange(s: State)
    ensures forall v: int {:trigger s.SetSp(v)} :: s.P.E ==> 0x100 <= s.SetSp(v).SP < 0x200
  {
  }

  lemma InterruptsKeep(s: State)
    ensures Keeps(s, I.Break(s)) && Keeps(s, I.Coprocessor(s)) && Keeps(s, TakeInterrupt(s))
  {
    hide I.Enter, WordAt;
  }

  lemma ReturnKeeps(s: State)
    ensures Keeps(s, I.ReturnFromInterrupt(s))
  {
    hide Status.WithSr, TopWord, TopLong, TopByte;
  }

  /** One instruction keeps the first invariant, and the second exactly when it is not one of the exceptions. */
  lemma ExecuteKeeps(s: State, ins: Ins)
    requires WellFormed(ins)
    ensures Sound(s) ==> Sound(Execute(s, ins))
    ensures Fits(s) ==> (Fits(Execute(s, ins)) <==> !Widens(s, ins))
  {
    hide Effective, Sound, Fits;
    hide I.Read, I.Write, I.Modify, I.ModifyA, I.Push, I.Pull, I.Branch, I.Jump, I.Call, I.CallLong;
    hide I.Return, I.ReturnLong, I.ReturnFromInterrupt, I.Break, I.Coprocessor, I.ResetBits, I.SetBits, I.MoveByte;
    hide I.Knows, I.KnowsStore, I.KnowsModify;
    match ins {
      case Read(op, mode, from, size) => ReadKeeps(s, op, mode, Effective(s, from), size);
      case Write(op, mode, size) => StoreKeeps(s, op, ASL, mode, Effective(s, mode), size);
      case Modify(op, mode, size) => StoreKeeps(s, STA, op, mode, Effective(s, mode), size);
      case ModifyA(op) => StoreKeeps(s, STA, op, ABS, 0, 0);
      case Register(op) => RegisterAllKeep(s, op);
      case Push(op) => PushKeeps(s, op);
      case Pull(op) => PullKeeps(s, op);
      case Branch(c) => JumpsKeep(s, c, 0);
      case Jump(mode) => CallsKeep(s, Effective(s, mode), mode, 0);
      case Call(mode) => CallsKeep(s, Effective(s, mode), mode, CallCycles(mode));
      case CallLong => CallsKeep(s, Effective(s, ABSL), ABS, 0);
      case BranchLong => JumpsKeep(s, BRA, Effective(s, PCRL));
      case Return | ReturnLong => CallsKeep(s, 0, ABS, 0);
      case ReturnFromInterrupt => ReturnKeeps(s);
      case Break | Coprocessor => InterruptsKeep(s);
      case ResetBits | SetBits => FlagsKeep(s);
      case Move(dir) => MoveKeeps(s, dir);
    }
  }

  lemma RegisterAllKeep(s: State, op: RegOp)
    ensures Sound(s) ==> Sound(I.Register(s, op))
    ensures Fits(s) ==> (Fits(I.Register(s, op)) <==> !Widens(s, Register(op)))
  {
    if op.DEA? || op.INA? {
      hide I.ModifyA;
      StoreKeeps(s, STA, DEC, ABS, 0, 0);
      StoreKeeps(s, STA, INC, ABS, 0, 0);
    } else {
      RegisterKeeps(s, op);
    }
  }

  lemma JumpsKeep(s: State, c: Cond, target: int)
    ensures Keeps(s, I.Branch(s, c)) && Keeps(s, I.Goto(s, target))
  {
    hide Effective, I.Taken;
  }

  // Runs ------------------------------------------------------------------------------------------

  lemma StepKeeps(s: State)
    ensures Sound(s) ==> Sound(Step(s).0) && Step(s).1 in {Ok, Stopped}
    ensures Fits(s) && !(Active(s.P) && Widens(s, Decode(Opcode(s)))) ==> Fits(Step(s).0)
  {
    hide Execute, TakeInterrupt, Decode, Widens, Opcode, WellFormed, WordAt;
    var ins := Decode(Opcode(s));
    DecodeWellFormed(Opcode(s));
    ExecuteKeeps(s, ins);
    InterruptsKeep(Execute(s, ins));
  }

  lemma RaiseKeeps(s: State, l: Lines)
    ensures Keeps(s, Raise(s, l)) && (Fits(Raise(s, l)) ==> Fits(s))
  {
  }

  lemma {:induction false} RunKeeps(s: State, ls: seq<Lines>)
    requires Sound(s)
    ensures Sound(Run(s, ls))
    decreases ls
  {
    hide Step, Raise, Sound;
    if ls == [] {
    } else {
      RaiseKeeps(s, ls[0]);
      StepKeeps(Raise(s, ls[0]));
      RunKeeps(Step(Raise(s, ls[0])).0, ls[1..]);
    }
  }

  /**
   * However a program runs after a reset, and whenever devices interrupt it, the processor never crashes,
   * every step succeeds or finds the processor stopped, and emulation mode keeps its stack in page 1 and
   * its accumulator narrow.
   */
  lemma SoundAfterReset(s: State, ls: seq<Lines>, l: Lines)
    ensures var t := Raise(Run(Reset(s), ls), l); Sound(t) && Step(t).1 in {Ok, Stopped}
  {
    hide Step, Run, Raise;
    assert Sound(Reset(s));
    RunKeeps(Reset(s), ls);
    RaiseKeeps(Run(Reset(s), ls), l);
    StepKeeps(Raise(Run(Reset(s), ls), l));
  }

  /** No step of the run is one of the two exceptions. */
  predicate NeverWidens(s: State, ls: seq<Lines>)
    decreases ls
  {
    ls != [] ==>
      var t := Raise(s, ls[0]);
      !(Active(t.P) && Widens(t, Decode(Opcode(t)))) && NeverWidens(Step(t).0, ls[1..])
  }

  lemma {:induction false} FitsThroughout(s: State, ls: seq<Lines>)
    requires Fits(s) && NeverWidens(s, ls)
    ensures Fits(Run(s, ls))
    decreases ls
  {
    hide Step, Raise, Fits, Active, Widens, Decode, Opcode;
    if ls == [] {
    } else {
      RaiseKeeps(s, ls[0]);
      StepKeeps(Raise(s, ls[0]));
      FitsThroughout(Step(Raise(s, ls[0])).0, ls[1..]);
    }
  }

  /** Though STZ looks only at M, in emulation mode it writes exactly one byte. */
  lemma StoreZeroInEmulation(s: State, mode: Mode, a: addr, size: nat)
    requires Sound(s) && s.P.E && I.KnowsStore(STZ, mode)
    ensures I.Write(s, STZ, mode, a, size).m == s.m[a := 0]
  {
  }
}
