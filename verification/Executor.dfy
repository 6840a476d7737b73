/**
 One step of the processor, and runs of many steps with the interrupt lines raised in between.
 */
module Executor {
  import opened Words
  import opened Opcodes
  import opened Machine
  import I = Instructions

  /** The codes of the original; it has a case for each of the 256 opcodes, so none is ever unknown. */
  datatype Code = Ok | UnknownOpcode | Stopped | Crashed

  function Execute(s: State, ins: Ins): State {
    match ins
    case Read(op, mode, from, size) => I.Read(s, op, mode, Effective(s, from), size)
    case Write(op, mode, size) => I.Write(s, op, mode, Effective(s, mode), size)
    case Modify(op, mode, size) => I.Modify(s, op, mode, Effective(s, mode), size)
    case ModifyA(op) => I.ModifyA(s, op)
    case Register(op) => I.Register(s, op)
    case Push(op) => I.Push(s, op)
    case Pull(op) => I.Pull(s, op)
    case Branch(c) => I.Branch(s, c)
    case Jump(mode) => I.Jump(s, mode, Effective(s, mode))
    case Call(mode) => I.Call(s, CallCycles(mode), Effective(s, mode))
    case BranchLong => I.Goto(s, Effective(s, PCRL))
    case CallLong => I.CallLong(s, Effective(s, ABSL))
    case Return => I.Return(s)
    case ReturnLong => I.ReturnLong(s)
    case ReturnFromInterrupt => I.ReturnFromInterrupt(s)
    case Break => I.Break(s)
    case Coprocessor => I.Coprocessor(s)
    case ResetBits => I.ResetBits(s)
    case SetBits => I.SetBits(s)
    case Move(dir) => I.MoveByte(s, dir)
  }

  /** What the opcode table gives for JSR. */
  function CallCycles(mode: Mode): nat { if mode.ABS? then 6 else 8 }

  /** The one operand the original has no meaning for: a second byte stored past the end of memory. */
  predicate WritesOutside(s: State, ins: Ins) {
    ins.Write? && I.WritesOutside(s, ins.write, ins.mode, Effective(s, ins.mode))
  }

  /** The next step executes an instruction. */
  predicate Active(p: Status) { !p.CRASH && !p.RST && !p.STP }

  predicate Undefined(s: State) { Active(s.P) && WritesOutside(s, Decode(Opcode(s))) }

  /** No interrupt is about to be taken. */
  predicate Quiet(p: Status) { !p.NMI && !(p.IRQ && !p.I) }

  /** NMI is taken whatever I says and leaves I alone; IRQ needs I clear and sets it. */
  function TakeInterrupt(s: State): State {
    if s.P.NMI then
      var t := s.(P := s.P.(NMI := false));
      I.Enter(t, t.P.(XB := false), if t.P.E then 0xfffa else 0xffea)
    else if s.P.IRQ && !s.P.I then
      var t := s.(P := s.P.(IRQ := false));
      var u := I.Enter(t, t.P.(XB := false), if t.P.E then 0xfffe else 0xffee);
      u.(P := u.P.(I := true))
    else s
  }

  function Opcode(s: State): byte { s.m[At(s.PBR, s.PC)] }

  function Step(s: State): (State, Code) {
    if s.P.CRASH then (s, Crashed)
    else if s.P.RST then (s.(P := s.P.(RST := false), PC := WordAt(s.m, 0xfffc)), Ok)
    else if s.P.STP then (s, Stopped)
    else
      var t := Execute(s, Decode(Opcode(s)));
      if t.P.CRASH then (t, Crashed) else (TakeInterrupt(t), Ok)
  }

  /** The state after `n` steps in which no device raises a line. */
  function Steps(s: State, n: nat): State {
    if n == 0 then s else Step(Steps(s, n - 1)).0
  }

  /** The interrupt lines a device may raise before a step. */
  datatype Lines = Lines(irq: bool, nmi: bool)

  function WithLines(p: Status, l: Lines): Status { p.(IRQ := p.IRQ || l.irq, NMI := p.NMI || l.nmi) }

  function Raise(s: State, l: Lines): State { s.(P := WithLines(s.P, l)) }

  function Run(s: State, ls: seq<Lines>): State
    decreases ls
  {
    if ls == [] then s else Run(Step(Raise(s, ls[0])).0, ls[1..])
  }

  /** No step of the run stores past the end of memory. */
  predicate Defined(s: State, ls: seq<Lines>)
    decreases ls
  {
    ls != [] ==> !Undefined(Raise(s, ls[0])) && Defined(Step(Raise(s, ls[0])).0, ls[1..])
  }

  function Reset(s: State): State {
    s.(D := 0, DBR := 0, PBR := 0, SP := 0x100 + Low(s.SP), X := Low(s.X), Y := Low(s.Y), cycles := 0,
       P := s.P.(M := true, XB := true, D := false, I := true, E := true,
                 CRASH := false, STP := false, IRQ := false, NMI := false, RST := true))
  }
}
