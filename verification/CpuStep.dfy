/**
 Reset, the step function and whole runs of the processor, in place. A step and a run end in the state
 module Executor gives for the registers and memory values they start from, so neither the access flags nor
 the choice to record them can influence a run.
 */
module CpuStep {
  import opened Words
  import opened Opcodes
  import opened Machine
  import opened Cpu
  import Data = CpuData
  import Flow = CpuFlow
  import I = Instructions
  import S = Executor

  method Reset(cpu: Processor, mem: array<Cell>)
    requires mem.Length == MEM_SIZE
    modifies cpu
    ensures mem[..] == old(mem[..]) && cpu.setacc == old(cpu.setacc)
    ensures View(cpu, mem) == S.Reset(old(View(cpu, mem)))
  {
    hide Content, Low;
    cpu.D, cpu.DBR, cpu.PBR := 0, 0, 0;
    cpu.SP, cpu.X, cpu.Y := 0x100 + Low(cpu.SP), Low(cpu.X), Low(cpu.Y);
    cpu.cycles := 0;
    cpu.P := cpu.P.(M := true, XB := true, D := false, I := true, E := true,
                    CRASH := false, STP := false, IRQ := false, NMI := false, RST := true);
  }

  /** Operations with a memory operand. */
  method ExecuteData(cpu: Processor, mem: array<Cell>, ins: Ins)
    requires mem.Length == MEM_SIZE
    requires ins.Read? || ins.Write? || ins.Modify?
    requires !S.WritesOutside(View(cpu, mem), ins)
    modifies cpu, mem
    ensures View(cpu, mem) == S.Execute(old(View(cpu, mem)), ins)
    ensures cpu.setacc == old(cpu.setacc) && Recorded(old(mem[..]), mem[..], cpu.setacc)
  {
    hide Content, Effective, I.Read, I.Write, I.Modify, I.WritesOutside, Recorded;
    ghost var start := mem[..];
    var a := GetAddress(cpu, mem, if ins.Read? then ins.from else ins.mode);
    ghost var fetched := mem[..];
    if ins.Read? {
      Data.Read(cpu, mem, ins.read, ins.size, ins.mode, a);
    } else if ins.Write? {
      Data.Write(cpu, mem, ins.write, ins.size, ins.mode, a);
    } else {
      Data.Modify(cpu, mem, ins.rmw, ins.size, ins.mode, a);
    }
    RecordedTwice(start, fetched, mem[..], cpu.setacc);
  }

  /** Jumps and calls, whose target is an effective address. */
  method ExecuteJump(cpu: Processor, mem: array<Cell>, ins: Ins)
    requires mem.Length == MEM_SIZE
    requires ins.Jump? || ins.Call? || ins.CallLong? || ins.BranchLong?
    modifies cpu, mem
    ensures View(cpu, mem) == S.Execute(old(View(cpu, mem)), ins)
    ensures cpu.setacc == old(cpu.setacc) && Recorded(old(mem[..]), mem[..], cpu.setacc)
  {
    hide Content, Effective, I.Call, I.CallLong, I.Jump, Recorded;
    ghost var start := mem[..];
    var a := GetAddress(cpu, mem, if ins.Jump? || ins.Call? then ins.mode else if ins.CallLong? then ABSL else PCRL);
    ghost var fetched := mem[..];
    SelfRecorded(fetched, cpu.setacc);
    if ins.Jump? {
      Flow.Jump(cpu, mem, ins.mode, a);
    } else if ins.Call? {
      Flow.Call(cpu, mem, S.CallCycles(ins.mode), a);
    } else if ins.CallLong? {
      Flow.CallLong(cpu, mem, a);
    } else {
      cpu.PC := a % 0x1_0000;
    }
    RecordedTwice(start, fetched, mem[..], cpu.setacc);
  }

  method ExecuteFlow(cpu: Processor, mem: array<Cell>, ins: Ins)
    requires mem.Length == MEM_SIZE
    requires ins.Return? || ins.ReturnLong? || ins.ReturnFromInterrupt? || ins.Break? || ins.Coprocessor?
          || ins.ResetBits? || ins.SetBits?
    modifies cpu, mem
    ensures View(cpu, mem) == S.Execute(old(View(cpu, mem)), ins)
    ensures cpu.setacc == old(cpu.setacc) && Recorded(old(mem[..]), mem[..], cpu.setacc)
  {
    hide Content, Recorded;
    hide I.Return, I.ReturnLong, I.ReturnFromInterrupt, I.Break, I.Coprocessor, I.ResetBits, I.SetBits;
    if ins.Return? {
      Flow.Return(cpu, mem);
    } else if ins.ReturnLong? {
      Flow.ReturnLong(cpu, mem);
    } else if ins.ReturnFromInterrupt? {
      Flow.ReturnFromInterrupt(cpu, mem);
    } else if ins.Break? {
      Flow.Break(cpu, mem);
    } else if ins.Coprocessor? {
      Flow.Coprocessor(cpu, mem);
    } else if ins.ResetBits? {
      Flow.ResetBits(cpu, mem);
    } else {
      Flow.SetBits(cpu, mem);
    }
  }

  method ExecuteRegister(cpu: Processor, mem: array<Cell>, ins: Ins)
    requires mem.Length == MEM_SIZE
    requires ins.ModifyA? || ins.Register? || ins.Push? || ins.Pull? || ins.Branch? || ins.Move?
    modifies cpu, mem
    ensures View(cpu, mem) == S.Execute(old(View(cpu, mem)), ins)
    ensures cpu.setacc == old(cpu.setacc) && Recorded(old(mem[..]), mem[..], cpu.setacc)
  {
    hide Content, I.ModifyA, I.Register, I.Push, I.Pull, I.Branch, I.MoveByte, Recorded;
    SelfRecorded(mem[..], cpu.setacc);
    if ins.ModifyA? {
      Data.ModifyA(cpu, mem, ins.rmw);
    } else if ins.Register? {
      Flow.Register(cpu, mem, ins.reg);
    } else if ins.Push? {
      Flow.Push(cpu, mem, ins.push);
    } else if ins.Pull? {
      Flow.Pull(cpu, mem, ins.pull);
    } else if ins.Branch? {
      Flow.Branch(cpu, mem, ins.cond);
    } else {
      Flow.MoveByte(cpu, mem, ins.dir);
    }
  }

  method Execute(cpu: Processor, mem: array<Cell>, ins: Ins)
    requires mem.Length == MEM_SIZE
    requires !S.WritesOutside(View(cpu, mem), ins)
    modifies cpu, mem
    ensures View(cpu, mem) == S.Execute(old(View(cpu, mem)), ins)
    ensures cpu.setacc == old(cpu.setacc) && Recorded(old(mem[..]), mem[..], cpu.setacc)
  {
    hide Content, S.Execute, S.WritesOutside, Recorded;
    match ins {
      case Read(_, _, _, _) | Write(_, _, _) | Modify(_, _, _) => ExecuteData(cpu, mem, ins);
      case Jump(_) | Call(_) | CallLong | BranchLong => ExecuteJump(cpu, mem, ins);
      case ModifyA(_) | Register(_) | Push(_) | Pull(_) | Branch(_) | Move(_) => ExecuteRegister(cpu, mem, ins);
      case Return | ReturnLong | ReturnFromInterrupt | Break | Coprocessor | ResetBits | SetBits =>
        ExecuteFlow(cpu, mem, ins);
    }
  }

  method TakeInterrupt(cpu: Processor, mem: array<Cell>)
    requires mem.Length == MEM_SIZE
    modifies cpu, mem
    ensures View(cpu, mem) == S.TakeInterrupt(old(View(cpu, mem)))
    ensures cpu.setacc == old(cpu.setacc) && Recorded(old(mem[..]), mem[..], cpu.setacc)
  {
    hide Content, I.Enter, Recorded;
    SelfRecorded(mem[..], cpu.setacc);
    if cpu.P.NMI {
      cpu.P := cpu.P.(NMI := false);
      Flow.Enter(cpu, mem, cpu.P.(XB := false), if cpu.P.E then 0xfffa else 0xffea);
    } else if cpu.P.IRQ && !cpu.P.I {
      cpu.P := cpu.P.(IRQ := false);
      Flow.Enter(cpu, mem, cpu.P.(XB := false), if cpu.P.E then 0xfffe else 0xffee);
      cpu.P := cpu.P.(I := true);
    }
  }

  method FetchOpcode(cpu: Processor, mem: array<Cell>) returns (op: byte)
    requires mem.Length == MEM_SIZE
    modifies mem
    ensures View(cpu, mem) == old(View(cpu, mem)) && op == S.Opcode(View(cpu, mem))
    ensures Recorded(old(mem[..]), mem[..], cpu.setacc)
  {
    op := GetByte(mem, EffectivePc(cpu), cpu.setacc);
  }

  /** One instruction: fetch, decode, execute, and take a pending interrupt. */
  method Run1(cpu: Processor, mem: array<Cell>) returns (code: S.Code)
    requires mem.Length == MEM_SIZE && !cpu.P.CRASH && !cpu.P.RST && !cpu.P.STP
    requires !S.Undefined(View(cpu, mem))
    modifies cpu, mem
    ensures (View(cpu, mem), code) == S.Step(old(View(cpu, mem)))
    ensures cpu.setacc == old(cpu.setacc) && Recorded(old(mem[..]), mem[..], cpu.setacc)
  {
    hide Content, S.Execute, S.TakeInterrupt, S.WritesOutside, Decode, S.Opcode, Recorded;
    ghost var start := mem[..];
    var op := FetchOpcode(cpu, mem);
    ghost var fetched := mem[..];
    Execute(cpu, mem, Decode(op));
    ghost var done := mem[..];
    RecordedTwice(start, fetched, done, cpu.setacc);
    if cpu.P.CRASH {
      return S.Crashed;
    }
    TakeInterrupt(cpu, mem);
    RecordedTwice(start, done, mem[..], cpu.setacc);
    return S.Ok;
  }

  method StepCpu(cpu: Processor, mem: array<Cell>) returns (code: S.Code)
    requires mem.Length == MEM_SIZE
    requires !S.Undefined(View(cpu, mem))
    modifies cpu, mem
    ensures (View(cpu, mem), code) == S.Step(old(View(cpu, mem)))
    ensures cpu.setacc == old(cpu.setacc) && Recorded(old(mem[..]), mem[..], cpu.setacc)
  {
    hide Content, S.Execute, S.TakeInterrupt, S.WritesOutside, Decode, S.Opcode, Recorded;
    SelfRecorded(mem[..], cpu.setacc);
    if cpu.P.CRASH {
      return S.Crashed;
    } else if cpu.P.RST {
      cpu.P := cpu.P.(RST := false);
      var pc := GetWord(mem, 0xfffc, cpu.setacc);
      cpu.PC := pc;
      return S.Ok;
    } else if cpu.P.STP {
      return S.Stopped;
    }
    code := Run1(cpu, mem);
  }

  method RaiseLines(cpu: Processor, mem: array<Cell>, l: S.Lines)
    requires mem.Length == MEM_SIZE
    modifies cpu`P
    ensures mem[..] == old(mem[..])
    ensures View(cpu, mem) == S.Raise(old(View(cpu, mem)), l)
  {
    hide Content, S.WithLines;
    cpu.P := S.WithLines(cpu.P, l);
  }

  method RaiseAndStep(cpu: Processor, mem: array<Cell>, l: S.Lines)
    requires mem.Length == MEM_SIZE
    requires !S.Undefined(S.Raise(View(cpu, mem), l))
    modifies cpu, mem
    ensures View(cpu, mem) == S.Step(S.Raise(old(View(cpu, mem)), l)).0
    ensures cpu.setacc == old(cpu.setacc) && Recorded(old(mem[..]), mem[..], cpu.setacc)
  {
    hide Content, View, S.Raise, S.Step, S.Undefined, Recorded;
    RaiseLines(cpu, mem, l);
    var _ := StepCpu(cpu, mem);
  }

  /** A run: before each step the devices may raise the interrupt lines. */
  method Run(cpu: Processor, mem: array<Cell>, lines: seq<S.Lines>)
    requires mem.Length == MEM_SIZE
    requires S.Defined(View(cpu, mem), lines)
    modifies cpu, mem
    ensures View(cpu, mem) == S.Run(old(View(cpu, mem)), lines)
    ensures cpu.setacc == old(cpu.setacc) && Recorded(old(mem[..]), mem[..], cpu.setacc)
  {
    hide Content, View, S.Step, S.Raise, S.Undefined, Recorded;
    ghost var s, cells := View(cpu, mem), mem[..];
    SelfRecorded(cells, cpu.setacc);
    for i := 0 to |lines|
      invariant S.Run(View(cpu, mem), lines[i..]) == S.Run(s, lines)
      invariant S.Defined(View(cpu, mem), lines[i..])
      invariant cpu.setacc == old(cpu.setacc) && Recorded(cells, mem[..], cpu.setacc)
    {
      assert lines[i..][1..] == lines[i + 1..];
      ghost var before := mem[..];
      RaiseAndStep(cpu, mem, lines[i]);
      RecordedTwice(cells, before, mem[..], cpu.setacc);
    }
  }

  /**
   * Two computers that agree on registers and memory values, whatever their access flags and whether or
   * not they record accesses, agree after any run.
   */
  method RunTwins(cpu: Processor, mem: array<Cell>, cpu': Processor, mem': array<Cell>, lines: seq<S.Lines>)
    requires mem.Length == MEM_SIZE && mem'.Length == MEM_SIZE && cpu != cpu' && mem != mem'
    requires View(cpu, mem) == View(cpu', mem') && S.Defined(View(cpu, mem), lines)
    modifies cpu, mem, cpu', mem'
    ensures View(cpu, mem) == View(cpu', mem')
  {
    hide Content, S.Run, S.Defined, Recorded;
    Run(cpu, mem, lines);
    Run(cpu', mem', lines);
  }
}
