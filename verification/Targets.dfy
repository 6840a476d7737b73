/**
 Where jumps, long branches and calls go, told by the bytes behind the opcode and the pointers they name.
 */
module Targets {
  import opened Words
  import opened Opcodes
  import opened Machine
  import opened Executor
  import opened BlockMove
  import opened Addresses
  import I = Instructions

  datatype Place = Place(bank: byte, offset: word)

  function Here(s: State): Place { Place(s.PBR, s.PC) }

  predicate IsCall(op: byte) { op == 0x20 || op == 0x22 || op == 0xfc }

  predicate IsJump(op: byte) { op == 0x4c || op == 0x5c || op == 0x6c || op == 0x7c || op == 0xdc || op == 0x82 }

  /**
   * Only JSL and JMP long leave the program bank, for the one in the third operand byte. JMP [abs] stays as
   * JMP (abs) does: see module Quirks.
   */
  function Destination(s: State): Place {
    var op, a := Opcode(s), CodeByte(s, 1) + 0x100 * CodeByte(s, 2);
    if op == 0x22 || op == 0x5c then Place(CodeByte(s, 3), a)
    else if op == 0x20 || op == 0x4c then Place(s.PBR, a)
    else if op == 0xfc || op == 0x7c then Place(s.PBR, TwoBytes(s.m, s.PBR, a + s.X))
    else if op == 0x6c || op == 0xdc then Place(s.PBR, TwoBytes(s.m, 0, a))
    else Place(s.PBR, (s.PC + 3 + a) % 0x1_0000)
  }

  lemma DecodeTargets()
    ensures Decode(0x20) == Call(ABS) && Decode(0xfc) == Call(ABSINDX) && Decode(0x22) == CallLong
    ensures Decode(0x4c) == Jump(ABS) && Decode(0x5c) == Jump(ABSL) && Decode(0x6c) == Jump(INDABS)
    ensures Decode(0x7c) == Jump(ABSINDX) && Decode(0xdc) == Jump(ABSINDL) && Decode(0x82) == BranchLong
  {
  }

  /** The address the operand of an opcode gives, and the bank and offset that are taken from it. */
  lemma OperandTarget(s: State)
    ensures var a := CodeByte(s, 1) + 0x100 * CodeByte(s, 2);
            && Effective(s, ABS) % 0x1_0000 == a && Effective(s, ABSL) % 0x1_0000 == a
            && Effective(s, ABSL) / 0x1_0000 == CodeByte(s, 3)
            && Effective(s, INDABS) % 0x1_0000 == TwoBytes(s.m, 0, a)
            && Effective(s, ABSINDL) % 0x1_0000 == TwoBytes(s.m, 0, a)
            && Effective(s, ABSINDX) % 0x1_0000 == TwoBytes(s.m, s.PBR, a + s.X)
            && Effective(s, PCRL) % 0x1_0000 == (s.PC + 3 + a) % 0x1_0000
  {
    hide Effective, TwoBytes, CodeByte;
    PlainAddresses(s);
    JumpPointers(s);
    RelativeAddresses(s);
  }

  /** With no interrupt pending, an instruction that leaves the flags alone is all of a step. */
  lemma StepIsExecute(s: State, t: State)
    requires Ready(s.P) && t == Execute(s, Decode(Opcode(s))) && t.P == s.P
    ensures Step(s) == (t, Ok)
  {
    hide Execute, Decode, Opcode;
  }

  /** A jump changes the program counter, and the program bank if it names one. */
  lemma JumpStep(s: State)
    requires Ready(s.P) && IsJump(Opcode(s))
    ensures Step(s).0 == s.(PBR := Destination(s).bank, PC := Destination(s).offset)
  {
    hide Decode, Effective, TwoBytes, CodeByte, Opcode, Step;
    DecodeTargets();
    OperandTarget(s);
    StepIsExecute(s, Execute(s, Decode(Opcode(s))));
  }
}
