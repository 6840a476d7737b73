/**
 What the push and pull instructions put on the stack and take from it: whose value, in which bytes, and
 that a pull brings back what the push of the same letter saved.
 */
module StackEffects {
  import opened Words
  import opened Opcodes
  import opened Machine
  import opened Effects
  import opened Addresses
  import I = Instructions
  import K = Stack

  // Pushes ------------------------------------------------------------------------------------------

  /** One byte of a register that is narrow, and otherwise both, around page 1 in emulation mode. */
  function Whole(v: word, narrow: bool): K.Item { if narrow then K.Byte(v % 0x100) else K.Word(v, true) }

  /** What the name of a push says it saves. */
  function Saves(s: State, op: PushOp): K.Item {
    match op
    case PHA => Whole(s.C, s.P.E || s.P.M)
    case PHX => Whole(s.X, s.P.E || s.P.XB)
    case PHY => Whole(s.Y, s.P.E || s.P.XB)
    case PHB => K.Byte(s.DBR)
    case PHK => K.Byte(s.PBR)
    case PHP => K.Byte(s.P.Sr())
    case PHD => K.Word(s.D, false)
    case PEA => K.Word(CodeByte(s, 1) + 0x100 * CodeByte(s, 2), false)
    case PEI => K.Word(TwoBytes(s.m, 0, s.D + CodeByte(s, 1)), false)
    case PER => K.Word((s.PC + 3 + CodeByte(s, 1) + 0x100 * CodeByte(s, 2)) % 0x1_0000, false)
  }

  function PushLength(op: PushOp): nat { if op.PEA? || op.PER? then 3 else if op.PEI? then 2 else 1 }

  /** A push saves that item and goes on with the next instruction. */
  lemma Pushes(s: State, op: PushOp)
    ensures I.Push(s, op) == K.Push(s, Saves(s, op)).Advance(PushLength(op))
  {
    hide PushByte, PushWord, Wrap, At, WordInBank, TwoBytes, CodeByte, Status.Sr;
    CodeBytes(s);
    hide State.Op8, State.Op16;
    PointerBytes(s.m, 0, s.D + CodeByte(s, 1));
    AtZero(s.PC + 3 + CodeByte(s, 1) + 0x100 * CodeByte(s, 2));
  }

  /** The stack pointer moves in page 1 in emulation mode and in bank 0 otherwise. */
  function Moved(s: State, n: int): word {
    if s.P.E then 0x100 + (s.SP + n) % 0x100 else (s.SP + n) % 0x1_0000
  }

  lemma MovedPointer(s: State, n: int)
    ensures s.SetSp(s.SP + n) == s.(SP := Moved(s, n))
  {
    hide InPage1, Wrap;
    InPage1IsMod(s.SP + n);
    WrapIsMod(s.SP + n);
  }

  /** A byte goes to where the stack pointer is. */
  lemma PushedByte(s: State, b: byte)
    ensures PushByte(s, b) == s.(m := s.m[s.SP := b], SP := Moved(s, -1))
  {
    hide State.SetSp, Moved;
    MovedPointer(s.(m := s.m[s.SP := b]), -1);
    SameMove(s, s.(m := s.m[s.SP := b]), -1);
  }

  lemma SameMove(s: State, t: State, n: int)
    requires s.P.E == t.P.E && s.SP == t.SP
    ensures Moved(s, n) == Moved(t, n)
  {
  }

  /** The high byte of a word lies above the low one; the stack pointer ends below both. */
  lemma PushedWord(s: State, v: word, page1: bool)
    requires K.Placed(s.P.E, s.SP)
    ensures var below := if s.P.E && page1 then Moved(s, -1) else (s.SP - 1) % 0x1_0000;
            var above := if s.P.E && page1 then s.SP else below + 1;
            PushWord(s, v, page1) == s.(m := s.m[below := v % 0x100][above := v / 0x100], SP := Moved(s, -2))
  {
    if s.P.E && page1 {
      PushedInPage(s, v);
    } else {
      hide At, State.SetSp, Moved, Linear, StoreWord;
      var t := s.(m := StoreWord(s.m, At(0, s.SP - 1), v));
      MovedPointer(t, -2);
      SameMove(s, t, -2);
      AtZero(s.SP - 1);
      StoredUp(s.m, (s.SP - 1) % 0x1_0000, v);
    }
  }

  lemma StoredUp(m: Bytes, a: word, v: word)
    ensures StoreWord(m, a, v) == m[a := v % 0x100][a + 1 := v / 0x100]
  {
    hide Linear;
    LinearIsMod(a + 1);
  }

  lemma PushedInPage(s: State, v: word)
    requires s.P.E && 0x100 <= s.SP < 0x200
    ensures PushWord(s, v, true)
            == s.(m := s.m[Moved(s, -1) := v % 0x100][s.SP := v / 0x100], SP := Moved(s, -2))
  {
    hide PushByte;
    PushedByte(s, High(v));
    PushedByte(PushByte(s, High(v)), Low(v));
    PageTwice(s.SP);
    assert Moved(s, -1) != s.SP;
  }

  lemma PageTwice(sp: word)
    ensures (0x100 + (sp - 1) % 0x100 - 1) % 0x100 == (sp - 2) % 0x100
  {
  }

  // Pulls -------------------------------------------------------------------------------------------

  /** The push of the same letter. */
  function PushFor(op: PullOp): PushOp {
    match op
    case PLA => PHA
    case PLX => PHX
    case PLY => PHY
    case PLB => PHB
    case PLD => PHD
    case PLP => PHP
  }

  /** The register of that letter, and how many values of it are moved. */
  function Lettered(s: State, op: PullOp): word {
    match op
    case PLA => s.C
    case PLX => s.X
    case PLY => s.Y
    case PLB => s.DBR
    case PLD => s.D
    case PLP => s.P.Sr()
  }

  function MovedValues(p: Status, op: PullOp): int {
    if op.PLA? then AccValues(p) else if op.PLX? || op.PLY? then IndexValues(p)
    else if op.PLD? then 0x1_0000 else 0x100
  }

  /** A pull changes its register and the stack pointer, and shows the value in N and Z. */
  predicate OnlyPulled(s: State, t: State, op: PullOp) {
    match op
    case PLA => t == s.(C := t.C, SP := t.SP, P := t.P, PC := Wrap(s.PC + 1))
                && t.C - t.C % AccValues(s.P) == s.C - s.C % AccValues(s.P)
    case PLX => t == s.(X := t.X, SP := t.SP, P := t.P, PC := Wrap(s.PC + 1))
    case PLY => t == s.(Y := t.Y, SP := t.SP, P := t.P, PC := Wrap(s.PC + 1))
    case PLB => t == s.(DBR := t.DBR, SP := t.SP, P := t.P, PC := Wrap(s.PC + 1))
    case PLD => t == s.(D := t.D, SP := t.SP, P := t.P, PC := Wrap(s.PC + 1))
    case PLP => true
  }

  lemma PullAccumulator(s: State)
    ensures var item, t, n := Saves(s, PHA), I.Pull(s, PLA), AccValues(s.P);
            && t.C % n == K.Top(s, item) && t.SP == K.Drop(s, item).SP
            && OnlyPulled(s, t, PLA) && ShowsResult(s.P, t.P, K.Top(s, item), n)
  {
    hide TopByte, TopWord, DropByte, DropWord, Status.NZ, ShowsResult, Wrap, WithLow;
    var item := Saves(s, PHA);
    DropsOnly(s);
    ResultShown(s.P, K.Top(s, item), !s.P.Acc8());
    Replaced(s.C, TopByte(s));
  }

  lemma Replaced(c: word, b: byte)
    ensures WithLow(c, b) % 0x100 == b && WithLow(c, b) - b == c - c % 0x100
  {
  }

  lemma DropsOnly(s: State)
    ensures DropByte(s) == s.(SP := DropByte(s).SP)
    ensures DropWord(s, true) == s.(SP := DropWord(s, true).SP)
    ensures DropWord(s, false) == s.(SP := DropWord(s, false).SP)
  {
    hide Wrap, InPage1;
  }

  lemma PullIndex(s: State, op: PullOp)
    requires op.PLX? || op.PLY?
    ensures var item, t, n := Saves(s, PushFor(op)), I.Pull(s, op), IndexValues(s.P);
            && Lettered(t, op) == K.Top(s, item) && t.SP == K.Drop(s, item).SP
            && OnlyPulled(s, t, op) && ShowsResult(s.P, t.P, K.Top(s, item), n)
  {
    hide TopByte, TopWord, DropByte, DropWord, Status.NZ, ShowsResult, Wrap;
    var item := Saves(s, PushFor(op));
    DropsOnly(s);
    ResultShown(s.P, K.Top(s, item), !s.P.Idx8());
  }

  lemma PullOther(s: State, op: PullOp)
    requires op.PLB? || op.PLD?
    ensures var item, t, n := Saves(s, PushFor(op)), I.Pull(s, op), if op.PLB? then 0x100 else 0x1_0000;
            && Lettered(t, op) == K.Top(s, item) && t.SP == K.Drop(s, item).SP
            && OnlyPulled(s, t, op) && ShowsResult(s.P, t.P, K.Top(s, item), n)
  {
    hide TopByte, TopWord, DropByte, DropWord, Status.NZ, ShowsResult, Wrap;
    var item := Saves(s, PushFor(op));
    DropsOnly(s);
    ResultShown(s.P, K.Top(s, item), op.PLD?);
  }

  lemma Pulls(s: State, op: PullOp)
    requires !op.PLP?
    ensures var item, t, n := Saves(s, PushFor(op)), I.Pull(s, op), MovedValues(s.P, op);
            && Lettered(t, op) % n == K.Top(s, item) && t.SP == K.Drop(s, item).SP
            && OnlyPulled(s, t, op) && ShowsResult(s.P, t.P, K.Top(s, item), n)
  {
    hide K.Top, K.Drop, ShowsResult, OnlyPulled, I.Pull;
    if op.PLA? {
      PullAccumulator(s);
    } else if op.PLX? || op.PLY? {
      PullIndex(s, op);
      TopFits(s, Saves(s, PushFor(op)));
    } else {
      PullOther(s, op);
      TopFits(s, Saves(s, PushFor(op)));
    }
  }

  lemma TopFits(s: State, item: K.Item)
    ensures item.Byte? ==> K.Top(s, item) < 0x100
    ensures item.Word? ==> K.Top(s, item) < 0x1_0000
  {
    hide TopByte, TopWord, TopLong;
  }

  /** Items of the same kind are pulled in the same way. */
  lemma SameKind(s: State, u: State, op: PullOp)
    requires !op.PLP? && u.P.E == s.P.E && u.P.M == s.P.M && u.P.XB == s.P.XB
    ensures var i, j := Saves(s, PushFor(op)), Saves(u, PushFor(op));
            K.Top(u, i) == K.Top(u, j) && K.Drop(u, i) == K.Drop(u, j)
  {
    hide TopByte, TopWord, TopLong, DropByte, DropWord, DropLong;
  }

  /**
   * Whatever happens between, if the pushed bytes, the stack pointer and the widths are the same again, a
   * pull gives its register the value it had when the push of the same letter saved it.
   */
  lemma PullRestores(s: State, op: PullOp, u: State)
    requires !op.PLP? && u.P.E == s.P.E && u.P.M == s.P.M && u.P.XB == s.P.XB
    requires var item := Saves(s, PushFor(op));
             && K.HasRoom(s.P.E, s.SP, item) && u.SP == K.Below(s.P.E, s.SP, item.Size())
             && K.SameInside(s.P.E, s.SP, item.Size(), I.Push(s, PushFor(op)).m, u.m)
    ensures var t, n := I.Pull(u, op), MovedValues(s.P, op);
            && Lettered(t, op) % n == Lettered(s, op) % n && t.SP == s.SP
            && OnlyPulled(u, t, op) && ShowsResult(u.P, t.P, Lettered(s, op) % n, n)
  {
    var item := Saves(s, PushFor(op));
    hide K.Top, K.Drop, K.Push, K.HasRoom, K.Below, K.SameInside, ShowsResult, OnlyPulled, I.Pull, I.Push, Wrap;
    assert item.Value() == Lettered(s, op) % MovedValues(s.P, op);
    hide Saves, Lettered;
    Pushes(s, PushFor(op));
    Pulls(u, op);
    SameKind(s, u, op);
    K.PullPushed(s, item, u);
  }
}
