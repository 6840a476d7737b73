/**
 MVN and MVP move one byte per step. Here a whole run of such steps is shown to be one bulk copy, what
 that copy does to overlapping areas is worked out, and it is shown that interrupts between the bytes
 make no difference.
 */
module BlockMove {
  import opened Words
  import opened Opcodes
  import opened Machine
  import opened Executor
  import I = Instructions

  /** An offset counted upwards for MVN and downwards for MVP. */
  function Along(dir: int, k: nat): int { if dir == 1 then k else 0 - k }

  /** The k-th byte of an area that starts at offset `off`. */
  function Cell(bank: byte, off: int, dir: int, k: nat): addr { At(bank, off + Along(dir, k)) }

  /** Copying `n` bytes one after the other. */
  function Copy(m: Bytes, dst: byte, y: int, src: byte, x: int, dir: int, n: nat): Bytes {
    if n == 0 then m
    else
      var p := Copy(m, dst, y, src, x, dir, n - 1);
      p[Cell(dst, y, dir, n - 1) := p[Cell(src, x, dir, n - 1)]]
  }

  predicate Direction(dir: int) { dir == 1 || dir == -1 }

  /** The processor executes, and no interrupt is pending. */
  predicate Ready(p: Status) { Active(p) && Quiet(p) }

  predicate AtMove(s: State, dir: int, dst: byte, src: byte) {
    Opcode(s) == (if dir == 1 then 0x54 else 0x44) && s.Op8() == dst && s.m[At(s.PBR, s.PC + 2)] == src
  }

  predicate InInstruction(s: State, a: addr) {
    a == At(s.PBR, s.PC) || a == At(s.PBR, s.PC + 1) || a == At(s.PBR, s.PC + 2)
  }

  /** The move does not overwrite its own instruction. */
  ghost predicate SparesInstruction(s: State, dir: int, dst: byte) {
    forall k: nat | k <= s.C :: !InInstruction(s, Cell(dst, s.Y, dir, k))
  }

  /** The state once `k` of the `C + 1` bytes have been moved. */
  function Moved(s: State, dir: int, dst: byte, src: byte, k: nat): State
    requires 0 < k <= s.C + 1
  {
    s.(C := Wrap(s.C - k), X := Wrap(s.X + Along(dir, k)), Y := Wrap(s.Y + Along(dir, k)),
       DBR := dst, PC := if k == s.C + 1 then Wrap(s.PC + 3) else s.PC,
       cycles := Later(s.cycles, 7 * k),
       m := Copy(s.m, dst, s.Y, src, s.X, dir, k))
  }

  lemma DecodeMoves()
    ensures Decode(0x54) == Move(1) && Decode(0x44) == Move(-1)
  {
  }

  lemma MoveStep(s: State, dir: int, dst: byte, src: byte)
    requires Direction(dir) && Ready(s.P) && AtMove(s, dir, dst, src)
    ensures Step(s) == (I.MoveByte(s, dir), Ok)
  {
    hide Decode, At;
    DecodeMoves();
  }

  lemma Wrap16(x: int, d: int)
    requires -0x1_0000 <= x < 0x2_0000 && -0x1_0000 <= x + d < 0x2_0000 && -1 <= d <= 1
    ensures Wrap(Wrap(x) + d) == Wrap(x + d)
  {
  }

  lemma Small16(x: int)
    requires 0 <= x < 0x1_0000
    ensures Wrap(x) == x
  {
  }

  lemma MovedMemory(s: State, dir: int, dst: byte, src: byte, k: nat)
    requires Direction(dir) && 0 < k <= s.C && AtMove(Moved(s, dir, dst, src, k), dir, dst, src)
    ensures I.MoveByte(Moved(s, dir, dst, src, k), dir).m == Moved(s, dir, dst, src, k + 1).m
  {
    CellStep(dst, s.Y, dir, k);
    CellStep(src, s.X, dir, k);
    CopyLast(s.m, dst, s.Y, src, s.X, dir, k);
    hide At, Copy, Along, Cell;
  }

  lemma MovedRegisters(s: State, dir: int, dst: byte, src: byte, k: nat)
    requires Direction(dir) && 0 < k <= s.C
    ensures var a, b := I.MoveByte(Moved(s, dir, dst, src, k), dir), Moved(s, dir, dst, src, k + 1);
            a.C == b.C && a.X == b.X && a.Y == b.Y && a.cycles == b.cycles && a.PC == b.PC
  {
    hide At, Copy, Along;
    AlongStep(dir, k);
    Small16(s.C - k);
    Wrap16(s.C - k, -1);
    Wrap16(s.X + Along(dir, k), dir);
    Wrap16(s.Y + Along(dir, k), dir);
    LaterTwice(s.cycles, 7 * k, 7);
  }

  lemma MovedByte(s: State, dir: int, dst: byte, src: byte, k: nat)
    requires Direction(dir) && 0 < k <= s.C && AtMove(Moved(s, dir, dst, src, k), dir, dst, src)
    ensures I.MoveByte(Moved(s, dir, dst, src, k), dir) == Moved(s, dir, dst, src, k + 1)
  {
    hide At, Copy, Along;
    MovedMemory(s, dir, dst, src, k);
    MovedRegisters(s, dir, dst, src, k);
    assert I.MoveByte(Moved(s, dir, dst, src, k), dir).DBR == dst;
    hide I.MoveByte;
  }

  lemma AlongStep(dir: int, k: nat)
    requires Direction(dir)
    ensures Along(dir, k + 1) == Along(dir, k) + dir && 0 - k <= Along(dir, k) <= k
  {
  }

  lemma CopyLast(m: Bytes, dst: byte, y: int, src: byte, x: int, dir: int, k: nat)
    ensures Copy(m, dst, y, src, x, dir, k + 1)
         == var p := Copy(m, dst, y, src, x, dir, k); p[Cell(dst, y, dir, k) := p[Cell(src, x, dir, k)]]
  {
  }

  lemma CellStep(bank: byte, off: int, dir: int, k: nat)
    ensures At(bank, Wrap(off + Along(dir, k))) == Cell(bank, off, dir, k)
  {
  }

  lemma {:induction false} CopyOutside(m: Bytes, dst: byte, y: int, src: byte, x: int, dir: int, n: nat, a: addr)
    requires forall k: nat | k < n :: a != Cell(dst, y, dir, k)
    ensures Copy(m, dst, y, src, x, dir, n)[a] == m[a]
  {
    if n == 0 {
    } else {
      CopyOutside(m, dst, y, src, x, dir, n - 1, a);
    }
  }

  /** Before the last byte is moved, every step finds the same instruction again. */
  lemma {:induction false} MoveSteps(s: State, dir: int, dst: byte, src: byte, k: nat)
    requires Direction(dir) && Ready(s.P) && AtMove(s, dir, dst, src) && SparesInstruction(s, dir, dst)
    requires 0 < k <= s.C + 1
    ensures Steps(s, k) == Moved(s, dir, dst, src, k)
  {
    if k == 1 {
      FirstByte(s, dir, dst, src);
      MoveStep(s, dir, dst, src);
    } else {
      hide Step, At, Copy, I.MoveByte, Moved, AtMove, Ready, Direction;
      MoveSteps(s, dir, dst, src, k - 1);
      StillAtMove(s, dir, dst, src, k - 1);
      MoveStep(Moved(s, dir, dst, src, k - 1), dir, dst, src);
      MovedByte(s, dir, dst, src, k - 1);
    }
  }

  lemma CopyFirst(m: Bytes, dst: byte, y: int, src: byte, x: int, dir: int)
    ensures Copy(m, dst, y, src, x, dir, 1) == m[At(dst, y) := m[At(src, x)]]
  {
    hide At;
    assert Copy(m, dst, y, src, x, dir, 0) == m;
  }

  lemma FirstByte(s: State, dir: int, dst: byte, src: byte)
    requires Direction(dir) && s.Op8() == dst && s.m[At(s.PBR, s.PC + 2)] == src
    ensures I.MoveByte(s, dir) == Moved(s, dir, dst, src, 1)
  {
    hide At, Copy, Wrap, Later;
    CopyFirst(s.m, dst, s.Y, src, s.X, dir);
    AfterOne(s.C);
  }

  lemma AfterOne(c: word)
    ensures Wrap(c - 1) == 0xffff <==> c == 0
  {
  }

  lemma StillAtMove(s: State, dir: int, dst: byte, src: byte, k: nat)
    requires AtMove(s, dir, dst, src) && SparesInstruction(s, dir, dst) && 0 < k <= s.C
    ensures AtMove(Moved(s, dir, dst, src, k), dir, dst, src) && Moved(s, dir, dst, src, k).P == s.P
  {
    hide At, Copy;
    CopyOutside(s.m, dst, s.Y, src, s.X, dir, k, At(s.PBR, s.PC));
    CopyOutside(s.m, dst, s.Y, src, s.X, dir, k, At(s.PBR, s.PC + 1));
    CopyOutside(s.m, dst, s.Y, src, s.X, dir, k, At(s.PBR, s.PC + 2));
  }

  /**
   * Exactly `C + 1` steps at the instruction finish the move: `C` counts down to 0xffff, the index
   * registers move past the areas, and the memory is that of the byte-by-byte copy. No earlier step
   * leaves the instruction.
   */
  lemma MoveCompletes(s: State, dir: int, dst: byte, src: byte)
    requires Direction(dir) && Ready(s.P) && AtMove(s, dir, dst, src) && SparesInstruction(s, dir, dst)
    ensures var n := s.C + 1;
            Steps(s, n) == s.(
              C := 0xffff, X := Wrap(s.X + Along(dir, n)), Y := Wrap(s.Y + Along(dir, n)),
              DBR := dst, PC := Wrap(s.PC + 3), cycles := Later(s.cycles, 7 * n),
              m := Copy(s.m, dst, s.Y, src, s.X, dir, n))
    ensures forall k: nat | k <= s.C :: Steps(s, k).PC == s.PC && Steps(s, k).C == s.C - k
  {
    hide Step, Copy, AtMove, Ready, SparesInstruction;
    MoveSteps(s, dir, dst, src, s.C + 1);
    forall k: nat | k <= s.C ensures Steps(s, k).PC == s.PC && Steps(s, k).C == s.C - k {
      if k > 0 {
        MoveSteps(s, dir, dst, src, k);
      }
    }
  }

  // What the copy does ------------------------------------------------------------------------------

  /** How far the destination is ahead of the source in the direction of the move. */
  function Lead(y: int, x: int, dir: int): nat { (if dir == 1 then y - x else x - y) % 0x1_0000 }

  /**
   * The byte of the source area that ends up in byte `k` of the destination. When the destination starts
   * inside the source area, the first `Lead` bytes are repeated.
   */
  function Origin(dst: byte, y: int, src: byte, x: int, dir: int, k: nat): nat {
    var d := Lead(y, x, dir);
    if dst == src && d > 0 then k % d else k
  }

  /** When a byte of the source is a byte of the destination. */
  lemma CellsMeet(dst: byte, y: int, src: byte, x: int, dir: int, j: nat, k: nat)
    requires Direction(dir) && j < 0x1_0000 && k < 0x1_0000
    ensures j <= k ==> (Cell(src, x, dir, k) == Cell(dst, y, dir, j) <==> dst == src && k - j == Lead(y, x, dir))
    ensures Cell(dst, y, dir, j) == Cell(dst, y, dir, k) <==> j == k
  {
    AtInjective(src, dst, x + Along(dir, k), y + Along(dir, j));
    AtInjective(dst, dst, y + Along(dir, j), y + Along(dir, k));
    Apart(if dir == 1 then y - x else x - y, k - j);
  }

  lemma Apart(d: int, i: int)
    requires -0x1_0000 < i < 0x1_0000
    ensures (d - i) % 0x1_0000 == 0 <==> (i - d) % 0x1_0000 == 0
    ensures i >= 0 ==> ((i - d) % 0x1_0000 == 0 <==> i == d % 0x1_0000)
    ensures i % 0x1_0000 == 0 <==> i == 0
  {
  }

  /**
   * The exact result of the copy, for all overlaps and wraps: each destination byte holds the original of
   * its `Origin`, and no other byte changes.
   */
  lemma {:induction false} CopyResult(m: Bytes, dst: byte, y: int, src: byte, x: int, dir: int, n: nat, k: nat)
    requires Direction(dir) && k < n <= 0x1_0000
    ensures Copy(m, dst, y, src, x, dir, n)[Cell(dst, y, dir, k)]
         == m[Cell(src, x, dir, Origin(dst, y, src, x, dir, k))]
    decreases n, k
  {
    hide Cell, Along, Lead;
    CopyLast(m, dst, y, src, x, dir, n - 1);
    var d := Lead(y, x, dir);
    if k < n - 1 {
      CellsMeet(dst, y, src, x, dir, k, n - 1);
      CopyResult(m, dst, y, src, x, dir, n - 1, k);
    } else if dst == src && 0 < d <= k {
      CellsMeet(dst, y, src, x, dir, k - d, k);
      CopyResult(m, dst, y, src, x, dir, k, k - d);
      Repeats(k, d);
    } else {
      forall j: nat | j < k ensures Cell(src, x, dir, k) != Cell(dst, y, dir, j) {
        CellsMeet(dst, y, src, x, dir, j, k);
      }
      CopyOutside(m, dst, y, src, x, dir, k, Cell(src, x, dir, k));
    }
  }

  lemma Repeats(k: nat, d: nat)
    requires 0 < d <= k
    ensures (k - d) % d == k % d
  {
    var q, q' := k / d, (k - d) / d;
    assert d * (q' + 1 - q) == k % d - (k - d) % d;
    SmallMultiple(d, q' + 1 - q);
  }

  lemma SmallMultiple(d: int, t: int)
    requires 0 < d && 0 - d < d * t < d
    ensures t == 0
  {
  }

  /** The copy leaves what the source area held before exactly when it does not run into its own output. */
  lemma CopyIsSnapshot(m: Bytes, dst: byte, y: int, src: byte, x: int, dir: int, n: nat, k: nat)
    requires Direction(dir) && k < n <= 0x1_0000
    requires dst != src || Lead(y, x, dir) == 0 || Lead(y, x, dir) >= n
    ensures Copy(m, dst, y, src, x, dir, n)[Cell(dst, y, dir, k)] == m[Cell(src, x, dir, k)]
  {
    hide Lead, Cell, Copy;
    CopyResult(m, dst, y, src, x, dir, n, k);
  }

  /** And otherwise there is a memory whose contents the copy does not move faithfully. */
  lemma OverlapRepeats(dst: byte, y: int, src: byte, x: int, dir: int, n: nat) returns (m: Bytes, k: nat)
    requires Direction(dir) && n <= 0x1_0000
    requires dst == src && 0 < Lead(y, x, dir) < n
    ensures k < n && Copy(m, dst, y, src, x, dir, n)[Cell(dst, y, dir, k)] != m[Cell(src, x, dir, k)]
  {
    k := Lead(y, x, dir);
    m := seq(0x100_0000, i => if i == Cell(src, x, dir, k) then 1 else 0);
    CopyResult(m, dst, y, src, x, dir, n, k);
    AtInjective(src, src, x + Along(dir, 0), x + Along(dir, k));
    CellsMeet(src, x, src, x, dir, 0, k);
  }
}
