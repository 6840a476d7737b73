/**
 Machine integers and addresses of the emulator: 8-bit, 16-bit and 24-bit quantities, and the two
 ways the 65816 combines an address with an offset (wrapping inside a bank or a page).
 */
module Words {
  const MEM_SIZE: int := 0x100_0000

  type byte = x: int | 0 <= x < 0x100
  type word = x: int | 0 <= x < 0x1_0000
  type addr = x: int | 0 <= x < 0x100_0000
  type uint64 = x: int | 0 <= x < 0x1_0000_0000_0000_0000

  /** The values held by the 2^24 memory cells. */
  type Bytes = m: seq<byte> | |m| == 0x100_0000 ghost witness seq(0x100_0000, i => 0)

  function Low(w: int): byte { w % 0x100 }

  function High(w: int): byte { if 0 <= w < 0x1_0000 then w / 0x100 else w / 0x100 % 0x100 }

  /** `w` with its low byte replaced. */
  function WithLow(w: word, v: int): word { w / 0x100 * 0x100 + v % 0x100 }

  /** A 16-bit register given `v` as its whole or, when narrow, as its low byte. */
  function WithA(w: word, v: word, wide: bool): word { if wide then v else WithLow(w, v) }

  function Pair(lo: byte, hi: byte): word { lo + 0x100 * hi }

  function Triple(w: word, hi: byte): addr { w + hi * 0x1_0000 }

  /** `x` modulo 2^16, without division where nothing or one turn is to be taken off. */
  function Wrap(x: int): word {
    if 0 <= x < 0x1_0000 then x
    else if -0x1_0000 <= x < 0 then x + 0x1_0000
    else if 0x1_0000 <= x < 0x2_0000 then x - 0x1_0000
    else x % 0x1_0000
  }

  /** The address in page 1 with the low byte of `x`. */
  function InPage1(x: int): word {
    if 0x100 <= x < 0x200 then x
    else if 0 <= x < 0x100 then x + 0x100
    else if 0x200 <= x < 0x300 then x - 0x100
    else 0x100 + x % 0x100
  }

  /** The 64-bit cycle count `n` cycles later. */
  function Later(cycles: uint64, n: nat): uint64 {
    var t: int := cycles + n;
    if t < 0x1_0000_0000_0000_0000 then t else t % 0x1_0000_0000_0000_0000
  }

  lemma LaterTwice(cycles: uint64, m: nat, n: nat)
    ensures Later(Later(cycles, m), n) == Later(cycles, m + n)
  {
  }

  lemma LaterIsMod(cycles: uint64, n: nat)
    ensures Later(cycles, n) == (cycles + n) % 0x1_0000_0000_0000_0000
  {
  }

  /** Byte `off` of bank `bank`, the offset wrapping inside the bank. */
  function At(bank: byte, off: int): addr { bank * 0x1_0000 + Wrap(off) }

  /** A 24-bit address that wraps only at the end of memory. */
  function Linear(a: int): addr {
    if 0 <= a < 0x100_0000 then a else if 0x100_0000 <= a < 0x200_0000 then a - 0x100_0000 else a % 0x100_0000
  }

  function BankWrap(a: addr, off: int): addr { a / 0x1_0000 * 0x1_0000 + (a + off) % 0x1_0000 }

  function PageWrap(a: addr, off: int): addr { a / 0x100 * 0x100 + (a + off) % 0x100 }

  function Bit(b: bool): (r: int)
    ensures 0 <= r <= 1
  {
    if b then 1 else 0
  }

  lemma WrapIsMod(x: int)
    ensures Wrap(x) == x % 0x1_0000
  {
  }

  lemma InPage1IsMod(x: int)
    ensures InPage1(x) == 0x100 + Low(x)
  {
  }

  lemma LinearIsMod(a: int)
    ensures Linear(a) == a % 0x100_0000
  {
  }

  lemma PairSplit(w: word)
    ensures Pair(Low(w), High(w)) == w
  {
  }

  /** Stepping through a bank one offset at a time is the same as one larger step. */
  lemma BankWrapAt(bank: byte, off: int, k: int)
    ensures BankWrap(At(bank, off), k) == At(bank, off + k)
  {
    hide Wrap;
    var w := Wrap(off);
    WrapTwice(off, k);
    assert (bank * 0x1_0000 + w) / 0x1_0000 == bank;
    SameOffset(bank, w, k);
  }

  /** Wrapping before adding makes no difference. */
  lemma WrapTwice(x: int, k: int)
    ensures Wrap(x + k) == (Wrap(x) + k) % 0x1_0000
  {
    WrapIsMod(x);
    WrapIsMod(x + k);
  }

  lemma SameOffset(bank: byte, w: word, k: int)
    ensures (bank * 0x1_0000 + w + k) % 0x1_0000 == (w + k) % 0x1_0000
  {
  }

  /** An address of bank 0. */
  lemma BankWrapZero(w: word, k: int)
    ensures BankWrap(w, k) == At(0, w + k)
  {
  }

  lemma AtZero(x: int)
    ensures At(0, x) == x % 0x1_0000
  {
  }

  lemma AtNearZero(x: int)
    requires -0x1_0000 <= x < 0x2_0000
    ensures At(0, x) == if x < 0 then x + 0x1_0000 else if x < 0x1_0000 then x else x - 0x1_0000
  {
  }

  lemma PageWrapAligned(w: word, k: int)
    requires w % 0x100 == 0
    ensures PageWrap(w, k) == w + k % 0x100
  {
    assert (w + k) % 0x100 == k % 0x100;
  }

  /** Two offsets less than a bank apart name the same byte only when they are equal. */
  lemma AtInjective(bank: byte, bank': byte, x: int, y: int)
    ensures At(bank, x) == At(bank', y) <==> bank == bank' && (x - y) % 0x1_0000 == 0
  {
    assert At(bank, x) / 0x1_0000 == bank && At(bank', y) / 0x1_0000 == bank';
  }
}
