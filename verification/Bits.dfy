/**
 Bitwise operations on machine integers, bit by bit from the least significant one.
 */
module Bits {
  import opened Words

  datatype Logic = And | Or | Xor

  function Pow2(n: nat): (r: nat)
    ensures r >= 1
  {
    if n == 0 then 1 else 2 * Pow2(n - 1)
  }

  function Combine(op: Logic, x: bool, y: bool): bool {
    match op
    case And => x && y
    case Or => x || y
    case Xor => x != y
  }

  function Bitwise(op: Logic, n: nat, x: nat, y: nat): (r: nat)
    ensures r < Pow2(n)
  {
    if n == 0 then 0
    else Bit(Combine(op, x % 2 == 1, y % 2 == 1)) + 2 * Bitwise(op, n - 1, x / 2, y / 2)
  }

  lemma Pow2Of8And16()
    ensures Pow2(8) == 0x100 && Pow2(16) == 0x1_0000
  {
  }

  function Logic8(op: Logic, x: byte, y: byte): byte {
    Pow2Of8And16();
    Bitwise(op, 8, x, y)
  }

  function Logic16(op: Logic, x: word, y: word): word {
    Pow2Of8And16();
    Bitwise(op, 16, x, y)
  }
}
