/**
 The adder and subtractor behind ADC and SBC, with the nibble-by-nibble decimal correction and the
 unsigned wrap-around of the C types that hold the intermediate values.
 */
module Arith {
  import opened Words

  /** `al` is the raw value the result and the carry are taken from, `v` the overflow flag. */
  datatype Sum = Sum(al: int, v: bool)

  /** The four nibbles of a word; a mask such as `x & 0x0f00` is `n2 * 0x100`. */
  datatype Nibbles = Nibbles(n0: int, n1: int, n2: int, n3: int)
  {
    predicate Valid() { 0 <= n0 < 16 && 0 <= n1 < 16 && 0 <= n2 < 16 && 0 <= n3 < 16 }

    predicate Decimal() { n0 <= 9 && n1 <= 9 && n2 <= 9 && n3 <= 9 }

    function Number(): int { n0 + 10 * n1 + 100 * n2 + 1000 * n3 }

    function Joined(): word
      requires Valid()
    {
      n0 + 0x10 * n1 + 0x100 * n2 + 0x1000 * n3
    }
  }

  function Split(x: word): (s: Nibbles)
    ensures s.Valid() && s.Joined() == x
  {
    var x1 := x / 0x10;
    var x2 := x1 / 0x10;
    Nibbles(x % 0x10, x1 % 0x10, x2 % 0x10, x2 / 0x10)
  }

  lemma SplitJoined(s: Nibbles)
    requires s.Valid()
    ensures Split(s.Joined()) == s
  {
    assert s.Joined() / 0x10 == s.n1 + 0x10 * s.n2 + 0x100 * s.n3;
    assert s.Joined() / 0x10 / 0x10 == s.n2 + 0x10 * s.n3;
  }

  function Signed16(x: word): int { if x >= 0x8000 then x - 0x1_0000 else x }

  function Signed32(x: int): int
    requires 0 <= x < 0x1_0000_0000
  {
    if x >= 0x8000_0000 then x - 0x1_0000_0000 else x
  }

  function Mod16(x: int): word { Wrap(x) }

  function Mod32(x: int): (r: int)
    ensures 0 <= r < 0x1_0000_0000
  {
    if 0 <= x < 0x1_0000_0000 then x
    else if -0x1_0000_0000 <= x < 0 then x + 0x1_0000_0000
    else x % 0x1_0000_0000
  }

  predicate OutOf8(al: word) { Signed16(al) < -128 || Signed16(al) > 127 }

  predicate OutOf16(al: int)
    requires 0 <= al < 0x1_0000_0000
  {
    Signed32(al) < -32768 || Signed32(al) > 32767
  }

  // Addition ----------------------------------------------------------------------------------

  function Fix0(al: int): int { if al >= 0xa then (al + 0x6) % 0x10 + 0x10 else al }

  function Fix1(al: int): int { if al >= 0xa0 then (al + 0x60) % 0x100 + 0x100 else al }

  function Fix2(al: int): int { if al >= 0xa00 then (al + 0x600) % 0x1000 + 0x1000 else al }

  function DecimalSum8(a: Nibbles, b: Nibbles, cin: bool): int {
    0x10 * a.n1 + 0x10 * b.n1 + Fix0(a.n0 + b.n0 + Bit(cin))
  }

  function DecimalSum16(a: Nibbles, b: Nibbles, cin: bool): int {
    var s1 := 0x10 * a.n1 + 0x10 * b.n1 + Fix0(a.n0 + b.n0 + Bit(cin));
    var s2 := 0x100 * a.n2 + 0x100 * b.n2 + Fix1(s1);
    0x1000 * a.n3 + 0x1000 * b.n3 + Fix2(s2)
  }

  function Add8(dec: bool, a: byte, b: byte, cin: bool): Sum {
    if dec then
      var al := DecimalSum8(Split(a), Split(b), cin);
      Sum(if al >= 0xa0 then al + 0x60 else al, OutOf8(Mod16(al)))
    else
      var al := a + b + Bit(cin);
      Sum(al, OutOf8(Mod16(al)))
  }

  function Add16(dec: bool, a: word, b: word, cin: bool): Sum {
    if dec then
      var al := DecimalSum16(Split(a), Split(b), cin);
      Sum(if al >= 0xa000 then al + 0x6000 else al, OutOf16(Mod32(al)))
    else
      var al := a + b + Bit(cin);
      Sum(al, OutOf16(Mod32(al)))
  }

  /** The part of a raw value that goes into the accumulator, and the part that goes into the carry. */
  function Kept(wide: bool, al: int): word { if wide then al % 0x1_0000 else al % 0x100 }

  predicate Carried(wide: bool, al: int) { if wide then al >= 0x1_0000 else al >= 0x100 }

  function RawSum(dec: bool, wide: bool, a: word, b: word, cin: bool): Sum
    requires wide || (a < 0x100 && b < 0x100)
  {
    if wide then Add16(dec, a, b, cin) else Add8(dec, a, b, cin)
  }

  // Subtraction -------------------------------------------------------------------------------

  /** The binary difference, which V and the carry-out are taken from even in decimal mode. */
  function Borrow8(a: byte, b: byte, cin: bool): word { Mod16(a - b + Bit(cin) - 1) }

  function Borrow16(a: word, b: word, cin: bool): (r: int)
    ensures 0 <= r < 0x1_0000_0000
  {
    Mod32(a - b + Bit(cin) - 1)
  }

  function FixNibble(d: word): word { if Signed16(d) < 0 then Mod16((d as int - 0x6) % 0x10 - 0x10) else d }

  function DecimalDifference8(a: Nibbles, b: Nibbles, cin: bool): word {
    var d := Mod16(a.n0 - b.n0 + Bit(cin) - 1);
    var lo := FixNibble(d);
    var al := Mod16(0x10 * a.n1 - 0x10 * b.n1 + lo);
    if Signed16(al) < 0 then Mod16(al - 0x60) else al
  }

  function Unfix0(al: int): int { if al >= 0xa then Mod32((al - 0x6) % 0x10 - 0x10) else al }

  function Unfix1(al: int): int { if al >= 0xa0 then Mod32((al - 0x60) % 0x100 - 0x100) else al }

  function Unfix2(al: int): int { if al >= 0xa00 then Mod32((al - 0x600) % 0x1000 - 0x1000) else al }

  function DecimalDifference16(a: Nibbles, b: Nibbles, cin: bool): (r: int)
    ensures 0 <= r < 0x1_0000_0000
  {
    var s0 := Mod32(a.n0 - b.n0 + Bit(cin) - 1);
    var s1 := Mod32(0x10 * a.n1 - 0x10 * b.n1 + Unfix0(s0));
    var s2 := Mod32(0x100 * a.n2 - 0x100 * b.n2 + Unfix1(s1));
    var s3 := Mod32(0x1000 * a.n3 - 0x1000 * b.n3 + Unfix2(s2));
    if s3 >= 0xa000 then Mod32(s3 - 0x6000) else s3
  }

  function RawDifference(dec: bool, wide: bool, a: word, b: word, cin: bool): (r: int)
    requires wide || (a < 0x100 && b < 0x100)
    ensures 0 <= r < 0x1_0000_0000
  {
    if wide then Sub16(dec, a, b, cin) else Sub8(dec, a, b, cin)
  }

  function Sub8(dec: bool, a: byte, b: byte, cin: bool): word {
    if dec then DecimalDifference8(Split(a), Split(b), cin) else Borrow8(a, b, cin)
  }

  function Sub16(dec: bool, a: word, b: word, cin: bool): (r: int)
    ensures 0 <= r < 0x1_0000_0000
  {
    if dec then DecimalDifference16(Split(a), Split(b), cin) else Borrow16(a, b, cin)
  }

  // What the operations mean ------------------------------------------------------------------

  predicate Bcd(x: word) { Split(x).Decimal() }

  /** The number a register of the given mode stands for. */
  function Value(dec: bool, x: word): int { if dec then Split(x).Number() else x }

  /** How many numbers a register of the given mode and width can stand for. */
  function Base(dec: bool, wide: bool): int {
    if dec then if wide then 10000 else 100 else if wide then 0x1_0000 else 0x100
  }

  /** A register the mode gives a number to: any in binary mode, decimal nibbles in decimal mode. */
  predicate Operand(dec: bool, wide: bool, x: word) { (wide || x < 0x100) && (dec ==> Bcd(x)) }

  /**
   * One decimal stage of an addition: a digit sum `t` above the `low` digits already corrected becomes
   * a digit and a carry.
   */
  lemma AddStage(t: int, low: int) returns (r: int, c: int)
    requires 0 <= t <= 19 && 0 <= low
    ensures 0 <= r <= 9 && 0 <= c <= 1 && t == r + 10 * c
    ensures low == 0 ==> Fix0(t) == r + 0x10 * c
    ensures low < 0x10 ==> Fix1(0x10 * t + low) == 0x10 * r + low + 0x100 * c
    ensures low < 0x100 ==> Fix2(0x100 * t + low) == 0x100 * r + low + 0x1000 * c
  {
    c := if t >= 10 then 1 else 0;
    r := t - 10 * c;
  }

  lemma SumDigits8(a: Nibbles, b: Nibbles, cin: bool) returns (r: Nibbles, c: int)
    requires a.Valid() && b.Valid() && a.Decimal() && b.Decimal() && a.n2 == a.n3 == b.n2 == b.n3 == 0
    ensures r.Valid() && r.Decimal() && r.n2 == r.n3 == 0 && 0 <= c <= 1
    ensures var al := DecimalSum8(a, b, cin);
            (if al >= 0xa0 then al + 0x60 else al) == r.Joined() + 0x100 * c
    ensures r.Number() + 100 * c == a.Number() + b.Number() + Bit(cin)
  {
    hide Fix0;
    var r0, c0 := AddStage(a.n0 + b.n0 + Bit(cin), 0);
    var t1 := a.n1 + b.n1 + c0;
    c := if t1 >= 10 then 1 else 0;
    r := Nibbles(r0, t1 - 10 * c, 0, 0);
  }

  lemma SumDigits16(a: Nibbles, b: Nibbles, cin: bool) returns (r: Nibbles, c: int)
    requires a.Valid() && b.Valid() && a.Decimal() && b.Decimal()
    ensures r.Valid() && r.Decimal() && 0 <= c <= 1
    ensures var al := DecimalSum16(a, b, cin);
            (if al >= 0xa000 then al + 0x6000 else al) == r.Joined() + 0x1_0000 * c
    ensures r.Number() + 10000 * c == a.Number() + b.Number() + Bit(cin)
  {
    hide Fix0, Fix1, Fix2;
    var r0, c0 := AddStage(a.n0 + b.n0 + Bit(cin), 0);
    var r1, c1 := AddStage(a.n1 + b.n1 + c0, r0);
    var r2, c2 := AddStage(a.n2 + b.n2 + c1, 0x10 * r1 + r0);
    var t3 := a.n3 + b.n3 + c2;
    assert DecimalSum16(a, b, cin) == 0x1000 * t3 + 0x100 * r2 + 0x10 * r1 + r0;
    c := if t3 >= 10 then 1 else 0;
    r := Nibbles(r0, r1, r2, t3 - 10 * c);
  }

  /** Decimal digits joined into a register stand for their number. */
  lemma JoinedDigits(r: Nibbles, wide: bool)
    requires r.Valid() && r.Decimal() && (wide || r.n2 == r.n3 == 0)
    ensures Operand(true, wide, r.Joined()) && Value(true, r.Joined()) == r.Number()
    ensures 0 <= r.Number() < Base(true, wide)
  {
    JoinedRange(r);
    SplitJoined(r);
    hide Split, Nibbles.Joined;
  }

  lemma JoinedRange(r: Nibbles)
    requires r.Valid()
    ensures r.n2 == r.n3 == 0 ==> r.Joined() < 0x100
  {
  }

  /** What is kept of a raw value and what is carried, when it has at most one carry. */
  lemma CutOff(wide: bool, j: word, c: int)
    requires 0 <= c <= 1 && (wide || j < 0x100)
    ensures var al := j + (if wide then 0x1_0000 * c else 0x100 * c);
            Kept(wide, al) == j && Bit(Carried(wide, al)) == c
  {
    if c == 0 {
    } else {
    }
  }

  /**
   * ADC adds: result and carry-out together are the sum of the two operands and the carry-in, and the
   * result is again an operand of the same mode.
   */
  lemma AddIsAddition(dec: bool, wide: bool, a: word, b: word, cin: bool)
    requires Operand(dec, wide, a) && Operand(dec, wide, b)
    ensures var al := RawSum(dec, wide, a, b, cin).al;
            al >= 0 && Operand(dec, wide, Kept(wide, al))
            && Value(dec, Kept(wide, al)) + Base(dec, wide) * Bit(Carried(wide, al))
               == Value(dec, a) + Value(dec, b) + Bit(cin)
  {
    hide Split, RawSum, Kept, Carried, Operand, Nibbles.Joined, Nibbles.Number;
    if !dec {
      AddBinary(wide, a, b, cin);
    } else if wide {
      var r, c := AddDecimal16(a, b, cin);
      CutOff(wide, r.Joined(), c);
      JoinedDigits(r, wide);
    } else {
      var r, c := AddDecimal8(a, b, cin);
      JoinedRange(r);
      CutOff(wide, r.Joined(), c);
      JoinedDigits(r, wide);
    }
  }

  lemma AddBinary(wide: bool, a: word, b: word, cin: bool)
    requires Operand(false, wide, a) && Operand(false, wide, b)
    ensures var al := RawSum(false, wide, a, b, cin).al;
            al >= 0 && Operand(false, wide, Kept(wide, al))
            && Value(false, Kept(wide, al)) + Base(false, wide) * Bit(Carried(wide, al))
               == Value(false, a) + Value(false, b) + Bit(cin)
  {
    hide Split, OutOf8, OutOf16, Mod16, Mod32;
    var al := a + b + Bit(cin);
    assert al == RawSum(false, wide, a, b, cin).al;
    hide RawSum;
    var c := if al >= Base(false, wide) then 1 else 0;
    CutOff(wide, al - Base(false, wide) * c, c);
  }

  lemma AddDecimal16(a: word, b: word, cin: bool) returns (r: Nibbles, c: int)
    requires Operand(true, true, a) && Operand(true, true, b)
    ensures r.Valid() && r.Decimal() && 0 <= c <= 1 && RawSum(true, true, a, b, cin).al == r.Joined() + 0x1_0000 * c
    ensures r.Number() + 10000 * c == Split(a).Number() + Split(b).Number() + Bit(cin)
  {
    hide Split, DecimalSum16, OutOf16, Mod32, Nibbles.Joined, Nibbles.Number;
    r, c := SumDigits16(Split(a), Split(b), cin);
  }

  lemma AddDecimal8(a: word, b: word, cin: bool) returns (r: Nibbles, c: int)
    requires Operand(true, false, a) && Operand(true, false, b)
    ensures r.Valid() && r.Decimal() && r.n2 == r.n3 == 0 && 0 <= c <= 1
    ensures RawSum(true, false, a, b, cin).al == r.Joined() + 0x100 * c
    ensures r.Number() + 100 * c == Split(a).Number() + Split(b).Number() + Bit(cin)
  {
    hide Split, DecimalSum8, OutOf8, Mod16, Nibbles.Joined, Nibbles.Number;
    NarrowNibbles(a);
    NarrowNibbles(b);
    r, c := SumDigits8(Split(a), Split(b), cin);
  }

  lemma NarrowNibbles(x: word)
    requires x < 0x100
    ensures Split(x).n2 == 0 && Split(x).n3 == 0
  {
  }

  /** One decimal stage of a subtraction: a digit difference `t` becomes a digit and a borrow. */
  function Lend(t: int): int { if t < 0 then 1 else 0 }

  lemma Borrow0(t: int)
    requires -10 <= t <= 9
    ensures Unfix0(Mod32(t)) == Mod32(t - 0x6 * Lend(t))
  {
    if t < 0 {
      assert Mod32(t) == t + 0x1_0000_0000;
      assert (Mod32(t) - 0x6) % 0x10 == t + 10;
    }
  }

  lemma Borrow1(t: int, low: int)
    requires -10 <= t <= 9 && 0 <= low < 0x10
    requires t >= 0 ==> low <= 9
    ensures Unfix1(Mod32(0x10 * t + low)) == Mod32(0x10 * t + low - 0x60 * Lend(t))
  {
    var x := 0x10 * t + low;
    if t < 0 {
      assert Mod32(x) == x + 0x1_0000_0000;
      assert (x + 0x1_0000_0000 - 0x60) % 0x100 == x + 0xa0;
    } else {
      assert Mod32(x) == x < 0xa0;
    }
  }

  lemma Borrow2(t: int, low: int)
    requires -10 <= t <= 9 && 0 <= low < 0x100
    ensures Unfix2(Mod32(0x100 * t + low)) == Mod32(0x100 * t + low - 0x600 * Lend(t))
  {
    var x := 0x100 * t + low;
    if t < 0 {
      assert Mod32(x) == x + 0x1_0000_0000;
      assert (x + 0x1_0000_0000 - 0x600) % 0x1000 == x + 0xa00;
    } else {
      assert Mod32(x) == x < 0xa00;
    }
  }

  function LastFix(al: int): int { if al >= 0xa000 then Mod32(al - 0x6000) else al }

  lemma Borrow3(t: int, low: int)
    requires -10 <= t <= 9 && 0 <= low < 0x1000
    ensures LastFix(Mod32(0x1000 * t + low)) % 0x1_0000 == 0x1000 * (t + 10 * Lend(t)) + low
  {
    if t < 0 {
      assert Mod32(0x1000 * t + low) == 0x1000 * t + low + 0x1_0000_0000;
    }
  }

  lemma Mod32Add(x: int, y: int)
    ensures Mod32(x + Mod32(y)) == Mod32(x + y)
  {
  }

  lemma DifferenceDigits16(a: Nibbles, b: Nibbles, cin: bool) returns (r: Nibbles, c: int)
    requires a.Valid() && b.Valid() && a.Decimal() && b.Decimal()
    ensures r.Valid() && r.Decimal() && 0 <= c <= 1
    ensures DecimalDifference16(a, b, cin) % 0x1_0000 == r.Joined()
    ensures r.Number() - 10000 * c == a.Number() - b.Number() - 1 + Bit(cin)
  {
    hide Unfix0, Unfix1, Unfix2, Mod32;
    var t0 := a.n0 - b.n0 + Bit(cin) - 1;
    var c0 := Lend(t0);
    var low0 := t0 + 10 * c0;
    var t1 := a.n1 - b.n1 - c0;
    var c1 := Lend(t1);
    var low1 := 0x10 * (t1 + 10 * c1) + low0;
    var t2 := a.n2 - b.n2 - c1;
    var c2 := Lend(t2);
    var low2 := 0x100 * (t2 + 10 * c2) + low1;
    var t3 := a.n3 - b.n3 - c2;
    c := Lend(t3);
    r := Nibbles(low0, t1 + 10 * c1, t2 + 10 * c2, t3 + 10 * c);
    assert DecimalDifference16(a, b, cin) == LastFix(Mod32(0x1000 * t3 + low2)) by {
      Borrow0(t0);
      Mod32Add(0x10 * a.n1 - 0x10 * b.n1, t0 - 0x6 * c0);
      assert 0x10 * a.n1 - 0x10 * b.n1 + (t0 - 0x6 * c0) == 0x10 * t1 + low0;
      Borrow1(t1, low0);
      Mod32Add(0x100 * a.n2 - 0x100 * b.n2, 0x10 * t1 + low0 - 0x60 * c1);
      assert 0x100 * a.n2 - 0x100 * b.n2 + (0x10 * t1 + low0 - 0x60 * c1) == 0x100 * t2 + low1;
      Borrow2(t2, low1);
      Mod32Add(0x1000 * a.n3 - 0x1000 * b.n3, 0x100 * t2 + low1 - 0x600 * c2);
      assert 0x1000 * a.n3 - 0x1000 * b.n3 + (0x100 * t2 + low1 - 0x600 * c2) == 0x1000 * t3 + low2;
    }
    Borrow3(t3, low2);
  }

  lemma Mod16Add(x: int, y: int)
    ensures Mod16(x + Mod16(y)) == Mod16(x + y)
  {
  }

  lemma BorrowNibble(t: int)
    requires -10 <= t <= 9
    ensures FixNibble(Mod16(t)) == Mod16(t - 0x6 * Lend(t))
  {
    if t < 0 {
      assert Mod16(t) as int == t + 0x1_0000;
      assert (Mod16(t) as int - 0x6) % 0x10 == t + 10;
    }
  }

  lemma LastBorrow8(t: int, low: int)
    requires -10 <= t <= 9 && 0 <= low < 0x10
    ensures var al := Mod16(0x10 * t + low);
            (if Signed16(al) < 0 then Mod16(al - 0x60) else al) % 0x100 == 0x10 * (t + 10 * Lend(t)) + low
  {
    if t < 0 {
      assert Mod16(0x10 * t + low) as int == 0x10 * t + low + 0x1_0000;
    }
  }

  lemma DifferenceDigits8(a: Nibbles, b: Nibbles, cin: bool) returns (r: Nibbles, c: int)
    requires a.Valid() && b.Valid() && a.Decimal() && b.Decimal() && a.n2 == a.n3 == b.n2 == b.n3 == 0
    ensures r.Valid() && r.Decimal() && r.n2 == r.n3 == 0 && 0 <= c <= 1
    ensures DecimalDifference8(a, b, cin) % 0x100 == r.Joined()
    ensures r.Number() - 100 * c == a.Number() - b.Number() - 1 + Bit(cin)
  {
    hide FixNibble, Mod16;
    var t0 := a.n0 - b.n0 + Bit(cin) - 1;
    var low := t0 + 10 * Lend(t0);
    var t1 := a.n1 - b.n1 - Lend(t0);
    c := Lend(t1);
    r := Nibbles(low, t1 + 10 * c, 0, 0);
    BorrowNibble(t0);
    Mod16Add(0x10 * a.n1 - 0x10 * b.n1, t0 - 0x6 * Lend(t0));
    assert 0x10 * a.n1 - 0x10 * b.n1 + (t0 - 0x6 * Lend(t0)) == 0x10 * t1 + low;
    LastBorrow8(t1, low);
  }

  lemma NumberRange(wide: bool, x: word)
    requires Operand(true, wide, x)
    ensures 0 <= Value(true, x) < Base(true, wide)
  {
    if !wide {
      NarrowNibbles(x);
    }
  }

  /**
   * SBC subtracts, modulo what the register can hold: the result is the first operand less the second
   * and less one more when the carry-in is clear.
   */
  lemma SubIsSubtraction(dec: bool, wide: bool, a: word, b: word, cin: bool)
    requires Operand(dec, wide, a) && Operand(dec, wide, b)
    ensures var out := Kept(wide, RawDifference(dec, wide, a, b, cin));
            var d := Value(dec, a) - Value(dec, b) - 1 + Bit(cin);
            Operand(dec, wide, out) && 0 <= Value(dec, out) < Base(dec, wide)
            && Value(dec, out) == if d < 0 then d + Base(dec, wide) else d
  {
    hide Split, RawDifference, Kept, Operand, Nibbles.Joined, Nibbles.Number;
    if !dec {
      SubBinary(wide, a, b, cin);
    } else if wide {
      var r, c := SubDecimal16(a, b, cin);
      JoinedDigits(r, wide);
    } else {
      var r, c := SubDecimal8(a, b, cin);
      JoinedDigits(r, wide);
    }
  }

  lemma SubDecimal16(a: word, b: word, cin: bool) returns (r: Nibbles, c: int)
    requires Operand(true, true, a) && Operand(true, true, b)
    ensures r.Valid() && r.Decimal() && 0 <= c <= 1 && Kept(true, RawDifference(true, true, a, b, cin)) == r.Joined()
    ensures r.Number() - 10000 * c == Split(a).Number() - Split(b).Number() - 1 + Bit(cin)
  {
    hide Split, DecimalDifference16, Nibbles.Joined, Nibbles.Number;
    r, c := DifferenceDigits16(Split(a), Split(b), cin);
  }

  lemma SubDecimal8(a: word, b: word, cin: bool) returns (r: Nibbles, c: int)
    requires Operand(true, false, a) && Operand(true, false, b)
    ensures r.Valid() && r.Decimal() && r.n2 == r.n3 == 0 && 0 <= c <= 1
    ensures Kept(false, RawDifference(true, false, a, b, cin)) == r.Joined()
    ensures r.Number() - 100 * c == Split(a).Number() - Split(b).Number() - 1 + Bit(cin)
  {
    hide Split, DecimalDifference8, Nibbles.Joined, Nibbles.Number;
    NarrowNibbles(a);
    NarrowNibbles(b);
    r, c := DifferenceDigits8(Split(a), Split(b), cin);
  }

  lemma SubBinary(wide: bool, a: word, b: word, cin: bool)
    requires Operand(false, wide, a) && Operand(false, wide, b)
    ensures var out := Kept(wide, RawDifference(false, wide, a, b, cin));
            var d := Value(false, a) - Value(false, b) - 1 + Bit(cin);
            Operand(false, wide, out) && 0 <= Value(false, out) < Base(false, wide)
            && Value(false, out) == if d < 0 then d + Base(false, wide) else d
  {
    hide Split, Mod16, Mod32, Kept;
    var d := a - b - 1 + Bit(cin);
    if wide {
      BorrowKept(wide, d);
      assert RawDifference(false, wide, a, b, cin) == Mod32(d);
    } else {
      BorrowKept(wide, d);
      assert RawDifference(false, wide, a, b, cin) == Mod16(d);
    }
  }

  /** What is kept of a difference that has wrapped around. */
  lemma BorrowKept(wide: bool, d: int)
    requires if wide then -0x1_0000 <= d < 0x1_0000 else -0x100 <= d < 0x100
    ensures var base := Base(false, wide);
            Kept(wide, if wide then Mod32(d) else Mod16(d)) == if d < 0 then d + base else d
  {
    if wide {
      hide Wrap;
      assert Mod32(d) == if d < 0 then d + 0x1_0000_0000 else d;
    } else {
      assert Mod16(d) as int == if d < 0 then d + 0x1_0000 else d;
    }
  }

  /** A register's contents are determined by the number they stand for. */
  lemma ValueInjective(dec: bool, wide: bool, x: word, y: word)
    requires Operand(dec, wide, x) && Operand(dec, wide, y) && Value(dec, x) == Value(dec, y)
    ensures x == y
  {
    if dec {
      hide Split;
      DigitsUnique(Split(x), Split(y));
      assert x == Split(x).Joined();
    }
  }

  lemma DigitsUnique(s: Nibbles, t: Nibbles)
    requires s.Valid() && t.Valid() && s.Decimal() && t.Decimal() && s.Number() == t.Number()
    ensures s == t
  {
    assert s.n0 - t.n0 == 10 * (t.n1 - s.n1 + 10 * (t.n2 - s.n2) + 100 * (t.n3 - s.n3));
    assert s.n1 - t.n1 == 10 * (t.n2 - s.n2 + 10 * (t.n3 - s.n3));
  }

  /** ADC with carry clear and then SBC of the same operand with carry set restores the accumulator. */
  lemma SubUndoesAdd(dec: bool, wide: bool, a: word, b: word)
    requires Operand(dec, wide, a) && Operand(dec, wide, b)
    ensures var s := Kept(wide, RawSum(dec, wide, a, b, false).al);
            (wide || s < 0x100) && Kept(wide, RawDifference(dec, wide, s, b, true)) == a
  {
    AddIsAddition(dec, wide, a, b, false);
    var s := Kept(wide, RawSum(dec, wide, a, b, false).al);
    SubIsSubtraction(dec, wide, s, b, true);
    hide *;
    ValueRange(dec, wide, a);
    var r := Kept(wide, RawDifference(dec, wide, s, b, true));
    var c := Carried(wide, RawSum(dec, wide, a, b, false).al);
    assert Value(dec, s) + Base(dec, wide) * Bit(c) == Value(dec, a) + Value(dec, b);
    RestoreValue(Value(dec, r), Value(dec, s), Value(dec, a), Value(dec, b), Base(dec, wide), c);
    ValueInjective(dec, wide, r, a);
  }

  lemma ValueRange(dec: bool, wide: bool, x: word)
    requires Operand(dec, wide, x)
    ensures 0 <= Value(dec, x) < Base(dec, wide)
  {
    if dec {
      NumberRange(wide, x);
    }
  }

  lemma RestoreValue(r: int, s: int, a: int, b: int, base: int, c: bool)
    requires 0 <= r < base && 0 <= a < base && s + base * Bit(c) == a + b
    requires r == if s - b < 0 then s - b + base else s - b
    ensures r == a
  {
  }
}
