/**
 Numbers longer than the accumulator are added digit by digit: load, add with carry, store. Here a digit
 is a byte or a word in memory, and a decimal one when the D flag is set.
 */
module CarryChain {
  import opened Words
  import opened Opcodes
  import opened Machine
  import A = Arith
  import I = Instructions

  /** Where two digits are read from and their sum is stored. */
  datatype Digit = Digit(x: addr, y: addr, z: addr)

  /** How the digits of a chain are accessed. */
  datatype Access = Access(dec: bool, wide: bool, mode: Mode)
  {
    function Digit(m: Bytes, a: addr): word { I.Fetch(m, a, wide, I.StaysInBank(mode)) }

    /** The bytes of a digit. */
    predicate Uses(a: addr, c: addr) {
      c == a || (wide && c == if I.StaysInBank(mode) then BankWrap(a, 1) else Linear(a + 1))
    }

    ghost predicate Apart(a: addr, b: addr) { forall c: addr | Uses(a, c) :: !Uses(b, c) }

    function Base(): int { A.Base(dec, wide) }

    function Value(m: Bytes, a: addr): int { A.Value(dec, Digit(m, a)) }

    predicate Proper(m: Bytes, a: addr) { A.Operand(dec, wide, Digit(m, a)) }

    /** The number whose digits are at the given addresses, least significant first. */
    function Number(m: Bytes, digits: seq<addr>): int {
      if digits == [] then 0 else Value(m, digits[0]) + Base() * Number(m, digits[1..])
    }
  }

  function Of(s: State, mode: Mode): (acc: Access)
    ensures acc.mode == mode
  {
    Access(s.P.D, !s.P.Acc8(), mode)
  }

  function Power(b: int, n: nat): int { if n == 0 then 1 else b * Power(b, n - 1) }

  function AddDigit(s: State, d: Digit, mode: Mode, size: nat): State {
    I.Write(I.Read(I.Read(s, LDA, mode, d.x, size), ADC, mode, d.y, size), STA, mode, d.z, size)
  }

  function AddAll(s: State, ds: seq<Digit>, mode: Mode, size: nat): State
    decreases ds
  {
    if ds == [] then s else AddAll(AddDigit(s, ds[0], mode, size), ds[1..], mode, size)
  }

  function Xs(ds: seq<Digit>): (r: seq<addr>)
    ensures |r| == |ds| && forall i | 0 <= i < |ds| :: r[i] == ds[i].x
  {
    seq(|ds|, i requires 0 <= i < |ds| => ds[i].x)
  }

  function Ys(ds: seq<Digit>): (r: seq<addr>)
    ensures |r| == |ds| && forall i | 0 <= i < |ds| :: r[i] == ds[i].y
  {
    seq(|ds|, i requires 0 <= i < |ds| => ds[i].y)
  }

  function Zs(ds: seq<Digit>): (r: seq<addr>)
    ensures |r| == |ds| && forall i | 0 <= i < |ds| :: r[i] == ds[i].z
  {
    seq(|ds|, i requires 0 <= i < |ds| => ds[i].z)
  }

  /** No sum digit is stored over an operand still to be read or over another sum digit. */
  ghost predicate Separate(acc: Access, ds: seq<Digit>) {
    forall i, j | 0 <= i < j < |ds| ::
      acc.Apart(ds[i].z, ds[j].x) && acc.Apart(ds[i].z, ds[j].y) && acc.Apart(ds[i].z, ds[j].z)
  }

  predicate Operands(acc: Access, m: Bytes, ds: seq<Digit>) {
    forall i | 0 <= i < |ds| :: acc.Proper(m, ds[i].x) && acc.Proper(m, ds[i].y)
  }

  // One digit -------------------------------------------------------------------------------------

  lemma NextDiffers(a: addr)
    ensures BankWrap(a, 1) != a && Linear(a + 1) != a
  {
    var q, r := a / 0x1_0000, a % 0x1_0000;
    assert (a + 1) % 0x1_0000 == if r == 0xffff then 0 else r + 1;
    assert Linear(a + 1) == if a == 0xff_ffff then 0 else a + 1;
  }

  lemma StoreFetch(m: Bytes, a: addr, v: word, acc: Access)
    requires acc.wide || v < 0x100
    ensures acc.Digit(I.Store(m, a, v, acc.wide, I.StaysInBank(acc.mode)), a) == v
  {
    NextDiffers(a);
    PairSplit(v);
    hide BankWrap, Linear;
  }

  lemma StoreElsewhere(m: Bytes, a: addr, v: word, acc: Access, b: addr)
    requires acc.Apart(a, b)
    ensures acc.Digit(I.Store(m, a, v, acc.wide, I.StaysInBank(acc.mode)), b) == acc.Digit(m, b)
  {
    hide BankWrap, Linear, Low, High;
    assert acc.Uses(a, a) && acc.Uses(b, b);
    if acc.wide {
      var stays := I.StaysInBank(acc.mode);
      var a' := if stays then BankWrap(a, 1) else Linear(a + 1);
      var b' := if stays then BankWrap(b, 1) else Linear(b + 1);
      assert acc.Uses(a, a') && acc.Uses(b, b');
    }
  }

  /** A load puts the digit into the accumulator and leaves carry, mode and memory alone. */
  lemma Loads(s: State, a: addr, mode: Mode, size: nat)
    requires I.DataMode(mode)
    ensures var t := I.Read(s, LDA, mode, a, size);
            && t.m == s.m && t.P == s.P.(N := t.P.N, Z := t.P.Z)
            && t.C == WithA(s.C, Of(s, mode).Digit(s.m, a), Of(s, mode).wide)
  {
    hide I.Fetch, Status.NZ, WithLow;
  }

  lemma Adds(s: State, a: addr, mode: Mode, size: nat)
    requires I.DataMode(mode)
    ensures var acc := Of(s, mode);
            var v := acc.Digit(s.m, a);
            var sum := A.RawSum(s.P.D, acc.wide, I.Narrowed(s.C, acc.wide), v, s.P.C);
            var t := I.Read(s, ADC, mode, a, size);
            && t.m == s.m && t.P == s.P.(N := t.P.N, Z := t.P.Z, C := t.P.C, V := t.P.V)
            && t.P.C == A.Carried(acc.wide, sum.al)
            && t.C == WithA(s.C, A.Kept(acc.wide, sum.al), acc.wide)
  {
    hide I.Fetch, A.RawSum, A.Carried, A.Kept, WithLow, Low;
  }

  lemma Stores(s: State, a: addr, mode: Mode, size: nat)
    requires I.DataMode(mode)
    ensures var acc := Of(s, mode);
            var t := I.Write(s, STA, mode, a, size);
            t == s.Advance(size).(m := I.Store(s.m, a, s.C, acc.wide, I.StaysInBank(mode)))
  {
    hide I.Store;
  }

  lemma LowOfWithLow(w: word, v: word)
    requires v < 0x100
    ensures Low(WithLow(w, v)) == v && WithLow(w, v) / 0x100 == w / 0x100
  {
  }

  /** Storing the accumulator stores no more than its width. */
  lemma StoreNarrowed(m: Bytes, a: addr, v: word, wide: bool, inBank: bool)
    ensures I.Store(m, a, v, wide, inBank) == I.Store(m, a, I.Narrowed(v, wide), wide, inBank)
  {
  }

  /** One digit of the sum, with carry in and carry out. */
  lemma DigitSum(s: State, d: Digit, mode: Mode, size: nat) returns (v: word)
    requires I.DataMode(mode) && Of(s, mode).Proper(s.m, d.x) && Of(s, mode).Proper(s.m, d.y)
    ensures var acc, t := Of(s, mode), AddDigit(s, d, mode, size);
            && A.Operand(acc.dec, acc.wide, v)
            && t.m == I.Store(s.m, d.z, v, acc.wide, I.StaysInBank(mode)) && Of(t, mode) == acc
            && A.Value(acc.dec, v) + acc.Base() * Bit(t.P.C)
               == acc.Value(s.m, d.x) + acc.Value(s.m, d.y) + Bit(s.P.C)
            && (!acc.wide ==> t.C / 0x100 == s.C / 0x100)
  {
    hide I.Read, I.Write, I.Store, I.Fetch, A.RawSum, A.Carried, A.Kept, A.Operand, A.Value, WithLow, Low, A.Base;
    var acc := Of(s, mode);
    var x, y := acc.Digit(s.m, d.x), acc.Digit(s.m, d.y);
    var u := I.Read(s, LDA, mode, d.x, size);
    var w := I.Read(u, ADC, mode, d.y, size);
    Loads(s, d.x, mode, size);
    Adds(u, d.y, mode, size);
    Stores(w, d.z, mode, size);
    A.AddIsAddition(acc.dec, acc.wide, x, y, s.P.C);
    v := A.Kept(acc.wide, A.RawSum(acc.dec, acc.wide, x, y, s.P.C).al);
    if !acc.wide {
      OperandNarrow(acc, x);
      OperandNarrow(acc, v);
      LowOfWithLow(s.C, x);
      LowOfWithLow(u.C, v);
    }
    StoreNarrowed(s.m, d.z, w.C, acc.wide, I.StaysInBank(mode));
  }

  lemma OperandNarrow(acc: Access, v: word)
    requires A.Operand(acc.dec, acc.wide, v) && !acc.wide
    ensures v < 0x100
  {
  }

  // The whole number ------------------------------------------------------------------------------

  lemma {:induction false} SameNumber(acc: Access, m: Bytes, m': Bytes, digits: seq<addr>)
    requires forall i | 0 <= i < |digits| :: acc.Digit(m, digits[i]) == acc.Digit(m', digits[i])
    ensures acc.Number(m, digits) == acc.Number(m', digits)
  {
    hide Access.Digit, A.Value, A.Base;
    if digits == [] {
    } else {
      SameNumber(acc, m, m', digits[1..]);
    }
  }

  /** A chain leaves every digit alone that it does not store to. */
  lemma {:induction false} ChainElsewhere(s: State, ds: seq<Digit>, mode: Mode, size: nat, b: addr)
    requires I.DataMode(mode) && Operands(Of(s, mode), s.m, ds) && Separate(Of(s, mode), ds)
    requires forall i | 0 <= i < |ds| :: Of(s, mode).Apart(ds[i].z, b)
    ensures Of(s, mode).Digit(AddAll(s, ds, mode, size).m, b) == Of(s, mode).Digit(s.m, b)
    decreases ds
  {
    hide AddDigit, Access.Digit, Access.Apart, A.Operand, I.DataMode, Of, I.Store;
    if ds == [] {
    } else {
      var v := DigitSum(s, ds[0], mode, size);
      StoreElsewhere(s.m, ds[0].z, v, Of(s, mode), b);
      TailReady(s, ds, mode, size, v);
      ChainElsewhere(AddDigit(s, ds[0], mode, size), ds[1..], mode, size, b);
    }
  }

  /** After the first digit the remaining operands are as they were. */
  lemma TailReady(s: State, ds: seq<Digit>, mode: Mode, size: nat, v: word)
    requires ds != [] && Separate(Of(s, mode), ds)
    requires Operands(Of(s, mode), s.m, ds)
    requires AddDigit(s, ds[0], mode, size).m == I.Store(s.m, ds[0].z, v, Of(s, mode).wide, I.StaysInBank(mode))
    ensures var acc, m' := Of(s, mode), AddDigit(s, ds[0], mode, size).m;
            && (forall i | 0 <= i < |ds| - 1 ::
                  acc.Digit(m', ds[1..][i].x) == acc.Digit(s.m, ds[1..][i].x)
                  && acc.Digit(m', ds[1..][i].y) == acc.Digit(s.m, ds[1..][i].y))
            && Operands(acc, m', ds[1..]) && Separate(acc, ds[1..])
  {
    hide AddDigit, Access.Digit, Access.Apart, A.Operand, I.Store;
    forall i | 0 <= i < |ds| - 1
      ensures var acc, m' := Of(s, mode), AddDigit(s, ds[0], mode, size).m;
              && acc.Digit(m', ds[1..][i].x) == acc.Digit(s.m, ds[1..][i].x)
              && acc.Digit(m', ds[1..][i].y) == acc.Digit(s.m, ds[1..][i].y)
    {
      assert ds[1..][i] == ds[i + 1];
      StoreElsewhere(s.m, ds[0].z, v, Of(s, mode), ds[i + 1].x);
      StoreElsewhere(s.m, ds[0].z, v, Of(s, mode), ds[i + 1].y);
    }
  }

  /**
   * The stored number and the final carry are exactly the sum of the two numbers and the initial carry,
   * for any number of digits, in binary and in decimal, and for bytes and for words. Decimal sums have
   * decimal digits again, and with byte digits the high byte of the accumulator is never touched.
   */
  lemma {:induction false} ChainAdds(s: State, ds: seq<Digit>, mode: Mode, size: nat)
    requires I.DataMode(mode) && Operands(Of(s, mode), s.m, ds) && Separate(Of(s, mode), ds)
    ensures var acc, t := Of(s, mode), AddAll(s, ds, mode, size);
            && acc.Number(t.m, Zs(ds)) + Power(acc.Base(), |ds|) * Bit(t.P.C)
               == acc.Number(s.m, Xs(ds)) + acc.Number(s.m, Ys(ds)) + Bit(s.P.C)
            && (forall i | 0 <= i < |ds| :: acc.Proper(t.m, ds[i].z))
            && (!acc.wide ==> t.C / 0x100 == s.C / 0x100)
    decreases ds
  {
    hide AddDigit, Access.Digit, Access.Apart, A.Operand, I.DataMode, I.Store, A.Base, A.Value, Of;
    if ds == [] {
    } else {
      var acc, u, rest := Of(s, mode), AddDigit(s, ds[0], mode, size), ds[1..];
      var t := AddAll(u, rest, mode, size);
      var v := DigitSum(s, ds[0], mode, size);
      TailReady(s, ds, mode, size, v);
      ChainAdds(u, rest, mode, size);
      SameNumber(acc, s.m, u.m, Xs(rest));
      SameNumber(acc, s.m, u.m, Ys(rest));
      FirstDigit(s, ds, mode, size, v);
      Tails(ds);
      Carries(acc.Base(), Power(acc.Base(), |rest|),
              A.Value(acc.dec, v), acc.Value(s.m, ds[0].x), acc.Value(s.m, ds[0].y),
              acc.Number(t.m, Zs(rest)), acc.Number(s.m, Xs(rest)), acc.Number(s.m, Ys(rest)),
              Bit(s.P.C), Bit(u.P.C), Bit(t.P.C));
    }
  }

  /** The first digit of the sum is still there at the end. */
  lemma FirstDigit(s: State, ds: seq<Digit>, mode: Mode, size: nat, v: word)
    requires ds != [] && I.DataMode(mode) && Operands(Of(s, mode), s.m, ds) && Separate(Of(s, mode), ds)
    requires A.Operand(Of(s, mode).dec, Of(s, mode).wide, v)
    requires AddDigit(s, ds[0], mode, size).m == I.Store(s.m, ds[0].z, v, Of(s, mode).wide, I.StaysInBank(mode))
    requires Of(AddDigit(s, ds[0], mode, size), mode) == Of(s, mode)
    ensures Of(s, mode).Digit(AddAll(s, ds, mode, size).m, ds[0].z) == v
  {
    var acc, u, rest := Of(s, mode), AddDigit(s, ds[0], mode, size), ds[1..];
    hide AddDigit, Access.Digit, Access.Uses, I.DataMode, I.Store, Of;
    TailReady(s, ds, mode, size, v);
    StoreFetch(s.m, ds[0].z, v, acc);
    forall i | 0 <= i < |rest| ensures acc.Apart(rest[i].z, ds[0].z) {
      assert rest[i] == ds[i + 1] && acc.Apart(ds[0].z, ds[i + 1].z);
    }
    ChainElsewhere(u, rest, mode, size, ds[0].z);
  }

  lemma Tails(ds: seq<Digit>)
    requires ds != []
    ensures Xs(ds)[1..] == Xs(ds[1..]) && Ys(ds)[1..] == Ys(ds[1..]) && Zs(ds)[1..] == Zs(ds[1..])
  {
  }

  lemma Carries(b: int, p: int, z: int, x: int, y: int, zs: int, xs: int, ys: int, c0: int, c1: int, c2: int)
    requires z + b * c1 == x + y + c0 && zs + p * c2 == xs + ys + c1
    ensures (z + b * zs) + b * p * c2 == (x + b * xs) + (y + b * ys) + c0
  {
    assert b * (zs + p * c2) == b * (xs + ys + c1);
    assert b * (zs + p * c2) == b * zs + b * p * c2;
    assert b * (xs + ys + c1) == b * xs + b * ys + b * c1;
  }

  lemma {:induction false} NumberRange(acc: Access, m: Bytes, digits: seq<addr>)
    requires forall i | 0 <= i < |digits| :: acc.Proper(m, digits[i])
    ensures 0 <= acc.Number(m, digits) < Power(acc.Base(), |digits|)
  {
    hide Access.Digit, A.Operand, A.Value, A.Base;
    if digits == [] {
    } else {
      NumberRange(acc, m, digits[1..]);
      A.ValueRange(acc.dec, acc.wide, acc.Digit(m, digits[0]));
      Below(acc.Base(), acc.Number(m, digits[1..]), Power(acc.Base(), |digits| - 1));
    }
  }

  lemma Below(b: int, n: int, p: int)
    requires 0 <= n < p && 0 < b
    ensures 0 <= b * n && b * n + b <= b * p
  {
    assert b * (p - n - 1) >= 0;
    assert b * (p - n - 1) == b * p - b * n - b;
  }

  /** The final carry is the overflow: it is set exactly when the sum does not fit the digits. */
  lemma CarryIsOverflow(s: State, ds: seq<Digit>, mode: Mode, size: nat)
    requires I.DataMode(mode) && Operands(Of(s, mode), s.m, ds) && Separate(Of(s, mode), ds)
    ensures var acc := Of(s, mode);
            AddAll(s, ds, mode, size).P.C
            <==> acc.Number(s.m, Xs(ds)) + acc.Number(s.m, Ys(ds)) + Bit(s.P.C) >= Power(acc.Base(), |ds|)
  {
    hide AddAll, Access.Digit, Access.Number, A.Operand, I.DataMode, A.Base, Power, Of;
    ChainAdds(s, ds, mode, size);
    NumberRange(Of(s, mode), AddAll(s, ds, mode, size).m, Zs(ds));
  }

  // Subtraction -----------------------------------------------------------------------------------

  lemma AddedC(s: State, v: word, wide: bool)
    requires wide || v < 0x100
    ensures I.AddTo(s, v, wide).C
         == WithA(s.C, A.Kept(wide, A.RawSum(s.P.D, wide, I.Narrowed(s.C, wide), v, s.P.C).al), wide)
  {
    hide A.RawSum, A.Kept, A.Carried, WithA, I.ArithmeticFlags;
  }

  lemma SubtractedC(s: State, v: word, wide: bool)
    requires wide || v < 0x100
    ensures I.SubtractFrom(s, v, wide).C
         == WithA(s.C, A.Kept(wide, A.RawDifference(s.P.D, wide, I.Narrowed(s.C, wide), v, s.P.C)), wide)
  {
    hide A.RawDifference, A.Kept, I.Borrowed, WithA, I.ArithmeticFlags;
  }

  lemma WithLowTwice(w: word, v: word)
    requires v < 0x100
    ensures WithLow(WithLow(w, v), Low(w)) == w
  {
  }

  /** ADC with the carry clear and then SBC of the same operand with the carry set restores all of C. */
  lemma SubtractionUndoesAddition(s: State, v: word, wide: bool)
    requires A.Operand(s.P.D, wide, I.Narrowed(s.C, wide)) && A.Operand(s.P.D, wide, v)
    ensures var t := I.AddTo(s.(P := s.P.(C := false)), v, wide);
            I.SubtractFrom(t.(P := t.P.(C := true)), v, wide).C == s.C
  {
    hide I.AddTo, I.SubtractFrom, I.Narrowed, WithA, A.RawSum, A.RawDifference, A.Kept, A.Operand;
    OperandFits(s.P.D, wide, I.Narrowed(s.C, wide));
    OperandFits(s.P.D, wide, v);
    var s0 := s.(P := s.P.(C := false));
    var t := I.AddTo(s0, v, wide);
    var out := A.Kept(wide, A.RawSum(s.P.D, wide, I.Narrowed(s.C, wide), v, false).al);
    AddedC(s0, v, wide);
    SubtractedC(t.(P := t.P.(C := true)), v, wide);
    A.SubUndoesAdd(s.P.D, wide, I.Narrowed(s.C, wide), v);
    PutBack(s.C, out, wide);
  }

  lemma OperandFits(dec: bool, wide: bool, x: word)
    requires A.Operand(dec, wide, x)
    ensures wide || x < 0x100
  {
  }

  /** The accumulator shows what was put into it, and is as before when its old value is put back. */
  lemma PutBack(c: word, out: word, wide: bool)
    requires wide || out < 0x100
    ensures I.Narrowed(WithA(c, out, wide), wide) == out && WithA(WithA(c, out, wide), I.Narrowed(c, wide), wide) == c
  {
    if !wide {
      hide Low, WithLow;
      LowOfWithLow(c, out);
      WithLowTwice(c, out);
    }
  }
}
