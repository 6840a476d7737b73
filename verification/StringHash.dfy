/**
 The hash of string keys: a polynomial in 65600 over the characters, modulo 2^64. As 65600 is 2^6 times
 an odd number, characters far enough from the end do not count at all.
 */
module StringHash {
  import opened Words

  /** A plain `char`, which is signed. */
  type schar = c: int | -0x80 <= c < 0x80

  const M: int := 0x1_0000_0000_0000_0000
  const B: int := 65600

  function Power(n: nat): nat { if n == 0 then 1 else B * Power(n - 1) }

  /** The polynomial without its modulus. */
  function Polynomial(s: seq<schar>): int {
    if s == [] then 0 else B * Polynomial(s[..|s| - 1]) + s[|s| - 1]
  }

  function Hash(s: seq<schar>): uint64 { Polynomial(s) % M }

  lemma Times(h: int, c: int)
    ensures (B * (h % M) + c) % M == (B * h + c) % M
  {
    var q := h / M;
    assert B * h + c == B * (h % M) + c + M * (B * q);
  }

  /** The hash of the characters up to the first NUL, computed with shifts and unsigned wrap-around. */
  method HashString(text: seq<schar>) returns (hash: uint64)
    requires exists i :: 0 <= i < |text| && text[i] == 0
    ensures exists n :: 0 <= n < |text| && text[n] == 0 && 0 !in text[..n] && hash == Hash(text[..n])
  {
    hash := 0;
    var i := 0;
    while text[i] != 0
      invariant i < |text| && 0 !in text[..i] && hash == Hash(text[..i])
      invariant exists k :: i <= k < |text| && text[k] == 0
      decreases |text| - i
    {
      var c: int := text[i];
      var shifted6 := hash * 0x40 % M;
      var shifted16 := hash * 0x1_0000 % M;
      assert text[..i + 1][..i] == text[..i];
      Shifts(hash, c);
      Times(Polynomial(text[..i]), c);
      hash := (hash + c + shifted6 + shifted16 - hash) % M;
      i := i + 1;
    }
  }

  lemma Shifts(h: uint64, c: int)
    ensures (h + c + h * 0x40 % M + h * 0x1_0000 % M - h) % M == (B * h + c) % M
  {
    var q6, q16 := h * 0x40 / M, h * 0x1_0000 / M;
    assert h * 0x40 == h * 0x40 % M + M * q6 && h * 0x1_0000 == h * 0x1_0000 % M + M * q16;
    assert B * h + c == h + c + h * 0x40 % M + h * 0x1_0000 % M - h + M * (q6 + q16);
  }

  /** One character hashes to its code, modulo 2^64 when that is negative. */
  lemma HashOne(c: schar)
    ensures Hash([c]) == if c >= 0 then c else c + M
  {
    assert [c][..0] == [];
    assert Polynomial([c]) == c;
  }

  lemma {:induction false} PolynomialConcat(s: seq<schar>, t: seq<schar>)
    ensures Polynomial(s + t) == Polynomial(s) * Power(|t|) + Polynomial(t)
  {
    if t == [] {
      assert s + t == s;
    } else {
      var t', c := t[..|t| - 1], t[|t| - 1];
      assert (s + t)[..|s + t| - 1] == s + t';
      PolynomialConcat(s, t');
      assert Polynomial(s + t) == B * (Polynomial(s) * Power(|t'|) + Polynomial(t')) + c;
      Distribute(Polynomial(s), Power(|t'|));
    }
  }

  lemma Distribute(a: int, p: int)
    ensures B * (a * p) == a * (B * p)
  {
  }

  lemma ModSum(a: int, p: int, b: int)
    ensures (a * p + b) % M == ((a % M) * p + b % M) % M
  {
    var q, r := a / M, b / M;
    assert a * p == (M * q + a % M) * p == M * (q * p) + (a % M) * p;
    assert a * p + b == (a % M) * p + b % M + M * (q * p + r);
  }

  /** The hash of a concatenation, from the hashes of its parts. */
  lemma HashConcat(s: seq<schar>, t: seq<schar>)
    ensures Hash(s + t) == (Hash(s) * Power(|t|) + Hash(t)) % M
  {
    hide Power, Polynomial;
    PolynomialConcat(s, t);
    ModSum(Polynomial(s), Power(|t|), Polynomial(t));
  }

  lemma TenthPower()
    ensures Power(10) % M == 0x1000_0000_0000_0000
  {
    assert Power(1) == 65600;
    assert Power(2) == 4303360000;
    assert Power(4) == B * (B * Power(2));
    assert Power(6) == B * (B * Power(4));
    assert Power(8) == B * (B * Power(6));
    assert Power(10) == B * (B * Power(8));
  }

  lemma {:induction false} HighPowers(n: nat)
    requires n >= 11
    ensures Power(n) % M == 0
  {
    if n == 11 {
      TenthPower();
      Times(Power(10), 0);
    } else {
      HighPowers(n - 1);
      Times(Power(n - 1), 0);
    }
  }

  /** Only the last eleven characters matter. */
  lemma LastEleven(s: seq<schar>, t: seq<schar>)
    requires |t| >= 11
    ensures Hash(s + t) == Hash(t)
  {
    hide Power, Polynomial;
    PolynomialConcat(s, t);
    HighPowers(|t|);
    Vanishes(Polynomial(s), Power(|t|), Polynomial(t));
  }

  lemma Vanishes(a: int, p: int, b: int)
    requires p % M == 0
    ensures (a * p + b) % M == b % M
  {
    var q := p / M;
    assert a * p == a * (M * q) == M * (a * q);
  }

  /** The eleventh from the end counts only by its low four bits. */
  lemma EleventhCharacter(c: schar, d: schar, t: seq<schar>)
    requires |t| == 10
    ensures Hash([c] + t) == Hash([d] + t) <==> (c - d) % 16 == 0
  {
    PolynomialConcat([c], t);
    PolynomialConcat([d], t);
    TenthPower();
    One(c);
    One(d);
    var q := Power(10) / M;
    var e: int := c - d;
    assert Polynomial([c] + t) - Polynomial([d] + t) == e * Power(10);
    assert e * Power(10) == M * (e * q) + e * 0x1000_0000_0000_0000;
    Congruent(Polynomial([c] + t), Polynomial([d] + t), e * q, e);
  }

  lemma One(c: schar)
    ensures Polynomial([c]) == c
  {
    assert [c][..0] == [];
  }

  lemma Congruent(x: int, y: int, k: int, e: int)
    requires x - y == M * k + e * 0x1000_0000_0000_0000
    ensures x % M == y % M <==> e % 16 == 0
  {
    var f := e / 16;
    assert x - y == M * (k + f) + (e % 16) * 0x1000_0000_0000_0000;
  }
}
