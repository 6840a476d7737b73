/**
 Saving the processor as text and loading it back. The text is written by one format and read by another
 that also admits white space around every token; both are taken field by field, with the conversions
 as in sections 7.19.6.1 and 7.19.6.2 of ISO/IEC 9899:1999.
 */
module CpuText {
  import opened Words
  import opened Machine
  import opened Cpu

  /** A number of `n` hexadecimal digits, a flag written as an `int`, or a 64-bit count. */
  datatype Kind = Hex(n: nat) | Flag | Count

  datatype Field = Field(name: string, kind: Kind)

  const FIELDS: seq<Field> := [
    Field("C", Hex(4)), Field("X", Hex(4)), Field("Y", Hex(4)), Field("SP", Hex(4)), Field("D", Hex(4)),
    Field("DBR", Hex(2)), Field("PBR", Hex(2)), Field("PC", Hex(4)),
    Field("RST", Flag), Field("IRQ", Flag), Field("NMI", Flag), Field("STP", Flag), Field("CRASH", Flag),
    Field("PSC", Flag), Field("PSZ", Flag), Field("PSI", Flag), Field("PSD", Flag), Field("PSXB", Flag),
    Field("PSM", Flag), Field("PSV", Flag), Field("PSN", Flag), Field("PSE", Flag), Field("cycles", Count)]

  function Power(b: nat, n: nat): nat { if n == 0 then 1 else b * Power(b, n - 1) }

  predicate InRange(k: Kind, v: int) {
    0 <= v && match k
              case Hex(n) => v < Power(16, n)
              case Flag => v < 2
              case Count => v < 0x1_0000_0000_0000_0000
  }

  // Numbers ---------------------------------------------------------------------------------------

  function Radix(k: Kind): nat { if k.Hex? then 16 else 10 }

  function DigitChar(d: nat): char
    requires d < 16
  {
    "0123456789abcdef"[d]
  }

  /** The value of a digit, or 16 for any other character. */
  function DigitValue(c: char): nat {
    if '0' <= c <= '9' then c as int - '0' as int
    else if 'a' <= c <= 'f' then c as int - 'a' as int + 10
    else if 'A' <= c <= 'F' then c as int - 'A' as int + 10
    else 16
  }

  predicate White(c: char) { c == ' ' || '\t' <= c <= '\r' }

  function Digits(v: nat, b: nat): string
    requires 2 <= b <= 16
  {
    if v < b then [DigitChar(v)] else Digits(v / b, b) + [DigitChar(v % b)]
  }

  function Padded(s: string, n: nat): string
    decreases n - |s|
  {
    if |s| >= n then s else Padded("0" + s, n)
  }

  function Print(k: Kind, v: nat): string { Padded(Digits(v, Radix(k)), if k.Hex? then k.n else 1) }

  predicate AllDigits(s: string, b: nat) { forall i | 0 <= i < |s| :: DigitValue(s[i]) < b }

  function Number(s: string, b: nat): nat {
    if s == [] then 0 else b * Number(s[..|s| - 1], b) + DigitValue(s[|s| - 1])
  }

  /** How many of the first `limit` characters are digits. */
  function Span(s: string, b: nat, limit: nat): (n: nat)
    ensures n <= |s| && n <= limit && AllDigits(s[..n], b)
  {
    if s != [] && limit > 0 && DigitValue(s[0]) < b then
      var n := 1 + Span(s[1..], b, limit - 1);
      assert s[..n] == [s[0]] + s[1..][..n - 1];
      n
    else 0
  }

  // Reading ---------------------------------------------------------------------------------------

  datatype Option<T> = None | Some(value: T)

  datatype Conversion = Mismatch | Converted(value: int, rest: string)

  function SkipWhite(s: string): string { if s != [] && White(s[0]) then SkipWhite(s[1..]) else s }

  function Match(s: string, literal: string): Option<string> {
    if literal <= s then Some(s[|literal|..]) else None
  }

  /** A directive of white space and a literal. */
  function Expect(s: string, literal: string): Option<string> { Match(SkipWhite(s), literal) }

  /** What the variable of a field holds of a value converted for it. */
  function Held(k: Kind, v: int): (r: int)
    ensures InRange(k, r)
  {
    match k
    case Hex(n) => PowerPositive(16, n); v % Power(16, n)
    case Flag => v % 2
    case Count => v % 0x1_0000_0000_0000_0000
  }

  /** A sign and, in hexadecimal, a prefix 0x may come before the digits; both count towards the width. */
  function Convert(k: Kind, s: string): Conversion {
    var t := SkipWhite(s);
    var signed := t != [] && (t[0] == '+' || t[0] == '-');
    var limit := if k.Hex? then k.n else |t|;
    if signed then ConvertDigits(k, t[1..], if limit > 0 then limit - 1 else 0, t[0] == '-')
    else ConvertDigits(k, t, limit, false)
  }

  predicate Prefixed(k: Kind, s: string, limit: nat) {
    k.Hex? && limit >= 2 && |s| >= 2 && s[0] == '0' && (s[1] == 'x' || s[1] == 'X')
  }

  function ConvertDigits(k: Kind, s: string, limit: nat, negative: bool): Conversion {
    if Prefixed(k, s, limit) then ConvertSpan(k, s[2..], limit - 2, negative) else ConvertSpan(k, s, limit, negative)
  }

  function ConvertSpan(k: Kind, t: string, limit: nat, negative: bool): Conversion {
    var n := Span(t, Radix(k), limit);
    if n == 0 then Mismatch
    else
      var v: int := Number(t[..n], Radix(k));
      Converted(Held(k, if negative then -v else v), t[n..])
  }

  function ScanField(f: Field, s: string): Conversion {
    match Expect(s, f.name)
    case None => Mismatch
    case Some(t) =>
      match Expect(t, ":")
      case None => Mismatch
      case Some(u) => Convert(f.kind, u)
  }

  function Separator(fs: seq<Field>): string { if |fs| == 1 then "}" else "," }

  /** The values converted before the first mismatch. */
  function ScanFields(fs: seq<Field>, s: string): (r: seq<int>)
    requires forall i | 0 <= i < |fs| :: GoodField(fs[i])
    ensures |r| <= |fs| && forall i | 0 <= i < |r| :: InRange(fs[i].kind, r[i])
  {
    if fs == [] then []
    else
      match ScanField(fs[0], s)
      case Mismatch => []
      case Converted(v, rest) =>
        match Expect(rest, Separator(fs))
        case None => [v]
        case Some(t) => [v] + ScanFields(fs[1..], t)
  }

  lemma FieldsGood()
    ensures forall i | 0 <= i < |FIELDS| :: GoodField(FIELDS[i])
  {
  }

  function Scanned(s: string): (r: seq<int>)
    ensures |r| <= |FIELDS| && forall i | 0 <= i < |r| :: InRange(FIELDS[i].kind, r[i])
  {
    FieldsGood();
    match Match(s, "{")
    case None => []
    case Some(t) => ScanFields(FIELDS, t)
  }

  // Writing, with white space the reader skips ------------------------------------------------------

  /** White space before the name, the colon, the value and the separator of a field. */
  datatype Gap = Gap(a: string, b: string, c: string, d: string)
  {
    predicate Blank() { AllWhite(a) && AllWhite(b) && AllWhite(c) && AllWhite(d) }
  }

  predicate AllWhite(s: string) { forall i | 0 <= i < |s| :: White(s[i]) }

  const NO_GAP := Gap("", "", "", "")

  function Fields(fs: seq<Field>, vs: seq<nat>, gs: seq<Gap>): string
    requires |fs| == |vs| == |gs|
  {
    if fs == [] then ""
    else
      gs[0].a + (fs[0].name + (gs[0].b + (":" + (gs[0].c + (Print(fs[0].kind, vs[0]) +
      (gs[0].d + (Separator(fs) + Fields(fs[1..], vs[1..], gs[1..]))))))))
  }

  function Spaced(vs: seq<nat>, gs: seq<Gap>): string
    requires |vs| == |gs| == |FIELDS|
  {
    "{" + Fields(FIELDS, vs, gs)
  }

  function Written(vs: seq<nat>): string
    requires |vs| == |FIELDS|
  {
    Spaced(vs, seq(|FIELDS|, _ => NO_GAP))
  }

  // Reading back what was written -------------------------------------------------------------------

  predicate GoodField(f: Field) {
    f.name != [] && !White(f.name[0]) && (f.kind.Hex? ==> 2 <= f.kind.n <= 4)
  }

  lemma {:induction false} PowerPositive(b: nat, n: nat)
    requires b > 0
    ensures Power(b, n) > 0
  {
    if n == 0 {
    } else {
      PowerPositive(b, n - 1);
    }
  }

  lemma DigitCharValue(d: nat)
    requires d < 16
    ensures DigitValue(DigitChar(d)) == d
  {
  }

  lemma {:induction false} DigitsRead(v: nat, b: nat)
    requires 2 <= b <= 16
    ensures var s := Digits(v, b);
            s != [] && AllDigits(s, b) && Number(s, b) == v
    decreases v
  {
    hide DigitValue, DigitChar;
    if v < b {
      DigitCharValue(v);
      assert Digits(v, b)[..0] == [];
    } else {
      var q, r := v / b, v % b;
      Smaller(v, b);
      DigitsRead(q, b);
      DigitCharValue(r);
      assert Digits(v, b) == Digits(q, b) + [DigitChar(r)];
      NumberAppend(Digits(q, b), DigitChar(r), b);
    }
  }

  lemma NumberAppend(s: string, c: char, b: nat)
    requires DigitValue(c) < b && AllDigits(s, b)
    ensures Number(s + [c], b) == b * Number(s, b) + DigitValue(c) && AllDigits(s + [c], b)
  {
    hide DigitValue;
    assert (s + [c])[..|s|] == s;
  }

  lemma Smaller(v: nat, b: nat)
    requires 2 <= b <= v
    ensures v / b < v && b * (v / b) + v % b == v && v % b < b
  {
  }

  /** A number below b^n has at most n digits. */
  lemma {:induction false} DigitsLength(v: nat, b: nat, n: nat)
    requires 2 <= b <= 16 && n > 0 && v < Power(b, n)
    ensures |Digits(v, b)| <= n
    decreases n
  {
    if v < b {
    } else {
      Smaller(v, b);
      Quotient(v, b, Power(b, n - 1));
      if n > 1 {
        DigitsLength(v / b, b, n - 1);
      }
    }
  }

  lemma Quotient(v: nat, b: nat, p: nat)
    requires b > 0 && v < b * p
    ensures v / b < p
  {
    var q := v / b;
    assert v == b * q + v % b;
    assert b * (q - p) < 0;
  }

  lemma {:induction false} ZeroInFront(s: string, b: nat)
    requires 2 <= b <= 16
    ensures Number("0" + s, b) == Number(s, b)
  {
    var t := "0" + s;
    if s == [] {
      assert t[..0] == [];
    } else {
      assert t[..|t| - 1] == "0" + s[..|s| - 1];
      ZeroInFront(s[..|s| - 1], b);
    }
  }

  lemma {:induction false} PaddedRead(s: string, b: nat, n: nat)
    requires 2 <= b <= 16 && AllDigits(s, b)
    ensures var t := Padded(s, n);
            |t| == (if |s| >= n then |s| else n) && AllDigits(t, b) && Number(t, b) == Number(s, b)
    decreases n - |s|
  {
    if |s| >= n {
    } else {
      ZeroInFront(s, b);
      PaddedRead("0" + s, b, n);
    }
  }

  lemma PrintRead(k: Kind, v: nat)
    requires InRange(k, v) && (k.Hex? ==> k.n > 0)
    ensures var s := Print(k, v);
            s != [] && AllDigits(s, Radix(k)) && Number(s, Radix(k)) == v && (k.Hex? ==> |s| == k.n)
  {
    DigitsRead(v, Radix(k));
    PaddedRead(Digits(v, Radix(k)), Radix(k), if k.Hex? then k.n else 1);
    if k.Hex? {
      DigitsLength(v, 16, k.n);
    }
  }

  lemma {:induction false} SpanAll(s: string, rest: string, b: nat, limit: nat)
    requires AllDigits(s, b) && limit >= |s|
    requires limit == |s| || rest == [] || DigitValue(rest[0]) >= b
    ensures Span(s + rest, b, limit) == |s|
  {
    if s == [] {
      assert s + rest == rest;
    } else {
      assert (s + rest)[1..] == s[1..] + rest;
      SpanAll(s[1..], rest, b, limit - 1);
    }
  }

  lemma {:induction false} SkipGap(gap: string, s: string)
    requires AllWhite(gap) && (s == [] || !White(s[0]))
    ensures SkipWhite(gap + s) == s
  {
    if gap == [] {
      assert gap + s == s;
    } else {
      assert (gap + s)[1..] == gap[1..] + s;
      SkipGap(gap[1..], s);
    }
  }

  lemma ExpectAfterGap(gap: string, literal: string, rest: string)
    requires AllWhite(gap) && literal != [] && !White(literal[0])
    ensures Expect(gap + (literal + rest), literal) == Some(rest)
  {
    SkipGap(gap, literal + rest);
    assert (literal + rest)[|literal|..] == rest;
  }

  lemma DigitNeitherWhiteNorSign(c: char)
    requires DigitValue(c) < 16
    ensures !White(c) && c != '+' && c != '-' && c != 'x' && c != 'X'
  {
  }

  /** A printed number, after a gap and before something that is not a digit, is read back. */
  lemma ConvertPrinted(k: Kind, v: nat, gap: string, rest: string)
    requires InRange(k, v) && (k.Hex? ==> 2 <= k.n <= 4) && AllWhite(gap)
    requires rest != [] && DigitValue(rest[0]) >= 16 && rest[0] != 'x' && rest[0] != 'X'
    ensures Convert(k, gap + (Print(k, v) + rest)) == Converted(v, rest)
  {
    hide Number, Print, Convert, InRange, DigitValue, AllDigits;
    var s := Print(k, v);
    PrintRead(k, v);
    ConvertNumber(k, gap, "", "", s, rest);
    assert "" + ("" + (s + rest)) == s + rest;
    HeldInRange(k, v);
  }

  /** White space is the blank and the control characters from 9 to 13. */
  lemma WhiteCharacters(c: char)
    ensures White(c) <==> c as int == 32 || 9 <= c as int <= 13
  {
    assert '\t' as int == 9 && '\r' as int == 13 && ' ' as int == 32;
  }

  /** A digit counts the same in either case, and no other character is one. */
  lemma DigitsOfBothCases(c: char, d: nat)
    requires d < 16
    ensures DigitValue(c) == d <==> c == "0123456789abcdef"[d] || c == "0123456789ABCDEF"[d]
  {
  }

  /**
   * A number may have a sign and, in hexadecimal, a prefix; both count towards the width. What follows the
   * digits is left over.
   */
  lemma ConvertNumber(k: Kind, gap: string, sign: string, prefix: string, s: string, rest: string)
    requires AllWhite(gap) && (sign == "" || sign == "+" || sign == "-")
    requires prefix == "" || (k.Hex? && (prefix == "0x" || prefix == "0X"))
    requires s != [] && AllDigits(s, Radix(k)) && (k.Hex? ==> |sign| + |prefix| + |s| <= k.n)
    requires rest == [] || (DigitValue(rest[0]) >= Radix(k) && rest[0] != 'x' && rest[0] != 'X')
    ensures var v: int := Number(s, Radix(k));
            Convert(k, gap + (sign + (prefix + (s + rest))))
            == Converted(Held(k, if sign == "-" then -v else v), rest)
  {
    hide Number, Held, AllWhite, SkipWhite, ConvertDigits, AllDigits;
    var t1 := prefix + (s + rest);
    var t := sign + t1;
    FirstCharacter(s, Radix(k));
    assert !White(t[0]) && (sign == "" ==> t == t1) && (sign != "" ==> t[1..] == t1);
    SkipGap(gap, t);
    DigitsConverted(k, prefix, s, rest, (if k.Hex? then k.n else |t|) - |sign|, sign == "-");
  }

  lemma DigitsConverted(k: Kind, prefix: string, s: string, rest: string, limit: nat, negative: bool)
    requires prefix == "" || (k.Hex? && (prefix == "0x" || prefix == "0X"))
    requires s != [] && AllDigits(s, Radix(k)) && |prefix| + |s| <= limit
    requires rest == [] || (DigitValue(rest[0]) >= Radix(k) && rest[0] != 'x' && rest[0] != 'X')
    ensures var v: int := Number(s, Radix(k));
            ConvertDigits(k, prefix + (s + rest), limit, negative)
            == Converted(Held(k, if negative then -v else v), rest)
  {
    hide Number, Held, DigitValue, ConvertSpan, AllDigits;
    var t := prefix + (s + rest);
    SpanConverted(k, s, rest, limit - |prefix|, negative);
    if prefix == "" {
      assert t == s + rest;
      NotPrefixed(k, s, rest, limit);
    } else {
      assert t[2..] == s + rest;
    }
  }

  lemma NotPrefixed(k: Kind, s: string, rest: string, limit: nat)
    requires s != [] && AllDigits(s, Radix(k)) && (rest == [] || (rest[0] != 'x' && rest[0] != 'X'))
    ensures !Prefixed(k, s + rest, limit)
  {
    if |s| >= 2 {
      FirstCharacter(s[1..], Radix(k));
      assert (s + rest)[1] == s[1..][0];
    }
  }

  lemma SpanConverted(k: Kind, s: string, rest: string, limit: nat, negative: bool)
    requires s != [] && AllDigits(s, Radix(k)) && |s| <= limit && (rest == [] || DigitValue(rest[0]) >= Radix(k))
    ensures var v: int := Number(s, Radix(k));
            ConvertSpan(k, s + rest, limit, negative) == Converted(Held(k, if negative then -v else v), rest)
  {
    hide Number, Span, Held, DigitValue, AllDigits;
    SpanAll(s, rest, Radix(k), limit);
    assert (s + rest)[..|s|] == s && (s + rest)[|s|..] == rest;
  }

  lemma FirstCharacter(s: string, b: nat)
    requires s != [] && AllDigits(s, b) && b <= 16
    ensures !White(s[0]) && s[0] != '+' && s[0] != '-' && s[0] != 'x' && s[0] != 'X'
  {
    DigitNeitherWhiteNorSign(s[0]);
  }

  lemma HeldInRange(k: Kind, v: nat)
    requires InRange(k, v)
    ensures Held(k, v) == v
  {
    hide Power;
    if k.Hex? {
      SmallMod(v, Power(16, k.n));
    }
  }

  lemma SmallMod(v: nat, m: nat)
    requires v < m
    ensures v % m == v
  {
  }

  /** The white space or the separator that follows a value. */
  lemma AfterValue(gap: string, separator: string, rest: string)
    requires AllWhite(gap) && (separator == "," || separator == "}")
    ensures var s := gap + (separator + rest);
            s != [] && DigitValue(s[0]) >= 16 && s[0] != 'x' && s[0] != 'X'
  {
    var s := gap + (separator + rest);
    if gap == [] {
      assert s[0] == separator[0];
    } else {
      assert s[0] == gap[0];
    }
  }

  lemma {:induction false} FieldsRead(fs: seq<Field>, vs: seq<nat>, gs: seq<Gap>)
    requires |fs| == |vs| == |gs|
    requires forall i | 0 <= i < |fs| :: GoodField(fs[i]) && InRange(fs[i].kind, vs[i]) && gs[i].Blank()
    ensures ScanFields(fs, Fields(fs, vs, gs)) == vs
  {
    hide Convert, Print, Expect, AllWhite, White, DigitValue, InRange;
    if fs == [] {
    } else {
      var f, v, g := fs[0], vs[0], gs[0];
      assert GoodField(f) && g.Blank() && InRange(f.kind, v);
      var after := Fields(fs[1..], vs[1..], gs[1..]);
      var tail := g.d + (Separator(fs) + after);
      var value := g.c + (Print(f.kind, v) + tail);
      NamesVisible(Separator(fs));
      NamesVisible(":");
      FieldRead(f, v, g, tail, Separator(fs), after);
      ExpectAfterGap(g.d, Separator(fs), after);
      FieldsRead(fs[1..], vs[1..], gs[1..]);
      assert vs == [vs[0]] + vs[1..];
    }
  }

  lemma NamesVisible(s: string)
    requires s == "," || s == "}" || s == ":"
    ensures !White(s[0])
  {
  }

  lemma FieldRead(f: Field, v: nat, g: Gap, tail: string, separator: string, after: string)
    requires GoodField(f) && InRange(f.kind, v) && g.Blank()
    requires (separator == "," || separator == "}") && tail == g.d + (separator + after)
    ensures ScanField(f, g.a + (f.name + (g.b + (":" + (g.c + (Print(f.kind, v) + tail)))))) == Converted(v, tail)
  {
    hide Convert, Print, Expect, AllWhite, DigitValue, InRange;
    var value := g.c + (Print(f.kind, v) + tail);
    ExpectAfterGap(g.a, f.name, g.b + (":" + value));
    NamesVisible(":");
    ExpectAfterGap(g.b, ":", value);
    AfterValue(g.d, separator, after);
    ConvertPrinted(f.kind, v, g.c, tail);
  }

  predicate Valid(vs: seq<nat>) {
    |vs| == |FIELDS| && forall i | 0 <= i < |FIELDS| :: InRange(FIELDS[i].kind, vs[i])
  }

  /** Whatever white space is put around the tokens, all 23 values are read back. */
  lemma SpacedTextRead(vs: seq<nat>, gs: seq<Gap>)
    requires Valid(vs) && |gs| == |FIELDS| && forall g | g in gs :: g.Blank()
    ensures Scanned(Spaced(vs, gs)) == vs
  {
    FieldsGood();
    hide ScanFields, Fields, InRange;
    FieldsRead(FIELDS, vs, gs);
    assert Spaced(vs, gs)[1..] == Fields(FIELDS, vs, gs);
  }

  lemma RoundTrip(vs: seq<nat>)
    requires Valid(vs)
    ensures Scanned(Written(vs)) == vs
  {
    SpacedTextRead(vs, seq(|FIELDS|, _ => NO_GAP));
  }

  // The processor -----------------------------------------------------------------------------------

  function Flags(p: Status, i: nat): bool {
    if i < 12 then
      if i < 10 then if i == 8 then p.RST else p.IRQ else if i == 10 then p.NMI else p.STP
    else if i < 16 then
      if i < 14 then if i == 12 then p.CRASH else p.C else if i == 14 then p.Z else p.I
    else if i < 20 then
      if i < 18 then if i == 16 then p.D else p.XB else if i == 18 then p.M else p.V
    else if i == 20 then p.N else p.E
  }

  function Register(cpu: Processor, i: nat): nat
    reads cpu
  {
    if i < 4 then
      if i < 2 then if i == 0 then cpu.C else cpu.X else if i == 2 then cpu.Y else cpu.SP
    else if i < 6 then if i == 4 then cpu.D else cpu.DBR
    else if i == 6 then cpu.PBR else cpu.PC
  }

  /** The value saved in field `i`. */
  function Item(cpu: Processor, i: nat): (v: nat)
    reads cpu
    ensures v < Limit(i)
  {
    if i < 8 then Register(cpu, i) else if i < 22 then Bit(Flags(cpu.P, i)) else cpu.cycles
  }

  function Saved(cpu: Processor): (vs: seq<nat>)
    reads cpu
    ensures |vs| == |FIELDS| && forall i | 0 <= i < |vs| :: vs[i] == Item(cpu, i)
  {
    seq(|FIELDS|, i requires 0 <= i < |FIELDS| reads cpu => Item(cpu, i))
  }

  /** The values a field can have, without the powers. */
  function Limit(i: nat): nat {
    if i < 5 || i == 7 then 0x1_0000 else if i < 7 then 0x100 else if i < 22 then 2 else 0x1_0000_0000_0000_0000
  }

  lemma Limits(i: nat, v: int)
    requires i < 23
    ensures InRange(FIELDS[i].kind, v) <==> 0 <= v < Limit(i)
  {
    assert Power(16, 2) == 0x100;
    assert Power(16, 4) == 0x1_0000 by {
      assert Power(16, 4) == 16 * (16 * Power(16, 2));
    }
  }

  lemma SavedValid(cpu: Processor)
    ensures Valid(Saved(cpu))
  {
    hide InRange;
    forall i | 0 <= i < 23 ensures InRange(FIELDS[i].kind, Saved(cpu)[i]) {
      Limits(i, Saved(cpu)[i]);
    }
  }

  /** What was read, with the widths the fields have. */
  lemma ScannedBelow(text: string)
    ensures forall i | 0 <= i < |Scanned(text)| :: 0 <= Scanned(text)[i] < Limit(i)
  {
    hide Scanned, Limit, InRange;
    forall i | 0 <= i < |Scanned(text)| ensures 0 <= Scanned(text)[i] < Limit(i) {
      Limits(i, Scanned(text)[i]);
    }
  }

  // What the text looks like --------------------------------------------------------------------------

  /** The last `n` digits of a number. */
  function LastDigits(v: nat, b: nat, n: nat): string
    requires 2 <= b <= 16
  {
    if n == 0 then "" else LastDigits(v / b, b, n - 1) + ["0123456789abcdef"[v % b]]
  }

  lemma {:induction false} PaddedAppend(s: string, c: char, n: nat)
    requires n > 0
    ensures Padded(s + [c], n) == Padded(s, n - 1) + [c]
    decreases n - |s|
  {
    if |s| + 1 >= n {
    } else {
      assert "0" + (s + [c]) == ("0" + s) + [c];
      PaddedAppend("0" + s, c, n);
    }
  }

  lemma {:induction false} Zeros(b: nat, n: nat)
    requires 2 <= b <= 16
    ensures LastDigits(0, b, n) == Padded("", n)
  {
    if n == 0 {
    } else {
      Zeros(b, n - 1);
      PaddedAppend("", '0', n);
      assert "0" + "" == "" + ['0'];
    }
  }

  /** Printing with a width shows as many digits, with zeros in front. */
  lemma {:induction false} PrintedDigits(v: nat, b: nat, n: nat)
    requires 2 <= b <= 16 && n > 0 && v < Power(b, n)
    ensures Padded(Digits(v, b), n) == LastDigits(v, b, n)
    decreases n
  {
    hide Padded, LastDigits, Power;
    var c := DigitChar(v % b);
    LastDigit(v, b, n);
    if v < b {
      OneDigit(v, b);
      Zeros(b, n - 1);
      PaddedAppend("", c, n);
    } else {
      assert Digits(v, b) == Digits(v / b, b) + [c];
      hide Digits;
      PowerSplit(v, b, n);
      PrintedDigits(v / b, b, n - 1);
      PaddedAppend(Digits(v / b, b), c, n);
    }
  }

  lemma LastDigit(v: nat, b: nat, n: nat)
    requires 2 <= b <= 16 && n > 0
    ensures LastDigits(v, b, n) == LastDigits(v / b, b, n - 1) + [DigitChar(v % b)]
  {
  }

  lemma OneDigit(v: nat, b: nat)
    requires v < b && 2 <= b <= 16
    ensures v / b == 0 && Digits(v, b) == "" + [DigitChar(v % b)]
  {
    SmallMod(v, b);
    assert b * (v / b) == v - v % b;
    hide DigitChar;
  }

  lemma PowerSplit(v: nat, b: nat, n: nat)
    requires 2 <= b <= v && n > 0 && v < Power(b, n)
    ensures n > 1 && v / b < Power(b, n - 1)
  {
    assert Power(b, 0) == 1;
    Quotient(v, b, Power(b, n - 1));
  }

  function FlagText(b: bool): string { if b then "1" else "0" }

  /** The 23 parts of the text, each the name of a register or flag and its value. */
  function Parts(cpu: Processor): seq<string>
    reads cpu
  {
    ["C:" + LastDigits(cpu.C, 16, 4), "X:" + LastDigits(cpu.X, 16, 4), "Y:" + LastDigits(cpu.Y, 16, 4),
     "SP:" + LastDigits(cpu.SP, 16, 4), "D:" + LastDigits(cpu.D, 16, 4), "DBR:" + LastDigits(cpu.DBR, 16, 2),
     "PBR:" + LastDigits(cpu.PBR, 16, 2), "PC:" + LastDigits(cpu.PC, 16, 4), "RST:" + FlagText(cpu.P.RST),
     "IRQ:" + FlagText(cpu.P.IRQ), "NMI:" + FlagText(cpu.P.NMI), "STP:" + FlagText(cpu.P.STP),
     "CRASH:" + FlagText(cpu.P.CRASH), "PSC:" + FlagText(cpu.P.C), "PSZ:" + FlagText(cpu.P.Z),
     "PSI:" + FlagText(cpu.P.I), "PSD:" + FlagText(cpu.P.D), "PSXB:" + FlagText(cpu.P.XB),
     "PSM:" + FlagText(cpu.P.M), "PSV:" + FlagText(cpu.P.V), "PSN:" + FlagText(cpu.P.N),
     "PSE:" + FlagText(cpu.P.E), "cycles:" + Digits(cpu.cycles, 10)]
  }

  function Joined(parts: seq<string>): string {
    if parts == [] then "" else if |parts| == 1 then parts[0] + "}" else parts[0] + "," + Joined(parts[1..])
  }

  lemma RegisterPart(cpu: Processor, i: nat)
    requires i < 8
    ensures Parts(cpu)[i] == FIELDS[i].name + ":" + Print(FIELDS[i].kind, Item(cpu, i))
  {
    hide Digits, Padded, LastDigits, Power;
    Limits(i, Item(cpu, i));
    PrintedDigits(Item(cpu, i), 16, FIELDS[i].kind.n);
    assert i == 0 || i == 1 || i == 2 || i == 3 || i == 4 || i == 5 || i == 6 || i == 7;
  }

  lemma FlagPrinted(b: bool)
    ensures Print(Flag, Bit(b)) == FlagText(b)
  {
    assert Digits(Bit(b), 10) == [DigitChar(Bit(b))];
  }

  lemma FlagPart(cpu: Processor, i: nat)
    requires 8 <= i < 22
    ensures Parts(cpu)[i] == FIELDS[i].name + ":" + Print(FIELDS[i].kind, Item(cpu, i))
  {
    hide Print, FlagText;
    FlagPrinted(Flags(cpu.P, i));
    if i < 12 {
      FirstFlags(cpu, i);
    } else if i < 17 {
      MiddleFlags(cpu, i);
    } else {
      LastFlags(cpu, i);
    }
  }

  lemma FirstFlags(cpu: Processor, i: nat)
    requires 8 <= i < 12
    ensures FIELDS[i].kind == Flag && Parts(cpu)[i] == FIELDS[i].name + ":" + FlagText(Flags(cpu.P, i))
  {
    hide FlagText, LastDigits, Digits;
    assert i == 8 || i == 9 || i == 10 || i == 11;
  }

  lemma MiddleFlags(cpu: Processor, i: nat)
    requires 12 <= i < 17
    ensures FIELDS[i].kind == Flag && Parts(cpu)[i] == FIELDS[i].name + ":" + FlagText(Flags(cpu.P, i))
  {
    hide FlagText, LastDigits, Digits;
    assert i == 12 || i == 13 || i == 14 || i == 15 || i == 16;
  }

  lemma LastFlags(cpu: Processor, i: nat)
    requires 17 <= i < 22
    ensures FIELDS[i].kind == Flag && Parts(cpu)[i] == FIELDS[i].name + ":" + FlagText(Flags(cpu.P, i))
  {
    hide FlagText, LastDigits, Digits;
    assert i == 17 || i == 18 || i == 19 || i == 20 || i == 21;
  }

  lemma CountPart(cpu: Processor)
    ensures Parts(cpu)[22] == FIELDS[22].name + ":" + Print(FIELDS[22].kind, Item(cpu, 22))
  {
    DigitsRead(cpu.cycles, 10);
    hide Digits, LastDigits;
  }

  lemma {:induction false} FieldsJoined(fs: seq<Field>, vs: seq<nat>, gs: seq<Gap>, parts: seq<string>)
    requires |fs| == |vs| == |gs| == |parts| && forall i | 0 <= i < |gs| :: gs[i] == NO_GAP
    requires forall i | 0 <= i < |fs| :: parts[i] == fs[i].name + ":" + Print(fs[i].kind, vs[i])
    ensures Fields(fs, vs, gs) == Joined(parts)
  {
    hide Print;
    if fs == [] {
    } else {
      var after := Fields(fs[1..], vs[1..], gs[1..]);
      FieldsJoined(fs[1..], vs[1..], gs[1..], parts[1..]);
      OneField(fs[0].name, Print(fs[0].kind, vs[0]), Separator(fs), after);
      assert Fields(fs, vs, gs) == parts[0] + Separator(fs) + after;
    }
  }

  lemma OneField(name: string, value: string, separator: string, after: string)
    ensures "" + (name + ("" + (":" + ("" + (value + ("" + (separator + after)))))))
            == (name + ":" + value) + separator + after
  {
  }

  /** The text names every register and flag, in this order, with its value. */
  lemma WrittenText(cpu: Processor)
    ensures Written(Saved(cpu)) == "{" + Joined(Parts(cpu))
  {
    hide Parts, Print, Item, Joined, Fields;
    assert |Parts(cpu)| == 23 by { PartsSize(cpu); }
    forall i | 0 <= i < 23 ensures Parts(cpu)[i] == FIELDS[i].name + ":" + Print(FIELDS[i].kind, Saved(cpu)[i]) {
      if i < 8 {
        RegisterPart(cpu, i);
      } else if i < 22 {
        FlagPart(cpu, i);
      } else {
        CountPart(cpu);
      }
    }
    FieldsJoined(FIELDS, Saved(cpu), seq(|FIELDS|, _ => NO_GAP), Parts(cpu));
  }

  lemma PartsSize(cpu: Processor)
    ensures |Parts(cpu)| == 23
  {
  }

  method ToText(cpu: Processor) returns (text: string)
    ensures text == Written(Saved(cpu)) == "{" + Joined(Parts(cpu))
  {
    text := Written(Saved(cpu));
    WrittenText(cpu);
  }

  datatype Code = Ok | ParseError

  /**
   * Loads what the text holds. The registers and the cycle count are stored as they are converted; the
   * flags pass through variables that hold anything until then, and are all stored at the end.
   */
  method FromText(cpu: Processor, text: string) returns (code: Code)
    modifies cpu
    ensures cpu.setacc == old(cpu.setacc) && cpu.copVect == old(cpu.copVect)
    ensures code == if |Scanned(text)| == 23 then Ok else ParseError
    ensures forall i | 0 <= i < |Scanned(text)| :: Saved(cpu)[i] == Scanned(text)[i]
    ensures forall i | |Scanned(text)| <= i < 23 && (i < 8 || i == 22) :: Saved(cpu)[i] == old(Saved(cpu))[i]
  {
    hide Scanned, Item, Limit;
    ScannedBelow(text);
    var vs, n := Scanned(text), |Scanned(text)|;
    StoreRegisters(cpu, vs);
    StoreFlags(cpu, vs);
    code := if n == 23 then Ok else ParseError;
  }

  method StoreRegisters(cpu: Processor, vs: seq<int>)
    requires |vs| <= 23 && forall i | 0 <= i < |vs| :: 0 <= vs[i] < Limit(i)
    modifies cpu`C, cpu`X, cpu`Y, cpu`SP, cpu`D, cpu`DBR, cpu`PBR, cpu`PC, cpu`cycles
    ensures forall i | 0 <= i < 8 || i == 22 :: Item(cpu, i) == if i < |vs| then vs[i] else old(Item(cpu, i))
  {
    var n := |vs|;
    cpu.C, cpu.X := if n > 0 then vs[0] else cpu.C, if n > 1 then vs[1] else cpu.X;
    cpu.Y, cpu.SP := if n > 2 then vs[2] else cpu.Y, if n > 3 then vs[3] else cpu.SP;
    cpu.D, cpu.DBR := if n > 4 then vs[4] else cpu.D, if n > 5 then vs[5] else cpu.DBR;
    cpu.PBR, cpu.PC := if n > 6 then vs[6] else cpu.PBR, if n > 7 then vs[7] else cpu.PC;
    cpu.cycles := if n > 22 then vs[22] else cpu.cycles;
  }

  predicate IsSet(vs: seq<int>, i: int, unset: bool) { if 0 <= i < |vs| then vs[i] == 1 else unset }

  function FlagsRead(vs: seq<int>, u: Status): Status {
    Status(
      RST := IsSet(vs, 8, u.RST), IRQ := IsSet(vs, 9, u.IRQ), NMI := IsSet(vs, 10, u.NMI), STP := IsSet(vs, 11, u.STP),
      CRASH := IsSet(vs, 12, u.CRASH), C := IsSet(vs, 13, u.C), Z := IsSet(vs, 14, u.Z), I := IsSet(vs, 15, u.I),
      D := IsSet(vs, 16, u.D), XB := IsSet(vs, 17, u.XB), M := IsSet(vs, 18, u.M), V := IsSet(vs, 19, u.V),
      N := IsSet(vs, 20, u.N), E := IsSet(vs, 21, u.E))
  }

  lemma FlagStored(vs: seq<int>, u: Status, i: int)
    requires 8 <= i < 22
    ensures Flags(FlagsRead(vs, u), i) == IsSet(vs, i, Flags(u, i))
  {
    hide IsSet;
    if i < 12 {
      assert i == 8 || i == 9 || i == 10 || i == 11;
    } else if i < 16 {
      assert i == 12 || i == 13 || i == 14 || i == 15;
    } else {
      assert i == 16 || i == 17 || i == 18 || i == 19 || i == 20 || i == 21;
    }
  }

  method StoreFlags(cpu: Processor, vs: seq<int>)
    requires |vs| <= 23 && forall i | 0 <= i < |vs| :: 0 <= vs[i] < Limit(i)
    modifies cpu`P
    ensures forall i | 8 <= i < 22 && i < |vs| :: Item(cpu, i) == vs[i]
    ensures forall i | 0 <= i < 8 || i == 22 :: Item(cpu, i) == old(Item(cpu, i))
  {
    hide Limit, Flags, FlagsRead;
    var unset: Status := *;
    cpu.P := FlagsRead(vs, unset);
    forall i | 8 <= i < 22 && i < |vs| ensures Item(cpu, i) == vs[i] {
      FlagStored(vs, unset, i);
      FlagLimit(i);
    }
  }

  lemma FlagLimit(i: nat)
    requires 8 <= i < 22
    ensures Limit(i) == 2
  {
  }

  /** Saving one processor and loading it into another copies all 23 values and reports success. */
  method SaveAndLoad(source: Processor, target: Processor) returns (code: Code)
    modifies target
    ensures code == Ok && Saved(target) == old(Saved(source))
  {
    hide Scanned, Written, Valid;
    var text := ToText(source);
    SavedValid(source);
    RoundTrip(Saved(source));
    code := FromText(target, text);
  }
}
