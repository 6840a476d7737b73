/**
 The stack is last-in first-out: what is pulled is what was pushed, however pushes and pulls nest and
 wherever they wrap around.
 */
module Stack {
  import opened Words
  import opened Machine

  /** What can be pushed; `page1` words belong to instructions that keep to page 1 in emulation mode. */
  datatype Item = Byte(b: byte) | Word(w: word, page1: bool) | Long(l: addr)
  {
    function Size(): nat { if Byte? then 1 else if Word? then 2 else 3 }

    function Value(): addr { if Byte? then b else if Word? then w else l }
  }

  function Push(s: State, i: Item): State {
    match i
    case Byte(b) => PushByte(s, b)
    case Word(w, page1) => PushWord(s, w, page1)
    case Long(l) => PushLong(s, l)
  }

  /** Pulling an item of the same kind as `i`. */
  function Top(s: State, i: Item): addr {
    match i
    case Byte(_) => TopByte(s)
    case Word(_, page1) => TopWord(s, page1)
    case Long(_) => TopLong(s)
  }

  function Drop(s: State, i: Item): State {
    match i
    case Byte(_) => DropByte(s)
    case Word(_, page1) => DropWord(s, page1)
    case Long(_) => DropLong(s)
  }

  /** How many bytes the stack holds before it comes round to where it started. */
  function Room(e: bool): nat { if e then 0x100 else 0x1_0000 }

  /** How far the stack goes down from `sp` before it reaches offset `a`. */
  function Distance(e: bool, sp: word, a: int): int { if a <= sp then sp - a else sp - a + Room(e) }

  /**
   * The cells of the `depth` stack bytes below and at `sp`. Offset 0 of the stack has two cells, because
   * the high byte of a word that ends there lands at the start of bank 1.
   */
  predicate Window(e: bool, sp: word, depth: int, a: addr) {
    if e then 0x100 <= a < 0x200 && Distance(e, sp, a) < depth
    else if a < 0x1_0000 then Distance(e, sp, a) < depth
    else a == 0x1_0000 && sp < depth
  }

  /** The stack pointer, inside page 1 in emulation mode. */
  predicate Placed(e: bool, sp: word) { e ==> 0x100 <= sp < 0x200 }

  function Below(e: bool, sp: word, n: nat): word
    requires Placed(e, sp) && n <= Room(e)
  {
    var low := if e then 0x100 else 0;
    if sp - n >= low then sp - n else sp - n + Room(e)
  }

  /** In emulation mode only page-1 instructions may wrap around the page. */
  predicate HasRoom(e: bool, sp: word, i: Item) {
    Placed(e, sp) && (e ==> (i.Word? && !i.page1 ==> sp >= 0x102) && (i.Long? ==> sp >= 0x103))
  }

  ghost predicate SameOutside(e: bool, sp: word, depth: int, m: Bytes, m': Bytes) {
    forall a: addr | !Window(e, sp, depth, a) :: m'[a] == m[a]
  }

  ghost predicate SameInside(e: bool, sp: word, depth: int, m: Bytes, m': Bytes) {
    forall a: addr | Window(e, sp, depth, a) :: m'[a] == m[a]
  }

  lemma SpDown(s: State, n: nat)
    requires Placed(s.P.E, s.SP) && n <= 3
    ensures s.SetSp(s.SP - n) == s.(SP := Below(s.P.E, s.SP, n))
  {
    if s.P.E {
      assert Low(s.SP - n) == if s.SP - n >= 0x100 then s.SP - n - 0x100 else s.SP - n;
    }
  }

  lemma SpUp(s: State, sp: word, n: nat)
    requires Placed(s.P.E, sp) && n <= 3 && s.SP == Below(s.P.E, sp, n)
    ensures s.SetSp(s.SP + n) == s.(SP := sp)
  {
    if s.P.E {
      assert Low(s.SP + n) == sp - 0x100;
    }
  }

  /** The k-th cell above the stack pointer once `n` bytes were pushed without regard for page 1. */
  lemma CellAbove(e: bool, sp: word, n: nat, k: nat)
    requires HasRoom(e, sp, Word(0, false)) && 2 <= n <= 3 && (e && n == 3 ==> sp >= 0x103) && k <= n
    ensures At(0, Below(e, sp, n) + k) == if k == n then sp else Below(false, sp, n - k)
  {
    hide At;
    AtNearZero(Below(e, sp, n) + k);
  }

  lemma CellBelow(sp: word, k: nat)
    requires k <= 2
    ensures At(0, sp - k) == Below(false, sp, k)
  {
    hide At;
    AtNearZero(sp - k);
  }

  /** The cells of a word pushed without regard for page 1. */
  lemma WordWindow(e: bool, sp: word, n: nat)
    requires HasRoom(e, sp, Word(0, false)) && 2 <= n <= 3 && (e && n == 3 ==> sp >= 0x103)
    ensures var lo := Below(false, sp, n - 1);
            && Window(e, sp, n, lo) && Window(e, sp, n, lo + 1)
            && !Window(e, sp, n - 2, lo) && !Window(e, sp, n - 2, lo + 1)
  {
  }

  lemma ByteEffect(s: State, v: byte)
    requires Placed(s.P.E, s.SP)
    ensures var t := PushByte(s, v);
            t == s.(SP := Below(s.P.E, s.SP, 1), m := t.m) && SameOutside(s.P.E, s.SP, 1, s.m, t.m)
    ensures Window(s.P.E, s.SP, 1, s.SP) && PushByte(s, v).m[s.SP] == v
  {
    SpDown(s.(m := s.m[s.SP := v]), 1);
  }

  /** A word pushed as two bytes inside page 1. */
  lemma PageWordEffect(s: State, v: word)
    requires s.P.E && Placed(true, s.SP)
    ensures var t := PushWord(s, v, true);
            && t == s.(SP := Below(true, s.SP, 2), m := t.m) && SameOutside(true, s.SP, 2, s.m, t.m)
            && t.m[s.SP] == High(v) && t.m[Below(true, s.SP, 1)] == Low(v)
    ensures Window(true, s.SP, 2, s.SP) && Window(true, s.SP, 2, Below(true, s.SP, 1))
  {
    hide Low, High, PushByte;
    ByteEffect(s, High(v));
    ByteEffect(PushByte(s, High(v)), Low(v));
  }

  lemma WordEffect(s: State, v: word)
    requires HasRoom(s.P.E, s.SP, Word(v, false))
    ensures var t := PushWord(s, v, false);
            && t == s.(SP := Below(s.P.E, s.SP, 2), m := t.m) && SameOutside(s.P.E, s.SP, 2, s.m, t.m)
            && WordAt(t.m, At(0, s.SP - 1)) == v
  {
    hide At;
    WordWindow(s.P.E, s.SP, 2);
    CellBelow(s.SP, 1);
    CellAbove(s.P.E, s.SP, 2, 1);
    SpDown(s.(m := StoreWord(s.m, At(0, s.SP - 1), v)), 2);
    PairSplit(v);
  }

  /** Three bytes stored in three cells. */
  lemma StoredLong(m: Bytes, top: word, lo: word, v: addr)
    requires lo != top && lo + 1 != top
    ensures var m' := StoreWord(m[top := v / 0x1_0000], lo, v % 0x1_0000);
            && WordAt(m', lo) == v % 0x1_0000 && m'[top] == v / 0x1_0000
            && forall a: addr | a != top && a != lo && a != lo + 1 :: m'[a] == m[a]
  {
    assert Linear(lo + 1) == lo + 1;
    hide Low, High, Pair, Linear;
    PairSplit(v % 0x1_0000);
  }

  lemma LongEffect(s: State, v: addr)
    requires HasRoom(s.P.E, s.SP, Long(v))
    ensures var t := PushLong(s, v);
            && t == s.(SP := Below(s.P.E, s.SP, 3), m := t.m) && SameOutside(s.P.E, s.SP, 3, s.m, t.m)
            && WordAt(t.m, At(0, s.SP - 2)) == v % 0x1_0000 && t.m[s.SP] == v / 0x1_0000
            && Window(s.P.E, s.SP, 3, s.SP)
  {
    hide At, StoreWord, WordAt;
    WordWindow(s.P.E, s.SP, 3);
    CellBelow(s.SP, 2);
    CellAbove(s.P.E, s.SP, 3, 1);
    CellAbove(s.P.E, s.SP, 3, 3);
    StoredLong(s.m, s.SP, At(0, s.SP - 2), v);
    SpDown(PushLong(s, v).(SP := s.SP), 3);
  }

  lemma PushEffect(s: State, i: Item)
    requires HasRoom(s.P.E, s.SP, i)
    ensures Push(s, i) == s.(SP := Below(s.P.E, s.SP, i.Size()), m := Push(s, i).m)
    ensures SameOutside(s.P.E, s.SP, i.Size(), s.m, Push(s, i).m)
  {
    hide PushByte, PushLong, SameOutside, Below;
    match i {
      case Byte(b) => ByteEffect(s, b);
      case Word(w, page1) =>
        if s.P.E && page1 {
          hide PushWord;
          PageWordEffect(s, w);
        } else {
          WordEffect(s, w);
        }
      case Long(l) => LongEffect(s, l);
    }
  }

  lemma SameWord(m: Bytes, m': Bytes, a: word)
    requires m[a] == m'[a] && m[a + 1] == m'[a + 1]
    ensures WordAt(m, a) == WordAt(m', a)
  {
  }

  /** Whatever happens elsewhere, an item whose bytes are still there is pulled as it was pushed. */
  lemma PullPushed(s: State, i: Item, t: State)
    requires HasRoom(s.P.E, s.SP, i)
    requires t.P.E == s.P.E && t.SP == Below(s.P.E, s.SP, i.Size())
    requires SameInside(s.P.E, s.SP, i.Size(), Push(s, i).m, t.m)
    ensures Top(t, i) == i.Value() && Drop(t, i) == t.(SP := s.SP)
  {
    hide PushByte, PushLong, At, WordAt, Below, Window, TopByte, TopWord, TopLong, DropByte, DropWord, DropLong;
    match i {
      case Byte(b) => PullByte(s, b, t);
      case Word(w, page1) =>
        if s.P.E && page1 {
          PullPageWord(s, w, t);
        } else {
          assert PushWord(s, w, page1) == PushWord(s, w, false);
          hide PushWord;
          WordEffect(s, w);
          WordWindow(s.P.E, s.SP, 2);
          CellBelow(s.SP, 1);
          SameWord(PushWord(s, w, false).m, t.m, At(0, s.SP - 1));
          PullWord(s.P.E, s.SP, w, page1, t);
        }
      case Long(l) =>
        LongEffect(s, l);
        WordWindow(s.P.E, s.SP, 3);
        CellBelow(s.SP, 2);
        SameWord(PushLong(s, l).m, t.m, At(0, s.SP - 2));
        PullLong(s.P.E, s.SP, l % 0x1_0000, l / 0x1_0000, t);
    }
  }

  lemma PullByte(s: State, b: byte, t: State)
    requires Placed(s.P.E, s.SP) && t.P.E == s.P.E && t.SP == Below(s.P.E, s.SP, 1)
    requires SameInside(s.P.E, s.SP, 1, PushByte(s, b).m, t.m)
    ensures TopByte(t) == b && DropByte(t) == t.(SP := s.SP)
  {
    hide PushByte;
    ByteEffect(s, b);
    SpUp(t, s.SP, 1);
  }

  lemma SameAsPushed(e: bool, sp: word, m: Bytes)
    ensures SameInside(e, sp, 1, m, m)
  {
  }

  lemma PullPageWord(s: State, w: word, t: State)
    requires s.P.E && Placed(true, s.SP) && t.P.E && t.SP == Below(true, s.SP, 2)
    requires SameInside(true, s.SP, 2, PushWord(s, w, true).m, t.m)
    ensures TopWord(t, true) == w && DropWord(t, true) == t.(SP := s.SP)
  {
    hide PushWord, Low, High;
    PageWordEffect(s, w);
    SpUp(t, Below(true, s.SP, 1), 1);
    SpUp(t.(SP := Below(true, s.SP, 1)), s.SP, 1);
    PairSplit(w);
  }

  lemma PullWord(e: bool, sp: word, w: word, page1: bool, t: State)
    requires HasRoom(e, sp, Word(w, page1)) && !(e && page1)
    requires t.P.E == e && t.SP == Below(e, sp, 2) && WordAt(t.m, At(0, sp - 1)) == w
    ensures TopWord(t, page1) == w && DropWord(t, page1) == t.(SP := sp)
  {
    hide At, WordAt, Below, State.SetSp, Window;
    CellBelow(sp, 1);
    CellAbove(e, sp, 2, 1);
    SpUp(t, sp, 2);
  }

  lemma PullLong(e: bool, sp: word, low: word, bank: byte, t: State)
    requires HasRoom(e, sp, Long(0))
    requires t.P.E == e && t.SP == Below(e, sp, 3) && WordAt(t.m, At(0, sp - 2)) == low && t.m[sp] == bank
    ensures TopLong(t) == Triple(low, bank) && DropLong(t) == t.(SP := sp)
  {
    hide At, WordAt, Below, State.SetSp, Window;
    CellBelow(sp, 2);
    CellAbove(e, sp, 3, 1);
    CellAbove(e, sp, 3, 3);
    SpUp(t, sp, 3);
  }

  // Nesting ---------------------------------------------------------------------------------------

  /** A well-nested sequence of pushes, each matched by a later pull of the same kind. */
  datatype Script = Done | Nest(item: Item, body: Script, rest: Script)
  {
    function Depth(): nat {
      if Done? then 0
      else
        var inner := item.Size() + body.Depth();
        if inner >= rest.Depth() then inner else rest.Depth()
    }

    /** The values in the order their pulls come. */
    function Pulled(): seq<addr> { if Done? then [] else body.Pulled() + [item.Value()] + rest.Pulled() }

    /** In emulation mode every push that ignores page 1 stays clear of its bottom. */
    predicate Fits(e: bool, sp: word)
      requires Placed(e, sp) && Depth() <= Room(e)
    {
      Done? || (HasRoom(e, sp, item) && body.Fits(e, Below(e, sp, item.Size())) && rest.Fits(e, sp))
    }
  }

  datatype Outcome = Outcome(s: State, pulled: seq<addr>)

  function Perform(s: State, script: Script): Outcome
    decreases script
  {
    if script.Done? then Outcome(s, [])
    else
      var inner := Perform(Push(s, script.item), script.body);
      var after := Perform(Drop(inner.s, script.item), script.rest);
      Outcome(after.s, inner.pulled + [Top(inner.s, script.item)] + after.pulled)
  }

  /** The window of an item and what nests in it: the item's own cells, and below them the rest. */
  lemma Windows(e: bool, sp: word, n: nat, depth: nat, a: addr)
    requires Placed(e, sp) && n + depth <= Room(e)
    ensures Window(e, sp, n, a) ==> !Window(e, Below(e, sp, n), depth, a)
    ensures Window(e, sp, n, a) || Window(e, Below(e, sp, n), depth, a) ==> Window(e, sp, n + depth, a)
    ensures Placed(e, Below(e, sp, n))
  {
  }

  /**
   * Any well-nested sequence of pushes and pulls pulls the values in the reverse order of their pushes,
   * restores the stack pointer, and changes nothing but the stack bytes it went through. In native mode
   * it may go all the way around the bank, in emulation mode all the way around page 1.
   */
  lemma {:induction false} LastInFirstOut(s: State, script: Script)
    requires Placed(s.P.E, s.SP) && script.Depth() <= Room(s.P.E) && script.Fits(s.P.E, s.SP)
    ensures var o := Perform(s, script);
            && o.pulled == script.Pulled()
            && o.s == s.(m := o.s.m)
            && SameOutside(s.P.E, s.SP, script.Depth(), s.m, o.s.m)
    decreases script
  {
    hide Push, Top, Drop, Below, Window, HasRoom;
    if script.Done? {
    } else {
      var i, e := script.item, s.P.E;
      var inner := Perform(Push(s, i), script.body);
      PushEffect(s, i);
      Windows(e, s.SP, i.Size(), script.body.Depth(), 0);
      forall a: addr {
        Windows(e, s.SP, i.Size(), script.body.Depth(), a);
      }
      LastInFirstOut(Push(s, i), script.body);
      PullPushed(s, i, inner.s);
      LastInFirstOut(Drop(inner.s, i), script.rest);
      WindowGrows(e, s.SP, i.Size() + script.body.Depth(), script.Depth());
      WindowGrows(e, s.SP, i.Size(), script.Depth());
      WindowGrows(e, s.SP, script.rest.Depth(), script.Depth());
    }
  }

  lemma WindowGrows(e: bool, sp: word, n: nat, depth: nat)
    requires n <= depth
    ensures forall a: addr :: Window(e, sp, n, a) ==> Window(e, sp, depth, a)
  {
  }

  /** In emulation mode a push that ignores page 1 can be undone exactly when it stays inside the page. */
  lemma WordNeedsRoom(s: State)
    requires s.P.E && Placed(true, s.SP)
    ensures (forall v: word :: TopWord(PushWord(s, v, false), false) == v) <==> s.SP >= 0x102
  {
    if s.SP >= 0x102 {
      forall v: word ensures TopWord(PushWord(s, v, false), false) == v {
        WordEffect(s, v);
        PullWord(true, s.SP, v, false, PushWord(s, v, false));
      }
    } else {
      // What comes back was on the stack before, whatever is pushed.
      var v: word := if WordAt(s.m, s.SP + 0xff) == 0 then 1 else 0;
      WordLost(s, v);
      assert TopWord(PushWord(s, v, false), false) != v;
    }
  }

  lemma WordLost(s: State, v: word)
    requires s.P.E && 0x100 <= s.SP < 0x102
    ensures TopWord(PushWord(s, v, false), false) == WordAt(s.m, s.SP + 0xff)
  {
    hide At, Low, High;
    AtNearZero(s.SP - 1);
    SpDown(s.(m := StoreWord(s.m, At(0, s.SP - 1), v)), 2);
    AtNearZero(s.SP + 0xff);
  }

  lemma LongNeedsRoom(s: State)
    requires s.P.E && Placed(true, s.SP)
    ensures (forall v: addr :: TopLong(PushLong(s, v)) == v) <==> s.SP >= 0x103
  {
    if s.SP >= 0x103 {
      forall v: addr ensures TopLong(PushLong(s, v)) == v {
        LongEffect(s, v);
        PullLong(true, s.SP, v % 0x1_0000, v / 0x1_0000, PushLong(s, v));
      }
    } else {
      var kept := Triple(WordAt(s.m, s.SP + 0xfe), s.m[s.SP + 0x100]);
      var v: addr := if kept == 0 then 1 else 0;
      LongLost(s, v);
      assert TopLong(PushLong(s, v)) != v;
    }
  }

  lemma LongLost(s: State, v: addr)
    requires s.P.E && 0x100 <= s.SP < 0x103
    ensures TopLong(PushLong(s, v)) == Triple(WordAt(s.m, s.SP + 0xfe), s.m[s.SP + 0x100])
  {
    hide At, Low, High;
    AtNearZero(s.SP - 2);
    SpDown(PushLong(s, v).(SP := s.SP), 3);
    AtNearZero(s.SP + 0xfe);
    AtNearZero(s.SP + 0x100);
  }
}
