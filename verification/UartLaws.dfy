/**
 When the serial port interrupts and what a turn does to its bytes, in the numbers of the data sheet: the
 bits of its control registers, and the counts of received bytes.
 */
module UartLaws {
  import opened Words
  import opened Bits
  import opened Ring
  import opened Cpu
  import opened Uart
  import opened Inverses

  // Bits of the registers -----------------------------------------------------------------------------

  lemma HasBit(v: byte, n: nat)
    requires n < 8
    ensures Has(v, n) <==> v / Pow2(n) % 2 == 1
  {
    assert n == 0 || n == 1 || n == 2 || n == 3 || n == 4 || n == 5 || n == 6 || n == 7;
    assert Pow2(0) == 1 && Pow2(1) == 2 && Pow2(2) == 4 && Pow2(3) == 8;
    assert Pow2(4) == 16 && Pow2(5) == 32 && Pow2(6) == 64 && Pow2(7) == 128;
  }

  /** DLAB is the top bit of LCR, LOOP bit 4 of MCR; a write to FCR flushes with either of its low bits set. */
  lemma ControlBits(line: byte, modem: byte, fifo: Cell)
    ensures DivisorAccess(line) <==> line >= 0x80
    ensures Loopback(modem) <==> modem / 16 % 2 == 1
    ensures Flushes(fifo) <==> fifo.w && fifo.val % 4 != 0
  {
    assert [1, 2, 4, 8, 16, 32, 64, 128][0] == 1 && [1, 2, 4, 8, 16, 32, 64, 128][1] == 2;
    assert [1, 2, 4, 8, 16, 32, 64, 128][4] == 16 && [1, 2, 4, 8, 16, 32, 64, 128][7] == 128;
  }

  lemma HasIsBitAt(v: byte, n: nat)
    requires n < 8
    ensures Has(v, n) == BitAt(v, n)
  {
    HalvedBit(v, n);
    HalvedBit(v / 2, n - 1);
    HalvedBit(v / 4, n - 2);
    HalvedBit(v / 8, n - 3);
    HalvedBit(v / 16, n - 4);
    HalvedBit(v / 32, n - 5);
    HalvedBit(v / 64, n - 6);
    HalvedBit(v / 128, n - 7);
    hide BitAt;
    Halves(v);
    assert n == 0 || n == 1 || n == 2 || n == 3 || n == 4 || n == 5 || n == 6 || n == 7;
  }

  lemma Halves(v: byte)
    ensures v / 2 / 2 == v / 4 && v / 4 / 2 == v / 8 && v / 8 / 2 == v / 16 && v / 16 / 2 == v / 32
    ensures v / 32 / 2 == v / 64 && v / 64 / 2 == v / 128
  {
  }

  function OctetBit(o: Octet, n: nat): bool {
    if n < 4 then if n < 2 then if n == 0 then o.b0 else o.b1 else if n == 2 then o.b2 else o.b3
    else if n < 6 then if n == 4 then o.b4 else o.b5
    else if n == 6 then o.b6 else o.b7
  }

  /** The byte of a register has exactly its bits. */
  lemma OctetBits(o: Octet, n: nat)
    requires n < 8
    ensures Has(o.Byte(), n) == OctetBit(o, n)
  {
    var n4 := Bit(o.b4) + 2 * (Bit(o.b5) + 2 * (Bit(o.b6) + 2 * Bit(o.b7)));
    assert o.Byte() == Bit(o.b0) + 2 * (Bit(o.b1) + 2 * (Bit(o.b2) + 2 * (Bit(o.b3) + 2 * n4)));
    hide BitAt, Has, Octet.Byte, OctetBit;
    HasIsBitAt(o.Byte(), n);
    if n < 4 {
      LowOctet(o, n4, n);
    } else {
      FourBits(o.b0, o.b1, o.b2, o.b3, n4, n);
      HighOctet(o, n - 4);
    }
  }

  lemma LowOctet(o: Octet, rest: nat, n: nat)
    requires n < 4
    ensures BitAt(Bit(o.b0) + 2 * (Bit(o.b1) + 2 * (Bit(o.b2) + 2 * (Bit(o.b3) + 2 * rest))), n) == OctetBit(o, n)
  {
    hide BitAt;
    LowBit(o.b0, Bit(o.b1) + 2 * (Bit(o.b2) + 2 * (Bit(o.b3) + 2 * rest)), n);
    LowBit(o.b1, Bit(o.b2) + 2 * (Bit(o.b3) + 2 * rest), n - 1);
    LowBit(o.b2, Bit(o.b3) + 2 * rest, n - 2);
    LowBit(o.b3, rest, n - 3);
    assert n == 0 || n == 1 || n == 2 || n == 3;
  }

  lemma HighOctet(o: Octet, n: nat)
    requires n < 4
    ensures BitAt(Bit(o.b4) + 2 * (Bit(o.b5) + 2 * (Bit(o.b6) + 2 * Bit(o.b7))), n) == OctetBit(o, n + 4)
  {
    hide BitAt;
    LowBit(o.b4, Bit(o.b5) + 2 * (Bit(o.b6) + 2 * Bit(o.b7)), n);
    LowBit(o.b5, Bit(o.b6) + 2 * Bit(o.b7), n - 1);
    LowBit(o.b6, Bit(o.b7), n - 2);
    LowBit(o.b7, 0, n - 3);
    assert n == 0 || n == 1 || n == 2 || n == 3;
  }

  /** A reset port shows no interrupt and an empty transmitter. */
  lemma ResetRegisters()
    ensures RESET_IIR.Byte() == 0x01 && RESET_LSR.Byte() == 0x60 && NO_BITS.Byte() == 0
  {
  }

  // The receive interrupt -----------------------------------------------------------------------------

  /** How many bytes a setting of FCR waits for. */
  lemma ReadyAt(fifo: byte, n: nat)
    ensures fifo % 2 == 0 ==> (DataReady(fifo, n) <==> n >= 1)
    ensures fifo % 2 == 1 && fifo / 64 == 0 ==> (DataReady(fifo, n) <==> n >= 1)
    ensures fifo % 2 == 1 && fifo / 32 == 2 ==> (DataReady(fifo, n) <==> n >= 4)
    ensures fifo % 2 == 1 && fifo / 32 == 4 ==> (DataReady(fifo, n) <==> n >= 8)
    ensures fifo % 2 == 1 && fifo / 32 == 6 ==> (DataReady(fifo, n) <==> n >= 14)
    ensures fifo % 2 == 1 && fifo / 32 == 3 ==> (DataReady(fifo, n) <==> n >= 16)
    ensures fifo % 2 == 1 && fifo / 32 == 5 ==> (DataReady(fifo, n) <==> n >= 32)
    ensures fifo % 2 == 1 && fifo / 32 == 7 ==> (DataReady(fifo, n) <==> n >= 56)
  {
    hide Has;
    HasBit(fifo, 0);
    HasBit(fifo, 5);
    assert Pow2(0) == 1 && Pow2(5) == 32;
  }

  /** The processor takes no byte and leaves FCR alone. */
  predicate Collects(t: Turn) requires t.Valid() { !t.cells[0].r && !t.cells[2].w }

  lemma NothingReleased(f: Flow, t: Turn)
    requires f.Valid() && t.Valid() && Collects(t)
    ensures var g := f.Next(t); g.gone == f.gone && g.fcr == f.fcr && g.Valid()
  {
    NextValid(f, t);
    hide Accepted, DivisorAccess, Has, Loopback;
  }

  lemma {:induction false} NothingReleasedBy(f: Flow, turns: seq<Turn>)
    requires f.Valid() && forall t | t in turns :: t.Valid() && Collects(t)
    ensures var g := After(f, turns); g.gone == f.gone && g.fcr == f.fcr
    decreases |turns|
  {
    hide Flow.Next;
    if turns == [] {
    } else {
      var last := turns[|turns| - 1];
      assert last in turns;
      NothingReleasedBy(f, turns[..|turns| - 1]);
      NothingReleased(After(f, turns[..|turns| - 1]), last);
    }
  }

  /**
   * With the receive interrupt alone enabled, a port whose buffer was empty, and from which nothing has
   * been taken since, interrupts exactly when it has accepted as many bytes as FCR asks for: one without
   * the FIFOs; 1, 4, 8 or 14 of 16, or 1, 16, 32 or 56 of 64 bytes with them.
   */
  lemma ReceiveInterrupt(f: Flow, turns: seq<Turn>, enabled: byte)
    requires f.Valid() && f.Waiting() == 0 && enabled % 4 == 1 && forall t | t in turns :: t.Valid() && Collects(t)
    ensures var g := After(f, turns);
            var n, bytes64, level := |g.accepted| - |f.accepted|, f.fcr / 32 % 2 == 1, f.fcr / 64;
            g.Signals(enabled)
            <==> n >= if f.fcr % 2 == 0 || level == 0 then 1
                      else if level == 1 then if bytes64 then 16 else 4
                      else if level == 2 then if bytes64 then 32 else 8
                      else if bytes64 then 56 else 14
  {
    hide Has, DataReady, After;
    NothingReleasedBy(f, turns);
    var g := After(f, turns);
    HasBit(enabled, 0);
    HasBit(enabled, 1);
    assert Pow2(0) == 1 && Pow2(1) == 2;
    ReadyAt(f.fcr, g.Waiting());
  }

  // A whole turn --------------------------------------------------------------------------------------

  /** A write to FCR with one of its low two bits set empties the buffer, whatever else the turn brings. */
  lemma FlushEmpties(f: Flow, t: Turn)
    requires f.Valid() && t.Valid() && t.cells[2].w
    ensures var g := f.Next(t);
            && g.Valid() && g.fcr == t.cells[2].val && (t.cells[2].val % 4 != 0 ==> g.Waiting() == 0)
  {
    NextValid(f, t);
    ControlBits(t.cells[3].val, t.cells[4].val, t.cells[2]);
    hide Accepted, DivisorAccess, Has, Loopback, Flushes;
  }

  /** The byte that the socket brings is kept while fewer than 64 wait; so is one looped back after it. */
  lemma BytesKept(f: Flow, t: Turn)
    requires f.Valid() && t.Valid()
    ensures var connected := if f.socket < 0 then t.accept >= 0 else true;
            var heard := if connected && f.Waiting() < 64 && t.input.Char? then [t.input.c] else [];
            var loops := t.cells[0].w && t.cells[3].val < 0x80 && t.cells[4].val / 16 % 2 == 1;
            var looped := if loops && f.Waiting() + |heard| < 64 then [t.cells[0].val] else [];
            f.Next(t).accepted == f.accepted + heard + looped
  {
    ControlBits(t.cells[3].val, t.cells[4].val, t.cells[2]);
    hide DivisorAccess, Has, Loopback, Released;
    var connected := if f.socket < 0 then t.accept >= 0 else true;
    var heard := if connected && f.Waiting() < 64 && t.input.Char? then [t.input.c] else [];
    var looped := Looped(f.Waiting() + |heard|, t.cells[0], t.cells[3].val, t.cells[4].val);
    assert f.New(t) == heard + looped;
    assert f.accepted + (heard + looped) == f.accepted + heard + looped;
  }

  /** Reading the receive register takes the oldest byte, but not when LCR selects the divisor latches. */
  lemma ByteTaken(f: Flow, t: Turn)
    requires f.Valid() && t.Valid() && !(t.cells[2].w && t.cells[2].val % 4 != 0)
    ensures var g := f.Next(t);
            var takes := t.cells[0].r && t.cells[3].val < 0x80 && |g.accepted| > f.gone;
            g.gone == f.gone + if takes then 1 else 0
  {
    ControlBits(t.cells[3].val, t.cells[4].val, t.cells[2]);
    hide Accepted, DivisorAccess, Has, Loopback, Flushes;
  }

  /** A byte written to the transmit register leaves by the socket, unless it is looped back or sending fails. */
  lemma ByteSent(f: Flow, t: Turn)
    requires f.Valid() && t.Valid()
    ensures var connected := if f.socket < 0 then t.accept >= 0 else true;
            var broken := f.Waiting() < 64 && t.input.Failure?;
            var sends := t.cells[0].w && t.cells[3].val < 0x80 && t.cells[4].val / 16 % 2 == 0;
            var g := f.Next(t);
            && g.sent == f.sent + (if connected && !broken && sends && !t.sendFails then [t.cells[0].val] else [])
            && (g.socket < 0 <==> !connected || broken || (sends && t.sendFails))
  {
    ControlBits(t.cells[3].val, t.cells[4].val, t.cells[2]);
    hide Accepted, Released, DivisorAccess, Has, Loopback, Flushes;
  }

  /**
   * The transmit interrupt is raised by every byte written to the transmit register and withdrawn by
   * reading IIR; it waits for bit 1 of IER, and while data is ready.
   */
  lemma TransmitInterrupt(f: Flow, t: Turn, enabled: byte)
    requires f.Valid() && t.Valid()
    ensures var g := f.Next(t);
            && g.Valid()
            && (g.edge <==> (t.cells[0].w && t.cells[3].val < 0x80) || (f.edge && !t.cells[2].r))
            && (g.Signals(enabled)
                <==> if g.Ready() then enabled % 2 == 1 else g.edge && enabled / 2 % 2 == 1)
  {
    NextValid(f, t);
    ControlBits(t.cells[3].val, t.cells[4].val, t.cells[2]);
    HasBit(enabled, 0);
    HasBit(enabled, 1);
    assert Pow2(0) == 1 && Pow2(1) == 2;
    hide Accepted, Released, DivisorAccess, Has, Loopback, Flushes, DataReady;
  }

  // Reading by polling --------------------------------------------------------------------------------

  function Last(turns: seq<Turn>): (t: Turn)
    requires turns != []
    ensures t in turns
  {
    turns[|turns| - 1]
  }

  /** Whether the processor has read the receive register. */
  predicate Took(t: Turn)
    requires t.Valid()
  {
    t.cells[0].r
  }

  /** The byte in the receive register after a turn is the one at this place: see Presents in module Uart. */
  function ShownPlace(f: Flow, turns: seq<Turn>): nat
    requires f.Valid() && turns != [] && forall t | t in turns :: t.Valid()
  {
    After(f, turns[..|turns| - 1]).gone
  }

  /** The processor neither flushes the buffer nor turns to the divisor latches. */
  predicate Reads(t: Turn)
    requires t.Valid()
  {
    t.cells[3].val < 0x80 && !(t.cells[2].w && t.cells[2].val % 4 != 0)
  }

  /** It reads only when bytes were waiting after the last turn, and not in two turns one after the other. */
  predicate Polls(f: Flow, turns: seq<Turn>)
    requires f.Valid() && forall t | t in turns :: t.Valid() && Reads(t)
    decreases |turns|
  {
    turns == [] ||
    var before := turns[..|turns| - 1];
    && Polls(f, before)
    && (Took(Last(turns)) ==> before != [] && !Took(Last(before)) && After(f, before).Waiting() > 0)
  }

  /** The bytes the processor has read: each is what the turn before its access has shown. */
  function BytesRead(f: Flow, turns: seq<Turn>): seq<byte>
    requires f.Valid() && (forall t | t in turns :: t.Valid() && Reads(t)) && Polls(f, turns)
    decreases |turns|
  {
    if turns == [] then []
    else
      var before := turns[..|turns| - 1];
      NotTaken(f, before);
      BytesRead(f, before) + if Took(Last(turns)) then [After(f, before).accepted[ShownPlace(f, before)]] else []
  }

  /** A turn in which the processor has not read leaves the byte it shows in the buffer. */
  lemma NotTaken(f: Flow, turns: seq<Turn>)
    requires f.Valid() && forall t | t in turns :: t.Valid() && Reads(t)
    ensures turns != [] && !Took(Last(turns)) ==> ShownPlace(f, turns) == After(f, turns).gone
  {
    hide Flow.Next;
    if turns != [] && !Took(Last(turns)) {
      ByteTaken(After(f, turns[..|turns| - 1]), Last(turns));
    }
  }

  /** A processor that polls in this way reads every byte that was accepted, once and in order. */
  lemma {:induction false} PollingReadsAll(f: Flow, turns: seq<Turn>)
    requires f.Valid() && (forall t | t in turns :: t.Valid() && Reads(t)) && Polls(f, turns)
    ensures var g := After(f, turns);
            BytesRead(f, turns) == g.accepted[f.gone..g.gone]
    decreases |turns|
  {
    hide Flow.Next, Reads, Took, ShownPlace;
    if turns == [] {
    } else {
      var before := turns[..|turns| - 1];
      PollingReadsAll(f, before);
      NotTaken(f, before);
      TurnReads(After(f, before), Last(turns), f.gone);
    }
  }

  /** One turn more. */
  lemma TurnReads(g: Flow, t: Turn, from: nat)
    requires g.Valid() && t.Valid() && Reads(t) && from <= g.gone && (Took(t) ==> g.Waiting() > 0)
    ensures var h := g.Next(t);
            && h.Valid() && from <= h.gone
            && h.accepted[from..h.gone] == g.accepted[from..g.gone] + if Took(t) then [g.accepted[g.gone]] else []
  {
    NextValid(g, t);
    ByteTaken(g, t);
    hide Flow.Next;
    var h := g.Next(t);
    assert h.accepted[..|g.accepted|] == g.accepted;
    assert h.accepted[from..g.gone] == g.accepted[from..g.gone];
    if Took(t) {
      assert h.accepted[from..h.gone] == h.accepted[from..g.gone] + [g.accepted[g.gone]];
    }
  }

  /**
   * Reading in two turns one after the other gets the same byte twice, and where another one is waiting
   * that is lost: `t` has taken the byte it shows, and `u` takes the next.
   */
  lemma ReadingTwice(f: Flow, t: Turn, u: Turn)
    requires f.Valid() && t.Valid() && u.Valid() && Reads(t) && Reads(u) && f.Waiting() > 0
    requires Took(t) && Took(u) && f.Next(t).Valid()
    ensures var g := f.Next(t);
            var h := g.Next(u);
            g.gone == f.gone + 1 && h.gone == f.gone + (if |h.accepted| > f.gone + 1 then 2 else 1)
  {
    NextValid(f, t);
    NextValid(f.Next(t), u);
    ByteTaken(f, t);
    ByteTaken(f.Next(t), u);
    hide Flow.Next;
  }
}
