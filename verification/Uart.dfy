/**
 One step of the serial port: it takes what the socket and the processor have brought, and updates the
 memory cells that shadow its registers. The socket is an arbitrary oracle.
 */
module Uart {
  import opened Words
  import opened Machine
  import opened Cpu
  import opened Ring

  /** What reading the socket brings: a byte, nothing yet (or end of file), or an error. */
  datatype Incoming = Char(c: byte) | Nothing | Failure

  /** The bits of a register that is updated bit by bit. */
  datatype Octet = Octet(b0: bool, b1: bool, b2: bool, b3: bool, b4: bool, b5: bool, b6: bool, b7: bool)
  {
    function Byte(): byte {
      Bit(b0) + 2 * Bit(b1) + 4 * Bit(b2) + 8 * Bit(b3) + 16 * Bit(b4) + 32 * Bit(b5) + 64 * Bit(b6) + 128 * Bit(b7)
    }
  }

  /** The reset values of IIR and LSR: 1, no interrupt, and 0x60, transmitter empty. */
  const RESET_IIR := Octet(true, false, false, false, false, false, false, false)
  const RESET_LSR := Octet(false, false, false, false, false, true, true, false)
  const NO_BITS := Octet(false, false, false, false, false, false, false, false)

  /** Bit `n` of a byte. */
  predicate Has(v: byte, n: nat)
    requires n < 8
  {
    v / [1, 2, 4, 8, 16, 32, 64, 128][n] % 2 == 1
  }

  predicate DivisorAccess(line: byte) { Has(line, 7) }

  predicate Loopback(modem: byte) { Has(modem, 4) }

  predicate Flushes(fifo: Cell) { fifo.w && (Has(fifo.val, 0) || Has(fifo.val, 1)) }

  /** How many bytes raise the interrupt when the FIFOs are enabled. */
  function Trigger(fifo: byte): nat {
    var level := fifo / 64 % 4;
    if Has(fifo, 5) then [1, 16, 32, 56][level] else [1, 4, 8, 14][level]
  }

  predicate DataReady(fifo: byte, n: nat) { if Has(fifo, 0) then n >= Trigger(fifo) else n > 0 }

  /** The bytes a step accepts when `n` are waiting: from the socket, and from the processor in loopback. */
  function Accepted(n: nat, connected: bool, input: Incoming, data: Cell, line: byte, modem: byte): seq<byte> {
    var s := if connected && n < LENGTH && input.Char? then [input.c] else [];
    s + Looped(n + |s|, data, line, modem)
  }

  function Looped(n: nat, data: Cell, line: byte, modem: byte): seq<byte> {
    if !DivisorAccess(line) && data.w && Loopback(modem) && n < LENGTH then [data.val] else []
  }

  /** How many bytes leave: all of them on a flush, one when the processor has read the receive register. */
  function Released(n: nat, data: Cell, line: byte, flush: bool): nat {
    if flush then n else if !DivisorAccess(line) && data.r && n > 0 then 1 else 0
  }

  /** One turn: what the processor has made of the shadow cells since the last step, and what the socket brings. */
  datatype Turn = Turn(cells: seq<Cell>, accept: int, input: Incoming, sendFails: bool)
  {
    predicate Valid() { |cells| == 8 }

    /** Register writes arrive in the cells: THR and RBR share cell 0, IIR and FCR cell 2. */
    function Data(): Cell requires Valid() { cells[0] }

    function Enabled(): byte requires Valid() { cells[1].val }

    function Fifo(): Cell requires Valid() { cells[2] }

    function Line(): byte requires Valid() { cells[3].val }

    function Modem(): byte requires Valid() { cells[4].val }

    /** The processor has written a byte to send. */
    predicate Sends() requires Valid() { !DivisorAccess(Line()) && Data().w }
  }

  /**
   * What the port carries from turn to turn: all bytes ever accepted, how many of them have been taken out
   * or flushed, the bytes the socket has taken, the connected socket or -1, the FIFO control register, the
   * pending transmit interrupt, and the two identification bits of IIR.
   */
  datatype Flow = Flow(accepted: seq<byte>, gone: nat, sent: seq<byte>, socket: int, fcr: byte, edge: bool,
                       txShown: bool, rxShown: bool)
  {
    predicate Valid() { gone <= |accepted| && |accepted| - gone <= LENGTH }

    function Waiting(): nat requires Valid() { |accepted| - gone }

    function Connected(t: Turn): int { if socket < 0 then t.accept else socket }

    /** Reading from the socket fails. */
    predicate ReadFails(t: Turn)
      requires Valid() && t.Valid()
    {
      Connected(t) >= 0 && Waiting() < LENGTH && t.input.Failure?
    }

    /** A byte is handed to the socket. */
    predicate Hands(t: Turn)
      requires Valid() && t.Valid()
    {
      Connected(t) >= 0 && !ReadFails(t) && t.Sends() && !Loopback(t.Modem())
    }

    /** The connection is lost when reading from it or sending to it fails. */
    predicate Loses(t: Turn)
      requires Valid() && t.Valid()
    {
      ReadFails(t) || (Hands(t) && t.sendFails)
    }

    function New(t: Turn): seq<byte>
      requires Valid() && t.Valid()
    {
      Accepted(Waiting(), Connected(t) >= 0, t.input, t.Data(), t.Line(), t.Modem())
    }

    /** The turn but for what IIR shows of it. */
    function Moved(t: Turn): Flow
      requires Valid() && t.Valid()
    {
      Flow(accepted + New(t), gone + Released(Waiting() + |New(t)|, t.Data(), t.Line(), Flushes(t.Fifo())),
           sent + (if Hands(t) && !t.sendFails then [t.Data().val] else []),
           if Loses(t) then -1 else Connected(t),
           if t.Fifo().w then t.Fifo().val else fcr,
           t.Sends() || (edge && !t.Fifo().r), txShown, rxShown)
    }

    /** What the port carries once it has listened to the socket. */
    function Heard(t: Turn): Flow
      requires Valid() && t.Valid()
    {
      var s := if Connected(t) >= 0 && Waiting() < LENGTH && t.input.Char? then [t.input.c] else [];
      this.(accepted := accepted + s, socket := Connected(t), edge := edge && !t.Fifo().r)
    }

    /** A byte is handed to a socket that is still open. */
    predicate Passes(t: Turn, closed: bool)
      requires t.Valid()
    {
      socket >= 0 && !closed && t.Sends() && !Loopback(t.Modem())
    }

    /** And then done what the processor has asked for. */
    function Served(t: Turn, closed: bool): Flow
      requires Valid() && t.Valid()
    {
      var s := Looped(Waiting(), t.Data(), t.Line(), t.Modem());
      this.(accepted := accepted + s,
            gone := gone + Released(Waiting() + |s|, t.Data(), t.Line(), Flushes(t.Fifo())),
            sent := sent + if Passes(t, closed) && !t.sendFails then [t.Data().val] else [],
            fcr := if t.Fifo().w then t.Fifo().val else fcr,
            edge := edge || t.Sends())
    }

    predicate Ready()
      requires Valid()
    {
      DataReady(fcr, Waiting())
    }

    /** Each interrupt sets its own identification bit; only when there is none are both cleared. */
    function Shown(): (r: Flow)
      requires Valid()
      ensures r == this.(txShown := r.txShown, rxShown := r.rxShown)
    {
      if Ready() then this.(rxShown := true)
      else if edge then this.(txShown := true)
      else this.(txShown := false, rxShown := false)
    }

    function Next(t: Turn): Flow
      requires Valid() && t.Valid()
    {
      MovedValid(this, t);
      Moved(t).Shown()
    }

    /** The interrupt pending once the turn is over. */
    predicate Signals(enabled: byte)
      requires Valid()
    {
      if Ready() then Has(enabled, 0) else edge && Has(enabled, 1)
    }
  }

  lemma MovedValid(f: Flow, t: Turn)
    requires f.Valid() && t.Valid()
    ensures f.Moved(t).Valid() && f.accepted <= f.Moved(t).accepted && f.gone <= f.Moved(t).gone
    ensures f.sent <= f.Moved(t).sent
  {
    hide Has, DivisorAccess, Loopback;
  }

  /** Whatever a turn brings, at most 64 bytes wait. */
  lemma NextValid(f: Flow, t: Turn)
    requires f.Valid() && t.Valid()
    ensures f.Next(t).Valid() && f.accepted <= f.Next(t).accepted && f.gone <= f.Next(t).gone
    ensures f.sent <= f.Next(t).sent
  {
    hide Flow.Moved;
    MovedValid(f, t);
  }

  /**
   * The identification bits name one cause, unless the pending interrupt comes while the bit of the other
   * is still set: then, and only then, both are set.
   */
  lemma BothCausesShown(f: Flow, t: Turn)
    requires f.Valid() && t.Valid() && f.Moved(t).Valid()
    ensures var g := f.Next(t);
            g.txShown && g.rxShown <==> if g.Ready() then f.txShown else g.edge && f.rxShown
  {
    hide Flow.Moved, DataReady;
    MovedKeepsShown(f, t);
  }

  lemma MovedKeepsShown(f: Flow, t: Turn)
    requires f.Valid() && t.Valid()
    ensures f.Moved(t).txShown == f.txShown && f.Moved(t).rxShown == f.rxShown
  {
    hide Has, DivisorAccess, Loopback, Released, Accepted;
  }

  /** The port after a reset with nothing connected. */
  function Fresh(): Flow { Flow([], 0, [], -1, 0, false, false, false) }

  /** A byte is sent and then one received: both bits are set, though only received data is waiting. */
  lemma SendThenReceive(c: byte, d: byte) returns (sends: Turn, receives: Turn)
    ensures sends.Valid() && receives.Valid()
    ensures Fresh().Next(sends).Valid()
    ensures var f := Fresh().Next(sends); f.sent == [c] && f.txShown && !f.rxShown
    ensures var f := Fresh().Next(sends).Next(receives); f.accepted == [d] && f.txShown && f.rxShown
  {
    var idle := Cell(0, false, false, false);
    var rest := [idle, idle, idle, idle, idle, idle, idle];
    sends := Turn([Cell(c, false, true, false)] + rest, 0, Nothing, false);
    receives := Turn([idle] + rest, 0, Char(d), false);
    assert [1, 2, 4, 8, 16, 32, 64, 128][7] == 128 && [1, 2, 4, 8, 16, 32, 64, 128][4] == 16;
    NextValid(Fresh(), sends);
  }

  /** IIR says whether an interrupt is pending, and what has been noted of the causes. */
  predicate Shows(iir: Octet, irq: bool, f: Flow, enabled: byte)
    requires f.Valid()
  {
    irq == !iir.b0 && irq == f.Signals(enabled) && iir.b1 == f.txShown && iir.b2 == f.rxShown
  }

  /** Between the states `f` and `g` a turn has shown the byte `c` in cell 0: the oldest one, if there was any. */
  predicate Presents(f: Flow, t: Turn, g: Flow, c: byte)
    requires t.Valid()
  {
    f.gone < |g.accepted| && !DivisorAccess(t.Line()) ==> c == g.accepted[f.gone]
  }

  class Port {
    const base: addr
    var ier: byte
    var fcr: byte
    var lcr: byte
    var mcr: byte
    var dll: byte
    var dlm: byte
    var iir: Octet
    var lsr: Octet
    var msr: Octet
    var socket: int
    var txEmptyEdge: bool
    const rx: Buffer
    const tx: Buffer

    /** All bytes ever accepted, how many of them have been taken out or flushed, and all sent. */
    ghost var accepted: seq<byte>
    ghost var gone: nat
    ghost var sent: seq<byte>

    /** The receive buffer holds exactly the accepted bytes not yet gone; nothing waits to be sent. */
    ghost predicate Buffers()
      reads this, rx, rx.data, tx, tx.data
    {
      && rx != tx && rx.data != tx.data && rx.Valid() && tx.Valid()
      && gone <= |accepted| && rx.contents == accepted[gone..] && tx.contents == []
    }

    ghost function Carried(): Flow
      reads this
    {
      Flow(accepted, gone, sent, socket, fcr, txEmptyEdge, iir.b1, iir.b2)
    }

    lemma BuffersSize()
      requires Buffers()
      ensures Carried().Valid() && |rx.contents| == Carried().Waiting()
    {
    }

    /** DR says whether bytes are waiting, THRE and TEMT are always set, the error bits never. */
    ghost predicate LineSettled()
      reads this, rx
    {
      lsr == Octet(rx.contents != [], false, false, false, false, true, true, false)
    }

    ghost predicate Valid()
      reads this, rx, rx.data, tx, tx.data
    {
      Buffers() && LineSettled()
    }

    lemma CarriedValid()
      requires Valid()
      ensures Carried().Valid() && rx.contents == accepted[gone..]
    {
    }

    /** The reset values. */
    constructor (base: addr)
      ensures Valid() && Carried() == Fresh() && this.base == base && iir.b0
      ensures fresh(rx) && fresh(tx) && fresh(rx.data) && fresh(tx.data)
    {
      this.base := base;
      ier, fcr, lcr, mcr, dll, dlm := 0, 0, 0, 0, 0, 0;
      iir, lsr, msr := RESET_IIR, RESET_LSR, NO_BITS;
      socket, txEmptyEdge := -1, false;
      rx := new Buffer();
      tx := new Buffer();
      accepted, gone, sent := [], 0, [];
    }

    /** Empties both buffers. */
    method Empty()
      requires Buffers()
      modifies this`gone, rx, tx
      ensures Buffers() && gone == |accepted| && rx.contents == []
    {
      rx.Init();
      tx.Init();
      gone := |accepted|;
    }

    method Reset()
      requires Buffers()
      modifies this`ier, this`fcr, this`lcr, this`mcr, this`iir, this`lsr, this`msr, this`gone, rx, tx
      ensures Valid() && gone == |accepted|
      ensures ier == fcr == lcr == mcr == 0 && iir == RESET_IIR && lsr == RESET_LSR && msr == NO_BITS
    {
      ier, fcr, lcr, mcr := 0, 0, 0, 0;
      iir, lsr, msr := RESET_IIR, RESET_LSR, NO_BITS;
      Empty();
    }

    method Store(c: byte)
      requires Buffers() && |rx.contents| < LENGTH
      modifies this`accepted, rx, rx.data
      ensures Buffers() && accepted == old(accepted) + [c] && rx.contents == old(rx.contents) + [c]
    {
      var failed := rx.Push(c);
      accepted := accepted + [c];
    }

    /** Accepts a connection and one byte from the socket, unless the buffer is full. */
    method Receive(accept: int, input: Incoming) returns (closed: bool)
      requires Buffers()
      modifies this`socket, this`accepted, rx, rx.data
      ensures Buffers() && socket == if old(socket) < 0 then accept else old(socket)
      ensures var s := if socket >= 0 && |old(rx.contents)| < LENGTH && input.Char? then [input.c] else [];
              accepted == old(accepted) + s && |rx.contents| == |old(rx.contents)| + |s|
      ensures closed == (socket >= 0 && |old(rx.contents)| < LENGTH && input.Failure?)
    {
      if socket < 0 {
        socket := accept;
      }
      closed := false;
      if socket >= 0 && !rx.IsFull() {
        match input {
          case Char(c) => Store(c);
          case Failure => closed := true;
          case Nothing =>
        }
      }
    }

    /** Only the cells that shadow the registers may change, and breakpoints stay. */
    twostate predicate OnlyShadows(mem: array<Cell>)
      requires mem.Length == MEM_SIZE
      reads mem
    {
      forall k: int | 0 <= k < MEM_SIZE ::
        mem[k].b == old(mem[k]).b && (!(base <= k < base + 8) ==> mem[k] == old(mem[k]))
    }

    /** Copies the registers the processor writes; reading IIR has withdrawn the transmit interrupt. */
    method CopyControl(mem: array<Cell>)
      requires mem.Length == MEM_SIZE && base + 8 <= MEM_SIZE && Buffers()
      modifies this`ier, this`lcr, this`mcr, this`txEmptyEdge, mem
      ensures Buffers() && ier == mem[base + 1].val && lcr == mem[base + 3].val && mcr == mem[base + 4].val
      ensures txEmptyEdge == (old(txEmptyEdge) && !old(mem[base + 2].r))
      ensures mem[base + 2] == old(mem[base + 2]).(r := false)
      ensures forall k: int | 0 <= k < MEM_SIZE && k != base + 2 :: mem[k] == old(mem[k])
    {
      ier, lcr, mcr := mem[base + 1].val, mem[base + 3].val, mem[base + 4].val;
      if mem[base + 2].r {
        mem[base + 2] := mem[base + 2].(r := false);
        txEmptyEdge := false;
      }
    }

    /** The divisor latches take what was written to them, and show what they hold. */
    method Divisor(mem: array<Cell>)
      requires mem.Length == MEM_SIZE && base + 8 <= MEM_SIZE
      modifies this`dll, this`dlm, mem
      ensures dll == (if old(mem[base].w) then old(mem[base].val) else old(dll)) && mem[base].val == dll
      ensures dlm == (if old(mem[base + 1].w) then old(mem[base + 1].val) else old(dlm)) && mem[base + 1].val == dlm
      ensures mem[base].b == old(mem[base].b) && mem[base + 1].b == old(mem[base + 1].b)
      ensures forall k: int | 0 <= k < MEM_SIZE && k != base && k != base + 1 :: mem[k] == old(mem[k])
    {
      if mem[base].w {
        mem[base] := mem[base].(w := false);
        dll := mem[base].val;
      } else {
        mem[base] := mem[base].(val := dll);
      }
      if mem[base + 1].w {
        mem[base + 1] := mem[base + 1].(w := false);
        dlm := mem[base + 1].val;
      } else {
        mem[base + 1] := mem[base + 1].(val := dlm);
      }
    }

    /** A byte written by the processor goes to the socket, or in loopback into the receive buffer. */
    method Transmit(mem: array<Cell>, sendFails: bool, wasClosed: bool) returns (closed: bool)
      requires mem.Length == MEM_SIZE && base + 8 <= MEM_SIZE && Buffers()
      modifies this`txEmptyEdge, this`accepted, this`sent, rx, rx.data, mem
      ensures Buffers() && |rx.contents| == |old(rx.contents)| + |accepted| - |old(accepted)|
      ensures accepted == old(accepted)
                + if old(mem[base].w) && Loopback(mcr) && |old(rx.contents)| < LENGTH then [old(mem[base].val)] else []
      ensures txEmptyEdge == (old(txEmptyEdge) || old(mem[base].w))
      ensures var hands := old(mem[base].w) && !Loopback(mcr) && socket >= 0 && !wasClosed;
              && closed == (wasClosed || (hands && sendFails))
              && sent == old(sent) + if hands && !sendFails then [old(mem[base].val)] else []
      ensures mem[base] == old(mem[base]).(w := false)
      ensures forall k: int | 0 <= k < MEM_SIZE && k != base :: mem[k] == old(mem[k])
    {
      hide Loopback;
      closed := wasClosed;
      if mem[base].w {
        mem[base] := mem[base].(w := false);
        txEmptyEdge := false;
        if Loopback(mcr) {
          if !rx.IsFull() {
            Store(mem[base].val);
          }
        } else if socket >= 0 && !closed {
          closed := sendFails;
          sent := if sendFails then sent else sent + [mem[base].val];
        }
        if tx.IsEmpty() {
          txEmptyEdge := true;
        }
      }
    }

    /** Shows the oldest byte, or the one before when there is none, and drops it when it was read. */
    method Present(mem: array<Cell>)
      requires mem.Length == MEM_SIZE && base + 8 <= MEM_SIZE && Buffers()
      modifies this`gone, rx, mem
      ensures Buffers()
      ensures gone == old(gone) + if old(mem[base].r) && old(rx.contents) != [] then 1 else 0
      ensures old(rx.contents) != [] ==> mem[base].val == old(rx.contents)[0]
      ensures mem[base] == old(mem[base]).(r := false, val := mem[base].val)
      ensures forall k: int | 0 <= k < MEM_SIZE && k != base :: mem[k] == old(mem[k])
    {
      if rx.IsEmpty() {
        var c := rx.PeekPrevious();
        mem[base] := mem[base].(val := c);
      } else {
        var failed, c := rx.Peek();
        mem[base] := mem[base].(val := c);
      }
      if mem[base].r {
        mem[base] := mem[base].(r := false);
        var failed, c := rx.Pop();
        gone := if failed then gone else gone + 1;
      }
    }

    /** A write to FCR is copied; enabling the FIFOs clears both, otherwise each can be reset by itself. */
    method FifoControl(mem: array<Cell>)
      requires mem.Length == MEM_SIZE && base + 8 <= MEM_SIZE && Buffers()
      modifies this`fcr, this`gone, rx, tx, mem
      ensures Buffers() && gone == if Flushes(old(mem[base + 2])) then |accepted| else old(gone)
      ensures fcr == if old(mem[base + 2].w) then old(mem[base + 2].val) else old(fcr)
      ensures mem[base + 2] == old(mem[base + 2]).(w := false)
      ensures forall k: int | 0 <= k < MEM_SIZE && k != base + 2 :: mem[k] == old(mem[k])
    {
      hide Has;
      if mem[base + 2].w {
        mem[base + 2] := mem[base + 2].(w := false);
        fcr := mem[base + 2].val;
        if Has(fcr, 0) {
          Empty();
        } else if Has(fcr, 1) {
          rx.Init();
          gone := |accepted|;
        } else if Has(fcr, 2) {
          tx.Init();
        }
      }
    }

    method LineStatus(mem: array<Cell>)
      requires mem.Length == MEM_SIZE && base + 8 <= MEM_SIZE && Buffers()
      modifies this`lsr, mem
      ensures Valid() && mem[base + 5] == old(mem[base + 5]).(val := lsr.Byte())
      ensures forall k: int | 0 <= k < MEM_SIZE && k != base + 5 :: mem[k] == old(mem[k])
    {
      hide Octet.Byte;
      lsr := lsr.(b0 := !rx.IsEmpty());
      lsr := if tx.IsEmpty() then lsr.(b5 := true, b6 := true) else lsr.(b5 := false, b6 := false);
      lsr := lsr.(b1 := false, b2 := false, b3 := false, b4 := false, b7 := false);
      mem[base + 5] := mem[base + 5].(val := lsr.Byte());
    }

    /** Received data sets one identification bit and an empty transmitter the other; both are cleared without. */
    ghost predicate Identified(was: Octet)
      reads this, rx
    {
      && iir.b1 == (if DataReady(fcr, |rx.contents|) then was.b1 else txEmptyEdge)
      && iir.b2 == (DataReady(fcr, |rx.contents|) || (txEmptyEdge && was.b2))
    }

    /** What interrupt is pending: received data first, then an empty transmitter. */
    method Pending() returns (irq: bool)
      requires Valid()
      modifies this`iir
      ensures Valid() && irq == if DataReady(fcr, |rx.contents|) then Has(ier, 0) else txEmptyEdge && Has(ier, 1)
      ensures Identified(old(iir)) && iir == old(iir).(b1 := iir.b1, b2 := iir.b2)
    {
      hide Has, Trigger;
      irq := false;
      if (!Has(fcr, 0) && !rx.IsEmpty()) || (Has(fcr, 0) && rx.count >= Trigger(fcr)) {
        iir := iir.(b2 := true);
        irq := Has(ier, 0);
      } else if txEmptyEdge {
        iir := iir.(b1 := true);
        irq := Has(ier, 1);
      } else {
        iir := iir.(b1 := false, b2 := false);
      }
    }

    /** Bits 5 to 7 of IIR show how the FIFOs are set up. */
    method Mode()
      modifies this`iir
      ensures iir == old(iir).(b5 := Has(fcr, 0) && Has(fcr, 5), b6 := Has(fcr, 0), b7 := Has(fcr, 0))
    {
      hide Has;
      if Has(fcr, 0) {
        iir := iir.(b5 := Has(fcr, 5), b6 := true, b7 := true);
      } else {
        iir := iir.(b5 := false, b6 := false, b7 := false);
      }
    }

    method Identify(mem: array<Cell>) returns (irq: bool)
      requires mem.Length == MEM_SIZE && base + 8 <= MEM_SIZE && Valid()
      modifies this`iir, mem
      ensures Valid() && irq == !iir.b0
      ensures irq == if DataReady(fcr, |rx.contents|) then Has(ier, 0) else txEmptyEdge && Has(ier, 1)
      ensures Identified(old(iir)) && iir.b3 == old(iir.b3) && iir.b4 == old(iir.b4)
      ensures iir.b5 == (Has(fcr, 0) && Has(fcr, 5)) && iir.b6 == Has(fcr, 0) && iir.b7 == Has(fcr, 0)
      ensures mem[base + 2] == old(mem[base + 2]).(val := iir.Byte())
      ensures forall k: int | 0 <= k < MEM_SIZE && k != base + 2 :: mem[k] == old(mem[k])
    {
      hide Has, DataReady, Octet.Byte;
      irq := Pending();
      Mode();
      iir := iir.(b0 := !irq);
      mem[base + 2] := mem[base + 2].(val := iir.Byte());
    }

    method ModemStatus(mem: array<Cell>, closed: bool)
      requires mem.Length == MEM_SIZE && base + 8 <= MEM_SIZE && Valid()
      modifies this`msr, this`socket, mem
      ensures Valid() && socket == if closed then -1 else old(socket)
      ensures msr.b7 == (old(socket) != -1) && mem[base + 6] == old(mem[base + 6]).(val := msr.Byte())
      ensures forall k: int | 0 <= k < MEM_SIZE && k != base + 6 :: mem[k] == old(mem[k])
    {
      hide Octet.Byte;
      msr := msr.(b7 := socket != -1);
      mem[base + 6] := mem[base + 6].(val := msr.Byte());
      if closed {
        socket := -1;
      }
    }

    /** The divisor latches, or the transmit and receive registers, whichever LCR selects. */
    method Exchange(mem: array<Cell>, sendFails: bool, wasClosed: bool) returns (closed: bool)
      requires mem.Length == MEM_SIZE && base + 8 <= MEM_SIZE && Buffers()
      modifies this`dll, this`dlm, this`txEmptyEdge, this`accepted, this`gone, this`sent, rx, rx.data, mem
      ensures Buffers() && accepted == old(accepted) + Looped(|old(rx.contents)|, old(mem[base]), lcr, mcr)
      ensures var taken := !DivisorAccess(lcr) && old(mem[base].r);
              gone == old(gone) + if taken && |old(rx.contents)| + |accepted| - |old(accepted)| > 0 then 1 else 0
      ensures old(gone) < |accepted| && !DivisorAccess(lcr) ==> mem[base].val == accepted[old(gone)]
      ensures txEmptyEdge == (old(txEmptyEdge) || (!DivisorAccess(lcr) && old(mem[base].w)))
      ensures var hands := !DivisorAccess(lcr) && old(mem[base].w) && !Loopback(mcr) && socket >= 0 && !wasClosed;
              && closed == (wasClosed || (hands && sendFails))
              && sent == old(sent) + if hands && !sendFails then [old(mem[base].val)] else []
      ensures forall k: int | 0 <= k < MEM_SIZE && k != base && k != base + 1 :: mem[k] == old(mem[k])
      ensures mem[base].b == old(mem[base].b) && mem[base + 1].b == old(mem[base + 1].b)
    {
      hide Has, DivisorAccess, Loopback;
      closed := wasClosed;
      if DivisorAccess(lcr) {
        Divisor(mem);
      } else {
        closed := Transmit(mem, sendFails, wasClosed);
        Present(mem);
      }
    }

    /** The bytes the processor sends and takes, and then the flushes it asks for. */
    method Queue(mem: array<Cell>, sendFails: bool, wasClosed: bool, ghost t: Turn) returns (closed: bool)
      requires mem.Length == MEM_SIZE && base + 8 <= MEM_SIZE && Buffers() && Carried().Valid()
      requires t.Valid() && t.sendFails == sendFails && lcr == t.Line() && mcr == t.Modem()
      requires mem[base] == t.Data() && mem[base + 2] == t.Fifo().(r := false)
      modifies this`dll, this`dlm, this`txEmptyEdge, this`accepted, this`gone, this`sent, this`fcr
      modifies rx, rx.data, tx, mem
      ensures Buffers() && Carried() == old(Carried()).Served(t, wasClosed)
      ensures closed == (wasClosed || (old(Carried()).Passes(t, wasClosed) && sendFails))
      ensures old(gone) < |accepted| && !DivisorAccess(t.Line()) ==> mem[base].val == accepted[old(gone)]
      ensures forall k: int | 0 <= k < MEM_SIZE && !(base <= k <= base + 2) :: mem[k] == old(mem[k])
      ensures forall k: int | base <= k <= base + 2 :: mem[k].b == old(mem[k]).b
    {
      hide Has, DivisorAccess, Loopback, Looped;
      BuffersSize();
      closed := Exchange(mem, sendFails, wasClosed);
      FifoControl(mem);
    }

    /** What the processor has made of the shadow cells. */
    function Cells(mem: array<Cell>): seq<Cell>
      requires mem.Length == MEM_SIZE && base + 8 <= MEM_SIZE
      reads mem
    {
      mem[base..base + 8]
    }

    /** What the socket brings, and the registers as the processor has left them. */
    method Listen(mem: array<Cell>, accept: int, input: Incoming, ghost t: Turn) returns (closed: bool)
      requires mem.Length == MEM_SIZE && base + 8 <= MEM_SIZE && Buffers()
      requires t == Turn(Cells(mem), accept, input, t.sendFails)
      requires Carried().Valid()
      modifies this`socket, this`accepted, this`ier, this`lcr, this`mcr, this`txEmptyEdge, rx, rx.data, mem
      ensures Buffers() && Carried() == old(Carried()).Heard(t) && closed == old(Carried()).ReadFails(t)
      ensures ier == t.Enabled() && lcr == t.Line() && mcr == t.Modem()
      ensures mem[base] == t.Data() && mem[base + 2] == t.Fifo().(r := false)
      ensures forall k: int | 0 <= k < MEM_SIZE && k != base + 2 :: mem[k] == old(mem[k])
    {
      BuffersSize();
      hide Buffers;
      closed := Receive(accept, input);
      CopyControl(mem);
    }

    /** The first half of a step: bytes come, go and are flushed, as the registers say. */
    method Move(mem: array<Cell>, accept: int, input: Incoming, sendFails: bool, ghost t: Turn) returns (closed: bool)
      requires mem.Length == MEM_SIZE && base + 8 <= MEM_SIZE && Buffers() && Carried().Valid()
      requires t == Turn(Cells(mem), accept, input, sendFails)
      modifies this, rx, rx.data, tx, mem
      ensures Buffers() && lsr == old(lsr) && iir == old(iir) && msr == old(msr) && ier == t.Enabled()
      ensures closed == old(Carried()).Loses(t)
      ensures Carried() == old(Carried()).Moved(t).(socket := old(Carried()).Connected(t))
      ensures old(gone) < |accepted| && !DivisorAccess(t.Line()) ==> mem[base].val == accepted[old(gone)]
      ensures forall k: int | 0 <= k < MEM_SIZE && !(base <= k <= base + 2) :: mem[k] == old(mem[k])
      ensures forall k: int | base <= k <= base + 2 :: mem[k].b == old(mem[k]).b
    {
      hide Has, DivisorAccess, Looped, Buffers, Loopback, Carried, Flow.Heard, Flow.Served, Flow.Moved;
      hide Flow.Passes, Flow.ReadFails, Flow.Loses;
      HeardAndServed(Carried(), t);
      closed := Listen(mem, accept, input, t);
      closed := Queue(mem, sendFails, closed, t);
    }

    /** The second half: the status registers and the interrupt. */
    method Report(mem: array<Cell>, closed: bool) returns (irq: bool)
      requires mem.Length == MEM_SIZE && base + 8 <= MEM_SIZE && Buffers()
      modifies this`lsr, this`iir, this`msr, this`socket, mem
      ensures Valid() && irq == !iir.b0 && socket == if closed then -1 else old(socket)
      ensures irq == if DataReady(fcr, |rx.contents|) then Has(ier, 0) else txEmptyEdge && Has(ier, 1)
      ensures Identified(old(iir)) && mem[base] == old(mem[base])
      ensures mem[base + 2].val == iir.Byte() && mem[base + 5].val == lsr.Byte() && mem[base + 6].val == msr.Byte()
      ensures OnlyShadows(mem)
    {
      hide Has, DataReady, Octet.Byte;
      LineStatus(mem);
      irq := Identify(mem);
      ModemStatus(mem, closed);
    }

    /**
     * One step: `accept` is the socket of a new connection or -1, `input` what reading the socket brings,
     * `sendFails` whether sending does. Whatever these are and whatever the processor has done to the
     * memory, the receive buffer is a queue of the accepted bytes, and the result is the pending interrupt.
     */
    method Step(mem: array<Cell>, accept: int, input: Incoming, sendFails: bool) returns (irq: bool)
      requires mem.Length == MEM_SIZE && base + 8 <= MEM_SIZE && Valid()
      modifies this, rx, rx.data, tx, mem
      ensures Valid()
      ensures old(Carried()).Valid() && Carried().Valid()
      ensures var t := Turn(old(Cells(mem)), accept, input, sendFails);
              && Carried() == old(Carried()).Next(t) && Shows(iir, irq, Carried(), t.Enabled())
              && Presents(old(Carried()), t, Carried(), mem[base].val)
      ensures mem[base + 2].val == iir.Byte() && mem[base + 5].val == lsr.Byte() && mem[base + 6].val == msr.Byte()
      ensures OnlyShadows(mem)
    {
      hide Has, Accepted, Released, DivisorAccess, DataReady, Octet.Byte, Buffers, Flow.Moved, Flow.Loses;
      ghost var t := Turn(Cells(mem), accept, input, sendFails);
      BuffersSize();
      MovedSocket(Carried(), t);
      MovedKeepsShown(Carried(), t);
      MovedValid(Carried(), t);
      var closed := Move(mem, accept, input, sendFails, t);
      irq := Report(mem, closed);
      BuffersSize();
    }
  }

  /** A turn is listening to the socket first and serving the processor then. */
  lemma HeardAndServed(f: Flow, t: Turn)
    requires f.Valid() && t.Valid()
    ensures var g, fails := f.Heard(t), f.ReadFails(t);
            && g.Valid() && g.Served(t, fails) == f.Moved(t).(socket := f.Connected(t))
            && (f.Loses(t) <==> fails || (g.Passes(t, fails) && t.sendFails))
  {
    hide Has, DivisorAccess, Loopback, Looped, Released, Flushes;
  }

  lemma MovedSocket(f: Flow, t: Turn)
    requires f.Valid() && t.Valid()
    ensures f.Moved(t).socket == if f.Loses(t) then -1 else f.Connected(t)
  {
    hide Flow.Loses;
  }

  method Access(mem: array<Cell>, base: addr, cells: seq<Cell>)
    requires mem.Length == MEM_SIZE && base + 8 <= MEM_SIZE && |cells| == 8
    modifies mem
    ensures mem[base..base + 8] == cells
  {
    forall k | 0 <= k < 8 {
      mem[base + k] := cells[k];
    }
  }

  /** The processor's accesses, and then a step. */
  method Take(port: Port, mem: array<Cell>, t: Turn) returns (irq: bool)
    requires mem.Length == MEM_SIZE && port.base + 8 <= MEM_SIZE && port.Valid() && t.Valid()
    modifies port, port.rx, port.rx.data, port.tx, mem
    ensures port.Valid() && old(port.Carried()).Valid() && port.Carried().Valid()
    ensures port.Carried() == old(port.Carried()).Next(t)
    ensures Presents(old(port.Carried()), t, port.Carried(), mem[port.base].val)
    ensures Shows(port.iir, irq, port.Carried(), t.Enabled())
  {
    hide Port.Valid, Port.Carried, Flow.Next, Flow.Valid, Shows, Presents;
    Access(mem, port.base, t.cells);
    irq := port.Step(mem, t.accept, t.input, t.sendFails);
  }

  /** What the port carries after a number of turns. */
  function After(f: Flow, turns: seq<Turn>): (r: Flow)
    requires f.Valid() && forall t | t in turns :: t.Valid()
    ensures r.Valid() && f.accepted <= r.accepted && f.gone <= r.gone && f.sent <= r.sent
  {
    if turns == [] then f
    else
      var r := After(f, turns[..|turns| - 1]);
      NextValid(r, turns[|turns| - 1]);
      r.Next(turns[|turns| - 1])
  }

  lemma AfterNone(f: Flow, turns: seq<Turn>)
    requires f.Valid() && forall t | t in turns :: t.Valid()
    ensures After(f, turns[..0]) == f
  {
  }

  lemma AfterOneMore(f: Flow, turns: seq<Turn>, i: nat)
    requires f.Valid() && i < |turns| && forall t | t in turns :: t.Valid()
    ensures After(f, turns[..i + 1]) == After(f, turns[..i]).Next(turns[i])
  {
    hide Flow.Next, Flow.Valid;
    assert turns[..i + 1][..i] == turns[..i];
  }

  /**
   * Any run: whatever the processor and the socket do, the port carries exactly what its turns add up to,
   * its receive buffer is the queue of the bytes accepted and not gone, at most 64, the transmitter stays
   * empty, and every result is the interrupt the turn leaves pending and the pending bit of IIR. What each
   * turn shows in the receive register is the oldest byte.
   */
  method Run(port: Port, mem: array<Cell>, turns: seq<Turn>)
    returns (irqs: seq<bool>, shown: seq<byte>, ghost iirs: seq<Octet>)
    requires mem.Length == MEM_SIZE && port.base + 8 <= MEM_SIZE && port.Valid()
    requires forall t | t in turns :: t.Valid()
    modifies port, port.rx, port.rx.data, port.tx, mem
    ensures port.Valid() && old(port.Carried()).Valid() && port.Carried() == After(old(port.Carried()), turns)
    ensures |irqs| == |shown| == |iirs| == |turns| && (turns != [] ==> iirs[|turns| - 1] == port.iir)
    ensures forall i | 0 <= i < |turns| ::
              Shows(iirs[i], irqs[i], After(old(port.Carried()), turns[..i + 1]), turns[i].Enabled())
    ensures forall i | 0 <= i < |turns| ::
              Presents(After(old(port.Carried()), turns[..i]), turns[i],
                       After(old(port.Carried()), turns[..i + 1]), shown[i])
  {
    hide Port.Valid, Port.Carried, Flow.Next, Flow.Valid, Shows, After, Presents;
    port.CarriedValid();
    ghost var f := port.Carried();
    irqs, shown, iirs := [], [], [];
    var i := 0;
    AfterNone(f, turns);
    while i < |turns|
      invariant i <= |turns| && |irqs| == |shown| == |iirs| == i
      invariant port.Valid() && port.Carried() == After(f, turns[..i])
      invariant i > 0 ==> iirs[i - 1] == port.iir
      invariant forall k | 0 <= k < i :: Shows(iirs[k], irqs[k], After(f, turns[..k + 1]), turns[k].Enabled())
      invariant forall k | 0 <= k < i :: Presents(After(f, turns[..k]), turns[k], After(f, turns[..k + 1]), shown[k])
    {
      assert turns[i] in turns;
      AfterOneMore(f, turns, i);
      var irq := Take(port, mem, turns[i]);
      irqs, shown, iirs := irqs + [irq], shown + [mem[port.base].val], iirs + [port.iir];
      i := i + 1;
    }
    assert turns[..i] == turns;
  }
}
