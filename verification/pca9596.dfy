/**
 The PCA9596 port-expander driver of PCA9596_Driver.c: the bytes it puts
 in front of the data (the address byte with its read/write bit, section
 3.1.10 of the NXP I2C-bus specification UM10204, and the register
 selection byte), and the fixed run of writeBytes/readBytes calls each
 operation issues, with their status results OR-ed together.

 An operation is a list of transfers (a function), run through the I2C
 driver by `Run`. `Replay` says, as a function of the starting bus, what
 running a list of transfers records and returns.
 */
module PCA9596 {
  import opened Bits
  import opened LineDriver
  import opened BusMonitor
  import opened I2CDriver

  // ---------------------------------------------------------------------------
  // Constants (PCA9596_Driver.h lines 31-41)

  const ADD_BASE: byte := 0x40
  const AUTO_INC: byte := 0x80
  const NO_AUTO_INC: byte := 0x00
  const CFG_POL: byte := 0x10
  const CFG_IO: byte := 0x18
  const CFG_INT: byte := 0x20
  const RD: byte := 0x01
  const WR: byte := 0x00
  const INPUT: byte := 0x00
  const OUTPUT: byte := 0x08
  const MAX_PORTS: nat := 5

  /** `port0` of the `Port` enumeration: the first of the five port registers. */
  const PORT0: byte := 0x00

  /** One setting per port register of the chip. */
  type Bank = s: seq<byte> | |s| == MAX_PORTS witness [0, 0, 0, 0, 0]

  /** The `PCA9596` record: the chip's address pins and a bank of bytes per register group. */
  datatype Device = Device(
    address: byte,
    configIO: Bank,
    configPol: Bank,
    configInt: Bank,
    outPort: Bank,
    inPort: Bank)

  // ---------------------------------------------------------------------------
  // Framing bytes

  /**
   `AddBase | (address << 1) | rw`, truncated to an `unsigned char`: bit 0
   carries the read/write bit, and for `rw` 0 or 1 the seven bits above it
   are 0x20 with the low seven bits of `address`.
   */
  function AddressByte(address: byte, rw: byte): (r: byte)
    ensures r & 0x01 == rw & 0x01
    ensures rw & 0xFE == 0 ==> r >> 1 == 0x20 | (address & 0x7F)
  {
    ADD_BASE | (address << 1) | rw
  }

  /**
   The write address ends in a 0 bit and the read address is the same byte
   with a 1 bit (section 3.1.10 of UM10204). For address pins 0 to 7 the
   seven address bits are 0x20 plus the pins: 0x40 to 0x4E on the bus.
   */
  lemma AddressBytes(address: byte)
    ensures AddressByte(address, WR) & 0x01 == 0
    ensures AddressByte(address, RD) == AddressByte(address, WR) | 0x01
    ensures address < 8 ==> AddressByte(address, WR) >> 1 == 0x20 + address
  {
  }

  /** The register bytes each operation selects: auto-increment, then the register group, from port 0. */
  lemma RegisterBytes()
    ensures AUTO_INC | CFG_IO == 0x98 && AUTO_INC | CFG_POL == 0x90 && AUTO_INC | CFG_INT == 0xA0
    ensures AUTO_INC | OUTPUT | PORT0 == 0x88 && AUTO_INC | INPUT | PORT0 == 0x80
  {
  }

  // ---------------------------------------------------------------------------
  // Transfers

  /** One call into the I2C driver. */
  datatype Transfer =
    | Write(sendStart: bool, sendStop: bool, tx: seq<byte>) // writeBytes(send_start, send_stop, tx, |tx|)
    | Read(sendStop: bool, length: nat)                     // readBytes(send_stop, rxArray, length)

  /** Address the chip for writing, select register `reg`, write `payload` and stop. */
  function Frame(address: byte, reg: byte, payload: seq<byte>): seq<Transfer>
  {
    [Write(true, false, [AddressByte(address, WR)]), Write(false, false, [reg]), Write(false, true, payload)]
  }

  /** `PCA9596_configAll`: the direction, polarity and interrupt banks, one frame each. */
  function ConfigAllTransfers(d: Device): (ts: seq<Transfer>)
    ensures |ts| == 9
    ensures forall k :: 0 <= k < 9 ==> ts[k].Write? && ts[k].sendStart == (k % 3 == 0) && ts[k].sendStop == (k % 3 == 2)
  {
    Frame(d.address, AUTO_INC | CFG_IO, d.configIO)
    + Frame(d.address, AUTO_INC | CFG_POL, d.configPol)
    + Frame(d.address, AUTO_INC | CFG_INT, d.configInt)
  }

  /** `PCA9596_writePorts`: the output bank, from port 0. */
  function WritePortsTransfers(d: Device): (ts: seq<Transfer>)
    ensures |ts| == 3
    ensures forall k :: 0 <= k < 3 ==> ts[k].Write? && ts[k].sendStart == (k == 0) && ts[k].sendStop == (k == 2)
  {
    Frame(d.address, AUTO_INC | OUTPUT | PORT0, d.outPort)
  }

  /**
   `PCA9596_readPorts`: address for writing and select the input bank from
   port 0, then address again for reading and read the five ports.
   */
  function ReadPortsTransfers(d: Device): (ts: seq<Transfer>)
    ensures |ts| == 4 && ts[3] == Read(true, MAX_PORTS)
    ensures forall k :: 0 <= k < 3 ==> ts[k].Write? && ts[k].sendStart == (k != 1) && !ts[k].sendStop
  {
    SelectInputs(d) + [Read(true, MAX_PORTS)]
  }

  /** The three writes of readPorts: address for writing, register 0x80, address for reading. */
  function SelectInputs(d: Device): seq<Transfer>
  {
    [Write(true, false, [AddressByte(d.address, WR)]),
     Write(false, false, [AUTO_INC | INPUT | PORT0]),
     Write(true, false, [AddressByte(d.address, RD)])]
  }

  /**
   configAll issues three frames, each an address call with START and no
   STOP, a register call, and a five-byte payload call with STOP; the
   registers are 0x98, 0x90 and 0xA0 and the payloads the direction,
   polarity and interrupt banks, in that order.
   */
  lemma ConfigAllShape(d: Device)
    ensures |ConfigAllTransfers(d)| == 9
    ensures forall f :: 0 <= f < 3 ==> ConfigAllTransfers(d)[3 * f] == Write(true, false, [AddressByte(d.address, WR)])
    ensures ConfigAllTransfers(d)[1] == Write(false, false, [0x98]) && ConfigAllTransfers(d)[2] == Write(false, true, d.configIO)
    ensures ConfigAllTransfers(d)[4] == Write(false, false, [0x90]) && ConfigAllTransfers(d)[5] == Write(false, true, d.configPol)
    ensures ConfigAllTransfers(d)[7] == Write(false, false, [0xA0]) && ConfigAllTransfers(d)[8] == Write(false, true, d.configInt)
  {
    RegisterBytes();
  }

  /** writePorts addresses the chip, selects register 0x88 and writes the output bank with STOP. */
  lemma WritePortsShape(d: Device)
    ensures WritePortsTransfers(d) ==
      [Write(true, false, [AddressByte(d.address, WR)]), Write(false, false, [0x88]), Write(false, true, d.outPort)]
  {
    RegisterBytes();
  }

  /**
   readPorts selects register 0x80 without a STOP, then readdresses the chip
   for reading with a START and reads five bytes with STOP.
   */
  lemma ReadPortsShape(d: Device)
    ensures ReadPortsTransfers(d) ==
      [Write(true, false, [AddressByte(d.address, WR)]), Write(false, false, [0x80]),
       Write(true, false, [AddressByte(d.address, WR) | 0x01]), Read(true, 5)]
  {
    RegisterBytes();
    AddressBytes(d.address);
  }

  // ---------------------------------------------------------------------------
  // What a run of transfers does

  /** What some transfers recorded and returned, and the `started` flag and sample count after them. */
  datatype Outcome = Outcome(events: seq<Event>, results: seq<byte>, rx: seq<byte>, started: bool, taken: nat)

  /** One transfer, started with the flag at `started` and `taken` samples already taken. */
  function Effect(peer: seq<byte>, started: bool, taken: nat, t: Transfer): Outcome
  {
    match t
    case Write(sendStart, sendStop, tx) =>
      var acks := Levels(peer, taken, |tx|);
      Outcome(WriteEvents(started, sendStart, sendStop, tx, acks), [Flag(true in acks)], [],
              started || sendStart || sendStop, taken + |tx|)
    case Read(sendStop, length) =>
      var rx := Incoming(peer, taken, length);
      Outcome(ReadEvents(sendStop, rx), [if length == 0 then 0 else rx[length - 1]], rx,
              started || sendStop, taken + 8 * length)
  }

  /** A run of transfers, one after the other: each starts where the one before left the bus. */
  function Replay(peer: seq<byte>, started: bool, taken: nat, ts: seq<Transfer>): (o: Outcome)
    ensures |o.results| == |ts|
    decreases |ts|
  {
    if |ts| == 0 then Outcome([], [], [], started, taken)
    else
      var first := Effect(peer, started, taken, ts[0]);
      var rest := Replay(peer, first.started, first.taken, ts[1..]);
      Outcome(first.events + rest.events, first.results + rest.results, first.rx + rest.rx, rest.started, rest.taken)
  }

  /** The OR of some status bytes, as `isOK |= ...` accumulates them. */
  function OrAll(xs: seq<byte>): byte
    decreases |xs|
  {
    if |xs| == 0 then 0 else xs[0] | OrAll(xs[1..])
  }

  /** Accumulating one more status in the order the calls are made. */
  lemma {:induction false} OrAllSnoc(xs: seq<byte>, x: byte)
    ensures OrAll(xs + [x]) == OrAll(xs) | x
    decreases |xs|
  {
    if |xs| > 0 {
      assert (xs + [x])[1..] == xs[1..] + [x];
      OrAllSnoc(xs[1..], x);
    } else {
      assert [] + [x] == [x];
    }
  }

  /** An OR of two bytes is nonzero exactly when one of them is. */
  lemma OrNonzero(a: byte, b: byte)
    ensures (a | b != 0) <==> (a != 0 || b != 0)
  {
  }

  /** The accumulated status is nonzero exactly when some call returned nonzero. */
  lemma {:induction false} OrAllNonzero(xs: seq<byte>)
    ensures OrAll(xs) != 0 <==> exists i :: 0 <= i < |xs| && xs[i] != 0
    decreases |xs|
  {
    if |xs| > 0 {
      OrAllNonzero(xs[1..]);
      OrNonzero(xs[0], OrAll(xs[1..]));
      var b := OrAll(xs[1..]);
      if b != 0 {
        var i :| 0 <= i < |xs[1..]| && xs[1..][i] != 0;
        assert xs[i + 1] != 0;
      }
      if exists i :: 0 <= i < |xs| && xs[i] != 0 {
        var i :| 0 <= i < |xs| && xs[i] != 0;
        if i > 0 {
          assert xs[1..][i - 1] != 0;
        }
      }
    }
  }

  /** The state a transfer leaves the bus in. */
  function After(o: Outcome, r: Bus): bool
  {
    r.started == o.started && r.taken == o.taken
  }

  /** Only the two line bits of the port changed: the direction register and the other bits are as they were. */
  predicate LinesOnly(b: Bus, r: Bus)
  {
    r.ddr == b.ddr && r.port.others == b.port.others && r.peer == b.peer
  }

  /** One transfer: a writeBytes or a readBytes call. `wire` is what its port accesses leave on the lines. */
  method Perform(b: Bus, t: Transfer) returns (r: Bus, result: byte, rx: seq<byte>, ghost wire: seq<Access>)
    ensures r.events == b.events + Effect(b.peer, b.started, b.taken, t).events
    ensures wire == Rendered(Effect(b.peer, b.started, b.taken, t).events, b.port.scl)
    ensures [result] == Effect(b.peer, b.started, b.taken, t).results
    ensures rx == Effect(b.peer, b.started, b.taken, t).rx
    ensures After(Effect(b.peer, b.started, b.taken, t), r)
    ensures r.port.scl == SclAfter(Effect(b.peer, b.started, b.taken, t).events, b.port.scl) && LinesOnly(b, r)
  {
    match t
    case Write(sendStart, sendStop, tx) =>
      r, result, wire := WriteBytes(b, sendStart, sendStop, tx);
      rx := [];
    case Read(sendStop, length) =>
      r, rx, result, wire := ReadBytes(b, sendStop, length);
  }

  /** Replaying from the front: the first transfer, then the rest from where it left the bus. */
  lemma ReplayStep(peer: seq<byte>, started: bool, taken: nat, ts: seq<Transfer>, i: nat)
    requires i < |ts|
    ensures Replay(peer, started, taken, ts[i..]) ==
      var first := Effect(peer, started, taken, ts[i]);
      var rest := Replay(peer, first.started, first.taken, ts[i + 1..]);
      Outcome(first.events + rest.events, first.results + rest.results, first.rx + rest.rx, rest.started, rest.taken)
  {
    assert ts[i..][0] == ts[i] && ts[i..][1..] == ts[i + 1..];
  }

  /** Two runs of transfers back to back: the second starts where the first left the bus. */
  lemma {:induction false} ReplayAppend(peer: seq<byte>, started: bool, taken: nat, xs: seq<Transfer>, ys: seq<Transfer>)
    ensures Replay(peer, started, taken, xs + ys) ==
      var first := Replay(peer, started, taken, xs);
      var rest := Replay(peer, first.started, first.taken, ys);
      Outcome(first.events + rest.events, first.results + rest.results, first.rx + rest.rx, rest.started, rest.taken)
    decreases |xs|
  {
    if |xs| == 0 {
      assert xs + ys == ys;
    } else {
      assert (xs + ys)[0] == xs[0] && (xs + ys)[1..] == xs[1..] + ys;
      var e := Effect(peer, started, taken, xs[0]);
      ReplayAppend(peer, e.started, e.taken, xs[1..], ys);
      var mid := Replay(peer, e.started, e.taken, xs[1..]);
      var rest := Replay(peer, mid.started, mid.taken, ys);
      Assoc(e.events, mid.events, rest.events);
      Assoc(e.results, mid.results, rest.results);
      Assoc(e.rx, mid.rx, rest.rx);
    }
  }

  /** Replaying one more transfer continues from where the ones before left the bus. */
  lemma ReplaySnoc(peer: seq<byte>, started: bool, taken: nat, ts: seq<Transfer>, i: nat)
    requires i < |ts|
    ensures Replay(peer, started, taken, ts[..i + 1]) ==
      var done := Replay(peer, started, taken, ts[..i]);
      var next := Effect(peer, done.started, done.taken, ts[i]);
      Outcome(done.events + next.events, done.results + next.results, done.rx + next.rx, next.started, next.taken)
  {
    var done := Replay(peer, started, taken, ts[..i]);
    var next := Effect(peer, done.started, done.taken, ts[i]);
    assert ts[..i + 1] == ts[..i] + [ts[i]];
    ReplayAppend(peer, started, taken, ts[..i], [ts[i]]);
    assert [ts[i]][1..] == [];
    assert Replay(peer, done.started, done.taken, [ts[i]]) == Outcome(next.events + [], next.results + [], next.rx + [], next.started, next.taken);
    assert next.events + [] == next.events && next.results + [] == next.results && next.rx + [] == next.rx;
  }

  /**
   The driver has run the first `i` transfers of `ts` from `b`: the bus,
   the accumulated status and the collected results and bytes are what
   replaying them says.
   */
  predicate Ran(b: Bus, ts: seq<Transfer>, i: nat, r: Bus, status: byte, results: seq<byte>, rx: seq<byte>)
    requires i <= |ts|
  {
    var done := Replay(b.peer, b.started, b.taken, ts[..i]);
    r.peer == b.peer && status == OrAll(results) && r.events == b.events + done.events
    && results == done.results && rx == done.rx && After(done, r)
  }

  /**
   What the first `i` transfers of `ts` did to the port: `wire` is the line
   activity of their events, SCL is where those events leave it, and only
   the two line bits changed.
   */
  predicate Traced(b: Bus, ts: seq<Transfer>, i: nat, r: Bus, wire: seq<Access>)
    requires i <= |ts|
  {
    var done := Replay(b.peer, b.started, b.taken, ts[..i]).events;
    LinesOnly(b, r) && wire == Rendered(done, b.port.scl) && r.port.scl == SclAfter(done, b.port.scl)
  }

  /** One more transfer extends the traced line activity by its own. */
  lemma TracedStep(b: Bus, ts: seq<Transfer>, i: nat, r: Bus, wire: seq<Access>, r': Bus, w: seq<Access>)
    requires i < |ts| && Traced(b, ts, i, r, wire) && After(Replay(b.peer, b.started, b.taken, ts[..i]), r)
    requires w == Rendered(Effect(b.peer, r.started, r.taken, ts[i]).events, r.port.scl)
    requires r'.port.scl == SclAfter(Effect(b.peer, r.started, r.taken, ts[i]).events, r.port.scl) && LinesOnly(r, r')
    ensures Traced(b, ts, i + 1, r', wire + w)
  {
    var done := Replay(b.peer, b.started, b.taken, ts[..i]).events;
    var next := Effect(b.peer, r.started, r.taken, ts[i]).events;
    ReplaySnoc(b.peer, b.started, b.taken, ts, i);
    RenderedAppend(done, next, b.port.scl);
  }

  /** One pass of `Run`: transfer number `i`, its status OR-ed in. */
  method RunStep(b: Bus, ts: seq<Transfer>, i: nat, r: Bus, status: byte, results: seq<byte>, rx: seq<byte>,
                 ghost wire: seq<Access>)
    returns (r': Bus, status': byte, results': seq<byte>, rx': seq<byte>, ghost wire': seq<Access>)
    requires i < |ts| && Ran(b, ts, i, r, status, results, rx) && Traced(b, ts, i, r, wire)
    ensures Ran(b, ts, i + 1, r', status', results', rx') && Traced(b, ts, i + 1, r', wire')
  {
    ghost var done := Replay(b.peer, b.started, b.taken, ts[..i]);
    ReplaySnoc(b.peer, b.started, b.taken, ts, i);
    var result, got;
    ghost var w;
    r', result, got, w := Perform(r, ts[i]);
    TracedStep(b, ts, i, r, wire, r', w);
    Assoc(b.events, done.events, Effect(b.peer, r.started, r.taken, ts[i]).events);
    OrAllSnoc(results, result);
    status', results', rx', wire' := status | result, results + [result], rx + got, wire + w;
  }

  /**
   Runs `ts` in order through the driver, OR-ing every call's status into
   the result, and collects the bytes the reads store.
   */
  method Run(b: Bus, ts: seq<Transfer>) returns (r: Bus, status: byte, results: seq<byte>, rx: seq<byte>,
                                               ghost wire: seq<Access>)
    ensures r.events == b.events + Replay(b.peer, b.started, b.taken, ts).events
    ensures wire == Rendered(Replay(b.peer, b.started, b.taken, ts).events, b.port.scl)
    ensures results == Replay(b.peer, b.started, b.taken, ts).results
    ensures rx == Replay(b.peer, b.started, b.taken, ts).rx
    ensures status == OrAll(results)
    ensures After(Replay(b.peer, b.started, b.taken, ts), r)
    ensures r.port.scl == SclAfter(Replay(b.peer, b.started, b.taken, ts).events, b.port.scl) && LinesOnly(b, r)
  {
    r, status, results, rx, wire := b, 0, [], [], [];
    var i := 0;
    assert ts[..0] == [];
    while i < |ts|
      invariant i <= |ts| && Ran(b, ts, i, r, status, results, rx) && Traced(b, ts, i, r, wire)
    {
      r, status, results, rx, wire := RunStep(b, ts, i, r, status, results, rx, wire);
      i := i + 1;
    }
    assert ts[..|ts|] == ts;
  }

  // ---------------------------------------------------------------------------
  // Status of a run of writes

  /** A run of writeBytes calls only. */
  predicate AllWrites(ts: seq<Transfer>)
  {
    forall i :: 0 <= i < |ts| ==> ts[i].Write?
  }

  /** The number of bytes a run of writes sends, each of them acknowledged by one sample. */
  function Bytes(ts: seq<Transfer>): nat
    requires AllWrites(ts)
    decreases |ts|
  {
    if |ts| == 0 then 0 else |ts[0].tx| + Bytes(ts[1..])
  }

  /** The levels of two consecutive stretches of samples, back to back. */
  lemma {:induction false} LevelsAppend(peer: seq<byte>, from: nat, m: nat, n: nat)
    ensures Levels(peer, from, m + n) == Levels(peer, from, m) + Levels(peer, from + m, n)
    decreases n
  {
    if n > 0 {
      LevelsAppend(peer, from, m, n - 1);
      LevelsSnoc(peer, from, m + n - 1);
      LevelsSnoc(peer, from + m, n - 1);
      Assoc(Levels(peer, from, m), Levels(peer, from + m, n - 1), [Level(peer, from + m + n - 1)]);
    }
  }

  /** The bytes of two runs of writes back to back. */
  lemma {:induction false} BytesAppend(xs: seq<Transfer>, ys: seq<Transfer>)
    requires AllWrites(xs) && AllWrites(ys)
    ensures AllWrites(xs + ys) && Bytes(xs + ys) == Bytes(xs) + Bytes(ys)
    decreases |xs|
  {
    if |xs| > 0 {
      assert (xs + ys)[1..] == xs[1..] + ys;
      assert AllWrites(xs[1..]) by {
        forall i | 0 <= i < |xs[1..]| ensures xs[1..][i].Write? {
          assert xs[1..][i] == xs[i + 1];
        }
      }
      BytesAppend(xs[1..], ys);
    } else {
      assert xs + ys == ys;
    }
  }

  /** A frame sends the address byte, the register byte and the payload. */
  lemma FrameBytes(address: byte, reg: byte, payload: seq<byte>)
    ensures AllWrites(Frame(address, reg, payload)) && Bytes(Frame(address, reg, payload)) == 2 + |payload|
  {
    var f := Frame(address, reg, payload);
    assert f[1..][1..][1..] == [];
    assert Bytes(f[1..][1..]) == |payload|;
  }

  /** Two 0/1 flags OR-ed together are the flag of either. */
  lemma FlagOr(x: bool, y: bool)
    ensures Flag(x) | Flag(y) == Flag(x || y)
  {
  }

  /**
   A run of writes takes one sample per byte, each the byte's
   acknowledgement, and its accumulated status is 1 exactly when one of them
   was a NACK, and 0 otherwise.
   */
  lemma {:induction false} WritesStatus(peer: seq<byte>, started: bool, taken: nat, ts: seq<Transfer>)
    requires AllWrites(ts)
    ensures Replay(peer, started, taken, ts).taken == taken + Bytes(ts)
    ensures OrAll(Replay(peer, started, taken, ts).results) == Flag(true in Levels(peer, taken, Bytes(ts)))
    ensures Replay(peer, started, taken, ts).rx == []
    decreases |ts|
  {
    if |ts| > 0 {
      var n := |ts[0].tx|;
      var first := Effect(peer, started, taken, ts[0]);
      assert AllWrites(ts[1..]) by {
        forall i | 0 <= i < |ts[1..]| ensures ts[1..][i].Write? {
          assert ts[1..][i] == ts[i + 1];
        }
      }
      WritesStatus(peer, first.started, first.taken, ts[1..]);
      var rest := Replay(peer, first.started, first.taken, ts[1..]);
      var xs := first.results + rest.results;
      var l1, l2 := Levels(peer, taken, n), Levels(peer, taken + n, Bytes(ts[1..]));
      assert xs[0] == Flag(true in l1) && xs[1..] == rest.results;
      assert OrAll(xs) == Flag(true in l1) | Flag(true in l2);
      FlagOr(true in l1, true in l2);
      LevelsAppend(peer, taken, n, Bytes(ts[1..]));
      assert Bytes(ts) == n + Bytes(ts[1..]);
      assert (true in l1 + l2) == (true in l1 || true in l2);
    }
  }

  /**
   The `started` flag is never cleared: once set, it stays set through any
   run of transfers, and a run that begins with a START leaves it set.
   */
  lemma {:induction false} StartedSticks(peer: seq<byte>, started: bool, taken: nat, ts: seq<Transfer>)
    ensures started ==> Replay(peer, started, taken, ts).started
    ensures |ts| > 0 && ts[0].Write? && ts[0].sendStart ==> Replay(peer, started, taken, ts).started
    decreases |ts|
  {
    if |ts| > 0 {
      var first := Effect(peer, started, taken, ts[0]);
      StartedSticks(peer, first.started, first.taken, ts[1..]);
    }
  }

  // ---------------------------------------------------------------------------
  // The three operations

  /**
   `PCA9596_configAll`: three frames, 21 bytes, each acknowledged. The
   status is 1 exactly when the chip NACKed one of them.
   */
  method ConfigAll(b: Bus, d: Device) returns (r: Bus, status: byte, ghost wire: seq<Access>)
    ensures status == Flag(true in Levels(b.peer, b.taken, 21))
    ensures r.events == b.events + Replay(b.peer, b.started, b.taken, ConfigAllTransfers(d)).events
    ensures wire == Rendered(Replay(b.peer, b.started, b.taken, ConfigAllTransfers(d)).events, b.port.scl)
    ensures r.taken == b.taken + 21 && r.started && LinesOnly(b, r)
  {
    var ts := ConfigAllTransfers(d);
    ConfigAllShape(d);
    FrameBytes(d.address, AUTO_INC | CFG_IO, d.configIO);
    FrameBytes(d.address, AUTO_INC | CFG_POL, d.configPol);
    FrameBytes(d.address, AUTO_INC | CFG_INT, d.configInt);
    BytesAppend(Frame(d.address, AUTO_INC | CFG_IO, d.configIO), Frame(d.address, AUTO_INC | CFG_POL, d.configPol));
    BytesAppend(Frame(d.address, AUTO_INC | CFG_IO, d.configIO) + Frame(d.address, AUTO_INC | CFG_POL, d.configPol),
                Frame(d.address, AUTO_INC | CFG_INT, d.configInt));
    WritesStatus(b.peer, b.started, b.taken, ts);
    StartedSticks(b.peer, b.started, b.taken, ts);
    ghost var results, rx;
    r, status, results, rx, wire := Run(b, ts);
  }

  /**
   `PCA9596_writePorts`: one frame of seven bytes carrying the output bank.
   The status is 1 exactly when the chip NACKed one of them.
   */
  method WritePorts(b: Bus, d: Device) returns (r: Bus, status: byte, ghost wire: seq<Access>)
    ensures status == Flag(true in Levels(b.peer, b.taken, 7))
    ensures r.events == b.events + Replay(b.peer, b.started, b.taken, WritePortsTransfers(d)).events
    ensures wire == Rendered(Replay(b.peer, b.started, b.taken, WritePortsTransfers(d)).events, b.port.scl)
    ensures r.taken == b.taken + 7 && r.started && LinesOnly(b, r)
  {
    var ts := WritePortsTransfers(d);
    FrameBytes(d.address, AUTO_INC | OUTPUT | PORT0, d.outPort);
    WritesStatus(b.peer, b.started, b.taken, ts);
    StartedSticks(b.peer, b.started, b.taken, ts);
    ghost var results, rx;
    r, status, results, rx, wire := Run(b, ts);
  }

  /** The three writes of readPorts send one byte each. */
  lemma SelectInputsBytes(d: Device)
    ensures AllWrites(SelectInputs(d)) && Bytes(SelectInputs(d)) == 3
  {
    var ts := SelectInputs(d);
    assert ts[1..][1..][1..] == [];
    assert ts[1..][1..] == [ts[2]] && ts[1..] == [ts[1], ts[2]];
    assert Bytes([ts[2]]) == 1 && Bytes([ts[1], ts[2]]) == 2;
  }

  /** Reading `length` bytes with STOP: the bytes, the last byte as the result, `8 * length` samples. */
  lemma ReadReplay(peer: seq<byte>, started: bool, taken: nat, length: nat)
    ensures Replay(peer, started, taken, [Read(true, length)]) ==
      var rx := Incoming(peer, taken, length);
      Outcome(ReadEvents(true, rx), [if length == 0 then 0 else rx[length - 1]], rx, true, taken + 8 * length)
  {
    var o := Effect(peer, started, taken, Read(true, length));
    assert [Read(true, length)][1..] == [];
    assert o.events + [] == o.events && o.results + [] == o.results && o.rx + [] == o.rx;
  }

  /**
   What readPorts does, transfer by transfer: the three writes take one
   acknowledgement sample each and leave the flag set, then the read takes
   the five bytes that follow, and returns the last of them.
   */
  lemma ReadPortsReplay(peer: seq<byte>, started: bool, taken: nat, d: Device)
    ensures var select := Replay(peer, started, taken, SelectInputs(d));
      var rx := Incoming(peer, taken + 3, 5);
      var o := Replay(peer, started, taken, ReadPortsTransfers(d));
      OrAll(select.results) == Flag(true in Levels(peer, taken, 3))
      && o.events == select.events + ReadEvents(true, rx)
      && o.results == select.results + [rx[4]]
      && o.rx == rx && o.started && o.taken == taken + 43
  {
    var select := SelectInputs(d);
    SelectInputsBytes(d);
    WritesStatus(peer, started, taken, select);
    StartedSticks(peer, started, taken, select);
    var o1 := Replay(peer, started, taken, select);
    assert o1.started && o1.taken == taken + 3;
    var rx := Incoming(peer, taken + 3, 5);
    ReadReplay(peer, true, taken + 3, MAX_PORTS);
    var o2 := Replay(peer, true, taken + 3, [Read(true, MAX_PORTS)]);
    assert o2 == Outcome(ReadEvents(true, rx), [rx[4]], rx, true, taken + 43);
    ReplayAppend(peer, started, taken, select, [Read(true, MAX_PORTS)]);
    assert Replay(peer, started, taken, ReadPortsTransfers(d)) ==
      Outcome(o1.events + o2.events, o1.results + o2.results, [] + rx, true, taken + 43);
  }

  /**
   `PCA9596_readPorts`, as written: the five bytes read land in `inPort`,
   nothing else of the record changes, and the status ORs the last byte
   read in with the three acknowledgement flags, because that is what
   readBytes returns.
   */
  method ReadPorts(b: Bus, d: Device) returns (r: Bus, d': Device, status: byte, ghost wire: seq<Access>)
    ensures d' == d.(inPort := Incoming(b.peer, b.taken + 3, 5))
    ensures status == Flag(true in Levels(b.peer, b.taken, 3)) | d'.inPort[4]
    ensures r.events == b.events + Replay(b.peer, b.started, b.taken, ReadPortsTransfers(d)).events
    ensures wire == Rendered(Replay(b.peer, b.started, b.taken, ReadPortsTransfers(d)).events, b.port.scl)
    ensures r.taken == b.taken + 43 && r.started && LinesOnly(b, r)
  {
    ReadPortsReplay(b.peer, b.started, b.taken, d);
    var results, rx;
    r, status, results, rx, wire := Run(b, ReadPortsTransfers(d));
    d' := d.(inPort := rx);
    OrAllSnoc(Replay(b.peer, b.started, b.taken, SelectInputs(d)).results, rx[4]);
  }

  /**
   readPorts with the status it is evidently meant to return: the OR of its
   three writes only. It is nonzero exactly when the chip NACKed one of the
   three bytes, whatever the input ports hold.
   */
  method ReadPortsChecked(b: Bus, d: Device) returns (r: Bus, d': Device, status: byte, ghost wire: seq<Access>)
    ensures d' == d.(inPort := Incoming(b.peer, b.taken + 3, 5))
    ensures status == Flag(true in Levels(b.peer, b.taken, 3))
    ensures r.events == b.events + Replay(b.peer, b.started, b.taken, ReadPortsTransfers(d)).events
    ensures wire == Rendered(Replay(b.peer, b.started, b.taken, ReadPortsTransfers(d)).events, b.port.scl)
    ensures r.taken == b.taken + 43 && r.started && LinesOnly(b, r)
  {
    var select := SelectInputs(d);
    SelectInputsBytes(d);
    WritesStatus(b.peer, b.started, b.taken, select);
    StartedSticks(b.peer, b.started, b.taken, select);
    ghost var o1 := Replay(b.peer, b.started, b.taken, select);
    ReadReplay(b.peer, o1.started, o1.taken, MAX_PORTS);
    ReplayAppend(b.peer, b.started, b.taken, select, [Read(true, MAX_PORTS)]);
    var mid, results, rx, last;
    ghost var w1, w2;
    mid, status, results, rx, w1 := Run(b, select);
    r, last, results, rx, w2 := Run(mid, [Read(true, MAX_PORTS)]);
    d' := d.(inPort := rx);
    wire := w1 + w2;
    ghost var e2 := Replay(b.peer, o1.started, o1.taken, [Read(true, MAX_PORTS)]).events;
    Assoc(b.events, o1.events, e2);
    RenderedAppend(o1.events, e2, b.port.scl);
  }

  /** The checked status is nonzero exactly when one of the three acknowledgement samples read high. */
  lemma ChecksAcks(peer: seq<byte>, taken: nat)
    ensures Flag(true in Levels(peer, taken, 3)) != 0 <==> Level(peer, taken) || Level(peer, taken + 1) || Level(peer, taken + 2)
  {
    var acks := Levels(peer, taken, 3);
    assert acks == [acks[0], acks[1], acks[2]];
  }

  /** A chip that pulls SDA low on the first three samples ACKs all three bytes. */
  lemma AcksLow(peer: seq<byte>)
    requires |peer| == 3 && peer[0] == peer[1] == peer[2] == Present(false)
    ensures Flag(true in Levels(peer, 0, 3)) == 0
  {
    ChecksAcks(peer, 0);
  }

  /** Once the chip's samples run out SDA reads high, so every further byte read is 0xFF. */
  lemma ReleasedReadsFF(peer: seq<byte>, from: nat)
    requires |peer| <= from
    ensures FromBits(Levels(peer, from, 8)) == 0xFF
  {
    var high := Levels(peer, from, 8);
    forall i | 0 <= i < 8 ensures high[i] == BitsOf(0xFF)[i] {
      assert Sample(peer, from + i) == Present(true);
      assert Level(peer, from + i);
      MaskBit(0xFF, i);
      assert 0xFF & Mask(i) != 0;
    }
    assert high == BitsOf(0xFF);
    FromBitsOf(0, 0xFF);
  }

  /**
   A chip that ACKs all three bytes and whose input ports read 0xFF (SDA
   left high on every data bit): readPorts as written reports 0xFF, an
   error, where the checked status is 0.
   */
  lemma ReadPortsReportsInput()
    ensures var peer := [Present(false), Present(false), Present(false)];
      Flag(true in Levels(peer, 0, 3)) == 0
      && Incoming(peer, 3, 5)[4] == 0xFF
      && Flag(true in Levels(peer, 0, 3)) | Incoming(peer, 3, 5)[4] == 0xFF
  {
    var peer: seq<byte> := [Present(false), Present(false), Present(false)];
    AcksLow(peer);
    ReleasedReadsFF(peer, 35);
    IncomingSnoc(peer, 3, 4);
    var acks, rx := Flag(true in Levels(peer, 0, 3)), Incoming(peer, 3, 5);
    assert acks == 0 && rx[4] == 0xFF;
  }
}
