/**
 The bit-banged I2C master of I2C_Driver.c, as a state machine over an
 immutable bus record.

 The record holds the two registers the driver touches (the user-port
 output image and its direction register), the `started` flag, and the
 environment: the register images the driver will read back each time it
 samples SDA (the peer oracle). It also keeps `events`, the bus conditions
 and bits in the order the driver produces them. Every method that clocks
 the bus also returns, as a ghost value, the line levels each of its port
 accesses leaves: `Render(e, scl)` for a single event `e`, and
 `Rendered(es, scl)` for the events `es` of a byte loop or a whole call, so
 that what a device on the bus hears can be checked against the events
 (module WireCheck).

 Only the default build is modelled: no ARBITRATION checks, outputs active
 high, no delays and no clock-stretching waits (both are commented out).
 */
module I2CDriver {
  import opened Bits
  import opened LineDriver
  import opened BusMonitor

  /** What the driver puts on the bus, in the order it does so. */
  datatype Event =
    | Start            // START from the fresh-start path of start()
    | RepStart         // START from the repeated-start path of start()
    | Stop             // STOP from stop()
    | WBit(high: bool) // a bit clocked out by write_bit()
    | RBit(high: bool) // a bit clocked in by read_bit(), as sampled

  /**
   The driver's world. `peer` lists the register images the port shows on
   successive SDA samples and `taken` counts the samples taken so far; once
   the list runs out, nobody drives SDA and the line reads as pulled up.
   */
  datatype Bus = Bus(
    port: Port,
    ddr: byte,
    started: bool,
    peer: seq<byte>,
    taken: nat,
    events: seq<Event>)

  /** A bus together with the byte an operation returned. */
  datatype Reply = Reply(bus: Bus, value: byte)

  // ---------------------------------------------------------------------------
  // The peer oracle

  /** The register image the port shows on sample number `i`. */
  function Sample(peer: seq<byte>, i: nat): byte
  {
    if i < |peer| then peer[i] else RELEASED
  }

  /** The SDA level sample number `i` reads: true is high (a 1 bit, or a NACK). */
  predicate Level(peer: seq<byte>, i: nat)
  {
    ReadSDA(Sample(peer, i)) == 1
  }

  /** The levels of the `n` samples from number `from` on. */
  function Levels(peer: seq<byte>, from: nat, n: nat): (levels: seq<bool>)
    ensures |levels| == n
  {
    seq(n, i requires 0 <= i < n => Level(peer, from + i))
  }

  /** One more sample extends the levels by that sample's level. */
  lemma LevelsSnoc(peer: seq<byte>, from: nat, n: nat)
    ensures Levels(peer, from, n + 1) == Levels(peer, from, n) + [Level(peer, from + n)]
  {
  }

  // ---------------------------------------------------------------------------
  // Event blocks

  /** The events of clocking out `bits`. */
  function WBits(bits: seq<bool>): (es: seq<Event>)
    ensures |es| == |bits|
  {
    seq(|bits|, i requires 0 <= i < |bits| => WBit(bits[i]))
  }

  /** The events of clocking in `bits`. */
  function RBits(bits: seq<bool>): (es: seq<Event>)
    ensures |es| == |bits|
  {
    seq(|bits|, i requires 0 <= i < |bits| => RBit(bits[i]))
  }

  lemma WBitsSnoc(log: seq<Event>, bits: seq<bool>, k: nat)
    requires k < |bits|
    ensures WBits(bits[..k + 1]) == WBits(bits[..k]) + [WBit(bits[k])]
    ensures log + WBits(bits[..k + 1]) == log + WBits(bits[..k]) + [WBit(bits[k])]
  {
    assert WBits(bits[..k + 1]) == WBits(bits[..k]) + [WBit(bits[k])];
  }

  lemma RBitsSnoc(log: seq<Event>, bits: seq<bool>, high: bool)
    ensures RBits(bits + [high]) == RBits(bits) + [RBit(high)]
    ensures log + RBits(bits + [high]) == log + RBits(bits) + [RBit(high)]
  {
    assert RBits(bits + [high]) == RBits(bits) + [RBit(high)];
  }

  /** Transmitting `tx`: each byte's eight bits MSB first, then the acknowledgement the peer gave. */
  function Sent(tx: seq<byte>, acks: seq<bool>): seq<Event>
    requires |acks| == |tx|
    decreases |tx|
  {
    if |tx| == 0 then []
    else
      var n := |tx| - 1;
      Sent(tx[..n], acks[..n]) + WBits(BitsOf(tx[n])) + [RBit(acks[n])]
  }

  /** Receiving `rx`: each byte's eight bits MSB first, then an ACK (a 0 bit) from the master. */
  function Acked(rx: seq<byte>): seq<Event>
    decreases |rx|
  {
    if |rx| == 0 then []
    else
      var n := |rx| - 1;
      Acked(rx[..n]) + RBits(BitsOf(rx[n])) + [WBit(false)]
  }

  /** The bytes `n` successive 8-bit reads assemble, starting at sample number `from`. */
  function Incoming(peer: seq<byte>, from: nat, n: nat): (rx: seq<byte>)
    ensures |rx| == n
    decreases n
  {
    if n == 0 then [] else Incoming(peer, from, n - 1) + [FromBits(Levels(peer, from + 8 * (n - 1), 8))]
  }

  /** The START event `start()` records, given the `started` flag on entry. */
  function StartEvent(started: bool): Event
  {
    if started then RepStart else Start
  }

  // ---------------------------------------------------------------------------
  // How one event appears on the lines

  /**
   The line levels the driver leaves after each port write for event `e`,
   and the level it samples, when SCL is at `scl` beforehand. SDA beforehand
   does not matter: every event writes SDA first.
   */
  function Render(e: Event, scl: bool): (w: seq<Access>)
    ensures |w| >= 2 && w[0].Drove? && w[0].scl == scl
    ensures w[|w| - 1].Drove? && w[|w| - 1].scl == (e == Stop) && (e == Stop ==> w[|w| - 1].sda)
  {
    match e
    case Start => [Drove(false, scl), Drove(false, false)]
    case RepStart => [Drove(true, scl), Drove(true, true), Drove(false, true), Drove(false, false)]
    case Stop => [Drove(false, scl), Drove(false, true), Drove(true, true)]
    case WBit(high) => [Drove(high, scl), Drove(high, true), Drove(high, false)]
    case RBit(high) => [Drove(true, scl), Drove(true, true), Sampled(high), Drove(true, false)]
  }

  /** Only a read bit samples SDA, and it reads the level of that bit. */
  lemma RenderSamples(e: Event, scl: bool)
    ensures e.RBit? ==> Sampled(e.high) in Render(e, scl)
    ensures forall a :: a in Render(e, scl) && a.Sampled? ==> e.RBit? && a == Sampled(e.high)
  {
  }

  /** The levels a port write leaves on the two lines. */
  function Lines(b: Bus): Access
  {
    Drove(b.port.sda, b.port.scl)
  }

  /** Whether SCL is released after `es`, given whether it was before: only a STOP leaves it released. */
  function SclAfter(es: seq<Event>, scl: bool): bool
  {
    if |es| == 0 then scl else es[|es| - 1] == Stop
  }

  /** The line activity of the events `es`, in order, starting with SCL at `scl`. */
  function Rendered(es: seq<Event>, scl: bool): seq<Access>
    decreases |es|
  {
    if |es| == 0 then []
    else
      var n := |es| - 1;
      Rendered(es[..n], scl) + Render(es[n], SclAfter(es[..n], scl))
  }

  /** One more event is one more rendering, from the SCL level the events before it leave. */
  lemma RenderedSnoc(es: seq<Event>, e: Event, scl: bool)
    ensures Rendered(es + [e], scl) == Rendered(es, scl) + Render(e, SclAfter(es, scl))
    ensures SclAfter(es + [e], scl) == (e == Stop)
  {
    assert (es + [e])[..|es|] == es;
  }

  /** The activity of two runs of events back to back is the first's followed by the second's. */
  lemma {:induction false} RenderedAppend(x: seq<Event>, y: seq<Event>, scl: bool)
    ensures Rendered(x + y, scl) == Rendered(x, scl) + Rendered(y, SclAfter(x, scl))
    ensures SclAfter(x + y, scl) == SclAfter(y, SclAfter(x, scl))
    decreases |y|
  {
    if |y| == 0 {
      assert x + y == x;
    } else {
      var n := |y| - 1;
      var init, e := y[..n], y[n];
      assert x + y == (x + init) + [e];
      assert y == init + [e];
      var s := SclAfter(x, scl);
      RenderedAppend(x, init, scl);
      RenderedSnoc(x + init, e, scl);
      RenderedSnoc(init, e, s);
      var a, b, c := Rendered(x, scl), Rendered(init, s), Render(e, SclAfter(init, s));
      assert Rendered(x + y, scl) == (a + b) + c;
      Assoc(a, b, c);
    }
  }

  // ---------------------------------------------------------------------------
  // Line primitives: one port access each

  /** Everything but the port register is as it was. */
  predicate Keeps(b: Bus, r: Bus)
  {
    r.ddr == b.ddr && r.started == b.started && r.peer == b.peer
    && r.taken == b.taken && r.events == b.events
  }

  /** `set_SDA`: release SDA; SCL and the other port bits are left as they were. */
  function SetSDA(b: Bus): (r: Bus)
    ensures r.port.sda
    ensures r.port.scl == b.port.scl && r.port.others == b.port.others
    ensures Keeps(b, r)
  {
    b.(port := b.port.(sda := true))
  }

  /** `clear_SDA`: drive SDA low; SCL and the other port bits are left as they were. */
  function ClearSDA(b: Bus): (r: Bus)
    ensures !r.port.sda
    ensures r.port.scl == b.port.scl && r.port.others == b.port.others
    ensures Keeps(b, r)
  {
    b.(port := b.port.(sda := false))
  }

  /** `set_SCL`: release SCL; SDA and the other port bits are left as they were. */
  function SetSCL(b: Bus): (r: Bus)
    ensures r.port.scl
    ensures r.port.sda == b.port.sda && r.port.others == b.port.others
    ensures Keeps(b, r)
  {
    b.(port := b.port.(scl := true))
  }

  /** `clear_SCL`: drive SCL low; SDA and the other port bits are left as they were. */
  function ClearSCL(b: Bus): (r: Bus)
    ensures !r.port.scl
    ensures r.port.sda == b.port.sda && r.port.others == b.port.others
    ensures Keeps(b, r)
  {
    b.(port := b.port.(scl := false))
  }

  /**
   Each primitive is one read-modify-write of the port register: `|=` or
   `&= ~` of its line's output bit on the register image.
   */
  lemma PrimitivesOnRegister(b: Bus)
    ensures Image(SetSDA(b).port) == Release(Image(b.port), SDA_OUT)
    ensures Image(ClearSDA(b).port) == Drive(Image(b.port), SDA_OUT)
    ensures Image(SetSCL(b).port) == Release(Image(b.port), SCL_OUT)
    ensures Image(ClearSCL(b).port) == Drive(Image(b.port), SCL_OUT)
  {
    SdaUpdates(b.port);
    SclUpdates(b.port);
  }

  /** `read_SDA` on the bus: take the next register image from the peer and read SDA from it. */
  function SampleSDA(b: Bus): (r: Reply)
    ensures r.value == Flag(Level(b.peer, b.taken))
    ensures r.bus.taken == b.taken + 1
    ensures r.bus.port == b.port && r.bus.ddr == b.ddr && r.bus.started == b.started
    ensures r.bus.peer == b.peer && r.bus.events == b.events
  {
    Reply(b.(taken := b.taken + 1), ReadSDA(Sample(b.peer, b.taken)))
  }

  // ---------------------------------------------------------------------------
  // Bit transport

  /** The direction register, the `started` flag, the peer and the non-bus port bits are as they were. */
  predicate Steady(b: Bus, r: Bus)
  {
    r.ddr == b.ddr && r.started == b.started && r.peer == b.peer && r.port.others == b.port.others
  }

  /**
   `write_bit`: put the bit on SDA while SCL is low, raise SCL, lower it.
   Any nonzero argument is a 1 bit. `wire` is what the three port writes
   leave on the lines.
   */
  method WriteBit(b: Bus, bit: byte) returns (r: Bus, ghost wire: seq<Access>)
    ensures r.events == b.events + [WBit(bit != 0)]
    ensures wire == Render(WBit(bit != 0), b.port.scl)
    ensures r.port.sda == (bit != 0) && !r.port.scl
    ensures r.taken == b.taken && Steady(b, r)
  {
    r := if bit != 0 then SetSDA(b) else ClearSDA(b);
    wire := [Lines(r)];
    r := SetSCL(r);
    wire := wire + [Lines(r)];
    r := ClearSCL(r);
    wire := wire + [Lines(r)];
    r := r.(events := r.events + [WBit(bit != 0)]);
  }

  /**
   `read_bit`: release SDA so the peer can drive it, raise SCL, sample SDA,
   lower SCL. Returns the sampled level as 0 or 1.
   */
  method ReadBit(b: Bus) returns (r: Bus, value: byte, ghost wire: seq<Access>)
    ensures value == Flag(Level(b.peer, b.taken))
    ensures r.events == b.events + [RBit(Level(b.peer, b.taken))]
    ensures wire == Render(RBit(Level(b.peer, b.taken)), b.port.scl)
    ensures r.port.sda && !r.port.scl
    ensures r.taken == b.taken + 1 && Steady(b, r)
  {
    r := SetSDA(b);
    wire := [Lines(r)];
    r := SetSCL(r);
    wire := wire + [Lines(r)];
    var s := SampleSDA(r);
    value := s.value;
    wire := wire + [Sampled(value == 1)];
    r := ClearSCL(s.bus);
    wire := wire + [Lines(r)];
    r := r.(events := r.events + [RBit(value == 1)]);
  }

  // ---------------------------------------------------------------------------
  // Protocol engine

  /**
   `start`: if a START was issued before, first release SDA and SCL (the
   repeated-start setup); then drive SDA low while SCL is high, then SCL low.
   */
  method IssueStart(b: Bus) returns (r: Bus, ghost wire: seq<Access>)
    ensures r.events == b.events + [StartEvent(b.started)]
    ensures wire == Render(StartEvent(b.started), b.port.scl)
    ensures !r.port.sda && !r.port.scl && r.started
    ensures r.taken == b.taken && r.ddr == b.ddr && r.peer == b.peer && r.port.others == b.port.others
  {
    r := b;
    wire := [];
    if r.started {
      r := SetSDA(r);
      wire := wire + [Lines(r)];
      r := SetSCL(r);
      wire := wire + [Lines(r)];
    }
    r := ClearSDA(r);
    wire := wire + [Lines(r)];
    r := ClearSCL(r);
    wire := wire + [Lines(r)];
    r := r.(started := true, events := r.events + [StartEvent(b.started)]);
  }

  /**
   `stop`: drive SDA low, release SCL, then release SDA while SCL is high.
   As written, it sets `started` to 1 rather than clearing it.
   */
  method IssueStop(b: Bus) returns (r: Bus, ghost wire: seq<Access>)
    ensures r.events == b.events + [Stop]
    ensures wire == Render(Stop, b.port.scl)
    ensures r.port.sda && r.port.scl && r.started
    ensures r.taken == b.taken && r.ddr == b.ddr && r.peer == b.peer && r.port.others == b.port.others
  {
    r := ClearSDA(b);
    wire := [Lines(r)];
    r := SetSCL(r);
    wire := wire + [Lines(r)];
    r := SetSDA(r);
    wire := wire + [Lines(r)];
    r := r.(started := true, events := r.events + [Stop]);
  }

  // ---------------------------------------------------------------------------
  // Byte transfer

  /**
   The bit loop of writeBytes, with the mask halved on every pass: write
   bit `(x & mask) != 0` for mask = 0x80, 0x40, ..., 0x01. `wire` is what
   the port writes of the eight bits leave on the lines.
   */
  method WriteByte(b: Bus, x: byte) returns (r: Bus, ghost wire: seq<Access>)
    ensures r.events == b.events + WBits(BitsOf(x))
    ensures wire == Rendered(WBits(BitsOf(x)), b.port.scl)
    ensures !r.port.scl
    ensures r.taken == b.taken && Steady(b, r)
  {
    r := b;
    wire := [];
    var mask: byte := 0x80;
    ghost var k := 0;
    while mask >= 1
      invariant k <= 8 && mask == Mask(k) && (mask >= 1 <==> k < 8)
      invariant r.events == b.events + WBits(BitsOf(x)[..k])
      invariant wire == Rendered(WBits(BitsOf(x)[..k]), b.port.scl)
      invariant r.port.scl == SclAfter(WBits(BitsOf(x)[..k]), b.port.scl)
      invariant k > 0 ==> !r.port.scl
      invariant r.taken == b.taken && Steady(b, r)
      decreases 8 - k
    {
      MaskBit(x, k);
      WBitsSnoc(b.events, BitsOf(x), k);
      RenderedSnoc(WBits(BitsOf(x)[..k]), WBit(BitsOf(x)[k]), b.port.scl);
      ghost var w;
      r, w := WriteBit(r, Flag(x & mask != 0));
      wire := wire + w;
      mask := mask >> 1;
      k := k + 1;
    }
    assert BitsOf(x)[..8] == BitsOf(x);
  }

  /** One more byte and its acknowledgement extend the transmission by that byte's events. */
  lemma SentSnoc(log: seq<Event>, tx: seq<byte>, acks: seq<bool>, i: nat)
    requires i < |tx| == |acks|
    ensures Sent(tx[..i + 1], acks[..i + 1]) == Sent(tx[..i], acks[..i]) + WBits(BitsOf(tx[i])) + [RBit(acks[i])]
    ensures log + Sent(tx[..i + 1], acks[..i + 1]) == log + Sent(tx[..i], acks[..i]) + WBits(BitsOf(tx[i])) + [RBit(acks[i])]
  {
    assert tx[..i + 1][..i] == tx[..i];
    assert acks[..i + 1][..i] == acks[..i];
    assert Sent(tx[..i + 1], acks[..i + 1]) == Sent(tx[..i], acks[..i]) + WBits(BitsOf(tx[i])) + [RBit(acks[i])];
  }

  /** OR-ing one more acknowledgement into a 0/1 flag keeps it the flag of "some NACK so far". */
  lemma NackSnoc(acks: seq<bool>, i: nat)
    requires i < |acks|
    ensures Flag(true in acks[..i]) | Flag(acks[i]) == Flag(true in acks[..i + 1])
  {
    assert acks[..i + 1] == acks[..i] + [acks[i]];
  }

  /**
   After `i` bytes of a byte loop started with SCL at `scl`, the line
   activity so far renders the events `done`, and SCL is low unless no byte
   has been clocked yet.
   */
  predicate Rendering(done: seq<Event>, scl: bool, i: nat, r: Bus, wire: seq<Access>)
  {
    wire == Rendered(done, scl) && r.port.scl == (i == 0 && scl) && r.port.scl == SclAfter(done, scl)
  }

  /**
   The byte loop of writeBytes has sent the first `i` bytes of `tx` from
   `b`: their events, the line activity of those events, and the NACK flag
   of their acknowledgements.
   */
  predicate Sending(b: Bus, tx: seq<byte>, i: nat, r: Bus, nack: byte, wire: seq<Access>)
    requires i <= |tx|
  {
    Written(b, tx, i, r, nack) && Rendering(Sent(tx[..i], Levels(b.peer, b.taken, |tx|)[..i]), b.port.scl, i, r, wire)
  }

  /** The events, NACK flag and samples of `Sending`. */
  predicate Written(b: Bus, tx: seq<byte>, i: nat, r: Bus, nack: byte)
    requires i <= |tx|
  {
    var acks := Levels(b.peer, b.taken, |tx|);
    r.events == b.events + Sent(tx[..i], acks[..i]) && nack == Flag(true in acks[..i])
    && r.taken == b.taken + i && Steady(b, r)
  }

  /** Nothing is sent before the loop, and after its last pass everything is. */
  lemma SendingEnds(b: Bus, tx: seq<byte>, r: Bus, nack: byte, wire: seq<Access>)
    ensures Sending(b, tx, 0, b, 0, [])
    ensures Sending(b, tx, |tx|, r, nack, wire) ==>
      var acks := Levels(b.peer, b.taken, |tx|);
      r.events == b.events + Sent(tx, acks) && wire == Rendered(Sent(tx, acks), b.port.scl)
      && nack == Flag(true in acks) && r.port.scl == (|tx| == 0 && b.port.scl)
      && r.port.scl == SclAfter(Sent(tx, acks), b.port.scl) && r.taken == b.taken + |tx| && Steady(b, r)
  {
    var acks := Levels(b.peer, b.taken, |tx|);
    assert tx[..0] == [] && acks[..0] == [];
    assert tx[..|tx|] == tx && acks[..|tx|] == acks;
  }

  /**
   A byte's eight bits and the acknowledgement bit after them, clocked
   after `done`, extend the line activity by their renderings and leave SCL
   low.
   */
  lemma TraceByte(done: seq<Event>, bits: seq<Event>, e: Event, scl: bool,
                  wire: seq<Access>, w1: seq<Access>, w2: seq<Access>)
    requires |bits| > 0 && bits[|bits| - 1] != Stop && e != Stop
    requires wire == Rendered(done, scl)
    requires w1 == Rendered(bits, SclAfter(done, scl))
    requires w2 == Render(e, false)
    ensures wire + w1 + w2 == Rendered(done + bits + [e], scl)
    ensures !SclAfter(done + bits + [e], scl)
  {
    RenderedAppend(done, bits, scl);
    RenderedSnoc(done + bits, e, scl);
  }

  /** `TraceByte` for a byte the master writes, followed by the slave's acknowledgement. */
  lemma SendTrace(done: seq<Event>, x: byte, ack: bool, scl: bool,
                  wire: seq<Access>, w1: seq<Access>, w2: seq<Access>)
    requires wire == Rendered(done, scl)
    requires w1 == Rendered(WBits(BitsOf(x)), SclAfter(done, scl))
    requires w2 == Render(RBit(ack), false)
    ensures wire + w1 + w2 == Rendered(done + WBits(BitsOf(x)) + [RBit(ack)], scl)
    ensures !SclAfter(done + WBits(BitsOf(x)) + [RBit(ack)], scl)
  {
    TraceByte(done, WBits(BitsOf(x)), RBit(ack), scl, wire, w1, w2);
  }

  /** `TraceByte` for a byte the master reads, followed by its acknowledgement. */
  lemma ReceiveTrace(done: seq<Event>, x: byte, scl: bool,
                     wire: seq<Access>, w1: seq<Access>, w2: seq<Access>)
    requires wire == Rendered(done, scl)
    requires w1 == Rendered(RBits(BitsOf(x)), SclAfter(done, scl))
    requires w2 == Render(WBit(false), false)
    ensures wire + w1 + w2 == Rendered(done + RBits(BitsOf(x)) + [WBit(false)], scl)
    ensures !SclAfter(done + RBits(BitsOf(x)) + [WBit(false)], scl)
  {
    TraceByte(done, RBits(BitsOf(x)), WBit(false), scl, wire, w1, w2);
  }

  /** One pass of the byte loop: byte number `i`, then its acknowledgement, OR-ed into the flag. */
  method SendByte(b: Bus, tx: seq<byte>, i: nat, r: Bus, nack: byte, ghost wire: seq<Access>)
    returns (r': Bus, nack': byte, ghost wire': seq<Access>)
    requires i < |tx| && Sending(b, tx, i, r, nack, wire)
    ensures Sending(b, tx, i + 1, r', nack', wire')
  {
    var mid, ack;
    ghost var w1, w2;
    mid, w1 := WriteByte(r, tx[i]);
    r', ack, w2 := ReadBit(mid);
    nack' := nack | ack;
    wire' := wire + w1 + w2;
    SendStep(b, tx, i, r, nack, mid, r', ack);
    SendLines(b, tx, i, r, wire, w1, mid, w2, r');
  }

  /** A byte written and its acknowledgement read extend the events and flag of `Sending` by one byte. */
  lemma SendStep(b: Bus, tx: seq<byte>, i: nat, r: Bus, nack: byte, mid: Bus, r': Bus, ack: byte)
    requires i < |tx| && Written(b, tx, i, r, nack)
    requires mid.events == r.events + WBits(BitsOf(tx[i])) && mid.taken == r.taken && Steady(r, mid)
    requires ack == Flag(Level(mid.peer, mid.taken))
    requires r'.events == mid.events + [RBit(Level(mid.peer, mid.taken))]
    requires r'.taken == mid.taken + 1 && Steady(mid, r')
    ensures Written(b, tx, i + 1, r', nack | ack)
  {
    var acks := Levels(b.peer, b.taken, |tx|);
    assert acks[i] == Level(mid.peer, mid.taken);
    assert r'.events == b.events + Sent(tx[..i + 1], acks[..i + 1]) by {
      SentSnoc(b.events, tx, acks, i);
    }
    assert nack | ack == Flag(true in acks[..i + 1]) by {
      NackSnoc(acks, i);
    }
  }

  /** The same byte extends the line activity of `Sending` by its rendering. */
  lemma SendLines(b: Bus, tx: seq<byte>, i: nat, r: Bus, wire: seq<Access>,
                  w1: seq<Access>, mid: Bus, w2: seq<Access>, r': Bus)
    requires i < |tx| && Rendering(Sent(tx[..i], Levels(b.peer, b.taken, |tx|)[..i]), b.port.scl, i, r, wire)
    requires w1 == Rendered(WBits(BitsOf(tx[i])), r.port.scl) && !mid.port.scl
    requires mid.taken == b.taken + i
    requires w2 == Render(RBit(Level(mid.peer, mid.taken)), mid.port.scl) && mid.peer == b.peer && !r'.port.scl
    ensures Rendering(Sent(tx[..i + 1], Levels(b.peer, b.taken, |tx|)[..i + 1]), b.port.scl, i + 1, r', wire + w1 + w2)
  {
    var acks := Levels(b.peer, b.taken, |tx|);
    assert acks[i] == Level(mid.peer, mid.taken);
    SentSnoc([], tx, acks, i);
    SendTrace(Sent(tx[..i], acks[..i]), tx[i], acks[i], b.port.scl, wire, w1, w2);
  }

  /**
   The byte loop of writeBytes: every byte of `tx` MSB first, each followed
   by one acknowledgement read and OR-ed into the result. A NACK does not
   stop the loop.
   */
  method Transmit(b: Bus, tx: seq<byte>) returns (r: Bus, nack: byte, ghost wire: seq<Access>)
    ensures r.events == b.events + Sent(tx, Levels(b.peer, b.taken, |tx|))
    ensures wire == Rendered(Sent(tx, Levels(b.peer, b.taken, |tx|)), b.port.scl)
    ensures nack == Flag(true in Levels(b.peer, b.taken, |tx|))
    ensures r.port.scl == (|tx| == 0 && b.port.scl)
    ensures r.port.scl == SclAfter(Sent(tx, Levels(b.peer, b.taken, |tx|)), b.port.scl)
    ensures r.taken == b.taken + |tx| && Steady(b, r)
  {
    nack := 0;
    r := b;
    wire := [];
    ghost var acks := Levels(b.peer, b.taken, |tx|);
    var index := 0;
    SendingEnds(b, tx, r, nack, wire);
    while index < |tx|
      invariant index <= |tx| && Sending(b, tx, index, r, nack, wire)
    {
      r, nack, wire := SendByte(b, tx, index, r, nack, wire);
      index := index + 1;
    }
    SendingEnds(b, tx, r, nack, wire);
  }

  /** What writeBytes puts on the bus: an optional START, the transmission, an optional STOP. */
  function WriteEvents(started: bool, sendStart: bool, sendStop: bool, tx: seq<byte>, acks: seq<bool>): seq<Event>
    requires |acks| == |tx|
  {
    (if sendStart then [StartEvent(started)] else []) + Sent(tx, acks) + (if sendStop then [Stop] else [])
  }

  /** `if (send_start) start();` */
  method StartIf(b: Bus, sendStart: bool) returns (r: Bus, ghost wire: seq<Access>)
    ensures r.events == b.events + (if sendStart then [StartEvent(b.started)] else [])
    ensures wire == Rendered(if sendStart then [StartEvent(b.started)] else [], b.port.scl)
    ensures r.port.scl == SclAfter(if sendStart then [StartEvent(b.started)] else [], b.port.scl)
    ensures r.port.scl == (!sendStart && b.port.scl) && r.started == (b.started || sendStart)
    ensures r.taken == b.taken && r.ddr == b.ddr && r.peer == b.peer && r.port.others == b.port.others
  {
    r, wire := b, [];
    if sendStart {
      r, wire := IssueStart(b);
      RenderedOne(StartEvent(b.started), b.port.scl);
    } else {
      assert b.events + [] == b.events;
    }
  }

  /** `if (send_stop) stop();` */
  method StopIf(b: Bus, sendStop: bool) returns (r: Bus, ghost wire: seq<Access>)
    ensures r.events == b.events + (if sendStop then [Stop] else [])
    ensures wire == Rendered(if sendStop then [Stop] else [], b.port.scl)
    ensures r.port.scl == SclAfter(if sendStop then [Stop] else [], b.port.scl)
    ensures r.port.scl == (sendStop || b.port.scl) && r.started == (b.started || sendStop)
    ensures r.taken == b.taken && r.ddr == b.ddr && r.peer == b.peer && r.port.others == b.port.others
  {
    r, wire := b, [];
    if sendStop {
      r, wire := IssueStop(b);
      RenderedOne(Stop, b.port.scl);
    } else {
      assert b.events + [] == b.events;
    }
  }

  /** The line activity of a single event is its rendering. */
  lemma RenderedOne(e: Event, scl: bool)
    ensures Rendered([e], scl) == Render(e, scl)
    ensures SclAfter([e], scl) == (e == Stop)
  {
    RenderedSnoc([], e, scl);
    assert [] + [e] == [e];
  }

  /**
   An optional START, a byte loop and an optional STOP, each rendered from
   the SCL level the one before leaves, render the whole call.
   */
  lemma TraceCall(pre: seq<Event>, body: seq<Event>, post: seq<Event>, scl: bool,
                  w0: seq<Access>, w1: seq<Access>, w2: seq<Access>)
    requires w0 == Rendered(pre, scl)
    requires w1 == Rendered(body, SclAfter(pre, scl))
    requires w2 == Rendered(post, SclAfter(body, SclAfter(pre, scl)))
    ensures w0 + w1 + w2 == Rendered(pre + body + post, scl)
    ensures SclAfter(pre + body + post, scl) == SclAfter(post, SclAfter(body, SclAfter(pre, scl)))
  {
    RenderedAppend(pre, body, scl);
    RenderedAppend(pre + body, post, scl);
  }

  /**
   `writeBytes(send_start, send_stop, txArray, length)` with `tx` the first
   `length` bytes of `txArray`: optional START, the byte loop, optional
   STOP. Returns 1 if any byte was NACKed, else 0. `wire` is what all its
   port writes and samples leave on the lines.
   */
  method WriteBytes(b: Bus, sendStart: bool, sendStop: bool, tx: seq<byte>) returns (r: Bus, nack: byte, ghost wire: seq<Access>)
    ensures r.events == b.events + WriteEvents(b.started, sendStart, sendStop, tx, Levels(b.peer, b.taken, |tx|))
    ensures wire == Rendered(WriteEvents(b.started, sendStart, sendStop, tx, Levels(b.peer, b.taken, |tx|)), b.port.scl)
    ensures nack == Flag(true in Levels(b.peer, b.taken, |tx|))
    ensures r.taken == b.taken + |tx| && r.peer == b.peer
    ensures r.started == (b.started || sendStart || sendStop)
    ensures r.port.scl == if sendStop then true else if sendStart || |tx| > 0 then false else b.port.scl
    ensures r.port.scl == SclAfter(WriteEvents(b.started, sendStart, sendStop, tx, Levels(b.peer, b.taken, |tx|)), b.port.scl)
    ensures r.port.others == b.port.others && r.ddr == b.ddr
  {
    ghost var pre: seq<Event> := if sendStart then [StartEvent(b.started)] else [];
    ghost var body := Sent(tx, Levels(b.peer, b.taken, |tx|));
    ghost var post: seq<Event> := if sendStop then [Stop] else [];
    ghost var w0, w1, w2;
    var r0, r1;
    r0, w0 := StartIf(b, sendStart);
    r1, nack, w1 := Transmit(r0, tx);
    r, w2 := StopIf(r1, sendStop);
    Assoc(b.events, pre, body);
    Assoc(b.events, pre + body, post);
    TraceCall(pre, body, post, b.port.scl, w0, w1, w2);
    wire := w0 + w1 + w2;
  }

  lemma Assoc<T>(a: seq<T>, b: seq<T>, c: seq<T>)
    ensures (a + b) + c == a + (b + c)
  {
  }

  /** Shifting one more bit in after a run of bits is one more ShiftIn. */
  lemma {:induction false} FoldBitsSnoc(acc: byte, bits: seq<bool>, high: bool)
    ensures FoldBits(acc, bits + [high]) == ShiftIn(FoldBits(acc, bits), high)
    decreases |bits|
  {
    if |bits| > 0 {
      assert (bits + [high])[1..] == bits[1..] + [high];
      FoldBitsSnoc(ShiftIn(acc, bits[0]), bits[1..], high);
    }
  }

  /** One more bit clocked in extends the line activity by its rendering and leaves SCL low. */
  lemma ReadTrace(bits: seq<bool>, high: bool, scl: bool, wire: seq<Access>, w: seq<Access>)
    requires wire == Rendered(RBits(bits), scl)
    requires w == Render(RBit(high), |bits| == 0 && scl)
    ensures wire + w == Rendered(RBits(bits + [high]), scl)
  {
    RBitsSnoc([], bits, high);
    RenderedSnoc(RBits(bits), RBit(high), scl);
    if |bits| > 0 {
      assert RBits(bits)[|bits| - 1] == RBit(bits[|bits| - 1]);
    }
  }

  /**
   The bit loop of readBytes has clocked in the first `bit` of eight bits
   after `b`, shifting each into the accumulator that started as `acc`.
   */
  predicate Sampling(b: Bus, acc: byte, bit: nat, r: Bus, x: byte, wire: seq<Access>)
  {
    x == FoldBits(acc, Levels(b.peer, b.taken, bit))
    && r.events == b.events + RBits(Levels(b.peer, b.taken, bit))
    && wire == Rendered(RBits(Levels(b.peer, b.taken, bit)), b.port.scl)
    && r.port.scl == (bit == 0 && b.port.scl)
    && r.taken == b.taken + bit && Steady(b, r)
  }

  /** A bit sampled by `read_bit` and shifted into the accumulator extends `Sampling` by one bit. */
  lemma SampleStep(b: Bus, acc: byte, bit: nat, r: Bus, x: byte, wire: seq<Access>, r': Bus, x': byte, w: seq<Access>)
    requires Sampling(b, acc, bit, r, x, wire)
    requires r'.events == r.events + [RBit(Level(r.peer, r.taken))]
    requires w == Render(RBit(Level(r.peer, r.taken)), r.port.scl)
    requires x' == ShiftIn(x, Level(r.peer, r.taken))
    requires !r'.port.scl && r'.taken == r.taken + 1 && Steady(r, r')
    ensures Sampling(b, acc, bit + 1, r', x', wire + w)
  {
    var done, high := Levels(b.peer, b.taken, bit), Level(b.peer, b.taken + bit);
    assert Levels(b.peer, b.taken, bit + 1) == done + [high] by {
      LevelsSnoc(b.peer, b.taken, bit);
    }
    assert r'.events == b.events + RBits(done + [high]) by {
      RBitsSnoc(b.events, done, high);
    }
    assert wire + w == Rendered(RBits(done + [high]), b.port.scl) by {
      ReadTrace(done, high, b.port.scl, wire, w);
    }
    assert x' == FoldBits(acc, done + [high]) by {
      FoldBitsSnoc(acc, done, high);
    }
  }

  /** One pass of the bit loop: `acc = (acc << 1) | read_bit()`. */
  method SampleBit(b: Bus, acc: byte, bit: nat, r: Bus, x: byte, ghost wire: seq<Access>)
    returns (r': Bus, x': byte, ghost wire': seq<Access>)
    requires Sampling(b, acc, bit, r, x, wire)
    ensures Sampling(b, acc, bit + 1, r', x', wire')
  {
    var sample;
    ghost var w;
    r', sample, w := ReadBit(r);
    x' := (x << 1) | sample;
    wire' := wire + w;
    SampleStep(b, acc, bit, r, x, wire, r', x', w);
  }

  /**
   The bit loop of readBytes: eight times `acc = (acc << 1) | read_bit()`.
   Whatever `acc` held is shifted out; the result is the byte the next
   eight samples spell, MSB first.
   */
  method ReadByte(b: Bus, acc: byte) returns (r: Bus, x: byte, ghost wire: seq<Access>)
    ensures x == FromBits(Levels(b.peer, b.taken, 8))
    ensures r.events == b.events + RBits(BitsOf(x))
    ensures wire == Rendered(RBits(BitsOf(x)), b.port.scl)
    ensures !r.port.scl
    ensures r.taken == b.taken + 8 && Steady(b, r)
  {
    r := b;
    wire := [];
    x := acc;
    var bit := 0;
    assert Levels(b.peer, b.taken, 0) == [];
    while bit < 8
      invariant bit <= 8 && Sampling(b, acc, bit, r, x, wire)
    {
      r, x, wire := SampleBit(b, acc, bit, r, x, wire);
      bit := bit + 1;
    }
    FoldEight(acc, Levels(b.peer, b.taken, 8));
    BitsOfFrom(Levels(b.peer, b.taken, 8));
  }

  /** One more byte received extends the bytes assembled by the byte the next eight samples spell. */
  lemma IncomingSnoc(peer: seq<byte>, from: nat, n: nat)
    ensures Incoming(peer, from, n + 1) == Incoming(peer, from, n) + [FromBits(Levels(peer, from + 8 * n, 8))]
  {
  }

  /** One more byte received and ACKed extends the reception by that byte's events. */
  lemma AckedSnoc(log: seq<Event>, rx: seq<byte>, x: byte)
    ensures Acked(rx + [x]) == Acked(rx) + RBits(BitsOf(x)) + [WBit(false)]
    ensures log + Acked(rx + [x]) == log + Acked(rx) + RBits(BitsOf(x)) + [WBit(false)]
  {
    assert (rx + [x])[..|rx|] == rx;
    assert Acked(rx + [x]) == Acked(rx) + RBits(BitsOf(x)) + [WBit(false)];
  }

  /**
   The byte loop of readBytes has received the first `i` of `length` bytes
   from `b`: the bytes, the last of them in the accumulator, their events
   and the line activity of those events.
   */
  predicate Receiving(b: Bus, acc: byte, i: nat, r: Bus, rx: seq<byte>, byte: byte, wire: seq<Access>)
  {
    Received(b, acc, i, r, rx, byte) && Rendering(Acked(rx), b.port.scl, i, r, wire)
  }

  /** The bytes, accumulator, events and samples of `Receiving`. */
  predicate Received(b: Bus, acc: byte, i: nat, r: Bus, rx: seq<byte>, byte: byte)
  {
    rx == Incoming(b.peer, b.taken, i) && byte == (if i == 0 then acc else rx[i - 1])
    && r.events == b.events + Acked(rx) && r.taken == b.taken + 8 * i && Steady(b, r)
  }

  /**
   One pass of the byte loop: shift in a byte, store it, and write the
   master's `nack` (0) after it, under the guard `index < length`, which
   holds inside the loop.
   */
  method ReceiveByte(b: Bus, length: nat, acc: byte, i: nat, r: Bus, rx: seq<byte>, byte: byte, ghost wire: seq<Access>)
    returns (r': Bus, rx': seq<byte>, byte': byte, ghost wire': seq<Access>)
    requires i < length && Receiving(b, acc, i, r, rx, byte, wire)
    ensures Receiving(b, acc, i + 1, r', rx', byte', wire')
  {
    var nack: byte := 0;
    var mid, x;
    ghost var w1, w2;
    mid, x, w1 := ReadByte(r, byte);
    r', w2 := mid, [];
    if i < length {
      r', w2 := WriteBit(mid, nack);
    }
    ReceiveStep(b, acc, i, r, rx, byte, mid, x, r');
    ReceiveLines(b, i, r, rx, wire, x, w1, mid, w2, r');
    rx', byte', wire' := rx + [x], x, wire + w1 + w2;
  }

  /** A byte shifted in and ACKed extends the bytes and events of `Receiving` by one byte. */
  lemma ReceiveStep(b: Bus, acc: byte, i: nat, r: Bus, rx: seq<byte>, byte: byte, mid: Bus, x: byte, r': Bus)
    requires Received(b, acc, i, r, rx, byte)
    requires x == FromBits(Levels(r.peer, r.taken, 8))
    requires mid.events == r.events + RBits(BitsOf(x)) && mid.taken == r.taken + 8 && Steady(r, mid)
    requires r'.events == mid.events + [WBit(false)] && r'.taken == mid.taken && Steady(mid, r')
    ensures Received(b, acc, i + 1, r', rx + [x], x)
  {
    assert rx + [x] == Incoming(b.peer, b.taken, i + 1) by {
      IncomingSnoc(b.peer, b.taken, i);
    }
    assert r'.events == b.events + Acked(rx + [x]) by {
      AckedSnoc(b.events, rx, x);
    }
  }

  /** The same byte extends the line activity of `Receiving` by its rendering. */
  lemma ReceiveLines(b: Bus, i: nat, r: Bus, rx: seq<byte>, wire: seq<Access>,
                     x: byte, w1: seq<Access>, mid: Bus, w2: seq<Access>, r': Bus)
    requires Rendering(Acked(rx), b.port.scl, i, r, wire)
    requires w1 == Rendered(RBits(BitsOf(x)), r.port.scl) && !mid.port.scl
    requires w2 == Render(WBit(false), mid.port.scl) && !r'.port.scl
    ensures Rendering(Acked(rx + [x]), b.port.scl, i + 1, r', wire + w1 + w2)
  {
    AckedSnoc([], rx, x);
    ReceiveTrace(Acked(rx), x, b.port.scl, wire, w1, w2);
  }

  /** Nothing is received before the loop, and after its last pass all `length` bytes are. */
  lemma ReceivingEnds(b: Bus, length: nat, acc: byte, r: Bus, rx: seq<byte>, byte: byte, wire: seq<Access>)
    ensures Receiving(b, acc, 0, b, [], acc, [])
    ensures Receiving(b, acc, length, r, rx, byte, wire) ==>
      rx == Incoming(b.peer, b.taken, length) && byte == (if length == 0 then acc else rx[length - 1])
      && r.events == b.events + Acked(rx) && wire == Rendered(Acked(rx), b.port.scl)
      && r.port.scl == (length == 0 && b.port.scl) && r.port.scl == SclAfter(Acked(rx), b.port.scl)
      && r.taken == b.taken + 8 * length && Steady(b, r)
  {
  }

  /**
   The byte loop of readBytes: `length` bytes, each shifted in MSB first,
   stored, and followed by the master's `nack`, which is 0. The accumulator
   is not reset between bytes. The guard `index < length` around that write
   holds inside the loop, so the last byte is ACKed too. Also returns the
   accumulator, which holds the last byte read, or `acc` when `length` is 0.
   */
  method Receive(b: Bus, length: nat, acc: byte) returns (r: Bus, rx: seq<byte>, byte: byte, ghost wire: seq<Access>)
    ensures rx == Incoming(b.peer, b.taken, length)
    ensures byte == if length == 0 then acc else rx[length - 1]
    ensures r.events == b.events + Acked(rx)
    ensures wire == Rendered(Acked(rx), b.port.scl)
    ensures r.port.scl == (length == 0 && b.port.scl)
    ensures r.port.scl == SclAfter(Acked(rx), b.port.scl)
    ensures r.taken == b.taken + 8 * length && Steady(b, r)
  {
    byte := acc;
    r := b;
    rx := [];
    wire := [];
    var index := 0;
    ReceivingEnds(b, length, acc, r, rx, byte, wire);
    while index < length
      invariant index <= length && Receiving(b, acc, index, r, rx, byte, wire)
    {
      r, rx, byte, wire := ReceiveByte(b, length, acc, index, r, rx, byte, wire);
      index := index + 1;
    }
    ReceivingEnds(b, length, acc, r, rx, byte, wire);
  }

  /** What readBytes puts on the bus: the reception, then an optional STOP. */
  function ReadEvents(sendStop: bool, rx: seq<byte>): seq<Event>
  {
    Acked(rx) + (if sendStop then [Stop] else [])
  }

  /**
   `readBytes(send_stop, rxArray, length)`: the byte loop, then an optional
   STOP. `rx` is what the loop stores into `rxArray[0..length)`. Returns the
   last byte read, or 0 when `length` is 0.
   */
  method ReadBytes(b: Bus, sendStop: bool, length: nat) returns (r: Bus, rx: seq<byte>, last: byte, ghost wire: seq<Access>)
    ensures rx == Incoming(b.peer, b.taken, length)
    ensures last == if length == 0 then 0 else rx[length - 1]
    ensures r.events == b.events + ReadEvents(sendStop, rx)
    ensures wire == Rendered(ReadEvents(sendStop, rx), b.port.scl)
    ensures r.taken == b.taken + 8 * length && r.peer == b.peer
    ensures r.started == (b.started || sendStop)
    ensures r.port.scl == if sendStop then true else if length > 0 then false else b.port.scl
    ensures r.port.scl == SclAfter(ReadEvents(sendStop, rx), b.port.scl)
    ensures r.port.others == b.port.others && r.ddr == b.ddr
  {
    ghost var w0, w1;
    var r0;
    r0, rx, last, w0 := Receive(b, length, 0);
    r, w1 := StopIf(r0, sendStop);
    ghost var post: seq<Event> := if sendStop then [Stop] else [];
    RenderedAppend(Acked(rx), post, b.port.scl);
    Assoc(b.events, Acked(rx), post);
    wire := w0 + w1;
  }

  // ---------------------------------------------------------------------------
  // Port configuration

  /** `portReset`: direction and port registers back to their defaults. */
  function PortReset(b: Bus): (r: Bus)
    ensures r.ddr == USR_DDR_DEFAULT && Image(r.port) == USR_PORT_DEFAULT
    ensures !r.port.sda && !r.port.scl
    ensures r.started == b.started && r.peer == b.peer && r.taken == b.taken && r.events == b.events
  {
    b.(ddr := USR_DDR_DEFAULT, port := PortOf(USR_PORT_DEFAULT))
  }

  /**
   `init`: portReset, then both lines as outputs, both released. The
   `started` flag is left as it was.
   */
  function Init(b: Bus): (r: Bus)
    ensures r.ddr == USR_DDR_I2C && Image(r.port) == USR_PORT_I2C
    ensures r.port.sda && r.port.scl
    ensures r.started == b.started && r.peer == b.peer && r.taken == b.taken && r.events == b.events
  {
    PortReset(b).(ddr := USR_DDR_I2C, port := PortOf(USR_PORT_I2C))
  }

  /** portReset and init are idempotent, and init undoes any earlier portReset. */
  lemma ConfigIdempotent(b: Bus)
    ensures PortReset(PortReset(b)) == PortReset(b)
    ensures Init(Init(b)) == Init(b)
    ensures Init(PortReset(b)) == Init(b)
  {
  }
}
