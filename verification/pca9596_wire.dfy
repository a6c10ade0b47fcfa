/**
 What a device on the bus hears while the PCA9596 driver runs. The port
 accesses of each operation are the rendering of its events (the `wire`
 result of `ConfigAll`, `WritePorts` and `ReadPorts`); started on a free
 bus, they are heard as exactly the START, data bit and STOP conditions of
 those events, in order, and leave the bus free, for a listener that lets
 only the master move SDA outside its samples.

 A run of transfers is framed when every call is made in a line state it
 works from: a fresh START only on a free bus, data or a STOP without a
 START only while SCL is held low by the bytes before it.
 */
module PCA9596Wire {
  import opened Bits
  import opened BusMonitor
  import opened I2CDriver
  import opened WireCheck
  import opened PCA9596

  // ---------------------------------------------------------------------------
  // Framing

  /** Whether a transfer sets the `started` flag: a START or a STOP does. */
  predicate Opens(t: Transfer)
  {
    match t
    case Write(sendStart, sendStop, _) => sendStart || sendStop
    case Read(sendStop, _) => sendStop
  }

  /** Whether the bus is free after a transfer that began with it free (`free`) or with SCL held low. */
  function FreeAfter(t: Transfer, free: bool): bool
  {
    match t
    case Write(sendStart, sendStop, tx) => if sendStop then true else if sendStart || |tx| > 0 then false else free
    case Read(sendStop, length) => if sendStop then true else if length > 0 then false else free
  }

  /** The transfer is made in a line state it works from. */
  predicate Fine(t: Transfer, started: bool, free: bool)
  {
    match t
    case Write(sendStart, sendStop, tx) =>
      (sendStart && !started ==> free) && (!sendStart && (|tx| > 0 || sendStop) ==> !free)
    case Read(sendStop, length) => length > 0 || sendStop ==> !free
  }

  /** Every transfer of `ts` is made in a line state it works from. */
  predicate Framed(ts: seq<Transfer>, started: bool, free: bool)
    decreases |ts|
  {
    |ts| == 0 || (Fine(ts[0], started, free) && Framed(ts[1..], started || Opens(ts[0]), FreeAfter(ts[0], free)))
  }

  /** Whether the bus is free after `ts`. */
  function Settled(ts: seq<Transfer>, free: bool): bool
    decreases |ts|
  {
    if |ts| == 0 then free else Settled(ts[1..], FreeAfter(ts[0], free))
  }

  /** The `started` flag after `ts`. */
  function StartedAfter(ts: seq<Transfer>, started: bool): bool
    decreases |ts|
  {
    if |ts| == 0 then started else StartedAfter(ts[1..], started || Opens(ts[0]))
  }

  /** Two framed runs back to back, the second framed from where the first leaves the bus. */
  lemma {:induction false} FramedAppend(xs: seq<Transfer>, ys: seq<Transfer>, started: bool, free: bool)
    requires Framed(xs, started, free) && Framed(ys, StartedAfter(xs, started), Settled(xs, free))
    ensures Framed(xs + ys, started, free)
    ensures Settled(xs + ys, free) == Settled(ys, Settled(xs, free))
    ensures StartedAfter(xs + ys, started) == StartedAfter(ys, StartedAfter(xs, started))
    decreases |xs|
  {
    if |xs| == 0 {
      assert xs + ys == ys;
    } else {
      assert (xs + ys)[0] == xs[0] && (xs + ys)[1..] == xs[1..] + ys;
      FramedAppend(xs[1..], ys, started || Opens(xs[0]), FreeAfter(xs[0], free));
    }
  }

  /**
   A frame (address with START, register, payload with STOP) from a free bus
   is framed, whatever the flag, and leaves the bus free and the flag set.
   */
  lemma FrameFramed(address: byte, reg: byte, payload: seq<byte>, started: bool)
    ensures Framed(Frame(address, reg, payload), started, true)
    ensures Settled(Frame(address, reg, payload), true) && StartedAfter(Frame(address, reg, payload), started)
  {
    var f := Frame(address, reg, payload);
    assert f[1..][1..][1..] == [];
    assert !FreeAfter(f[0], true) && !FreeAfter(f[1], false) && FreeAfter(f[2], false);
    assert Settled(f[1..][1..], false) && Settled(f[1..], false);
    assert Framed(f[1..][1..], true, false) && Framed(f[1..], true, false);
    assert StartedAfter(f[1..][1..], true) && StartedAfter(f[1..], true);
  }

  // ---------------------------------------------------------------------------
  // Framed runs are heard as their events

  /**
   One transfer made in a line state it works from records a legal
   sequence of events and leaves the lines as `FreeAfter` says.
   */
  lemma EffectLegal(peer: seq<byte>, started: bool, taken: nat, t: Transfer, free: bool, sda: bool, scl: bool)
    requires Fine(t, started, free) && Matches(free, sda, scl)
    ensures Legal(Effect(peer, started, taken, t).events, sda, scl)
    ensures Matches(FreeAfter(t, free), SdaAfter(Effect(peer, started, taken, t).events, sda),
                    SclAfter(Effect(peer, started, taken, t).events, scl))
    ensures Effect(peer, started, taken, t).started == (started || Opens(t))
  {
    match t
    case Write(sendStart, sendStop, tx) =>
      WriteLegal(started, sendStart, sendStop, tx, Levels(peer, taken, |tx|), free, sda, scl);
    case Read(sendStop, length) =>
      ReadLegal(sendStop, Incoming(peer, taken, length), free, sda, scl);
  }

  /**
   A framed run of transfers, started in the line state `free` stands for,
   records a legal sequence of events and leaves the lines in the state
   `Settled` says.
   */
  lemma {:induction false} ReplayLegal(peer: seq<byte>, started: bool, taken: nat, ts: seq<Transfer>,
                                       free: bool, sda: bool, scl: bool)
    requires Framed(ts, started, free) && Matches(free, sda, scl)
    ensures Legal(Replay(peer, started, taken, ts).events, sda, scl)
    ensures Matches(Settled(ts, free),
                    SdaAfter(Replay(peer, started, taken, ts).events, sda),
                    SclAfter(Replay(peer, started, taken, ts).events, scl))
    decreases |ts|
  {
    if |ts| > 0 {
      var t := ts[0];
      var e := Effect(peer, started, taken, t);
      EffectLegal(peer, started, taken, t, free, sda, scl);
      var s1, c1 := SdaAfter(e.events, sda), SclAfter(e.events, scl);
      ReplayLegal(peer, e.started, e.taken, ts[1..], FreeAfter(t, free), s1, c1);
      LegalAppend(e.events, Replay(peer, e.started, e.taken, ts[1..]).events, sda, scl);
    }
  }

  /**
   A framed run from a free bus that leaves the bus free is heard, on the
   port accesses it makes, as exactly the meanings of its events.
   */
  lemma FramedHeard(peer: seq<byte>, started: bool, taken: nat, ts: seq<Transfer>)
    requires Framed(ts, started, true) && Settled(ts, true)
    ensures Listen(Between(true, true), Rendered(Replay(peer, started, taken, ts).events, true)) ==
      Hearing(Between(true, true), Meanings(Replay(peer, started, taken, ts).events))
  {
    var es := Replay(peer, started, taken, ts).events;
    ReplayLegal(peer, started, taken, ts, true, true, true);
    RenderedHeard(es, true, true);
  }

  // ---------------------------------------------------------------------------
  // The three operations

  /** configAll, from a free bus: heard as its events, and the bus is free afterwards. */
  lemma ConfigAllHeard(peer: seq<byte>, started: bool, taken: nat, d: Device)
    ensures Listen(Between(true, true), Rendered(Replay(peer, started, taken, ConfigAllTransfers(d)).events, true)) ==
      Hearing(Between(true, true), Meanings(Replay(peer, started, taken, ConfigAllTransfers(d)).events))
  {
    var f1 := Frame(d.address, AUTO_INC | CFG_IO, d.configIO);
    var f2 := Frame(d.address, AUTO_INC | CFG_POL, d.configPol);
    var f3 := Frame(d.address, AUTO_INC | CFG_INT, d.configInt);
    FrameFramed(d.address, AUTO_INC | CFG_IO, d.configIO, started);
    FrameFramed(d.address, AUTO_INC | CFG_POL, d.configPol, true);
    FrameFramed(d.address, AUTO_INC | CFG_INT, d.configInt, true);
    FramedAppend(f1, f2, started, true);
    FramedAppend(f1 + f2, f3, started, true);
    FramedHeard(peer, started, taken, ConfigAllTransfers(d));
  }

  /** writePorts, from a free bus: heard as its events, and the bus is free afterwards. */
  lemma WritePortsHeard(peer: seq<byte>, started: bool, taken: nat, d: Device)
    ensures Listen(Between(true, true), Rendered(Replay(peer, started, taken, WritePortsTransfers(d)).events, true)) ==
      Hearing(Between(true, true), Meanings(Replay(peer, started, taken, WritePortsTransfers(d)).events))
  {
    FrameFramed(d.address, AUTO_INC | OUTPUT | PORT0, d.outPort, started);
    FramedHeard(peer, started, taken, WritePortsTransfers(d));
  }

  /**
   readPorts is framed from a free bus: its second START comes while SCL is
   held low after the register byte, and takes the repeated-start path
   because the first START set the flag.
   */
  lemma ReadPortsFramed(peer: seq<byte>, started: bool, taken: nat, d: Device)
    ensures Framed(ReadPortsTransfers(d), started, true) && Settled(ReadPortsTransfers(d), true)
    ensures var o := Replay(peer, started, taken, SelectInputs(d)[..2]);
      Effect(peer, o.started, o.taken, SelectInputs(d)[2]).events[0] == RepStart
  {
    var select := SelectInputs(d);
    var read := [Read(true, MAX_PORTS)];
    assert select[1..][1..][1..] == [] && read[1..] == [];
    assert !FreeAfter(select[0], true) && !FreeAfter(select[1], false) && !FreeAfter(select[2], false);
    assert !Settled(select[1..][1..], false) && !Settled(select[1..], false) && !Settled(select, true);
    assert Framed(select[1..][1..], true, false) && Framed(select[1..], true, false) && Framed(select, started, true);
    assert StartedAfter(select, started) by {
      assert StartedAfter(select[1..][1..], true) && StartedAfter(select[1..], true);
    }
    assert Framed(read, true, false) && Settled(read, false);
    FramedAppend(select, read, started, true);
    assert Replay(peer, started, taken, select[..2]).started by {
      StartedSticks(peer, started, taken, select[..2]);
    }
  }

  /** readPorts, from a free bus: heard as its events, and the bus is free afterwards. */
  lemma ReadPortsHeard(peer: seq<byte>, started: bool, taken: nat, d: Device)
    ensures Listen(Between(true, true), Rendered(Replay(peer, started, taken, ReadPortsTransfers(d)).events, true)) ==
      Hearing(Between(true, true), Meanings(Replay(peer, started, taken, ReadPortsTransfers(d)).events))
  {
    ReadPortsFramed(peer, started, taken, d);
    FramedHeard(peer, started, taken, ReadPortsTransfers(d));
  }
}
