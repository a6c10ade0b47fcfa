/**
 A listener on the two bus lines, independent of the driver: it sees only
 the line levels each write to the port register leaves and the levels the
 driver samples, and recognises what any device on an I2C bus recognises
 (sections 3.1.3 and 3.1.4 of the NXP I2C-bus specification, UM10204):

 - a START condition: SDA goes from high to low while SCL stays high;
 - a STOP condition: SDA goes from low to high while SCL stays high;
 - a data bit: one high period of SCL with no condition inside it; the bit
   is the level SDA holds while SCL is high, which is the master's own
   output unless the master samples the line, in which case it is what the
   master read.

 A line is high exactly when the master releases it: nobody but the peer
 pulls SDA low, and the peer's level is only visible through a sample. A
 slave that holds SDA low between samples, as a slave-transmitter does
 with the first bit of a further byte after the master ACKs its last one,
 is outside this listener.
 */
module BusMonitor {
  import opened Bits
  import opened LineDriver

  /** One access to the user-port register, as the bus lines see it. */
  datatype Access =
    | Drove(sda: bool, scl: bool) // a write left SDA and SCL at these levels (true: released, high)
    | Sampled(high: bool)         // a read found SDA at this level

  /** What a device on the bus can tell apart. */
  datatype Cond = StartCond | StopCond | DataBit(high: bool)

  /** Inside a high period of SCL: the data level so far, unless a condition already occurred. */
  datatype Pulse = NoPulse | Pulse(high: bool)

  /** The listener: the two line levels and, while SCL is high, the pending data bit. */
  datatype Listener = Listener(sda: bool, scl: bool, pulse: Pulse)

  /** Where a listener ends up after some accesses, and what it recognised, in order. */
  datatype Hearing = Hearing(after: Listener, conds: seq<Cond>)

  /** A listener between bus operations, watching lines at these levels. */
  function Between(sda: bool, scl: bool): Listener
  {
    Listener(sda, scl, NoPulse)
  }

  /** What the listener makes of one access. */
  function Hear(l: Listener, a: Access): (h: Hearing)
    ensures |h.conds| <= 1
  {
    match a
    case Drove(sda, scl) =>
      if l.scl && scl then
        if l.sda && !sda then Hearing(Between(sda, scl), [StartCond])
        else if !l.sda && sda then Hearing(Between(sda, scl), [StopCond])
        else Hearing(Listener(sda, scl, l.pulse), [])
      else if scl then
        Hearing(Listener(sda, scl, Pulse(sda)), [])
      else if l.scl && l.pulse.Pulse? then
        Hearing(Between(sda, scl), [DataBit(l.pulse.high)])
      else
        Hearing(Between(sda, scl), [])
    case Sampled(high) =>
      if l.scl && l.pulse.Pulse? then Hearing(l.(pulse := Pulse(high)), [])
      else Hearing(l, [])
  }

  /**
   The listener hears a START exactly when SDA falls while SCL stays high,
   and a STOP exactly when SDA rises while SCL stays high. A sample never
   makes a condition and never moves a line; a write moves both lines to
   the levels it leaves.
   */
  lemma HearConditions(l: Listener, a: Access)
    ensures Hear(l, a).conds == [StartCond] <==> a.Drove? && l.scl && a.scl && l.sda && !a.sda
    ensures Hear(l, a).conds == [StopCond] <==> a.Drove? && l.scl && a.scl && !l.sda && a.sda
    ensures a.Sampled? ==> Hear(l, a).conds == [] && Hear(l, a).after.sda == l.sda && Hear(l, a).after.scl == l.scl
    ensures a.Drove? ==> Hear(l, a).after.sda == a.sda && Hear(l, a).after.scl == a.scl
  {
  }

  /**
   A data bit is heard exactly when SCL falls after a high period that held
   no condition, and its value is the level SDA showed in that period.
   */
  lemma HearDataBit(l: Listener, a: Access, high: bool)
    ensures Hear(l, a).conds == [DataBit(high)] <==> a.Drove? && l.scl && !a.scl && l.pulse == Pulse(high)
  {
  }

  /** What the listener makes of a run of accesses, taken in order. */
  function Listen(l: Listener, w: seq<Access>): (h: Hearing)
    ensures |h.conds| <= |w|
    decreases |w|
  {
    if |w| == 0 then Hearing(l, [])
    else
      var first := Listen(l, w[..|w| - 1]);
      var last := Hear(first.after, w[|w| - 1]);
      Hearing(last.after, first.conds + last.conds)
  }

  /** Listening to one more access continues from where the listener was. */
  lemma ListenSnoc(l: Listener, w: seq<Access>, a: Access)
    ensures Listen(l, w + [a]) ==
      Hearing(Hear(Listen(l, w).after, a).after, Listen(l, w).conds + Hear(Listen(l, w).after, a).conds)
  {
    assert (w + [a])[..|w|] == w;
  }

  /** Listening to two runs back to back is listening to the first, then the second from there. */
  lemma {:induction false} ListenAppend(l: Listener, w1: seq<Access>, w2: seq<Access>)
    ensures Listen(l, w1 + w2) ==
      Hearing(Listen(Listen(l, w1).after, w2).after, Listen(l, w1).conds + Listen(Listen(l, w1).after, w2).conds)
    decreases |w2|
  {
    if |w2| == 0 {
      assert w1 + w2 == w1;
    } else {
      var n := |w2| - 1;
      var init, a := w2[..n], w2[n];
      assert w2 == init + [a];
      assert w1 + w2 == (w1 + init) + [a];
      var h1 := Listen(l, w1);
      var h2 := Listen(h1.after, init);
      ListenAppend(l, w1, init);
      assert Listen(l, w1 + init) == Hearing(h2.after, h1.conds + h2.conds);
      var h3 := Hear(h2.after, a);
      ListenSnoc(l, w1 + init, a);
      ListenSnoc(h1.after, init, a);
      assert Listen(h1.after, w2) == Hearing(h3.after, h2.conds + h3.conds);
      assert Listen(l, w1 + w2) == Hearing(h3.after, (h1.conds + h2.conds) + h3.conds);
      assert (h1.conds + h2.conds) + h3.conds == h1.conds + (h2.conds + h3.conds);
    }
  }

  /** Two accesses in a row, heard one after the other. */
  lemma Listen2(l: Listener, a1: Access, a2: Access)
    ensures Listen(l, [a1, a2]) ==
      var h1 := Hear(l, a1); var h2 := Hear(h1.after, a2);
      Hearing(h2.after, h1.conds + h2.conds)
  {
    ListenSnoc(l, [], a1);
    ListenSnoc(l, [a1], a2);
    assert [] + [a1] == [a1] && [a1] + [a2] == [a1, a2];
  }

  /** Three accesses in a row, heard one after another. */
  lemma Listen3(l: Listener, a1: Access, a2: Access, a3: Access)
    ensures Listen(l, [a1, a2, a3]) ==
      var h1 := Hear(l, a1); var h2 := Hear(h1.after, a2); var h3 := Hear(h2.after, a3);
      Hearing(h3.after, h1.conds + h2.conds + h3.conds)
  {
    Listen2(l, a1, a2);
    ListenSnoc(l, [a1, a2], a3);
    assert [a1, a2] + [a3] == [a1, a2, a3];
  }

  /** Four accesses in a row, heard one after another. */
  lemma Listen4(l: Listener, a1: Access, a2: Access, a3: Access, a4: Access)
    ensures Listen(l, [a1, a2, a3, a4]) ==
      var h1 := Hear(l, a1); var h2 := Hear(h1.after, a2); var h3 := Hear(h2.after, a3); var h4 := Hear(h3.after, a4);
      Hearing(h4.after, h1.conds + h2.conds + h3.conds + h4.conds)
  {
    Listen3(l, a1, a2, a3);
    ListenSnoc(l, [a1, a2, a3], a4);
    assert [a1, a2, a3] + [a4] == [a1, a2, a3, a4];
  }

  /**
   A data bit driven by the master: SDA set while SCL is low, SCL released,
   SCL driven low again. Heard as one data bit of the level SDA was set to.
   */
  lemma BitHeard(sda: bool, high: bool)
    ensures Listen(Between(sda, false), [Drove(high, false), Drove(high, true), Drove(high, false)]) ==
      Hearing(Between(high, false), [DataBit(high)])
  {
    Listen3(Between(sda, false), Drove(high, false), Drove(high, true), Drove(high, false));
  }

  /**
   A data bit driven by the peer: SDA released while SCL is low, SCL
   released, the line sampled, SCL driven low. Heard as one data bit of the
   sampled level.
   */
  lemma SampledBitHeard(sda: bool, high: bool)
    ensures Listen(Between(sda, false), [Drove(true, false), Drove(true, true), Sampled(high), Drove(true, false)]) ==
      Hearing(Between(true, false), [DataBit(high)])
  {
    Listen4(Between(sda, false), Drove(true, false), Drove(true, true), Sampled(high), Drove(true, false));
  }

  /** From a free bus, SDA driven low and then SCL driven low: a START. */
  lemma StartHeard()
    ensures Listen(Between(true, true), [Drove(false, true), Drove(false, false)]) ==
      Hearing(Between(false, false), [StartCond])
  {
    Listen2(Between(true, true), Drove(false, true), Drove(false, false));
  }

  /**
   SDA and then SCL released, then SDA and then SCL driven low: a START,
   whether the bus was free or held with SCL low. Releasing the lines in
   that order never makes a condition.
   */
  lemma RepeatedStartHeard(sda: bool, scl: bool)
    requires (sda && scl) || !scl
    ensures Listen(Between(sda, scl), [Drove(true, scl), Drove(true, true), Drove(false, true), Drove(false, false)]) ==
      Hearing(Between(false, false), [StartCond])
  {
    Listen4(Between(sda, scl), Drove(true, scl), Drove(true, true), Drove(false, true), Drove(false, false));
  }

  /** With SCL low: SDA driven low, SCL released, SDA released. A STOP. */
  lemma StopHeard(sda: bool)
    ensures Listen(Between(sda, false), [Drove(false, false), Drove(false, true), Drove(true, true)]) ==
      Hearing(Between(true, true), [StopCond])
  {
    Listen3(Between(sda, false), Drove(false, false), Drove(false, true), Drove(true, true));
  }
}
