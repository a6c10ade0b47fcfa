/**
 What a device on the bus makes of the driver's port accesses.

 Every driver method that clocks the bus returns the line levels its port
 accesses leave, and for a run of events `es` those are `Rendered(es, scl)`,
 the renderings of the events strung together (module I2CDriver). This
 module proves, against the independent listener of BusMonitor, that a
 device hears exactly one START per `Start` or `RepStart`, one STOP per
 `Stop` and one data bit of the right value per `WBit` or `RBit`, in order
 and nothing else, provided every event begins in a line state it was
 written for (`Legal`). It then shows which calls of writeBytes and
 readBytes are legal in that sense.
 */
module WireCheck {
  import opened Bits
  import opened BusMonitor
  import opened I2CDriver

  // ---------------------------------------------------------------------------
  // Line state around events

  /** The level SDA is left at after `es`, given its level before. */
  function SdaAfter(es: seq<Event>, sda: bool): bool
  {
    if |es| == 0 then sda
    else
      match es[|es| - 1]
      case Start => false
      case RepStart => false
      case Stop => true
      case WBit(high) => high
      case RBit(_) => true
  }

  /**
   The line state each event is written for: a fresh START needs a free bus
   (both lines high); the repeated-start path works from a free bus or with
   SCL held low; STOP and data bits are clocked from SCL low.
   */
  predicate Fits(e: Event, sda: bool, scl: bool)
  {
    match e
    case Start => sda && scl
    case RepStart => (sda && scl) || !scl
    case Stop => !scl
    case WBit(_) => !scl
    case RBit(_) => !scl
  }

  /** Every event of `es` begins in the line state it was written for. */
  predicate Legal(es: seq<Event>, sda: bool, scl: bool)
    decreases |es|
  {
    |es| == 0 ||
    (var n := |es| - 1;
     Legal(es[..n], sda, scl) && Fits(es[n], SdaAfter(es[..n], sda), SclAfter(es[..n], scl)))
  }

  // ---------------------------------------------------------------------------
  // Meanings

  /** What a device should recognise for one event. */
  function Meaning(e: Event): Cond
  {
    match e
    case Start => StartCond
    case RepStart => StartCond
    case Stop => StopCond
    case WBit(high) => DataBit(high)
    case RBit(high) => DataBit(high)
  }

  /** What a device should recognise for a sequence of events. */
  function Meanings(es: seq<Event>): (cs: seq<Cond>)
    ensures |cs| == |es|
  {
    seq(|es|, i requires 0 <= i < |es| => Meaning(es[i]))
  }

  /** Peeling the last event off a sequence. */
  lemma Snoc(es: seq<Event>, e: Event, sda: bool, scl: bool)
    ensures (es + [e])[..|es|] == es && (es + [e])[|es|] == e
    ensures Rendered(es + [e], scl) == Rendered(es, scl) + Render(e, SclAfter(es, scl))
    ensures SclAfter(es + [e], scl) == SclAfter([e], SclAfter(es, scl))
    ensures SdaAfter(es + [e], sda) == SdaAfter([e], SdaAfter(es, sda))
    ensures Legal(es + [e], sda, scl) == (Legal(es, sda, scl) && Fits(e, SdaAfter(es, sda), SclAfter(es, scl)))
    ensures Meanings(es + [e]) == Meanings(es) + [Meaning(e)]
  {
    assert (es + [e])[..|es|] == es;
  }

  /**
   Two runs back to back are legal exactly when the first is, and the
   second is from the line state the first leaves.
   */
  lemma {:induction false} LegalAppend(x: seq<Event>, y: seq<Event>, sda: bool, scl: bool)
    ensures Legal(x + y, sda, scl) == (Legal(x, sda, scl) && Legal(y, SdaAfter(x, sda), SclAfter(x, scl)))
    ensures SdaAfter(x + y, sda) == SdaAfter(y, SdaAfter(x, sda))
    ensures SclAfter(x + y, scl) == SclAfter(y, SclAfter(x, scl))
    ensures Meanings(x + y) == Meanings(x) + Meanings(y)
    decreases |y|
  {
    if |y| == 0 {
      assert x + y == x;
    } else {
      var n := |y| - 1;
      var init, e := y[..n], y[n];
      assert x + y == (x + init) + [e];
      assert y == init + [e];
      LegalAppend(x, init, sda, scl);
      Snoc(x + init, e, sda, scl);
      Snoc(init, e, SdaAfter(x, sda), SclAfter(x, scl));
      Assoc(Meanings(x), Meanings(init), [Meaning(e)]);
    }
  }

  // ---------------------------------------------------------------------------
  // What a device hears

  /**
   One event, begun in the line state it was written for, is heard as its
   meaning and nothing else, and leaves the lines where `SdaAfter` and
   `SclAfter` say.
   */
  lemma EventHeard(e: Event, sda: bool, scl: bool)
    requires Fits(e, sda, scl)
    ensures Listen(Between(sda, scl), Render(e, scl)) ==
      Hearing(Between(SdaAfter([e], sda), SclAfter([e], scl)), [Meaning(e)])
  {
    match e
    case Start => StartHeard();
    case RepStart => RepeatedStartHeard(sda, scl);
    case Stop => StopHeard(sda);
    case WBit(high) => BitHeard(sda, high);
    case RBit(high) => SampledBitHeard(sda, high);
  }

  /**
   The main theorem: a legal sequence of events, rendered on the lines, is
   heard as exactly its meanings, in order.
   */
  lemma {:induction false} RenderedHeard(es: seq<Event>, sda: bool, scl: bool)
    requires Legal(es, sda, scl)
    ensures Listen(Between(sda, scl), Rendered(es, scl)) ==
      Hearing(Between(SdaAfter(es, sda), SclAfter(es, scl)), Meanings(es))
    decreases |es|
  {
    if |es| > 0 {
      var n := |es| - 1;
      var init, e := es[..n], es[n];
      assert es == init + [e];
      Snoc(init, e, sda, scl);
      RenderedHeard(init, sda, scl);
      var s1, c1 := SdaAfter(init, sda), SclAfter(init, scl);
      EventHeard(e, s1, c1);
      ListenAppend(Between(sda, scl), Rendered(init, scl), Render(e, c1));
    }
  }

  // ---------------------------------------------------------------------------
  // Which calls are legal

  /** A run of bits only. */
  predicate AllBits(es: seq<Event>)
  {
    forall i :: 0 <= i < |es| ==> es[i].WBit? || es[i].RBit?
  }

  /** A run of bits clocked from SCL low is legal and leaves SCL low. */
  lemma {:induction false} BitsLegal(es: seq<Event>, sda: bool)
    requires AllBits(es)
    ensures Legal(es, sda, false)
    ensures !SclAfter(es, false)
    decreases |es|
  {
    if |es| > 0 {
      var n := |es| - 1;
      assert es == es[..n] + [es[n]];
      BitsLegal(es[..n], sda);
    }
  }

  /** A transmission is all bits, and so is a reception. */
  lemma {:induction false} SentAllBits(tx: seq<byte>, acks: seq<bool>)
    requires |acks| == |tx|
    ensures AllBits(Sent(tx, acks))
    decreases |tx|
  {
    if |tx| > 0 {
      var n := |tx| - 1;
      SentAllBits(tx[..n], acks[..n]);
    }
  }

  lemma {:induction false} AckedAllBits(rx: seq<byte>)
    ensures AllBits(Acked(rx))
    decreases |rx|
  {
    if |rx| > 0 {
      AckedAllBits(rx[..|rx| - 1]);
    }
  }

  /**
   The line state a call leaves, abstracted to the two settled states: the
   bus free (`free`) or SCL held low by the driver.
   */
  predicate Matches(free: bool, sda: bool, scl: bool)
  {
    if free then sda && scl else !scl
  }

  /**
   writeBytes is heard as intended when called from lines the driver left
   settled, and when a fresh START (the `started` flag clear) is asked for
   only on a free bus, and data or a STOP without a START only while SCL is
   held low from the bytes before. A STOP leaves the bus free; otherwise a
   START or a byte leaves SCL held low, and an empty call leaves the lines.
   */
  lemma WriteLegal(started: bool, sendStart: bool, sendStop: bool, tx: seq<byte>, acks: seq<bool>,
                   free: bool, sda: bool, scl: bool)
    requires |acks| == |tx| && Matches(free, sda, scl)
    requires sendStart && !started ==> free
    requires !sendStart && (|tx| > 0 || sendStop) ==> !free
    ensures Legal(WriteEvents(started, sendStart, sendStop, tx, acks), sda, scl)
    ensures Matches(if sendStop then true else if sendStart || |tx| > 0 then false else free,
                    SdaAfter(WriteEvents(started, sendStart, sendStop, tx, acks), sda),
                    SclAfter(WriteEvents(started, sendStart, sendStop, tx, acks), scl))
  {
    var pre: seq<Event> := if sendStart then [StartEvent(started)] else [];
    var body := Sent(tx, acks);
    var post: seq<Event> := if sendStop then [Stop] else [];
    assert WriteEvents(started, sendStart, sendStop, tx, acks) == pre + body + post;
    var s1, c1 := SdaAfter(pre, sda), SclAfter(pre, scl);
    assert Legal(pre, sda, scl) && (if sendStart then !c1 else s1 == sda && c1 == scl) by {
      if sendStart {
        Snoc([], StartEvent(started), sda, scl);
        assert [] + [StartEvent(started)] == pre;
      }
    }
    SentAllBits(tx, acks);
    if |tx| > 0 {
      BitsLegal(body, s1);
    } else {
      assert body == [];
    }
    LegalAppend(pre, body, sda, scl);
    var s2, c2 := SdaAfter(pre + body, sda), SclAfter(pre + body, scl);
    if sendStop {
      Snoc([], Stop, s2, c2);
      assert [] + [Stop] == post;
    } else {
      assert post == [];
    }
    LegalAppend(pre + body, post, sda, scl);
  }

  /**
   readBytes is heard as intended when called with SCL held low from the
   bytes before, or with nothing to do. A STOP leaves the bus free; else a
   byte leaves SCL held low, and an empty call leaves the lines.
   */
  lemma ReadLegal(sendStop: bool, rx: seq<byte>, free: bool, sda: bool, scl: bool)
    requires Matches(free, sda, scl)
    requires |rx| > 0 || sendStop ==> !free
    ensures Legal(ReadEvents(sendStop, rx), sda, scl)
    ensures Matches(if sendStop then true else if |rx| > 0 then false else free,
                    SdaAfter(ReadEvents(sendStop, rx), sda), SclAfter(ReadEvents(sendStop, rx), scl))
  {
    var body := Acked(rx);
    var post: seq<Event> := if sendStop then [Stop] else [];
    AckedAllBits(rx);
    if |rx| > 0 {
      BitsLegal(body, sda);
    } else {
      assert body == [];
    }
    var s2, c2 := SdaAfter(body, sda), SclAfter(body, scl);
    if sendStop {
      Snoc([], Stop, s2, c2);
      assert [] + [Stop] == post;
    } else {
      assert post == [];
    }
    LegalAppend(body, post, sda, scl);
  }

  /**
   `stop` leaves `started` set, so the next `start` takes the repeated-start
   path even on a free bus. That path first releases two lines that are
   already released, then makes an ordinary START: a STOP followed by it is
   heard as a STOP and a START, as a fresh START would be.
   */
  lemma StopThenStart(sda: bool)
    ensures Legal([Stop, StartEvent(true)], sda, false)
    ensures Listen(Between(sda, false), Rendered([Stop, StartEvent(true)], false)) ==
      Hearing(Between(false, false), [StopCond, StartCond])
  {
    Snoc([], Stop, sda, false);
    Snoc([Stop], RepStart, sda, false);
    assert [] + [Stop] == [Stop] && [Stop] + [RepStart] == [Stop, RepStart];
    RenderedHeard([Stop, RepStart], sda, false);
    assert Meanings([Stop, RepStart]) == [StopCond, StartCond];
  }

  /**
   Listening to the port accesses of two consecutive calls is listening to
   the first call's accesses, then the second's: so the theorems above,
   stated per call, compose over a whole transfer.
   */
  lemma CallsCompose(x: seq<Event>, y: seq<Event>, sda: bool, scl: bool)
    requires Legal(x, sda, scl) && Legal(y, SdaAfter(x, sda), SclAfter(x, scl))
    ensures Listen(Between(sda, scl), Rendered(x, scl) + Rendered(y, SclAfter(x, scl))) ==
      Hearing(Between(SdaAfter(x + y, sda), SclAfter(x + y, scl)), Meanings(x) + Meanings(y))
  {
    LegalAppend(x, y, sda, scl);
    RenderedAppend(x, y, scl);
    RenderedHeard(x + y, sda, scl);
  }
}
