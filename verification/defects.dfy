/**
 Two loops of I2C_Driver.c as they are written, next to the loops they are
 evidently meant to be. The rest of the model uses the intended loops.

 - The bit loop of writeBytes steps its mask with the expression statement
   `bit>>1`, whose value is dropped: the mask stays 0x80, the guard
   `bit >= 1` never fails, and bit 7 of the byte is written again and again.
   Shifting the mask (`bit >>= 1`) writes the eight bits, most significant
   first, and stops.
 - The byte loops of writeBytes and readBytes count with an `unsigned char`
   index against an `unsigned int` length (16 bits for this compiler). The
   index wraps from 255 to 0, so for a length of 256 or more the guard
   `index < length` never fails. An index as wide as the length stops after
   `length` passes.

 Each loop is modelled by the run of its first `fuel` passes: a run shorter
 than `fuel` means the loop stopped.
 */
module Defects {
  import opened Bits

  // ---------------------------------------------------------------------------
  // The bit loop of writeBytes

  /**
   The bits `write_bit` receives in at most `fuel` passes of the bit loop as
   written, from mask `bit`: test `bit >= 1`, write `(byte & bit) != 0`,
   evaluate `bit>>1` and keep `bit` as it was.
   */
  function MaskLoopAsWritten(x: byte, bit: byte, fuel: nat): (bits: seq<bool>)
    ensures |bits| <= fuel
    ensures forall i :: 0 <= i < |bits| ==> bits[i] == (x & bit != 0)
    decreases fuel
  {
    if fuel == 0 || !(bit >= 1) then [] else [x & bit != 0] + MaskLoopAsWritten(x, bit, fuel - 1)
  }

  /** The same loop with the mask shifted in place, `bit >>= 1`. */
  function MaskLoop(x: byte, bit: byte, fuel: nat): seq<bool>
    decreases fuel
  {
    if fuel == 0 || !(bit >= 1) then [] else [x & bit != 0] + MaskLoop(x, bit >> 1, fuel - 1)
  }

  /**
   As written, the loop never stops: however many passes it is given, it
   uses them all, and every pass writes bit 7 of the byte.
   */
  lemma {:induction false} MaskLoopNeverEnds(x: byte, fuel: nat)
    ensures |MaskLoopAsWritten(x, 0x80, fuel)| == fuel
    ensures forall i :: 0 <= i < fuel ==> MaskLoopAsWritten(x, 0x80, fuel)[i] == BitsOf(x)[0]
    decreases fuel
  {
    if fuel > 0 {
      MaskLoopNeverEnds(x, fuel - 1);
      var rest := MaskLoopAsWritten(x, 0x80, fuel - 1);
      assert BitsOf(x)[0] == (x & 0x80 != 0) by {
        assert Mask(0) == 0x80;
      }
      var w := MaskLoopAsWritten(x, 0x80, fuel);
      assert w == [BitsOf(x)[0]] + rest;
      forall i | 0 <= i < fuel ensures w[i] == BitsOf(x)[0] {
        if i > 0 {
          assert w[i] == rest[i - 1];
        }
      }
    }
  }

  /** From mask number `k`, the shifting loop writes the bits of `x` from position `k` on, and stops. */
  lemma {:induction false} MaskLoopFrom(x: byte, k: nat, fuel: nat)
    requires k <= 8 && fuel >= 8 - k
    ensures MaskLoop(x, Mask(k), fuel) == BitsOf(x)[k..]
    decreases 8 - k
  {
    if k < 8 {
      MaskBit(x, k);
      MaskLoopFrom(x, k + 1, fuel - 1);
      assert BitsOf(x)[k..] == [BitsOf(x)[k]] + BitsOf(x)[k + 1..];
    } else {
      MaskValues();
    }
  }

  /**
   With the mask shifted, the loop writes exactly the eight bits of the
   byte, most significant first, and stops after eight passes.
   */
  lemma MaskLoopWritesByte(x: byte, fuel: nat)
    requires fuel >= 8
    ensures MaskLoop(x, 0x80, fuel) == BitsOf(x)
  {
    MaskValues();
    MaskLoopFrom(x, 0, fuel);
  }

  /** Byte 0x01 shows the difference: nine passes as written give nine zeros, not 0,0,0,0,0,0,0,1. */
  lemma MaskLoopCounterexample()
    ensures MaskLoopAsWritten(0x01, 0x80, 9) == [false, false, false, false, false, false, false, false, false]
    ensures MaskLoop(0x01, 0x80, 9) == [false, false, false, false, false, false, false, true]
  {
    MaskLoopNeverEnds(0x01, 9);
    MaskValues();
    MaskLoopWritesByte(0x01, 9);
    var w := MaskLoopAsWritten(0x01, 0x80, 9);
    assert forall i :: 0 <= i < 9 ==> !w[i];
  }

  // ---------------------------------------------------------------------------
  // The byte loops of writeBytes and readBytes

  /** The largest `unsigned int`: the 16-bit length parameter. */
  const UINT_MAX: nat := 0xFFFF

  /**
   How many passes, of at most `fuel`, the byte loop makes as written, from
   index `index`: compare the 8-bit index, widened, with the length, and
   step it with `index++`, which wraps from 255 to 0.
   */
  function IndexLoopAsWritten(length: nat, index: byte, fuel: nat): (passes: nat)
    ensures passes <= fuel
    decreases fuel
  {
    if fuel == 0 || !(index as nat < length) then 0 else 1 + IndexLoopAsWritten(length, index + 1, fuel - 1)
  }

  /** The same loop with an index as wide as the length. */
  function IndexLoop(length: nat, index: nat, fuel: nat): (passes: nat)
    ensures passes <= fuel
    decreases fuel
  {
    if fuel == 0 || !(index < length) then 0 else 1 + IndexLoop(length, index + 1, fuel - 1)
  }

  /** As written, a length of 256 or more never ends the loop: every pass it is given, it makes. */
  lemma {:induction false} IndexLoopNeverEnds(length: nat, index: byte, fuel: nat)
    requires 256 <= length <= UINT_MAX
    ensures IndexLoopAsWritten(length, index, fuel) == fuel
    decreases fuel
  {
    if fuel > 0 {
      IndexLoopNeverEnds(length, index + 1, fuel - 1);
    }
  }

  /** Below 256 the 8-bit index does what a wide one does: `length - index` passes. */
  lemma {:induction false} IndexLoopShort(length: nat, index: byte, fuel: nat)
    requires length < 256 && index as nat <= length && fuel >= length - index as nat
    ensures IndexLoopAsWritten(length, index, fuel) == length - index as nat
    decreases fuel
  {
    if index as nat < length {
      assert (index + 1) as nat == index as nat + 1;
      IndexLoopShort(length, index + 1, fuel - 1);
    }
  }

  /** With a wide index the loop makes exactly `length` passes, for every length the parameter can hold. */
  lemma {:induction false} IndexLoopStops(length: nat, index: nat, fuel: nat)
    requires index <= length && fuel >= length - index
    ensures IndexLoop(length, index, fuel) == length - index
    decreases length - index
  {
    if index < length {
      IndexLoopStops(length, index + 1, fuel - 1);
    }
  }

  /** A 256-byte transfer shows the difference: given 300 passes, the loop as written makes all 300. */
  lemma IndexLoopCounterexample()
    ensures IndexLoopAsWritten(256, 0, 300) == 300
    ensures IndexLoop(256, 0, 300) == 256
  {
    IndexLoopNeverEnds(256, 0, 300);
    IndexLoopStops(256, 0, 300);
  }
}
