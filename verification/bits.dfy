/**
 Bytes as the 6502 driver sees them: `unsigned char` values, shifted and
 masked one bit at a time. The bus sends the most significant bit of every
 byte first (section 3.1.5 of the NXP I2C-bus specification, UM10204), so a
 byte's bit sequence here is always listed from bit 7 down to bit 0.
 */
module Bits {

  /** An 8-bit register image or data byte (`unsigned char` / `char`). */
  type byte = bv8

  /** The mask `0x80 >> i`: bit 7 for position 0 down to bit 0 for position 7, then 0. */
  function Mask(i: nat): byte
    requires i <= 8
  {
    if i == 0 then 0x80 else Mask(i - 1) >> 1
  }

  /** The nine masks, spelled out. */
  lemma MaskValues()
    ensures Mask(0) == 0x80 && Mask(1) == 0x40 && Mask(2) == 0x20 && Mask(3) == 0x10
    ensures Mask(4) == 0x08 && Mask(5) == 0x04 && Mask(6) == 0x02 && Mask(7) == 0x01
    ensures Mask(8) == 0x00
  {
    assert Mask(0) == 0x80;
    assert Mask(1) == 0x40;
    assert Mask(2) == 0x20;
    assert Mask(3) == 0x10;
    assert Mask(4) == 0x08;
    assert Mask(5) == 0x04;
    assert Mask(6) == 0x02;
    assert Mask(7) == 0x01;
  }

  /** Bit `i` of `x`, counting from the most significant end. */
  predicate BitAt(x: byte, i: nat)
    requires i < 8
  {
    x & Mask(i) != 0
  }

  /** The eight bits of `x`, most significant first. */
  function BitsOf(x: byte): (bits: seq<bool>)
    ensures |bits| == 8
  {
    seq(8, i requires 0 <= i < 8 => BitAt(x, i))
  }

  /** The 0/1 value a C truth value such as `(x & m) != 0` has as a byte. */
  function Flag(high: bool): (r: byte)
    ensures r == 0 || r == 1
    ensures r != 0 <==> high
  {
    if high then 1 else 0
  }

  /** One step of the receive loop: `acc = (acc << 1) | bit`, truncated to a byte. */
  function ShiftIn(acc: byte, high: bool): byte
  {
    (acc << 1) | Flag(high)
  }

  /** Shifts every bit of `bits` into `acc`, first bit first. */
  function FoldBits(acc: byte, bits: seq<bool>): byte
    decreases |bits|
  {
    if |bits| == 0 then acc else FoldBits(ShiftIn(acc, bits[0]), bits[1..])
  }

  /** The byte whose bits, most significant first, are `bits`. */
  function FromBits(bits: seq<bool>): byte
    requires |bits| == 8
  {
    FoldBits(0, bits)
  }

  /** Shifting a bit in moves every bit one place towards the top and puts the new bit at the bottom. */
  lemma ShiftInBit(acc: byte, high: bool, i: nat)
    requires i < 8
    ensures BitAt(ShiftIn(acc, high), i) == if i == 7 then high else BitAt(acc, i + 1)
  {
    MaskValues();
  }

  /**
   After shifting `bits` into `acc`, the low `|bits|` positions hold `bits`
   in order and the positions above hold what was below them in `acc`.
   */
  lemma {:induction false} FoldBitsAt(acc: byte, bits: seq<bool>, i: nat)
    requires |bits| <= 8 && i < 8
    ensures BitAt(FoldBits(acc, bits), i) ==
      if i >= 8 - |bits| then bits[i - (8 - |bits|)] else BitAt(acc, i + |bits|)
    decreases |bits|
  {
    if |bits| > 0 {
      FoldBitsAt(ShiftIn(acc, bits[0]), bits[1..], i);
      if i < 9 - |bits| {
        ShiftInBit(acc, bits[0], i + |bits| - 1);
      }
    }
  }

  /** A byte is determined by its eight bits. */
  lemma BitsOfInjective(x: byte, y: byte)
    requires BitsOf(x) == BitsOf(y)
    ensures x == y
  {
    assert BitsOf(x)[0] == BitsOf(y)[0] && BitsOf(x)[1] == BitsOf(y)[1];
    assert BitsOf(x)[2] == BitsOf(y)[2] && BitsOf(x)[3] == BitsOf(y)[3];
    assert BitsOf(x)[4] == BitsOf(y)[4] && BitsOf(x)[5] == BitsOf(y)[5];
    assert BitsOf(x)[6] == BitsOf(y)[6] && BitsOf(x)[7] == BitsOf(y)[7];
  }

  /**
   Shifting eight bits into any accumulator yields exactly those eight bits:
   whatever the accumulator held before has been shifted out of the byte.
   */
  lemma FoldEight(acc: byte, bits: seq<bool>)
    requires |bits| == 8
    ensures BitsOf(FoldBits(acc, bits)) == bits
    ensures FoldBits(acc, bits) == FromBits(bits)
  {
    forall i | 0 <= i < 8
      ensures BitsOf(FoldBits(acc, bits))[i] == bits[i]
    {
      FoldBitsAt(acc, bits, i);
    }
    forall i | 0 <= i < 8
      ensures BitsOf(FromBits(bits))[i] == bits[i]
    {
      FoldBitsAt(0, bits, i);
    }
    BitsOfInjective(FoldBits(acc, bits), FromBits(bits));
  }

  /** Sending the bits of `x` and shifting them back in, into any accumulator, recovers `x`. */
  lemma FromBitsOf(acc: byte, x: byte)
    ensures FoldBits(acc, BitsOf(x)) == x
    ensures FromBits(BitsOf(x)) == x
  {
    FoldEight(acc, BitsOf(x));
    BitsOfInjective(FoldBits(acc, BitsOf(x)), x);
  }

  /** The bits of the byte assembled from `bits` are `bits`. */
  lemma BitsOfFrom(bits: seq<bool>)
    requires |bits| == 8
    ensures BitsOf(FromBits(bits)) == bits
  {
    FoldEight(0, bits);
  }

  /**
   One pass of the transmit loop at bit position `k`: the mask `Mask(k)` is
   still at least 1, it tests bit `k` of `x`, and halving it gives the mask
   of the next position, which is below 1 only after the last bit.
   */
  lemma MaskBit(x: byte, k: nat)
    requires k < 8
    ensures Mask(k) >= 1 && (x & Mask(k) != 0) == BitsOf(x)[k]
    ensures Mask(k) >> 1 == Mask(k + 1) && (Mask(k + 1) >= 1 <==> k + 1 < 8)
  {
    MaskValues();
  }
}
