/** Checksums worked out in full: they pin the start value, the order of the bits
    and the final complement. */
module CrcVector {
  import opened Bytes
  import opened CrcRegister
  import opened Crc32c

  /** Complementing all bits takes the value from the largest one. */
  lemma {:induction false} ComplementValue(a: seq<bool>, ones: seq<bool>)
    requires |a| == |ones| && forall i :: 0 <= i < |ones| ==> ones[i]
    ensures FromBits(XorBits(a, ones)) + FromBits(a) == Pow2(|a|) - 1
  {
    if a != [] {
      ComplementValue(a[1..], ones[1..]);
      var x := XorBits(a, ones);
      assert x[1..] == XorBits(a[1..], ones[1..]);
    }
  }

  lemma {:induction false} ZerosValue(a: seq<bool>)
    requires forall i :: 0 <= i < |a| ==> !a[i]
    ensures FromBits(a) == 0
  {
    if a != [] {
      ZerosValue(a[1..]);
    }
  }

  /** The checksum of a register is its complement, as a number. */
  lemma ChecksumValue(data: seq<byte>, register: Word)
    requires FeedBits(POLY, ONES, MessageBits(data)) == register
    ensures Crc(data) == 0xFFFF_FFFF - FromBits(register)
  {
    hide FeedBits, MessageBits, FromBits, XorBits;
    Pow2Values();
    ComplementValue(register, ONES);
  }

  lemma OnesValue(a: Word)
    requires forall i :: 0 <= i < 32 ==> a[i]
    ensures FromBits(a) == 0xFFFF_FFFF
  {
    hide FromBits, XorBits;
    var none := XorBits(a, a);
    ZerosValue(none);
    ComplementValue(none, a);
    assert XorBits(none, a) == a;
    Pow2Values();
  }

  /** Nothing has checksum 0. */
  lemma OfNothing()
    ensures Crc([]) == 0
  {
    hide FromBits, Fill;
    assert FeedBits(POLY, ONES, []) == ONES;
    OnesValue(ONES);
    ChecksumValue([], ONES);
  }

  // ----- a message that starts like the register -----

  lemma {:induction false} ShiftNothing(c: Word, n: nat)
    requires forall i :: 0 <= i < 32 ==> !c[i]
    ensures ShiftBits(POLY, c, n) == c
    decreases n
  {
    hide ShiftRight, Xor;
    if n > 0 {
      assert ShiftBit(POLY, c) == c;
      ShiftNothing(c, n - 1);
    }
  }

  /** Dividing a register by its own bits leaves nothing. */
  lemma OwnBits(c: Word, bits: seq<bool>)
    requires bits == c
    ensures forall i :: 0 <= i < 32 ==> !FeedBits(POLY, c, bits)[i]
  {
    hide Xor, Pad, ShiftBits, FeedBits;
    FeedIsShift(POLY, c, bits);
    ShiftNothing(Xor(c, Pad(bits)), 32);
  }

  lemma ByteOfOnes()
    ensures ToBits(255, 8) == [true, true, true, true, true, true, true, true]
  {
    assert ToBits(255, 8) == [true, true, true, true] + ToBits(15, 4);
    assert ToBits(15, 4) == [true, true, true, true] + ToBits(0, 0);
  }

  lemma HighBit()
    ensures ToBits(128, 8) == [false, false, false, false, false, false, false, true]
  {
    assert ToBits(128, 8) == [false, false, false, false] + ToBits(8, 4);
    assert ToBits(8, 4) == [false, false, false, true] + ToBits(0, 0);
  }

  const FOUR_ONES: seq<byte> := [0xFF, 0xFF, 0xFF, 0xFF]

  lemma FourOnesBits()
    ensures MessageBits(FOUR_ONES) == ONES
  {
    ByteOfOnes();
    hide ToBits, Fill;
    assert FOUR_ONES[1..] == [0xFF, 0xFF, 0xFF] && [0xFF, 0xFF, 0xFF][1..] == [0xFF, 0xFF] && [0xFF, 0xFF][1..] == [0xFF];
    var one: seq<byte> := [0xFF];
    assert one[1..] == [];
    assert MessageBits(one) == ToBits(255, 8) + [];
    var two: seq<byte> := [0xFF, 0xFF];
    assert MessageBits(two) == ToBits(255, 8) + MessageBits(one);
    var three: seq<byte> := [0xFF, 0xFF, 0xFF];
    assert MessageBits(three) == ToBits(255, 8) + MessageBits(two);
    assert MessageBits(FOUR_ONES) == ToBits(255, 8) + MessageBits(three);
    assert forall i :: 0 <= i < 32 ==> MessageBits(FOUR_ONES)[i];
  }

  /** Four bytes of ones cancel the start value, so their checksum is the bare
      complement. */
  lemma OfFourOnes()
    ensures Crc(FOUR_ONES) == 0xFFFF_FFFF
  {
    hide FromBits, FeedBits, MessageBits;
    FourOnesBits();
    OwnBits(ONES, MessageBits(FOUR_ONES));
    var none := FeedBits(POLY, ONES, MessageBits(FOUR_ONES));
    ZerosValue(none);
    ChecksumValue(FOUR_ONES, none);
  }

  lemma {:induction false} FeedZeros(c: Word, bits: seq<bool>)
    requires (forall i :: 0 <= i < 32 ==> !c[i]) && forall i :: 0 <= i < |bits| ==> !bits[i]
    ensures FeedBits(POLY, c, bits) == c
    decreases |bits|
  {
    hide ShiftRight, Xor;
    if bits != [] {
      assert FeedBit(POLY, c, false) == c;
      FeedZeros(c, bits[1..]);
    }
  }

  /** One more byte whose highest bit alone is set divides in the polynomial with
      its last bit, and that is what is left. */
  lemma OfOnesAndHighBit()
    ensures Crc(FOUR_ONES + [0x80]) == 0xFFFF_FFFF - 0x82F6_3B78
  {
    hide FromBits, FeedBits, MessageBits, FeedBit, ToBits;
    FourOnesBits();
    OwnBits(ONES, MessageBits(FOUR_ONES));
    HighBit();
    var none := FeedBits(POLY, ONES, MessageBits(FOUR_ONES));
    var last: seq<byte> := [0x80];
    MessageBitsAppend(FOUR_ONES, last);
    LastByte();
    FeedBitsAppend(POLY, ONES, MessageBits(FOUR_ONES), ToBits(128, 8));
    HighBitLeavesPoly(none);
    PolyValue();
    ChecksumValue(FOUR_ONES + last, POLY);
  }

  lemma LastByte()
    ensures MessageBits([0x80]) == ToBits(128, 8)
  {
    hide ToBits;
    var last: seq<byte> := [0x80];
    assert last[1..] == [];
    assert MessageBits(last) == ToBits(128, 8) + [];
  }

  lemma HighBitLeavesPoly(none: Word)
    requires forall i :: 0 <= i < 32 ==> !none[i]
    ensures FeedBits(POLY, none, [false, false, false, false, false, false, false, true]) == POLY
  {
    hide FeedBits, ShiftRight, Xor;
    var zeros := [false, false, false, false, false, false, false];
    assert [false, false, false, false, false, false, false, true] == zeros + [true];
    FeedBitsAppend(POLY, none, zeros, [true]);
    FeedZeros(none, zeros);
    FeedOne(none, true);
    assert FeedBit(POLY, none, true) == POLY;
  }

  lemma FeedOne(c: Word, bit: bool)
    ensures FeedBits(POLY, c, [bit]) == FeedBit(POLY, c, bit)
  {
    hide FeedBit;
    assert [bit][1..] == [];
    var next := FeedBit(POLY, c, bit);
    assert FeedBits(POLY, next, []) == next;
  }
}
