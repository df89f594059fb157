/** CRC32C (Castagnoli), the checksum of frame headers and payloads. The
    reference is the bit-serial division of section 12.1 of RFC 3720; the
    code is table driven. */
module Crc32c {
  import opened Bytes
  import opened CrcRegister

  /** The reflected Castagnoli polynomial 0x82F63B78: its four bytes, lowest
      first, each lowest bit first. */
  const POLY: Word := POLY0 + (POLY1 + (POLY2 + POLY3))
  const POLY0 := [false, false, false, true, true, true, true, false]
  const POLY1 := [true, true, false, true, true, true, false, false]
  const POLY2 := [false, true, true, false, true, true, true, true]
  const POLY3 := [false, true, false, false, false, false, false, true]

  const ONES: Word := Fill(true, |POLY|)

  /** Message bits in transmission order: each byte least significant first. */
  function MessageBits(data: seq<byte>): (bits: seq<bool>)
    ensures |bits| == 8 * |data|
  {
    if data == [] then [] else ToBits(data[0], 8) + MessageBits(data[1..])
  }

  /** Bit-serial checksum: start from all ones, divide, complement. */
  function Checksum(data: seq<byte>): Word {
    Xor(FeedBits(POLY, ONES, MessageBits(data)), ONES)
  }

  /** The checksum as the u32 stored on disk. */
  function Crc(data: seq<byte>): (r: nat)
    ensures r < 0x1_0000_0000
  {
    ValueRoundTrip(Checksum(data));
    Pow2Values();
    FromBits(Checksum(data))
  }

  /** A table of `Pow2(w)` entries: entry `i` is the register after `w` turns
      from `i`. The code's table has `w == 8`. */
  predicate IsTable(poly: Word, w: nat, table: seq<Word>)
    requires w <= 32
  {
    && |table| == Pow2(w)
    && forall i :: 0 <= i < |table| ==> table[i] == ShiftBits(poly, Pad(ToBits(i, w)), w)
  }

  /** The compile-time table: two nested loops. */
  method BuildTable(poly: Word, w: nat) returns (table: seq<Word>)
    requires w <= 32
    ensures IsTable(poly, w, table)
  {
    table := [];
    while |table| < Pow2(w)
      invariant |table| <= Pow2(w)
      invariant forall j :: 0 <= j < |table| ==> table[j] == ShiftBits(poly, Pad(ToBits(j, w)), w)
    {
      var crc: Word := Pad(ToBits(|table|, w));
      var bit := 0;
      while bit < w
        invariant 0 <= bit <= w
        invariant ShiftBits(poly, crc, w - bit) == ShiftBits(poly, Pad(ToBits(|table|, w)), w)
      {
        crc := ShiftBit(poly, crc);
        bit := bit + 1;
      }
      table := table + [crc];
    }
  }

  /** One turn of `crc32c_sw`: shift a byte out, mix in its table entry. */
  method FoldByte(poly: Word, crc: Word, table: seq<Word>, bits: seq<bool>) returns (next: Word)
    requires |bits| <= 32
    requires IsTable(poly, |bits|, table)
    ensures next == FeedBits(poly, crc, bits)
  {
    var low := Xor(crc, Pad(bits))[..|bits|];
    ValueRoundTrip(low);
    FeedByTable(poly, crc, bits);
    next := Xor(ShiftRight(crc, |bits|), table[FromBits(low)]);
  }

  /** The table-driven loop of `crc32c_sw` computes the bit-serial division. */
  method FoldBytes(poly: Word, init: Word, table: seq<Word>, data: seq<byte>) returns (crc: Word)
    requires IsTable(poly, 8, table)
    ensures crc == FeedBits(poly, init, MessageBits(data))
  {
    crc := init;
    for k := 0 to |data|
      invariant FeedBits(poly, crc, MessageBits(data[k..])) == FeedBits(poly, init, MessageBits(data))
    {
      var bits := ToBits(data[k], 8);
      var rest := MessageBits(data[k + 1..]);
      assert MessageBits(data[k..]) == bits + rest;
      FeedBitsAppend(poly, crc, bits, rest);
      crc := FoldByte(poly, crc, table, bits);
    }
  }

  method Crc32cSw(data: seq<byte>) returns (r: nat)
    ensures r == Crc(data)
  {
    var table := BuildTable(POLY, 8);
    var crc := FoldBytes(POLY, ONES, table, data);
    r := FromBits(Xor(crc, ONES));
  }

  lemma {:induction false} MessageBitsAppend(a: seq<byte>, b: seq<byte>)
    ensures MessageBits(a + b) == MessageBits(a) + MessageBits(b)
  {
    if a == [] {
      assert a + b == b;
    } else {
      assert (a + b)[1..] == a[1..] + b;
      MessageBitsAppend(a[1..], b);
    }
  }

  lemma {:induction false} MessageBitsInjective(a: seq<byte>, b: seq<byte>)
    requires |a| == |b|
    requires MessageBits(a) == MessageBits(b)
    ensures a == b
  {
    if a != [] {
      var x, y := MessageBits(a), MessageBits(b);
      assert x[..8] == ToBits(a[0], 8) && y[..8] == ToBits(b[0], 8);
      assert x[8..] == MessageBits(a[1..]) && y[8..] == MessageBits(b[1..]);
      Pow2Values();
      ToBitsInjective(a[0], b[0], 8);
      MessageBitsInjective(a[1..], b[1..]);
    }
  }

  // ----- guaranteed burst detection -----

  /** The bits above are the constant in the code, read low byte first. */
  lemma PolyValue()
    ensures FromBits(POLY) == 0x82F6_3B78
  {
    hide FromBits;
    OctetValue(POLY0);
    OctetValue(POLY1);
    OctetValue(POLY2);
    OctetValue(POLY3);
    AppendByte(POLY2, POLY3);
    AppendByte(POLY1, POLY2 + POLY3);
    AppendByte(POLY0, POLY1 + (POLY2 + POLY3));
  }

  function Bit(b: bool): nat { if b then 1 else 0 }

  lemma OctetValue(b: seq<bool>)
    requires |b| == 8
    ensures FromBits(b) == Bit(b[0]) + 2 * Bit(b[1]) + 4 * Bit(b[2]) + 8 * Bit(b[3])
                         + 16 * Bit(b[4]) + 32 * Bit(b[5]) + 64 * Bit(b[6]) + 128 * Bit(b[7])
  {
    HalfOctet(b, 0);
    HalfOctet(b, 4);
    assert b[0..] == b && b[8..] == [];
  }

  lemma HalfOctet(b: seq<bool>, k: nat)
    requires k + 4 <= |b|
    ensures FromBits(b[k..]) == Bit(b[k]) + 2 * Bit(b[k + 1]) + 4 * Bit(b[k + 2]) + 8 * Bit(b[k + 3])
                              + 16 * FromBits(b[k + 4..])
  {
    NextBit(b, k);
    NextBit(b, k + 1);
    NextBit(b, k + 2);
    NextBit(b, k + 3);
  }

  lemma NextBit(b: seq<bool>, k: nat)
    requires k < |b|
    ensures FromBits(b[k..]) == Bit(b[k]) + 2 * FromBits(b[k + 1..])
  {
    assert b[k..][1..] == b[k + 1..];
  }

  lemma AppendByte(a: seq<bool>, b: seq<bool>)
    requires |a| == 8
    ensures FromBits(a + b) == FromBits(a) + 256 * FromBits(b)
  {
    var c := a + b;
    HalfOctet(c, 0);
    HalfOctet(c, 4);
    OctetValue(a);
    assert c[0..] == c && c[8..] == b;
  }

  /** Damage confined to a window of at most four consecutive bytes is
      always detected. */
  lemma BurstDetected(prefix: seq<byte>, x: seq<byte>, y: seq<byte>, suffix: seq<byte>)
    requires |x| == |y| <= 4
    requires x != y
    ensures Crc(prefix + x + suffix) != Crc(prefix + y + suffix)
  {
    if Crc(prefix + x + suffix) == Crc(prefix + y + suffix) {
      SameCrcSameRegister(prefix + x + suffix, prefix + y + suffix);
      RegisterSeparates(POLY, ONES, prefix, x, y, suffix);
    }
  }

  lemma SameCrcSameRegister(a: seq<byte>, b: seq<byte>)
    requires Crc(a) == Crc(b)
    ensures FeedBits(POLY, ONES, MessageBits(a)) == FeedBits(POLY, ONES, MessageBits(b))
  {
    ValueRoundTrip(Checksum(a));
    ValueRoundTrip(Checksum(b));
    XorInjective(FeedBits(POLY, ONES, MessageBits(a)), FeedBits(POLY, ONES, MessageBits(b)), ONES);
  }

  lemma RegisterSeparates(poly: Word, init: Word, prefix: seq<byte>, x: seq<byte>, y: seq<byte>, suffix: seq<byte>)
    requires poly[31]
    requires |x| == |y| <= 4
    requires FeedBits(poly, init, MessageBits(prefix + x + suffix)) == FeedBits(poly, init, MessageBits(prefix + y + suffix))
    ensures x == y
  {
    var c := FeedBits(poly, init, MessageBits(prefix));
    FeedSplit(poly, init, prefix, x, suffix);
    FeedSplit(poly, init, prefix, y, suffix);
    FeedBitsInjective(poly, FeedBits(poly, c, MessageBits(x)), FeedBits(poly, c, MessageBits(y)), MessageBits(suffix));
    FeedSeparates(poly, c, MessageBits(x), MessageBits(y));
    MessageBitsInjective(x, y);
  }

  lemma FeedSplit(poly: Word, init: Word, prefix: seq<byte>, x: seq<byte>, suffix: seq<byte>)
    ensures FeedBits(poly, init, MessageBits(prefix + x + suffix))
         == FeedBits(poly, FeedBits(poly, FeedBits(poly, init, MessageBits(prefix)), MessageBits(x)), MessageBits(suffix))
  {
    MessageBitsAppend(prefix + x, suffix);
    MessageBitsAppend(prefix, x);
    FeedBitsAppend(poly, init, MessageBits(prefix) + MessageBits(x), MessageBits(suffix));
    FeedBitsAppend(poly, init, MessageBits(prefix), MessageBits(x));
  }

  /** One wrong byte is the smallest burst. */
  lemma OneByteDetected(a: seq<byte>, b: seq<byte>, p: nat)
    requires DiffersOnlyAt(a, b, p)
    ensures Crc(a) != Crc(b)
  {
    assert a == a[..p] + [a[p]] + a[p + 1..];
    assert b == a[..p] + [b[p]] + a[p + 1..];
    BurstDetected(a[..p], [a[p]], [b[p]], a[p + 1..]);
  }
}
