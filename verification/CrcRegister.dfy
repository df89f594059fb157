/** A 32-bit CRC register over GF(2), for any reflected polynomial.

    A register is a sequence of 32 bits, least significant first, so `c >> 1`
    drops bit 0 and `^` is bitwise inequality. */
module CrcRegister {

  type Word = w: seq<bool> | |w| == 32 witness Fill(false, 32)

  function Fill(bit: bool, n: nat): (r: seq<bool>)
    ensures |r| == n
    ensures forall i :: 0 <= i < n ==> r[i] == bit
  {
    if n == 0 then [] else [bit] + Fill(bit, n - 1)
  }

  function XorBits(a: seq<bool>, b: seq<bool>): (r: seq<bool>)
    requires |a| == |b|
    ensures |r| == |a|
    ensures forall i :: 0 <= i < |a| ==> r[i] == (a[i] != b[i])
  {
    if a == [] then [] else [a[0] != b[0]] + XorBits(a[1..], b[1..])
  }

  function Xor(a: Word, b: Word): (r: Word)
    ensures forall i :: 0 <= i < 32 ==> r[i] == (a[i] != b[i])
  {
    XorBits(a, b)
  }

  function ShiftRight(a: Word, n: nat): (r: Word)
    requires n <= 32
    ensures forall i :: 0 <= i < 32 ==> r[i] == (i + n < 32 && a[i + n])
  {
    a[n..] + Fill(false, n)
  }

  /** A word whose low bits are `bits` and whose other bits are zero. */
  function Pad(bits: seq<bool>): (r: Word)
    requires |bits| <= 32
    ensures forall i :: 0 <= i < 32 ==> r[i] == (i < |bits| && bits[i])
  {
    bits + Fill(false, 32 - |bits|)
  }

  /** One turn of the table builder's inner loop. */
  function ShiftBit(poly: Word, c: Word): (r: Word)
    ensures forall i :: 0 <= i < 32 ==> r[i] == ((i < 31 && c[i + 1]) != (c[0] && poly[i]))
  {
    if c[0] then Xor(ShiftRight(c, 1), poly) else ShiftRight(c, 1)
  }

  function ShiftBits(poly: Word, c: Word, n: nat): (r: Word)
    decreases n
  {
    if n == 0 then c else ShiftBits(poly, ShiftBit(poly, c), n - 1)
  }

  /** Divide one more message bit into the register. */
  function FeedBit(poly: Word, c: Word, bit: bool): (r: Word)
    ensures forall i :: 0 <= i < 32 ==> r[i] == ((i < 31 && c[i + 1]) != (c[0] != bit && poly[i]))
  {
    if c[0] != bit then Xor(ShiftRight(c, 1), poly) else ShiftRight(c, 1)
  }

  /** Bit-by-bit division of a message: the reference. */
  function FeedBits(poly: Word, c: Word, bits: seq<bool>): (r: Word)
    decreases |bits|
  {
    if bits == [] then c else FeedBits(poly, FeedBit(poly, c, bits[0]), bits[1..])
  }

  lemma ShiftBitLinear(poly: Word, a: Word, b: Word)
    ensures ShiftBit(poly, Xor(a, b)) == Xor(ShiftBit(poly, a), ShiftBit(poly, b))
  {
    hide Xor, ShiftRight, ShiftBit;
    var l, r := ShiftBit(poly, Xor(a, b)), Xor(ShiftBit(poly, a), ShiftBit(poly, b));
    assert forall i :: 0 <= i < 32 ==> l[i] == r[i];
  }

  lemma {:induction false} ShiftBitsLinear(poly: Word, a: Word, b: Word, n: nat)
    ensures ShiftBits(poly, Xor(a, b), n) == Xor(ShiftBits(poly, a, n), ShiftBits(poly, b, n))
    decreases n
  {
    if n > 0 {
      ShiftBitLinear(poly, a, b);
      ShiftBitsLinear(poly, ShiftBit(poly, a), ShiftBit(poly, b), n - 1);
    }
  }

  /** Zero low bits are shifted out without touching the polynomial. */
  lemma {:induction false} ShiftOutZeros(poly: Word, c: Word, n: nat)
    requires n <= 32
    requires forall i :: 0 <= i < n ==> !c[i]
    ensures ShiftBits(poly, c, n) == ShiftRight(c, n)
    decreases n
  {
    hide Xor, ShiftRight, ShiftBit;
    if n > 0 {
      var d := ShiftBit(poly, c);
      ShiftOutZeros(poly, d, n - 1);
    }
  }

  lemma {:induction false} FeedBitsAppend(poly: Word, c: Word, a: seq<bool>, b: seq<bool>)
    ensures FeedBits(poly, c, a + b) == FeedBits(poly, FeedBits(poly, c, a), b)
    decreases |a|
  {
    if a == [] {
      assert a + b == b;
    } else {
      assert (a + b)[1..] == a[1..] + b;
      FeedBitsAppend(poly, FeedBit(poly, c, a[0]), a[1..], b);
    }
  }

  /** Up to 32 message bits can be added to the register at once. */
  lemma {:induction false} FeedIsShift(poly: Word, c: Word, bits: seq<bool>)
    requires |bits| <= 32
    ensures FeedBits(poly, c, bits) == ShiftBits(poly, Xor(c, Pad(bits)), |bits|)
    decreases |bits|
  {
    hide Xor, ShiftRight, Pad, ShiftBit, FeedBit;
    if bits == [] {
      assert Xor(c, Pad(bits)) == c;
    } else {
      FeedIsShift(poly, FeedBit(poly, c, bits[0]), bits[1..]);
      ShiftMixed(poly, c, bits);
    }
  }

  /** One turn on a mixed register = feed its first bit, keep the others mixed. */
  lemma ShiftMixed(poly: Word, c: Word, bits: seq<bool>)
    requires 0 < |bits| <= 32
    ensures ShiftBit(poly, Xor(c, Pad(bits))) == Xor(FeedBit(poly, c, bits[0]), Pad(bits[1..]))
  {
    hide Xor, ShiftRight, Pad, ShiftBit, FeedBit;
    var l, r := ShiftBit(poly, Xor(c, Pad(bits))), Xor(FeedBit(poly, c, bits[0]), Pad(bits[1..]));
    assert forall i :: 0 <= i < 32 ==> l[i] == r[i];
  }

  /** Feeding `n` bits = looking up the low `n` bits of the mixed register,
      added to the register's remaining bits. */
  lemma FeedByTable(poly: Word, c: Word, bits: seq<bool>)
    requires |bits| <= 32
    ensures var low := Xor(c, Pad(bits))[..|bits|];
            Xor(ShiftRight(c, |bits|), ShiftBits(poly, Pad(low), |bits|)) == FeedBits(poly, c, bits)
  {
    hide Xor, ShiftRight, Pad, ShiftBit, FeedBit, ShiftBits, FeedBits;
    var n := |bits|;
    var x := Xor(c, Pad(bits));
    var low := x[..n];
    var high: Word := Fill(false, n) + x[n..];
    FeedIsShift(poly, c, bits);
    assert x == Xor(high, Pad(low));
    ShiftBitsLinear(poly, high, Pad(low), n);
    ShiftOutZeros(poly, high, n);
    assert ShiftRight(high, n) == ShiftRight(c, n);
  }

  lemma ShiftBitInjective(poly: Word, a: Word, b: Word)
    requires poly[31]
    requires ShiftBit(poly, a) == ShiftBit(poly, b)
    ensures a == b
  {
    var s, t := ShiftBit(poly, a), ShiftBit(poly, b);
    assert s[31] == a[0] && t[31] == b[0];
    forall j | 0 <= j < 32
      ensures a[j] == b[j]
    {
      if j > 0 {
        var i := j - 1;
        assert s[i] == (a[i + 1] != (a[0] && poly[i]));
        assert t[i] == (b[i + 1] != (b[0] && poly[i]));
      }
    }
  }

  lemma {:induction false} ShiftBitsInjective(poly: Word, a: Word, b: Word, n: nat)
    requires poly[31]
    requires ShiftBits(poly, a, n) == ShiftBits(poly, b, n)
    ensures a == b
    decreases n
  {
    if n > 0 {
      ShiftBitsInjective(poly, ShiftBit(poly, a), ShiftBit(poly, b), n - 1);
      ShiftBitInjective(poly, a, b);
    }
  }

  lemma XorInjective(c: Word, d: Word, x: Word)
    requires Xor(c, x) == Xor(d, x)
    ensures c == d
  {
    forall i | 0 <= i < 32
      ensures c[i] == d[i]
    {
      assert Xor(c, x)[i] == Xor(d, x)[i];
    }
  }

  lemma FeedOneBit(poly: Word, c: Word, bit: bool)
    ensures FeedBit(poly, c, bit) == ShiftBit(poly, Xor(c, Pad([bit])))
  {
    hide Xor, ShiftRight, Pad, ShiftBit, FeedBit;
    assert FeedBit(poly, c, bit) == ShiftBit(poly, Xor(c, Pad([bit])));
  }

  /** Different registers never merge again, whatever is fed to both. */
  lemma {:induction false} FeedBitsInjective(poly: Word, c: Word, d: Word, bits: seq<bool>)
    requires poly[31]
    requires FeedBits(poly, c, bits) == FeedBits(poly, d, bits)
    ensures c == d
    decreases |bits|
  {
    hide Xor, ShiftRight, Pad, ShiftBit, FeedBit;
    if bits != [] {
      var bit := bits[0];
      FeedBitsInjective(poly, FeedBit(poly, c, bit), FeedBit(poly, d, bit), bits[1..]);
      var one := Pad([bit]);
      FeedOneBit(poly, c, bit);
      FeedOneBit(poly, d, bit);
      ShiftBitInjective(poly, Xor(c, one), Xor(d, one));
      XorInjective(c, d, one);
    }
  }

  /** One register, two different runs of at most 32 bits: different results. */
  lemma FeedSeparates(poly: Word, c: Word, x: seq<bool>, y: seq<bool>)
    requires poly[31]
    requires |x| == |y| <= 32
    requires FeedBits(poly, c, x) == FeedBits(poly, c, y)
    ensures x == y
  {
    hide Xor, Pad, ShiftBits, FeedBits;
    FeedIsShift(poly, c, x);
    FeedIsShift(poly, c, y);
    ShiftBitsInjective(poly, Xor(c, Pad(x)), Xor(c, Pad(y)), |x|);
    forall i | 0 <= i < |x|
      ensures x[i] == y[i]
    {
      assert Xor(c, Pad(x))[i] == (c[i] != x[i]);
      assert Xor(c, Pad(y))[i] == (c[i] != y[i]);
    }
  }
}
