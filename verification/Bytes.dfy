/** Machine bytes, bits and little-endian integers: the vocabulary of the
    wire and journal formats. Integers are unbounded here; a `k`-byte field
    holds exactly the values below `Pow256(k)`. */
module Bytes {

  type byte = x: int | 0 <= x < 256

  const U32_LIMIT := 0x1_0000_0000
  const U64_LIMIT := 0x1_0000_0000_0000_0000

  function Pow2(k: nat): (p: nat)
    ensures p >= 1
  {
    if k == 0 then 1 else 2 * Pow2(k - 1)
  }

  lemma {:induction false} Pow2Add(a: nat, b: nat)
    ensures Pow2(a + b) == Pow2(a) * Pow2(b)
    decreases a
  {
    if a > 0 {
      Pow2Add(a - 1, b);
    }
  }

  lemma Pow2Values()
    ensures Pow2(8) == 256
    ensures Pow2(16) == 0x1_0000
    ensures Pow2(32) == 0x1_0000_0000
  {
    assert Pow2(4) == 16;
    Pow2Add(4, 4);
    Pow2Add(8, 8);
    Pow2Add(16, 16);
  }

  function Pow256(k: nat): (p: nat)
    ensures p >= 1
  {
    if k == 0 then 1 else 256 * Pow256(k - 1)
  }

  /** The low `k` bits of `n`, least significant first. */
  function ToBits(n: nat, k: nat): (bits: seq<bool>)
    ensures |bits| == k
    decreases k, n
  {
    if k == 0 then [] else [n % 2 == 1] + ToBits(n / 2, k - 1)
  }

  function FromBits(bits: seq<bool>): nat {
    if bits == [] then 0 else (if bits[0] then 1 else 0) + 2 * FromBits(bits[1..])
  }

  lemma {:induction false} BitsRoundTrip(n: nat, k: nat)
    requires n < Pow2(k)
    ensures FromBits(ToBits(n, k)) == n
    decreases k
  {
    if k > 0 {
      BitsRoundTrip(n / 2, k - 1);
      assert ToBits(n, k)[1..] == ToBits(n / 2, k - 1);
    }
  }

  lemma {:induction false} ValueRoundTrip(bits: seq<bool>)
    ensures FromBits(bits) < Pow2(|bits|)
    ensures ToBits(FromBits(bits), |bits|) == bits
  {
    if bits != [] {
      ValueRoundTrip(bits[1..]);
    }
  }

  lemma {:induction false} ToBitsInjective(m: nat, n: nat, k: nat)
    requires m < Pow2(k) && n < Pow2(k)
    requires ToBits(m, k) == ToBits(n, k)
    ensures m == n
  {
    BitsRoundTrip(m, k);
    BitsRoundTrip(n, k);
  }

  /** `n` as `k` little-endian bytes (higher bits are dropped, as `as` does). */
  function LittleEndian(n: nat, k: nat): (bytes: seq<byte>)
    ensures |bytes| == k
    decreases k, n
  {
    if k == 0 then [] else [n % 256] + LittleEndian(n / 256, k - 1)
  }

  function FromLittleEndian(bytes: seq<byte>): nat {
    if bytes == [] then 0 else bytes[0] + 256 * FromLittleEndian(bytes[1..])
  }

  lemma {:induction false} LittleEndianRoundTrip(n: nat, k: nat)
    requires n < Pow256(k)
    ensures FromLittleEndian(LittleEndian(n, k)) == n
    decreases k
  {
    if k > 0 {
      LittleEndianRoundTrip(n / 256, k - 1);
      assert LittleEndian(n, k)[1..] == LittleEndian(n / 256, k - 1);
    }
  }

  lemma {:induction false} LittleEndianOfValue(bytes: seq<byte>)
    ensures FromLittleEndian(bytes) < Pow256(|bytes|)
    ensures LittleEndian(FromLittleEndian(bytes), |bytes|) == bytes
  {
    if bytes != [] {
      LittleEndianOfValue(bytes[1..]);
      var v := FromLittleEndian(bytes[1..]);
      assert FromLittleEndian(bytes) % 256 == bytes[0];
      assert FromLittleEndian(bytes) / 256 == v;
    }
  }

  lemma Pow256Values()
    ensures Pow256(2) == 0x1_0000
    ensures Pow256(4) == U32_LIMIT
    ensures Pow256(8) == U64_LIMIT
  {
    assert Pow256(4) == 256 * Pow256(3);
    assert Pow256(8) == 256 * 256 * Pow256(6);
    assert Pow256(6) == 256 * 256 * Pow256(4);
  }

  /** Two byte strings of one length that agree everywhere but at `p`. */
  predicate DiffersOnlyAt(a: seq<byte>, b: seq<byte>, p: nat) {
    && |a| == |b|
    && p < |a|
    && a[p] != b[p]
    && forall i :: 0 <= i < |a| && i != p ==> a[i] == b[i]
  }
}
