/** The snapshot file: a checksummed 32-byte header naming the seq, then the
    checksummed payload. Anything torn or damaged is unusable, never wrong. */
module SnapshotFile {
  import opened Wrappers
  import opened Bytes
  import opened Frame
  import Crc32c

  const SNAPSHOT_MAGIC: seq<byte> := [0x54, 0x4B, 0x54, 0x53]  // "TKTS"
  const SNAPSHOT_VERSION := 1
  const SNAPSHOT_HEADER := 32

  datatype Loaded = Loaded(seqno: nat, epoch: nat, payload: seq<byte>)

  function Fields(seqno: nat, epoch: nat, len: nat): (h: seq<byte>)
    ensures |h| == 28
  {
    SNAPSHOT_MAGIC + LittleEndian(SNAPSHOT_VERSION, 4) + LittleEndian(seqno, 8) + LittleEndian(epoch, 8) + LittleEndian(len, 4)
  }

  function Image(seqno: nat, epoch: nat, payload: seq<byte>): (bytes: seq<byte>)
    ensures |bytes| == SNAPSHOT_HEADER + |payload| + 4
  {
    Sealed(Fields(seqno, epoch, |payload|)) + Sealed(payload)
  }

  function Parse(bytes: seq<byte>): (r: Option<Loaded>) {
    if |bytes| < SNAPSHOT_HEADER + 4 || bytes[..4] != SNAPSHOT_MAGIC then None
    else if FromLittleEndian(bytes[4..8]) != SNAPSHOT_VERSION then None
    else if Crc32c.Crc(bytes[..28]) != FromLittleEndian(bytes[28..32]) then None
    else
      var len := FromLittleEndian(bytes[24..28]);
      var total := SNAPSHOT_HEADER + len + 4;
      if |bytes| < total then None
      else
        var payload := bytes[32..32 + len];
        if Crc32c.Crc(payload) != FromLittleEndian(bytes[total - 4..total]) then None
        else Some(Loaded(FromLittleEndian(bytes[8..16]), FromLittleEndian(bytes[16..24]), payload))
  }

  ghost predicate Encodable(seqno: nat, epoch: nat, len: nat) {
    seqno < U64_LIMIT && epoch < U64_LIMIT && len < U32_LIMIT
  }

  /** What `Parse` does once it has seen an intact header. */
  lemma ParsePastHeader(seqno: nat, epoch: nat, len: nat, bytes: seq<byte>)
    requires Encodable(seqno, epoch, len)
    requires |bytes| >= SNAPSHOT_HEADER && bytes[..32] == Sealed(Fields(seqno, epoch, len))
    ensures Parse(bytes) ==
            if |bytes| < 36 + len || Crc32c.Crc(bytes[32..32 + len]) != FromLittleEndian(bytes[32 + len..36 + len])
            then None else Some(Loaded(seqno, epoch, bytes[32..32 + len]))
  {
    hide Crc32c.Crc, LittleEndian, FromLittleEndian;
    var h := Fields(seqno, epoch, len);
    Pow256Values();
    LittleEndianRoundTrip(SNAPSHOT_VERSION, 4);
    LittleEndianRoundTrip(seqno, 8);
    LittleEndianRoundTrip(epoch, 8);
    LittleEndianRoundTrip(len, 4);
    StoredCrc(h);
    assert bytes[..28] == bytes[..32][..28] == h;
    assert bytes[28..32] == bytes[..32][28..] == Sealed(h)[28..];
    assert bytes[..4] == h[..4] == SNAPSHOT_MAGIC;
    assert bytes[4..8] == h[4..8] == LittleEndian(SNAPSHOT_VERSION, 4);
    assert bytes[8..16] == h[8..16] == LittleEndian(seqno, 8);
    assert bytes[16..24] == h[16..24] == LittleEndian(epoch, 8);
    assert bytes[24..28] == h[24..28] == LittleEndian(len, 4);
  }

  lemma SnapshotRoundTrip(seqno: nat, epoch: nat, payload: seq<byte>)
    requires Encodable(seqno, epoch, |payload|)
    ensures Parse(Image(seqno, epoch, payload)) == Some(Loaded(seqno, epoch, payload))
  {
    hide Crc32c.Crc, LittleEndian, FromLittleEndian, Fields, Parse;
    var b, n := Image(seqno, epoch, payload), |payload|;
    assert b[..32] == Sealed(Fields(seqno, epoch, n));
    assert b[32..] == Sealed(payload);
    assert b[32..32 + n] == b[32..][..n] && b[32 + n..36 + n] == b[32..][n..];
    StoredCrc(payload);
    ParsePastHeader(seqno, epoch, n, b);
  }

  /** A snapshot cut anywhere is skipped. */
  lemma CutSnapshotSkipped(seqno: nat, epoch: nat, payload: seq<byte>, k: nat)
    requires Encodable(seqno, epoch, |payload|)
    requires k < |Image(seqno, epoch, payload)|
    ensures Parse(Image(seqno, epoch, payload)[..k]) == None
  {
    hide Crc32c.Crc, LittleEndian, FromLittleEndian, Fields;
    var b := Image(seqno, epoch, payload);
    if k >= 36 {
      assert b[..k][..32] == b[..32] == Sealed(Fields(seqno, epoch, |payload|));
      ParsePastHeader(seqno, epoch, |payload|, b[..k]);
    }
  }

  /** A snapshot with one damaged byte is skipped. */
  lemma DamagedSnapshotSkipped(seqno: nat, epoch: nat, payload: seq<byte>, d: seq<byte>, p: nat)
    requires Encodable(seqno, epoch, |payload|)
    requires DiffersOnlyAt(Image(seqno, epoch, payload), d, p)
    ensures Parse(d) == None
  {
    hide Crc32c.Crc, LittleEndian, FromLittleEndian, Fields;
    var b, n := Image(seqno, epoch, payload), |payload|;
    var h := Fields(seqno, epoch, n);
    DamageInPart(b, d, p, 0, 32);
    DamageInPart(b, d, p, 32, 36 + n);
    assert b[0..32] == Sealed(h) && b[32..36 + n] == Sealed(payload);
    if p < 32 {
      SealBroken(h, d[0..32], p);
      assert d[..28] == d[0..32][..28] && d[28..32] == d[0..32][28..];
    } else {
      SealBroken(payload, d[32..36 + n], p - 32);
      assert d[32..36 + n][..n] == d[32..32 + n] && d[32..36 + n][n..] == d[32 + n..36 + n];
      assert d[..32] == d[0..32];
      ParsePastHeader(seqno, epoch, n, d);
    }
  }
}
