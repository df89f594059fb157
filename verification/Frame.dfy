/** The frame: the record layout used on the wire and in the journal.

    Fixed 28-byte little-endian header (the last 4 bytes a CRC32C of the first
    24), opaque payload, then the payload's CRC32C. */
module Frame {
  import opened Wrappers
  import opened Bytes
  import Crc32c

  const HEADER_LEN := 28
  const MAX_PAYLOAD_LEN := 64 * 1024 * 1024

  datatype FrameKind =
    | Input | Output | Tick | TimerFired | SessionOpen | SessionClose
    | SnapshotMark | EpochChange | Heartbeat

  function KindCode(kind: FrameKind): (code: nat)
    ensures code < 256
    ensures KindOfCode(code) == Some(kind)
  {
    match kind
    case Input => 0x0001
    case Output => 0x0002
    case Tick => 0x0010
    case SessionOpen => 0x0011
    case SessionClose => 0x0012
    case TimerFired => 0x0013
    case SnapshotMark => 0x0020
    case EpochChange => 0x0030
    case Heartbeat => 0x00FF
  }

  function KindOfCode(code: nat): Option<FrameKind> {
    if code == 0x0001 then Some(Input)
    else if code == 0x0002 then Some(Output)
    else if code == 0x0010 then Some(Tick)
    else if code == 0x0011 then Some(SessionOpen)
    else if code == 0x0012 then Some(SessionClose)
    else if code == 0x0013 then Some(TimerFired)
    else if code == 0x0020 then Some(SnapshotMark)
    else if code == 0x0030 then Some(EpochChange)
    else if code == 0x00FF then Some(Heartbeat)
    else None
  }

  datatype Frame = Frame(
    seqno: nat,
    timestamp: nat,
    streamId: nat,
    kind: FrameKind,
    payload: seq<byte>)
  {
    /** Field widths, plus the assertion in `Frame::new`. */
    predicate Valid() {
      && seqno < U64_LIMIT
      && timestamp < U64_LIMIT
      && streamId < 0x1_0000
      && |payload| <= MAX_PAYLOAD_LEN
    }

    function EncodedLen(): nat {
      HEADER_LEN + |payload| + 4
    }
  }

  datatype FrameError =
    | Truncated | HeaderCrc | PayloadCrc | UnknownKind(code: nat) | PayloadTooLarge(len: nat)

  datatype ReadResult =
    | Ok(frame: Frame, rest: seq<byte>)
    | Err(error: FrameError)

  /** The 24 header bytes that the header CRC covers. */
  function Header(seqno: nat, timestamp: nat, streamId: nat, kindCode: nat, len: nat): (h: seq<byte>)
    ensures |h| == 24
  {
    LittleEndian(seqno, 8) + LittleEndian(timestamp, 8) + LittleEndian(streamId, 2)
      + LittleEndian(kindCode, 2) + LittleEndian(len, 4)
  }

  function HeaderOf(f: Frame): (h: seq<byte>)
    ensures |h| == 24
  {
    Header(f.seqno, f.timestamp, f.streamId, KindCode(f.kind), |f.payload|)
  }

  /** `bytes` followed by their checksum. */
  function Sealed(bytes: seq<byte>): (r: seq<byte>)
    ensures |r| == |bytes| + 4
    ensures r[..|bytes|] == bytes
  {
    bytes + LittleEndian(Crc32c.Crc(bytes), 4)
  }

  function Encode(f: Frame): (bytes: seq<byte>)
    ensures |bytes| == f.EncodedLen()
  {
    Sealed(HeaderOf(f)) + Sealed(f.payload)
  }

  /** Decode one frame from the front of `buf`. */
  function ReadFrom(buf: seq<byte>): (r: ReadResult)
    ensures r.Ok? ==> |r.rest| < |buf|
  {
    if |buf| < HEADER_LEN then Err(Truncated)
    else
      var header := buf[..24];
      if Crc32c.Crc(header) != FromLittleEndian(buf[24..28]) then Err(HeaderCrc)
      else
        var len := FromLittleEndian(header[20..24]);
        if len > MAX_PAYLOAD_LEN then Err(PayloadTooLarge(len))
        else
          var code := FromLittleEndian(header[18..20]);
          match KindOfCode(code)
          case None => Err(UnknownKind(code))
          case Some(kind) =>
            var total := HEADER_LEN + len + 4;
            if |buf| < total then Err(Truncated)
            else
              var payload := buf[HEADER_LEN..HEADER_LEN + len];
              if Crc32c.Crc(payload) != FromLittleEndian(buf[total - 4..total]) then Err(PayloadCrc)
              else
                Ok(Frame(FromLittleEndian(header[0..8]), FromLittleEndian(header[8..16]),
                         FromLittleEndian(header[16..18]), kind, payload),
                   buf[total..])
  }

  // ----- field-level round trips -----

  lemma HeaderFields(seqno: nat, timestamp: nat, streamId: nat, kindCode: nat, len: nat)
    ensures var h := Header(seqno, timestamp, streamId, kindCode, len);
            && h[0..8] == LittleEndian(seqno, 8)
            && h[8..16] == LittleEndian(timestamp, 8)
            && h[16..18] == LittleEndian(streamId, 2)
            && h[18..20] == LittleEndian(kindCode, 2)
            && h[20..24] == LittleEndian(len, 4)
  {
  }

  lemma HeaderValues(f: Frame)
    requires f.Valid()
    ensures var h := HeaderOf(f);
            && FromLittleEndian(h[0..8]) == f.seqno
            && FromLittleEndian(h[8..16]) == f.timestamp
            && FromLittleEndian(h[16..18]) == f.streamId
            && FromLittleEndian(h[18..20]) == KindCode(f.kind)
            && FromLittleEndian(h[20..24]) == |f.payload|
  {
    HeaderFields(f.seqno, f.timestamp, f.streamId, KindCode(f.kind), |f.payload|);
    Pow256Values();
    LittleEndianRoundTrip(f.seqno, 8);
    LittleEndianRoundTrip(f.timestamp, 8);
    LittleEndianRoundTrip(f.streamId, 2);
    LittleEndianRoundTrip(KindCode(f.kind), 2);
    LittleEndianRoundTrip(|f.payload|, 4);
  }

  lemma StoredCrc(bytes: seq<byte>)
    ensures FromLittleEndian(Sealed(bytes)[|bytes|..]) == Crc32c.Crc(bytes)
  {
    Pow256Values();
    LittleEndianRoundTrip(Crc32c.Crc(bytes), 4);
    assert Sealed(bytes)[|bytes|..] == LittleEndian(Crc32c.Crc(bytes), 4);
  }

  lemma SealedOfParts(bytes: seq<byte>, crc: seq<byte>)
    requires |crc| == 4
    requires Crc32c.Crc(bytes) == FromLittleEndian(crc)
    ensures bytes + crc == Sealed(bytes)
  {
    LittleEndianOfValue(crc);
  }

  /** The byte positions of an encoded frame's four parts. */
  lemma EncodeParts(f: Frame, rest: seq<byte>)
    ensures var b, n := Encode(f) + rest, |f.payload|;
            && b[..24] == HeaderOf(f)
            && b[24..28] == Sealed(HeaderOf(f))[24..]
            && b[28..28 + n] == f.payload
            && b[28 + n..32 + n] == Sealed(f.payload)[n..]
            && b[32 + n..] == rest
  {
    hide Crc32c.Crc, LittleEndian, FromLittleEndian;
    var b, n := Encode(f) + rest, |f.payload|;
    var x, y := Sealed(HeaderOf(f)), Sealed(f.payload);
    assert b == x + y + rest;
    assert b[..28] == x && b[28..32 + n] == y;
    assert b[..24] == x[..24] && b[24..28] == x[24..];
    assert b[28..28 + n] == y[..n] && b[28 + n..32 + n] == y[n..];
  }

  /** Decoding an encoded frame returns it and exactly the bytes after it. */
  lemma RoundTrip(f: Frame, rest: seq<byte>)
    requires f.Valid()
    ensures ReadFrom(Encode(f) + rest) == Ok(f, rest)
  {
    hide Crc32c.Crc, LittleEndian, FromLittleEndian;
    var b := Encode(f) + rest;
    EncodeParts(f, rest);
    StoredCrc(HeaderOf(f));
    StoredCrc(f.payload);
    HeaderValues(f);
    var header := b[..24];
    assert header == HeaderOf(f);
  }

  /** Whatever decodes is the canonical encoding of what it decoded to. */
  lemma Canonical(buf: seq<byte>)
    requires ReadFrom(buf).Ok?
    ensures ReadFrom(buf).frame.Valid()
    ensures buf == Encode(ReadFrom(buf).frame) + ReadFrom(buf).rest
  {
    hide Crc32c.Crc, LittleEndian, FromLittleEndian;
    var f, rest := ReadFrom(buf).frame, ReadFrom(buf).rest;
    var n := |f.payload|;
    HeaderOfParts(buf[..24], f);
    SealedOfParts(buf[..24], buf[24..28]);
    SealedOfParts(f.payload, buf[28 + n..32 + n]);
    assert buf == buf[..24] + buf[24..28] + f.payload + buf[28 + n..32 + n] + rest;
  }

  lemma HeaderOfParts(h: seq<byte>, f: Frame)
    requires |h| == 24
    requires f.seqno == FromLittleEndian(h[0..8])
    requires f.timestamp == FromLittleEndian(h[8..16])
    requires f.streamId == FromLittleEndian(h[16..18])
    requires KindOfCode(FromLittleEndian(h[18..20])) == Some(f.kind)
    requires |f.payload| == FromLittleEndian(h[20..24]) <= MAX_PAYLOAD_LEN
    ensures f.Valid()
    ensures HeaderOf(f) == h
  {
    hide Crc32c.Crc, LittleEndian, FromLittleEndian;
    Pow256Values();
    LittleEndianOfValue(h[0..8]);
    LittleEndianOfValue(h[8..16]);
    LittleEndianOfValue(h[16..18]);
    LittleEndianOfValue(h[18..20]);
    LittleEndianOfValue(h[20..24]);
    assert KindCode(f.kind) == FromLittleEndian(h[18..20]);
    assert h == h[0..8] + h[8..16] + h[16..18] + h[18..20] + h[20..24];
  }

  /** What `ReadFrom` does once it has seen `f`'s intact header. */
  lemma ReadPastHeader(f: Frame, buf: seq<byte>)
    requires f.Valid()
    requires HEADER_LEN <= |buf|
    requires buf[..28] == Sealed(HeaderOf(f))
    ensures var n := |f.payload|;
            && (|buf| < 32 + n ==> ReadFrom(buf) == Err(Truncated))
            && (|buf| >= 32 + n && Crc32c.Crc(buf[28..28 + n]) != FromLittleEndian(buf[28 + n..32 + n])
                ==> ReadFrom(buf) == Err(PayloadCrc))
  {
    hide Crc32c.Crc, LittleEndian, FromLittleEndian;
    var h := HeaderOf(f);
    assert buf[..24] == buf[..28][..24] == h;
    assert buf[24..28] == buf[..28][24..] == Sealed(h)[24..];
    StoredCrc(h);
    HeaderValues(f);
    assert KindOfCode(KindCode(f.kind)) == Some(f.kind);
  }

  /** A proper prefix of an encoded frame is always reported as truncated. */
  lemma CutFails(f: Frame, k: nat)
    requires f.Valid()
    requires k < |Encode(f)|
    ensures ReadFrom(Encode(f)[..k]) == Err(Truncated)
  {
    hide Crc32c.Crc, LittleEndian, FromLittleEndian;
    var b := Encode(f)[..k];
    if k >= HEADER_LEN {
      EncodeHeader(f);
      assert b[..28] == Encode(f)[..28];
      ReadPastHeader(f, b);
    }
  }

  lemma EncodeHeader(f: Frame)
    ensures Encode(f)[..28] == Sealed(HeaderOf(f))
    ensures Encode(f)[28..] == Sealed(f.payload)
  {
  }

  /** Splitting "differs only at p" over a boundary. */
  lemma DamageInPart(a: seq<byte>, b: seq<byte>, p: nat, lo: nat, hi: nat)
    requires DiffersOnlyAt(a, b, p)
    requires lo <= hi <= |a|
    ensures lo <= p < hi ==> DiffersOnlyAt(a[lo..hi], b[lo..hi], p - lo)
    ensures !(lo <= p < hi) ==> a[lo..hi] == b[lo..hi]
  {
  }

  /** A sealed block with one damaged byte fails its own check. */
  lemma SealBroken(x: seq<byte>, d: seq<byte>, p: nat)
    requires DiffersOnlyAt(Sealed(x), d, p)
    ensures Crc32c.Crc(d[..|x|]) != FromLittleEndian(d[|x|..])
  {
    hide Crc32c.Crc, LittleEndian, FromLittleEndian;
    var a, n := Sealed(x), |x|;
    DamageInPart(a, d, p, 0, n);
    DamageInPart(a, d, p, n, n + 4);
    assert a[0..n] == x && d[0..n] == d[..n];
    assert a[n..n + 4] == a[n..] && d[n..n + 4] == d[n..];
    StoredCrc(x);
    if p < n {
      Crc32c.OneByteDetected(x, d[..n], p);
    } else {
      LittleEndianOfValue(d[n..]);
      LittleEndianOfValue(a[n..]);
    }
  }

  /** A frame with one damaged byte never decodes, whatever follows it. */
  lemma DamageFails(f: Frame, d: seq<byte>, p: nat, tail: seq<byte>)
    requires f.Valid()
    requires DiffersOnlyAt(Encode(f), d, p)
    ensures ReadFrom(d + tail) == Err(if p < HEADER_LEN then HeaderCrc else PayloadCrc)
  {
    hide Crc32c.Crc, LittleEndian, FromLittleEndian;
    EncodeHeader(f);
    DamageInPart(Encode(f), d, p, 0, 28);
    assert Encode(f)[0..28] == Encode(f)[..28];
    if p < HEADER_LEN {
      HeaderDamageFails(f, d[0..28], p, d + tail);
    } else {
      PayloadDamageFails(f, d, p, tail);
    }
  }

  lemma HeaderDamageFails(f: Frame, head: seq<byte>, p: nat, buf: seq<byte>)
    requires DiffersOnlyAt(Sealed(HeaderOf(f)), head, p)
    requires |buf| >= 28 && buf[..28] == head
    ensures ReadFrom(buf) == Err(HeaderCrc)
  {
    hide Crc32c.Crc, LittleEndian, FromLittleEndian;
    SealBroken(HeaderOf(f), head, p);
    assert buf[..24] == head[..24];
    assert buf[24..28] == head[24..];
  }

  lemma PayloadDamageFails(f: Frame, d: seq<byte>, p: nat, tail: seq<byte>)
    requires f.Valid()
    requires DiffersOnlyAt(Encode(f), d, p)
    requires p >= HEADER_LEN
    ensures ReadFrom(d + tail) == Err(PayloadCrc)
  {
    hide Crc32c.Crc, LittleEndian, FromLittleEndian;
    var n, buf := |f.payload|, d + tail;
    EncodeHeader(f);
    DamageInPart(Encode(f), d, p, 0, 28);
    DamageInPart(Encode(f), d, p, 28, 32 + n);
    assert Encode(f)[0..28] == Encode(f)[..28];
    assert Encode(f)[28..32 + n] == Encode(f)[28..];
    assert buf[..28] == d[0..28];
    SealBroken(f.payload, d[28..32 + n], p - 28);
    assert buf[28..28 + n] == d[28..32 + n][..n];
    assert buf[28 + n..32 + n] == d[28..32 + n][n..];
    ReadPastHeader(f, buf);
  }

  /** A frame both damaged and cut after the damage never decodes either. */
  lemma DamageAndCutFails(f: Frame, d: seq<byte>, p: nat, k: nat)
    requires f.Valid()
    requires DiffersOnlyAt(Encode(f), d, p)
    requires p < k < |d|
    ensures ReadFrom(d[..k]).Err?
  {
    hide Crc32c.Crc, LittleEndian, FromLittleEndian;
    EncodeHeader(f);
    DamageInPart(Encode(f), d, p, 0, 28);
    assert Encode(f)[0..28] == Encode(f)[..28];
    if k >= HEADER_LEN {
      assert d[..k][..28] == d[0..28];
      if p < HEADER_LEN {
        HeaderDamageFails(f, d[0..28], p, d[..k]);
      } else {
        ReadPastHeader(f, d[..k]);
      }
    }
  }
}
