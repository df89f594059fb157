/** Journal segments as bytes on a disk that loses power.

    A segment file is a 28-byte header followed by back-to-back frames. A
    crash keeps the synced bytes and a prefix of the unsynced ones, possibly
    with one byte damaged. The scan that reopens a segment finds exactly the
    frames wholly before the cut or the damage. */
module Segment {
  import opened Bytes
  import opened Frame
  import Crc32c

  // ----- the simulated disk's files -----

  datatype FileData = FileData(synced: seq<byte>, unsynced: seq<byte>) {
    function Combined(): seq<byte> { synced + unsynced }
    function WriteAll(bytes: seq<byte>): FileData { FileData(synced, unsynced + bytes) }
    function SyncData(): FileData { FileData(synced + unsynced, []) }
    function Truncate(len: nat): FileData {
      FileData(if len <= |Combined()| then Combined()[..len] else Combined(), [])
    }
  }

  /** What power loss may leave of a file: its synced bytes and a prefix of
      the unsynced ones, one byte of which may be damaged. */
  ghost predicate CrashOutcome(file: FileData, survived: seq<byte>) {
    && |file.synced| <= |survived| <= |file.Combined()|
    && (survived == file.Combined()[..|survived|]
        || exists p :: |file.synced| <= p && DiffersOnlyAt(file.Combined()[..|survived|], survived, p))
  }

  // ----- the segment header -----

  const MAGIC: seq<byte> := [0x54, 0x4B, 0x54, 0x4A]  // "TKTJ"
  const FORMAT_VERSION := 1

  datatype HeaderResult = HeaderOk(firstSeq: nat, epoch: nat) | BadHeader

  function HeaderBytes(firstSeq: nat, epoch: nat): (h: seq<byte>)
    ensures |h| == HEADER_LEN
  {
    Sealed(MAGIC + LittleEndian(FORMAT_VERSION, 4) + LittleEndian(firstSeq, 8) + LittleEndian(epoch, 8))
  }

  function ParseHeader(bytes: seq<byte>): HeaderResult {
    if |bytes| < HEADER_LEN then BadHeader
    else if bytes[..4] != MAGIC then BadHeader
    else if FromLittleEndian(bytes[4..8]) != FORMAT_VERSION then BadHeader
    else if Crc32cOf(bytes[..24]) != FromLittleEndian(bytes[24..28]) then BadHeader
    else HeaderOk(FromLittleEndian(bytes[8..16]), FromLittleEndian(bytes[16..24]))
  }

  function Crc32cOf(bytes: seq<byte>): nat { Crc32c.Crc(bytes) }

  lemma HeaderRoundTrip(firstSeq: nat, epoch: nat, body: seq<byte>)
    requires firstSeq < U64_LIMIT && epoch < U64_LIMIT
    ensures ParseHeader(HeaderBytes(firstSeq, epoch) + body) == HeaderOk(firstSeq, epoch)
  {
    hide Crc32c.Crc, LittleEndian, FromLittleEndian;
    var core := MAGIC + LittleEndian(FORMAT_VERSION, 4) + LittleEndian(firstSeq, 8) + LittleEndian(epoch, 8);
    var bytes := Sealed(core) + body;
    Pow256Values();
    LittleEndianRoundTrip(FORMAT_VERSION, 4);
    LittleEndianRoundTrip(firstSeq, 8);
    LittleEndianRoundTrip(epoch, 8);
    StoredCrc(core);
    assert bytes[..24] == core && bytes[24..28] == Sealed(core)[24..];
    assert bytes[..4] == core[..4] == MAGIC;
    assert bytes[4..8] == core[4..8] == LittleEndian(FORMAT_VERSION, 4);
    assert bytes[8..16] == core[8..16] == LittleEndian(firstSeq, 8);
    assert bytes[16..24] == core[16..24] == LittleEndian(epoch, 8);
  }

  // ----- the body -----

  function EncodeAll(frames: seq<Frame>): (bytes: seq<byte>) {
    if frames == [] then [] else Encode(frames[0]) + EncodeAll(frames[1..])
  }

  /** Valid frames with gapless seqs starting at `first`. */
  ghost predicate Contiguous(frames: seq<Frame>, first: nat) {
    forall i :: 0 <= i < |frames| ==> frames[i].Valid() && frames[i].seqno == first + i
  }

  datatype ScanEnd = Clean | Broken(error: FrameError) | Gap(expected: nat, found: nat)

  /** Intact frames, the length of their encoding, and why the scan stopped. */
  datatype Scan = Scan(frames: seq<Frame>, good: nat, end: ScanEnd)

  function ScanFrames(bytes: seq<byte>, expected: nat): (r: Scan)
    decreases |bytes|
  {
    if bytes == [] then Scan([], 0, Clean)
    else
      match ReadFrom(bytes)
      case Err(error) => Scan([], 0, Broken(error))
      case Ok(frame, rest) =>
        if frame.seqno != expected then Scan([], 0, Gap(expected, frame.seqno))
        else
          var tail := ScanFrames(rest, expected + 1);
          Scan([frame] + tail.frames, |bytes| - |rest| + tail.good, tail.end)
  }

  /** The scan loop of `open_inner`: advance a cursor, stop at the first frame
      that does not decode or does not follow. */
  method ScanSegment(bytes: seq<byte>, first: nat) returns (r: Scan)
    ensures r == ScanFrames(bytes, first)
  {
    hide ReadFrom;
    var cursor, expected, frames := bytes, first, [];
    var end := Clean;
    while cursor != []
      invariant |cursor| <= |bytes|
      invariant ScanFrames(bytes, first)
             == var t := ScanFrames(cursor, expected);
                Scan(frames + t.frames, |bytes| - |cursor| + t.good, t.end)
      decreases |cursor|
    {
      match ReadFrom(cursor) {
        case Err(error) =>
          end := Broken(error);
          break;
        case Ok(frame, rest) =>
          if frame.seqno != expected {
            end := Gap(expected, frame.seqno);
            break;
          }
          ghost var t := ScanFrames(rest, expected + 1);
          assert frames + ([frame] + t.frames) == frames + [frame] + t.frames;
          frames := frames + [frame];
          expected := expected + 1;
          cursor := rest;
      }
    }
    r := Scan(frames, |bytes| - |cursor|, end);
  }

  // ----- what the scan finds -----

  lemma {:induction false} EncodeAllAppend(a: seq<Frame>, b: seq<Frame>)
    ensures EncodeAll(a + b) == EncodeAll(a) + EncodeAll(b)
  {
    hide Encode;
    if a == [] {
      assert a + b == b;
    } else {
      assert (a + b)[1..] == a[1..] + b;
      EncodeAllAppend(a[1..], b);
    }
  }

  /** Whole frames followed by bytes that do not decode: the scan returns
      exactly the frames and stops at their end. */
  lemma {:induction false} ScanWhole(frames: seq<Frame>, first: nat, tail: seq<byte>)
    requires Contiguous(frames, first)
    requires tail == [] || ReadFrom(tail).Err?
    ensures ScanFrames(EncodeAll(frames) + tail, first)
         == Scan(frames, |EncodeAll(frames)|, if tail == [] then Clean else Broken(ReadFrom(tail).error))
  {
    hide Encode, ReadFrom;
    var bytes := EncodeAll(frames) + tail;
    if frames == [] {
      assert bytes == tail;
    } else {
      var rest := EncodeAll(frames[1..]) + tail;
      assert bytes == Encode(frames[0]) + rest;
      RoundTrip(frames[0], rest);
      ScanWhole(frames[1..], first + 1, tail);
      assert [frames[0]] + frames[1..] == frames;
    }
  }

  /** How many of `frames` lie wholly within the first `k` bytes. */
  function WholeFrames(frames: seq<Frame>, k: nat): (n: nat)
    ensures n <= |frames|
  {
    if frames == [] || k < |Encode(frames[0])| then 0
    else 1 + WholeFrames(frames[1..], k - |Encode(frames[0])|)
  }

  lemma {:induction false} WholeFramesMonotone(frames: seq<Frame>, j: nat, k: nat)
    requires j <= k
    ensures WholeFrames(frames, j) <= WholeFrames(frames, k)
  {
    hide Encode;
    if frames != [] && j >= |Encode(frames[0])| {
      WholeFramesMonotone(frames[1..], j - |Encode(frames[0])|, k - |Encode(frames[0])|);
    }
  }

  /** Everything synced at once: a cut at a frame boundary counts every frame
      before it. */
  lemma {:induction false} WholeFramesAtBoundary(frames: seq<Frame>, n: nat)
    requires n <= |frames|
    ensures WholeFrames(frames, |EncodeAll(frames[..n])|) >= n
  {
    hide Encode;
    if n > 0 {
      assert frames[..n][1..] == frames[1..][..n - 1];
      WholeFramesAtBoundary(frames[1..], n - 1);
    }
  }

  /** Torn tail: for every frame list and every cut, the scan returns exactly
      the frames wholly before the cut and truncates at their total length. */
  lemma {:induction false} CutScan(frames: seq<Frame>, first: nat, k: nat)
    requires Contiguous(frames, first)
    requires k <= |EncodeAll(frames)|
    ensures var n := WholeFrames(frames, k);
            var r := ScanFrames(EncodeAll(frames)[..k], first);
            && r.frames == frames[..n]
            && r.good == |EncodeAll(frames[..n])|
            && !r.end.Gap?
  {
    hide Encode, ReadFrom;
    var n := WholeFrames(frames, k);
    var tail := SplitAtWhole(frames, k);
    ScanWhole(frames[..n], first, tail);
  }

  /** The bytes left over after the whole frames never decode. */
  lemma {:induction false} SplitAtWhole(frames: seq<Frame>, k: nat) returns (tail: seq<byte>)
    requires forall f :: f in frames ==> f.Valid()
    requires k <= |EncodeAll(frames)|
    ensures EncodeAll(frames)[..k] == EncodeAll(frames[..WholeFrames(frames, k)]) + tail
    ensures tail == [] || ReadFrom(tail).Err?
  {
    hide Encode, ReadFrom;
    if frames == [] {
      tail := [];
    } else {
      var e, rest := Encode(frames[0]), EncodeAll(frames[1..]);
      assert EncodeAll(frames) == e + rest;
      if k < |e| {
        tail := e[..k];
        CutFails(frames[0], k);
        assert frames[..0] == [];
        assert EncodeAll(frames[..0]) + tail == tail;
        assert (e + rest)[..k] == tail;
      } else {
        tail := SplitAtWhole(frames[1..], k - |e|);
        ConsWhole(frames, k);
        assert (e + rest)[..k] == e + rest[..k - |e|];
      }
    }
  }

  /** Damage at `p`, cut anywhere after it: the scan returns exactly the
      frames wholly before `p`. */
  lemma {:induction false} DamagedScan(frames: seq<Frame>, first: nat, bytes: seq<byte>, p: nat)
    requires Contiguous(frames, first)
    requires |bytes| <= |EncodeAll(frames)|
    requires DiffersOnlyAt(EncodeAll(frames)[..|bytes|], bytes, p)
    ensures var n := WholeFrames(frames, p);
            var r := ScanFrames(bytes, first);
            && r.frames == frames[..n]
            && r.good == |EncodeAll(frames[..n])|
            && !r.end.Gap?
  {
    hide Encode, ReadFrom;
    var n := WholeFrames(frames, p);
    var tail := SplitAtDamage(frames, bytes, p);
    ScanWhole(frames[..n], first, tail);
  }

  lemma {:induction false} SplitAtDamage(frames: seq<Frame>, bytes: seq<byte>, p: nat) returns (tail: seq<byte>)
    requires forall f :: f in frames ==> f.Valid()
    requires |bytes| <= |EncodeAll(frames)|
    requires DiffersOnlyAt(EncodeAll(frames)[..|bytes|], bytes, p)
    ensures bytes == EncodeAll(frames[..WholeFrames(frames, p)]) + tail
    ensures ReadFrom(tail).Err?
  {
    hide Encode, ReadFrom;
    var k, e := |bytes|, Encode(frames[0]);
    var rest := EncodeAll(frames[1..]);
    if p < |e| {
      FirstFrameDamaged(frames[0], rest, bytes, p);
      tail := bytes;
      assert frames[..0] == [];
      assert EncodeAll(frames[..0]) + tail == tail;
    } else {
      var all := EncodeAll(frames)[..k];
      assert EncodeAll(frames) == e + rest;
      assert all == e + rest[..k - |e|];
      DamageInPart(all, bytes, p, 0, |e|);
      DamageInPart(all, bytes, p, |e|, k);
      assert all[0..|e|] == e;
      assert all[|e|..k] == rest[..k - |e|];
      tail := SplitAtDamage(frames[1..], bytes[|e|..k], p - |e|);
      ConsWhole(frames, p);
      assert bytes == bytes[0..|e|] + bytes[|e|..k];
    }
  }

  lemma ConsWhole(frames: seq<Frame>, p: nat)
    requires frames != []
    requires p >= |Encode(frames[0])|
    ensures EncodeAll(frames[..WholeFrames(frames, p)])
         == Encode(frames[0]) + EncodeAll(frames[1..][..WholeFrames(frames[1..], p - |Encode(frames[0])|)])
  {
    hide Encode;
    var n := WholeFrames(frames, p);
    assert frames[..n][1..] == frames[1..][..n - 1];
  }

  lemma FirstFrameDamaged(f: Frame, rest: seq<byte>, bytes: seq<byte>, p: nat)
    requires f.Valid()
    requires |bytes| <= |Encode(f) + rest|
    requires DiffersOnlyAt((Encode(f) + rest)[..|bytes|], bytes, p)
    requires p < |Encode(f)|
    ensures ReadFrom(bytes).Err?
  {
    hide Encode, ReadFrom;
    var k, e := |bytes|, Encode(f);
    var all := (e + rest)[..k];
    if k >= |e| {
      DamageInPart(all, bytes, p, 0, |e|);
      assert all[0..|e|] == e;
      DamageFails(f, bytes[0..|e|], p, bytes[|e|..]);
      assert bytes == bytes[0..|e|] + bytes[|e|..];
    } else {
      var d := bytes + e[k..];
      assert all == e[..k];
      assert e == e[..k] + e[k..];
      DamageAndCutFails(f, d, p, k);
      assert d[..k] == bytes;
    }
  }

  /** After truncation, appended frames scan back behind the surviving ones. */
  lemma AppendAfterTruncation(frames: seq<Frame>, first: nat, n: nat, more: seq<Frame>)
    requires Contiguous(frames, first)
    requires n <= |frames|
    requires Contiguous(more, first + n)
    ensures ScanFrames(EncodeAll(frames[..n]) + EncodeAll(more), first)
         == Scan(frames[..n] + more, |EncodeAll(frames[..n])| + |EncodeAll(more)|, Clean)
  {
    hide Encode, ReadFrom;
    var all := frames[..n] + more;
    EncodeAllAppend(frames[..n], more);
    assert EncodeAll(all) + [] == EncodeAll(all);
    ScanWhole(all, first, []);
  }

  /** The scan of what power loss left of a segment body. */
  lemma CrashScanBody(first: nat, frames: seq<Frame>, body: seq<byte>, durable: nat)
    requires Contiguous(frames, first)
    requires durable <= |frames|
    requires |EncodeAll(frames[..durable])| <= |body| <= |EncodeAll(frames)|
    requires body == EncodeAll(frames)[..|body|]
          || exists p :: |EncodeAll(frames[..durable])| <= p && DiffersOnlyAt(EncodeAll(frames)[..|body|], body, p)
    ensures var r := ScanFrames(body, first);
            && durable <= |r.frames| <= |frames|
            && r.frames == frames[..|r.frames|]
            && !r.end.Gap?
            && r.good <= |body|
            && body[..r.good] == EncodeAll(r.frames)
  {
    hide Encode, ReadFrom, ScanFrames;
    var base := |EncodeAll(frames[..durable])|;
    WholeFramesAtBoundary(frames, durable);
    if body == EncodeAll(frames)[..|body|] {
      WholeFramesMonotone(frames, base, |body|);
      CutScan(frames, first, |body|);
      var tail := SplitAtWhole(frames, |body|);
    } else {
      var p :| base <= p && DiffersOnlyAt(EncodeAll(frames)[..|body|], body, p);
      WholeFramesMonotone(frames, base, p);
      DamagedScan(frames, first, body, p);
      var tail := SplitAtDamage(frames, body, p);
    }
  }

  lemma DamageInBody(a: seq<byte>, b: seq<byte>, p: nat, n: nat)
    requires DiffersOnlyAt(a, b, p)
    requires n <= p
    ensures a[..n] == b[..n]
    ensures DiffersOnlyAt(a[n..], b[n..], p - n)
  {
    assert a[n..][p - n] == a[p] && b[n..][p - n] == b[p];
  }

  /** Power loss on an open segment: reopening finds a prefix of the frames
      that were written, no shorter than what had been synced, and truncating
      the file there leaves exactly that prefix. */
  lemma CrashScan(header: seq<byte>, first: nat, frames: seq<Frame>, file: FileData, survived: seq<byte>, durable: nat)
    requires |header| == HEADER_LEN
    requires Contiguous(frames, first)
    requires file.Combined() == header + EncodeAll(frames)
    requires durable <= |frames|
    requires HEADER_LEN + |EncodeAll(frames[..durable])| <= |file.synced|
    requires CrashOutcome(file, survived)
    ensures |survived| >= HEADER_LEN
    ensures var r := ScanFrames(survived[HEADER_LEN..], first);
            && durable <= |r.frames| <= |frames|
            && r.frames == frames[..|r.frames|]
            && !r.end.Gap?
            && HEADER_LEN + r.good <= |survived|
            && survived[..HEADER_LEN + r.good] == header + EncodeAll(r.frames)
  {
    hide Encode, ReadFrom, ScanFrames;
    var all := EncodeAll(frames);
    var body := survived[HEADER_LEN..];
    var whole := file.Combined()[..|survived|];
    assert whole[..HEADER_LEN] == header;
    assert whole[HEADER_LEN..] == all[..|body|];
    if survived != whole {
      var p :| |file.synced| <= p && DiffersOnlyAt(whole, survived, p);
      DamageInBody(whole, survived, p, HEADER_LEN);
    }
    assert survived[..HEADER_LEN] == header;
    CrashScanBody(first, frames, body, durable);
    var r := ScanFrames(body, first);
    assert survived[..HEADER_LEN + r.good] == survived[..HEADER_LEN] + body[..r.good];
  }
}
