/** The journal's directory as bytes: which files a list of segments stands
    for, what opening makes of them, and what opening finds after power loss. */
module Disk {
  import opened Wrappers
  import opened Bytes
  import opened Frame
  import opened Segment
  import opened Log

  type Files = map<nat, FileData>

  /** The file of one segment: header and frames in order, at least the
      durable frames synced. */
  ghost predicate Holds(file: FileData, seg: Seg, epoch: nat) {
    && file.Combined() == HeaderBytes(seg.first, epoch) + EncodeAll(seg.frames)
    && seg.durable <= |seg.frames|
    && HEADER_LEN + |EncodeAll(seg.frames[..seg.durable])| <= |file.synced|
  }

  ghost predicate Ascends(segs: seq<Seg>) {
    forall i, j :: 0 <= i < j < |segs| ==> segs[i].first < segs[j].first
  }

  function Firsts(segs: seq<Seg>): (r: seq<nat>)
    ensures |r| == |segs| && forall i :: 0 <= i < |segs| ==> r[i] == segs[i].first
  {
    if segs == [] then [] else [segs[0].first] + Firsts(segs[1..])
  }

  /** Closed segments are fully synced and followed without a gap. */
  ghost predicate Chained(segs: seq<Seg>) {
    forall i :: 0 <= i < |segs| - 1 ==> Linked(segs, i)
  }

  ghost predicate Fit(segs: seq<Seg>) {
    forall i :: 0 <= i < |segs| ==> Contiguous(segs[i].frames, segs[i].first) && segs[i].first < U64_LIMIT
  }

  ghost predicate Present(files: Files, segs: seq<Seg>, epoch: nat) {
    forall i :: 0 <= i < |segs| ==> segs[i].first in files && Holds(files[segs[i].first], segs[i], epoch)
  }

  /** The directory holds exactly these segments, named by their first seq. */
  ghost predicate Stored(files: Files, segs: seq<Seg>, epoch: nat) {
    && Present(files, segs, epoch)
    && (forall name :: name in files ==> Named(segs, name))
  }

  // ----- names in order -----

  function SortedNames(names: set<nat>): (r: seq<nat>)
    decreases |names|
  {
    if names == {} then []
    else
      var l := Least(names);
      [l] + SortedNames(names - {l})
  }

  lemma NamesBelowFirst(segs: seq<Seg>, names: set<nat>)
    requires segs != [] && Ascends(segs)
    requires forall x :: x in names <==> Named(segs, x)
    ensures IsLeast(names, segs[0].first)
    ensures forall x :: x in names - {segs[0].first} <==> Named(segs[1..], x)
  {
    var rest := segs[1..];
    assert Named(segs, segs[0].first);
    forall x
      ensures x in names - {segs[0].first} <==> Named(rest, x)
    {
      if Named(rest, x) {
        var i :| 0 <= i < |rest| && rest[i].first == x;
        assert segs[i + 1].first == x;
        assert Named(segs, x);
      }
      if x in names - {segs[0].first} {
        var i :| 0 <= i < |segs| && segs[i].first == x;
        assert rest[i - 1].first == x;
      }
    }
  }

  /** Listing the directory in name order lists the segments in seq order. */
  lemma {:induction false} SortedIsFirsts(segs: seq<Seg>, names: set<nat>)
    requires Ascends(segs)
    requires forall x :: x in names <==> Named(segs, x)
    ensures SortedNames(names) == Firsts(segs)
    decreases |segs|
  {
    hide Least, Named;
    if segs == [] {
      NothingNamed(names);
    } else {
      NamesBelowFirst(segs, names);
      assert Least(names) == segs[0].first;
      SortedIsFirsts(segs[1..], names - {segs[0].first});
    }
  }

  lemma NothingNamed(names: set<nat>)
    requires forall x :: x in names ==> Named([], x)
    ensures names == {}
  {
  }

  // ----- opening -----

  datatype DiskScan =
    | Scanned(segs: seq<Seg>, torn: Option<nat>)
    | Unreadable(name: nat)
    | BadSegmentHeader(name: nat)
    | NonContiguous(name: nat, expected: nat, found: nat)
    | CorruptSegment(name: nat, offset: nat)

  /** The scan over the segments in name order: every header must parse and
      continue the run; only the last segment may be torn. */
  function ScanDisk(files: Files, names: seq<nat>, expected: Option<nat>): (r: DiskScan)
    decreases |names|
  {
    if names == [] then Scanned([], None)
    else if names[0] !in files then Unreadable(names[0])
    else
      var bytes := files[names[0]].Combined();
      match ParseHeader(bytes)
      case BadHeader => BadSegmentHeader(names[0])
      case HeaderOk(first, epoch) =>
        if expected.Some? && first != expected.value then NonContiguous(names[0], expected.value, first)
        else
          var scan := ScanFrames(bytes[HEADER_LEN..], first);
          var seg := Seg(first, scan.frames, |scan.frames|);
          match scan.end
          case Gap(e, f) => NonContiguous(names[0], e, f)
          case Broken(_) =>
            if |names| == 1 then Scanned([seg], Some(HEADER_LEN + scan.good))
            else CorruptSegment(names[0], HEADER_LEN + scan.good)
          case Clean =>
            match ScanDisk(files, names[1..], Some(seg.Next()))
            case Scanned(segs, torn) => Scanned([seg] + segs, torn)
            case error => error
  }

  // ----- power loss -----

  /** Each file keeps its synced bytes and a prefix of the rest, perhaps with a
      damaged byte; what survives is durable. */
  ghost predicate PowerLost(files: Files, after: Files) {
    && after.Keys == files.Keys
    && forall name :: name in files ==>
         after[name].unsynced == [] && CrashOutcome(files[name], after[name].synced)
  }

  lemma Survives(file: FileData, after: FileData, seg: Seg, epoch: nat)
    requires Holds(file, seg, epoch) && seg.durable == |seg.frames|
    requires after.unsynced == [] && CrashOutcome(file, after.synced)
    ensures after.Combined() == HeaderBytes(seg.first, epoch) + EncodeAll(seg.frames)
  {
    hide HeaderBytes, EncodeAll;
    assert seg.frames[..seg.durable] == seg.frames;
    assert |after.synced| == |file.Combined()|;
    assert file.Combined()[..|after.synced|] == file.Combined();
    assert after.synced == file.Combined();
    assert after.Combined() == after.synced;
  }

  /** Scanning an intact segment returns its frames. */
  lemma ScanIntact(seg: Seg, epoch: nat)
    requires Contiguous(seg.frames, seg.first) && seg.first < U64_LIMIT && epoch < U64_LIMIT
    ensures var bytes := HeaderBytes(seg.first, epoch) + EncodeAll(seg.frames);
            && ParseHeader(bytes) == HeaderOk(seg.first, epoch)
            && ScanFrames(bytes[HEADER_LEN..], seg.first) == Scan(seg.frames, |EncodeAll(seg.frames)|, Clean)
  {
    hide HeaderBytes, EncodeAll, ScanFrames, ParseHeader;
    HeaderRoundTrip(seg.first, epoch, EncodeAll(seg.frames));
    ScanWhole(seg.frames, seg.first, []);
    assert EncodeAll(seg.frames) + [] == EncodeAll(seg.frames);
    assert (HeaderBytes(seg.first, epoch) + EncodeAll(seg.frames))[HEADER_LEN..] == EncodeAll(seg.frames);
  }

  /** Scanning what power loss left of the open segment: a prefix of its
      frames, no shorter than what was synced. */
  lemma ScanTorn(file: FileData, after: FileData, seg: Seg, epoch: nat) returns (n: nat)
    requires Holds(file, seg, epoch)
    requires Contiguous(seg.frames, seg.first) && seg.first < U64_LIMIT && epoch < U64_LIMIT
    requires after.unsynced == [] && CrashOutcome(file, after.synced)
    ensures seg.durable <= n <= |seg.frames|
    ensures var bytes := after.Combined();
            var r := ScanFrames(bytes[HEADER_LEN..], seg.first);
            && ParseHeader(bytes) == HeaderOk(seg.first, epoch)
            && r.frames == seg.frames[..n]
            && !r.end.Gap?
            && HEADER_LEN + r.good <= |bytes|
            && bytes[..HEADER_LEN + r.good] == HeaderBytes(seg.first, epoch) + EncodeAll(seg.frames[..n])
            && (r.end == Clean ==> HEADER_LEN + r.good == |bytes|)
  {
    hide HeaderBytes, EncodeAll, ScanFrames, ParseHeader;
    var header, survived := HeaderBytes(seg.first, epoch), after.synced;
    assert after.Combined() == survived;
    CrashScan(header, seg.first, seg.frames, file, survived, seg.durable);
    var r := ScanFrames(survived[HEADER_LEN..], seg.first);
    n := |r.frames|;
    assert survived[..HEADER_LEN] == survived[..HEADER_LEN + r.good][..HEADER_LEN] == header;
    assert survived == header + survived[HEADER_LEN..];
    HeaderRoundTrip(seg.first, epoch, survived[HEADER_LEN..]);
    CleanIsWhole(survived[HEADER_LEN..], seg.first);
  }

  lemma {:induction false} CleanIsWhole(bytes: seq<byte>, first: nat)
    ensures ScanFrames(bytes, first).end == Clean ==> ScanFrames(bytes, first).good == |bytes|
    decreases |bytes|
  {
    hide ReadFrom;
    if bytes != [] && ReadFrom(bytes).Ok? && ReadFrom(bytes).frame.seqno == first {
      CleanIsWhole(ReadFrom(bytes).rest, first + 1);
    }
  }

  /** How the last file relates to the cut: truncating at `torn`, or leaving it
      alone, gives exactly the frames kept. */
  ghost predicate TornAt(file: FileData, seg: Seg, n: nat, torn: Option<nat>, epoch: nat)
    requires n <= |seg.frames|
  {
    var whole := HeaderBytes(seg.first, epoch) + EncodeAll(seg.frames[..n]);
    match torn
    case None => file.Combined() == whole
    case Some(len) => len <= |file.Combined()| && file.Combined()[..len] == whole
  }

  lemma ScanLast(files: Files, after: Files, seg: Seg, epoch: nat, expected: Option<nat>) returns (n: nat, torn: Option<nat>)
    requires epoch < U64_LIMIT && PowerLost(files, after)
    requires seg.first in files && Holds(files[seg.first], seg, epoch)
    requires Contiguous(seg.frames, seg.first) && seg.first < U64_LIMIT
    requires expected.Some? ==> expected.value == seg.first
    ensures seg.durable <= n <= |seg.frames|
    ensures ScanDisk(after, [seg.first], expected) == Scanned([seg.(frames := seg.frames[..n], durable := n)], torn)
    ensures TornAt(after[seg.first], seg, n, torn, epoch)
    ensures ParseHeader(after[seg.first].Combined()) == HeaderOk(seg.first, epoch)
  {
    hide HeaderBytes, EncodeAll, ScanFrames, ParseHeader, CrashOutcome, Holds, Contiguous;
    n := ScanTorn(files[seg.first], after[seg.first], seg, epoch);
    var bytes := after[seg.first].Combined();
    var r := ScanFrames(bytes[HEADER_LEN..], seg.first);
    torn := if r.end == Clean then None else Some(HEADER_LEN + r.good);
    assert [seg.first][1..] == [];
    assert ScanDisk(after, [], Some(seg.first + n)) == Scanned([], None);
    if r.end == Clean {
      assert bytes[..HEADER_LEN + r.good] == bytes;
    }
  }

  /** Opening after power loss finds every closed segment whole and a prefix of
      the open one that reaches at least its synced frames. */
  lemma {:induction false} CrashedDiskScans(files: Files, after: Files, segs: seq<Seg>, epoch: nat, expected: Option<nat>) returns (n: nat, torn: Option<nat>)
    requires segs != [] && epoch < U64_LIMIT
    requires PowerLost(files, after) && Present(files, segs, epoch) && Chained(segs) && Fit(segs)
    requires expected.Some? ==> expected.value == segs[0].first
    ensures Active(segs).durable <= n <= |Active(segs).frames|
    ensures Active(segs).first in after
    ensures ScanDisk(after, Firsts(segs), expected) == Scanned(Cut(segs, n), torn)
    ensures TornAt(after[Active(segs).first], Active(segs), n, torn, epoch)
    ensures ParseHeader(after[Active(segs).first].Combined()) == HeaderOk(Active(segs).first, epoch)
    decreases |segs|
  {
    hide HeaderBytes, EncodeAll, ScanFrames, ParseHeader, CrashOutcome, Holds, Contiguous, TornAt, ScanDisk, Firsts, Cut, Present, Fit, Chained;
    var seg := segs[0];
    SegParts(files, segs, epoch);
    if |segs| == 1 {
      n, torn := ScanLast(files, after, seg, epoch, expected);
      CutOne(segs, n);
    } else {
      var rest := segs[1..];
      n, torn := CrashedDiskScans(files, after, rest, epoch, Some(seg.Next()));
      Survives(files[seg.first], after[seg.first], seg, epoch);
      ScanClosed(after, seg, rest, epoch, expected);
      CutTail(segs, n);
    }
  }

  lemma SegParts(files: Files, segs: seq<Seg>, epoch: nat)
    requires segs != [] && Present(files, segs, epoch) && Chained(segs) && Fit(segs)
    ensures var seg := segs[0];
            && seg.first in files && Holds(files[seg.first], seg, epoch)
            && Contiguous(seg.frames, seg.first) && seg.first < U64_LIMIT
    ensures Present(files, segs[1..], epoch) && Chained(segs[1..]) && Fit(segs[1..])
    ensures |segs| > 1 ==> segs[0].durable == |segs[0].frames| && segs[1].first == segs[0].Next()
  {
    hide Holds, Contiguous;
    ChainedTail(segs);
    if |segs| > 1 {
      assert Linked(segs, 0);
    }
  }

  lemma CutOne(segs: seq<Seg>, n: nat)
    requires |segs| == 1 && n <= |segs[0].frames|
    ensures Cut(segs, n) == [segs[0].(frames := segs[0].frames[..n], durable := n)]
    ensures Firsts(segs) == [segs[0].first]
  {
  }

  lemma CutTail(segs: seq<Seg>, n: nat)
    requires |segs| > 1 && n <= |Active(segs).frames|
    ensures Cut(segs, n) == [segs[0]] + Cut(segs[1..], n)
    ensures Firsts(segs) == [segs[0].first] + Firsts(segs[1..])
  {
    var last := Active(segs).(frames := Active(segs).frames[..n], durable := n);
    assert Front(segs) == [segs[0]] + Front(segs[1..]);
    assert ([segs[0]] + Front(segs[1..])) + [last] == [segs[0]] + (Front(segs[1..]) + [last]);
  }

  lemma ScanClosed(after: Files, seg: Seg, rest: seq<Seg>, epoch: nat, expected: Option<nat>)
    requires seg.first in after && after[seg.first].Combined() == HeaderBytes(seg.first, epoch) + EncodeAll(seg.frames)
    requires Contiguous(seg.frames, seg.first) && seg.first < U64_LIMIT && epoch < U64_LIMIT
    requires seg.durable == |seg.frames|
    requires expected.Some? ==> expected.value == seg.first
    requires ScanDisk(after, Firsts(rest), Some(seg.Next())).Scanned?
    ensures var r := ScanDisk(after, Firsts(rest), Some(seg.Next()));
            ScanDisk(after, [seg.first] + Firsts(rest), expected) == Scanned([seg] + r.segs, r.torn)
  {
    hide HeaderBytes, EncodeAll, ScanFrames, ParseHeader, Contiguous;
    ScanIntact(seg, epoch);
    assert ([seg.first] + Firsts(rest))[1..] == Firsts(rest);
    assert seg == Seg(seg.first, seg.frames, |seg.frames|);
  }

  lemma ChainedTail(segs: seq<Seg>)
    requires Chained(segs) && segs != []
    ensures Chained(segs[1..])
  {
    forall i | 0 <= i < |segs[1..]| - 1
      ensures Linked(segs[1..], i)
    {
      assert Linked(segs, i + 1);
    }
  }

  /** Chained segments are in name order. */
  lemma {:induction false} ChainAscends(segs: seq<Seg>)
    requires Chained(segs)
    ensures Ascends(segs)
    decreases |segs|
  {
    if |segs| > 1 {
      ChainedTail(segs);
      ChainAscends(segs[1..]);
      assert Linked(segs, 0);
      forall j | 1 <= j < |segs|
        ensures segs[0].first < segs[j].first
      {
        assert segs[1..][j - 1] == segs[j];
        assert segs[1..][0].first <= segs[1..][j - 1].first;
      }
      forall i, j | 0 <= i < j < |segs|
        ensures segs[i].first < segs[j].first
      {
        if i > 0 {
          assert segs[1..][i - 1] == segs[i] && segs[1..][j - 1] == segs[j];
        }
      }
    }
  }

  /** The directory after the torn tail is truncated. */
  function Trimmed(files: Files, name: nat, torn: Option<nat>): Files
    requires name in files
  {
    match torn
    case None => files
    case Some(len) => files[name := files[name].Truncate(len)]
  }

  lemma ClosedHolds(file: FileData, after: FileData, seg: Seg, epoch: nat)
    requires Holds(file, seg, epoch) && seg.durable == |seg.frames|
    requires after.unsynced == [] && CrashOutcome(file, after.synced)
    ensures Holds(after, seg, epoch)
  {
    hide HeaderBytes, EncodeAll, CrashOutcome;
    Survives(file, after, seg, epoch);
    assert after.Combined() == after.synced;
    assert seg.frames[..seg.durable] == seg.frames;
  }

  lemma SameNames(a: seq<Seg>, b: seq<Seg>, x: nat)
    requires |a| == |b| && forall i :: 0 <= i < |a| ==> a[i].first == b[i].first
    requires Named(a, x)
    ensures Named(b, x)
  {
    var i :| 0 <= i < |a| && a[i].first == x;
    assert b[i].first == x;
  }

  lemma TrimmedStored(files: Files, after: Files, segs: seq<Seg>, epoch: nat, n: nat, torn: Option<nat>)
    requires segs != [] && PowerLost(files, after) && Stored(files, segs, epoch) && Chained(segs)
    requires n <= |Active(segs).frames|
    requires Active(segs).first in after && TornAt(after[Active(segs).first], Active(segs), n, torn, epoch)
    ensures Stored(Trimmed(after, Active(segs).first, torn), Cut(segs, n), epoch)
  {
    hide HeaderBytes, EncodeAll, CrashOutcome, Contiguous, Holds, TornAt, Named;
    var name, cut := Active(segs).first, Cut(segs, n);
    var trimmed := Trimmed(after, name, torn);
    ChainAscends(segs);
    forall i | 0 <= i < |cut|
      ensures cut[i].first in trimmed && Holds(trimmed[cut[i].first], cut[i], epoch)
    {
      if i < |cut| - 1 {
        assert cut[i] == segs[i] && Linked(segs, i);
        assert segs[i].first < name;
        ClosedHolds(files[segs[i].first], after[segs[i].first], segs[i], epoch);
      } else {
        TrimmedLast(after[name], Active(segs), n, torn, epoch);
      }
    }
    assert trimmed.Keys == files.Keys;
    forall x | x in trimmed
      ensures Named(cut, x)
    {
      SameNames(segs, cut, x);
    }
  }

  lemma TrimmedLast(file: FileData, seg: Seg, n: nat, torn: Option<nat>, epoch: nat)
    requires n <= |seg.frames| && file.unsynced == []
    requires TornAt(file, seg, n, torn, epoch)
    ensures Holds(if torn.Some? then file.Truncate(torn.value) else file, seg.(frames := seg.frames[..n], durable := n), epoch)
  {
    hide HeaderBytes, EncodeAll;
    assert seg.frames[..n][..n] == seg.frames[..n];
    assert file.Combined() == file.synced;
  }

  // ----- writing -----

  /** Everything a journal's segments keep between operations. */
  ghost predicate Laid(files: Files, segs: seq<Seg>, epoch: nat) {
    Stored(files, segs, epoch) && Ascends(segs) && Fit(segs)
  }

  lemma LaidReplaced(files: Files, segs: seq<Seg>, epoch: nat, seg: Seg, file: FileData)
    requires segs != [] && Laid(files, segs, epoch)
    requires seg.first == Active(segs).first
    requires Holds(file, seg, epoch) && Contiguous(seg.frames, seg.first)
    ensures Laid(files[seg.first := file], Front(segs) + [seg], epoch)
  {
    hide Holds, Contiguous, Named;
    var r, next := Front(segs) + [seg], files[seg.first := file];
    forall i | 0 <= i < |r|
      ensures r[i].first in next && Holds(next[r[i].first], r[i], epoch)
      ensures Contiguous(r[i].frames, r[i].first) && r[i].first < U64_LIMIT
    {
      if i < |r| - 1 {
        assert r[i] == segs[i] && segs[i].first < Active(segs).first;
      }
    }
    forall x | x in next
      ensures Named(r, x)
    {
      if x == seg.first {
        NamedAt(segs, |segs| - 1);
      }
      SameNames(segs, r, x);
    }
  }

  lemma NamedAt(segs: seq<Seg>, i: nat)
    requires i < |segs|
    ensures Named(segs, segs[i].first)
  {
  }

  lemma ChainedReplaced(segs: seq<Seg>, seg: Seg)
    requires segs != [] && Chained(segs) && seg.first == Active(segs).first
    ensures Chained(Front(segs) + [seg])
  {
    var r := Front(segs) + [seg];
    forall i | 0 <= i < |r| - 1
      ensures Linked(r, i)
    {
      assert Linked(segs, i);
    }
  }

  lemma LaidExtended(files: Files, segs: seq<Seg>, epoch: nat, seg: Seg, file: FileData)
    requires Laid(files, segs, epoch)
    requires segs != [] ==> Active(segs).first < seg.first
    requires Holds(file, seg, epoch) && Contiguous(seg.frames, seg.first) && seg.first < U64_LIMIT
    ensures Laid(files[seg.first := file], segs + [seg], epoch)
  {
    hide Holds, Contiguous;
    var r, next := segs + [seg], files[seg.first := file];
    forall i | 0 <= i < |r|
      ensures r[i].first in next && Holds(next[r[i].first], r[i], epoch)
      ensures Contiguous(r[i].frames, r[i].first) && r[i].first < U64_LIMIT
    {
      if i < |segs| {
        assert r[i] == segs[i] && segs[i].first <= Active(segs).first;
      }
    }
    forall x | x in next
      ensures Named(r, x)
    {
      if x == seg.first {
        assert r[|segs|].first == x;
      } else {
        var i :| 0 <= i < |segs| && segs[i].first == x;
        assert r[i].first == x;
      }
    }
  }

  lemma ChainedExtended(segs: seq<Seg>, seg: Seg)
    requires Chained(segs)
    requires segs != [] ==> Active(segs).frames != [] && Active(segs).durable == |Active(segs).frames| && seg.first == Active(segs).Next()
    ensures Chained(segs + [seg])
  {
    var r := segs + [seg];
    forall i | 0 <= i < |r| - 1
      ensures Linked(r, i)
    {
      if i < |segs| - 1 {
        assert Linked(segs, i);
      }
    }
  }

  lemma LaidTail(files: Files, segs: seq<Seg>, epoch: nat)
    requires segs != [] && Laid(files, segs, epoch)
    ensures Laid(files - {segs[0].first}, segs[1..], epoch)
  {
    hide Holds, Contiguous;
    var r, next := segs[1..], files - {segs[0].first};
    forall i | 0 <= i < |r|
      ensures r[i].first in next && Holds(next[r[i].first], r[i], epoch)
    {
      assert r[i] == segs[i + 1];
    }
    forall x | x in next
      ensures Named(r, x)
    {
      var i :| 0 <= i < |segs| && segs[i].first == x;
      assert r[i - 1].first == x;
    }
  }

  /** A synced file holds its segment with every frame durable. */
  lemma SyncHolds(file: FileData, seg: Seg, epoch: nat)
    requires Holds(file, seg, epoch)
    ensures Holds(file.SyncData(), seg.Synced(), epoch)
  {
    hide HeaderBytes, EncodeAll;
    assert seg.frames[..|seg.frames|] == seg.frames;
    assert file.SyncData().Combined() == file.Combined();
  }

  lemma WriteHolds(file: FileData, seg: Seg, epoch: nat, frames: seq<Frame>)
    requires Holds(file, seg, epoch)
    ensures Holds(file.WriteAll(EncodeAll(frames)), seg.(frames := seg.frames + frames), epoch)
  {
    hide HeaderBytes, EncodeAll;
    var h, e, x := HeaderBytes(seg.first, epoch), EncodeAll(seg.frames), EncodeAll(frames);
    EncodeAllAppend(seg.frames, frames);
    assert (seg.frames + frames)[..seg.durable] == seg.frames[..seg.durable];
    Regroup(file.synced, file.unsynced, x);
    Regroup(h, e, x);
  }

  lemma Regroup(a: seq<byte>, b: seq<byte>, c: seq<byte>)
    ensures a + (b + c) == (a + b) + c
  {
  }

  lemma HeaderHolds(first: nat, epoch: nat)
    ensures Holds(FileData([], []).WriteAll(HeaderBytes(first, epoch)).SyncData(), Seg(first, [], 0), epoch)
  {
    hide HeaderBytes;
    assert EncodeAll([]) == [];
    var h := HeaderBytes(first, epoch);
    assert FileData([], []).WriteAll(h).SyncData() == FileData(h, []);
    assert h + [] == h;
  }

  lemma ContiguousAppend(a: seq<Frame>, b: seq<Frame>, first: nat)
    requires Contiguous(a, first) && Contiguous(b, first + |a|)
    ensures Contiguous(a + b, first)
  {
  }
}
