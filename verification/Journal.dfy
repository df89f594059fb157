/** The journal writer over a directory of segment files. Every operation
    changes the files' bytes and is proved to do to the frames exactly what
    the frame-level log says. */
module Journal {
  import opened Wrappers
  import opened Bytes
  import opened Frame
  import opened Segment
  import opened Log
  import opened Disk

  datatype JournalResult = Accepted | OutOfOrderAppend(expected: nat, found: nat) | AlreadyExists

  /** The run of `open_inner` over the directory, for any files whatever. */
  method ScanAll(files: Files, names: seq<nat>) returns (r: DiskScan)
    ensures r == ScanDisk(files, names, None)
  {
    hide ScanFrames, ParseHeader;
    var segs: seq<Seg>, expected := [], None;
    for k := 0 to |names|
      invariant ScanDisk(files, names, None) == Behind(segs, ScanDisk(files, names[k..], expected))
    {
      var rest := names[k..];
      assert rest[0] == names[k] && rest[1..] == names[k + 1..];
      if names[k] !in files {
        return Unreadable(names[k]);
      }
      var bytes := files[names[k]].Combined();
      match ParseHeader(bytes) {
        case BadHeader => return BadSegmentHeader(names[k]);
        case HeaderOk(first, epoch) =>
          if expected.Some? && first != expected.value {
            return NonContiguous(names[k], expected.value, first);
          }
          HeaderLen(bytes);
          var scan := ScanSegment(bytes[HEADER_LEN..], first);
          var seg := Seg(first, scan.frames, |scan.frames|);
          match scan.end {
            case Gap(e, f) => return NonContiguous(names[k], e, f);
            case Broken(_) =>
              if k == |names| - 1 {
                return Scanned(segs + [seg], Some(HEADER_LEN + scan.good));
              }
              return CorruptSegment(names[k], HEADER_LEN + scan.good);
            case Clean =>
              BehindOne(segs, seg, ScanDisk(files, names[k + 1..], Some(seg.Next())));
              segs, expected := segs + [seg], Some(seg.Next());
          }
      }
    }
    assert names[|names|..] == [];
    assert segs + [] == segs;
    return Scanned(segs, None);
  }

  lemma HeaderLen(bytes: seq<byte>)
    requires ParseHeader(bytes).HeaderOk?
    ensures |bytes| >= HEADER_LEN
  {
  }

  /** Segments already scanned in front of the rest of the scan. */
  function Behind(segs: seq<Seg>, rest: DiskScan): DiskScan {
    match rest
    case Scanned(more, torn) => Scanned(segs + more, torn)
    case error => error
  }

  lemma BehindOne(segs: seq<Seg>, seg: Seg, rest: DiskScan)
    ensures Behind(segs, Behind([seg], rest)) == Behind(segs + [seg], rest)
  {
    if rest.Scanned? {
      assert segs + ([seg] + rest.segs) == (segs + [seg]) + rest.segs;
    }
  }

  /** Encode a run of frames into one buffer. */
  method Encoded(frames: seq<Frame>) returns (scratch: seq<byte>)
    ensures scratch == EncodeAll(frames)
  {
    hide Encode;
    scratch := [];
    for k := 0 to |frames|
      invariant scratch + EncodeAll(frames[k..]) == EncodeAll(frames)
    {
      assert frames[k..][0] == frames[k] && frames[k..][1..] == frames[k + 1..];
      Regroup(scratch, Encode(frames[k]), EncodeAll(frames[k + 1..]));
      scratch := scratch + Encode(frames[k]);
    }
    assert frames[|frames|..] == [];
    assert scratch + [] == scratch;
  }

  /** The contiguity check made before anything is written. */
  method CheckRun(frames: seq<Frame>, next: nat) returns (r: Option<(nat, nat)>)
    ensures r == Misplaced(frames, next)
  {
    for k := 0 to |frames|
      invariant Misplaced(frames, next) == Misplaced(frames[k..], next + k)
    {
      assert frames[k..][0] == frames[k] && frames[k..][1..] == frames[k + 1..];
      if frames[k].seqno != next + k {
        return Some((next + k, frames[k].seqno));
      }
    }
    return None;
  }

  class Writer {
    const segmentBytes: nat
    var files: Files
    var isOpen: bool
    var name: nat
    var size: nat
    var count: nat
    var last: nat
    var epoch: nat
    var dirty: bool

    /** The frames behind the files. */
    ghost var log: Log

    ghost predicate Valid()
      reads this
    {
      && Laid(files, log.segs, epoch) && Chained(log.segs) && epoch < U64_LIMIT
      && last == log.last && count == log.count && dirty == log.dirty
      && isOpen == (log.segs != [])
      && (isOpen ==>
            && name == Active(log.segs).first >= 1
            && size == Active(log.segs).Size()
            && Active(log.segs).Next() == last + 1
            && (!dirty ==> Active(log.segs).durable == |Active(log.segs).frames|))
      && (!isOpen ==> last == 0 && count == 0 && !dirty)
    }

    /** An empty directory. */
    constructor (segmentBytes: nat)
      ensures Valid() && log == NO_LOG && this.segmentBytes == segmentBytes
    {
      this.segmentBytes := segmentBytes;
      files, isOpen, name, size, count, last, epoch, dirty := map[], false, 0, 0, 0, 0, 0, false;
      log := NO_LOG;
    }

    /** Force outstanding appends to stable storage. */
    method SyncNow()
      requires Valid()
      modifies this`files, this`dirty, this`log
      ensures Valid()
      ensures log == Sync(old(log))
      ensures !dirty
      ensures isOpen ==>
                && Active(log.segs).durable == |Active(log.segs).frames|
                && Active(log.segs).frames == Active(old(log.segs)).frames
    {
      hide EncodeAll, Holds, Contiguous, Named;
      if isOpen && dirty {
        ghost var seg := Active(log.segs);
        ActiveParts(files, log.segs, epoch);
        SyncHolds(files[name], seg, epoch);
        LaidReplaced(files, log.segs, epoch, seg.Synced(), files[name].SyncData());
        ChainedReplaced(log.segs, seg.Synced());
        files := files[name := files[name].SyncData()];
        dirty := false;
        log := Sync(log);
      }
    }

    /** A new file holding only its header, synced. */
    method CreateSegment(first: nat)
      requires Laid(files, log.segs, epoch) && first < U64_LIMIT
      requires log.segs != [] ==> Active(log.segs).first < first
      modifies this`files, this`isOpen, this`name, this`size, this`count, this`log
      ensures log == old(log).(segs := old(log).segs + [Seg(first, [], 0)], count := 0)
      ensures Laid(files, log.segs, epoch)
      ensures isOpen && name == first && size == Seg(first, [], 0).Size() && count == 0
    {
      hide EncodeAll, Holds, Contiguous, Laid, HeaderBytes;
      HeaderHolds(first, epoch);
      var file := FileData([], []).WriteAll(HeaderBytes(first, epoch)).SyncData();
      NothingContiguous(first);
      NothingEncoded();
      LaidExtended(files, log.segs, epoch, Seg(first, [], 0), file);
      files := files[first := file];
      isOpen, name, size, count := true, first, HEADER_LEN, 0;
      log := log.(segs := log.segs + [Seg(first, [], 0)], count := 0);
    }

    /** Seal the open segment and start a new file named by its first seq. */
    method RollSegment() returns (ok: bool)
      requires Valid() && last + 1 < U64_LIMIT
      modifies this`files, this`dirty, this`log, this`isOpen, this`name, this`size, this`count
      ensures Valid()
      ensures ok ==> isOpen
      ensures ok <==> !(old(isOpen) && Active(old(log).segs).frames == [])
      ensures log == if ok then Roll(old(log), last + 1) else Sync(old(log))
    {
      hide EncodeAll, Holds, Contiguous, Laid, Chained, HeaderBytes, Sync;
      SyncNow();
      NameTakenIff(files, log.segs, epoch, last + 1);
      var first := last + 1;
      if first in files {
        return false;
      }
      ChainedExtended(log.segs, Seg(first, [], 0));
      CreateSegment(first);
      return true;
    }

    /** Put encoded frames at the end of the open segment. */
    method WriteOut(ghost frames: seq<Frame>, more: nat, scratch: seq<byte>)
      requires Valid() && isOpen
      requires Contiguous(frames, last + 1) && scratch == EncodeAll(frames) && more == |frames|
      modifies this`files, this`size, this`count, this`last, this`dirty, this`log
      ensures Valid()
      ensures log == Write(old(log), frames)
    {
      hide EncodeAll, Holds, Contiguous, Laid, Chained, HeaderBytes;
      ghost var seg := Active(log.segs);
      ghost var grown := seg.(frames := seg.frames + frames);
      ActiveParts(files, log.segs, epoch);
      WriteHolds(files[name], seg, epoch, frames);
      ContiguousAppend(seg.frames, frames, seg.first);
      LaidReplaced(files, log.segs, epoch, grown, files[name].WriteAll(scratch));
      ChainedReplaced(log.segs, grown);
      EncodeAllAppend(seg.frames, frames);
      files := files[name := files[name].WriteAll(scratch)];
      size, count, last, dirty := size + |scratch|, count + more, last + more, true;
      log := Write(log, frames);
    }

    /** Write a run that is known to follow, rolling first if it must. */
    method Commit(frames: seq<Frame>, scratch: seq<byte>, sync: bool) returns (r: JournalResult)
      requires Valid() && frames != []
      requires Contiguous(frames, last + 1) && scratch == EncodeAll(frames)
      modifies this`files, this`dirty, this`log, this`isOpen, this`name, this`size, this`count, this`last
      ensures Valid()
      ensures var before := old(log);
              var roll := NeedsRoll(before, |EncodeAll(frames)|, segmentBytes);
              if roll && Named(before.segs, old(last) + 1) then r == AlreadyExists && log == Sync(before)
              else
                && (!roll ==> before.segs != [])
                && var written := Write(if roll then Roll(before, old(last) + 1) else before, frames);
                   r == Accepted && log == if sync then Sync(written) else written
    {
      hide EncodeAll, Holds, Laid, Chained, HeaderBytes, Sync, Write, Roll, Named;
      NameTakenIff(files, log.segs, epoch, last + 1);
      assert frames[0].Valid();
      if !isOpen || (count > 0 && size + |scratch| > segmentBytes) {
        var ok := RollSegment();
        if !ok {
          return AlreadyExists;
        }
      }
      WriteOut(frames, |frames|, scratch);
      if sync {
        SyncNow();
      }
      return Accepted;
    }

    /** Append a run of frames with one write and, if the policy says so, one
        sync. Either the whole run is accepted or none of it. */
    method AppendBatch(frames: seq<Frame>, sync: bool) returns (r: JournalResult)
      requires Valid()
      requires forall i :: 0 <= i < |frames| ==> frames[i].Valid()
      modifies this`files, this`dirty, this`log, this`isOpen, this`name, this`size, this`count, this`last
      ensures Valid()
      ensures match AppendAll(old(log), frames, segmentBytes, sync)
              case Appended(next) => r == Accepted && log == next
              case OutOfOrder(expected, found) => r == OutOfOrderAppend(expected, found) && log == old(log)
              case NameTaken(next) => r == AlreadyExists && log == next
    {
      hide EncodeAll, Holds, Laid, Chained, HeaderBytes, Sync, Write, Roll, Named, NeedsRoll, Misplaced;
      if frames == [] {
        return Accepted;
      }
      var gap := CheckRun(frames, last + 1);
      if gap.Some? {
        return OutOfOrderAppend(gap.value.0, gap.value.1);
      }
      var scratch := Encoded(frames);
      r := Commit(frames, scratch, sync);
    }

    method Append(frame: Frame, sync: bool) returns (r: JournalResult)
      requires Valid() && frame.Valid()
      modifies this`files, this`dirty, this`log, this`isOpen, this`name, this`size, this`count, this`last
      ensures Valid()
      ensures match AppendAll(old(log), [frame], segmentBytes, sync)
              case Appended(next) => r == Accepted && log == next
              case OutOfOrder(expected, found) => r == OutOfOrderAppend(expected, found) && log == old(log)
              case NameTaken(next) => r == AlreadyExists && log == next
    {
      r := AppendBatch([frame], sync);
    }

    /** Delete every leading segment whose frames all lie at or below `cutoff`;
        the open segment is never deleted. */
    method CompactBelow(cutoff: nat) returns (removed: nat)
      requires Valid()
      modifies this`files, this`log
      ensures Valid()
      ensures log == old(log).(segs := Compact(old(log).segs, cutoff))
      ensures removed == |old(log).segs| - |log.segs|
    {
      hide Laid, Chained, Compact, EncodeAll;
      CompactKeepsActive(log.segs, cutoff);
      removed := DropBelow(cutoff);
    }

    method DropBelow(cutoff: nat) returns (removed: nat)
      requires Laid(files, log.segs, epoch)
      modifies this`files, this`log
      ensures Laid(files, log.segs, epoch)
      ensures log == old(log).(segs := Compact(old(log).segs, cutoff))
      ensures removed == |old(log).segs| - |log.segs|
    {
      hide EncodeAll, Holds, HeaderBytes, Laid, SortedNames, Compact, Firsts;
      ListedInOrder(files, log.segs, epoch);
      var names := SortedNames(files.Keys);
      removed := 0;
      ghost var segs := log.segs;
      while removed + 1 < |names| && names[removed + 1] <= cutoff + 1
        invariant removed <= |names| && Firsts(log.segs) == names[removed..]
        invariant log == old(log).(segs := log.segs)
        invariant Laid(files, log.segs, epoch)
        invariant Compact(segs, cutoff) == Compact(log.segs, cutoff)
        decreases |names| - removed
      {
        CompactOnce(log.segs, cutoff);
        FirstsTail(log.segs);
        assert names[removed..][0] == names[removed] && names[removed..][1] == names[removed + 1];
        assert names[removed..][1..] == names[removed + 1..];
        LaidTail(files, log.segs, epoch);
        files := files - {names[removed]};
        removed := removed + 1;
        log := log.(segs := log.segs[1..]);
      }
      CompactOnce(log.segs, cutoff);
      assert removed + 1 < |names| ==> names[removed..][1] == names[removed + 1];
    }

    /** Restart at `next`, above the tail: a fresh header-only segment, and
        nothing else. */
    method ReseatTo(next: nat)
      requires Valid() && last + 1 < next < U64_LIMIT
      modifies this
      ensures Valid()
      ensures log == Reseat(old(log), next)
    {
      hide EncodeAll, Holds, Contiguous, Laid, HeaderBytes, Sync, Compact, Chained;
      SyncNow();
      NamesBelow(files, log.segs, epoch, next);
      ghost var segs := log.segs + [Seg(next, [], 0)];
      CompactAll(segs, next - 1);
      NothingLinked(Seg(next, [], 0));
      CreateSegment(next);
      last := next - 1;
      log := log.(last := next - 1);
      var _ := DropBelow(next - 1);
    }

    /** Reopen the directory that power loss left of an earlier writer's, once
        scanned: it always opens, on a prefix that reaches every synced frame. */
    constructor Reopened(segmentBytes: nat, disk: Files, scan: DiskScan, ghost before: Files, ghost was: Log, ghost wasEpoch: nat)
      requires Laid(before, was.segs, wasEpoch) && Chained(was.segs) && wasEpoch < U64_LIMIT
      requires was.segs != [] ==> Active(was.segs).first >= 1
      requires PowerLost(before, disk)
      requires scan == ScanDisk(disk, SortedNames(disk.Keys), None)
      ensures Valid() && this.segmentBytes == segmentBytes
      ensures scan.Scanned? && log.segs == scan.segs
      ensures was.segs == [] ==> log == NO_LOG
      ensures was.segs != [] ==> exists n: nat ::
                Active(was.segs).durable <= n <= |Active(was.segs).frames| && log == Reopen(Cut(was.segs, n))
    {
      hide EncodeAll, Holds, Contiguous, HeaderBytes, Laid, Chained, ScanDisk, ParseHeader, PowerLost, CrashOutcome, SortedNames, Trimmed, Cut, Reopen, Firsts, FramesOf;
      this.segmentBytes := segmentBytes;
      LostNames(before, disk, was.segs, wasEpoch);
      var names := SortedNames(disk.Keys);
      if names == [] {
        files, isOpen, name, size, count, last, epoch, dirty := disk, false, 0, 0, 0, 0, 0, false;
        log := NO_LOG;
        NothingLaid(disk, was.segs);
        NothingScanned(disk);
      } else {
        ghost var n, torn := LossScanned(before, disk, was.segs, wasEpoch);
        var tail := names[|names| - 1];
        ReopenedLog(was.segs, n);
        var kept := Trimmed(disk, tail, scan.torn);
        KeptSize(kept, Cut(was.segs, n), wasEpoch);
        files, isOpen, name, dirty := kept, true, tail, false;
        size := |kept[tail].Combined()|;
        count := |FramesOf(scan.segs)|;
        last := Active(scan.segs).Next() - 1;
        epoch := ParseHeader(disk[tail].Combined()).epoch;
        log := Reopen(scan.segs);
      }
    }
  }

  /** Scan and reopen: the writer and the frames it found. */
  method OpenJournal(segmentBytes: nat, disk: Files, ghost before: Files, ghost was: Log, ghost epoch: nat)
      returns (j: Writer, frames: seq<Frame>)
    requires Laid(before, was.segs, epoch) && Chained(was.segs) && epoch < U64_LIMIT
    requires was.segs != [] ==> Active(was.segs).first >= 1
    requires PowerLost(before, disk)
    ensures fresh(j) && j.Valid() && j.segmentBytes == segmentBytes
    ensures frames == FramesOf(j.log.segs)
    ensures was.segs == [] ==> j.log == NO_LOG
    ensures was.segs != [] ==> exists n: nat ::
              Active(was.segs).durable <= n <= |Active(was.segs).frames| && j.log == Reopen(Cut(was.segs, n))
  {
    hide Laid, Chained, PowerLost, SortedNames, ScanDisk, Cut, Reopen, FramesOf, Writer.Valid;
    var scan := ScanAll(disk, SortedNames(disk.Keys));
    j := new Writer.Reopened(segmentBytes, disk, scan, before, was, epoch);
    frames := if scan.Scanned? then FramesOf(scan.segs) else [];
  }

  lemma ActiveParts(files: Files, segs: seq<Seg>, epoch: nat)
    requires segs != [] && Laid(files, segs, epoch)
    ensures var seg := Active(segs);
            seg.first in files && Holds(files[seg.first], seg, epoch) && Contiguous(seg.frames, seg.first) && seg.first < U64_LIMIT
  {
    hide Holds, Contiguous;
    assert segs[|segs| - 1] == Active(segs);
  }

  lemma NothingContiguous(first: nat)
    ensures Contiguous([], first)
  {
  }

  lemma NothingLinked(seg: Seg)
    ensures Chained([seg])
  {
  }

  lemma NothingEncoded()
    ensures EncodeAll([]) == []
  {
  }

  /** The next seq's name exists exactly when the open segment is header-only. */
  lemma NameTakenIff(files: Files, segs: seq<Seg>, epoch: nat, next: nat)
    requires Laid(files, segs, epoch)
    requires segs != [] ==> Active(segs).Next() == next
    ensures next in files <==> segs != [] && Active(segs).frames == []
    ensures next in files <==> Named(segs, next)
  {
    hide Holds, Contiguous;
    if next in files {
      var i :| 0 <= i < |segs| && segs[i].first == next;
      assert segs[i].first <= Active(segs).first;
    }
    if segs != [] && Active(segs).frames == [] {
      assert segs[|segs| - 1].first == next;
    }
    if Named(segs, next) {
      var i :| 0 <= i < |segs| && segs[i].first == next;
      assert segs[i].first in files;
    }
  }

  lemma ListedInOrder(files: Files, segs: seq<Seg>, epoch: nat)
    requires Laid(files, segs, epoch)
    ensures SortedNames(files.Keys) == Firsts(segs)
  {
    hide Holds;
    forall x
      ensures x in files.Keys <==> Named(segs, x)
    {
      if Named(segs, x) {
        var i :| 0 <= i < |segs| && segs[i].first == x;
      }
    }
    SortedIsFirsts(segs, files.Keys);
  }

  lemma FirstsTail(segs: seq<Seg>)
    requires segs != []
    ensures Firsts(segs[1..]) == Firsts(segs)[1..]
  {
  }

  lemma CompactOnce(segs: seq<Seg>, cutoff: nat)
    ensures Compact(segs, cutoff)
            == if |segs| > 1 && segs[1].first <= cutoff + 1 then Compact(segs[1..], cutoff) else segs
  {
  }

  lemma NamesBelow(files: Files, segs: seq<Seg>, epoch: nat, next: nat)
    requires Laid(files, segs, epoch)
    requires segs != [] ==> Active(segs).first < next
    ensures forall i :: 0 <= i < |segs| + 1 ==> (segs + [Seg(next, [], 0)])[i].first <= next
  {
    hide Holds;
    forall i | 0 <= i < |segs|
      ensures segs[i].first <= next
    {
      assert segs[i].first <= Active(segs).first;
    }
  }

  lemma {:induction false} CompactKeepsActive(segs: seq<Seg>, cutoff: nat)
    ensures segs != [] ==> Active(Compact(segs, cutoff)) == Active(segs)
    ensures Chained(segs) ==> Chained(Compact(segs, cutoff))
    decreases |segs|
  {
    hide Linked;
    if |segs| > 1 && segs[1].first <= cutoff + 1 {
      CompactKeepsActive(segs[1..], cutoff);
      if Chained(segs) {
        ChainedTail(segs);
      }
    }
  }

  lemma LostNames(before: Files, disk: Files, segs: seq<Seg>, epoch: nat)
    requires Laid(before, segs, epoch) && PowerLost(before, disk)
    ensures SortedNames(disk.Keys) == Firsts(segs)
  {
    ListedInOrder(before, segs, epoch);
  }

  lemma NothingScanned(disk: Files)
    ensures ScanDisk(disk, [], None) == Scanned([], None)
  {
  }

  lemma NothingLaid(disk: Files, segs: seq<Seg>)
    requires SortedNames(disk.Keys) == [] == Firsts(segs)
    ensures segs == [] && Laid(disk, [], 0)
  {
    assert disk.Keys == {};
  }

  lemma LossScanned(before: Files, disk: Files, segs: seq<Seg>, epoch: nat) returns (n: nat, torn: Option<nat>)
    requires Laid(before, segs, epoch) && Chained(segs) && epoch < U64_LIMIT && segs != []
    requires PowerLost(before, disk)
    ensures Active(segs).durable <= n <= |Active(segs).frames|
    ensures ScanDisk(disk, Firsts(segs), None) == Scanned(Cut(segs, n), torn)
    ensures Active(segs).first in disk
    ensures ParseHeader(disk[Active(segs).first].Combined()) == HeaderOk(Active(segs).first, epoch)
    ensures Laid(Trimmed(disk, Active(segs).first, torn), Cut(segs, n), epoch) && Chained(Cut(segs, n))
  {
    hide Holds, Contiguous, ScanDisk, ParseHeader, PowerLost, Named, TornAt;
    n, torn := CrashedDiskScans(before, disk, segs, epoch, None);
    TrimmedStored(before, disk, segs, epoch, n, torn);
    ChainedReplaced(segs, Active(segs).(frames := Active(segs).frames[..n], durable := n));
    CutFits(segs, n);
  }

  lemma CutFits(segs: seq<Seg>, n: nat)
    requires segs != [] && Fit(segs) && Ascends(segs) && n <= |Active(segs).frames|
    ensures Fit(Cut(segs, n)) && Ascends(Cut(segs, n))
  {
    var cut := Cut(segs, n);
    forall i | 0 <= i < |cut|
      ensures cut[i].first == segs[i].first && cut[i].first < U64_LIMIT && Contiguous(cut[i].frames, cut[i].first)
    {
      assert Contiguous(segs[i].frames, segs[i].first);
    }
  }

  lemma ReopenedLog(segs: seq<Seg>, n: nat)
    requires segs != [] && n <= |Active(segs).frames| && Active(segs).first >= 1
    ensures var cut := Cut(segs, n);
            && cut != [] && Reopen(cut).segs == cut
            && Active(cut).Next() >= 1
            && Active(cut).first == Active(segs).first
            && Reopen(cut) == Log(cut, Active(cut).Next() - 1, |FramesOf(cut)|, false)
            && Active(cut).durable == |Active(cut).frames|
            && Active(segs).first == Firsts(segs)[|segs| - 1]
  {
    hide FramesOf;
    var cut := Cut(segs, n);
    assert Front(cut) + [Active(cut).Synced()] == cut;
  }

  lemma KeptSize(files: Files, segs: seq<Seg>, epoch: nat)
    requires segs != [] && Laid(files, segs, epoch)
    ensures Active(segs).first in files && |files[Active(segs).first].Combined()| == Active(segs).Size()
  {
    ActiveParts(files, segs, epoch);
  }
}
