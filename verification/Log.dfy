/** The journal seen as frames: segments in seq order, each remembering how
    many of its frames have reached stable storage. The bytes behind it are
    in Segment and Journal. */
module Log {
  import opened Wrappers
  import opened Frame
  import opened Segment

  /** A segment file: its first seq, its frames, and how many are synced. */
  datatype Seg = Seg(first: nat, frames: seq<Frame>, durable: nat) {
    function Size(): nat { HEADER_LEN + |EncodeAll(frames)| }
    function Next(): nat { first + |frames| }
    function Synced(): Seg { this.(durable := |frames|) }
  }

  /** `count` is the writer's own frame counter: frames written to the open
      segment, or, after a reopen, frames found in the whole journal. */
  datatype Log = Log(segs: seq<Seg>, last: nat, count: nat, dirty: bool)

  datatype AppendResult = Appended(log: Log) | OutOfOrder(expected: nat, found: nat) | NameTaken(log: Log)

  const NO_LOG := Log([], 0, 0, false)

  function Front(segs: seq<Seg>): seq<Seg>
    requires segs != []
  {
    segs[..|segs| - 1]
  }

  function Active(segs: seq<Seg>): Seg
    requires segs != []
  {
    segs[|segs| - 1]
  }

  function Sync(log: Log): Log {
    if log.segs != [] && log.dirty
    then log.(segs := Front(log.segs) + [Active(log.segs).Synced()], dirty := false)
    else log
  }

  predicate NeedsRoll(log: Log, len: nat, segmentBytes: nat) {
    log.segs == [] || (log.count > 0 && Active(log.segs).Size() + len > segmentBytes)
  }

  /** Seal the open segment and start a header-only one. */
  function Roll(log: Log, first: nat): Log {
    var sealed := Sync(log);
    sealed.(segs := sealed.segs + [Seg(first, [], 0)], count := 0)
  }

  function Write(log: Log, frames: seq<Frame>): Log
    requires log.segs != []
  {
    var seg := Active(log.segs);
    Log(Front(log.segs) + [seg.(frames := seg.frames + frames)], log.last + |frames|, log.count + |frames|, true)
  }

  /** The first frame whose seq does not continue the run. */
  function Misplaced(frames: seq<Frame>, expected: nat): (r: Option<(nat, nat)>)
    ensures r == None <==> forall i :: 0 <= i < |frames| ==> frames[i].seqno == expected + i
  {
    if frames == [] then None
    else if frames[0].seqno != expected then Some((expected, frames[0].seqno))
    else Misplaced(frames[1..], expected + 1)
  }

  predicate Named(segs: seq<Seg>, first: nat) {
    exists i :: 0 <= i < |segs| && segs[i].first == first
  }

  /** `append_batch`; `append` is a batch of one. A new segment takes its name
      from its first seq, so it cannot be created when that name exists. */
  function AppendAll(log: Log, frames: seq<Frame>, segmentBytes: nat, sync: bool): (r: AppendResult) {
    if frames == [] then Appended(log)
    else
      match Misplaced(frames, log.last + 1)
      case Some((expected, found)) => OutOfOrder(expected, found)
      case None =>
        var roll := NeedsRoll(log, |EncodeAll(frames)|, segmentBytes);
        if roll && Named(log.segs, frames[0].seqno) then NameTaken(Sync(log))
        else
          var written := Write(if roll then Roll(log, frames[0].seqno) else log, frames);
          Appended(if sync then Sync(written) else written)
  }

  /** Drop leading segments whose frames all lie at or below `cutoff`. */
  function Compact(segs: seq<Seg>, cutoff: nat): (r: seq<Seg>)
    ensures |r| <= |segs|
    ensures segs != [] ==> r != []
  {
    if |segs| > 1 && segs[1].first <= cutoff + 1 then Compact(segs[1..], cutoff) else segs
  }

  /** Restart the journal at `next`, dropping everything below. */
  function Reseat(log: Log, next: nat): Log
    requires next >= 1
  {
    var rolled := Roll(log, next);
    rolled.(last := next - 1, segs := Compact(rolled.segs, next - 1))
  }

  function FramesOf(segs: seq<Seg>): seq<Frame> {
    if segs == [] then [] else segs[0].frames + FramesOf(segs[1..])
  }

  /** What a reopened journal knows: everything on disk is durable. */
  function Reopen(segs: seq<Seg>): Log {
    if segs == [] then NO_LOG
    else Log(Front(segs) + [Active(segs).Synced()], if Active(segs).Next() == 0 then 0 else Active(segs).Next() - 1, |FramesOf(segs)|, false)
  }

  /** Power loss cuts the open segment to `n` frames. */
  function Cut(segs: seq<Seg>, n: nat): seq<Seg>
    requires segs != [] && n <= |Active(segs).frames|
  {
    Front(segs) + [Active(segs).(frames := Active(segs).frames[..n], durable := n)]
  }

  /** The seq the surviving history starts at. */
  function Start(log: Log): nat {
    if log.segs == [] then 1 else log.segs[0].first
  }

  /** The last seq on stable storage. */
  function DurableEnd(log: Log): int {
    if log.segs == [] then 0 else Active(log.segs).first - 1 + Active(log.segs).durable
  }

  // ----- what holds of every journal -----

  /** The segment holds its stretch of the history. */
  ghost predicate SegOk(seg: Seg, hist: seq<Frame>) {
    && 1 <= seg.first
    && seg.Next() - 1 <= |hist|
    && seg.durable <= |seg.frames|
    && seg.frames == hist[seg.first - 1..seg.Next() - 1]
  }

  /** A closed segment is not empty, fully synced, and followed without a gap. */
  ghost predicate Linked(segs: seq<Seg>, i: int)
    requires 0 <= i < |segs| - 1
  {
    segs[i].frames != [] && segs[i].durable == |segs[i].frames| && segs[i + 1].first == segs[i].Next()
  }

  ghost predicate SegsOk(segs: seq<Seg>, hist: seq<Frame>) {
    && (forall i :: 0 <= i < |segs| ==> SegOk(segs[i], hist))
    && (forall i :: 0 <= i < |segs| - 1 ==> Linked(segs, i))
    && (if segs == [] then hist == [] else Active(segs).Next() - 1 == |hist|)
  }

  ghost predicate LogOk(log: Log, hist: seq<Frame>) {
    && SegsOk(log.segs, hist)
    && log.last == |hist|
    && (log.segs == [] ==> !log.dirty)
    && (log.segs != [] && !log.dirty ==> Active(log.segs).durable == |Active(log.segs).frames|)
  }

  /** Seqs run from 1 without gaps. */
  ghost predicate Numbered(hist: seq<Frame>) {
    forall i :: 0 <= i < |hist| ==> hist[i].seqno == i + 1
  }

  /** Replacing the open segment by one that ends a (longer or shorter)
      history agreeing on the closed segments. */
  lemma ActiveReplaced(segs: seq<Seg>, hist: seq<Frame>, seg: Seg, next: seq<Frame>)
    requires segs != [] && SegsOk(segs, hist)
    requires seg.first == Active(segs).first
    requires SegOk(seg, next) && seg.Next() - 1 == |next|
    requires |next| >= seg.first - 1 && next[..seg.first - 1] == hist[..seg.first - 1]
    ensures SegsOk(Front(segs) + [seg], next)
  {
    var r := Front(segs) + [seg];
    forall i | 0 <= i < |r|
      ensures SegOk(r[i], next)
    {
      if i < |r| - 1 {
        FrontBelow(segs, hist, i);
        var s := segs[i];
        assert SegOk(s, hist);
        SamePart(next, hist, seg.first - 1, s.first - 1, s.Next() - 1);
      }
    }
    forall i | 0 <= i < |r| - 1
      ensures Linked(r, i)
    {
      assert Linked(segs, i);
    }
  }

  lemma SamePart(a: seq<Frame>, b: seq<Frame>, n: nat, i: nat, j: nat)
    requires i <= j <= n <= |a| && n <= |b|
    requires a[..n] == b[..n]
    ensures a[i..j] == b[i..j]
  {
    assert a[i..j] == a[..n][i..j] && b[i..j] == b[..n][i..j];
  }

  /** Closed segments end before the open one starts. */
  lemma {:induction false} FrontBelow(segs: seq<Seg>, hist: seq<Frame>, i: nat)
    requires SegsOk(segs, hist)
    requires i < |segs| - 1
    ensures segs[i].Next() <= Active(segs).first
    ensures segs[i].first < Active(segs).first
    decreases |segs| - i
  {
    assert Linked(segs, i);
    if i + 1 < |segs| - 1 {
      FrontBelow(segs, hist, i + 1);
      assert SegOk(segs[i + 1], hist);
    }
  }

  lemma SyncOk(log: Log, hist: seq<Frame>)
    requires LogOk(log, hist)
    ensures LogOk(Sync(log), hist)
    ensures Start(Sync(log)) == Start(log)
    ensures !Sync(log).dirty
    ensures DurableEnd(log) <= DurableEnd(Sync(log)) == |hist|
  {
    if log.segs != [] {
      assert SegOk(Active(log.segs), hist);
      if log.dirty {
        ActiveReplaced(log.segs, hist, Active(log.segs).Synced(), hist);
      }
    }
  }

  lemma RollOk(log: Log, hist: seq<Frame>)
    requires LogOk(log, hist)
    requires log.segs != [] ==> Active(log.segs).frames != []
    ensures var r := Roll(log, |hist| + 1);
            && LogOk(r.(dirty := false), hist) && r.segs != []
            && Start(r) == (if log.segs == [] then |hist| + 1 else Start(log))
            && DurableEnd(r) == |hist|
  {
    hide FramesOf;
    SyncOk(log, hist);
    var s := Sync(log);
    var r := Roll(log, |hist| + 1);
    assert Active(r.segs) == Seg(|hist| + 1, [], 0);
    assert hist[|hist|..|hist|] == [];
    forall i | 0 <= i < |r.segs|
      ensures SegOk(r.segs[i], hist)
    {
      if i < |s.segs| {
        assert r.segs[i] == s.segs[i];
      }
    }
    forall i | 0 <= i < |r.segs| - 1
      ensures Linked(r.segs, i)
    {
      if i < |s.segs| - 1 {
        assert Linked(s.segs, i);
      } else {
        assert r.segs[i] == Active(s.segs);
      }
    }
  }

  lemma WriteOk(log: Log, hist: seq<Frame>, frames: seq<Frame>)
    requires SegsOk(log.segs, hist) && log.segs != [] && log.last == |hist|
    ensures var w := Write(log, frames);
            && LogOk(w, hist + frames)
            && Start(w) == Start(log)
            && DurableEnd(w) == DurableEnd(log)
  {
    var seg := Active(log.segs);
    var next := hist + frames;
    var grown := seg.(frames := seg.frames + frames);
    assert SegOk(seg, hist);
    assert next[seg.first - 1..grown.Next() - 1] == hist[seg.first - 1..seg.Next() - 1] + frames;
    assert next[..seg.first - 1] == hist[..seg.first - 1];
    ActiveReplaced(log.segs, hist, grown, next);
  }

  /** The name a roll would take is free unless the open segment is header-only. */
  lemma NameFree(log: Log, hist: seq<Frame>)
    requires LogOk(log, hist)
    ensures Named(log.segs, |hist| + 1) <==> log.segs != [] && Active(log.segs).frames == []
  {
    if Named(log.segs, |hist| + 1) {
      var i :| 0 <= i < |log.segs| && log.segs[i].first == |hist| + 1;
      assert SegOk(log.segs[i], hist);
      if i < |log.segs| - 1 {
        FrontBelow(log.segs, hist, i);
      }
    }
    if log.segs != [] && Active(log.segs).frames == [] {
      assert log.segs[|log.segs| - 1].first == |hist| + 1;
    }
  }

  /** Appending in order fails exactly when the open segment is header-only,
      the writer still counts earlier frames, and the batch does not fit. */
  lemma AppendFailsIff(log: Log, hist: seq<Frame>, frames: seq<Frame>, segmentBytes: nat, sync: bool)
    requires LogOk(log, hist)
    requires Misplaced(frames, |hist| + 1) == None
    ensures AppendAll(log, frames, segmentBytes, sync).Appended?
            <==> !(frames != [] && log.segs != [] && Active(log.segs).frames == [] && log.count > 0
                   && HEADER_LEN + |EncodeAll(frames)| > segmentBytes)
  {
    NameFree(log, hist);
    if frames != [] {
      assert frames[0].seqno == |hist| + 1;
    }
    assert EncodeAll([]) == [];
  }

  lemma AppendOk(log: Log, hist: seq<Frame>, frames: seq<Frame>, segmentBytes: nat, sync: bool)
    requires LogOk(log, hist)
    requires AppendAll(log, frames, segmentBytes, sync).Appended?
    ensures var r := AppendAll(log, frames, segmentBytes, sync).log;
            && LogOk(r, hist + frames)
            && Start(r) == Start(log)
            && DurableEnd(log) <= DurableEnd(r)
            && (sync && frames != [] ==> DurableEnd(r) == |hist| + |frames|)
  {
    hide FramesOf, EncodeAll;
    if frames == [] {
      assert hist + frames == hist;
    } else {
      assert frames[0].seqno == |hist| + 1;
      var roll := NeedsRoll(log, |EncodeAll(frames)|, segmentBytes);
      NameFree(log, hist);
      var base := if roll then Roll(log, |hist| + 1) else log;
      if roll {
        RollOk(log, hist);
        SyncOk(log, hist);
      }
      WriteOk(base, hist, frames);
      SyncOk(Write(base, frames), hist + frames);
    }
  }

  // ----- compaction -----

  /** Removing the oldest segment, when another follows, keeps a gapless run:
      this is every state between two removals. */
  lemma DropOldest(log: Log, hist: seq<Frame>)
    requires LogOk(log, hist) && |log.segs| > 1
    ensures LogOk(log.(segs := log.segs[1..]), hist)
    ensures DurableEnd(log.(segs := log.segs[1..])) == DurableEnd(log)
  {
    var r := log.segs[1..];
    forall i | 0 <= i < |r| - 1
      ensures Linked(r, i)
    {
      assert Linked(log.segs, i + 1);
    }
  }

  lemma {:induction false} CompactOk(log: Log, hist: seq<Frame>, cutoff: nat)
    requires LogOk(log, hist)
    ensures var r := log.(segs := Compact(log.segs, cutoff));
            && LogOk(r, hist)
            && DurableEnd(r) == DurableEnd(log)
            && (Start(r) == Start(log) || Start(r) <= cutoff + 1)
    decreases |log.segs|
  {
    if |log.segs| > 1 && log.segs[1].first <= cutoff + 1 {
      DropOldest(log, hist);
      CompactOk(log.(segs := log.segs[1..]), hist, cutoff);
    } else {
      assert log.(segs := log.segs) == log;
    }
  }

  /** With every start at or below the cutoff, only the open segment stays. */
  lemma {:induction false} CompactAll(segs: seq<Seg>, cutoff: nat)
    requires segs != []
    requires forall i :: 0 <= i < |segs| ==> segs[i].first <= cutoff + 1
    ensures Compact(segs, cutoff) == [Active(segs)]
    decreases |segs|
  {
    if |segs| > 1 {
      CompactAll(segs[1..], cutoff);
    }
  }

  /** Reseating above the tail leaves one header-only segment; the lost
      frames in between belong to a history only a snapshot remembers. */
  lemma ReseatOk(log: Log, hist: seq<Frame>, full: seq<Frame>)
    requires LogOk(log, hist)
    requires |full| >= |hist|
    ensures Reseat(log, |full| + 1) == Log([Seg(|full| + 1, [], 0)], |full|, 0, false)
    ensures LogOk(Reseat(log, |full| + 1), full)
  {
    var next := |full| + 1;
    SyncOk(log, hist);
    var s := Sync(log);
    var segs := s.segs + [Seg(next, [], 0)];
    StartsBelow(s, hist, next);
    CompactAll(segs, next - 1);
    HeaderOnly(full);
    hide LogOk, Compact, EncodeAll, Sync;
    assert Roll(log, next).segs == segs;
    assert Compact(segs, next - 1) == [Seg(next, [], 0)];
  }

  lemma StartsBelow(log: Log, hist: seq<Frame>, next: nat)
    requires LogOk(log, hist) && |hist| < next
    ensures forall i :: 0 <= i < |log.segs| + 1 ==> (log.segs + [Seg(next, [], 0)])[i].first <= next
  {
    forall i | 0 <= i < |log.segs|
      ensures log.segs[i].first <= next
    {
      assert SegOk(log.segs[i], hist);
    }
  }

  lemma HeaderOnly(hist: seq<Frame>)
    ensures LogOk(Log([Seg(|hist| + 1, [], 0)], |hist|, 0, false), hist)
  {
    assert hist[|hist|..|hist|] == [];
  }

  // ----- reopening after power loss -----

  lemma FramesOfSplit(segs: seq<Seg>)
    requires segs != []
    ensures FramesOf(segs) == FramesOf(Front(segs)) + Active(segs).frames
  {
    if |segs| == 1 {
      assert segs[1..] == [] && Front(segs) == [];
    } else {
      FramesOfSplit(segs[1..]);
      assert Front(segs)[1..] == Front(segs[1..]);
      assert segs[0].frames + (FramesOf(Front(segs[1..])) + Active(segs).frames)
             == (segs[0].frames + FramesOf(Front(segs[1..]))) + Active(segs).frames;
    }
  }

  /** The frames on disk are the history from the first surviving seq on. */
  lemma {:induction false} FramesOfHist(segs: seq<Seg>, hist: seq<Frame>)
    requires segs != [] && SegsOk(segs, hist)
    ensures segs[0].first - 1 <= |hist|
    ensures FramesOf(segs) == hist[segs[0].first - 1..]
    decreases |segs|
  {
    assert SegOk(segs[0], hist);
    if |segs| == 1 {
      assert segs[1..] == [];
      assert segs[0] == Active(segs);
    } else {
      var rest := segs[1..];
      assert Linked(segs, 0);
      TailOk(segs, hist);
      hide SegsOk;
      FramesOfHist(rest, hist);
      assert hist[segs[0].first - 1..] == hist[segs[0].first - 1..segs[0].Next() - 1] + hist[segs[0].Next() - 1..];
    }
  }

  lemma TailOk(segs: seq<Seg>, hist: seq<Frame>)
    requires |segs| > 1 && SegsOk(segs, hist)
    ensures SegsOk(segs[1..], hist)
  {
    var r := segs[1..];
    forall i | 0 <= i < |r| - 1
      ensures Linked(r, i)
    {
      assert Linked(segs, i + 1);
    }
  }

  /** After power loss the journal reopens to a prefix of the history that
      reaches at least the last synced frame. */
  lemma CutOk(log: Log, hist: seq<Frame>, n: nat)
    requires LogOk(log, hist) && log.segs != []
    requires Active(log.segs).durable <= n <= |Active(log.segs).frames|
    ensures var tail := Active(log.segs).first - 1 + n;
            var r := Reopen(Cut(log.segs, n));
            && tail <= |hist|
            && LogOk(r, hist[..tail])
            && r.segs == Cut(log.segs, n)
            && Start(r) == Start(log)
            && DurableEnd(log) <= DurableEnd(r) == tail
            && r.count == |FramesOf(r.segs)|
  {
    hide FramesOf;
    var seg := Active(log.segs);
    var tail := seg.first - 1 + n;
    assert SegOk(seg, hist);
    var kept := seg.(frames := seg.frames[..n], durable := n);
    var next := hist[..tail];
    assert next[seg.first - 1..tail] == seg.frames[..n];
    assert next[..seg.first - 1] == hist[..seg.first - 1];
    ActiveReplaced(log.segs, hist, kept, next);
    var cut := Cut(log.segs, n);
    assert Active(cut) == kept && Front(cut) == Front(log.segs);
    assert Front(cut) + [kept.Synced()] == cut;
  }
}
