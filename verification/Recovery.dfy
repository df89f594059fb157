/** Crash refinement: whatever the run, whatever power loss leaves, reopening
    succeeds and yields the replay of a prefix of the live history that
    reaches at least the last synced frame. */
module Recovery {
  import opened Wrappers
  import opened Bytes
  import opened Frame
  import opened TimerWheel
  import opened Execution
  import opened SnapshotFile
  import opened Log
  import opened Sequencer
  import opened NodeInvariant

  // ----- the anchor -----

  lemma UsableWithin<S, I, O, N>(sv: Service<S, I, O, N>, file: seq<byte>, s: nat, first: nat, ceiling: nat)
    requires Usable(sv, file, 0, s).Some? && Usable(sv, file, 0, s).value.0 == s
    requires first <= s + 1 && s <= ceiling
    ensures Usable(sv, file, first, ceiling) == Usable(sv, file, 0, s)
  {
    hide Parse, Rearm;
  }

  /** Recovery anchors on the newest snapshot, and only an empty store has none. */
  lemma AnchorIsNewest<S, I, O, N>(sv: Service<S, I, O, N>, snaps: map<nat, seq<byte>>, hist: seq<Frame>, first: nat, ceiling: nat)
    requires SnapsOk(sv, snaps, hist)
    requires Covered(first, snaps) && first >= 1
    requires HighWater(snaps) <= ceiling
    ensures var a := ChooseAnchor(sv, snaps, first, ceiling);
            if snaps.Keys == {} then a == None && first == 1
            else
              && HighWater(snaps) <= |hist|
              && Replay(sv, Genesis(sv), hist[..HighWater(snaps)]).Some?
              && a.Some? && a.value.0 == HighWater(snaps)
              && Same(sv, Replay(sv, Genesis(sv), hist[..HighWater(snaps)]).value, a.value.1)
  {
    hide Usable, Replay, Same;
    if snaps.Keys != {} {
      var s := HighWater(snaps);
      HighWaterAbove(snaps, s);
      assert SnapOk(sv, s, snaps[s], hist);
      UsableWithin(sv, snaps[s], s, first, ceiling);
    }
  }

  // ----- the tail -----

  ghost predicate AtOrBelow(frames: seq<Frame>, from: nat) {
    forall i :: 0 <= i < |frames| ==> frames[i].seqno <= from
  }

  /** Frames at or below the anchor are skipped, the rest replayed. */
  lemma {:induction false} ReplayAboveSkips<S, I, O, N>(sv: Service<S, I, O, N>, m: Machine<S>, below: seq<Frame>, above: seq<Frame>, from: nat)
    requires AtOrBelow(below, from)
    requires forall i :: 0 <= i < |above| ==> above[i].seqno > from
    ensures ReplayAbove(sv, m, below + above, from) == Replay(sv, m, above)
    decreases |below|
  {
    hide ReplayStep, Replay;
    if below == [] {
      assert below + above == above;
      ReplayAboveAll(sv, m, above, from);
    } else {
      assert (below + above)[0] == below[0] && (below + above)[1..] == below[1..] + above;
      ReplayAboveSkips(sv, m, below[1..], above, from);
    }
  }

  lemma {:induction false} ReplayAboveAll<S, I, O, N>(sv: Service<S, I, O, N>, m: Machine<S>, frames: seq<Frame>, from: nat)
    requires forall i :: 0 <= i < |frames| ==> frames[i].seqno > from
    ensures ReplayAbove(sv, m, frames, from) == Replay(sv, m, frames)
    decreases |frames|
  {
    hide ReplayStep;
    if frames != [] {
      var step := ReplayStep(sv, m, frames[0]);
      if step.Some? {
        ReplayAboveAll(sv, step.value, frames[1..], from);
      }
    }
  }

  /** Reading the journal back gives the history from the first surviving seq. */
  lemma ReadBack(log: Log, hist: seq<Frame>)
    requires LogOk(log, hist)
    ensures 1 <= Start(log) <= |hist| + 1
    ensures FramesOf(log.segs) == hist[Start(log) - 1..]
  {
    StartInside(log, hist);
    if log.segs != [] {
      FramesOfHist(log.segs, hist);
    } else {
      assert hist[0..] == [];
    }
  }

  /** What the disk holds of the history. */
  lemma FramesOnDisk(log: Log, hist: seq<Frame>)
    requires LogOk(log, hist) && Numbered(hist)
    ensures 1 <= Start(log) <= |hist| + 1
    ensures FramesOf(log.segs) == hist[Start(log) - 1..]
    ensures FirstSeq(log) == Start(log)
  {
    hide FramesOf;
    ReadBack(log, hist);
    var frames := FramesOf(log.segs);
    assert frames != [] ==> frames[0] == hist[Start(log) - 1];
  }

  /** From any base, the surviving tail above the anchor is what is replayed. */
  lemma TailAbove<S, I, O, N>(sv: Service<S, I, O, N>, base: Machine<S>, hist: seq<Frame>, tail: nat, start: nat, from: nat)
    requires Numbered(hist) && tail <= |hist| && from <= |hist|
    requires 1 <= start <= from + 1 && start <= tail + 1
    ensures var tip := if tail < from then from else tail;
            ReplayAbove(sv, base, hist[..tail][start - 1..], from) == Replay(sv, base, hist[..tip][from..])
  {
    hide Replay, ReplayAbove;
    var tip := if tail < from then from else tail;
    var frames := hist[..tail][start - 1..];
    var k := if from < tail then from + 1 - start else |frames|;
    assert frames == frames[..k] + frames[k..];
    ReplayAboveSkips(sv, base, frames[..k], frames[k..], from);
    if from < tail {
      assert frames[k..] == hist[..tip][from..];
    } else {
      assert hist[..tip][from..] == [] && frames[k..] == [];
    }
  }

  /** Anchor plus tail is like the replay of the surviving history, for any
      anchor like the replay of the frames it covers. */
  lemma AnchorAndTail<S(!new), I(!new), O, N>(sv: Service<S, I, O, N>, base: Machine<S>, hist: seq<Frame>, tail: nat, start: nat, from: nat)
    requires Lawful(sv)
    requires Numbered(hist) && tail <= |hist| && from <= |hist|
    requires 1 <= start <= from + 1 && start <= tail + 1
    requires Replay(sv, Genesis(sv), hist).Some? && Replay(sv, Genesis(sv), hist[..from]).Some?
    requires Same(sv, Replay(sv, Genesis(sv), hist[..from]).value, base)
    ensures var tip := if tail < from then from else tail;
            var r := ReplayAbove(sv, base, hist[..tail][start - 1..], from);
            && Replay(sv, Genesis(sv), hist[..tip]).Some?
            && r.Some? && Same(sv, Replay(sv, Genesis(sv), hist[..tip]).value, r.value)
  {
    hide Lawful, Replay, ReplayAbove, Same;
    var g := Genesis(sv);
    var tip := if tail < from then from else tail;
    ReplayPrefix(sv, g, hist, tip);
    ReplayPrefix(sv, g, hist[..tip], from);
    assert hist[..tip][..from] == hist[..from];
    TailAbove(sv, base, hist, tail, start, from);
    ReplaySame(sv, Replay(sv, g, hist[..from]).value, base, hist[..tip][from..]);
  }

  lemma ReplayNothing<S, I, O, N>(sv: Service<S, I, O, N>, m: Machine<S>)
    ensures Replay(sv, m, []) == Some(m)
  {
  }

  // ----- reopening -----

  /** Nothing is above the tip when the newest snapshot is not. */
  lemma PurgeKeepsAll(snaps: map<nat, seq<byte>>, tip: nat)
    requires HighWater(snaps) <= tip
    ensures Purge(snaps, tip) == snaps
  {
    forall s | s in snaps
      ensures s <= tip
    {
      HighWaterAbove(snaps, s);
    }
  }

  lemma SnapsOfPrefix<S, I, O, N>(sv: Service<S, I, O, N>, snaps: map<nat, seq<byte>>, hist: seq<Frame>, tip: nat)
    requires SnapsOk(sv, snaps, hist)
    requires HighWater(snaps) <= tip <= |hist|
    ensures SnapsOk(sv, snaps, hist[..tip])
  {
    hide Replay, Usable, Same;
    forall s | s in snaps
      ensures SnapOk(sv, s, snaps[s], hist[..tip])
    {
      HighWaterAbove(snaps, s);
      assert SnapOk(sv, s, snaps[s], hist);
      assert hist[..tip][..s] == hist[..s];
    }
  }

  /** The journal as power loss leaves it. */
  lemma LossOk(log: Log, hist: seq<Frame>, kept: nat) returns (tail: nat)
    requires LogOk(log, hist) && MayKeep(log, kept)
    ensures tail <= |hist|
    ensures var r := Reopen(AfterLoss(log, kept));
            && LogOk(r, hist[..tail])
            && r.segs == AfterLoss(log, kept)
            && Start(r) == Start(log)
            && DurableEnd(log) <= DurableEnd(r) == tail
  {
    hide FramesOf;
    if log.segs == [] {
      tail := 0;
      assert hist[..0] == hist;
    } else {
      CutOk(log, hist, kept);
      tail := Active(log.segs).first - 1 + kept;
    }
  }

  /** The journal once recovery has anchored at `from`. */
  lemma SeatedOk(log: Log, hist: seq<Frame>, tail: nat, from: nat)
    requires tail <= |hist| && from <= |hist|
    requires LogOk(log, hist[..tail]) && DurableEnd(log) == tail
    ensures var tip := if tail < from then from else tail;
            var r := if from > log.last then Reseat(log, tip + 1) else log;
            && LogOk(r, hist[..tip])
            && DurableEnd(r) == tip
            && Start(r) == (if from > tail then tip + 1 else Start(log))
  {
    if from > tail {
      ReseatOk(log, hist[..tail], hist[..from]);
    }
  }

  lemma HistPrefixOk<S, I, O, N>(sv: Service<S, I, O, N>, hist: seq<Frame>, tip: nat)
    requires Numbered(hist) && tip <= |hist|
    requires forall i :: 0 <= i < |hist| ==> WellFormed(sv, hist[i])
    ensures Numbered(hist[..tip])
    ensures forall i :: 0 <= i < tip ==> WellFormed(sv, hist[..tip][i])
  {
    hide WellFormed;
  }

  lemma WheelsFitPrefix<S, I, O, N>(sv: Service<S, I, O, N>, hist: seq<Frame>, tip: nat)
    requires WheelsFit(sv, hist) && tip <= |hist|
    ensures WheelsFit(sv, hist[..tip])
  {
    hide Replay, WheelFits;
    forall k | 0 <= k <= tip
      ensures Replay(sv, Genesis(sv), hist[..tip][..k]).Some? && WheelFits(Replay(sv, Genesis(sv), hist[..tip][..k]).value.wheel)
    {
      assert hist[..tip][..k] == hist[..k];
    }
  }

  /** What recovery starts from: the newest snapshot, or genesis when there is
      none and history starts at 1. */
  lemma AnchorBase<S(!new), I(!new), O, N>(sv: Service<S, I, O, N>, snaps: map<nat, seq<byte>>, hist: seq<Frame>, start: nat, tip: nat)
    requires Lawful(sv) && SnapsOk(sv, snaps, hist) && Covered(start, snaps) && start >= 1 && HighWater(snaps) <= tip
    ensures var a := ChooseAnchor(sv, snaps, start, tip);
            var base := if a.Some? then a.value.1 else Genesis(sv);
            var from := HighWater(snaps);
            && (a.Some? ==> a.value.0 == from) && (a.None? ==> from == 0 && start <= 1)
            && from <= |hist| && start <= from + 1
            && Replay(sv, Genesis(sv), hist[..from]).Some? && Same(sv, Replay(sv, Genesis(sv), hist[..from]).value, base)
  {
    hide Lawful, ChooseAnchor, Replay, SnapsOk, HighWater, Covered, Same;
    AnchorIsNewest(sv, snaps, hist, start, tip);
    CoveredFrom(start, snaps);
    assert hist[..0] == [];
    ReplayNothing(sv, Genesis(sv));
    SameSelf(sv, Genesis(sv));
  }

  /** What the anchor and the surviving tail replay to. */
  lemma LossReplay<S(!new), I(!new), O, N>(sv: Service<S, I, O, N>, n: Node<S>, hist: seq<Frame>, tail: nat, log: Log)
    requires Lawful(sv) && NodeOk(sv, n, hist)
    requires tail <= |hist| && LogOk(log, hist[..tail]) && Start(log) == Start(n.log)
    ensures var from := HighWater(n.snaps);
            var tip := if tail < from then from else tail;
            var anchor := ChooseAnchor(sv, n.snaps, FirstSeq(log), tip);
            && log.last == tail
            && from <= |hist|
            && (anchor.Some? ==> anchor.value.0 == from)
            && (anchor.None? ==> from == 0 && FirstSeq(log) <= 1)
            && var r := ReplayAbove(sv, if anchor.Some? then anchor.value.1 else Genesis(sv), FramesOf(log.segs), from);
               && Replay(sv, Genesis(sv), hist[..tip]).Some?
               && r.Some? && Same(sv, Replay(sv, Genesis(sv), hist[..tip]).value, r.value)
  {
    hide Lawful, ChooseAnchor, Replay, ReplayAbove, WellFormed, FirstSeq, FramesOf, LogOk, SnapsOk, Start, HighWater, Covered, Numbered, WheelsFit, Same;
    var from := HighWater(n.snaps);
    var tip := if tail < from then from else tail;
    SnapsBelow(sv, n.snaps, hist);
    TailOnDisk(sv, n, hist, tail, log);
    AnchorBase(sv, n.snaps, hist, Start(log), tip);
    var anchor := ChooseAnchor(sv, n.snaps, FirstSeq(log), tip);
    AnchorAndTail(sv, if anchor.Some? then anchor.value.1 else Genesis(sv), hist, tail, Start(log), from);
  }

  lemma CoveredFrom(start: nat, snaps: map<nat, seq<byte>>)
    requires Covered(start, snaps)
    ensures start <= HighWater(snaps) + 1
    ensures snaps.Keys == {} ==> HighWater(snaps) == 0
  {
  }

  lemma TailOnDisk<S, I, O, N>(sv: Service<S, I, O, N>, n: Node<S>, hist: seq<Frame>, tail: nat, log: Log)
    requires DiskOk(sv, n, hist)
    requires tail <= |hist| && LogOk(log, hist[..tail]) && Start(log) == Start(n.log)
    ensures log.last == tail
    ensures 1 <= Start(log) <= tail + 1
    ensures FramesOf(log.segs) == hist[..tail][Start(log) - 1..]
    ensures FirstSeq(log) == Start(log)
    ensures Covered(Start(log), n.snaps)
  {
    hide WellFormed, SnapsOk, FramesOf, FirstSeq;
    HistPrefixOk(sv, hist, tail);
    FramesOnDisk(log, hist[..tail]);
  }

  /** What opening does, once the anchor and its replay are known. */
  lemma OpenedAs<S, I, O, N>(sv: Service<S, I, O, N>, segs: seq<Seg>, snaps: map<nat, seq<byte>>, readings: nat, appends: nat)
    requires var log := Reopen(segs);
             var from := HighWater(snaps);
             var tip := if log.last < from then from else log.last;
             var anchor := ChooseAnchor(sv, snaps, FirstSeq(log), tip);
             && (anchor.Some? ==> anchor.value.0 == from)
             && (anchor.None? ==> from == 0 && FirstSeq(log) <= 1)
             && ReplayAbove(sv, if anchor.Some? then anchor.value.1 else Genesis(sv), FramesOf(segs), from).Some?
    ensures var log := Reopen(segs);
            var from := HighWater(snaps);
            var tip := if log.last < from then from else log.last;
            var anchor := ChooseAnchor(sv, snaps, FirstSeq(log), tip);
            var m := ReplayAbove(sv, if anchor.Some? then anchor.value.1 else Genesis(sv), FramesOf(segs), from).value;
            OpenNode(sv, segs, snaps, readings, appends)
            == Opened(Node(m, if from > log.last then Reseat(log, tip + 1) else log, snaps, tip,
                           LastStamp(FramesOf(segs)), readings, appends))
  {
    var log := Reopen(segs);
    PurgeKeepsAll(snaps, if log.last < HighWater(snaps) then HighWater(snaps) else log.last);
    hide ChooseAnchor, ReplayAbove, Reopen, Reseat, FirstSeq, FramesOf, LastStamp, HighWater, Purge;
  }

  /** Power loss at any point: reopening succeeds, at a tip no lower than
      anything synced or snapshotted, in a state like the one that replaying
      the first `tip` frames of the live history gives. */
  lemma PowerLossOk<S(!new), I(!new), O, N>(sv: Service<S, I, O, N>, n: Node<S>, hist: seq<Frame>, kept: nat)
    requires Lawful(sv) && NodeOk(sv, n, hist) && MayKeep(n.log, kept)
    ensures var r := DoPowerLoss(sv, n, kept);
            && r.Opened?
            && Durable(n) <= r.node.seqno <= |hist|
            && NodeOk(sv, r.node, hist[..r.node.seqno])
            && Durable(r.node) == r.node.seqno
            && r.node.snaps == n.snaps
  {
    hide Lawful, Replay, ReplayAbove, ChooseAnchor, LogOk, SnapsOk, Reopen, Reseat, AfterLoss, WellFormed, FramesOf, DurableEnd, Start, FirstSeq, LastStamp, HighWater, Purge, OpenNode, WheelsFit, Covered, Numbered, Same;
    var tail := LossOk(n.log, hist, kept);
    var segs := AfterLoss(n.log, kept);
    var log := Reopen(segs);
    var from := HighWater(n.snaps);
    var tip := if tail < from then from else tail;
    SnapsBelow(sv, n.snaps, hist);
    LossReplay(sv, n, hist, tail, log);
    OpenedAs(sv, segs, n.snaps, n.readings, n.appends);
    var r := DoPowerLoss(sv, n, kept);
    SeatedOk(log, hist, tail, from);
    SnapsOfPrefix(sv, n.snaps, hist, tip);
    HistPrefixOk(sv, hist, tip);
    WheelsFitPrefix(sv, hist, tip);
    StillCovered(n.snaps, Start(n.log), Start(r.node.log), from > tail, tip);
  }

  lemma StillCovered(snaps: map<nat, seq<byte>>, start: nat, seated: nat, reseat: bool, tip: nat)
    requires Covered(start, snaps)
    requires seated == if reseat then tip + 1 else start
    requires reseat ==> 0 < tip == HighWater(snaps)
    ensures Covered(seated, snaps)
  {
  }
}
