/** When the node can write: which appends are refused, and that nothing else
    about sequencing, snapshotting or firing ever fails. */
module NodeWrites {
  import opened Wrappers
  import opened Bytes
  import opened Frame
  import opened Segment
  import opened TimerWheel
  import opened Execution
  import opened Log
  import opened Sequencer

  // ----- appends fail only on a header-only segment -----

  /** The reopened writer counts earlier frames, its open segment is
      header-only, and the frame does not fit: it rolls onto its own name. */
  predicate Wedged(log: Log, len: nat, segmentBytes: nat) {
    log.segs != [] && Active(log.segs).frames == [] && log.count > 0 && HEADER_LEN + len > segmentBytes
  }

  /** The journal ends where the node is, and no snapshot is ahead of it. */
  ghost predicate Writable<S>(n: Node<S>, hist: seq<Frame>) {
    LogOk(n.log, hist) && n.seqno == |hist| && forall s :: s in n.snaps ==> s <= |hist|
  }

  /** Frames of `len` payload bytes, and marks, fit beside a segment header. */
  predicate FitsSegment(cfg: Config, len: nat) {
    2 * HEADER_LEN + len + 4 <= cfg.segmentBytes && 2 * HEADER_LEN + 12 <= cfg.segmentBytes
  }

  lemma SequenceFailsIff<S>(cfg: Config, n: Node<S>, hist: seq<Frame>, kind: FrameKind, payload: seq<byte>, at: nat)
    requires Writable(n, hist)
    ensures SequenceAt(cfg, n, kind, payload, at) == None <==> Wedged(n.log, HEADER_LEN + |payload| + 4, cfg.segmentBytes)
  {
    hide LogOk;
    var f := Stage(cfg, n, kind, payload, at);
    OneFrame(f, |hist| + 1);
    LastIs(n.log, hist);
    AppendFailsIff(n.log, hist, [f], cfg.segmentBytes, cfg.syncs(n.appends));
    hide AppendAll, Misplaced, EncodeAll;
  }

  lemma SequenceWrites<S>(cfg: Config, n: Node<S>, hist: seq<Frame>, kind: FrameKind, payload: seq<byte>, at: nat)
    requires Writable(n, hist) && SequenceAt(cfg, n, kind, payload, at).Some?
    ensures var s := SequenceAt(cfg, n, kind, payload, at).value;
            && Writable(s.node, hist + s.published)
            && s.published == [Stage(cfg, n, kind, payload, at)]
            && s.node.machine == n.machine && s.node.snaps == n.snaps && s.node.readings == n.readings
            && s.node.seqno == s.published[0].seqno && s.node.lastTime == s.published[0].timestamp
  {
    hide LogOk, AppendAll, Start, DurableEnd;
    AppendOk(n.log, hist, [Stage(cfg, n, kind, payload, at)], cfg.segmentBytes, cfg.syncs(n.appends));
  }

  /** Such journals are what a crash right after a roll leaves: nothing of the
      new segment survives, and from then on exactly the frames that do not
      fit beside its header are refused. */
  lemma CrashedRollWedges(log: Log, hist: seq<Frame>, f: Frame, segmentBytes: nat, sync: bool)
    requires LogOk(log, hist) && |log.segs| > 1 && Active(log.segs).durable == 0
    requires f.seqno == Active(log.segs).first
    ensures var r := Reopen(Cut(log.segs, 0));
            AppendAll(r, [f], segmentBytes, sync).NameTaken? <==> HEADER_LEN + f.EncodedLen() > segmentBytes
  {
    hide LogOk, FramesOf, EncodeAll, Misplaced, Cut, Reopen, NeedsRoll, Named, Write, Roll, Sync, DurableEnd, Start;
    ActiveStarts(log, hist);
    CutOk(log, hist, 0);
    var r := Reopen(Cut(log.segs, 0));
    var tail := Active(log.segs).first - 1;
    CutNone(log.segs);
    OneFrame(f, tail + 1);
    AppendFailsIff(r, hist[..tail], [f], segmentBytes, sync);
    LastIs(r, hist[..tail]);
    ClosedFrames(r, hist[..tail]);
  }

  lemma ActiveStarts(log: Log, hist: seq<Frame>)
    requires LogOk(log, hist) && log.segs != []
    ensures Active(log.segs).first >= 1
  {
    assert SegOk(log.segs[|log.segs| - 1], hist);
  }

  lemma CutNone(segs: seq<Seg>)
    requires segs != []
    ensures |Cut(segs, 0)| == |segs| && Active(Cut(segs, 0)).frames == []
  {
  }

  lemma OneFrame(f: Frame, next: nat)
    requires f.seqno == next
    ensures Misplaced([f], next) == None
    ensures |EncodeAll([f])| == f.EncodedLen()
  {
    assert [f][1..] == [] && Misplaced([], next + 1) == None;
    assert EncodeAll([]) == [] && EncodeAll([f]) == Encode(f) + [];
  }

  /** A journal with a closed segment has frames. */
  lemma ClosedFrames(log: Log, hist: seq<Frame>)
    requires |log.segs| > 1 && LogOk(log, hist)
    ensures |FramesOf(log.segs)| > 0
  {
    assert Linked(log.segs, 0);
  }

  lemma LastIs(log: Log, hist: seq<Frame>)
    requires LogOk(log, hist)
    ensures log.last == |hist|
  {
  }

  // ----- after a refusal -----

  /** The node has assigned more seqs than its journal has taken. */
  ghost predicate Stuck<S>(n: Node<S>, hist: seq<Frame>) {
    LogOk(n.log, hist) && n.seqno > |hist|
  }

  /** A refused frame has used up its seq, so the journal refuses every later
      frame as out of order, for good: only reopening helps. */
  lemma RefusedForGood<S>(cfg: Config, n: Node<S>, hist: seq<Frame>, kind: FrameKind, payload: seq<byte>, at: nat)
    requires Writable(n, hist) || Stuck(n, hist)
    requires SequenceAt(cfg, n, kind, payload, at) == None
    ensures Stuck(AfterRefusal(cfg, n, kind, payload, at), hist)
  {
    hide LogOk, AppendAll, Sync;
    var f := Stage(cfg, n, kind, payload, at);
    RefusedLog(n.log, hist, f, cfg.segmentBytes, cfg.syncs(n.appends));
  }

  lemma StuckRefuses<S>(cfg: Config, n: Node<S>, hist: seq<Frame>, kind: FrameKind, payload: seq<byte>, at: nat)
    requires Stuck(n, hist)
    ensures AppendAll(n.log, [Stage(cfg, n, kind, payload, at)], cfg.segmentBytes, cfg.syncs(n.appends))
            == OutOfOrder(|hist| + 1, n.seqno + 1)
    ensures SequenceAt(cfg, n, kind, payload, at) == None
  {
    LastIs(n.log, hist);
  }

  lemma RefusedLog(log: Log, hist: seq<Frame>, f: Frame, segmentBytes: nat, sync: bool)
    requires LogOk(log, hist)
    ensures AppendAll(log, [f], segmentBytes, sync).NameTaken? ==> LogOk(AppendAll(log, [f], segmentBytes, sync).log, hist)
  {
    SyncOk(log, hist);
    hide LogOk, Sync, EncodeAll, Write, Roll;
  }

  // ----- everything else succeeds -----

  lemma IdLen(id: nat)
    ensures |EncodeId(id)| == 8
  {
  }

  /** After a frame stamped `stamp` the clock was read at most once more, for a
      snapshot's mark, and time is the later of the two. */
  ghost predicate Clocked<S>(cfg: Config, readings: nat, stamp: nat, n: Node<S>) {
    || (n.readings == readings && n.lastTime == stamp)
    || (cfg.every.Some? && n.readings == readings + 1
        && n.lastTime == if cfg.clock(readings) < stamp then stamp else cfg.clock(readings))
  }

  lemma RetainWrites<S>(cfg: Config, n: Node<S>, hist: seq<Frame>)
    requires Writable(n, hist)
    ensures Writable(Retain(cfg, n), hist)
  {
    hide LogOk, Prune, Compact, Least;
    var kept := Prune(n.snaps, cfg.retain);
    if kept.Keys != {} {
      var oldest := Least(kept.Keys);
      CompactOk(n.log, hist, if oldest == 0 then 0 else oldest - 1);
    }
  }

  /** A snapshot never collides with an older file, and its mark is taken. */
  lemma SnapshotSucceeds<S, I, O, N>(sv: Service<S, I, O, N>, cfg: Config, n: Node<S>, hist: seq<Frame>)
    requires Writable(n, hist) && n.seqno !in n.snaps && 2 * HEADER_LEN + 12 <= cfg.segmentBytes
    ensures MaybeSnapshot(sv, cfg, n).Some?
    ensures var s := MaybeSnapshot(sv, cfg, n).value;
            && Writable(s.node, hist + s.published) && s.node.machine == n.machine
            && Clocked(cfg, n.readings, n.lastTime, s.node)
  {
    hide LogOk, SequenceAt, SnapshotImage, Retain, EncodeId;
    if OnCadence(cfg, n.seqno) {
      var w := n.(snaps := n.snaps[n.seqno := SnapshotImage(sv, n.machine, n.seqno)], readings := n.readings + 1);
      IdLen(n.seqno);
      SequenceFailsIff(cfg, w, hist, SnapshotMark, EncodeId(n.seqno), cfg.clock(n.readings));
      SequenceWrites(cfg, w, hist, SnapshotMark, EncodeId(n.seqno), cfg.clock(n.readings));
      var m := SequenceAt(cfg, w, SnapshotMark, EncodeId(n.seqno), cfg.clock(n.readings)).value;
      RetainWrites(cfg, m.node, hist + m.published);
      RetainLeaves(cfg, m.node);
    } else {
      assert hist + [] == hist;
    }
  }

  lemma RetainLeaves<S>(cfg: Config, n: Node<S>)
    ensures var r := Retain(cfg, n);
            && r.machine == n.machine && r.lastTime == n.lastTime && r.readings == n.readings && r.seqno == n.seqno
  {
    hide Prune, Compact, Least;
  }

  /** One frame that fits, whatever machine its application yields. */
  lemma FrameSucceeds<S, I, O, N>(sv: Service<S, I, O, N>, cfg: Config, n: Node<S>, hist: seq<Frame>,
                                  kind: FrameKind, payload: seq<byte>, at: nat, m: Machine<S>)
    requires Writable(n, hist) && FitsSegment(cfg, |payload|)
    ensures SequenceAt(cfg, n, kind, payload, at).Some?
    ensures var s := SequenceAt(cfg, n, kind, payload, at).value;
            var f := Stage(cfg, n, kind, payload, at);
            var t := Finish(sv, cfg, s.(node := s.node.(machine := m)));
            && s.node.machine == n.machine && s.node.seqno == f.seqno && s.node.lastTime == f.timestamp && s.published == [f]
            && t.Some? && t.value.node.machine == m
            && Writable(t.value.node, hist + t.value.published)
            && Clocked(cfg, n.readings, f.timestamp, t.value.node)
  {
    hide LogOk, SequenceAt, MaybeSnapshot;
    SequenceFailsIff(cfg, n, hist, kind, payload, at);
    SequenceWrites(cfg, n, hist, kind, payload, at);
    var s := SequenceAt(cfg, n, kind, payload, at).value;
    var x := s.node.(machine := m);
    assert x.seqno !in x.snaps;
    SnapshotSucceeds(sv, cfg, x, hist + s.published);
    var t := MaybeSnapshot(sv, cfg, x).value;
    assert hist + s.published + t.published == hist + (s.published + t.published);
  }

  lemma SubmitSucceeds<S, I, O, N>(sv: Service<S, I, O, N>, cfg: Config, n: Node<S>, hist: seq<Frame>, input: I)
    requires Writable(n, hist) && FitsSegment(cfg, |sv.encodeInput(input)|)
    ensures DoSubmit(sv, cfg, n, input).Some?
    ensures var s := DoSubmit(sv, cfg, n, input).value; Writable(s.node, hist + s.published)
  {
    hide LogOk, SequenceAt, Finish, Settle;
    var r, at := n.(readings := n.readings + 1), cfg.clock(n.readings);
    var f := Stage(cfg, r, Input, sv.encodeInput(input), at);
    FrameSucceeds(sv, cfg, r, hist, Input, sv.encodeInput(input), at,
                  Settle(sv.apply(n.machine.service, f.seqno, f.timestamp, input), n.machine.wheel, f.seqno));
  }

  /** What one turn of the firing loop does to a node that can write. */
  lemma FireSucceeds<S, I, O, N>(sv: Service<S, I, O, N>, cfg: Config, n: Node<S>, hist: seq<Frame>)
    requires Writable(n, hist) && FitsSegment(cfg, 8)
    requires NextDue(n.machine.wheel, n.lastTime).Some?
    ensures DoFire(sv, cfg, n).Some?
    ensures var s := DoFire(sv, cfg, n).value;
            var id := NextDue(n.machine.wheel, n.lastTime).value;
            var out := sv.onTimer(n.machine.service, n.seqno + 1, n.lastTime, id);
            && Writable(s.node, hist + s.published)
            && s.node.machine == Settle(out, n.machine.wheel - {id}, n.seqno + 1)
            && Clocked(cfg, n.readings, n.lastTime, s.node)
  {
    hide LogOk, SequenceAt, Finish, Settle, NextDue, EncodeId;
    var id := NextDue(n.machine.wheel, n.lastTime).value;
    IdLen(id);
    FrameSucceeds(sv, cfg, n, hist, TimerFired, EncodeId(id), n.lastTime,
                  Settle(sv.onTimer(n.machine.service, n.seqno + 1, n.lastTime, id), n.machine.wheel - {id}, n.seqno + 1));
  }

  lemma ControlSucceeds<S, I, O, N>(sv: Service<S, I, O, N>, cfg: Config, n: Node<S>, hist: seq<Frame>, kind: FrameKind, payload: seq<byte>)
    requires Writable(n, hist) && FitsSegment(cfg, |payload|)
    ensures DoControl(sv, cfg, n, kind, payload).Some?
    ensures var s := DoControl(sv, cfg, n, kind, payload).value; Writable(s.node, hist + s.published)
  {
    hide LogOk, SequenceAt, Finish;
    var r, at := n.(readings := n.readings + 1), cfg.clock(n.readings);
    FrameSucceeds(sv, cfg, r, hist, kind, payload, at, n.machine);
    var s := SequenceAt(cfg, r, kind, payload, at).value;
    assert s == s.(node := s.node.(machine := n.machine));
  }
}
