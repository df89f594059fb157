/** Sequenced time: every operation stamps at or after the last frame, and
    exactly when recovery keeps that promise. */
module SequencedTime {
  import opened Wrappers
  import opened Bytes
  import opened Frame
  import opened Segment
  import opened TimerWheel
  import opened Execution
  import opened Log
  import opened Sequencer
  import opened Recovery
  import opened NodeRuns
  import opened NodeWrites
  import opened NodeProgress

  /** Stamps never decrease along the history. */
  ghost predicate Timed(hist: seq<Frame>) {
    forall i, j :: 0 <= i < j < |hist| ==> hist[i].timestamp <= hist[j].timestamp
  }

  function Latest(hist: seq<Frame>): nat { LastStamp(hist) }

  /** The clock will be clamped at or above everything sequenced so far. */
  ghost predicate TimeOk<S>(n: Node<S>, hist: seq<Frame>) {
    Timed(hist) && Latest(hist) <= n.lastTime
  }

  lemma TimedAppend(hist: seq<Frame>, f: Frame)
    requires Timed(hist) && Latest(hist) <= f.timestamp
    ensures Timed(hist + [f]) && Latest(hist + [f]) == f.timestamp
  {
    forall i | 0 <= i < |hist|
      ensures hist[i].timestamp <= f.timestamp
    {
      assert hist[i].timestamp <= hist[|hist| - 1].timestamp;
    }
  }

  lemma SequenceTimed<S>(cfg: Config, n: Node<S>, hist: seq<Frame>, kind: FrameKind, payload: seq<byte>, at: nat)
    requires TimeOk(n, hist) && SequenceAt(cfg, n, kind, payload, at).Some?
    ensures var s := SequenceAt(cfg, n, kind, payload, at).value;
            TimeOk(s.node, hist + s.published)
  {
    hide AppendAll;
    TimedAppend(hist, Stage(cfg, n, kind, payload, at));
  }

  lemma SnapshotTimed<S, I, O, N>(sv: Service<S, I, O, N>, cfg: Config, n: Node<S>, hist: seq<Frame>)
    requires TimeOk(n, hist) && MaybeSnapshot(sv, cfg, n).Some?
    ensures var s := MaybeSnapshot(sv, cfg, n).value; TimeOk(s.node, hist + s.published)
  {
    hide SequenceAt, SnapshotImage, Prune, Compact, Least;
    if OnCadence(cfg, n.seqno) {
      var w := n.(snaps := n.snaps[n.seqno := SnapshotImage(sv, n.machine, n.seqno)]);
      SequenceTimed(cfg, w.(readings := w.readings + 1), hist, SnapshotMark, EncodeId(n.seqno), cfg.clock(w.readings));
    } else {
      assert hist + [] == hist;
    }
  }

  lemma FinishTimed<S, I, O, N>(sv: Service<S, I, O, N>, cfg: Config, s: Stepped<S>, hist: seq<Frame>)
    requires TimeOk(s.node, hist + s.published) && Finish(sv, cfg, s).Some?
    ensures TimeOk(Finish(sv, cfg, s).value.node, hist + Finish(sv, cfg, s).value.published)
  {
    hide MaybeSnapshot, Timed;
    var t := MaybeSnapshot(sv, cfg, s.node).value;
    SnapshotTimed(sv, cfg, s.node, hist + s.published);
    assert hist + s.published + t.published == hist + (s.published + t.published);
  }

  /** No operation of a live node lets sequenced time run backwards, whatever
      the clock says. */
  lemma NextTimed<S, I, O, N>(sv: Service<S, I, O, N>, cfg: Config, w: World<S>, a: Action<I>)
    requires TimeOk(w.node, w.hist) && Next(sv, cfg, w, a).Some? && !a.PowerLoss?
    ensures TimeOk(Next(sv, cfg, w, a).value.node, Next(sv, cfg, w, a).value.hist)
  {
    hide SequenceAt, Finish, Settle, NextDue, EncodeId, Timed, FencePayload;
    var n, hist := w.node, w.hist;
    var r, at := n.(readings := n.readings + 1), cfg.clock(n.readings);
    match a {
      case Submit(input) =>
        SequenceTimed(cfg, r, hist, Input, sv.encodeInput(input), at);
        var s := SequenceAt(cfg, r, Input, sv.encodeInput(input), at).value;
        var out := sv.apply(n.machine.service, s.node.seqno, s.node.lastTime, input);
        FinishTimed(sv, cfg, s.(node := s.node.(machine := Settle(out, n.machine.wheel, s.node.seqno))), hist);
      case Fire =>
        var id := NextDue(n.machine.wheel, n.lastTime).value;
        SequenceTimed(cfg, n, hist, TimerFired, EncodeId(id), n.lastTime);
        var s := SequenceAt(cfg, n, TimerFired, EncodeId(id), n.lastTime).value;
        var out := sv.onTimer(n.machine.service, s.node.seqno, s.node.lastTime, id);
        FinishTimed(sv, cfg, s.(node := s.node.(machine := Settle(out, n.machine.wheel - {id}, s.node.seqno))), hist);
      case Tick =>
        SequenceTimed(cfg, r, hist, FrameKind.Tick, [], at);
        FinishTimed(sv, cfg, SequenceAt(cfg, r, FrameKind.Tick, [], at).value, hist);
      case Fence(epoch) =>
        var payload := FencePayload(epoch, n.seqno + 1, sv.schema);
        SequenceTimed(cfg, r, hist, EpochChange, payload, at);
        FinishTimed(sv, cfg, SequenceAt(cfg, r, EpochChange, payload, at).value, hist);
      case SyncLog =>
    }
  }

  /** The last seq the journal still holds after power loss. */
  function Tail(log: Log, kept: nat): nat
    requires MayKeep(log, kept)
  {
    Reopen(AfterLoss(log, kept)).last
  }

  /** Recovery takes its clock from the last frame left in the journal, or from
      zero when none is left, even where the snapshot knows a later time. */
  lemma StampAfterLoss<S(!new), I(!new), O, N>(sv: Service<S, I, O, N>, n: Node<S>, hist: seq<Frame>, kept: nat)
    requires Lawful(sv) && NodeOk(sv, n, hist) && MayKeep(n.log, kept)
    ensures 1 <= Start(n.log) && Tail(n.log, kept) <= |hist|
    ensures DoPowerLoss(sv, n, kept).Opened?
    ensures var tail := Tail(n.log, kept);
            DoPowerLoss(sv, n, kept).node.lastTime == if tail < Start(n.log) then 0 else hist[tail - 1].timestamp
  {
    hide Lawful, LogOk, SnapsOk, Reopen, AfterLoss, WellFormed, FramesOf, DurableEnd, Start, FirstSeq, LastStamp, DoPowerLoss, MachineOk, Covered, Numbered;
    var tail := LossOk(n.log, hist, kept);
    var log := Reopen(AfterLoss(n.log, kept));
    TailOnDisk(sv, n, hist, tail, log);
    OpenedStamp(sv, n, hist, kept, tail);
    LatestOf(hist, tail, Start(log));
  }

  lemma OpenedStamp<S(!new), I(!new), O, N>(sv: Service<S, I, O, N>, n: Node<S>, hist: seq<Frame>, kept: nat, tail: nat)
    requires Lawful(sv) && NodeOk(sv, n, hist) && MayKeep(n.log, kept)
    requires tail <= |hist|
    requires var log := Reopen(AfterLoss(n.log, kept));
             LogOk(log, hist[..tail]) && Start(log) == Start(n.log) && log.segs == AfterLoss(n.log, kept)
    ensures DoPowerLoss(sv, n, kept).Opened?
    ensures DoPowerLoss(sv, n, kept).node.lastTime == LastStamp(FramesOf(AfterLoss(n.log, kept)))
  {
    hide Lawful, NodeOk, Replay, ReplayAbove, ChooseAnchor, LogOk, Reopen, Reseat, AfterLoss, FramesOf, Start, FirstSeq, LastStamp, HighWater, Purge, OpenNode;
    var segs := AfterLoss(n.log, kept);
    var from := HighWater(n.snaps);
    var tip := if tail < from then from else tail;
    LossReplay(sv, n, hist, tail, Reopen(segs));
    OpenedAs(sv, segs, n.snaps, n.readings, n.appends);
  }

  lemma LatestOf(hist: seq<Frame>, tail: nat, start: nat)
    requires 1 <= start <= tail + 1 && tail <= |hist|
    ensures LastStamp(hist[..tail][start - 1..]) == if tail < start then 0 else hist[tail - 1].timestamp
  {
  }

  /** Whatever the clock reads, the next frame is stamped at or after `latest`. */
  ghost predicate NeverBackwards<S>(cfg: Config, n: Node<S>, latest: nat) {
    forall kind, payload, at: nat :: Stage(cfg, n, kind, payload, at).timestamp >= latest
  }

  lemma ClampIsLastTime<S>(cfg: Config, n: Node<S>, latest: nat)
    ensures NeverBackwards(cfg, n, latest) <==> n.lastTime >= latest
  {
    assert Stage(cfg, n, FrameKind.Tick, [], 0).timestamp == n.lastTime;
  }

  /** After power loss, no clock reading can send time backwards exactly when
      the journal kept a frame stamped as late as the recovered history's
      last, or that history carries no time at all. */
  lemma TimeSurvivesIff<S(!new), I(!new), O, N>(sv: Service<S, I, O, N>, cfg: Config, n: Node<S>, hist: seq<Frame>, kept: nat)
    requires Lawful(sv) && NodeOk(sv, n, hist) && MayKeep(n.log, kept)
    ensures DoPowerLoss(sv, n, kept).Opened? && DoPowerLoss(sv, n, kept).node.seqno <= |hist|
    ensures Tail(n.log, kept) <= |hist|
    ensures var r, tail := DoPowerLoss(sv, n, kept).node, Tail(n.log, kept);
            var latest := Latest(hist[..r.seqno]);
            NeverBackwards(cfg, r, latest)
            <==> latest == 0 || (1 <= Start(n.log) <= tail && hist[tail - 1].timestamp >= latest)
  {
    hide Lawful, NodeOk, DoPowerLoss, Tail, MayKeep, Start, NeverBackwards;
    StampAfterLoss(sv, n, hist, kept);
    PowerLossOk(sv, n, hist, kept);
    var r := DoPowerLoss(sv, n, kept).node;
    ClampIsLastTime(cfg, r, Latest(hist[..r.seqno]));
  }

  // ----- a reachable run in which time runs backwards -----

  /** Snapshot after every frame, never sync, and a clock that is set back. */
  ghost predicate SetBack(cfg: Config) {
    && cfg.every == Some(1) && cfg.segmentBytes >= 1000
    && !cfg.syncs(0) && !cfg.syncs(1)
    && cfg.clock(0) == 5 && cfg.clock(1) == 5 && cfg.clock(2) == 3
  }

  lemma FirstAppend(cfg: Config, f: Frame)
    requires f.seqno == 1
    ensures AppendAll(NO_LOG, [f], cfg.segmentBytes, false) == Appended(Log([Seg(1, [f], 0)], 1, 1, true))
  {
    OneFrame(f, 1);
    hide EncodeAll, Misplaced;
    var rolled := Roll(NO_LOG, 1);
    assert rolled.segs == [Seg(1, [], 0)];
    assert Front(rolled.segs) == [];
    assert Seg(1, [], 0).frames + [f] == [f];
    assert Write(rolled, [f]).segs == [Seg(1, [f], 0)];
  }

  lemma SecondAppend(cfg: Config, f: Frame, g: Frame)
    requires f.seqno == 1 && g.seqno == 2 && |f.payload| <= 100 && |g.payload| == 8 && cfg.segmentBytes >= 1000
    ensures AppendAll(Log([Seg(1, [f], 0)], 1, 1, true), [g], cfg.segmentBytes, false) == Appended(Log([Seg(1, [f, g], 0)], 2, 2, true))
  {
    OneFrame(f, 1);
    OneFrame(g, 2);
    hide EncodeAll, Misplaced;
    var log := Log([Seg(1, [f], 0)], 1, 1, true);
    assert Active(log.segs) == Seg(1, [f], 0);
    assert !NeedsRoll(log, |EncodeAll([g])|, cfg.segmentBytes);
    assert Front(log.segs) == [] && [f] + [g] == [f, g];
    assert Write(log, [g]).segs == [Seg(1, [f, g], 0)];
  }

  /** The first frame, whatever it carries and makes of the machine, and the
      mark of the snapshot that follows it. */
  lemma FirstFrame<S, I, O, N>(sv: Service<S, I, O, N>, cfg: Config, kind: FrameKind, payload: seq<byte>, m: Machine<S>)
      returns (a: Node<S>, w: World<S>)
    requires SetBack(cfg) && |payload| <= 100
    ensures Sequence(cfg, Fresh(sv).node, kind, payload) == Some(Stepped(a, [Frame(1, 5, cfg.streamId, kind, payload)]))
    ensures a.machine == Genesis(sv) && a.seqno == 1 && a.lastTime == 5 && a.snaps == map[]
    ensures Finish(sv, cfg, Stepped(a.(machine := m), [Frame(1, 5, cfg.streamId, kind, payload)])) == Some(Stepped(w.node, w.hist))
    ensures |w.hist| == 2 && w.hist[0] == Frame(1, 5, cfg.streamId, kind, payload)
    ensures |w.node.log.segs| == 1 && w.node.log.segs[0].first == 1 && w.node.log.segs[0].durable == 0
    ensures HighWater(w.node.snaps) == 1 && w.node.readings == 2
  {
    hide AppendAll, SnapshotImage, EncodeId;
    var n := Fresh(sv).node;
    IdLen(1);
    var f := Frame(1, 5, cfg.streamId, kind, payload);
    var g := Frame(2, 5, cfg.streamId, SnapshotMark, EncodeId(1));
    FirstAppend(cfg, f);
    SecondAppend(cfg, f, g);
    a := n.(log := Log([Seg(1, [f], 0)], 1, 1, true), seqno := 1, lastTime := 5, readings := 1, appends := 1);
    assert Sequence(cfg, n, kind, payload) == Some(Stepped(a, [f]));
    var x := a.(machine := m);
    var snaps := n.snaps[1 := SnapshotImage(sv, m, 1)];
    var b := x.(snaps := snaps, log := Log([Seg(1, [f, g], 0)], 2, 2, true), seqno := 2, readings := 2, appends := 2);
    assert Sequence(cfg, x.(snaps := snaps), SnapshotMark, EncodeId(1)) == Some(Stepped(b, [g]));
    OneSnapshot(snaps, cfg.retain);
    assert Retain(cfg, b) == b;
    w := World(b, [f, g]);
    assert MaybeSnapshot(sv, cfg, x) == Some(Stepped(b, [g]));
    assert [f] + [g] == [f, g];
  }

  lemma OneSnapshot(snaps: map<nat, seq<byte>>, keep: nat)
    requires snaps.Keys == {1}
    ensures Prune(snaps, keep) == snaps && HighWater(snaps) == 1 && Least(snaps.Keys) == 1
  {
    assert |snaps.Keys| == |snaps|;
  }

  lemma SetBackLoss<S(!new), I(!new), O, N>(sv: Service<S, I, O, N>, w: World<S>) returns (v: World<S>)
    requires Lawful(sv) && WorldOk(sv, w)
    requires |w.hist| == 2 && |w.node.log.segs| == 1 && w.node.log.segs[0].first == 1 && w.node.log.segs[0].durable == 0
    requires HighWater(w.node.snaps) == 1
    ensures MayKeep(w.node.log, 0) && DoPowerLoss(sv, w.node, 0) == Opened(v.node)
    ensures v.node.lastTime == 0 && v.node.seqno == 1 && v.node.readings == w.node.readings
    ensures v.hist == w.hist[..1] && WorldOk(sv, v) && v.node.snaps == w.node.snaps
  {
    hide Lawful, OpenNode, HighWater, Replay, ReplayAbove, ChooseAnchor, LogOk, SnapsOk, WellFormed, Numbered, Covered, WheelFits, Reopen, AfterLoss, FramesOf, Start, FirstSeq, Reseat, LastStamp;
    var n := w.node;
    NothingKept(n.log, w.hist);
    var segs := AfterLoss(n.log, 0);
    PowerLossOk(sv, n, w.hist, 0);
    LossReplay(sv, n, w.hist, 0, Reopen(segs));
    OpenedAs(sv, segs, n.snaps, n.readings, n.appends);
    StampAfterLoss(sv, n, w.hist, 0);
    v := World(DoPowerLoss(sv, n, 0).node, w.hist[..1]);
  }

  lemma NothingKept(log: Log, hist: seq<Frame>)
    requires LogOk(log, hist) && |log.segs| == 1 && log.segs[0].first == 1 && log.segs[0].durable == 0
    ensures MayKeep(log, 0)
    ensures var r := Reopen(AfterLoss(log, 0));
            r.last == 0 && LogOk(r, hist[..0]) && Start(r) == Start(log) == 1 && r.segs == AfterLoss(log, 0)
  {
    hide FramesOf, EncodeAll;
    var tail := LossOk(log, hist, 0);
    assert AfterLoss(log, 0) == [log.segs[0].(frames := [], durable := 0)];
  }

  /** A frame that leaves the machine alone and fits succeeds and is taken. */
  lemma TickTaken<S(!new), I(!new), O, N>(sv: Service<S, I, O, N>, cfg: Config, w: World<S>)
    requires Lawful(sv) && WorldOk(sv, w) && |w.hist| < 100 && FitsSegment(cfg, 0)
    requires Fitting(sv, w.node.machine) && SnapshotsFit(w.node.snaps)
    ensures DoControl(sv, cfg, w.node, FrameKind.Tick, []).Some?
    ensures var t := DoControl(sv, cfg, w.node, FrameKind.Tick, []).value;
            && Next(sv, cfg, w, Action.Tick) == Some(World(t.node, w.hist + t.published))
            && t.node.machine == w.node.machine && SnapshotsFit(t.node.snaps)
  {
    hide Lawful, NodeOk, DoControl, Fitting, Next;
    NextSucceeds(sv, cfg, w, Action.Tick);
    ControlRoomy(sv, cfg, w.node, FrameKind.Tick, []);
  }

  /** Tick at time 5, lose power with nothing synced, tick again: the snapshot
      keeps frame 1 but the journal keeps no stamp, so frame 2 is stamped 3. */
  lemma TimeRunsBackwards<S(!new), I(!new), O, N>(sv: Service<S, I, O, N>, cfg: Config)
    requires Lawful(sv) && Exact(sv) && Fitting(sv, Genesis(sv)) && SetBack(cfg)
    ensures var run := RunAll(sv, cfg, Fresh(sv), [Action.Tick, PowerLoss(0), Action.Tick]);
            run.Some? && |run.value.hist| >= 2 && run.value.hist[0].timestamp == 5 && run.value.hist[1].timestamp == 3
  {
    hide Lawful, NodeOk, HighWater, DoPowerLoss, Finish, SequenceAt, Fitting, Exact;
    FreshOpens(sv);
    var a, w := FirstFrame(sv, cfg, FrameKind.Tick, [], Genesis(sv));
    assert a.(machine := Genesis(sv)) == a;
    assert DoControl(sv, cfg, Fresh(sv).node, FrameKind.Tick, []) == Some(Stepped(w.node, w.hist));
    hide DoControl;
    TickTaken(sv, cfg, Fresh(sv));
    assert [] + w.hist == w.hist;
    NextOk(sv, cfg, Fresh(sv), Action.Tick);
    var v := SetBackLoss(sv, w);
    StillGenesis(sv, w, v);
    TickTaken(sv, cfg, v);
    var u := Next(sv, cfg, v, Action.Tick).value;
    var stamped := Frame(2, 3, cfg.streamId, FrameKind.Tick, []);
    ControlFirst(sv, cfg, v.node, FrameKind.Tick, []);
    assert u.hist[1] == stamped;
    RunThree(sv, cfg, Fresh(sv), Action.Tick, PowerLoss(0), Action.Tick, w, v, u);
  }

  lemma StillGenesis<S(!new), I(!new), O, N>(sv: Service<S, I, O, N>, w: World<S>, v: World<S>)
    requires Exact(sv) && WorldOk(sv, v)
    requires |w.hist| == 2 && w.hist[0].kind == FrameKind.Tick && v.hist == w.hist[..1]
    ensures v.node.machine == Genesis(sv)
  {
    hide DiskOk, WheelsFit;
    ReplayOne(sv, Genesis(sv), w.hist[0]);
    assert v.hist == [w.hist[0]];
  }

  lemma ControlFirst<S, I, O, N>(sv: Service<S, I, O, N>, cfg: Config, n: Node<S>, kind: FrameKind, payload: seq<byte>)
    requires DoControl(sv, cfg, n, kind, payload).Some?
    ensures var p := DoControl(sv, cfg, n, kind, payload).value.published;
            p != [] && p[0] == Stage(cfg, n, kind, payload, cfg.clock(n.readings))
  {
    hide SequenceAt, MaybeSnapshot;
    SequenceLeaves(cfg, n.(readings := n.readings + 1), kind, payload, cfg.clock(n.readings));
  }
}
