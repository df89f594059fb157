/** Every operation of the node keeps its invariant: the journal is a gapless
    stretch of the history, every snapshot is the replay of a prefix, recovery
    always has a base, and service and wheel are like the replay of the history. */
module NodeInvariant {
  import opened Wrappers
  import opened Bytes
  import opened Frame
  import opened TimerWheel
  import opened Execution
  import opened SnapshotFile
  import opened Log
  import opened Sequencer

  // ----- sequencing one frame -----

  lemma SnapsExtend<S, I, O, N>(sv: Service<S, I, O, N>, snaps: map<nat, seq<byte>>, hist: seq<Frame>, more: seq<Frame>)
    requires SnapsOk(sv, snaps, hist)
    ensures SnapsOk(sv, snaps, hist + more)
  {
    hide Replay, Usable, Same;
    forall s | s in snaps
      ensures SnapOk(sv, s, snaps[s], hist + more)
    {
      assert SnapOk(sv, s, snaps[s], hist);
      assert (hist + more)[..s] == hist[..s];
    }
  }

  lemma SequenceOk<S, I, O, N>(sv: Service<S, I, O, N>, cfg: Config, n: Node<S>, hist: seq<Frame>, kind: FrameKind, payload: seq<byte>, at: nat)
    requires DiskOk(sv, n, hist)
    requires |hist| + 1 < U64_LIMIT
    requires WellFormed(sv, Stage(cfg, n, kind, payload, at))
    requires SequenceAt(cfg, n, kind, payload, at).Some?
    ensures var s := SequenceAt(cfg, n, kind, payload, at).value;
            && s.published == [Stage(cfg, n, kind, payload, at)]
            && DiskOk(sv, s.node, hist + s.published)
            && s.node.machine == n.machine && s.node.snaps == n.snaps
            && Start(s.node.log) == Start(n.log)
            && Durable(n) <= Durable(s.node)
  {
    hide WellFormed, SnapsOk, LogOk, AppendAll, Start, DurableEnd, HighWater;
    var f := Stage(cfg, n, kind, payload, at);
    AppendOk(n.log, hist, [f], cfg.segmentBytes, cfg.syncs(n.appends));
    SnapsExtend(sv, n.snaps, hist, [f]);
  }

  // ----- applying one frame -----

  lemma WheelsFitNext<S, I, O, N>(sv: Service<S, I, O, N>, hist: seq<Frame>, f: Frame)
    requires WheelsFit(sv, hist)
    requires Replay(sv, Genesis(sv), hist + [f]).Some? && WheelFits(Replay(sv, Genesis(sv), hist + [f]).value.wheel)
    ensures WheelsFit(sv, hist + [f])
  {
    hide Replay, WheelFits;
    var next := hist + [f];
    forall k | 0 <= k <= |next|
      ensures Replay(sv, Genesis(sv), next[..k]).Some? && WheelFits(Replay(sv, Genesis(sv), next[..k]).value.wheel)
    {
      if k <= |hist| {
        assert next[..k] == hist[..k];
      } else {
        assert next[..k] == next;
      }
    }
  }

  lemma Extended<S(!new), I(!new), O, N>(sv: Service<S, I, O, N>, m: Machine<S>, hist: seq<Frame>, f: Frame, next: Machine<S>)
    requires Lawful(sv) && MachineOk(sv, m, hist)
    requires ReplayStep(sv, m, f) == Some(next) && WheelFits(next.wheel)
    ensures MachineOk(sv, next, hist + [f])
  {
    hide Lawful, ReplayStep, Replay, WheelFits;
    var r := Replay(sv, Genesis(sv), hist).value;
    ReplayAppend(sv, Genesis(sv), hist, [f]);
    ReplayOne(sv, r, f);
    StepSame(sv, r, m, f);
    WheelsFitNext(sv, hist, f);
  }

  /** Live application of an input is its replay. */
  lemma InputApplied<S(!new), I(!new), O, N>(sv: Service<S, I, O, N>, m: Machine<S>, hist: seq<Frame>, f: Frame, input: I)
    requires Lawful(sv) && MachineOk(sv, m, hist) && sv.encodable(input)
    requires f.kind == Input && f.payload == sv.encodeInput(input)
    requires WheelFits(Settle(sv.apply(m.service, f.seqno, f.timestamp, input), m.wheel, f.seqno).wheel)
    ensures MachineOk(sv, Settle(sv.apply(m.service, f.seqno, f.timestamp, input), m.wheel, f.seqno), hist + [f])
  {
    hide Replay, WheelFits, WheelsFit, Requests, Same;
    var out := sv.apply(m.service, f.seqno, f.timestamp, input);
    Extended(sv, m, hist, f, Settle(out, m.wheel, f.seqno));
  }

  lemma WheelFitsNow<S, I, O, N>(sv: Service<S, I, O, N>, m: Machine<S>, hist: seq<Frame>)
    requires MachineOk(sv, m, hist)
    ensures WheelFits(m.wheel)
  {
    hide Replay, WheelFits;
    assert hist[..|hist|] == hist;
  }

  /** A live firing, popped before the handler runs, is its replay: a handler
      that re-arms its own id keeps the new timer in both. */
  lemma FiringApplied<S(!new), I(!new), O, N>(sv: Service<S, I, O, N>, m: Machine<S>, hist: seq<Frame>, f: Frame, id: nat)
    requires Lawful(sv) && MachineOk(sv, m, hist)
    requires id in m.wheel
    requires f.kind == TimerFired && f.payload == EncodeId(id)
    requires WheelFits(Settle(sv.onTimer(m.service, f.seqno, f.timestamp, id), m.wheel - {id}, f.seqno).wheel)
    ensures MachineOk(sv, Settle(sv.onTimer(m.service, f.seqno, f.timestamp, id), m.wheel - {id}, f.seqno), hist + [f])
  {
    WheelFitsNow(sv, m, hist);
    IdRoundTrip(id);
    hide Lawful, Replay, WheelFits, WheelsFit, Requests, EncodeId, DecodeId, Same;
    var out := sv.onTimer(m.service, f.seqno, f.timestamp, id);
    Extended(sv, m, hist, f, Settle(out, m.wheel - {id}, f.seqno));
  }

  lemma ControlApplied<S(!new), I(!new), O, N>(sv: Service<S, I, O, N>, m: Machine<S>, hist: seq<Frame>, f: Frame)
    requires Lawful(sv) && MachineOk(sv, m, hist)
    requires f.kind != Input && f.kind != TimerFired
    ensures MachineOk(sv, m, hist + [f])
  {
    hide Lawful, MachineOk, WheelFits;
    WheelFitsNow(sv, m, hist);
    Extended(sv, m, hist, f, m);
  }

  // ----- retention -----

  /** Removing the oldest of several snapshots keeps the newest: this is every
      state between two removals of a prune. */
  lemma OldestGone(snaps: map<nat, seq<byte>>, start: nat)
    requires |snaps| > 1 && snaps.Keys != {}
    ensures var rest := snaps - {Least(snaps.Keys)};
            && rest.Keys != {}
            && HighWater(rest) == HighWater(snaps)
            && (Covered(start, snaps) ==> Covered(start, rest))
  {
    var oldest := Least(snaps.Keys);
    var rest := snaps - {oldest};
    assert rest.Keys == snaps.Keys - {oldest};
    assert |snaps.Keys| == |snaps|;
    assert |rest.Keys| == |snaps.Keys| - 1;
    var newest := Greatest(snaps.Keys);
    var x :| x in rest.Keys;
    assert oldest < x <= newest;
    assert IsGreatest(rest.Keys, newest);
  }

  lemma {:induction false} PruneKeeps(snaps: map<nat, seq<byte>>, keep: nat)
    ensures var r := Prune(snaps, keep);
            && (forall s :: s in r ==> s in snaps && r[s] == snaps[s])
            && HighWater(r) == HighWater(snaps)
            && (snaps.Keys != {} ==> r.Keys != {})
    decreases |snaps|
  {
    hide HighWater, Least;
    assert |snaps.Keys| == |snaps|;
    if |snaps| > 1 && |snaps| > keep {
      assert snaps.Keys != {};
      var oldest := Least(snaps.Keys);
      Without(snaps, oldest);
      OldestGone(snaps, 1);
      PruneKeeps(snaps - {oldest}, keep);
    }
  }

  lemma PruneSnapsOk<S, I, O, N>(sv: Service<S, I, O, N>, snaps: map<nat, seq<byte>>, keep: nat, hist: seq<Frame>)
    requires SnapsOk(sv, snaps, hist) && snaps.Keys != {}
    ensures var r := Prune(snaps, keep);
            && SnapsOk(sv, r, hist)
            && HighWater(r) == HighWater(snaps)
            && r.Keys != {}
            && Least(r.Keys) >= 1
  {
    hide SnapOk, Prune, HighWater, Least;
    var r := Prune(snaps, keep);
    PruneKeeps(snaps, keep);
    SnapPositive(sv, Least(r.Keys), r[Least(r.Keys)], hist);
  }

  /** Compaction never passes the oldest snapshot kept, so what it leaves is
      covered, and so is every state between two of its removals. */
  lemma RetainOk<S, I, O, N>(sv: Service<S, I, O, N>, cfg: Config, n: Node<S>, hist: seq<Frame>)
    requires DiskOk(sv, n, hist) && n.snaps.Keys != {}
    ensures var r := Retain(cfg, n);
            && DiskOk(sv, r, hist)
            && r.machine == n.machine
            && Durable(r) == Durable(n)
            && (AllUsable(n) ==> AllUsable(r))
  {
    hide LogOk, SnapsOk, Prune, WellFormed, Compact, HighWater, Start, DurableEnd, Least, Covered, Numbered, AllUsable;
    var kept := Prune(n.snaps, cfg.retain);
    var r := Retain(cfg, n);
    PruneSnapsOk(sv, n.snaps, cfg.retain, hist);
    CompactOk(n.log, hist, Least(kept.Keys) - 1);
    RetainCovers(n.snaps, kept, Start(n.log), Start(r.log));
    if AllUsable(n) {
      RetainUsable(n, r);
    }
  }

  lemma RetainUsable<S>(n: Node<S>, r: Node<S>)
    requires AllUsable(n) && r.snaps.Keys != {} && r.snaps.Keys <= n.snaps.Keys
    requires Start(r.log) == Start(n.log) || Start(r.log) <= Least(r.snaps.Keys)
    ensures AllUsable(r)
  {
    hide Start, Least;
    forall s | s in r.snaps
      ensures s + 1 >= Start(r.log)
    {
      assert Least(r.snaps.Keys) <= s && s in n.snaps;
    }
  }

  lemma RetainCovers(snaps: map<nat, seq<byte>>, kept: map<nat, seq<byte>>, start: nat, next: nat)
    requires kept.Keys != {} && HighWater(kept) == HighWater(snaps)
    requires Covered(start, snaps)
    requires next == start || next <= Least(kept.Keys)
    ensures Covered(next, kept)
  {
    hide Least;
    HighWaterAbove(kept, Least(kept.Keys));
  }

  lemma SnapPositive<S, I, O, N>(sv: Service<S, I, O, N>, s: nat, file: seq<byte>, hist: seq<Frame>)
    requires SnapOk(sv, s, file, hist)
    ensures 1 <= s <= |hist|
  {
  }

  lemma HighWaterAbove(snaps: map<nat, seq<byte>>, s: nat)
    requires s in snaps
    ensures s <= HighWater(snaps) && HighWater(snaps) in snaps
  {
    assert IsGreatest(snaps.Keys, HighWater(snaps));
  }

  lemma {:induction false} EntriesWithin(w: Wheel)
    requires WheelFits(w)
    ensures EntriesFit(Entries(w))
    decreases |w|
  {
    EntriesFrom(w);
    if w.Keys != {} {
      var id := Least(w.Keys);
      assert id in w;
      Without(w, id);
      var rest := w - {id};
      hide Entries, Least;
      EntriesWithin(rest);
      EntriesCount(w);
    }
  }

  lemma {:induction false} EntriesCount(w: Wheel)
    ensures |Entries(w)| == |w|
    decreases |w|
  {
    EntriesFrom(w);
    if w.Keys == {} {
      assert |w.Keys| == |w|;
    } else {
      var id := Least(w.Keys);
      Without(w, id);
      assert (w - {id}).Keys == w.Keys - {id};
      assert |(w - {id}).Keys| == |w.Keys| - 1;
      assert |w.Keys| == |w| && |(w - {id}).Keys| == |w - {id}|;
      hide Entries, Least;
      EntriesCount(w - {id});
    }
  }

  /** A snapshot file restores to a machine like the one it was taken of. */
  lemma SnapshotUsable<S(!new), I(!new), O, N>(sv: Service<S, I, O, N>, m: Machine<S>, s: nat)
    requires Lawful(sv) && sv.storable(m.service) && WheelFits(m.wheel)
    requires s < U64_LIMIT && |SnapshotImage(sv, m, s)| < SNAPSHOT_HEADER + U32_LIMIT + 4
    ensures Usable(sv, SnapshotImage(sv, m, s), 0, s).Some?
    ensures var u := Usable(sv, SnapshotImage(sv, m, s), 0, s).value; u.0 == s && Same(sv, m, u.1)
  {
    hide Parse, Image, Entries, Rearm;
    var payload := sv.encodeSnapshot(sv.snapshot(m.service), Entries(m.wheel));
    SnapshotRoundTrip(s, 0, payload);
    EntriesWithin(m.wheel);
    RearmEntries(m.wheel, map[]);
    assert map[] + m.wheel == m.wheel;
  }

  lemma WrittenIsOk<S(!new), I(!new), O, N>(sv: Service<S, I, O, N>, m: Machine<S>, hist: seq<Frame>)
    requires Lawful(sv) && MachineOk(sv, m, hist) && sv.storable(m.service)
    requires 1 <= |hist| < U64_LIMIT && |SnapshotImage(sv, m, |hist|)| < SNAPSHOT_HEADER + U32_LIMIT + 4
    ensures SnapOk(sv, |hist|, SnapshotImage(sv, m, |hist|), hist)
  {
    hide Lawful, Replay, WheelFits, WheelsFit, SnapshotImage, Usable, Same;
    WheelFitsNow(sv, m, hist);
    SnapshotUsable(sv, m, |hist|);
    assert hist[..|hist|] == hist;
    SameChain(sv, Replay(sv, Genesis(sv), hist).value, m, Usable(sv, SnapshotImage(sv, m, |hist|), 0, |hist|).value.1);
  }

  lemma SnapshotWritten<S(!new), I(!new), O, N>(sv: Service<S, I, O, N>, n: Node<S>, hist: seq<Frame>)
    requires Lawful(sv) && NodeOk(sv, n, hist) && hist != [] && sv.storable(n.machine.service)
    requires |SnapshotImage(sv, n.machine, n.seqno)| < SNAPSHOT_HEADER + U32_LIMIT + 4
    ensures var w := n.(snaps := n.snaps[n.seqno := SnapshotImage(sv, n.machine, n.seqno)]);
            && DiskOk(sv, w, hist)
            && Durable(n) <= Durable(w)
            && (AllUsable(n) ==> AllUsable(w))
  {
    hide Lawful, LogOk, MachineOk, WellFormed, SnapshotImage, SnapOk;
    var w := n.(snaps := n.snaps[n.seqno := SnapshotImage(sv, n.machine, n.seqno)]);
    WrittenIsOk(sv, n.machine, hist);
    forall s | s in w.snaps
      ensures SnapOk(sv, s, w.snaps[s], hist)
    {
      if s != n.seqno {
        assert SnapOk(sv, s, n.snaps[s], hist);
      }
    }
    HighWaterAbove(w.snaps, n.seqno);
    if n.snaps.Keys != {} {
      HighWaterAbove(n.snaps, HighWater(n.snaps));
      HighWaterAbove(w.snaps, HighWater(n.snaps));
    }
    StartInside(n.log, hist);
  }

  lemma StartInside(log: Log, hist: seq<Frame>)
    requires LogOk(log, hist)
    ensures 1 <= Start(log) <= |hist| + 1
  {
    if log.segs != [] {
      assert SegOk(log.segs[0], hist);
    }
  }

  /** The file just written is one of those kept. */
  lemma WrittenIsKept<S, I, O, N>(sv: Service<S, I, O, N>, snaps: map<nat, seq<byte>>, hist: seq<Frame>, file: seq<byte>, keep: nat)
    requires SnapsOk(sv, snaps, hist)
    ensures var r := Prune(snaps[|hist| := file], keep); |hist| in r && r[|hist|] == file
  {
    hide Prune, HighWater, SnapOk;
    var all := snaps[|hist| := file];
    PruneKeeps(all, keep);
    SnapsBelow(sv, snaps, hist);
    forall s | s in all
      ensures s <= |hist|
    {
      if s in snaps {
        HighWaterAbove(snaps, s);
      }
    }
    HighWaterAbove(all, |hist|);
    var k :| k in Prune(all, keep).Keys;
    HighWaterAbove(Prune(all, keep), k);
  }

  /** Snapshots and marks leave service and wheel alone. */
  lemma SnapshotLeaves<S, I, O, N>(sv: Service<S, I, O, N>, cfg: Config, n: Node<S>)
    requires MaybeSnapshot(sv, cfg, n).Some?
    ensures var s := MaybeSnapshot(sv, cfg, n).value;
            && s.node.machine == n.machine
            && (OnCadence(cfg, n.seqno) ==>
                  s.node.snaps == Prune(n.snaps[n.seqno := SnapshotImage(sv, n.machine, n.seqno)], cfg.retain))
  {
    hide AppendAll, Prune, Compact, SnapshotImage, Least;
  }

  lemma SnapshotOk<S(!new), I(!new), O, N>(sv: Service<S, I, O, N>, cfg: Config, n: Node<S>, hist: seq<Frame>)
    requires Lawful(sv) && NodeOk(sv, n, hist) && hist != []
    requires |hist| + 1 < U64_LIMIT
    requires MaybeSnapshot(sv, cfg, n).Some? && Roomy(sv, MaybeSnapshot(sv, cfg, n).value.node)
    ensures var s := MaybeSnapshot(sv, cfg, n).value;
            && NodeOk(sv, s.node, hist + s.published)
            && Durable(n) <= Durable(s.node)
            && (AllUsable(n) ==> AllUsable(s.node))
            && |s.published| <= 1
  {
    hide Lawful, DiskOk, MachineOk, WheelFits, Durable, Retain, SnapshotImage, LogOk, Start, SequenceAt, Prune;
    if OnCadence(cfg, n.seqno) {
      SnapshotLeaves(sv, cfg, n);
      var w := n.(snaps := n.snaps[n.seqno := SnapshotImage(sv, n.machine, n.seqno)]);
      DiskSnaps(sv, n, hist);
      WrittenIsKept(sv, n.snaps, hist, SnapshotImage(sv, n.machine, n.seqno), cfg.retain);
      SnapshotWritten(sv, n, hist);
      var r := w.(readings := w.readings + 1);
      ReadingsApart(sv, w, r, hist);
      SequenceOk(sv, cfg, r, hist, SnapshotMark, EncodeId(n.seqno), cfg.clock(w.readings));
      var m := SequenceAt(cfg, r, SnapshotMark, EncodeId(n.seqno), cfg.clock(w.readings)).value;
      ControlApplied(sv, n.machine, hist, m.published[0]);
      assert n.seqno in m.node.snaps;
      RetainOk(sv, cfg, m.node, hist + m.published);
    } else {
      assert hist + [] == hist;
    }
  }

  lemma DiskSnaps<S, I, O, N>(sv: Service<S, I, O, N>, n: Node<S>, hist: seq<Frame>)
    requires DiskOk(sv, n, hist)
    ensures SnapsOk(sv, n.snaps, hist) && n.seqno == |hist|
  {
  }

  lemma ReadingsApart<S, I, O, N>(sv: Service<S, I, O, N>, n: Node<S>, r: Node<S>, hist: seq<Frame>)
    requires r == n.(readings := r.readings)
    ensures DiskOk(sv, n, hist) == DiskOk(sv, r, hist)
    ensures Durable(n) == Durable(r)
    ensures AllUsable(n) == AllUsable(r)
  {
  }

  // ----- every operation keeps the invariant -----

  /** `next` continues `n` by publishing `published`; nothing durable is lost. */
  ghost predicate Continues<S, I, O, N>(sv: Service<S, I, O, N>, n: Node<S>, hist: seq<Frame>, s: Stepped<S>) {
    && NodeOk(sv, s.node, hist + s.published)
    && Durable(n) <= Durable(s.node)
    && (AllUsable(n) ==> AllUsable(s.node))
  }

  lemma FinishOk<S(!new), I(!new), O, N>(sv: Service<S, I, O, N>, cfg: Config, n: Node<S>, hist: seq<Frame>, s: Stepped<S>)
    requires Lawful(sv) && Continues(sv, n, hist, s) && |s.published| == 1
    requires |hist| + 2 < U64_LIMIT
    requires Finish(sv, cfg, s).Some? && Roomy(sv, Finish(sv, cfg, s).value.node)
    ensures Continues(sv, n, hist, Finish(sv, cfg, s).value)
  {
    hide Lawful, NodeOk, Durable, AllUsable, MaybeSnapshot, Roomy;
    var t := MaybeSnapshot(sv, cfg, s.node).value;
    SnapshotOk(sv, cfg, s.node, hist + s.published);
    assert hist + s.published + t.published == hist + (s.published + t.published);
  }

  lemma FinishLeaves<S, I, O, N>(sv: Service<S, I, O, N>, cfg: Config, s: Stepped<S>)
    requires Finish(sv, cfg, s).Some?
    ensures Finish(sv, cfg, s).value.node.machine == s.node.machine
  {
    hide MaybeSnapshot;
    SnapshotLeaves(sv, cfg, s.node);
  }

  lemma SequencedOk<S, I, O, N>(sv: Service<S, I, O, N>, cfg: Config, n: Node<S>, hist: seq<Frame>, kind: FrameKind, payload: seq<byte>)
    requires DiskOk(sv, n, hist)
    requires |hist| + 1 < U64_LIMIT
    requires WellFormed(sv, Stage(cfg, n, kind, payload, cfg.clock(n.readings)))
    requires Sequence(cfg, n, kind, payload).Some?
    ensures var s := Sequence(cfg, n, kind, payload).value;
            && s.published == [Stage(cfg, n, kind, payload, cfg.clock(n.readings))]
            && DiskOk(sv, s.node, hist + s.published)
            && s.node.machine == n.machine
            && s.node.seqno == s.published[0].seqno && s.node.lastTime == s.published[0].timestamp
            && Durable(n) <= Durable(s.node)
            && (AllUsable(n) ==> AllUsable(s.node))
  {
    hide DiskOk, Durable, WellFormed, AppendAll;
    var r := n.(readings := n.readings + 1);
    ReadingsApart(sv, n, r, hist);
    SequenceOk(sv, cfg, r, hist, kind, payload, cfg.clock(n.readings));
  }

  lemma MachineApart<S, I, O, N>(sv: Service<S, I, O, N>, n: Node<S>, m: Machine<S>, hist: seq<Frame>)
    requires DiskOk(sv, n, hist)
    ensures DiskOk(sv, n.(machine := m), hist)
    ensures Durable(n.(machine := m)) == Durable(n)
    ensures AllUsable(n.(machine := m)) == AllUsable(n)
  {
  }

  lemma SubmitOk<S(!new), I(!new), O, N>(sv: Service<S, I, O, N>, cfg: Config, n: Node<S>, hist: seq<Frame>, input: I)
    requires Lawful(sv) && NodeOk(sv, n, hist) && sv.encodable(input)
    requires |hist| + 2 < U64_LIMIT
    requires DoSubmit(sv, cfg, n, input).Some? && Roomy(sv, DoSubmit(sv, cfg, n, input).value.node)
    ensures Continues(sv, n, hist, DoSubmit(sv, cfg, n, input).value)
  {
    hide DiskOk, MachineOk, Durable, AllUsable, Sequence, Finish, Lawful, Settle;
    SequencedOk(sv, cfg, n, hist, Input, sv.encodeInput(input));
    var s := Sequence(cfg, n, Input, sv.encodeInput(input)).value;
    var m := Settle(sv.apply(n.machine.service, s.node.seqno, s.node.lastTime, input), n.machine.wheel, s.node.seqno);
    FinishLeaves(sv, cfg, s.(node := s.node.(machine := m)));
    InputApplied(sv, n.machine, hist, s.published[0], input);
    MachineApart(sv, s.node, m, hist + s.published);
    FinishOk(sv, cfg, n, hist, s.(node := s.node.(machine := m)));
  }

  lemma FireOk<S(!new), I(!new), O, N>(sv: Service<S, I, O, N>, cfg: Config, n: Node<S>, hist: seq<Frame>)
    requires Lawful(sv) && NodeOk(sv, n, hist)
    requires |hist| + 2 < U64_LIMIT
    requires DoFire(sv, cfg, n).Some? && Roomy(sv, DoFire(sv, cfg, n).value.node)
    ensures Continues(sv, n, hist, DoFire(sv, cfg, n).value)
  {
    hide DiskOk, MachineOk, Durable, Finish, Lawful, Settle, AppendAll, NextDue, EncodeId;
    var id := NextDue(n.machine.wheel, n.lastTime).value;
    SequenceOk(sv, cfg, n, hist, TimerFired, EncodeId(id), n.lastTime);
    var s := SequenceAt(cfg, n, TimerFired, EncodeId(id), n.lastTime).value;
    var m := Settle(sv.onTimer(n.machine.service, s.node.seqno, s.node.lastTime, id), n.machine.wheel - {id}, s.node.seqno);
    FinishLeaves(sv, cfg, s.(node := s.node.(machine := m)));
    FiringApplied(sv, n.machine, hist, s.published[0], id);
    MachineApart(sv, s.node, m, hist + s.published);
    FinishOk(sv, cfg, n, hist, s.(node := s.node.(machine := m)));
  }

  lemma ControlOk<S(!new), I(!new), O, N>(sv: Service<S, I, O, N>, cfg: Config, n: Node<S>, hist: seq<Frame>, kind: FrameKind, payload: seq<byte>)
    requires Lawful(sv) && NodeOk(sv, n, hist)
    requires |hist| + 2 < U64_LIMIT
    requires kind == FrameKind.Tick || (kind == EpochChange && exists e, q :: payload == FencePayload(e, q, sv.schema))
    requires DoControl(sv, cfg, n, kind, payload).Some? && Roomy(sv, DoControl(sv, cfg, n, kind, payload).value.node)
    ensures Continues(sv, n, hist, DoControl(sv, cfg, n, kind, payload).value)
  {
    hide Lawful, DiskOk, MachineOk, Durable, AllUsable, Sequence, Finish, Roomy;
    SequencedOk(sv, cfg, n, hist, kind, payload);
    var s := Sequence(cfg, n, kind, payload).value;
    ControlApplied(sv, n.machine, hist, s.published[0]);
    FinishOk(sv, cfg, n, hist, s);
  }

  lemma SyncLogOk<S, I, O, N>(sv: Service<S, I, O, N>, n: Node<S>, hist: seq<Frame>)
    requires NodeOk(sv, n, hist)
    ensures Continues(sv, n, hist, Stepped(n.(log := Sync(n.log)), []))
    ensures Durable(n.(log := Sync(n.log))) == |hist|
  {
    hide LogOk, SnapsOk, Sync, Start, DurableEnd, WellFormed, MachineOk;
    SyncOk(n.log, hist);
    assert hist + [] == hist;
    SnapsBelow(sv, n.snaps, hist);
  }

  lemma SnapsBelow<S, I, O, N>(sv: Service<S, I, O, N>, snaps: map<nat, seq<byte>>, hist: seq<Frame>)
    requires SnapsOk(sv, snaps, hist)
    ensures HighWater(snaps) <= |hist|
  {
    if snaps.Keys != {} {
      HighWaterAbove(snaps, Greatest(snaps.Keys));
      assert SnapOk(sv, HighWater(snaps), snaps[HighWater(snaps)], hist);
    }
  }
}
