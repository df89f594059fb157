/** Whole operations succeed, and what retention leaves at every moment. */
module NodeProgress {
  import opened Wrappers
  import opened Bytes
  import opened Frame
  import opened TimerWheel
  import opened Execution
  import opened SnapshotFile
  import opened Log
  import opened Sequencer
  import opened NodeInvariant
  import opened Recovery
  import opened NodeRuns
  import opened NodeWrites

  /** How many payload bytes the action's frame carries. */
  function PayloadLen<S, I, O, N>(sv: Service<S, I, O, N>, a: Action<I>): nat {
    match a
    case Submit(input) => |sv.encodeInput(input)|
    case Fire => 8
    case Fence(_) => 20
    case _ => 0
  }

  /** What the action makes of the node; a sync or a loss publishes nothing. */
  function Operated<S, I, O, N>(sv: Service<S, I, O, N>, cfg: Config, n: Node<S>, a: Action<I>): Option<Stepped<S>> {
    match a
    case Submit(input) => DoSubmit(sv, cfg, n, input)
    case Fire => DoFire(sv, cfg, n)
    case Tick => DoControl(sv, cfg, n, FrameKind.Tick, [])
    case Fence(epoch) => DoFence(sv, cfg, n, epoch)
    case _ => Some(Stepped(n, []))
  }

  predicate Publishes<I>(a: Action<I>) {
    a.Submit? || a.Fire? || a.Tick? || a.Fence?
  }

  ghost predicate Enabled<S, I, O, N>(sv: Service<S, I, O, N>, cfg: Config, w: World<S>, a: Action<I>) {
    && |w.hist| + 2 < U64_LIMIT
    && FitsSegment(cfg, PayloadLen(sv, a))
    && (a.Submit? ==> sv.encodable(a.input))
    && (a.Fire? ==> NextDue(w.node.machine.wheel, w.node.lastTime).Some?)
    && (a.PowerLoss? ==> MayKeep(w.node.log, a.kept))
  }

  lemma OkIsWritable<S, I, O, N>(sv: Service<S, I, O, N>, n: Node<S>, hist: seq<Frame>)
    requires DiskOk(sv, n, hist)
    ensures Writable(n, hist)
  {
    SnapsBelow(sv, n.snaps, hist);
    forall s | s in n.snaps
      ensures s <= |hist|
    {
      HighWaterAbove(n.snaps, s);
    }
  }

  /** When every frame fits a segment no append, snapshot or recovery ever
      fails: an action is left only if the state outgrows a wire width. */
  lemma NextSucceeds<S(!new), I(!new), O, N>(sv: Service<S, I, O, N>, cfg: Config, w: World<S>, a: Action<I>)
    requires Lawful(sv) && WorldOk(sv, w) && Enabled(sv, cfg, w, a)
    ensures Operated(sv, cfg, w.node, a).Some?
    ensures Next(sv, cfg, w, a).Some? <==> (Publishes(a) ==> Roomy(sv, Operated(sv, cfg, w.node, a).value.node))
    ensures Publishes(a) && Next(sv, cfg, w, a).Some? ==>
              var t := Operated(sv, cfg, w.node, a).value; Next(sv, cfg, w, a).value == World(t.node, w.hist + t.published)
  {
    hide Lawful, DiskOk, MachineOk, DoSubmit, DoFire, DoControl, DoPowerLoss, MayKeep, NextDue, FencePayload, Roomy;
    OkIsWritable(sv, w.node, w.hist);
    match a {
      case Submit(input) => SubmitSucceeds(sv, cfg, w.node, w.hist, input);
      case Fire => FireSucceeds(sv, cfg, w.node, w.hist);
      case Tick => ControlSucceeds(sv, cfg, w.node, w.hist, FrameKind.Tick, []);
      case Fence(epoch) =>
        ControlSucceeds(sv, cfg, w.node, w.hist, EpochChange, FencePayload(epoch, w.node.seqno + 1, sv.schema));
      case SyncLog =>
      case PowerLoss(kept) => NextLoss(sv, w, kept);
    }
  }

  // ----- staying within the widths -----

  /** The machine is within the widths, and so would its snapshot be. */
  ghost predicate Fitting<S, I, O, N>(sv: Service<S, I, O, N>, m: Machine<S>) {
    && sv.storable(m.service) && WheelFits(m.wheel)
    && |sv.encodeSnapshot(sv.snapshot(m.service), Entries(m.wheel))| < U32_LIMIT
  }

  /** A frame whose machine keeps within the widths leaves the node within
      them, its snapshot included. */
  lemma FinishRoomy<S, I, O, N>(sv: Service<S, I, O, N>, cfg: Config, s: Stepped<S>)
    requires Fitting(sv, s.node.machine) && SnapshotsFit(s.node.snaps)
    requires Finish(sv, cfg, s).Some?
    ensures Roomy(sv, Finish(sv, cfg, s).value.node)
    ensures Finish(sv, cfg, s).value.node.machine == s.node.machine
  {
    hide SequenceAt, Prune, Compact, Least, WheelFits, Entries, Image;
    var n := s.node;
    if OnCadence(cfg, n.seqno) {
      var all := n.snaps[n.seqno := SnapshotImage(sv, n.machine, n.seqno)];
      PruneKeeps(all, cfg.retain);
      SequenceLeaves(cfg, n.(snaps := all, readings := n.readings + 1), SnapshotMark, EncodeId(n.seqno), cfg.clock(n.readings));
    }
  }

  lemma SequenceLeaves<S>(cfg: Config, n: Node<S>, kind: FrameKind, payload: seq<byte>, at: nat)
    requires SequenceAt(cfg, n, kind, payload, at).Some?
    ensures var s := SequenceAt(cfg, n, kind, payload, at).value;
            && s.node.machine == n.machine && s.node.snaps == n.snaps && s.published == [Stage(cfg, n, kind, payload, at)]
            && s.node.seqno == n.seqno + 1 && s.node.lastTime == Stage(cfg, n, kind, payload, at).timestamp
  {
    hide AppendAll;
  }

  lemma ControlRoomy<S, I, O, N>(sv: Service<S, I, O, N>, cfg: Config, n: Node<S>, kind: FrameKind, payload: seq<byte>)
    requires Fitting(sv, n.machine) && SnapshotsFit(n.snaps)
    requires DoControl(sv, cfg, n, kind, payload).Some?
    ensures Roomy(sv, DoControl(sv, cfg, n, kind, payload).value.node)
    ensures DoControl(sv, cfg, n, kind, payload).value.node.machine == n.machine
  {
    hide SequenceAt, Finish, Fitting, SnapshotsFit, Roomy;
    SequenceLeaves(cfg, n.(readings := n.readings + 1), kind, payload, cfg.clock(n.readings));
    FinishRoomy(sv, cfg, Sequence(cfg, n, kind, payload).value);
  }

  lemma SubmitRoomy<S, I, O, N>(sv: Service<S, I, O, N>, cfg: Config, n: Node<S>, input: I)
    requires DoSubmit(sv, cfg, n, input).Some? && SnapshotsFit(n.snaps)
    requires var stamp := Stage(cfg, n, Input, [], cfg.clock(n.readings)).timestamp;
             Fitting(sv, Settle(sv.apply(n.machine.service, n.seqno + 1, stamp, input), n.machine.wheel, n.seqno + 1))
    ensures Roomy(sv, DoSubmit(sv, cfg, n, input).value.node)
    ensures var stamp := Stage(cfg, n, Input, [], cfg.clock(n.readings)).timestamp;
            DoSubmit(sv, cfg, n, input).value.node.machine
            == Settle(sv.apply(n.machine.service, n.seqno + 1, stamp, input), n.machine.wheel, n.seqno + 1)
  {
    hide SequenceAt, Finish, Fitting, SnapshotsFit, Roomy, Settle;
    SequenceLeaves(cfg, n.(readings := n.readings + 1), Input, sv.encodeInput(input), cfg.clock(n.readings));
    var s := Sequence(cfg, n, Input, sv.encodeInput(input)).value;
    var m := Settle(sv.apply(n.machine.service, s.node.seqno, s.node.lastTime, input), n.machine.wheel, s.node.seqno);
    FinishRoomy(sv, cfg, s.(node := s.node.(machine := m)));
  }

  // ----- retention -----

  /** The snapshots left when a prune is interrupted after `k` removals. */
  function PrunedBy(snaps: map<nat, seq<byte>>, k: nat): map<nat, seq<byte>>
    decreases k
  {
    if k == 0 || snaps.Keys == {} then snaps else PrunedBy(snaps - {Least(snaps.Keys)}, k - 1)
  }

  /** Between any two removals of a prune recovery still has its base. */
  lemma {:induction false} MidPruneCovered(snaps: map<nat, seq<byte>>, k: nat, start: nat)
    requires k < |snaps|
    requires Covered(start, snaps)
    ensures Covered(start, PrunedBy(snaps, k))
    ensures HighWater(PrunedBy(snaps, k)) == HighWater(snaps)
    decreases k
  {
    hide Covered, HighWater, Least;
    if k > 0 {
      assert |snaps.Keys| == |snaps|;
      assert snaps.Keys != {};
      OldestGone(snaps, start);
      var rest := snaps - {Least(snaps.Keys)};
      assert rest.Keys == snaps.Keys - {Least(snaps.Keys)};
      assert |rest.Keys| == |rest| && |rest.Keys| == |snaps.Keys| - 1;
      MidPruneCovered(rest, k - 1, start);
    }
  }

  /** Between any two removals of a compaction the segments are a gapless run
      of the history, still covered by the snapshots kept. */
  lemma {:induction false} MidCompactCovered(log: Log, hist: seq<Frame>, snaps: map<nat, seq<byte>>, k: nat)
    requires LogOk(log, hist)
    requires snaps.Keys != {} && Least(snaps.Keys) >= 1
    requires Covered(Start(log), snaps)
    requires k <= |log.segs| - |Compact(log.segs, Least(snaps.Keys) - 1)|
    ensures LogOk(log.(segs := log.segs[k..]), hist)
    ensures Covered(Start(log.(segs := log.segs[k..])), snaps)
    decreases k
  {
    hide LogOk, Least, HighWater;
    if k == 0 {
      assert log.segs[0..] == log.segs && log.(segs := log.segs) == log;
    } else {
      var next := log.(segs := log.segs[1..]);
      DropOldest(log, hist);
      HighWaterAbove(snaps, Least(snaps.Keys));
      MidCompactCovered(next, hist, snaps, k - 1);
      assert log.segs[1..][k - 1..] == log.segs[k..];
    }
  }

  /** Until a reseat moves the start of history, every retained snapshot stays
      usable as an anchor. */
  lemma UsableUntilReseat<S(!new), I(!new), O, N>(sv: Service<S, I, O, N>, cfg: Config, w: World<S>, a: Action<I>)
    requires Lawful(sv) && WorldOk(sv, w) && AllUsable(w.node)
    requires Next(sv, cfg, w, a).Some?
    requires a.PowerLoss? ==> Start(Next(sv, cfg, w, a).value.node.log) == Start(w.node.log)
    ensures AllUsable(Next(sv, cfg, w, a).value.node)
  {
    hide Lawful, NodeOk, Durable, DoSubmit, DoFire, DoControl, DoPowerLoss, FencePayload, Sync, Start, Roomy;
    match a {
      case Submit(input) => SubmitOk(sv, cfg, w.node, w.hist, input);
      case Fire => FireOk(sv, cfg, w.node, w.hist);
      case Tick => ControlOk(sv, cfg, w.node, w.hist, FrameKind.Tick, []);
      case Fence(epoch) => ControlOk(sv, cfg, w.node, w.hist, EpochChange, FencePayload(epoch, w.node.seqno + 1, sv.schema));
      case SyncLog => SyncLogOk(sv, w.node, w.hist);
      case PowerLoss(kept) => PowerLossOk(sv, w.node, w.hist, kept);
    }
  }
}
