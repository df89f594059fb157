/** A run that leaves a node of the order book refusing every order: segments
    too small for two frames, and a power loss right after a roll. */
module Wedging {
  import opened Wrappers
  import opened Frame
  import opened Segment
  import opened Execution
  import opened Log
  import opened Sequencer
  import opened Recovery
  import opened NodeRuns
  import opened NodeWrites
  import opened NodeProgress
  import opened SequencedTime
  import opened FlatBook
  import opened BookWire
  import opened Witness

  /** Segments of 50 bytes, no snapshots, no syncs. */
  function SmallConfig(): Config {
    Config(50, None, 1, 0, (k: nat) => 5, (k: nat) => false)
  }

  const ORDER := Cmd.Cancel(7)

  function OrderFrame(seqno: nat): Frame { Frame(seqno, 5, 0, FrameKind.Input, EncodeCmd(ORDER)) }

  const ONE := Log([Seg(1, [OrderFrame(1)], 0)], 1, 1, true)
  const TWO := Log([Seg(1, [OrderFrame(1)], 1), Seg(2, [OrderFrame(2)], 0)], 2, 1, true)

  lemma RollIs(f: Frame)
    ensures Roll(Log([Seg(1, [f], 0)], 1, 1, true), 2) == Log([Seg(1, [f], 1), Seg(2, [], 0)], 1, 0, false)
  {
    var log := Log([Seg(1, [f], 0)], 1, 1, true);
    assert Active(log.segs) == Seg(1, [f], 0) && Front(log.segs) == [];
    assert Sync(log) == Log([Seg(1, [f], 1)], 1, 1, false);
  }

  lemma WriteIs(f: Frame, g: Frame)
    ensures Write(Log([Seg(1, [f], 1), Seg(2, [], 0)], 1, 0, false), [g]) == Log([Seg(1, [f], 1), Seg(2, [g], 0)], 2, 1, true)
  {
    var segs := [Seg(1, [f], 1), Seg(2, [], 0)];
    assert Front(segs) == [Seg(1, [f], 1)] && Active(segs) == Seg(2, [], 0);
    assert [] + [g] == [g];
  }

  /** The second frame does not fit beside the first: the first segment is
      synced and closed, and the frame opens the next. */
  lemma SecondRolls(f: Frame, g: Frame)
    requires f.seqno == 1 && g.seqno == 2
    ensures AppendAll(Log([Seg(1, [f], 0)], 1, 1, true), [g], 50, false)
            == Appended(Log([Seg(1, [f], 1), Seg(2, [g], 0)], 2, 1, true))
  {
    OneFrame(f, 1);
    OneFrame(g, 2);
    RollIs(f);
    WriteIs(f, g);
    hide EncodeAll, Misplaced, Roll, Write, Sync;
    var log := Log([Seg(1, [f], 0)], 1, 1, true);
    assert Active(log.segs) == Seg(1, [f], 0);
    assert NeedsRoll(log, |EncodeAll([g])|, 50);
    assert !Named(log.segs, 2);
  }

  /** Cancelling an unknown order leaves the book as it is. */
  lemma OrderLeaves(q: nat, t: nat)
    ensures Settle(BookService().apply(EMPTY, q, t, ORDER), map[], q) == Machine(EMPTY, map[])
    ensures BookService().encodable(ORDER) && BookService().encodeInput(ORDER) == EncodeCmd(ORDER)
    ensures Fitting(BookService(), Machine(EMPTY, map[])) && BookService().genesis == EMPTY
  {
    hide EncodeCmd, EncodeBook, Fitting;
    assert !EMPTY.Holds(7);
    BookFitting(Machine(EMPTY, map[]));
  }

  /** Without a cadence a submit is its frame and its machine. */
  lemma PlainSubmit<S, I, O, N>(sv: Service<S, I, O, N>, cfg: Config, n: Node<S>, input: I, f: Frame, log: Log, m: Machine<S>)
    requires cfg.every == None && f == Stage(cfg, n, FrameKind.Input, sv.encodeInput(input), cfg.clock(n.readings))
    requires AppendAll(n.log, [f], cfg.segmentBytes, cfg.syncs(n.appends)) == Appended(log)
    requires Settle(sv.apply(n.machine.service, f.seqno, f.timestamp, input), n.machine.wheel, f.seqno) == m
    ensures DoSubmit(sv, cfg, n, input)
            == Some(Stepped(n.(machine := m, log := log, seqno := f.seqno, lastTime := f.timestamp,
                               readings := n.readings + 1, appends := n.appends + 1), [f]))
  {
    hide AppendAll, Settle;
    assert [f] + [] == [f];
  }

  lemma SubmitPlain(n: Node<Flat>, log: Log)
    requires n.machine == Machine(EMPTY, map[]) && n.lastTime <= 5
    requires AppendAll(n.log, [OrderFrame(n.seqno + 1)], 50, false) == Appended(log)
    ensures DoSubmit(BookService(), SmallConfig(), n, ORDER)
            == Some(Stepped(n.(log := log, seqno := n.seqno + 1, lastTime := 5, readings := n.readings + 1, appends := n.appends + 1),
                            [OrderFrame(n.seqno + 1)]))
  {
    hide AppendAll, Settle, BookService, EncodeCmd, DoSubmit, Fitting;
    OrderLeaves(n.seqno + 1, 5);
    PlainSubmit(BookService(), SmallConfig(), n, ORDER, OrderFrame(n.seqno + 1), log, n.machine);
  }

  lemma SubmitNext(w: World<Flat>, log: Log) returns (next: World<Flat>)
    requires WorldOk(BookService(), w) && |w.hist| < 10
    requires w.node.machine == Machine(EMPTY, map[]) && w.node.lastTime <= 5 && w.node.snaps == map[]
    requires AppendAll(w.node.log, [OrderFrame(w.node.seqno + 1)], 50, false) == Appended(log)
    ensures Next(BookService(), SmallConfig(), w, Action.Submit(ORDER)) == Some(next) && WorldOk(BookService(), next)
    ensures next.node.machine == w.node.machine && next.node.log == log && next.node.seqno == w.node.seqno + 1
    ensures next.node.lastTime == 5 && next.node.snaps == map[]
    ensures next.hist == w.hist + [OrderFrame(w.node.seqno + 1)]
  {
    hide NodeOk, DoSubmit, BookService, Lawful, Exact, AppendAll, EncodeCmd;
    SubmitPlain(w.node, log);
    OrderLeaves(1, 5);
    BookIsLawful();
    var t := DoSubmit(BookService(), SmallConfig(), w.node, ORDER).value;
    next := World(t.node, w.hist + t.published);
    assert Roomy(BookService(), t.node);
    NextOk(BookService(), SmallConfig(), w, Action.Submit(ORDER));
  }

  /** What the power loss leaves open: a header-only segment, and a writer that
      counts the frame of the one before. */
  lemma RolledLoss(w: World<Flat>) returns (v: World<Flat>)
    requires WorldOk(BookService(), w) && w.node.log == TWO && w.node.snaps == map[] && |w.hist| == 2
    ensures MayKeep(TWO, 0) && DoPowerLoss(BookService(), w.node, 0) == Opened(v.node)
    ensures v.node.seqno == 1 && v.hist == w.hist[..1] && WorldOk(BookService(), v)
    ensures v.node.log == Log([Seg(1, [OrderFrame(1)], 1), Seg(2, [], 0)], 1, 1, false)
  {
    CutTwo();
    hide BookService, Lawful, Exact, OpenNode, Replay, ReplayAbove, ChooseAnchor, LogOk, SnapsOk, WellFormed, Numbered, WheelsFit, MachineOk,
         Reopen, AfterLoss, FramesOf, Start, FirstSeq, Reseat, LastStamp, EncodeCmd, MayKeep, DurableEnd;
    BookIsLawful();
    var sv, n := BookService(), w.node;
    var tail := LossOk(n.log, w.hist, 0);
    var segs := AfterLoss(n.log, 0);
    LossReplay(sv, n, w.hist, tail, Reopen(segs));
    OpenedAs(sv, segs, n.snaps, n.readings, n.appends);
    PowerLossOk(sv, n, w.hist, 0);
    v := World(DoPowerLoss(sv, n, 0).node, w.hist[..1]);
  }

  lemma CutTwo()
    ensures MayKeep(TWO, 0)
    ensures Reopen(AfterLoss(TWO, 0)) == Log([Seg(1, [OrderFrame(1)], 1), Seg(2, [], 0)], 1, 1, false)
  {
    hide EncodeCmd;
    var segs := [Seg(1, [OrderFrame(1)], 1), Seg(2, [], 0)];
    assert AfterLoss(TWO, 0) == segs;
    assert segs[1..] == [Seg(2, [], 0)] && segs[1..][1..] == [];
    assert FramesOf(segs[1..]) == [] + FramesOf([]);
    assert FramesOf(segs) == [OrderFrame(1)] + FramesOf(segs[1..]);
    assert Front(segs) + [Active(segs).Synced()] == segs;
  }

  /** Two orders, a power loss that keeps nothing of the second segment, and from
      then on the node refuses every order there is. */
  lemma BookWedges(next: Cmd)
    ensures var sv := BookService();
            var run := RunAll(sv, SmallConfig(), Fresh(sv), [Action.Submit(ORDER), Action.Submit(ORDER), PowerLoss(0)]);
            && run.Some? && run.value.node.seqno == 1
            && DoSubmit(sv, SmallConfig(), run.value.node, next) == None
  {
    hide BookService, NodeOk, Next, RunAll, AppendAll, EncodeCmd, Lawful, Exact, DoPowerLoss;
    var sv, cfg := BookService(), SmallConfig();
    BookIsLawful();
    OrderLeaves(1, 5);
    FreshOpens(sv);
    FirstAppend(cfg, OrderFrame(1));
    SecondRolls(OrderFrame(1), OrderFrame(2));
    var a := SubmitNext(Fresh(sv), ONE);
    var b := SubmitNext(a, TWO);
    var c := RolledLoss(b);
    LossTaken(sv, cfg, b, c);
    RunThree(sv, cfg, Fresh(sv), Action.Submit(ORDER), Action.Submit(ORDER), PowerLoss(0), a, b, c);
    Refuses(c, next);
  }

  lemma Refuses(w: World<Flat>, next: Cmd)
    requires WorldOk(BookService(), w) && w.node.log == Log([Seg(1, [OrderFrame(1)], 1), Seg(2, [], 0)], 1, 1, false)
    ensures DoSubmit(BookService(), SmallConfig(), w.node, next) == None
  {
    hide BookService, DiskOk, MachineOk, LogOk, EncodeCmd, SequenceAt, Finish, Settle;
    var sv, cfg, n := BookService(), SmallConfig(), w.node;
    OkIsWritable(sv, n, w.hist);
    var r := n.(readings := n.readings + 1);
    SequenceFailsIff(cfg, r, w.hist, FrameKind.Input, sv.encodeInput(next), 5);
  }
}
