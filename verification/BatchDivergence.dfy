/** A batch whose live state no recovery reproduces, on the order book. */
module BatchDivergence {
  import opened Wrappers
  import opened Frame
  import opened Segment
  import opened TimerWheel
  import opened Execution
  import opened Log
  import opened Sequencer
  import opened Recovery
  import opened NodeRuns
  import opened NodeWrites
  import opened Firing
  import opened GroupCommit
  import opened FlatBook
  import opened BookWire
  import opened Witness

  /** A bid that has expired by the time it is sequenced, and an ask that would
      trade with it. */
  const LATE_BID := SubmitGtd(1, Buy, 100, 5, 3)
  const ASK := Cmd.Submit(2, Sell, 100, 5)
  const PAIR_OF_ORDERS := [LATE_BID, ASK]

  const RESTING := Machine(Flat([Order(1, 100, 5)], [], 5, 0, 0), map[1 := Due(3, 1)])
  const EXPIRED := Machine(Flat([], [], 5, 0, 5), map[])
  const LIVE := Machine(Flat([], [Order(2, 100, 5)], 10, 0, 5), map[])
  const TRADED := Machine(Flat([], [], 10, 5, 0), map[])

  // ----- the book's steps -----

  lemma BidStep()
    ensures Machined(BookService(), Genesis(BookService()), 1, 5, LATE_BID) == RESTING
  {
    hide Match, Rest, Requests;
    assert !EMPTY.Holds(1);
    MatchNone(1, 100, 5);
    RestFirst(Order(1, 100, 5));
    ArmOne(1, 3, 1);
    assert [Accepted(1)] + [] == [Accepted(1)] && [] + [SetTimer(1, 3)] == [SetTimer(1, 3)];
  }

  lemma ExpiryStep(q: nat)
    ensures Settle(BookService().onTimer(RESTING.service, q, 5, 1), RESTING.wheel - {1}, q) == EXPIRED
    ensures NextDue(RESTING.wheel, 5) == Some(1)
    ensures NextDue(EXPIRED.wheel, 5) == None && NextDue(LIVE.wheel, 5) == None
  {
    NextDueIsEarliest(RESTING.wheel, 5);
    NextDueIsEarliest(EXPIRED.wheel, 5);
    var book := RESTING.service;
    assert book.bids[0].id == 1;
    assert Listed(book.bids, 1);
    assert book.bids[1..] == [];
    assert RESTING.wheel - {1} == map[];
  }

  lemma MachinedBook(m: Machine<Flat>, q: nat, t: nat, c: Cmd)
    ensures Machined(BookService(), m, q, t, c)
            == Machine(Apply(m.service, c).0, Requests(m.wheel, Apply(m.service, c).1.timers, q))
  {
    hide Apply, Requests, TimerStep;
  }

  lemma AskApplied()
    ensures Apply(EXPIRED.service, ASK) == (LIVE.service, Effect([Accepted(2)], []))
  {
    hide Match, Rest;
    assert !EXPIRED.service.Holds(2);
    NoBids(2, 100, 5);
    FirstAsk(Order(2, 100, 5));
    var none: seq<TimerReq> := [];
    assert none + none == none && [Accepted(2)] + [] == [Accepted(2)];
  }

  lemma AskAfterExpiry(q: nat)
    ensures Machined(BookService(), EXPIRED, q, 5, ASK) == LIVE
  {
    hide Requests, Apply, Machined, BookService;
    MachinedBook(EXPIRED, q, 5, ASK);
    AskApplied();
    NoRequests(EXPIRED.wheel, q);
  }

  lemma NoBids(taker: nat, limit: nat, qty: nat)
    ensures Match(Buy, [], taker, limit, qty) == MatchResult([], qty, [], [], 0)
  {
  }

  lemma FirstAsk(o: Order)
    ensures Rest(Sell, [], o) == [o]
  {
    assert [o] + [] == [o];
  }

  lemma NoRequests(w: Wheel, setAt: nat)
    ensures Requests(w, [], setAt) == w
  {
  }

  lemma AskBeforeExpiry()
    ensures Machined(BookService(), RESTING, 2, 5, ASK) == TRADED
    ensures Settle(BookService().onTimer(TRADED.service, 3, 5, 1), TRADED.wheel - {1}, 3) == TRADED
  {
    hide Requests, Match;
    assert !RESTING.service.Holds(2);
    TradeWhole();
    DisarmOne();
    NoRequests(TRADED.wheel - {1}, 3);
    assert TRADED.wheel - {1} == TRADED.wheel;
  }

  lemma TradeWhole()
    ensures Match(Buy, [Order(1, 100, 5)], 2, 100, 5) == MatchResult([], 0, [Trade(2, 1, 100, 5)], [CancelTimer(1)], 5)
  {
    assert [Order(1, 100, 5)][1..] == [];
    assert Match(Buy, [], 2, 100, 0) == MatchResult([], 0, [], [], 0);
  }

  lemma DisarmOne()
    ensures Requests(RESTING.wheel, [CancelTimer(1)], 2) == map[]
  {
    assert [CancelTimer(1)][1..] == [];
    assert RESTING.wheel - {1} == map[];
    assert Requests(RESTING.wheel, [CancelTimer(1)], 2) == Requests(RESTING.wheel - {1}, [], 2);
  }

  // ----- the journal they leave -----

  function BidFrame(): Frame { Frame(1, 5, 0, FrameKind.Input, EncodeCmd(LATE_BID)) }
  function AskFrame(): Frame { Frame(2, 5, 0, FrameKind.Input, EncodeCmd(ASK)) }
  function ExpiryFrame(): Frame { Frame(3, 5, 0, TimerFired, EncodeId(1)) }

  /** One firing of a node that syncs every append and takes no snapshots. */
  lemma OneFiring<S, I, O, N>(sv: Service<S, I, O, N>, cfg: Config, n: Node<S>, hist: seq<Frame>, id: nat, m: Machine<S>)
    requires Writable(n, hist) && FitsSegment(cfg, 8) && cfg.every == None && cfg.syncs(n.appends)
    requires NextDue(n.machine.wheel, n.lastTime) == Some(id)
    requires Settle(sv.onTimer(n.machine.service, n.seqno + 1, n.lastTime, id), n.machine.wheel - {id}, n.seqno + 1) == m
    requires NextDue(m.wheel, n.lastTime) == None
    ensures Settled(sv, cfg, n).Some?
    ensures var s := Settled(sv, cfg, n).value;
            && s.published == [Frame(n.seqno + 1, n.lastTime, cfg.streamId, TimerFired, EncodeId(id))]
            && Writable(s.node, hist + s.published)
            && s.node.machine == m && s.node.snaps == n.snaps && s.node.lastTime == n.lastTime && s.node.readings == n.readings
            && DurableEnd(s.node.log) == n.seqno + 1 && Start(s.node.log) == Start(n.log)
  {
    hide LogOk, NextDue, Settle, DurableEnd, Start, EncodeId, AppendAll;
    FireSucceeds(sv, cfg, n, hist);
    var f := Frame(n.seqno + 1, n.lastTime, cfg.streamId, TimerFired, EncodeId(id));
    AppendOk(n.log, hist, [f], cfg.segmentBytes, true);
    var t := DoFire(sv, cfg, n).value;
    assert t.published == [f] + [] && t.node.lastTime == n.lastTime;
    hide DoFire;
    NoTurns(sv, cfg, n);
    assert [] + t.published == t.published;
    assert Fires(sv, cfg, n, 0 + 1) == Some(t);
    SettledIs(sv, cfg, n, 1);
  }

  lemma StagedPair()
    ensures Staged(BookService(), SteadyConfig(), 1, 5, PAIR_OF_ORDERS) == [BidFrame(), AskFrame()]
  {
    hide EncodeCmd, Apply, TimerStep;
    var sv := BookService();
    assert sv.encodeInput(LATE_BID) == EncodeCmd(LATE_BID) && sv.encodeInput(ASK) == EncodeCmd(ASK);
  }

  lemma JournaledPair() returns (b: Node<Flat>)
    ensures var sv := BookService();
            Journaled(sv, SteadyConfig(), Fresh(sv).node, PAIR_OF_ORDERS) == Some(b) && b.machine == Genesis(sv)
    ensures Writable(b, [BidFrame(), AskFrame()]) && b.snaps == map[] && b.seqno == 2 && b.lastTime == 5
    ensures DurableEnd(b.log) == 2 && Start(b.log) == 1
  {
    hide AppendAll, BookService, Staged, EncodeCmd, EncodeAll;
    var sv, cfg, inputs := BookService(), SteadyConfig(), PAIR_OF_ORDERS;
    var first, frames := Fresh(sv).node, [BidFrame(), AskFrame()];
    StagedPair();
    FreshWritable(sv);
    assert DurableEnd(NO_LOG) == 0 && Start(NO_LOG) == 1;
    hide LogOk, DurableEnd, Start, BidFrame, AskFrame;
    JournaledIs(sv, cfg, first, [], inputs);
    AppendOk(NO_LOG, [], frames, cfg.segmentBytes, true);
    assert [] + frames == frames;
    b := Journaled(sv, cfg, first, inputs).value;
  }

  /** Applying one input of a batch that is off the cadence. */
  lemma ApplyFirst<S, I, O, N>(sv: Service<S, I, O, N>, cfg: Config, n: Node<S>, input: I, rest: seq<I>, f: Frame, more: seq<Frame>, m: Machine<S>)
    requires |rest| == |more| && cfg.every == None
    requires Machined(sv, n.machine, f.seqno, f.timestamp, input) == m
    requires Settled(sv, cfg, n.(machine := m)).Some?
    requires ApplyEach(sv, cfg, Settled(sv, cfg, n.(machine := m)).value.node, rest, more).Some?
    ensures var b := Settled(sv, cfg, n.(machine := m)).value;
            var c := ApplyEach(sv, cfg, b.node, rest, more).value;
            var r := ApplyEach(sv, cfg, n, [input] + rest, [f] + more);
            && r.Some? && r.value.node == c.node && r.value.published == [f] + b.published + c.published
            && |r.value.replies| == 1 + |c.replies| && r.value.replies[0].seqno == f.seqno && r.value.replies[1..] == c.replies
  {
    hide SnapshotAt, Settled, Machined;
    NoCadence(sv, cfg, n.(machine := m), f.seqno);
    assert ([input] + rest)[1..] == rest && ([f] + more)[1..] == more;
    var b := Settled(sv, cfg, n.(machine := m)).value;
    assert [f] + [] + b.published == [f] + b.published;
  }

  /** The batch: bid, its expiry, ask, although the ask has the earlier seq. */
  lemma BatchRuns() returns (n: Node<Flat>)
    ensures var sv := BookService();
            var r := DoBatch(sv, SteadyConfig(), Fresh(sv).node, PAIR_OF_ORDERS);
            && r.Some? && r.value.node == n && r.value.published == [BidFrame(), ExpiryFrame(), AskFrame()]
            && |r.value.replies| == 2 && r.value.replies[1].seqno == 2
    ensures n.machine == LIVE && n.snaps == map[] && n.seqno == 3
    ensures LogOk(n.log, [BidFrame(), AskFrame(), ExpiryFrame()]) && DurableEnd(n.log) == 3 && Start(n.log) == 1
  {
    hide LogOk, DurableEnd, NextDue, Settle, BookService, Settled, Machined, EncodeCmd, EncodeId, ApplyEach, Journaled, Staged;
    var sv, cfg := BookService(), SteadyConfig();
    BidStep();
    ExpiryStep(3);
    AskAfterExpiry(2);
    StagedPair();
    var b := JournaledPair();
    var frames := [BidFrame(), AskFrame()];
    var y := b.(machine := RESTING);
    OneFiring(sv, cfg, y, frames, 1, EXPIRED);
    var z := Settled(sv, cfg, y).value.node;
    n := z.(machine := LIVE);
    NothingDue(sv, cfg, n);
    NothingLeft(sv, cfg, n, [], []);
    assert [ASK] + [] == [ASK] && [AskFrame()] + [] == [AskFrame()];
    ApplyFirst(sv, cfg, z, ASK, [], AskFrame(), [], LIVE);
    assert [LATE_BID] + [ASK] == PAIR_OF_ORDERS && [BidFrame()] + [AskFrame()] == frames;
    ApplyFirst(sv, cfg, b, LATE_BID, [ASK], BidFrame(), [AskFrame()], RESTING);
    assert frames + [ExpiryFrame()] == [BidFrame(), AskFrame(), ExpiryFrame()];
    assert [BidFrame()] + [ExpiryFrame()] + [AskFrame()] == [BidFrame(), ExpiryFrame(), AskFrame()];
  }

  /** One submit, before its firings. */
  lemma SingleSettles<S, I, O, N>(sv: Service<S, I, O, N>, cfg: Config, n: Node<S>, hist: seq<Frame>, input: I, m: Machine<S>)
      returns (x: Node<S>, f: Frame)
    requires cfg.clock(n.readings) == 5 && Writable(n, hist) && FitsSegment(cfg, |sv.encodeInput(input)|) && cfg.every == None && n.lastTime <= 5
    requires Machined(sv, n.machine, n.seqno + 1, 5, input) == m
    ensures DoSubmit(sv, cfg, n, input) == Some(Stepped(x, [f]))
    ensures x.machine == m && x.seqno == n.seqno + 1 && x.lastTime == 5 && Writable(x, hist + [f])
  {
    hide Writable, Machined, DoSubmit, SnapshotAt;
    x, f := SubmitUnfolds(sv, cfg, n, hist, input);
    NoCadence(sv, cfg, x, x.seqno);
    assert [f] + [] == [f];
  }

  /** The same two orders one by one: the ask comes third, after the expiry. */
  lemma SinglesRun()
    ensures var sv := BookService();
            var r := SubmitEach(sv, SteadyConfig(), Fresh(sv).node, PAIR_OF_ORDERS);
            && r.Some? && r.value.node.machine == LIVE
            && |r.value.replies| == 2 && r.value.replies[1].seqno == 3
  {
    hide LogOk, DurableEnd, Start, NextDue, Settle, BookService, Settled, Machined, EncodeCmd, EncodeId, SubmitEach, DoSubmit;
    var sv, cfg := BookService(), SteadyConfig();
    OrdersOnWire();
    BidStep();
    ExpiryStep(2);
    AskAfterExpiry(3);
    FreshWritable(sv);
    var n := Fresh(sv).node;
    var x, f := SingleSettles(sv, cfg, n, [], LATE_BID, RESTING);
    OneFiring(sv, cfg, x, [] + [f], 1, EXPIRED);
    var b := Settled(sv, cfg, x).value;
    var y, g := SingleSettles(sv, cfg, b.node, [] + [f] + b.published, ASK, LIVE);
    NothingDue(sv, cfg, y);
    SubmitOne(sv, cfg, b.node, ASK);
    SubmitTwo(sv, cfg, n, LATE_BID, ASK);
  }

  lemma OrdersOnWire()
    ensures |BookService().encodeInput(LATE_BID)| <= 28 && |BookService().encodeInput(ASK)| <= 28
  {
    hide EncodeCmd, Apply, TimerStep;
    CmdLength(LATE_BID);
    CmdLength(ASK);
  }

  lemma SubmitOne<S, I, O, N>(sv: Service<S, I, O, N>, cfg: Config, n: Node<S>, input: I)
    requires DoSubmit(sv, cfg, n, input).Some? && Settled(sv, cfg, DoSubmit(sv, cfg, n, input).value.node).Some?
    ensures var r := SubmitEach(sv, cfg, n, [input]);
            && r.Some? && r.value.node == Settled(sv, cfg, DoSubmit(sv, cfg, n, input).value.node).value.node
            && |r.value.replies| == 1 && r.value.replies[0].seqno == n.seqno + 1
  {
    hide DoSubmit, Settled;
    var a := Settled(sv, cfg, DoSubmit(sv, cfg, n, input).value.node).value.node;
    assert [input][1..] == [];
    assert SubmitEach(sv, cfg, a, []).Some?;
  }

  lemma SubmitTwo<S, I, O, N>(sv: Service<S, I, O, N>, cfg: Config, n: Node<S>, input: I, next: I)
    requires DoSubmit(sv, cfg, n, input).Some? && Settled(sv, cfg, DoSubmit(sv, cfg, n, input).value.node).Some?
    requires SubmitEach(sv, cfg, Settled(sv, cfg, DoSubmit(sv, cfg, n, input).value.node).value.node, [next]).Some?
    ensures var c := SubmitEach(sv, cfg, Settled(sv, cfg, DoSubmit(sv, cfg, n, input).value.node).value.node, [next]).value;
            var r := SubmitEach(sv, cfg, n, [input, next]);
            r.Some? && r.value.node == c.node && |r.value.replies| == 1 + |c.replies| && r.value.replies[1..] == c.replies
  {
    hide DoSubmit, Settled;
    assert [input, next][1..] == [next];
  }

  // ----- and what recovery makes of it -----

  /** A node with everything synced and no snapshots reopens on the replay of
      its whole journal. */
  lemma SyncedReopens<S, I, O, N>(sv: Service<S, I, O, N>, n: Node<S>, hist: seq<Frame>, kept: nat)
    requires LogOk(n.log, hist) && Numbered(hist) && Start(n.log) == 1 && DurableEnd(n.log) == |hist| && n.snaps == map[]
    requires MayKeep(n.log, kept) && Replay(sv, Genesis(sv), hist).Some?
    ensures var r := DoPowerLoss(sv, n, kept);
            r.Opened? && r.node.machine == Replay(sv, Genesis(sv), hist).value && r.node.seqno == |hist|
  {
    hide LogOk, DurableEnd, Start, Replay, ReplayAbove, Reopen, AfterLoss, FramesOf, FirstSeq, LastStamp;
    var tail := LossOk(n.log, hist, kept);
    var segs := AfterLoss(n.log, kept);
    var log := Reopen(segs);
    assert hist[..tail] == hist;
    FramesOnDisk(log, hist);
    LastIs(log, hist);
    assert hist[0..] == hist;
    ReplayAboveAll(sv, Genesis(sv), hist, 0);
    assert ChooseAnchor(sv, n.snaps, 1, |hist|) == None;
    OpenedAs(sv, segs, n.snaps, n.readings, n.appends);
  }

  lemma OrderReplays(c: Cmd, f: Frame, m: Machine<Flat>)
    requires CmdFits(c) && f.kind == FrameKind.Input && f.payload == EncodeCmd(c)
    ensures ReplayStep(BookService(), m, f) == Some(Machined(BookService(), m, f.seqno, f.timestamp, c))
  {
    hide Settle, EncodeCmd, DecodeCmd, Apply, TimerStep;
    CmdRoundTrip(c);
  }

  lemma ExpiryReplays()
    ensures ReplayStep(BookService(), TRADED, ExpiryFrame())
            == Some(Settle(BookService().onTimer(TRADED.service, 3, 5, 1), TRADED.wheel - {1}, 3))
  {
    hide Settle, EncodeId, DecodeId, Apply, TimerStep;
    IdRoundTrip(1);
  }

  lemma JournalReplays()
    ensures var hist := [BidFrame(), AskFrame(), ExpiryFrame()];
            Replay(BookService(), Genesis(BookService()), hist) == Some(TRADED)
  {
    hide Settle, Machined, ReplayStep, BookService, EncodeCmd, EncodeId;
    BidStep();
    AskBeforeExpiry();
    OrderReplays(LATE_BID, BidFrame(), Genesis(BookService()));
    OrderReplays(ASK, AskFrame(), RESTING);
    ExpiryReplays();
    ReplayThree(BookService(), Genesis(BookService()), RESTING, TRADED, TRADED, BidFrame(), AskFrame(), ExpiryFrame());
  }

  lemma ReplayThree<S, I, O, N>(sv: Service<S, I, O, N>, a: Machine<S>, b: Machine<S>, c: Machine<S>, d: Machine<S>, f: Frame, g: Frame, h: Frame)
    requires ReplayStep(sv, a, f) == Some(b) && ReplayStep(sv, b, g) == Some(c) && ReplayStep(sv, c, h) == Some(d)
    ensures Replay(sv, a, [f, g, h]) == Some(d)
  {
    hide ReplayStep;
    assert [f, g, h][1..] == [g, h] && [g, h][1..] == [h];
    ReplayOne(sv, c, h);
    assert Replay(sv, b, [g, h]) == Replay(sv, c, [h]);
  }

  /** Live, the bid has expired and the ask rests. With every byte synced, every
      recovery finds that they traded. */
  lemma BatchBreaksRecovery(kept: nat)
    ensures var sv := BookService();
            var r := DoBatch(sv, SteadyConfig(), Fresh(sv).node, PAIR_OF_ORDERS);
            && r.Some? && r.value.node.machine == LIVE
            && (MayKeep(r.value.node.log, kept) ==>
                  var back := DoPowerLoss(sv, r.value.node, kept);
                  back.Opened? && back.node.seqno == r.value.node.seqno && back.node.machine == TRADED && TRADED != LIVE)
  {
    hide LogOk, DurableEnd, Start, BookService, DoBatch, Replay, DoPowerLoss, MayKeep, EncodeCmd, EncodeId;
    var n := BatchRuns();
    JournalReplays();
    if MayKeep(n.log, kept) {
      SyncedReopens(BookService(), n, [BidFrame(), AskFrame(), ExpiryFrame()], kept);
    }
  }
}
