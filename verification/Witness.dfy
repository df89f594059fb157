/** The theorems about nodes at services and runs written out in full. */
module Witness {
  import opened Wrappers
  import opened Bytes
  import opened Frame
  import opened TimerWheel
  import opened Execution
  import opened Log
  import opened Sequencer
  import opened NodeInvariant
  import opened NodeRuns
  import opened NodeWrites
  import opened NodeProgress
  import opened Firing
  import opened LoopTime
  import opened PeriodicTimers
  import opened SequencedTime
  import opened FlatBook
  import opened BookSnapshots
  import opened BookWire
  import Codec
  import NodeHost

  // ----- the order book loses power -----

  /** When a book is sure to be within every width. */
  lemma BookFitting(m: Machine<Flat>)
    requires BookFits(m.service) && WheelFits(m.wheel)
    requires |m.service.bids| + |m.service.asks| + |m.wheel| < 0x800_0000
    ensures Fitting(BookService(), m)
  {
    hide BookFits, WheelFits, Entries, Snap, EncodeBook;
    EntriesCount(m.wheel);
    SnapshotLength(m.service, Entries(m.wheel));
  }

  lemma {:induction false} MatchCancels(side: Side, makers: seq<Order>, taker: nat, limit: nat, qty: nat)
    ensures forall i :: 0 <= i < |Match(side, makers, taker, limit, qty).timers| ==>
              Match(side, makers, taker, limit, qty).timers[i].CancelTimer?
    decreases |makers|
  {
    if qty > 0 && makers != [] && Crosses(side, makers[0].price, limit) && makers[0].qty <= qty {
      MatchCancels(side, makers[1..], taker, limit, qty - makers[0].qty);
    }
  }

  /** The book arms only the ids of its commands. */
  lemma BookIdsTyped()
    ensures NodeHost.IdsTyped(BookService())
  {
    hide Match, Rest, Withdraw;
    forall s: Flat, c | CmdFits(c)
      ensures NodeHost.IdsFit(Apply(s, c).1.timers)
    {
      if !c.Cancel? {
        MatchCancels(Opposite(c.side), s.On(Opposite(c.side)), c.id, c.price, c.qty);
      }
    }
    forall s: Flat, id
      ensures NodeHost.IdsFit(TimerStep(s, id).1.timers)
    {
    }
    hide Apply, TimerStep, NodeHost.IdsFit;
  }

  /** Snapshot after every frame, never sync, a clock set back after two
      readings. */
  function SetBackConfig(): Config {
    Config(0x10_0000, Some(1), 1, 0, (k: nat) => if k < 2 then 5 else 3, (k: nat) => false)
  }

  /** Sequenced time runs backwards on a node that hosts the order book. */
  lemma BookTimeRunsBackwards()
    ensures var sv := BookService();
            var run := RunAll(sv, SetBackConfig(), Fresh(sv), [Action.Tick, PowerLoss(0), Action.Tick]);
            run.Some? && |run.value.hist| >= 2 && run.value.hist[0].timestamp == 5 && run.value.hist[1].timestamp == 3
  {
    var sv := BookService();
    assert BookFits(Genesis(sv).service) && Genesis(sv).wheel == map[];
    BookFitting(Genesis(sv));
    BookIsLawful();
    hide Lawful, Exact, Fitting, BookService;
    TimeRunsBackwards(sv, SetBackConfig());
  }

  const GTD_BID := SubmitGtd(7, Buy, 100, 5, 50)
  const BID_RESTS := Machine(Flat([Order(7, 100, 5)], [], 5, 0, 0), map[7 := Due(50, 1)])

  lemma BidApplied()
    ensures Apply(EMPTY, GTD_BID) == (BID_RESTS.service, Effect([Accepted(7)], [SetTimer(7, 50)]))
  {
    hide Match, Rest;
    assert !EMPTY.Holds(7);
    MatchNone(7, 100, 5);
    RestFirst(Order(7, 100, 5));
    assert [Accepted(7)] + [] == [Accepted(7)] && [] + [SetTimer(7, 50)] == [SetTimer(7, 50)];
  }

  lemma MatchNone(taker: nat, limit: nat, qty: nat)
    ensures Match(Sell, [], taker, limit, qty) == MatchResult([], qty, [], [], 0)
  {
  }

  lemma RestFirst(o: Order)
    ensures Rest(Buy, [], o) == [o]
  {
    assert [o] + [] == [o];
  }

  lemma ArmOne(id: nat, at: nat, setAt: nat)
    ensures Requests(map[], [SetTimer(id, at)], setAt) == map[id := Due(at, setAt)]
  {
    assert [SetTimer(id, at)][1..] == [];
    var w: Wheel := map[];
    assert Requests(w, [SetTimer(id, at)], setAt) == Requests(w[id := Due(at, setAt)], [], setAt);
  }

  lemma BidRests()
    ensures Settle(BookService().apply(EMPTY, 1, 5, GTD_BID), map[], 1) == BID_RESTS
    ensures Fitting(BookService(), BID_RESTS)
    ensures BookService().encodable(GTD_BID)
  {
    hide Apply, Requests, Fitting, EncodeBook;
    BidApplied();
    ArmOne(7, 50, 1);
    assert BID_RESTS.wheel.Keys == {7} && |BID_RESTS.wheel.Keys| == |BID_RESTS.wheel|;
    BookFitting(BID_RESTS);
  }

  lemma BidOnWire()
    ensures BookService().encodeInput(GTD_BID) == EncodeCmd(GTD_BID) && |EncodeCmd(GTD_BID)| <= 28
    ensures BookService().decodeInput(EncodeCmd(GTD_BID)) == Some(GTD_BID)
    ensures BookService().genesis == EMPTY
  {
    hide EncodeCmd, DecodeCmd, Apply, TimerStep;
    CmdLength(GTD_BID);
    CmdRoundTrip(GTD_BID);
  }

  /** A bid is sequenced and snapshotted, then power fails before anything was
      synced: both frames are gone from the journal, and the reopened node still
      has the bid resting and its expiry armed. */
  lemma BookCrashRun()
    ensures var sv := BookService();
            var run := RunAll(sv, SetBackConfig(), Fresh(sv), [Action.Submit(GTD_BID), PowerLoss(0)]);
            && run.Some? && |run.value.hist| == 1 && run.value.node.seqno == 1
            && run.value.node.machine == BID_RESTS
  {
    hide Lawful, Exact, Fitting, BookService, EncodeCmd, DecodeCmd, Settle, RunAll, Next, NodeOk, HighWater, Finish, Sequence, DoPowerLoss;
    var sv, cfg := BookService(), SetBackConfig();
    BidRests();
    BidOnWire();
    BookIsLawful();
    assert SetBack(cfg);
    hide SetBack, SetBackConfig;
    var a, w := FirstFrame(sv, cfg, FrameKind.Input, EncodeCmd(GTD_BID), BID_RESTS);
    SubmitTaken(sv, cfg, GTD_BID, BID_RESTS, a, w);
    var v := SetBackLoss(sv, w);
    OneInput(sv, w, v, GTD_BID, BID_RESTS);
    RunTwo(sv, cfg, Fresh(sv), GTD_BID, w, v);
  }

  lemma SubmitTaken<S(!new), I(!new), O, N>(sv: Service<S, I, O, N>, cfg: Config, input: I, m: Machine<S>, a: Node<S>, w: World<S>)
    requires Lawful(sv) && sv.encodable(input) && Fitting(sv, m)
    requires Sequence(cfg, Fresh(sv).node, FrameKind.Input, sv.encodeInput(input))
             == Some(Stepped(a, [Frame(1, 5, cfg.streamId, FrameKind.Input, sv.encodeInput(input))]))
    requires a.machine == Genesis(sv) && a.seqno == 1 && a.lastTime == 5
    requires Finish(sv, cfg, Stepped(a.(machine := m), [Frame(1, 5, cfg.streamId, FrameKind.Input, sv.encodeInput(input))]))
             == Some(Stepped(w.node, w.hist))
    requires Settle(sv.apply(sv.genesis, 1, 5, input), map[], 1) == m
    requires a.snaps == map[]
    ensures Next(sv, cfg, Fresh(sv), Action.Submit(input)) == Some(w) && WorldOk(sv, w)
  {
    hide Lawful, Sequence, Finish, Settle, Fitting, NodeOk;
    FinishRoomy(sv, cfg, Stepped(a.(machine := m), [Frame(1, 5, cfg.streamId, FrameKind.Input, sv.encodeInput(input))]));
    assert DoSubmit(sv, cfg, Fresh(sv).node, input) == Some(Stepped(w.node, w.hist));
    assert [] + w.hist == w.hist;
    FreshOpens(sv);
    NextOk(sv, cfg, Fresh(sv), Action.Submit(input));
  }

  lemma OneInput<S(!new), I(!new), O, N>(sv: Service<S, I, O, N>, w: World<S>, v: World<S>, input: I, m: Machine<S>)
    requires Exact(sv) && WorldOk(sv, v)
    requires |w.hist| == 2 && v.hist == w.hist[..1]
    requires w.hist[0].kind == FrameKind.Input && w.hist[0].seqno == 1 && w.hist[0].timestamp == 5
    requires sv.decodeInput(w.hist[0].payload) == Some(input)
    requires Settle(sv.apply(sv.genesis, 1, 5, input), map[], 1) == m
    ensures v.node.machine == m
  {
    hide DiskOk, WheelsFit, Settle;
    ReplayOne(sv, Genesis(sv), w.hist[0]);
    assert v.hist == [w.hist[0]];
  }

  lemma LossTaken<S, I, O, N>(sv: Service<S, I, O, N>, cfg: Config, b: World<S>, c: World<S>)
    requires |b.hist| + 2 < U64_LIMIT && MayKeep(b.node.log, 0) && DoPowerLoss(sv, b.node, 0) == Opened(c.node)
    requires c.node.seqno <= |b.hist| && c.hist == b.hist[..c.node.seqno]
    ensures Next(sv, cfg, b, PowerLoss(0)) == Some(c)
  {
    hide DoPowerLoss, MayKeep;
  }

  lemma RunTwo<S, I, O, N>(sv: Service<S, I, O, N>, cfg: Config, a: World<S>, input: I, b: World<S>, c: World<S>)
    requires Next(sv, cfg, a, Action.Submit(input)) == Some(b)
    requires |b.hist| + 2 < U64_LIMIT && MayKeep(b.node.log, 0) && DoPowerLoss(sv, b.node, 0) == Opened(c.node)
    requires c.node.seqno <= |b.hist| && c.hist == b.hist[..c.node.seqno]
    ensures RunAll(sv, cfg, a, [Action.Submit(input), PowerLoss(0)]) == Some(c)
  {
    hide DoPowerLoss, MayKeep;
    LossTaken(sv, cfg, b, c);
    hide Next;
    var s: Action<I>, p: Action<I> := Action.Submit(input), PowerLoss(0);
    assert [s, p][1..] == [p] && [p][1..] == [];
    assert RunAll(sv, cfg, c, []) == Some(c);
    assert RunAll(sv, cfg, b, [p]) == Some(c);
  }

  // ----- a firing loop that need not end -----

  const PULSE := Codec.Tuple(Codec.Cons(U64, Codec.Cons(Codec.Vec(ENTRY), Codec.Nil)))

  datatype Count = Count(n: nat)

  function EncodePulse(c: Count, es: seq<TimerEntry>): seq<byte> {
    Codec.Encode(PULSE, Codec.VTuple([Codec.VUInt(c.n), EntriesValue(es)]))
  }

  function DecodePulse(bytes: seq<byte>): Option<(Count, seq<TimerEntry>)> {
    match Codec.DecodeAll(AnyText(), PULSE, bytes)
    case Bad(_) => None
    case Got(v, _) => if v.VTuple? && |v.fields| == 2 then Some((Count(NatOf(v.fields[0])), EntriesOf(v.fields[1]))) else None
  }

  /** Counts its firings: an input arms the timer of its number for now, and a
      timer that fires re-arms itself `delay` later. */
  function Pulse(delay: nat): Service<Count, Count, Count, Count> {
    Service(
      Count(0),
      (s: Count, q: nat, t: nat, i: Count) => Outcome(s, [], [SetTimer(i.n, t)]),
      (s: Count, q: nat, t: nat, id: nat) => Outcome(Count(s.n + 1), [s], [SetTimer(id, t + delay)]),
      (s: Count) => s,
      (s: Count) => s,
      (i: Count) => EncodeId(i.n),
      (b: seq<byte>) => match DecodeId(b) case None => None case Some(i) => Some(Count(i)),
      (s: Count, es: seq<TimerEntry>) => EncodePulse(s, es),
      (b: seq<byte>) => DecodePulse(b),
      1,
      (i: Count) => i.n < U64_LIMIT,
      (s: Count) => s.n < U64_LIMIT,
      (a: Count, b: Count) => a == b)
  }

  lemma PulseRoundTrip(c: Count, es: seq<TimerEntry>)
    requires c.n < U64_LIMIT && EntriesFit(es)
    ensures DecodePulse(EncodePulse(c, es)) == Some((c, es))
  {
    Widths();
    var vs := [Codec.VUInt(c.n), EntriesValue(es)];
    assert Codec.HasType(AnyText(), U64, vs[0]);
    hide Codec.HasType, Codec.FieldsHaveType, Codec.Encode, Codec.Decode, EntriesValue, EntriesOf, EntriesFit;
    EntriesTyped(es);
    TwoTyped(U64, Codec.Vec(ENTRY), vs);
    TupleTyped(Codec.Cons(U64, Codec.Cons(Codec.Vec(ENTRY), Codec.Nil)), vs);
    Codec.DecodeAllIff(AnyText(), PULSE, Codec.VTuple(vs), EncodePulse(c, es));
    BookInverse(Snap(EMPTY), es);
  }

  lemma PulseIsLawful(delay: nat)
    ensures Lawful(Pulse(delay)) && Exact(Pulse(delay)) && Periodic(Pulse(delay), delay)
  {
    hide EncodePulse, DecodePulse, EncodeId, DecodeId, EntriesFit;
    var sv := Pulse(delay);
    forall i | sv.encodable(i)
      ensures sv.decodeInput(sv.encodeInput(i)) == Some(i)
    {
      IdRoundTrip(i.n);
    }
    forall s, es | sv.storable(s) && EntriesFit(es)
      ensures sv.decodeSnapshot(sv.encodeSnapshot(sv.snapshot(s), es)) == Some((sv.snapshot(s), es))
    {
      PulseRoundTrip(s, es);
    }
  }

  /** No snapshots, every append synced, a clock that stands still. */
  function SteadyConfig(): Config {
    Config(0x10_0000, None, 1, 0, (k: nat) => 5, (k: nat) => true)
  }

  /** A snapshot after every frame, and a clock that moves on by one with every
      reading. */
  function RunningConfig(): Config {
    Config(0x10_0000, Some(1), 1, 0, (k: nat) => 5 + k, (k: nat) => true)
  }

  const ARMED := Machine(Count(0), map[0 := Due(5, 1)])

  lemma PulseArms(delay: nat)
    ensures Settle(Pulse(delay).apply(Count(0), 1, 5, Count(0)), map[], 1) == ARMED
    ensures Pulse(delay).encodable(Count(0)) && |Pulse(delay).encodeInput(Count(0))| == 8
    ensures Pulse(delay).genesis == Count(0)
  {
    hide Requests;
    ArmOne(0, 5, 1);
    IdLen(0);
  }

  lemma PulseFits(delay: nat)
    ensures Fitting(Pulse(delay), ARMED)
  {
    hide EntriesValue, EntriesOf, Entries;
    var w := ARMED.wheel;
    assert w.Keys == {0} && |w.Keys| == |w|;
    EntriesCount(w);
    var es := Entries(w);
    var vs := [Codec.VUInt(0), EntriesValue(es)];
    Codec.LenExact(PULSE, Codec.VTuple(vs));
    TupleLength(Codec.Cons(U64, Codec.Cons(Codec.Vec(ENTRY), Codec.Nil)), vs);
    TwoLength(U64, Codec.Vec(ENTRY), vs);
    EntriesLength(es);
  }

  /** One input, at time 5, and its timer is due at once. */
  lemma PulseStarts(delay: nat, cfg: Config) returns (n: Node<Count>, hist: seq<Frame>)
    requires cfg.clock(0) == 5 && FitsSegment(cfg, 8)
    ensures RunAll(Pulse(delay), cfg, Fresh(Pulse(delay)), [Action.Submit(Count(0))]) == Some(World(n, hist))
    ensures Writable(n, hist) && n.machine == ARMED && MomentOf(n) == Marked(cfg, Moment(1, 1, 5))
    ensures NextDue(n.machine.wheel, n.lastTime).Some?
  {
    hide Lawful, Exact, Periodic, Fitting, NodeOk, Settle, SequenceAt, Finish, Pulse, RunAll, Next, DoSubmit, LogOk, NextDue;
    var sv, zero := Pulse(delay), Count(0);
    PulseIsLawful(delay);
    PulseArms(delay);
    PulseFits(delay);
    FreshOpens(sv);
    var w := Fresh(sv);
    NextSucceeds(sv, cfg, w, Action.Submit(zero));
    SubmitRoomy(sv, cfg, w.node, zero);
    NextOk(sv, cfg, w, Action.Submit(zero));
    var t := DoSubmit(sv, cfg, w.node, zero).value;
    n, hist := t.node, w.hist + t.published;
    FreshWritable(sv);
    SubmitSucceeds(sv, cfg, w.node, [], zero);
    SubmitMoment(sv, cfg, w.node, zero);
    NextDueIsEarliest(n.machine.wheel, n.lastTime);
    assert 0 in n.machine.wheel && n.machine.wheel[0].at == 5;
    RunOne(sv, cfg, w, Action.Submit(zero));
  }

  lemma FreshWritable<S, I, O, N>(sv: Service<S, I, O, N>)
    ensures Writable(Fresh(sv).node, [])
  {
  }

  lemma SubmitMoment<S, I, O, N>(sv: Service<S, I, O, N>, cfg: Config, n: Node<S>, input: I)
    requires DoSubmit(sv, cfg, n, input).Some?
    ensures var stamp := Stage(cfg, n, FrameKind.Input, [], cfg.clock(n.readings)).timestamp;
            MomentOf(DoSubmit(sv, cfg, n, input).value.node) == Marked(cfg, Moment(n.seqno + 1, n.readings + 1, stamp))
  {
    hide AppendAll, Settle, Finish;
    var s := Sequence(cfg, n, FrameKind.Input, sv.encodeInput(input)).value;
    var out := sv.apply(n.machine.service, s.node.seqno, s.node.lastTime, input);
    FinishMoment(sv, cfg, s.(node := s.node.(machine := Settle(out, n.machine.wheel, s.node.seqno))));
  }

  lemma RunOne<S, I, O, N>(sv: Service<S, I, O, N>, cfg: Config, w: World<S>, a: Action<I>)
    ensures RunAll(sv, cfg, w, [a]) == Next(sv, cfg, w, a)
  {
    hide Next;
    assert [a][1..] == [];
    var r := Next(sv, cfg, w, a);
    assert r.Some? ==> RunAll(sv, cfg, r.value, []) == r;
  }

  /** The loop of a node that has been given one input, without a cadence, ends
      if and only if the delay is not zero. */
  lemma PulseEndsIff(delay: nat)
    ensures var run := RunAll(Pulse(delay), SteadyConfig(), Fresh(Pulse(delay)), [Action.Submit(Count(0))]);
            run.Some? && ((exists k :: Ended(Pulse(delay), SteadyConfig(), run.value.node, k)) <==> delay > 0)
  {
    hide RunAll, Ended, Writable, Pulse, Periodic, Lawful, Exact, NextDue;
    var n, hist := PulseStarts(delay, SteadyConfig());
    PulseIsLawful(delay);
    PlainEndsIff(Pulse(delay), SteadyConfig(), n, hist, delay);
  }

  /** With no delay every turn succeeds and leaves a timer due. */
  lemma PulseNeverEnds(k: nat)
    ensures var run := RunAll(Pulse(0), SteadyConfig(), Fresh(Pulse(0)), [Action.Submit(Count(0))]);
            && run.Some? && Fires(Pulse(0), SteadyConfig(), run.value.node, k).Some?
            && var s := Fires(Pulse(0), SteadyConfig(), run.value.node, k).value.node; NextDue(s.machine.wheel, s.lastTime).Some?
  {
    hide RunAll, Fires, Writable, Pulse, Lawful, Exact, NextDue, Periodic;
    var n, hist := PulseStarts(0, SteadyConfig());
    PulseIsLawful(0);
    PeriodicKind(Pulse(0), 0);
    StirringOn(Pulse(0), 0, n.lastTime);
    hide Stirring;
    Endless(Pulse(0), SteadyConfig(), n, hist, k);
  }

  lemma StirringOn<S(!new), I, O, N>(sv: Service<S, I, O, N>, from: nat, now: nat)
    requires Stirring(sv, from) && from <= now
    ensures Stirring(sv, now)
  {
    hide Stirs;
  }

  // ----- nor need it when handlers arm later than now -----

  lemma {:induction false} RunningStamps(m: Moment, j: nat)
    requires m == Moment(2, 2, 6)
    ensures After(RunningConfig(), m, j) == Moment(2 + 2 * j, 2 + j, 6 + j)
  {
    if j > 0 {
      RunningStamps(m, j - 1);
    }
  }

  /** On a node that snapshots after every frame, each mark of the loop reads the
      clock; with a clock that moves on by one the loop ends if and only if the
      delay is more than one. */
  lemma OutrunIff(delay: nat)
    ensures var run := RunAll(Pulse(delay), RunningConfig(), Fresh(Pulse(delay)), [Action.Submit(Count(0))]);
            run.Some? && ((exists k :: Ended(Pulse(delay), RunningConfig(), run.value.node, k)) <==> delay > 1)
  {
    hide RunAll, Ended, Writable, Pulse, Periodic, Lawful, Exact, NextDue, After;
    var cfg := RunningConfig();
    var n, hist := PulseStarts(delay, cfg);
    PulseIsLawful(delay);
    SingleEndsIff(Pulse(delay), cfg, n, hist, delay, 0);
    var m := MomentOf(n);
    forall j: nat
      ensures StampAt(cfg, m, j) == 6 + j
    {
      RunningStamps(m, j);
    }
    if delay > 1 {
      assert StampAt(cfg, m, 0 + 1) < StampAt(cfg, m, 0) + delay;
    }
  }

  /** So handlers that arm strictly later than now can keep the loop running for
      ever: with a delay of one every turn succeeds and leaves a timer due. */
  lemma OutrunNeverEnds(k: nat)
    ensures ArmsLater(Pulse(1))
    ensures var run := RunAll(Pulse(1), RunningConfig(), Fresh(Pulse(1)), [Action.Submit(Count(0))]);
            && run.Some? && Fires(Pulse(1), RunningConfig(), run.value.node, k).Some?
            && var s := Fires(Pulse(1), RunningConfig(), run.value.node, k).value.node; NextDue(s.machine.wheel, s.lastTime).Some?
  {
    hide RunAll, Fires, Writable, Pulse, Lawful, Exact, NextDue, Periodic, ArmsLater;
    PulseIsLawful(1);
    PeriodicKind(Pulse(1), 1);
    OutrunIff(1);
    var n, hist := PulseStarts(1, RunningConfig());
    TakesEveryTurn(Pulse(1), RunningConfig(), n, hist, k);
    assert !Ended(Pulse(1), RunningConfig(), n, k);
  }
}
