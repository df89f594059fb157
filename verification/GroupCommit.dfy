/** Submitting a batch with one journal write against submitting one by one. */
module GroupCommit {
  import opened Wrappers
  import opened Bytes
  import opened Frame
  import opened Segment
  import opened TimerWheel
  import opened Execution
  import opened Log
  import opened Sequencer
  import opened NodeInvariant
  import opened Recovery
  import opened NodeWrites
  import opened Firing

  // ----- the firing loop run to completion -----

  /** The outputs of the handler that turn runs. */
  function FireOut<S, I, O, N>(sv: Service<S, I, O, N>, n: Node<S>): seq<O> {
    match NextDue(n.machine.wheel, n.lastTime)
    case None => []
    case Some(id) => sv.onTimer(n.machine.service, n.seqno + 1, n.lastTime, id).outputs
  }

  function FiresOut<S, I, O, N>(sv: Service<S, I, O, N>, cfg: Config, n: Node<S>, k: nat): seq<O> {
    if k == 0 then []
    else
      match Fires(sv, cfg, n, k - 1)
      case None => []
      case Some(s) => FiresOut(sv, cfg, n, k - 1) + FireOut(sv, s.node)
  }

  /** A node, the frames it published in the order it applied them, and the
      outputs it released. */
  datatype Progress<+S, +O> = Progress(node: Node<S>, published: seq<Frame>, outputs: seq<O>)

  /** The loop run until nothing is due; None if it never gets there. */
  ghost function Settled<S, I, O, N>(sv: Service<S, I, O, N>, cfg: Config, n: Node<S>): Option<Progress<S, O>> {
    if k :| Ended(sv, cfg, n, k)
    then Some(Progress(Fires(sv, cfg, n, k).value.node, Fires(sv, cfg, n, k).value.published, FiresOut(sv, cfg, n, k)))
    else None
  }

  lemma {:induction false} FiresEarlier<S, I, O, N>(sv: Service<S, I, O, N>, cfg: Config, n: Node<S>, i: nat, k: nat)
    requires i <= k && Fires(sv, cfg, n, k).Some?
    ensures Fires(sv, cfg, n, i).Some?
    decreases k - i
  {
    hide DoFire;
    if i < k {
      FiresEarlier(sv, cfg, n, i + 1, k);
    }
  }

  lemma EndedOnce<S, I, O, N>(sv: Service<S, I, O, N>, cfg: Config, n: Node<S>, i: nat, k: nat)
    requires Ended(sv, cfg, n, i) && Ended(sv, cfg, n, k)
    ensures i >= k
  {
    hide DoFire, NextDue;
    if i < k {
      FiresEarlier(sv, cfg, n, i + 1, k);
      FireEffect(sv, cfg, Fires(sv, cfg, n, i).value.node);
    }
  }

  lemma SettledIs<S, I, O, N>(sv: Service<S, I, O, N>, cfg: Config, n: Node<S>, k: nat)
    requires Ended(sv, cfg, n, k)
    ensures Settled(sv, cfg, n)
            == Some(Progress(Fires(sv, cfg, n, k).value.node, Fires(sv, cfg, n, k).value.published, FiresOut(sv, cfg, n, k)))
  {
    hide Fires, FiresOut, Ended;
    forall i: nat | Ended(sv, cfg, n, i)
      ensures i == k
    {
      EndedOnce(sv, cfg, n, i, k);
      EndedOnce(sv, cfg, n, k, i);
    }
    EndedFires(sv, cfg, n, k);
  }

  lemma EndedFires<S, I, O, N>(sv: Service<S, I, O, N>, cfg: Config, n: Node<S>, k: nat)
    requires Ended(sv, cfg, n, k)
    ensures Fires(sv, cfg, n, k).Some?
  {
  }

  /** Nothing due: the loop does nothing. */
  lemma NothingDue<S, I, O, N>(sv: Service<S, I, O, N>, cfg: Config, n: Node<S>)
    requires NextDue(n.machine.wheel, n.lastTime) == None
    ensures Settled(sv, cfg, n) == Some(Progress(n, [], []))
  {
    hide NextDue;
    assert Ended(sv, cfg, n, 0);
    SettledIs(sv, cfg, n, 0);
  }

  // ----- one by one -----

  function Machined<S, I, O, N>(sv: Service<S, I, O, N>, m: Machine<S>, seqno: nat, stamp: nat, input: I): Machine<S> {
    Settle(sv.apply(m.service, seqno, stamp, input), m.wheel, seqno)
  }

  /** What a caller gets back for one input. */
  datatype Reply<+O> = Reply(seqno: nat, outputs: seq<O>)

  datatype Submitted<+S, +O> = Submitted(node: Node<S>, published: seq<Frame>, replies: seq<Reply<O>>)

  /** One submit after another, each followed by its firings. */
  ghost function SubmitEach<S, I, O, N>(sv: Service<S, I, O, N>, cfg: Config, n: Node<S>, inputs: seq<I>): Option<Submitted<S, O>>
    decreases |inputs|
  {
    if inputs == [] then Some(Submitted(n, [], []))
    else
      match DoSubmit(sv, cfg, n, inputs[0])
      case None => None
      case Some(a) =>
        match Settled(sv, cfg, a.node)
        case None => None
        case Some(b) =>
          var own := sv.apply(n.machine.service, n.seqno + 1, Stamp(n, cfg.clock(n.readings)), inputs[0]).outputs;
          match SubmitEach(sv, cfg, b.node, inputs[1..])
          case None => None
          case Some(c) =>
            Some(Submitted(c.node, a.published + b.published + c.published, [Reply(n.seqno + 1, own + b.outputs)] + c.replies))
  }

  function Stamp<S>(n: Node<S>, at: nat): nat { if at < n.lastTime then n.lastTime else at }

  // ----- a batch -----

  /** The batch's frames: consecutive seqs, one stamp. */
  function Staged<S, I, O, N>(sv: Service<S, I, O, N>, cfg: Config, first: nat, stamp: nat, inputs: seq<I>): (r: seq<Frame>)
    ensures |r| == |inputs|
    ensures forall i :: 0 <= i < |inputs| ==> r[i] == Frame(first + i, stamp, cfg.streamId, Input, sv.encodeInput(inputs[i]))
    decreases |inputs|
  {
    if inputs == [] then []
    else [Frame(first, stamp, cfg.streamId, Input, sv.encodeInput(inputs[0]))] + Staged(sv, cfg, first + 1, stamp, inputs[1..])
  }

  /** Snapshot on the cadence of seq `at`, which in a batch is not the last
      seq assigned. */
  function SnapshotAt<S, I, O, N>(sv: Service<S, I, O, N>, cfg: Config, n: Node<S>, at: nat): Option<Stepped<S>> {
    if !OnCadence(cfg, at) then Some(Stepped(n, []))
    else if at in n.snaps then None
    else
      match Sequence(cfg, n.(snaps := n.snaps[at := SnapshotImage(sv, n.machine, at)]), SnapshotMark, EncodeId(at))
      case None => None
      case Some(marked) => Some(marked.(node := Retain(cfg, marked.node)))
  }

  /** The batch's second half: apply each frame, snapshot on its cadence, and
      fire until nothing is due. */
  ghost function ApplyEach<S, I, O, N>(sv: Service<S, I, O, N>, cfg: Config, n: Node<S>, inputs: seq<I>, frames: seq<Frame>): Option<Submitted<S, O>>
    requires |inputs| == |frames|
    decreases |inputs|
  {
    if inputs == [] then Some(Submitted(n, [], []))
    else
      var f := frames[0];
      match SnapshotAt(sv, cfg, n.(machine := Machined(sv, n.machine, f.seqno, f.timestamp, inputs[0])), f.seqno)
      case None => None
      case Some(a) =>
        match Settled(sv, cfg, a.node)
        case None => None
        case Some(b) =>
          var own := sv.apply(n.machine.service, f.seqno, f.timestamp, inputs[0]).outputs;
          match ApplyEach(sv, cfg, b.node, inputs[1..], frames[1..])
          case None => None
          case Some(c) =>
            Some(Submitted(c.node, [f] + a.published + b.published + c.published, [Reply(f.seqno, own + b.outputs)] + c.replies))
  }

  /** The node once the whole batch is staged and journaled. */
  function Journaled<S, I, O, N>(sv: Service<S, I, O, N>, cfg: Config, n: Node<S>, inputs: seq<I>): Option<Node<S>> {
    var stamp := Stamp(n, cfg.clock(n.readings));
    match AppendAll(n.log, Staged(sv, cfg, n.seqno + 1, stamp, inputs), cfg.segmentBytes, cfg.syncs(n.appends))
    case Appended(log) =>
      Some(n.(log := log, seqno := n.seqno + |inputs|, lastTime := stamp, readings := n.readings + 1, appends := n.appends + 1))
    case _ => None
  }

  /** Group commit: stage every frame, journal them in one write, then apply. */
  ghost function DoBatch<S, I, O, N>(sv: Service<S, I, O, N>, cfg: Config, n: Node<S>, inputs: seq<I>): Option<Submitted<S, O>> {
    if inputs == [] then Some(Submitted(n, [], []))
    else
      match Journaled(sv, cfg, n, inputs)
      case None => None
      case Some(b) => ApplyEach(sv, cfg, b, inputs, Staged(sv, cfg, n.seqno + 1, Stamp(n, cfg.clock(n.readings)), inputs))
  }

  /** What a caller can check beforehand: before the last input no snapshot
      falls on the cadence, and what each input leaves armed is not yet due. */
  predicate Quiet<S, I, O, N>(sv: Service<S, I, O, N>, cfg: Config, m: Machine<S>, inputs: seq<I>, first: nat, stamp: nat)
    decreases |inputs|
  {
    |inputs| <= 1
    || (var next := Machined(sv, m, first, stamp, inputs[0]);
        !OnCadence(cfg, first) && NextDue(next.wheel, stamp) == None && Quiet(sv, cfg, next, inputs[1..], first + 1, stamp))
  }

  // ----- nodes that differ only in how they wrote their journal -----

  ghost predicate SameButLog<S>(a: Node<S>, b: Node<S>) {
    a.machine == b.machine && a.snaps == b.snaps && a.seqno == b.seqno && a.lastTime == b.lastTime
  }

  ghost predicate SameStep<S>(a: Stepped<S>, b: Stepped<S>) {
    SameButLog(a.node, b.node) && a.published == b.published
  }

  ghost predicate Steady(cfg: Config, now: nat) {
    forall k :: cfg.clock(k) == now
  }

  /** Marks are stamped alike whenever they are written: the clock is constant,
      or there are none. */
  ghost predicate MarksAlike(cfg: Config, now: nat) {
    cfg.every == None || Steady(cfg, now)
  }

  lemma SequenceSame<S>(cfg: Config, a: Node<S>, b: Node<S>, kind: FrameKind, payload: seq<byte>, now: nat)
    requires Steady(cfg, now) && SameButLog(a, b)
    requires Sequence(cfg, a, kind, payload).Some? && Sequence(cfg, b, kind, payload).Some?
    ensures SameStep(Sequence(cfg, a, kind, payload).value, Sequence(cfg, b, kind, payload).value)
  {
    hide AppendAll;
    assert cfg.clock(a.readings) == now && cfg.clock(b.readings) == now;
  }

  lemma SnapshotSame<S, I, O, N>(sv: Service<S, I, O, N>, cfg: Config, a: Node<S>, b: Node<S>, at: nat, now: nat)
    requires MarksAlike(cfg, now) && SameButLog(a, b)
    requires SnapshotAt(sv, cfg, a, at).Some? && SnapshotAt(sv, cfg, b, at).Some?
    ensures SameStep(SnapshotAt(sv, cfg, a, at).value, SnapshotAt(sv, cfg, b, at).value)
  {
    hide Sequence, Steady, SnapshotImage, Prune, Compact;
    if OnCadence(cfg, at) {
      var x := a.(snaps := a.snaps[at := SnapshotImage(sv, a.machine, at)]);
      var y := b.(snaps := b.snaps[at := SnapshotImage(sv, b.machine, at)]);
      SequenceSame(cfg, x, y, SnapshotMark, EncodeId(at), now);
    }
  }

  lemma SnapshotIsAt<S, I, O, N>(sv: Service<S, I, O, N>, cfg: Config, n: Node<S>)
    ensures MaybeSnapshot(sv, cfg, n) == SnapshotAt(sv, cfg, n, n.seqno)
  {
    hide Sequence, SnapshotImage, Retain;
  }

  lemma FireSame<S, I, O, N>(sv: Service<S, I, O, N>, cfg: Config, a: Node<S>, b: Node<S>, now: nat)
    requires MarksAlike(cfg, now) && SameButLog(a, b)
    requires DoFire(sv, cfg, a).Some? && DoFire(sv, cfg, b).Some?
    ensures SameStep(DoFire(sv, cfg, a).value, DoFire(sv, cfg, b).value)
  {
    hide AppendAll, MaybeSnapshot, Settle, NextDue, EncodeId, SnapshotAt;
    var id := NextDue(a.machine.wheel, a.lastTime).value;
    var s, t := SequenceAt(cfg, a, TimerFired, EncodeId(id), a.lastTime).value, SequenceAt(cfg, b, TimerFired, EncodeId(id), b.lastTime).value;
    var m := Settle(sv.onTimer(a.machine.service, s.node.seqno, s.node.lastTime, id), a.machine.wheel - {id}, s.node.seqno);
    var x, y := s.node.(machine := m), t.node.(machine := m);
    SnapshotIsAt(sv, cfg, x);
    SnapshotIsAt(sv, cfg, y);
    SnapshotSame(sv, cfg, x, y, x.seqno, now);
  }

  /** Two nodes that can write fire the same timers, equally often, to the same
      effect. */
  lemma {:induction false} FiresSame<S, I, O, N>(sv: Service<S, I, O, N>, cfg: Config, a: Node<S>, b: Node<S>, ha: seq<Frame>, hb: seq<Frame>, k: nat, now: nat)
    requires MarksAlike(cfg, now) && SameButLog(a, b) && FitsSegment(cfg, 8)
    requires Writable(a, ha) && Writable(b, hb)
    requires Fires(sv, cfg, a, k).Some?
    ensures Fires(sv, cfg, b, k).Some?
    ensures SameStep(Fires(sv, cfg, a, k).value, Fires(sv, cfg, b, k).value)
    ensures FiresOut(sv, cfg, a, k) == FiresOut(sv, cfg, b, k)
  {
    hide DoFire, MarksAlike, Writable, NextDue;
    if k > 0 {
      FiresSame(sv, cfg, a, b, ha, hb, k - 1, now);
      var s, t := Fires(sv, cfg, a, k - 1).value, Fires(sv, cfg, b, k - 1).value;
      FireEffect(sv, cfg, s.node);
      FiresWrite(sv, cfg, b, hb, k - 1);
      FireSucceeds(sv, cfg, t.node, hb + t.published);
      FireSame(sv, cfg, s.node, t.node, now);
    }
  }

  lemma SettledHalf<S, I, O, N>(sv: Service<S, I, O, N>, cfg: Config, a: Node<S>, b: Node<S>, ha: seq<Frame>, hb: seq<Frame>, now: nat)
    requires MarksAlike(cfg, now) && SameButLog(a, b) && FitsSegment(cfg, 8)
    requires Writable(a, ha) && Writable(b, hb)
    requires Settled(sv, cfg, a).Some?
    ensures Settled(sv, cfg, b).Some?
    ensures SameProgress(Settled(sv, cfg, a).value, Settled(sv, cfg, b).value)
  {
    hide MarksAlike, Writable, NextDue, DoFire, Fires, FiresOut;
    var k :| Ended(sv, cfg, a, k);
    SettledIs(sv, cfg, a, k);
    FiresSame(sv, cfg, a, b, ha, hb, k, now);
    assert Ended(sv, cfg, b, k);
    SettledIs(sv, cfg, b, k);
  }

  ghost predicate SameProgress<S, O>(a: Progress<S, O>, b: Progress<S, O>) {
    SameButLog(a.node, b.node) && a.published == b.published && a.outputs == b.outputs
  }

  lemma SettledSame<S, I, O, N>(sv: Service<S, I, O, N>, cfg: Config, a: Node<S>, b: Node<S>, ha: seq<Frame>, hb: seq<Frame>, now: nat)
    requires MarksAlike(cfg, now) && SameButLog(a, b) && FitsSegment(cfg, 8)
    requires Writable(a, ha) && Writable(b, hb)
    ensures Settled(sv, cfg, a).Some? <==> Settled(sv, cfg, b).Some?
    ensures Settled(sv, cfg, a).Some? ==> SameProgress(Settled(sv, cfg, a).value, Settled(sv, cfg, b).value)
  {
    hide MarksAlike, Writable, Settled;
    if Settled(sv, cfg, a).Some? {
      SettledHalf(sv, cfg, a, b, ha, hb, now);
    }
    if Settled(sv, cfg, b).Some? {
      SettledHalf(sv, cfg, b, a, hb, ha, now);
    }
  }

  ghost predicate SameSubmitted<S, O>(a: Submitted<S, O>, b: Submitted<S, O>) {
    SameButLog(a.node, b.node) && a.published == b.published && a.replies == b.replies
  }

  // ----- a batch is its inputs submitted one by one -----

  /** `b` has staged `count` frames with `stamp` that `a` has yet to sequence. */
  ghost predicate Ahead<S>(cfg: Config, a: Node<S>, b: Node<S>, count: nat, stamp: nat) {
    && a.machine == b.machine && a.snaps == b.snaps
    && b.seqno == a.seqno + count && b.lastTime == stamp && Stamp(a, cfg.clock(a.readings)) == stamp
  }

  /** Of `count` readings from `first` on, none after the first is later than
      `stamp`. */
  ghost predicate Punctual(cfg: Config, first: nat, count: nat, stamp: nat) {
    forall k :: first < k < first + count ==> cfg.clock(k) <= stamp
  }

  lemma PunctualNext(cfg: Config, first: nat, count: nat, stamp: nat)
    requires count > 1
    ensures Punctual(cfg, first, count, stamp) <==> cfg.clock(first + 1) <= stamp && Punctual(cfg, first + 1, count - 1, stamp)
  {
    if cfg.clock(first + 1) <= stamp && Punctual(cfg, first + 1, count - 1, stamp) {
      forall k | first < k < first + count
        ensures cfg.clock(k) <= stamp
      {
        assert k == first + 1 || first + 1 < k;
      }
    }
  }

  /** Every input fits a segment on its own, and so do marks and firings. */
  ghost predicate InputsFit<S, I, O, N>(sv: Service<S, I, O, N>, cfg: Config, inputs: seq<I>) {
    FitsSegment(cfg, 8) && forall i :: 0 <= i < |inputs| ==> FitsSegment(cfg, |sv.encodeInput(inputs[i])|)
  }

  /** The node that has sequenced and applied `input` and not yet looked at the
      cadence. */
  lemma SubmitUnfolds<S, I, O, N>(sv: Service<S, I, O, N>, cfg: Config, a: Node<S>, ha: seq<Frame>, input: I) returns (x: Node<S>, f: Frame)
    requires Writable(a, ha) && FitsSegment(cfg, |sv.encodeInput(input)|)
    ensures f == Frame(a.seqno + 1, Stamp(a, cfg.clock(a.readings)), cfg.streamId, Input, sv.encodeInput(input))
    ensures x.machine == Machined(sv, a.machine, f.seqno, f.timestamp, input)
    ensures x.snaps == a.snaps && x.seqno == f.seqno && x.lastTime == f.timestamp && Writable(x, ha + [f])
    ensures x.readings == a.readings + 1
    ensures DoSubmit(sv, cfg, a, input) ==
            match SnapshotAt(sv, cfg, x, x.seqno)
            case None => None
            case Some(t) => Some(Stepped(t.node, [f] + t.published))
  {
    hide LogOk, SequenceAt, MaybeSnapshot, SnapshotAt, Settle;
    var r, at := a.(readings := a.readings + 1), cfg.clock(a.readings);
    f := Stage(cfg, r, Input, sv.encodeInput(input), at);
    SequenceFailsIff(cfg, r, ha, Input, sv.encodeInput(input), at);
    SequenceWrites(cfg, r, ha, Input, sv.encodeInput(input), at);
    var s := SequenceAt(cfg, r, Input, sv.encodeInput(input), at).value;
    x := s.node.(machine := Machined(sv, a.machine, f.seqno, f.timestamp, input));
    SnapshotIsAt(sv, cfg, x);
  }

  lemma NoCadence<S, I, O, N>(sv: Service<S, I, O, N>, cfg: Config, n: Node<S>, at: nat)
    requires !OnCadence(cfg, at)
    ensures SnapshotAt(sv, cfg, n, at) == Some(Stepped(n, []))
  {
  }

  /** The last input: both sides snapshot and fire alike. */
  lemma LastSame<S, I, O, N>(sv: Service<S, I, O, N>, cfg: Config, x: Node<S>, y: Node<S>, hx: seq<Frame>, hy: seq<Frame>, now: nat)
    requires MarksAlike(cfg, now) && SameButLog(x, y) && FitsSegment(cfg, 8)
    requires Writable(x, hx) && Writable(y, hy) && x.seqno !in x.snaps
    ensures var a, b := SnapshotAt(sv, cfg, x, x.seqno), SnapshotAt(sv, cfg, y, x.seqno);
            && a.Some? && b.Some? && SameStep(a.value, b.value)
            && (Settled(sv, cfg, a.value.node).Some? <==> Settled(sv, cfg, b.value.node).Some?)
            && (Settled(sv, cfg, a.value.node).Some? ==>
                  SameProgress(Settled(sv, cfg, a.value.node).value, Settled(sv, cfg, b.value.node).value))
  {
    hide MarksAlike, LogOk, MaybeSnapshot, SnapshotAt, Settled;
    SnapshotSucceeds(sv, cfg, x, hx);
    SnapshotSucceeds(sv, cfg, y, hy);
    SnapshotIsAt(sv, cfg, x);
    SnapshotIsAt(sv, cfg, y);
    SnapshotSame(sv, cfg, x, y, x.seqno, now);
    var a, b := SnapshotAt(sv, cfg, x, x.seqno).value, SnapshotAt(sv, cfg, y, x.seqno).value;
    SettledSame(sv, cfg, a.node, b.node, hx + a.published, hy + b.published, now);
  }

  /** Applying the staged rest of a batch is submitting the rest. */
  lemma {:induction false} EachSame<S, I, O, N>(sv: Service<S, I, O, N>, cfg: Config, a: Node<S>, b: Node<S>,
                                                ha: seq<Frame>, hb: seq<Frame>, inputs: seq<I>, stamp: nat, now: nat)
    requires inputs != [] && MarksAlike(cfg, now) && InputsFit(sv, cfg, inputs)
    requires Ahead(cfg, a, b, |inputs|, stamp) && Punctual(cfg, a.readings, |inputs|, stamp) && Writable(a, ha) && Writable(b, hb)
    requires Quiet(sv, cfg, a.machine, inputs, a.seqno + 1, stamp)
    ensures var x, y := SubmitEach(sv, cfg, a, inputs), ApplyEach(sv, cfg, b, inputs, Staged(sv, cfg, a.seqno + 1, stamp, inputs));
            && (x.Some? <==> y.Some?)
            && (x.Some? ==> SameSubmitted(x.value, y.value))
    decreases |inputs|
  {
    hide LogOk, MarksAlike, Punctual, DoSubmit, SnapshotAt, Machined, Settled, OnCadence, NextDue;
    var x, f := SubmitUnfolds(sv, cfg, a, ha, inputs[0]);
    var y := b.(machine := Machined(sv, b.machine, f.seqno, f.timestamp, inputs[0]));
    var frames := Staged(sv, cfg, a.seqno + 1, stamp, inputs);
    assert frames[0] == f && frames[1..] == Staged(sv, cfg, a.seqno + 2, stamp, inputs[1..]);
    if |inputs| == 1 {
      assert inputs[1..] == [];
      LastSame(sv, cfg, x, y, ha + [f], hb, now);
    } else {
      PunctualNext(cfg, a.readings, |inputs|, stamp);
      NoCadence(sv, cfg, x, f.seqno);
      NoCadence(sv, cfg, y, f.seqno);
      NothingDue(sv, cfg, x);
      NothingDue(sv, cfg, y);
      EachSame(sv, cfg, x, y, ha + [f], hb, inputs[1..], stamp, now);
      assert [f] + [] + [] == [f];
    }
  }

  lemma {:induction false} StagedInOrder<S, I, O, N>(sv: Service<S, I, O, N>, cfg: Config, first: nat, stamp: nat, inputs: seq<I>)
    ensures Misplaced(Staged(sv, cfg, first, stamp, inputs), first) == None
    decreases |inputs|
  {
    if inputs != [] {
      StagedInOrder(sv, cfg, first + 1, stamp, inputs[1..]);
      assert Staged(sv, cfg, first, stamp, inputs)[1..] == Staged(sv, cfg, first + 1, stamp, inputs[1..]);
    }
  }

  lemma JournaledIs<S, I, O, N>(sv: Service<S, I, O, N>, cfg: Config, n: Node<S>, hist: seq<Frame>, inputs: seq<I>)
    requires Writable(n, hist) && inputs != []
    ensures var frames := Staged(sv, cfg, n.seqno + 1, Stamp(n, cfg.clock(n.readings)), inputs);
            var b := Journaled(sv, cfg, n, inputs);
            && (b.None? <==> Wedged(n.log, |EncodeAll(frames)|, cfg.segmentBytes))
            && (b.Some? ==> Writable(b.value, hist + frames))
  {
    hide LogOk, Staged, EncodeAll, AppendAll, Misplaced, DurableEnd, Start;
    var stamp := Stamp(n, cfg.clock(n.readings));
    var frames := Staged(sv, cfg, n.seqno + 1, stamp, inputs);
    StagedInOrder(sv, cfg, n.seqno + 1, stamp, inputs);
    LastIs(n.log, hist);
    AppendFailsIff(n.log, hist, frames, cfg.segmentBytes, cfg.syncs(n.appends));
    if AppendAll(n.log, frames, cfg.segmentBytes, cfg.syncs(n.appends)).Appended? {
      AppendOk(n.log, hist, frames, cfg.segmentBytes, cfg.syncs(n.appends));
    }
  }

  /** Group commit refinement. A quiet batch that the journal takes gives exactly
      the seqs, frames, outputs, state and snapshots of submitting one by one,
      and runs through exactly when that does: if the clock is constant, or there
      is no cadence and it stays at the batch's stamp while the inputs go in. */
  lemma BatchIsSubmits<S, I, O, N>(sv: Service<S, I, O, N>, cfg: Config, n: Node<S>, hist: seq<Frame>, inputs: seq<I>, now: nat)
    requires MarksAlike(cfg, now) && Writable(n, hist) && InputsFit(sv, cfg, inputs)
    requires var stamp := Stamp(n, cfg.clock(n.readings));
             Quiet(sv, cfg, n.machine, inputs, n.seqno + 1, stamp) && Punctual(cfg, n.readings, |inputs|, stamp)
    ensures var frames := Staged(sv, cfg, n.seqno + 1, Stamp(n, cfg.clock(n.readings)), inputs);
            var x, y := SubmitEach(sv, cfg, n, inputs), DoBatch(sv, cfg, n, inputs);
            && (y.Some? <==> x.Some? && !(inputs != [] && Wedged(n.log, |EncodeAll(frames)|, cfg.segmentBytes)))
            && (y.Some? ==> SameSubmitted(x.value, y.value))
  {
    hide LogOk, ApplyEach, SubmitEach, Quiet, Punctual, MarksAlike, Staged, EncodeAll, AppendAll, InputsFit;
    if inputs == [] {
      NoInputs(sv, cfg, n);
      assert inputs == [];
    } else {
      var stamp := Stamp(n, cfg.clock(n.readings));
      JournaledIs(sv, cfg, n, hist, inputs);
      var b := Journaled(sv, cfg, n, inputs);
      if b.Some? {
        EachSame(sv, cfg, n, b.value, hist, hist + Staged(sv, cfg, n.seqno + 1, stamp, inputs), inputs, stamp, now);
      }
    }
  }

  lemma NoInputs<S, I, O, N>(sv: Service<S, I, O, N>, cfg: Config, n: Node<S>)
    ensures SubmitEach(sv, cfg, n, []) == Some(Submitted(n, [], []))
    ensures DoBatch(sv, cfg, n, []) == Some(Submitted(n, [], []))
  {
  }

  // ----- exactly when a batch keeps apply order in seq order -----

  /** The frames carry consecutive seqs from `first`. */
  ghost predicate Consecutive(frames: seq<Frame>, first: nat) {
    forall i :: 0 <= i < |frames| ==> frames[i].seqno == first + i
  }

  /** A step published consecutive frames right after the node's last seq. */
  ghost predicate Follows<S>(n: Node<S>, s: Stepped<S>) {
    Consecutive(s.published, n.seqno + 1) && s.node.seqno == n.seqno + |s.published|
  }

  lemma FollowsChain<S>(n: Node<S>, a: Stepped<S>, b: Stepped<S>)
    requires Follows(n, a) && Follows(a.node, b)
    ensures Follows(n, Stepped(b.node, a.published + b.published))
  {
  }

  lemma SnapshotFollows<S, I, O, N>(sv: Service<S, I, O, N>, cfg: Config, n: Node<S>, at: nat)
    requires SnapshotAt(sv, cfg, n, at).Some?
    ensures Follows(n, SnapshotAt(sv, cfg, n, at).value)
    ensures |SnapshotAt(sv, cfg, n, at).value.published| == if OnCadence(cfg, at) then 1 else 0
  {
    hide AppendAll, SnapshotImage, Prune, Compact, Least;
  }

  lemma FireFollows<S, I, O, N>(sv: Service<S, I, O, N>, cfg: Config, n: Node<S>)
    requires DoFire(sv, cfg, n).Some?
    ensures Follows(n, DoFire(sv, cfg, n).value)
    ensures |DoFire(sv, cfg, n).value.published| >= 1
  {
    hide AppendAll, MaybeSnapshot, Settle, NextDue, EncodeId, SnapshotAt;
    var id := NextDue(n.machine.wheel, n.lastTime).value;
    var s := SequenceAt(cfg, n, TimerFired, EncodeId(id), n.lastTime).value;
    var x := s.node.(machine := Settle(sv.onTimer(n.machine.service, s.node.seqno, s.node.lastTime, id), n.machine.wheel - {id}, s.node.seqno));
    SnapshotIsAt(sv, cfg, x);
    SnapshotFollows(sv, cfg, x, x.seqno);
  }

  lemma {:induction false} FiresFollow<S, I, O, N>(sv: Service<S, I, O, N>, cfg: Config, n: Node<S>, k: nat)
    requires Fires(sv, cfg, n, k).Some?
    ensures Follows(n, Fires(sv, cfg, n, k).value)
    ensures Fires(sv, cfg, n, k).value.published == [] <==> k == 0
  {
    hide DoFire;
    if k > 0 {
      FiresFollow(sv, cfg, n, k - 1);
      var s := Fires(sv, cfg, n, k - 1).value;
      FireFollows(sv, cfg, s.node);
      FollowsChain(n, s, DoFire(sv, cfg, s.node).value);
    }
  }

  /** The loop publishes something if and only if something is due. */
  lemma SettledFollows<S, I, O, N>(sv: Service<S, I, O, N>, cfg: Config, n: Node<S>)
    requires Settled(sv, cfg, n).Some?
    ensures var s := Settled(sv, cfg, n).value;
            && Follows(n, Stepped(s.node, s.published))
            && (s.published == [] <==> NextDue(n.machine.wheel, n.lastTime) == None)
            && (s.published == [] ==> s.node == n)
  {
    hide DoFire, Fires, FiresOut, NextDue;
    var k :| Ended(sv, cfg, n, k);
    SettledIs(sv, cfg, n, k);
    FiresFollow(sv, cfg, n, k);
    if NextDue(n.machine.wheel, n.lastTime) == None {
      NothingDue(sv, cfg, n);
    } else if k == 0 {
      NoTurns(sv, cfg, n);
    }
  }

  lemma NoTurns<S, I, O, N>(sv: Service<S, I, O, N>, cfg: Config, n: Node<S>)
    ensures Fires(sv, cfg, n, 0) == Some(Stepped(n, []))
  {
  }

  /** What one input of a batch publishes: its own frame, then whatever its
      cadence and its firings add after everything staged. */
  lemma FirstOfBatch<S, I, O, N>(sv: Service<S, I, O, N>, cfg: Config, n: Node<S>, inputs: seq<I>, frames: seq<Frame>)
      returns (extra: Stepped<S>)
    requires |inputs| == |frames| && inputs != []
    requires ApplyEach(sv, cfg, n, inputs, frames).Some?
    ensures var m := Machined(sv, n.machine, frames[0].seqno, frames[0].timestamp, inputs[0]);
            && (extra.published == [] <==> !OnCadence(cfg, frames[0].seqno) && NextDue(m.wheel, n.lastTime) == None)
            && (extra.published == [] ==> extra.node == n.(machine := m))
    ensures Follows(n, extra)
    ensures ApplyEach(sv, cfg, extra.node, inputs[1..], frames[1..]).Some?
    ensures ApplyEach(sv, cfg, n, inputs, frames).value.published
            == [frames[0]] + extra.published + ApplyEach(sv, cfg, extra.node, inputs[1..], frames[1..]).value.published
  {
    hide SnapshotAt, Settled, Machined, OnCadence, NextDue;
    var x := n.(machine := Machined(sv, n.machine, frames[0].seqno, frames[0].timestamp, inputs[0]));
    var a := SnapshotAt(sv, cfg, x, frames[0].seqno).value;
    var b := Settled(sv, cfg, a.node).value;
    SnapshotFollows(sv, cfg, x, frames[0].seqno);
    if !OnCadence(cfg, frames[0].seqno) {
      NoCadence(sv, cfg, x, frames[0].seqno);
    }
    SettledFollows(sv, cfg, a.node);
    FollowsChain(x, a, Stepped(b.node, b.published));
    extra := Stepped(b.node, a.published + b.published);
    var c := ApplyEach(sv, cfg, b.node, inputs[1..], frames[1..]).value;
    assert [frames[0]] + a.published + b.published + c.published == [frames[0]] + (a.published + b.published) + c.published;
  }

  lemma {:induction false} EachInOrderIff<S, I, O, N>(sv: Service<S, I, O, N>, cfg: Config, n: Node<S>, inputs: seq<I>, frames: seq<Frame>, first: nat)
    requires |inputs| == |frames| && inputs != []
    requires Consecutive(frames, first) && n.seqno == first + |frames| - 1
    requires forall i :: 0 <= i < |frames| ==> frames[i].timestamp == n.lastTime
    requires ApplyEach(sv, cfg, n, inputs, frames).Some?
    ensures Consecutive(ApplyEach(sv, cfg, n, inputs, frames).value.published, first)
            <==> Quiet(sv, cfg, n.machine, inputs, first, n.lastTime)
    decreases |inputs|
  {
    hide ApplyEach, OnCadence, NextDue, Machined;
    var extra := FirstOfBatch(sv, cfg, n, inputs, frames);
    var all := ApplyEach(sv, cfg, n, inputs, frames).value.published;
    var rest := ApplyEach(sv, cfg, extra.node, inputs[1..], frames[1..]).value.published;
    if |inputs| == 1 {
      assert inputs[1..] == [] && frames[1..] == [];
      NothingLeft(sv, cfg, extra.node, inputs[1..], frames[1..]);
      LastInOrder(frames[0], extra.published, first);
      assert all == [frames[0]] + extra.published;
    } else if extra.published == [] {
      assert all == [frames[0]] + rest;
      ShiftConsecutive(frames[0], rest, first);
      ShiftConsecutive(frames[0], frames[1..], first);
      assert frames == [frames[0]] + frames[1..];
      EachInOrderIff(sv, cfg, extra.node, inputs[1..], frames[1..], first + 1);
    } else {
      assert all[1] == extra.published[0];
    }
  }

  lemma LastInOrder(f: Frame, extra: seq<Frame>, first: nat)
    requires f.seqno == first && Consecutive(extra, first + 1)
    ensures Consecutive([f] + extra, first)
  {
  }

  lemma NothingLeft<S, I, O, N>(sv: Service<S, I, O, N>, cfg: Config, n: Node<S>, inputs: seq<I>, frames: seq<Frame>)
    requires inputs == [] && frames == []
    ensures ApplyEach(sv, cfg, n, inputs, frames) == Some(Submitted(n, [], []))
  {
  }

  lemma ShiftConsecutive(f: Frame, rest: seq<Frame>, first: nat)
    requires f.seqno == first
    ensures Consecutive([f] + rest, first) <==> Consecutive(rest, first + 1)
  {
    if Consecutive([f] + rest, first) {
      forall i | 0 <= i < |rest|
        ensures rest[i].seqno == first + 1 + i
      {
        assert ([f] + rest)[i + 1] == rest[i];
      }
    }
  }

  /** A batch applies its frames in seq order, as every journal replay does, if
      and only if it is quiet: as soon as a timer falls due or a mark is written
      before the last input, the next frame applied is not the next in seq. */
  lemma BatchInOrderIff<S, I, O, N>(sv: Service<S, I, O, N>, cfg: Config, n: Node<S>, inputs: seq<I>)
    requires inputs != [] && DoBatch(sv, cfg, n, inputs).Some?
    ensures Consecutive(DoBatch(sv, cfg, n, inputs).value.published, n.seqno + 1)
            <==> Quiet(sv, cfg, n.machine, inputs, n.seqno + 1, Stamp(n, cfg.clock(n.readings)))
  {
    hide AppendAll, ApplyEach, Quiet;
    var stamp := Stamp(n, cfg.clock(n.readings));
    var frames := Staged(sv, cfg, n.seqno + 1, stamp, inputs);
    EachInOrderIff(sv, cfg, Journaled(sv, cfg, n, inputs).value, inputs, frames, n.seqno + 1);
  }

  lemma SubmitFollows<S, I, O, N>(sv: Service<S, I, O, N>, cfg: Config, n: Node<S>, input: I)
    requires DoSubmit(sv, cfg, n, input).Some?
    ensures Follows(n, DoSubmit(sv, cfg, n, input).value)
  {
    hide AppendAll, MaybeSnapshot, Settle, SnapshotAt;
    var s := Sequence(cfg, n, Input, sv.encodeInput(input)).value;
    var x := s.node.(machine := Machined(sv, n.machine, s.node.seqno, s.node.lastTime, input));
    SnapshotIsAt(sv, cfg, x);
    SnapshotFollows(sv, cfg, x, x.seqno);
  }

  /** Submitting one by one always applies in seq order. */
  lemma {:induction false} SubmitsFollow<S, I, O, N>(sv: Service<S, I, O, N>, cfg: Config, n: Node<S>, inputs: seq<I>)
    requires SubmitEach(sv, cfg, n, inputs).Some?
    ensures var c := SubmitEach(sv, cfg, n, inputs).value; Follows(n, Stepped(c.node, c.published))
    decreases |inputs|
  {
    hide DoSubmit, Settled;
    if inputs != [] {
      var a := DoSubmit(sv, cfg, n, inputs[0]).value;
      var b := Settled(sv, cfg, a.node).value;
      var c := SubmitEach(sv, cfg, b.node, inputs[1..]).value;
      SubmitFollows(sv, cfg, n, inputs[0]);
      SettledFollows(sv, cfg, a.node);
      FollowsChain(n, a, Stepped(b.node, b.published));
      SubmitsFollow(sv, cfg, b.node, inputs[1..]);
      FollowsChain(n, Stepped(b.node, a.published + b.published), Stepped(c.node, c.published));
    }
  }

  /** A quiet batch and single submits that publish the same frames have read
      the same time. */
  lemma {:induction false} EachPunctual<S, I, O, N>(sv: Service<S, I, O, N>, cfg: Config, a: Node<S>, b: Node<S>,
                                                    ha: seq<Frame>, hb: seq<Frame>, inputs: seq<I>, stamp: nat)
    requires inputs != [] && InputsFit(sv, cfg, inputs)
    requires Ahead(cfg, a, b, |inputs|, stamp) && Writable(a, ha) && Writable(b, hb)
    requires Quiet(sv, cfg, a.machine, inputs, a.seqno + 1, stamp)
    requires var x, y := SubmitEach(sv, cfg, a, inputs), ApplyEach(sv, cfg, b, inputs, Staged(sv, cfg, a.seqno + 1, stamp, inputs));
             x.Some? && y.Some? && x.value.published == y.value.published
    ensures Punctual(cfg, a.readings, |inputs|, stamp)
    decreases |inputs|
  {
    hide LogOk, Punctual, DoSubmit, SnapshotAt, Machined, Settled, OnCadence, NextDue;
    if |inputs| == 1 {
      PunctualOne(cfg, a.readings, stamp);
    } else {
      var x, f := SubmitUnfolds(sv, cfg, a, ha, inputs[0]);
      var y := b.(machine := Machined(sv, b.machine, f.seqno, f.timestamp, inputs[0]));
      var frames := Staged(sv, cfg, a.seqno + 1, stamp, inputs);
      var more := Staged(sv, cfg, a.seqno + 2, stamp, inputs[1..]);
      assert frames[0] == f && frames[1..] == more;
      NoCadence(sv, cfg, x, f.seqno);
      NoCadence(sv, cfg, y, f.seqno);
      NothingDue(sv, cfg, x);
      NothingDue(sv, cfg, y);
      var c, d := SubmitEach(sv, cfg, x, inputs[1..]), ApplyEach(sv, cfg, y, inputs[1..], more);
      assert [f] + [] + [] == [f];
      SameTail(f, c.value.published, d.value.published);
      FirstStamp(sv, cfg, x, ha + [f], inputs[1..]);
      FirstApplied(sv, cfg, y, inputs[1..], more);
      PunctualNext(cfg, a.readings, |inputs|, stamp);
      EachPunctual(sv, cfg, x, y, ha + [f], hb, inputs[1..], stamp);
    }
  }

  lemma PunctualOne(cfg: Config, first: nat, stamp: nat)
    ensures Punctual(cfg, first, 1, stamp)
  {
  }

  lemma SameTail(f: Frame, a: seq<Frame>, b: seq<Frame>)
    requires [f] + a == [f] + b
    ensures a == b
  {
    assert ([f] + a)[1..] == a && ([f] + b)[1..] == b;
  }

  lemma FirstStamp<S, I, O, N>(sv: Service<S, I, O, N>, cfg: Config, n: Node<S>, hist: seq<Frame>, inputs: seq<I>)
    requires inputs != [] && Writable(n, hist) && InputsFit(sv, cfg, inputs) && SubmitEach(sv, cfg, n, inputs).Some?
    ensures var p := SubmitEach(sv, cfg, n, inputs).value.published; p != [] && p[0].timestamp == Stamp(n, cfg.clock(n.readings))
  {
    hide LogOk, DoSubmit, SnapshotAt, Settled;
    var x, f := SubmitUnfolds(sv, cfg, n, hist, inputs[0]);
  }

  lemma FirstApplied<S, I, O, N>(sv: Service<S, I, O, N>, cfg: Config, n: Node<S>, inputs: seq<I>, frames: seq<Frame>)
    requires inputs != [] && |inputs| == |frames| && ApplyEach(sv, cfg, n, inputs, frames).Some?
    ensures var p := ApplyEach(sv, cfg, n, inputs, frames).value.published; p != [] && p[0] == frames[0]
  {
    hide SnapshotAt, Settled, Machined;
  }

  lemma BatchPunctual<S, I, O, N>(sv: Service<S, I, O, N>, cfg: Config, n: Node<S>, hist: seq<Frame>, inputs: seq<I>)
    requires inputs != [] && Writable(n, hist) && InputsFit(sv, cfg, inputs)
    requires SubmitEach(sv, cfg, n, inputs).Some? && DoBatch(sv, cfg, n, inputs).Some?
    requires SubmitEach(sv, cfg, n, inputs).value.published == DoBatch(sv, cfg, n, inputs).value.published
    requires Quiet(sv, cfg, n.machine, inputs, n.seqno + 1, Stamp(n, cfg.clock(n.readings)))
    ensures Punctual(cfg, n.readings, |inputs|, Stamp(n, cfg.clock(n.readings)))
  {
    hide LogOk, ApplyEach, SubmitEach, Quiet, Punctual, Staged, AppendAll, InputsFit;
    var stamp := Stamp(n, cfg.clock(n.readings));
    JournaledIs(sv, cfg, n, hist, inputs);
    var b := Journaled(sv, cfg, n, inputs).value;
    EachPunctual(sv, cfg, n, b, hist, hist + Staged(sv, cfg, n.seqno + 1, stamp, inputs), inputs, stamp);
  }

  /** Of a batch and single submits that both go through, under a constant clock
      or without a cadence: they are the same if and only if the batch is quiet
      and no input after the first would have read a later time. */
  lemma BatchIsSubmitsIff<S, I, O, N>(sv: Service<S, I, O, N>, cfg: Config, n: Node<S>, hist: seq<Frame>, inputs: seq<I>, now: nat)
    requires MarksAlike(cfg, now) && Writable(n, hist) && InputsFit(sv, cfg, inputs)
    requires SubmitEach(sv, cfg, n, inputs).Some? && DoBatch(sv, cfg, n, inputs).Some?
    ensures var stamp := Stamp(n, cfg.clock(n.readings));
            SameSubmitted(SubmitEach(sv, cfg, n, inputs).value, DoBatch(sv, cfg, n, inputs).value)
            <==> Quiet(sv, cfg, n.machine, inputs, n.seqno + 1, stamp) && Punctual(cfg, n.readings, |inputs|, stamp)
  {
    hide Writable, SubmitEach, DoBatch, Consecutive, InputsFit, MarksAlike;
    var stamp := Stamp(n, cfg.clock(n.readings));
    if SameSubmitted(SubmitEach(sv, cfg, n, inputs).value, DoBatch(sv, cfg, n, inputs).value) && inputs != [] {
      BatchInOrderIff(sv, cfg, n, inputs);
      SubmitsFollow(sv, cfg, n, inputs);
      BatchPunctual(sv, cfg, n, hist, inputs);
    }
    if Quiet(sv, cfg, n.machine, inputs, n.seqno + 1, stamp) && Punctual(cfg, n.readings, |inputs|, stamp) {
      BatchIsSubmits(sv, cfg, n, hist, inputs, now);
    }
  }

  /** Under a constant clock that is: if and only if it is quiet. */
  lemma SteadyIsPunctual<S>(cfg: Config, n: Node<S>, count: nat, now: nat)
    requires Steady(cfg, now)
    ensures Punctual(cfg, n.readings, count, Stamp(n, cfg.clock(n.readings)))
  {
    assert cfg.clock(n.readings) == now;
  }

  // ----- the same recoverable log -----

  /** One append per frame. */
  function AppendSingly(log: Log, frames: seq<Frame>, segmentBytes: nat, syncs: nat -> bool, k: nat): AppendResult
    decreases |frames|
  {
    if frames == [] then Appended(log)
    else
      match AppendAll(log, [frames[0]], segmentBytes, syncs(k))
      case Appended(next) => AppendSingly(next, frames[1..], segmentBytes, syncs, k + 1)
      case error => error
  }

  lemma {:induction false} SinglyOk(log: Log, hist: seq<Frame>, frames: seq<Frame>, segmentBytes: nat, syncs: nat -> bool, k: nat)
    requires LogOk(log, hist)
    requires AppendSingly(log, frames, segmentBytes, syncs, k).Appended?
    ensures var r := AppendSingly(log, frames, segmentBytes, syncs, k).log;
            LogOk(r, hist + frames) && Start(r) == Start(log)
    decreases |frames|
  {
    hide LogOk, AppendAll, Start;
    if frames == [] {
      assert hist + frames == hist;
    } else {
      AppendOk(log, hist, [frames[0]], segmentBytes, syncs(k));
      SinglyOk(AppendAll(log, [frames[0]], segmentBytes, syncs(k)).log, hist + [frames[0]], frames[1..], segmentBytes, syncs, k + 1);
      assert hist + [frames[0]] + frames[1..] == hist + frames;
    }
  }

  /** However the segments fall, reading the journal back gives the same
      frames for one batch append as for single appends. */
  lemma BatchLogSame(log: Log, hist: seq<Frame>, frames: seq<Frame>, segmentBytes: nat, sync: bool, syncs: nat -> bool, k: nat)
    requires LogOk(log, hist)
    requires AppendAll(log, frames, segmentBytes, sync).Appended?
    requires AppendSingly(log, frames, segmentBytes, syncs, k).Appended?
    ensures FramesOf(AppendAll(log, frames, segmentBytes, sync).log.segs)
            == FramesOf(AppendSingly(log, frames, segmentBytes, syncs, k).log.segs)
  {
    hide AppendAll, AppendSingly, FramesOf;
    AppendOk(log, hist, frames, segmentBytes, sync);
    SinglyOk(log, hist, frames, segmentBytes, syncs, k);
    var a, b := AppendAll(log, frames, segmentBytes, sync).log, AppendSingly(log, frames, segmentBytes, syncs, k).log;
    ReadBack(a, hist + frames);
    ReadBack(b, hist + frames);
  }
}
