/** The node as an object: service, timer wheel, journal and snapshot files,
    changed in place by each call and proved against the state machine. */
module NodeHost {
  import opened Wrappers
  import opened Bytes
  import opened Frame
  import opened TimerWheel
  import opened Execution
  import opened SnapshotFile
  import opened Segment
  import opened Log
  import opened Disk
  import opened Sequencer
  import opened NodeInvariant
  import opened NodeRules
  import opened Recovery
  import opened NodeWrites
  import opened Firing
  import opened LoopTime
  import opened Journal

  /** What the frame layout asks: stamps and stream id fit their fields. */
  ghost predicate Stampable(cfg: Config) {
    cfg.streamId < 0x1_0000 && forall k :: cfg.clock(k) < U64_LIMIT
  }

  /** Timer ids are 64-bit: so are those armed, and those any step asks for. */
  ghost predicate IdsFit(reqs: seq<TimerReq>) {
    forall i :: 0 <= i < |reqs| && reqs[i].SetTimer? ==> reqs[i].id < U64_LIMIT
  }

  ghost predicate ArmedFit(w: Wheel) {
    forall id :: id in w ==> id < U64_LIMIT
  }

  ghost predicate IdsTyped<S(!new), I(!new), O, N>(sv: Service<S, I, O, N>) {
    && (forall s, q, t, i :: sv.encodable(i) ==> IdsFit(sv.apply(s, q, t, i).timers))
    && (forall s, q, t, id: nat :: id < U64_LIMIT ==> IdsFit(sv.onTimer(s, q, t, id).timers))
  }

  lemma {:induction false} RequestsFit(w: Wheel, reqs: seq<TimerReq>, setAt: nat)
    requires ArmedFit(w) && IdsFit(reqs)
    ensures ArmedFit(Requests(w, reqs, setAt))
    decreases |reqs|
  {
    if reqs != [] {
      RequestsFit(Request(w, reqs[0], setAt), reqs[1..], setAt);
    }
  }

  class Host<!S(!new), !I(!new), !O, !N> {
    const sv: Service<S, I, O, N>
    const cfg: Config
    var service: S
    const timers: Timers
    const journal: Writer
    var snaps: map<nat, seq<byte>>
    var seqno: nat
    var lastTime: nat
    var readings: nat
    var appends: nat

    constructor (sv: Service<S, I, O, N>, cfg: Config, service: S, timers: Timers, journal: Writer,
                 snaps: map<nat, seq<byte>>, seqno: nat, lastTime: nat, readings: nat, appends: nat)
      ensures this.sv == sv && this.cfg == cfg && this.timers == timers && this.journal == journal
      ensures Abs() == Node(Machine(service, timers.byId), journal.log, snaps, seqno, lastTime, readings, appends)
    {
      this.sv, this.cfg, this.service, this.timers, this.journal := sv, cfg, service, timers, journal;
      this.snaps, this.seqno, this.lastTime, this.readings, this.appends := snaps, seqno, lastTime, readings, appends;
    }

    ghost predicate Valid()
      reads this, timers, journal
    {
      && timers.Valid() && journal.Valid()
      && journal.segmentBytes == cfg.segmentBytes
      && Stampable(cfg) && lastTime < U64_LIMIT
    }

    /** The object as a state of the machine. */
    ghost function Abs(): Node<S>
      reads this, timers, journal
    {
      Node(Machine(service, timers.byId), journal.log, snaps, seqno, lastTime, readings, appends)
    }

    /** Stage a frame and journal it. */
    method SequenceFrame(kind: FrameKind, payload: seq<byte>, at: nat) returns (ok: bool, frame: Frame)
      requires Valid() && at < U64_LIMIT && seqno + 1 < U64_LIMIT && |payload| <= MAX_PAYLOAD_LEN
      modifies this`seqno, this`lastTime, this`appends, journal
      ensures Valid()
      ensures var s := SequenceAt(cfg, old(Abs()), kind, payload, at);
              && ok == s.Some?
              && (ok ==> s.value == Stepped(Abs(), [frame]))
              && (!ok ==> Abs() == AfterRefusal(cfg, old(Abs()), kind, payload, at))
      ensures frame == Stage(cfg, old(Abs()), kind, payload, at) && seqno == frame.seqno && lastTime == frame.timestamp
    {
      hide AppendAll, Writer.Valid;
      frame := Stage(cfg, Node(Machine(service, map[]), NO_LOG, snaps, seqno, lastTime, readings, appends), kind, payload, at);
      seqno, lastTime := frame.seqno, frame.timestamp;
      var r := journal.Append(frame, cfg.syncs(appends));
      appends := appends + 1;
      ok := r == Accepted;
    }

    /** Read the clock, then stage and journal. */
    method SequenceNow(kind: FrameKind, payload: seq<byte>) returns (ok: bool, frame: Frame)
      requires Valid() && seqno + 1 < U64_LIMIT && |payload| <= MAX_PAYLOAD_LEN
      modifies this`seqno, this`lastTime, this`appends, this`readings, journal
      ensures Valid()
      ensures var s := Sequence(cfg, old(Abs()), kind, payload);
              && ok == s.Some?
              && (ok ==> s.value == Stepped(Abs(), [frame]))
      ensures frame == Stage(cfg, old(Abs()), kind, payload, cfg.clock(old(readings)))
      ensures seqno == frame.seqno && lastTime == frame.timestamp
    {
      hide Writer.Valid, SequenceAt;
      var at := cfg.clock(readings);
      readings := readings + 1;
      ok, frame := SequenceFrame(kind, payload, at);
    }

    /** Delete the oldest snapshots down to the newest `retain`. */
    method PruneSnapshots()
      modifies this`snaps
      ensures snaps == Prune(old(snaps), cfg.retain)
      ensures Newest(old(snaps), cfg.retain, snaps)
    {
      hide Least, Newest;
      PruneExact(snaps, cfg.retain);
      while |snaps| > 1 && |snaps| > cfg.retain
        invariant Prune(snaps, cfg.retain) == Prune(old(snaps), cfg.retain)
        decreases |snaps|
      {
        assert snaps.Keys != {} by { assert |snaps.Keys| == |snaps|; }
        var oldest := Least(snaps.Keys);
        Without(snaps, oldest);
        snaps := snaps - {oldest};
      }
    }

    /** Snapshot on cadence: write the file, sequence the mark, prune, compact. */
    method SnapshotOnCadence() returns (ok: bool, ghost published: seq<Frame>)
      requires Valid() && seqno + 1 < U64_LIMIT
      modifies this`snaps, this`seqno, this`lastTime, this`appends, this`readings, journal
      ensures Valid()
      ensures var s := MaybeSnapshot(sv, cfg, old(Abs()));
              && ok == s.Some?
              && (ok ==> s.value == Stepped(Abs(), published))
      ensures ok && OnCadence(cfg, old(seqno)) && (forall s :: s in old(snaps) ==> s < old(seqno)) ==>
                Retained(old(snaps), old(seqno), cfg.retain, snaps)
    {
      hide Writer.Valid, SequenceAt, SnapshotImage, Prune, Compact, EncodeId, Least, Retained, Newest;
      published := [];
      ghost var was := Abs();
      if MaybeSnapshot(sv, cfg, was).Some? && OnCadence(cfg, seqno) && forall s :: s in snaps ==> s < seqno {
        RetainedExactly(sv, cfg, was);
      }
      if !OnCadence(cfg, seqno) {
        return true, [];
      }
      if seqno in snaps {
        return false, [];
      }
      var at := seqno;
      snaps := snaps[at := SnapshotImage(sv, Machine(service, timers.byId), at)];
      IdLen(at);
      var mark;
      ok, mark := SequenceNow(SnapshotMark, EncodeId(at));
      if !ok {
        return false, [];
      }
      published := [mark];
      PruneSnapshots();
      if snaps.Keys != {} {
        var oldest := Least(snaps.Keys);
        var _ := journal.CompactBelow(if oldest == 0 then 0 else oldest - 1);
      }
    }

    /** Run one step's outcome: new state, and its timer requests into the wheel. */
    method RunStep(out: Outcome<S, O>)
      requires Valid()
      modifies this`service, timers
      ensures Valid()
      ensures Abs() == old(Abs()).(machine := Settle(out, old(timers.byId), seqno))
    {
      hide Writer.Valid, Requests;
      service := out.state;
      timers.ApplyAll(out.timers, seqno);
    }

    /** Sequence, journal and apply one input, up to its own outputs. */
    method SubmitFrame(input: I) returns (ok: bool, outputs: seq<O>, ghost published: seq<Frame>)
      requires Valid() && Lawful(sv) && sv.encodable(input)
      requires seqno + 2 < U64_LIMIT && |sv.encodeInput(input)| <= MAX_PAYLOAD_LEN
      modifies this, timers, journal
      ensures Valid()
      ensures var s := DoSubmit(sv, cfg, old(Abs()), input);
              && ok == s.Some?
              && (ok ==> s.value == Stepped(Abs(), published) && Traced(sv, old(Abs()).machine, published, outputs, Abs().machine))
    {
      hide Writer.Valid, SequenceAt, MaybeSnapshot, Traced, Lawful, Settle;
      ghost var m := Abs().machine;
      var frame;
      published, outputs := [], [];
      ok, frame := SequenceNow(Input, sv.encodeInput(input));
      if !ok {
        return false, [], [];
      }
      var out := sv.apply(service, frame.seqno, frame.timestamp, input);
      outputs := out.outputs;
      RunStep(out);
      ghost var mid, marks := Abs(), [];
      ok, marks := SnapshotOnCadence();
      published := [frame] + marks;
      if ok {
        InputTraced(sv, cfg, m, frame, input, mid, Stepped(Abs(), marks));
      }
    }

    /** Fire one due timer. */
    method FireFrame(id: nat) returns (ok: bool, outputs: seq<O>, ghost published: seq<Frame>)
      requires Valid() && id < U64_LIMIT
      requires seqno + 2 < U64_LIMIT
      modifies this, timers, journal
      ensures Valid()
      ensures var n := old(Abs());
              var s := SequenceAt(cfg, n, TimerFired, EncodeId(id), n.lastTime);
              if s.None? then !ok
              else
                var out := sv.onTimer(n.machine.service, s.value.node.seqno, s.value.node.lastTime, id);
                var t := Finish(sv, cfg, s.value.(node := s.value.node.(machine := Settle(out, n.machine.wheel, s.value.node.seqno))));
                && ok == t.Some?
                && (ok ==> t.value == Stepped(Abs(), published))
      ensures ok ==> outputs == sv.onTimer(old(service), old(seqno) + 1, old(lastTime), id).outputs
    {
      hide Writer.Valid, SequenceAt, MaybeSnapshot, Settle, EncodeId;
      IdLen(id);
      published, outputs := [], [];
      var frame;
      ok, frame := SequenceFrame(TimerFired, EncodeId(id), lastTime);
      if !ok {
        return false, [], [];
      }
      var out := sv.onTimer(service, seqno, lastTime, id);
      outputs := out.outputs;
      RunStep(out);
      ghost var marks;
      ok, marks := SnapshotOnCadence();
      published := [frame] + marks;
    }

    /** Fire every timer now due, each as its own journaled frame. Every turn
        takes a seq, so the loop stops at the last one if not before. */
    method FireDueTimers() returns (ok: bool, outputs: seq<O>, ghost published: seq<Frame>, ghost fired: nat)
      requires Valid() && IdsTyped(sv) && ArmedFit(timers.byId)
      modifies this, timers, journal
      ensures Valid()
      ensures Fires(sv, cfg, old(Abs()), fired).Some?
      ensures ok ==>
                && Ended(sv, cfg, old(Abs()), fired)
                && Fires(sv, cfg, old(Abs()), fired) == Some(Stepped(Abs(), published))
                && Traced(sv, old(Abs()).machine, published, outputs, Abs().machine)
                && ArmedFit(timers.byId)
      ensures !ok ==>
                || Refused(sv, cfg, old(Abs()), fired)
                || (!Ended(sv, cfg, old(Abs()), fired) && Fires(sv, cfg, old(Abs()), fired).value.node.seqno + 2 >= U64_LIMIT)
    {
      hide Writer.Valid, DoFire, Traced, IdsTyped, ArmedFit, NextDue, SequenceAt, Finish, Settle;
      outputs, published, fired := [], [], 0;
      TracedNothing(sv, Abs().machine);
      while true
        invariant Valid() && ArmedFit(timers.byId)
        invariant Fires(sv, cfg, old(Abs()), fired) == Some(Stepped(Abs(), published))
        invariant Traced(sv, old(Abs()).machine, published, outputs, Abs().machine)
        decreases U64_LIMIT - seqno
      {
        ghost var n := Abs();
        var due := timers.PopDue(lastTime);
        if due == None {
          return true, outputs, published, fired;
        }
        if seqno + 2 >= U64_LIMIT {
          return false, outputs, published, fired;
        }
        ArmedIdFits(n.machine.wheel, due.value);
        ghost var frames;
        var outs;
        ok, outs, frames := FireFrame(due.value);
        PoppedFire(sv, cfg, n, due.value);
        if !ok {
          return false, outputs, published, fired;
        }
        FireTraced(sv, cfg, n, due.value);
        TurnTakesSeq(sv, cfg, n);
        TracedChain(sv, old(Abs()).machine, published, outputs, n.machine, frames, outs, Abs().machine);
        outputs, published, fired := outputs + outs, published + frames, fired + 1;
      }
    }

    /** Submit: the input's frame, then every timer its time makes due. */
    method Submit(input: I)
        returns (ok: bool, at: nat, outputs: seq<O>, ghost published: seq<Frame>, ghost fired: nat)
      requires Valid() && Lawful(sv) && IdsTyped(sv) && ArmedFit(timers.byId) && sv.encodable(input)
      requires seqno + 2 < U64_LIMIT && |sv.encodeInput(input)| <= MAX_PAYLOAD_LEN
      modifies this, timers, journal
      ensures Valid()
      ensures ok ==>
                && at == old(seqno) + 1
                && ThenFires(sv, cfg, DoSubmit(sv, cfg, old(Abs()), input), fired, Stepped(Abs(), published))
                && NextDue(timers.byId, lastTime) == None
                && Traced(sv, old(Abs()).machine, published, outputs, Abs().machine)
                && ArmedFit(timers.byId)
    {
      hide Writer.Valid, DoSubmit, Fires, Traced, Lawful, IdsTyped, ArmedFit, NextDue;
      at := seqno + 1;
      fired := 0;
      ghost var n := Abs();
      ok, outputs, published := SubmitFrame(input);
      if !ok {
        return;
      }
      SubmitArms(sv, cfg, n, input);
      ghost var mid := Abs();
      var outs;
      ghost var frames;
      ok, outs, frames, fired := FireDueTimers();
      if ok {
        TracedChain(sv, n.machine, published, outputs, mid.machine, frames, outs, Abs().machine);
        outputs, published := outputs + outs, published + frames;
      }
    }

    /** A tick, or any frame that only advances sequenced time, then firings. */
    method Control(kind: FrameKind, payload: seq<byte>) returns (ok: bool, ghost published: seq<Frame>)
      requires Valid() && seqno + 2 < U64_LIMIT && |payload| <= MAX_PAYLOAD_LEN
      modifies this, journal
      ensures Valid()
      ensures var s := DoControl(sv, cfg, old(Abs()), kind, payload);
              && ok == s.Some?
              && (ok ==> s.value == Stepped(Abs(), published))
    {
      hide Writer.Valid, SequenceAt, MaybeSnapshot;
      published := [];
      var frame;
      ok, frame := SequenceNow(kind, payload);
      if !ok {
        return false, [];
      }
      ghost var marks;
      ok, marks := SnapshotOnCadence();
      published := [frame] + marks;
    }

    method TickNow() returns (ok: bool, ghost published: seq<Frame>, ghost fired: nat)
      requires Valid() && IdsTyped(sv) && ArmedFit(timers.byId)
      requires seqno + 2 < U64_LIMIT
      modifies this, timers, journal
      ensures Valid()
      ensures ok ==>
                && ThenFires(sv, cfg, DoControl(sv, cfg, old(Abs()), FrameKind.Tick, []), fired, Stepped(Abs(), published))
                && NextDue(timers.byId, lastTime) == None
                && ArmedFit(timers.byId)
    {
      hide Writer.Valid, DoControl, Fires, Traced, IdsTyped, ArmedFit, NextDue;
      fired := 0;
      ghost var n := Abs();
      ok, published := Control(FrameKind.Tick, []);
      if !ok {
        return;
      }
      ControlArms(sv, cfg, n, FrameKind.Tick, []);
      ghost var frames;
      var outs;
      ok, outs, frames, fired := FireDueTimers();
      published := published + frames;
    }

    /** The first act of a promoted leader: a fence naming epoch and schema. */
    method FenceNow(epoch: nat) returns (ok: bool, ghost published: seq<Frame>)
      requires Valid() && seqno + 2 < U64_LIMIT
      modifies this, journal
      ensures Valid()
      ensures var s := DoFence(sv, cfg, old(Abs()), epoch);
              && ok == s.Some?
              && (ok ==> s.value == Stepped(Abs(), published))
    {
      hide Writer.Valid, DoControl, FencePayload;
      ok, published := Control(EpochChange, FencePayload(epoch, seqno + 1, sv.schema));
    }
  }

  /** A first frame and then exactly `fired` firings. */
  ghost predicate ThenFires<S, I, O, N>(sv: Service<S, I, O, N>, cfg: Config, first: Option<Stepped<S>>, fired: nat, end: Stepped<S>) {
    && first.Some?
    && Fires(sv, cfg, first.value.node, fired).Some?
    && Fires(sv, cfg, first.value.node, fired).value.node == end.node
    && end.published == first.value.published + Fires(sv, cfg, first.value.node, fired).value.published
  }

  /** The frames replay from `m` to `next` and give rise to `outputs`. */
  ghost predicate Traced<S, I, O, N>(sv: Service<S, I, O, N>, m: Machine<S>, frames: seq<Frame>, outputs: seq<O>, next: Machine<S>) {
    Replay(sv, m, frames) == Some(next) && EmittedAll(sv, m, frames) == outputs
  }

  lemma TracedChain<S, I, O, N>(sv: Service<S, I, O, N>, a: Machine<S>, f: seq<Frame>, x: seq<O>, b: Machine<S>, g: seq<Frame>, y: seq<O>, c: Machine<S>)
    requires Traced(sv, a, f, x, b) && Traced(sv, b, g, y, c)
    ensures Traced(sv, a, f + g, x + y, c)
  {
    hide Replay, EmittedAll;
    ReplayAppend(sv, a, f, g);
    EmittedAppend(sv, a, f, g);
  }

  lemma TracedNothing<S, I, O, N>(sv: Service<S, I, O, N>, m: Machine<S>)
    ensures Traced(sv, m, [], [], m)
  {
  }

  lemma TracedOne<S, I, O, N>(sv: Service<S, I, O, N>, m: Machine<S>, f: Frame, next: Machine<S>)
    requires ReplayStep(sv, m, f) == Some(next)
    ensures Traced(sv, m, [f], Emitted(sv, m, f), next)
  {
    hide Replay, EmittedAll, ReplayStep, Emitted;
    ReplayOne(sv, m, f);
    EmittedOne(sv, m, f);
  }

  /** Marks replay to nothing. */
  lemma MarksTraced<S, I, O, N>(sv: Service<S, I, O, N>, cfg: Config, n: Node<S>)
    requires MaybeSnapshot(sv, cfg, n).Some?
    ensures var s := MaybeSnapshot(sv, cfg, n).value;
            Traced(sv, n.machine, s.published, [], n.machine) && s.node.machine == n.machine
  {
    hide AppendAll, Prune, Compact, SnapshotImage, Traced, Least;
    var s := MaybeSnapshot(sv, cfg, n).value;
    if s.published == [] {
      TracedNothing(sv, n.machine);
    } else {
      TracedOne(sv, n.machine, s.published[0], n.machine);
      assert s.published == [s.published[0]];
    }
  }

  lemma InputTraced<S(!new), I(!new), O, N>(sv: Service<S, I, O, N>, cfg: Config, m: Machine<S>, f: Frame, input: I, n: Node<S>, s: Stepped<S>)
    requires Lawful(sv) && sv.encodable(input)
    requires f.kind == Input && f.payload == sv.encodeInput(input)
    requires n.machine == Settle(sv.apply(m.service, f.seqno, f.timestamp, input), m.wheel, f.seqno)
    requires MaybeSnapshot(sv, cfg, n) == Some(s)
    ensures Traced(sv, m, [f] + s.published, sv.apply(m.service, f.seqno, f.timestamp, input).outputs, s.node.machine)
  {
    hide Traced, MaybeSnapshot, Settle;
    TracedOne(sv, m, f, n.machine);
    MarksTraced(sv, cfg, n);
    TracedChain(sv, m, [f], Emitted(sv, m, f), n.machine, s.published, [], n.machine);
    assert Emitted(sv, m, f) + [] == Emitted(sv, m, f);
  }

  lemma ArmedIdFits(w: Wheel, id: nat)
    requires ArmedFit(w) && id in w
    ensures id < U64_LIMIT
  {
  }

  lemma TurnTakesSeq<S, I, O, N>(sv: Service<S, I, O, N>, cfg: Config, n: Node<S>)
    requires DoFire(sv, cfg, n).Some?
    ensures DoFire(sv, cfg, n).value.node.seqno > n.seqno
  {
    hide DoFire;
    FireMoment(sv, cfg, n);
  }

  /** The node once its due timer has been popped, before the frame. */
  function Popped<S>(n: Node<S>, id: nat): Node<S> {
    n.(machine := n.machine.(wheel := n.machine.wheel - {id}))
  }

  /** Popping first and sequencing second is one turn of the loop. */
  lemma PoppedFire<S, I, O, N>(sv: Service<S, I, O, N>, cfg: Config, n: Node<S>, id: nat)
    requires NextDue(n.machine.wheel, n.lastTime) == Some(id)
    ensures var s := SequenceAt(cfg, Popped(n, id), TimerFired, EncodeId(id), n.lastTime);
            DoFire(sv, cfg, n) ==
            if s.None? then None
            else
              var out := sv.onTimer(n.machine.service, s.value.node.seqno, s.value.node.lastTime, id);
              Finish(sv, cfg, s.value.(node := s.value.node.(machine := Settle(out, n.machine.wheel - {id}, s.value.node.seqno))))
  {
    hide AppendAll, Finish, Settle, NextDue, EncodeId;
  }

  lemma FireTraced<S(!new), I(!new), O, N>(sv: Service<S, I, O, N>, cfg: Config, n: Node<S>, id: nat)
    requires IdsTyped(sv) && ArmedFit(n.machine.wheel)
    requires NextDue(n.machine.wheel, n.lastTime) == Some(id)
    requires DoFire(sv, cfg, n).Some?
    ensures var s := DoFire(sv, cfg, n).value;
            var f := Stage(cfg, n, TimerFired, EncodeId(id), n.lastTime);
            && Traced(sv, n.machine, s.published, sv.onTimer(n.machine.service, f.seqno, f.timestamp, id).outputs, s.node.machine)
            && ArmedFit(s.node.machine.wheel)
  {
    hide Traced, IdsTyped, ArmedFit, NextDue, Settle, MaybeSnapshot, EncodeId, AppendAll, ReplayStep, Emitted;
    FiredFit(sv, n.machine, n.seqno + 1, n.lastTime, id);
    ArmedIdFits(n.machine.wheel, id);
    var f := Stage(cfg, n, TimerFired, EncodeId(id), n.lastTime);
    FiredReplays(sv, n.machine, f, id);
    var t := SequenceAt(cfg, n, TimerFired, EncodeId(id), n.lastTime).value;
    var m := Settle(sv.onTimer(n.machine.service, f.seqno, f.timestamp, id), n.machine.wheel - {id}, f.seqno);
    TracedOne(sv, n.machine, f, m);
    var mid := t.node.(machine := m);
    MarksTraced(sv, cfg, mid);
    var marks := MaybeSnapshot(sv, cfg, mid).value.published;
    TracedChain(sv, n.machine, [f], Emitted(sv, n.machine, f), m, marks, [], m);
    assert Emitted(sv, n.machine, f) + [] == Emitted(sv, n.machine, f);
  }

  lemma FiredReplays<S, I, O, N>(sv: Service<S, I, O, N>, m: Machine<S>, f: Frame, id: nat)
    requires f.kind == TimerFired && f.payload == EncodeId(id) && id < U64_LIMIT
    ensures var out := sv.onTimer(m.service, f.seqno, f.timestamp, id);
            ReplayStep(sv, m, f) == Some(Settle(out, m.wheel - {id}, f.seqno)) && Emitted(sv, m, f) == out.outputs
  {
    hide Settle, EncodeId, DecodeId;
    IdRoundTrip(id);
  }

  lemma FiredFit<S(!new), I(!new), O, N>(sv: Service<S, I, O, N>, m: Machine<S>, seqno: nat, now: nat, id: nat)
    requires IdsTyped(sv) && ArmedFit(m.wheel) && id in m.wheel
    ensures ArmedFit(Settle(sv.onTimer(m.service, seqno, now, id), m.wheel - {id}, seqno).wheel)
  {
    hide IdsFit, Requests;
    RequestsFit(m.wheel - {id}, sv.onTimer(m.service, seqno, now, id).timers, seqno);
  }

  /** After its own frame, a submitted input leaves 64-bit ids armed. */
  lemma SubmitArms<S(!new), I(!new), O, N>(sv: Service<S, I, O, N>, cfg: Config, n: Node<S>, input: I)
    requires IdsTyped(sv) && ArmedFit(n.machine.wheel) && sv.encodable(input)
    requires DoSubmit(sv, cfg, n, input).Some?
    ensures ArmedFit(DoSubmit(sv, cfg, n, input).value.node.machine.wheel)
  {
    hide ArmedFit, IdsFit, Requests, AppendAll, MaybeSnapshot;
    var s := Sequence(cfg, n, Input, sv.encodeInput(input)).value;
    var out := sv.apply(n.machine.service, s.node.seqno, s.node.lastTime, input);
    RequestsFit(n.machine.wheel, out.timers, s.node.seqno);
    SnapshotLeaves(sv, cfg, s.node.(machine := Settle(out, n.machine.wheel, s.node.seqno)));
  }

  lemma ControlArms<S, I, O, N>(sv: Service<S, I, O, N>, cfg: Config, n: Node<S>, kind: FrameKind, payload: seq<byte>)
    requires DoControl(sv, cfg, n, kind, payload).Some?
    ensures DoControl(sv, cfg, n, kind, payload).value.node.machine == n.machine
  {
    hide AppendAll, MaybeSnapshot;
    SnapshotLeaves(sv, cfg, Sequence(cfg, n, kind, payload).value.node);
  }

  // ----- opening -----

  /** The scan for an anchor, newest snapshot first. */
  method PickAnchor<S, I, O, N>(sv: Service<S, I, O, N>, snaps: map<nat, seq<byte>>, first: nat, ceiling: nat)
      returns (found: bool, from: nat, service: S, entries: seq<TimerEntry>)
    ensures found == ChooseAnchor(sv, snaps, first, ceiling).Some?
    ensures found ==> ChooseAnchor(sv, snaps, first, ceiling) == Some((from, Machine(service, Rearm(entries, map[]))))
    ensures !found ==> from == 0 && service == sv.genesis && entries == []
  {
    hide Parse, Greatest, Rearm;
    found, from, service, entries := false, 0, sv.genesis, [];
    var left := snaps;
    while left.Keys != {}
      invariant ChooseAnchor(sv, snaps, first, ceiling) == ChooseAnchor(sv, left, first, ceiling)
      decreases |left|
    {
      var name := Greatest(left.Keys);
      Without(left, name);
      match Parse(left[name]) {
        case None =>
        case Some(loaded) =>
          if loaded.seqno <= ceiling && loaded.seqno + 1 >= first {
            match sv.decodeSnapshot(loaded.payload) {
              case None =>
              case Some(pair) =>
                return true, loaded.seqno, sv.restore(pair.0), pair.1;
            }
          }
      }
      left := left - {name};
    }
  }

  /** The recovery loop: skip what the snapshot captured, apply the rest, fold
      the timer requests into the wheel, and never fire. */
  method ReplayTail<S, I, O, N>(sv: Service<S, I, O, N>, frames: seq<Frame>, from: nat, base: S, wheel: Timers)
      returns (ok: bool, service: S, stamp: nat)
    requires wheel.Valid()
    modifies wheel
    ensures wheel.Valid()
    ensures var r := ReplayAbove(sv, Machine(base, old(wheel.byId)), frames, from);
            && ok == r.Some?
            && (ok ==> r.value == Machine(service, wheel.byId))
    ensures ok ==> stamp == LastStamp(frames)
  {
    hide Requests, DecodeId;
    service, stamp := base, 0;
    for k := 0 to |frames|
      invariant wheel.Valid()
      invariant ReplayAbove(sv, Machine(base, old(wheel.byId)), frames, from)
                == ReplayAbove(sv, Machine(service, wheel.byId), frames[k..], from)
      invariant stamp == if k == 0 then 0 else frames[k - 1].timestamp
    {
      var f := frames[k];
      assert frames[k..][0] == f && frames[k..][1..] == frames[k + 1..];
      stamp := f.timestamp;
      if f.seqno > from {
        match f.kind {
          case Input =>
            match sv.decodeInput(f.payload) {
              case None => return false, service, stamp;
              case Some(input) =>
                var out := sv.apply(service, f.seqno, f.timestamp, input);
                service := out.state;
                wheel.ApplyAll(out.timers, f.seqno);
            }
          case TimerFired =>
            match DecodeId(f.payload) {
              case None => return false, service, stamp;
              case Some(id) =>
                wheel.Cancel(id);
                var out := sv.onTimer(service, f.seqno, f.timestamp, id);
                service := out.state;
                wheel.ApplyAll(out.timers, f.seqno);
            }
          case _ =>
        }
      }
    }
    ok := true;
  }

  datatype OpenError = Uncovered(first: nat) | Corrupt

  /** The snapshot files name seqs that leave room for one more. */
  ghost predicate RoomAbove(snaps: map<nat, seq<byte>>) {
    forall s :: s in snaps && Parse(snaps[s]).Some? ==> Parse(snaps[s]).value.seqno + 1 < U64_LIMIT
  }

  lemma {:induction false} AnchorHasRoom<S, I, O, N>(sv: Service<S, I, O, N>, snaps: map<nat, seq<byte>>, first: nat, ceiling: nat)
    requires RoomAbove(snaps)
    requires ChooseAnchor(sv, snaps, first, ceiling).Some?
    ensures ChooseAnchor(sv, snaps, first, ceiling).value.0 + 1 < U64_LIMIT
    decreases |snaps|
  {
    hide Parse, Greatest;
    var name := Greatest(snaps.Keys);
    Without(snaps, name);
    if Usable(sv, snaps[name], first, ceiling).None? {
      AnchorHasRoom(sv, snaps - {name}, first, ceiling);
    }
  }

  lemma {:induction false} StampsFit(segs: seq<Seg>)
    requires Fit(segs)
    ensures forall f :: f in FramesOf(segs) ==> f.timestamp < U64_LIMIT
    decreases |segs|
  {
    if segs != [] {
      StampsFit(segs[1..]);
      assert Contiguous(segs[0].frames, segs[0].first);
    }
  }

  lemma StampFits(j: Writer, frames: seq<Frame>)
    requires j.Valid() && frames == FramesOf(j.log.segs)
    ensures LastStamp(frames) < U64_LIMIT
    ensures j.last == j.log.last
  {
    StampsFit(j.log.segs);
  }

  /** How much of the open segment the reopened journal kept. */
  lemma KeptOf(was: Log, log: Log) returns (kept: nat)
    requires was.segs != [] ==> Active(was.segs).first >= 1
    requires was.segs == [] ==> log == NO_LOG
    requires was.segs != [] ==> exists n: nat ::
               Active(was.segs).durable <= n <= |Active(was.segs).frames| && log == Reopen(Cut(was.segs, n))
    ensures MayKeep(was, kept)
    ensures log == Reopen(AfterLoss(was, kept)) && log.segs == AfterLoss(was, kept)
  {
    if was.segs == [] {
      kept := 0;
    } else {
      var n: nat :| Active(was.segs).durable <= n <= |Active(was.segs).frames| && log == Reopen(Cut(was.segs, n));
      kept := n;
      ReopenedLog(was.segs, n);
    }
  }

  /** What opening comes to, once the anchor is known. */
  lemma OpenCases<S, I, O, N>(sv: Service<S, I, O, N>, log: Log, segs: seq<Seg>, snaps: map<nat, seq<byte>>, readings: nat, appends: nat,
                              first: nat, ceiling: nat, found: bool, from: nat, m: Machine<S>)
    requires log == Reopen(segs) && log.segs == segs
    requires first == FirstSeq(log) && ceiling == if log.last < HighWater(snaps) then HighWater(snaps) else log.last
    requires found == ChooseAnchor(sv, snaps, first, ceiling).Some?
    requires found ==> ChooseAnchor(sv, snaps, first, ceiling) == Some((from, m))
    requires !found ==> from == 0 && m == Genesis(sv)
    ensures var tip := if log.last < from then from else log.last;
            var r := ReplayAbove(sv, m, FramesOf(log.segs), from);
            OpenNode(sv, segs, snaps, readings, appends)
            == if !found && first > 1 then UncoveredHistory(first)
               else if r.None? then CorruptFrame
               else Opened(Node(r.value, if from > log.last then Reseat(log, tip + 1) else log, Purge(snaps, tip), tip,
                                LastStamp(FramesOf(log.segs)), readings, appends))
  {
    hide ChooseAnchor, ReplayAbove, FramesOf, Reopen, Reseat, HighWater, LastStamp, FirstSeq, Purge;
  }

  /** Open a node on the directory power loss left behind. */
  method OpenHost<S(!new), I(!new), O, N>(sv: Service<S, I, O, N>, cfg: Config, disk: Files, snaps: map<nat, seq<byte>>, readings: nat, appends: nat,
                              ghost before: Files, ghost was: Log, ghost epoch: nat)
      returns (err: Option<OpenError>, h: Host?<S, I, O, N>, ghost kept: nat)
    requires Stampable(cfg) && RoomAbove(snaps)
    requires Laid(before, was.segs, epoch) && Chained(was.segs) && epoch < U64_LIMIT
    requires was.segs != [] ==> Active(was.segs).first >= 1
    requires PowerLost(before, disk)
    ensures MayKeep(was, kept)
    ensures match OpenNode(sv, AfterLoss(was, kept), snaps, readings, appends)
            case Opened(n) => err == None && h != null && h.sv == sv && h.cfg == cfg && h.Valid() && h.Abs() == n
            case UncoveredHistory(first) => err == Some(Uncovered(first))
            case CorruptFrame => err == Some(Corrupt)
  {
    hide Laid, Chained, PowerLost, Writer.Valid, ChooseAnchor, ReplayAbove, FramesOf, Rearm, Cut, Reopen, Reseat, RoomAbove, HighWater, LastStamp, OpenNode, AfterLoss, Purge, Stampable;
    var journal, frames := OpenJournal(cfg.segmentBytes, disk, before, was, epoch);
    kept := KeptOf(was, journal.log);
    StampFits(journal, frames);
    ghost var log := journal.log;
    RearmFirst(TimerEntry(0, 0, 0), [], map[]);
    var first := if frames == [] then journal.last + 1 else frames[0].seqno;
    var high := HighWater(snaps);
    var ceiling := if journal.last < high then high else journal.last;
    var found, from, base, entries := PickAnchor(sv, snaps, first, ceiling);
    OpenCases(sv, log, AfterLoss(was, kept), snaps, readings, appends, first, ceiling, found, from, Machine(base, Rearm(entries, map[])));
    if !found && first > 1 {
      return Some(Uncovered(first)), null, kept;
    }
    if found {
      AnchorHasRoom(sv, snaps, first, ceiling);
    }
    h := Rebuild(sv, cfg, journal, frames, snaps, from, base, entries, readings, appends);
    err := if h == null then Some(Corrupt) else None;
  }

  /** Reseat if the anchor lies above the tail, replay, and purge. */
  method Rebuild<S(!new), I(!new), O, N>(sv: Service<S, I, O, N>, cfg: Config, journal: Writer, frames: seq<Frame>,
                              snaps: map<nat, seq<byte>>, from: nat, base: S, entries: seq<TimerEntry>, readings: nat, appends: nat)
      returns (h: Host?<S, I, O, N>)
    requires Stampable(cfg) && journal.Valid() && journal.segmentBytes == cfg.segmentBytes
    requires LastStamp(frames) < U64_LIMIT && journal.last == journal.log.last && from + 1 < U64_LIMIT
    modifies journal
    ensures var log := old(journal.log);
            var tip := if log.last < from then from else log.last;
            match ReplayAbove(sv, Machine(base, Rearm(entries, map[])), frames, from)
            case None => h == null
            case Some(m) =>
              && h != null && h.sv == sv && h.cfg == cfg && h.Valid()
              && h.Abs() == Node(m, if from > log.last then Reseat(log, tip + 1) else log, Purge(snaps, tip), tip, LastStamp(frames), readings, appends)
  {
    hide Writer.Valid, ReplayAbove, Rearm, Reseat, LastStamp, Purge, Stampable;
    var tip := if journal.last < from then from else journal.last;
    if from > journal.last {
      journal.ReseatTo(tip + 1);
    }
    var wheel := new Timers.Restore(entries);
    var ok, service, stamp := ReplayTail(sv, frames, from, base, wheel);
    if !ok {
      return null;
    }
    h := new Host(sv, cfg, service, wheel, journal, Purge(snaps, tip), tip, stamp, readings, appends);
  }

  // ----- from the bytes on disk to the replay of the history -----

  lemma SnapsLeaveRoom<S, I, O, N>(sv: Service<S, I, O, N>, snaps: map<nat, seq<byte>>, hist: seq<Frame>)
    requires SnapsOk(sv, snaps, hist) && |hist| + 1 < U64_LIMIT
    ensures RoomAbove(snaps)
  {
    hide Parse, Replay, Same;
    forall s | s in snaps && Parse(snaps[s]).Some?
      ensures Parse(snaps[s]).value.seqno + 1 < U64_LIMIT
    {
      assert SnapOk(sv, s, snaps[s], hist);
    }
  }

  /** Crash refinement down to bytes: whatever power loss leaves of a node's
      files, opening them raises no error, and the node that comes back is the
      replay of a prefix of the live history reaching everything durable. */
  method Restart<S(!new), I(!new), O, N>(h: Host<S, I, O, N>, disk: Files, ghost hist: seq<Frame>)
      returns (err: Option<OpenError>, r: Host?<S, I, O, N>)
    requires h.Valid() && Lawful(h.sv) && NodeOk(h.sv, h.Abs(), hist) && |hist| + 1 < U64_LIMIT
    requires PowerLost(h.journal.files, disk)
    ensures err == None && r != null && r.sv == h.sv && r.cfg == h.cfg && r.Valid()
    ensures Durable(h.Abs()) <= r.seqno <= |hist|
    ensures NodeOk(h.sv, r.Abs(), hist[..r.seqno])
    ensures Replay(h.sv, Genesis(h.sv), hist[..r.seqno]).Some?
    ensures Same(h.sv, Replay(h.sv, Genesis(h.sv), hist[..r.seqno]).value, r.Abs().machine)
  {
    hide Lawful, LogOk, WellFormed, Covered, SnapsOk, MachineOk, Laid, Chained, PowerLost, Stampable, RoomAbove, Durable, OpenNode, AfterLoss, MayKeep;
    SnapsLeaveRoom(h.sv, h.snaps, hist);
    ghost var n, kept := h.Abs(), 0;
    err, r, kept := OpenHost(h.sv, h.cfg, disk, h.snaps, h.readings, h.appends, h.journal.files, h.journal.log, h.journal.epoch);
    PowerLossOk(h.sv, n, hist, kept);
    MachineIs(h.sv, r.Abs().machine, hist[..r.seqno]);
  }

  lemma MachineIs<S, I, O, N>(sv: Service<S, I, O, N>, m: Machine<S>, hist: seq<Frame>)
    requires MachineOk(sv, m, hist)
    ensures Replay(sv, Genesis(sv), hist).Some? && Same(sv, Replay(sv, Genesis(sv), hist).value, m)
  {
    hide Replay, Same;
  }
}
