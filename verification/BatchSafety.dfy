/** Runs that also commit in groups: a quiet batch keeps everything a single
    submit keeps, so recovery finds what the live node had. */
module BatchSafety {
  import opened Wrappers
  import opened Bytes
  import opened Frame
  import opened TimerWheel
  import opened Execution
  import opened Log
  import opened Sequencer
  import opened NodeInvariant
  import opened NodeRuns
  import opened GroupCommit

  /** The machine once every input of the batch is applied. */
  function MachinedAll<S, I, O, N>(sv: Service<S, I, O, N>, m: Machine<S>, inputs: seq<I>, first: nat, stamp: nat): Machine<S>
    decreases |inputs|
  {
    if inputs == [] then m
    else MachinedAll(sv, Machined(sv, m, first, stamp, inputs[0]), inputs[1..], first + 1, stamp)
  }

  /** After every input of the batch the wheel is within the wire's widths. */
  ghost predicate WheelsWithin<S, I, O, N>(sv: Service<S, I, O, N>, m: Machine<S>, inputs: seq<I>, first: nat, stamp: nat)
    decreases |inputs|
  {
    inputs == []
    || (var next := Machined(sv, m, first, stamp, inputs[0]);
        WheelFits(next.wheel) && WheelsWithin(sv, next, inputs[1..], first + 1, stamp))
  }

  /** The batch up to the firings its last input sets off. */
  function Grouped<S, I, O, N>(sv: Service<S, I, O, N>, cfg: Config, n: Node<S>, inputs: seq<I>): Option<Stepped<S>> {
    match Journaled(sv, cfg, n, inputs)
    case None => None
    case Some(b) =>
      var stamp := Stamp(n, cfg.clock(n.readings));
      Finish(sv, cfg, Stepped(b.(machine := MachinedAll(sv, n.machine, inputs, n.seqno + 1, stamp)),
                              Staged(sv, cfg, n.seqno + 1, stamp, inputs)))
  }

  // ----- a quiet batch is that, and then its last input's firings -----

  lemma AppliedOne<S, I, O, N>(sv: Service<S, I, O, N>, m: Machine<S>, input: I, first: nat, stamp: nat)
    ensures MachinedAll(sv, m, [input], first, stamp) == Machined(sv, m, first, stamp, input)
  {
    hide Machined;
    assert [input][1..] == [];
    var next := Machined(sv, m, first, stamp, input);
    assert MachinedAll(sv, next, [], first + 1, stamp) == next;
  }

  /** The last input takes the snapshot, if one is due, and fires. */
  lemma QuietLast<S, I, O, N>(sv: Service<S, I, O, N>, cfg: Config, b: Node<S>, input: I, f: Frame)
    requires f.seqno == b.seqno && f.timestamp == b.lastTime
    ensures var y := b.(machine := Machined(sv, b.machine, f.seqno, f.timestamp, input));
            var s := Finish(sv, cfg, Stepped(y, [f]));
            var r := ApplyEach(sv, cfg, b, [input], [f]);
            && (r.Some? <==> s.Some? && Settled(sv, cfg, s.value.node).Some?)
            && (r.Some? ==>
                  var t := Settled(sv, cfg, s.value.node).value;
                  r.value.node == t.node && r.value.published == s.value.published + t.published)
  {
    hide SnapshotAt, MaybeSnapshot, Machined, Settled;
    var y := b.(machine := Machined(sv, b.machine, f.seqno, f.timestamp, input));
    SnapshotIsAt(sv, cfg, y);
    assert [input][1..] == [] && [f][1..] == [];
    var a := SnapshotAt(sv, cfg, y, f.seqno);
    if a.Some? && Settled(sv, cfg, a.value.node).Some? {
      var t := Settled(sv, cfg, a.value.node).value;
      NothingLeft(sv, cfg, t.node, [], []);
      assert [f] + a.value.published + t.published + [] == [f] + a.value.published + t.published;
    }
  }

  lemma {:induction false} QuietEach<S, I, O, N>(sv: Service<S, I, O, N>, cfg: Config, b: Node<S>, inputs: seq<I>, first: nat)
    requires inputs != [] && b.seqno == first + |inputs| - 1
    requires Quiet(sv, cfg, b.machine, inputs, first, b.lastTime)
    ensures var frames := Staged(sv, cfg, first, b.lastTime, inputs);
            var s := Finish(sv, cfg, Stepped(b.(machine := MachinedAll(sv, b.machine, inputs, first, b.lastTime)), frames));
            var r := ApplyEach(sv, cfg, b, inputs, frames);
            && (r.Some? <==> s.Some? && Settled(sv, cfg, s.value.node).Some?)
            && (r.Some? ==>
                  var t := Settled(sv, cfg, s.value.node).value;
                  r.value.node == t.node && r.value.published == s.value.published + t.published)
    decreases |inputs|
  {
    hide SnapshotAt, MaybeSnapshot, Machined, Settled, OnCadence, NextDue;
    var frames := Staged(sv, cfg, first, b.lastTime, inputs);
    var f := frames[0];
    var y := b.(machine := Machined(sv, b.machine, first, b.lastTime, inputs[0]));
    assert frames == [f] + frames[1..] && frames[1..] == Staged(sv, cfg, first + 1, b.lastTime, inputs[1..]);
    if |inputs| == 1 {
      assert inputs == [inputs[0]] && frames == [f];
      QuietLast(sv, cfg, b, inputs[0], f);
      AppliedOne(sv, b.machine, inputs[0], first, b.lastTime);
    } else {
      NoCadence(sv, cfg, y, first);
      NothingDue(sv, cfg, y);
      QuietEach(sv, cfg, y, inputs[1..], first + 1);
      FinishMore(sv, cfg, y.(machine := MachinedAll(sv, y.machine, inputs[1..], first + 1, b.lastTime)), f, frames[1..]);
    }
  }

  lemma FinishMore<S, I, O, N>(sv: Service<S, I, O, N>, cfg: Config, n: Node<S>, f: Frame, more: seq<Frame>)
    ensures var s, t := Finish(sv, cfg, Stepped(n, [f] + more)), Finish(sv, cfg, Stepped(n, more));
            && (s.Some? <==> t.Some?)
            && (s.Some? ==> s.value.node == t.value.node && s.value.published == [f] + t.value.published)
  {
    hide MaybeSnapshot;
    var r := MaybeSnapshot(sv, cfg, n);
    assert r.Some? ==> [f] + more + r.value.published == [f] + (more + r.value.published);
  }

  lemma QuietBatch<S, I, O, N>(sv: Service<S, I, O, N>, cfg: Config, n: Node<S>, inputs: seq<I>)
    requires inputs != [] && Quiet(sv, cfg, n.machine, inputs, n.seqno + 1, Stamp(n, cfg.clock(n.readings)))
    ensures var s, r := Grouped(sv, cfg, n, inputs), DoBatch(sv, cfg, n, inputs);
            && (r.Some? <==> s.Some? && Settled(sv, cfg, s.value.node).Some?)
            && (r.Some? ==>
                  var t := Settled(sv, cfg, s.value.node).value;
                  r.value.node == t.node && r.value.published == s.value.published + t.published)
  {
    hide AppendAll, ApplyEach, Quiet, Finish, Settled, MachinedAll, Staged;
    if Journaled(sv, cfg, n, inputs).Some? {
      QuietEach(sv, cfg, Journaled(sv, cfg, n, inputs).value, inputs, n.seqno + 1);
    }
  }

  // ----- it keeps the invariant -----

  ghost predicate AllEncodable<S, I, O, N>(sv: Service<S, I, O, N>, inputs: seq<I>) {
    forall i :: 0 <= i < |inputs| ==> sv.encodable(inputs[i])
  }

  lemma {:induction false} AppliedAll<S(!new), I(!new), O, N>(sv: Service<S, I, O, N>, cfg: Config, m: Machine<S>, hist: seq<Frame>,
                                                              inputs: seq<I>, first: nat, stamp: nat)
    requires Lawful(sv) && MachineOk(sv, m, hist) && AllEncodable(sv, inputs)
    requires WheelsWithin(sv, m, inputs, first, stamp)
    ensures MachineOk(sv, MachinedAll(sv, m, inputs, first, stamp), hist + Staged(sv, cfg, first, stamp, inputs))
    decreases |inputs|
  {
    hide Lawful, MachineOk, WheelFits, Settle;
    var frames := Staged(sv, cfg, first, stamp, inputs);
    if inputs == [] {
      assert hist + frames == hist;
    } else {
      InputApplied(sv, m, hist, frames[0], inputs[0]);
      AppliedAll(sv, cfg, Machined(sv, m, first, stamp, inputs[0]), hist + [frames[0]], inputs[1..], first + 1, stamp);
      assert hist + [frames[0]] + frames[1..] == hist + frames;
      assert frames[1..] == Staged(sv, cfg, first + 1, stamp, inputs[1..]);
    }
  }

  lemma JournaledOk<S, I, O, N>(sv: Service<S, I, O, N>, cfg: Config, n: Node<S>, hist: seq<Frame>, inputs: seq<I>)
    requires DiskOk(sv, n, hist) && |hist| + |inputs| < U64_LIMIT
    requires Journaled(sv, cfg, n, inputs).Some?
    ensures var b := Journaled(sv, cfg, n, inputs).value;
            && DiskOk(sv, b, hist + Staged(sv, cfg, n.seqno + 1, Stamp(n, cfg.clock(n.readings)), inputs))
            && Durable(n) <= Durable(b) && (AllUsable(n) ==> AllUsable(b))
  {
    hide SnapsOk, LogOk, AppendAll, Start, DurableEnd, HighWater;
    var frames := Staged(sv, cfg, n.seqno + 1, Stamp(n, cfg.clock(n.readings)), inputs);
    AppendOk(n.log, hist, frames, cfg.segmentBytes, cfg.syncs(n.appends));
    SnapsExtend(sv, n.snaps, hist, frames);
  }

  /** The batch's own half of `Continues`. */
  lemma GroupedOk<S(!new), I(!new), O, N>(sv: Service<S, I, O, N>, cfg: Config, n: Node<S>, hist: seq<Frame>, inputs: seq<I>)
    requires Lawful(sv) && NodeOk(sv, n, hist) && inputs != [] && AllEncodable(sv, inputs)
    requires |hist| + |inputs| + 1 < U64_LIMIT
    requires WheelsWithin(sv, n.machine, inputs, n.seqno + 1, Stamp(n, cfg.clock(n.readings)))
    requires Grouped(sv, cfg, n, inputs).Some? && Roomy(sv, Grouped(sv, cfg, n, inputs).value.node)
    ensures Continues(sv, n, hist, Grouped(sv, cfg, n, inputs).value)
  {
    hide Lawful, DiskOk, MachineOk, Durable, AllUsable, MaybeSnapshot, WheelsWithin, AllEncodable, MachinedAll, Staged, Journaled, Roomy;
    var stamp := Stamp(n, cfg.clock(n.readings));
    var frames := Staged(sv, cfg, n.seqno + 1, stamp, inputs);
    var m := MachinedAll(sv, n.machine, inputs, n.seqno + 1, stamp);
    var b := Journaled(sv, cfg, n, inputs).value;
    var y := b.(machine := m);
    JournaledOk(sv, cfg, n, hist, inputs);
    AppliedAll(sv, cfg, n.machine, hist, inputs, n.seqno + 1, stamp);
    MachineApart(sv, b, m, hist + frames);
    SnapshotOk(sv, cfg, y, hist + frames);
    var t := MaybeSnapshot(sv, cfg, y).value;
    assert hist + frames + t.published == hist + (frames + t.published);
  }

  // ----- runs with group commits -----

  datatype Move<+I> = One(action: Action<I>) | Group(inputs: seq<I>)

  /** One action, or one quiet batch; the firings that follow a batch are
      actions of their own, as they are after a submit. */
  ghost function MoveNext<S, I, O, N>(sv: Service<S, I, O, N>, cfg: Config, w: World<S>, move: Move<I>): Option<World<S>> {
    match move
    case One(a) => Next(sv, cfg, w, a)
    case Group(inputs) =>
      var n := w.node;
      var stamp := Stamp(n, cfg.clock(n.readings));
      if inputs == [] then Some(w)
      else if && |w.hist| + |inputs| + 1 < U64_LIMIT && AllEncodable(sv, inputs)
              && Quiet(sv, cfg, n.machine, inputs, n.seqno + 1, stamp)
              && WheelsWithin(sv, n.machine, inputs, n.seqno + 1, stamp)
      then Publish(sv, w, Grouped(sv, cfg, n, inputs))
      else None
  }

  ghost function MoveAll<S, I, O, N>(sv: Service<S, I, O, N>, cfg: Config, w: World<S>, moves: seq<Move<I>>): Option<World<S>>
    decreases |moves|
  {
    if moves == [] then Some(w)
    else
      match MoveNext(sv, cfg, w, moves[0])
      case None => None
      case Some(next) => MoveAll(sv, cfg, next, moves[1..])
  }

  lemma MoveOk<S(!new), I(!new), O, N>(sv: Service<S, I, O, N>, cfg: Config, w: World<S>, move: Move<I>)
    requires Lawful(sv) && WorldOk(sv, w) && MoveNext(sv, cfg, w, move).Some?
    ensures WorldOk(sv, MoveNext(sv, cfg, w, move).value) && Remembers(w, MoveNext(sv, cfg, w, move).value)
  {
    hide Lawful, NodeOk, Next, Remembers, Grouped, Continues, Roomy, Quiet, WheelsWithin, AllEncodable;
    match move {
      case One(a) => NextOk(sv, cfg, w, a);
      case Group(inputs) =>
        if inputs == [] {
          RemembersSelf(sv, w);
        } else {
          var s := Grouped(sv, cfg, w.node, inputs);
          if s.Some? && Roomy(sv, s.value.node) {
            GroupedOk(sv, cfg, w.node, w.hist, inputs);
          }
          PublishOk(sv, w, s);
        }
    }
  }

  lemma {:induction false} MovesOk<S(!new), I(!new), O, N>(sv: Service<S, I, O, N>, cfg: Config, w: World<S>, moves: seq<Move<I>>)
    requires Lawful(sv) && WorldOk(sv, w) && MoveAll(sv, cfg, w, moves).Some?
    ensures WorldOk(sv, MoveAll(sv, cfg, w, moves).value)
    ensures Remembers(w, MoveAll(sv, cfg, w, moves).value)
    decreases |moves|
  {
    hide Lawful, WorldOk, Remembers, MoveNext;
    if moves == [] {
      RemembersSelf(sv, w);
    } else {
      var next := MoveNext(sv, cfg, w, moves[0]).value;
      MoveOk(sv, cfg, w, moves[0]);
      MovesOk(sv, cfg, next, moves[1..]);
      RemembersChain(w, next, MoveAll(sv, cfg, next, moves[1..]).value);
    }
  }

  /** Crash refinement with group commits: after any run of actions and quiet
      batches, any power loss, the node reopens on the replay of a prefix of the
      live history that reaches everything durable. */
  lemma GroupCrashRefinement<S(!new), I(!new), O, N>(sv: Service<S, I, O, N>, cfg: Config, moves: seq<Move<I>>, kept: nat)
    requires Lawful(sv) && MoveAll(sv, cfg, Fresh(sv), moves).Some?
    requires MayKeep(MoveAll(sv, cfg, Fresh(sv), moves).value.node.log, kept)
    ensures var w := MoveAll(sv, cfg, Fresh(sv), moves).value;
            var r := DoPowerLoss(sv, w.node, kept);
            && r.Opened?
            && Durable(w.node) <= r.node.seqno <= |w.hist|
            && Replay(sv, Genesis(sv), w.hist[..r.node.seqno]).Some?
            && Same(sv, Replay(sv, Genesis(sv), w.hist[..r.node.seqno]).value, r.node.machine)
            && Replay(sv, Genesis(sv), w.hist).Some?
            && Same(sv, Replay(sv, Genesis(sv), w.hist).value, w.node.machine)
  {
    hide Lawful, DiskOk, Durable, DoPowerLoss, MayKeep, MoveAll, Replay, Same, WheelsFit;
    FreshOpens(sv);
    MovesOk(sv, cfg, Fresh(sv), moves);
    var w := MoveAll(sv, cfg, Fresh(sv), moves).value;
    NextLoss(sv, w, kept);
  }
}
