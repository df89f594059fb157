/** The firing loop: when it ends, what it fires and in which order. */
module Firing {
  import opened Wrappers
  import opened Frame
  import opened TimerWheel
  import opened Execution
  import opened Log
  import opened Sequencer
  import opened NodeWrites

  /** `k` turns of the loop, published frames included; None if one of them
      finds nothing due or is refused by the journal. */
  function Fires<S, I, O, N>(sv: Service<S, I, O, N>, cfg: Config, n: Node<S>, k: nat): Option<Stepped<S>> {
    if k == 0 then Some(Stepped(n, []))
    else
      match Fires(sv, cfg, n, k - 1)
      case None => None
      case Some(s) =>
        match DoFire(sv, cfg, s.node)
        case None => None
        case Some(t) => Some(Stepped(t.node, s.published + t.published))
  }

  /** The loop has ended: `k` turns, and nothing is due any more. */
  ghost predicate Ended<S, I, O, N>(sv: Service<S, I, O, N>, cfg: Config, n: Node<S>, k: nat) {
    && Fires(sv, cfg, n, k).Some?
    && var s := Fires(sv, cfg, n, k).value.node; NextDue(s.machine.wheel, s.lastTime) == None
  }

  /** The journal refused the frame of turn `k`. */
  ghost predicate Refused<S, I, O, N>(sv: Service<S, I, O, N>, cfg: Config, n: Node<S>, k: nat) {
    && Fires(sv, cfg, n, k).Some?
    && var s := Fires(sv, cfg, n, k).value.node; NextDue(s.machine.wheel, s.lastTime).Some? && DoFire(sv, cfg, s) == None
  }

  // ----- what a handler's requests leave due -----

  /** What the requests alone leave armed. */
  function Left(reqs: seq<TimerReq>, setAt: nat): Wheel { Requests(map[], reqs, setAt) }

  /** The requests leave a timer armed that is due by `horizon`. */
  ghost predicate Stirs(reqs: seq<TimerReq>, setAt: nat, horizon: nat) {
    exists id :: id in Left(reqs, setAt) && Left(reqs, setAt)[id].at <= horizon
  }

  /** `w` is `base` with `u` laid over it and perhaps something taken away. */
  ghost predicate LaidOver(w: Wheel, base: Wheel, u: Wheel) {
    && (forall id :: id in u ==> id in w && w[id] == u[id])
    && (forall id :: id in w && id !in u ==> id in base && w[id] == base[id])
  }

  lemma {:induction false} RequestsLay(w: Wheel, base: Wheel, u: Wheel, reqs: seq<TimerReq>, setAt: nat)
    requires LaidOver(w, base, u)
    ensures LaidOver(Requests(w, reqs, setAt), base, Requests(u, reqs, setAt))
    decreases |reqs|
  {
    if reqs != [] {
      assert LaidOver(Request(w, reqs[0], setAt), base, Request(u, reqs[0], setAt));
      RequestsLay(Request(w, reqs[0], setAt), base, Request(u, reqs[0], setAt), reqs[1..], setAt);
    }
  }

  lemma RequestsOver(w: Wheel, reqs: seq<TimerReq>, setAt: nat)
    ensures LaidOver(Requests(w, reqs, setAt), w, Left(reqs, setAt))
  {
    assert LaidOver(w, w, map[]);
    RequestsLay(w, w, map[], reqs, setAt);
  }

  /** What is due by `horizon` in `later` was due, with the same deadline and
      set-at, in `w`. */
  ghost predicate DueWithin(later: Wheel, w: Wheel, horizon: nat) {
    forall id :: id in later && later[id].at <= horizon ==> id in w && w[id] == later[id]
  }

  lemma CalmRequests(w: Wheel, reqs: seq<TimerReq>, setAt: nat, horizon: nat)
    requires !Stirs(reqs, setAt, horizon)
    ensures DueWithin(Requests(w, reqs, setAt), w, horizon)
  {
    hide Requests;
    RequestsOver(w, reqs, setAt);
  }

  lemma StirredIsDue(w: Wheel, reqs: seq<TimerReq>, setAt: nat, now: nat)
    requires Stirs(reqs, setAt, now)
    ensures NextDue(Requests(w, reqs, setAt), now).Some?
  {
    hide Requests;
    RequestsOver(w, reqs, setAt);
    var id :| id in Left(reqs, setAt) && Left(reqs, setAt)[id].at <= now;
    var later := Requests(w, reqs, setAt);
    assert id in later && later[id].at <= now;
    NextDueIsEarliest(later, now);
  }

  // ----- hypotheses about one loop -----

  /** No handler run at a time between `from` and `horizon` leaves a timer armed
      that is due by `horizon`. */
  ghost predicate Calm<S(!new), I, O, N>(sv: Service<S, I, O, N>, from: nat, horizon: nat) {
    forall s, q, t, id :: from <= t <= horizon ==> !Stirs(sv.onTimer(s, q, t, id).timers, q, horizon)
  }

  /** Every handler arms only for later than the time it runs at. */
  ghost predicate ArmsLater<S(!new), I, O, N>(sv: Service<S, I, O, N>) {
    forall s, q, t, id :: !Stirs(sv.onTimer(s, q, t, id).timers, q, t)
  }

  /** The clock readings this loop can still make stay within `horizon`: one
      per timer due by then, and none at all without a snapshot cadence. */
  ghost predicate ReadingsBy(cfg: Config, first: nat, count: nat, horizon: nat) {
    cfg.every.Some? ==> forall k :: first <= k < first + count ==> cfg.clock(k) <= horizon
  }

  /** What must hold of one loop for it to end by `horizon`. */
  ghost predicate Bounded<S(!new), I, O, N>(sv: Service<S, I, O, N>, cfg: Config, n: Node<S>, horizon: nat) {
    && n.lastTime <= horizon
    && Calm(sv, n.lastTime, horizon)
    && ReadingsBy(cfg, n.readings, |DueIds(n.machine.wheel, horizon)|, horizon)
  }

  /** What a turn does to wheel and time, whatever the handler asks. */
  lemma FireEffect<S, I, O, N>(sv: Service<S, I, O, N>, cfg: Config, n: Node<S>)
    requires DoFire(sv, cfg, n).Some?
    ensures NextDue(n.machine.wheel, n.lastTime).Some?
    ensures var id := NextDue(n.machine.wheel, n.lastTime).value;
            var next := DoFire(sv, cfg, n).value.node;
            var out := sv.onTimer(n.machine.service, n.seqno + 1, n.lastTime, id);
            && next.machine == Settle(out, n.machine.wheel - {id}, n.seqno + 1)
            && Clocked(cfg, n.readings, n.lastTime, next)
  {
    hide AppendAll, Prune, Compact, SnapshotImage, Least, NextDue, EncodeId, Settle;
  }

  /** One firing removes the earliest timer and adds none due by the horizon. */
  lemma FireShrinks<S(!new), I, O, N>(sv: Service<S, I, O, N>, cfg: Config, n: Node<S>, horizon: nat)
    requires n.lastTime <= horizon && Calm(sv, n.lastTime, horizon) && ReadingsBy(cfg, n.readings, 1, horizon)
    requires DoFire(sv, cfg, n).Some?
    ensures NextDue(n.machine.wheel, n.lastTime).Some?
    ensures var id := NextDue(n.machine.wheel, n.lastTime).value;
            var next := DoFire(sv, cfg, n).value.node;
            && id in DueIds(n.machine.wheel, horizon)
            && DueWithin(next.machine.wheel, n.machine.wheel - {id}, horizon)
            && n.lastTime <= next.lastTime <= horizon
            && n.readings <= next.readings <= n.readings + 1
  {
    hide DoFire, Requests, NextDue, Stirs;
    FireEffect(sv, cfg, n);
    NextDueIsEarliest(n.machine.wheel, n.lastTime);
    var id := NextDue(n.machine.wheel, n.lastTime).value;
    var out := sv.onTimer(n.machine.service, n.seqno + 1, n.lastTime, id);
    CalmRequests(n.machine.wheel - {id}, out.timers, n.seqno + 1, horizon);
  }

  lemma DueShrinks(later: Wheel, w: Wheel, id: nat, horizon: nat)
    requires id in DueIds(w, horizon)
    requires DueWithin(later, w - {id}, horizon)
    ensures |DueIds(later, horizon)| < |DueIds(w, horizon)|
  {
    assert DueIds(later, horizon) <= DueIds(w, horizon) - {id};
    Smaller(DueIds(later, horizon), DueIds(w, horizon) - {id});
    assert |DueIds(w, horizon) - {id}| == |DueIds(w, horizon)| - 1;
  }

  lemma {:induction false} Smaller(a: set<nat>, b: set<nat>)
    requires a <= b
    ensures |a| <= |b|
    decreases a
  {
    if a != {} {
      var x :| x in a;
      Smaller(a - {x}, b - {x});
    }
  }

  lemma CalmLater<S(!new), I, O, N>(sv: Service<S, I, O, N>, from: nat, later: nat, horizon: nat)
    requires Calm(sv, from, horizon) && from <= later
    ensures Calm(sv, later, horizon)
  {
    hide Stirs;
  }

  // ----- it ends -----

  /** The timers due by the horizon bound the turns and the readings. */
  lemma {:induction false} FiresBounded<S(!new), I, O, N>(sv: Service<S, I, O, N>, cfg: Config, n: Node<S>, horizon: nat, k: nat)
    requires Bounded(sv, cfg, n, horizon)
    requires Fires(sv, cfg, n, k).Some?
    ensures var s := Fires(sv, cfg, n, k).value;
            && n.lastTime <= s.node.lastTime <= horizon
            && n.readings <= s.node.readings <= n.readings + k
            && k + |DueIds(s.node.machine.wheel, horizon)| <= |DueIds(n.machine.wheel, horizon)|
  {
    hide DoFire, Calm, DueIds, NextDue, DueWithin;
    if k > 0 {
      FiresBounded(sv, cfg, n, horizon, k - 1);
      var s := Fires(sv, cfg, n, k - 1).value;
      StillBounded(sv, cfg, n, s.node, horizon, k - 1);
      FireShrinks(sv, cfg, s.node, horizon);
      var id := NextDue(s.node.machine.wheel, s.node.lastTime).value;
      DueShrinks(DoFire(sv, cfg, s.node).value.node.machine.wheel, s.node.machine.wheel, id, horizon);
    }
  }

  /** As long as something is due, the next reading is one of those allowed. */
  lemma StillBounded<S(!new), I, O, N>(sv: Service<S, I, O, N>, cfg: Config, n: Node<S>, s: Node<S>, horizon: nat, k: nat)
    requires Bounded(sv, cfg, n, horizon) && DoFire(sv, cfg, s).Some?
    requires n.lastTime <= s.lastTime <= horizon && s.readings <= n.readings + k
    requires k + |DueIds(s.machine.wheel, horizon)| <= |DueIds(n.machine.wheel, horizon)|
    requires s.readings >= n.readings
    ensures Calm(sv, s.lastTime, horizon) && ReadingsBy(cfg, s.readings, 1, horizon)
  {
    CalmLater(sv, n.lastTime, s.lastTime, horizon);
    hide DoFire, Calm, NextDue;
    FireEffect(sv, cfg, s);
    NextDueIsEarliest(s.machine.wheel, s.lastTime);
    var id := NextDue(s.machine.wheel, s.lastTime).value;
    assert id in DueIds(s.machine.wheel, horizon);
    assert |DueIds(s.machine.wheel, horizon)| >= 1;
  }

  lemma {:induction false} FiringEndsFrom<S(!new), I, O, N>(sv: Service<S, I, O, N>, cfg: Config, n: Node<S>, horizon: nat, j: nat) returns (k: nat)
    requires Bounded(sv, cfg, n, horizon)
    requires Fires(sv, cfg, n, j).Some?
    ensures k <= |DueIds(n.machine.wheel, horizon)|
    ensures Ended(sv, cfg, n, k) || Refused(sv, cfg, n, k)
    decreases |DueIds(n.machine.wheel, horizon)| - j
  {
    hide DoFire, Bounded, DueIds, NextDue;
    FiresBounded(sv, cfg, n, horizon, j);
    var s := Fires(sv, cfg, n, j).value;
    if NextDue(s.node.machine.wheel, s.node.lastTime) == None || DoFire(sv, cfg, s.node) == None {
      k := j;
    } else {
      assert Fires(sv, cfg, n, j + 1).Some?;
      FiresBounded(sv, cfg, n, horizon, j + 1);
      k := FiringEndsFrom(sv, cfg, n, horizon, j + 1);
    }
  }

  /** The loop stops after at most as many turns as timers are due by the
      horizon: with nothing due, unless the journal refuses a frame. */
  lemma FiringEnds<S(!new), I, O, N>(sv: Service<S, I, O, N>, cfg: Config, n: Node<S>, horizon: nat) returns (k: nat)
    requires Bounded(sv, cfg, n, horizon)
    ensures k <= |DueIds(n.machine.wheel, horizon)|
    ensures Ended(sv, cfg, n, k) || Refused(sv, cfg, n, k)
  {
    k := FiringEndsFrom(sv, cfg, n, horizon, 0);
  }

  /** A node that can write keeps writing, turn after turn. */
  lemma {:induction false} FiresWrite<S, I, O, N>(sv: Service<S, I, O, N>, cfg: Config, n: Node<S>, hist: seq<Frame>, k: nat)
    requires Writable(n, hist) && FitsSegment(cfg, 8)
    requires Fires(sv, cfg, n, k).Some?
    ensures var s := Fires(sv, cfg, n, k).value; Writable(s.node, hist + s.published)
    ensures !Refused(sv, cfg, n, k)
  {
    hide DoFire, Writable, NextDue;
    if k == 0 {
      assert hist + [] == hist;
    } else {
      FiresWrite(sv, cfg, n, hist, k - 1);
      var s := Fires(sv, cfg, n, k - 1).value;
      FireEffect(sv, cfg, s.node);
      FireSucceeds(sv, cfg, s.node, hist + s.published);
      var t := DoFire(sv, cfg, s.node).value;
      assert hist + s.published + t.published == hist + (s.published + t.published);
    }
    var e := Fires(sv, cfg, n, k).value;
    if NextDue(e.node.machine.wheel, e.node.lastTime).Some? {
      FireSucceeds(sv, cfg, e.node, hist + e.published);
    }
  }

  /** On a node that can write, the loop ends with nothing due. */
  lemma FiringSettles<S(!new), I, O, N>(sv: Service<S, I, O, N>, cfg: Config, n: Node<S>, hist: seq<Frame>, horizon: nat) returns (k: nat)
    requires Bounded(sv, cfg, n, horizon) && Writable(n, hist) && FitsSegment(cfg, 8)
    ensures k <= |DueIds(n.machine.wheel, horizon)|
    ensures Ended(sv, cfg, n, k)
  {
    hide Bounded, Ended, Refused, Writable;
    k := FiringEnds(sv, cfg, n, horizon);
    if Refused(sv, cfg, n, k) {
      RefusedFires(sv, cfg, n, k);
      FiresWrite(sv, cfg, n, hist, k);
    }
  }

  lemma RefusedFires<S, I, O, N>(sv: Service<S, I, O, N>, cfg: Config, n: Node<S>, k: nat)
    requires Refused(sv, cfg, n, k)
    ensures Fires(sv, cfg, n, k).Some?
  {
  }

  /** Without a snapshot cadence the clock plays no part: it is enough that
      handlers never arm at or before now. */
  lemma FiringSettlesNow<S(!new), I, O, N>(sv: Service<S, I, O, N>, cfg: Config, n: Node<S>, hist: seq<Frame>) returns (k: nat)
    requires ArmsLater(sv) && cfg.every == None && Writable(n, hist) && FitsSegment(cfg, 8)
    ensures k <= |DueIds(n.machine.wheel, n.lastTime)|
    ensures Ended(sv, cfg, n, k)
  {
    LaterIsCalm(sv, n.lastTime);
    hide ArmsLater, Calm, Ended, Writable;
    k := FiringSettles(sv, cfg, n, hist, n.lastTime);
  }

  lemma LaterIsCalm<S(!new), I, O, N>(sv: Service<S, I, O, N>, now: nat)
    requires ArmsLater(sv)
    ensures Calm(sv, now, now)
  {
    hide Stirs;
  }

  // ----- handlers that arm nothing -----

  /** Whatever a handler asks, nothing is left armed by it. */
  ghost predicate Idle<S(!new), I, O, N>(sv: Service<S, I, O, N>) {
    forall s, q, t, id :: Left(sv.onTimer(s, q, t, id).timers, q).Keys == {}
  }

  lemma IdleShrinks<S(!new), I, O, N>(sv: Service<S, I, O, N>, cfg: Config, n: Node<S>)
    requires Idle(sv) && DoFire(sv, cfg, n).Some?
    ensures |DoFire(sv, cfg, n).value.node.machine.wheel| < |n.machine.wheel|
  {
    hide DoFire, Requests, NextDue;
    FireEffect(sv, cfg, n);
    var id := NextDue(n.machine.wheel, n.lastTime).value;
    var out := sv.onTimer(n.machine.service, n.seqno + 1, n.lastTime, id);
    RequestsOver(n.machine.wheel - {id}, out.timers, n.seqno + 1);
    var later := DoFire(sv, cfg, n).value.node.machine.wheel;
    assert later.Keys <= n.machine.wheel.Keys - {id};
    Smaller(later.Keys, n.machine.wheel.Keys - {id});
    assert |later.Keys| == |later| && |n.machine.wheel.Keys| == |n.machine.wheel|;
    assert |n.machine.wheel.Keys - {id}| == |n.machine.wheel.Keys| - 1;
  }

  lemma {:induction false} IdleSettlesFrom<S(!new), I, O, N>(sv: Service<S, I, O, N>, cfg: Config, n: Node<S>, hist: seq<Frame>, j: nat) returns (k: nat)
    requires Idle(sv) && Writable(n, hist) && FitsSegment(cfg, 8)
    requires Fires(sv, cfg, n, j).Some? && j + |Fires(sv, cfg, n, j).value.node.machine.wheel| <= |n.machine.wheel|
    ensures k <= |n.machine.wheel|
    ensures Ended(sv, cfg, n, k)
    decreases |n.machine.wheel| - j
  {
    hide DoFire, Idle, Writable, NextDue;
    var s := Fires(sv, cfg, n, j).value;
    if NextDue(s.node.machine.wheel, s.node.lastTime) == None {
      k := j;
    } else {
      FiresWrite(sv, cfg, n, hist, j);
      FireSucceeds(sv, cfg, s.node, hist + s.published);
      IdleShrinks(sv, cfg, s.node);
      assert Fires(sv, cfg, n, j + 1).Some?;
      k := IdleSettlesFrom(sv, cfg, n, hist, j + 1);
    }
  }

  /** Then the loop ends, whatever the clock does, within as many turns as
      timers are armed. */
  lemma IdleSettles<S(!new), I, O, N>(sv: Service<S, I, O, N>, cfg: Config, n: Node<S>, hist: seq<Frame>) returns (k: nat)
    requires Idle(sv) && Writable(n, hist) && FitsSegment(cfg, 8)
    ensures k <= |n.machine.wheel|
    ensures Ended(sv, cfg, n, k)
  {
    k := IdleSettlesFrom(sv, cfg, n, hist, 0);
  }

  // ----- once each, in order -----

  /** The id fired by turn `i`. */
  function FiredAt<S, I, O, N>(sv: Service<S, I, O, N>, cfg: Config, n: Node<S>, i: nat): Option<nat> {
    match Fires(sv, cfg, n, i)
    case None => None
    case Some(s) => NextDue(s.node.machine.wheel, s.node.lastTime)
  }

  function SlotIn(w: Wheel, id: nat): Slot
    requires id in w
  {
    Slot(w[id].at, w[id].setAt, id)
  }

  /** After `k` turns what is still due by the horizon was due at the start,
      unchanged, and comes after everything fired so far. */
  lemma {:induction false} FiredBefore<S(!new), I, O, N>(sv: Service<S, I, O, N>, cfg: Config, n: Node<S>, horizon: nat, k: nat, i: nat, id: nat)
    requires Bounded(sv, cfg, n, horizon)
    requires Fires(sv, cfg, n, k).Some?
    requires id in DueIds(Fires(sv, cfg, n, k).value.node.machine.wheel, horizon)
    ensures id in n.machine.wheel
    ensures Fires(sv, cfg, n, k).value.node.machine.wheel[id] == n.machine.wheel[id]
    ensures i < k ==>
              && FiredAt(sv, cfg, n, i).Some? && FiredAt(sv, cfg, n, i).value in n.machine.wheel
              && Earlier(SlotIn(n.machine.wheel, FiredAt(sv, cfg, n, i).value), SlotIn(n.machine.wheel, id))
    decreases k
  {
    hide DoFire, Bounded, Calm, ReadingsBy, NextDue, Earlier;
    if k > 0 {
      var s := Fires(sv, cfg, n, k - 1).value;
      var w := s.node.machine.wheel;
      FiresBounded(sv, cfg, n, horizon, k - 1);
      StillBounded(sv, cfg, n, s.node, horizon, k - 1);
      FireShrinks(sv, cfg, s.node, horizon);
      var fired := NextDue(w, s.node.lastTime).value;
      assert id in w - {fired};
      FiredBefore(sv, cfg, n, horizon, k - 1, i, id);
      if i == k - 1 {
        FiredBefore(sv, cfg, n, horizon, k - 1, 0, fired);
        NextDueIsEarliest(w, s.node.lastTime);
      }
    }
  }

  /** Every timer the loop fires was armed at its start; no timer fires twice;
      earlier turns fire timers earlier in (deadline, set-at, id). */
  lemma FiringOrder<S(!new), I, O, N>(sv: Service<S, I, O, N>, cfg: Config, n: Node<S>, horizon: nat, i: nat, j: nat)
    requires Bounded(sv, cfg, n, horizon)
    requires i < j && Fires(sv, cfg, n, j + 1).Some?
    ensures FiredAt(sv, cfg, n, i).Some? && FiredAt(sv, cfg, n, j).Some?
    ensures var a, b := FiredAt(sv, cfg, n, i).value, FiredAt(sv, cfg, n, j).value;
            && a in n.machine.wheel && b in n.machine.wheel && a != b
            && Earlier(SlotIn(n.machine.wheel, a), SlotIn(n.machine.wheel, b))
  {
    hide DoFire, Bounded, Calm, ReadingsBy, NextDue;
    var s := Fires(sv, cfg, n, j).value;
    assert DoFire(sv, cfg, s.node).Some?;
    FiresBounded(sv, cfg, n, horizon, j);
    StillBounded(sv, cfg, n, s.node, horizon, j);
    FireShrinks(sv, cfg, s.node, horizon);
    FiredBefore(sv, cfg, n, horizon, j, i, NextDue(s.node.machine.wheel, s.node.lastTime).value);
  }

  // ----- it need not end -----

  /** Every handler run at `from` or later leaves a timer armed that is already
      due. */
  ghost predicate Stirring<S(!new), I, O, N>(sv: Service<S, I, O, N>, from: nat) {
    forall s, q, t, id :: t >= from ==> Stirs(sv.onTimer(s, q, t, id).timers, q, t)
  }

  lemma StaysDue(w: Wheel, now: nat, later: nat)
    requires NextDue(w, now).Some? && now <= later
    ensures NextDue(w, later).Some?
  {
    NextDueIsEarliest(w, now);
    NextDueIsEarliest(w, later);
  }

  /** Then the loop takes every turn, for ever, with something due after each,
      on any clock and any cadence. */
  lemma {:induction false} Endless<S(!new), I, O, N>(sv: Service<S, I, O, N>, cfg: Config, n: Node<S>, hist: seq<Frame>, k: nat)
    requires Stirring(sv, n.lastTime)
    requires Writable(n, hist) && FitsSegment(cfg, 8)
    requires NextDue(n.machine.wheel, n.lastTime).Some?
    ensures Fires(sv, cfg, n, k).Some?
    ensures var s := Fires(sv, cfg, n, k).value;
            && Writable(s.node, hist + s.published) && s.node.lastTime >= n.lastTime
            && NextDue(s.node.machine.wheel, s.node.lastTime).Some?
  {
    hide DoFire, NextDue, Stirring, Writable, Requests;
    if k == 0 {
      assert hist + [] == hist;
    } else {
      Endless(sv, cfg, n, hist, k - 1);
      var s := Fires(sv, cfg, n, k - 1).value;
      var now := s.node.lastTime;
      FireSucceeds(sv, cfg, s.node, hist + s.published);
      var t := DoFire(sv, cfg, s.node).value;
      assert hist + s.published + t.published == hist + (s.published + t.published);
      var id := NextDue(s.node.machine.wheel, now).value;
      var out := sv.onTimer(s.node.machine.service, s.node.seqno + 1, now, id);
      StirsNow(sv, s.node.machine.service, s.node.seqno + 1, n.lastTime, now, id);
      StirredIsDue(s.node.machine.wheel - {id}, out.timers, s.node.seqno + 1, now);
      StaysDue(t.node.machine.wheel, now, t.node.lastTime);
    }
  }

  lemma StirsNow<S(!new), I, O, N>(sv: Service<S, I, O, N>, s: S, q: nat, from: nat, now: nat, id: nat)
    requires Stirring(sv, from) && from <= now
    ensures Stirs(sv.onTimer(s, q, now, id).timers, q, now)
  {
    hide Stirs;
  }

  /** For handlers that either keep within a bound or always stir, the loop ends
      if and only if they keep within it, or nothing was due to begin with. */
  lemma EndsIff<S(!new), I, O, N>(sv: Service<S, I, O, N>, cfg: Config, n: Node<S>, hist: seq<Frame>, horizon: nat)
    requires Bounded(sv, cfg, n, horizon) || Stirring(sv, n.lastTime)
    requires Writable(n, hist) && FitsSegment(cfg, 8)
    ensures (exists k :: Ended(sv, cfg, n, k))
            <==> Bounded(sv, cfg, n, horizon) || NextDue(n.machine.wheel, n.lastTime) == None
  {
    hide Bounded, Stirring, Writable, NextDue, DoFire;
    if Bounded(sv, cfg, n, horizon) {
      var k := FiringSettles(sv, cfg, n, hist, horizon);
    } else if NextDue(n.machine.wheel, n.lastTime) == None {
      assert Ended(sv, cfg, n, 0);
    } else {
      forall k: nat
        ensures !Ended(sv, cfg, n, k)
      {
        Endless(sv, cfg, n, hist, k);
      }
    }
  }

  /** A loop that does not end takes every turn. */
  lemma {:induction false} TakesEveryTurn<S, I, O, N>(sv: Service<S, I, O, N>, cfg: Config, n: Node<S>, hist: seq<Frame>, k: nat)
    requires Writable(n, hist) && FitsSegment(cfg, 8)
    requires forall j: nat :: j < k ==> !Ended(sv, cfg, n, j)
    ensures Fires(sv, cfg, n, k).Some?
  {
    hide DoFire, Writable, NextDue;
    if k > 0 {
      TakesEveryTurn(sv, cfg, n, hist, k - 1);
      FiresWrite(sv, cfg, n, hist, k - 1);
      var s := Fires(sv, cfg, n, k - 1).value;
      assert !Ended(sv, cfg, n, k - 1);
      FireSucceeds(sv, cfg, s.node, hist + s.published);
    }
  }
}
