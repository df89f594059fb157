/** Handlers that arm only for later than now: the firing loop always ends, if
    and only if the loop's own time comes to rest. */
module LaterTimers {
  import opened Wrappers
  import opened Bytes
  import opened Frame
  import opened TimerWheel
  import opened Execution
  import opened Log
  import opened Sequencer
  import opened NodeWrites
  import opened Firing
  import opened LoopTime

  // ----- it ends once time rests -----

  /** A turn that does not move time leaves one timer fewer due. */
  lemma StillTurn<S(!new), I, O, N>(sv: Service<S, I, O, N>, cfg: Config, n: Node<S>)
    requires ArmsLater(sv) && DoFire(sv, cfg, n).Some?
    requires DoFire(sv, cfg, n).value.node.lastTime == n.lastTime
    ensures |DueIds(DoFire(sv, cfg, n).value.node.machine.wheel, n.lastTime)| < |DueIds(n.machine.wheel, n.lastTime)|
  {
    hide DoFire, NextDue, Requests, Stirs;
    FireEffect(sv, cfg, n);
    NextDueIsEarliest(n.machine.wheel, n.lastTime);
    var id := NextDue(n.machine.wheel, n.lastTime).value;
    var out := sv.onTimer(n.machine.service, n.seqno + 1, n.lastTime, id);
    CalmRequests(n.machine.wheel - {id}, out.timers, n.seqno + 1, n.lastTime);
    DueShrinks(DoFire(sv, cfg, n).value.node.machine.wheel, n.machine.wheel, id, n.lastTime);
  }

  lemma {:induction false} EndsAtRest<S(!new), I, O, N>(sv: Service<S, I, O, N>, cfg: Config, n: Node<S>, hist: seq<Frame>, from: nat, j: nat)
      returns (k: nat)
    requires ArmsLater(sv) && Writable(n, hist) && FitsSegment(cfg, 8)
    requires RestsFrom(cfg, MomentOf(n), from) && from <= j && Fires(sv, cfg, n, j).Some?
    ensures Ended(sv, cfg, n, k)
    decreases |DueIds(Fires(sv, cfg, n, j).value.node.machine.wheel, StampAt(cfg, MomentOf(n), from))|
  {
    hide DoFire, ArmsLater, Writable, NextDue, DueIds, After;
    var s := Fires(sv, cfg, n, j).value;
    if NextDue(s.node.machine.wheel, s.node.lastTime) == None {
      k := j;
    } else {
      FiresWrite(sv, cfg, n, hist, j);
      FireSucceeds(sv, cfg, s.node, hist + s.published);
      assert Fires(sv, cfg, n, j + 1).value.node == DoFire(sv, cfg, s.node).value.node;
      FiresMoment(sv, cfg, n, j);
      FiresMoment(sv, cfg, n, j + 1);
      assert StampAt(cfg, MomentOf(n), j) == StampAt(cfg, MomentOf(n), from) == StampAt(cfg, MomentOf(n), j + 1);
      StillTurn(sv, cfg, s.node);
      k := EndsAtRest(sv, cfg, n, hist, from, j + 1);
    }
  }

  /** If time comes to rest, the loop ends for every service whose handlers arm
      later than now, from every machine. */
  lemma RestingEnds<S(!new), I, O, N>(sv: Service<S, I, O, N>, cfg: Config, n: Node<S>, hist: seq<Frame>)
    requires ArmsLater(sv) && Writable(n, hist) && FitsSegment(cfg, 8)
    requires Rests(cfg, MomentOf(n))
    ensures exists k :: Ended(sv, cfg, n, k)
  {
    hide ArmsLater, Writable, Ended, RestsFrom;
    var from: nat :| RestsFrom(cfg, MomentOf(n), from);
    if forall j: nat :: j < from ==> !Ended(sv, cfg, n, j) {
      TakesEveryTurn(sv, cfg, n, hist, from);
      var k := EndsAtRest(sv, cfg, n, hist, from, from);
    }
  }

  // ----- and otherwise need not -----

  function Fan(first: nat, count: nat, at: nat): seq<TimerReq>
    decreases count
  {
    if count == 0 then [] else [SetTimer(first, at)] + Fan(first + 1, count - 1, at)
  }

  ghost predicate KeysBelow(w: Wheel, bound: nat) {
    forall id :: id in w ==> id < bound
  }

  lemma DueWith(w: Wheel, id: nat, at: nat, setAt: nat, horizon: nat)
    requires id !in w
    ensures |DueIds(w[id := Due(at, setAt)], horizon)| == |DueIds(w, horizon)| + if at <= horizon then 1 else 0
  {
    var next := w[id := Due(at, setAt)];
    assert DueIds(next, horizon) == DueIds(w, horizon) + if at <= horizon then {id} else {};
  }

  lemma {:induction false} FanOut(w: Wheel, first: nat, count: nat, at: nat, setAt: nat, horizon: nat)
    requires KeysBelow(w, first)
    ensures var next := Requests(w, Fan(first, count, at), setAt);
            && KeysBelow(next, first + count)
            && |DueIds(next, horizon)| == |DueIds(w, horizon)| + if at <= horizon then count else 0
    decreases count
  {
    hide DueIds;
    if count > 0 {
      var one := w[first := Due(at, setAt)];
      assert Fan(first, count, at)[1..] == Fan(first + 1, count - 1, at);
      DueWith(w, first, at, setAt, horizon);
      FanOut(one, first + 1, count - 1, at, setAt, horizon);
    }
  }

  lemma {:induction false} FanLeaves(w: Wheel, first: nat, count: nat, at: nat, setAt: nat)
    requires forall id :: id in w ==> w[id].at == at
    ensures forall id :: id in Requests(w, Fan(first, count, at), setAt) ==> Requests(w, Fan(first, count, at), setAt)[id].at == at
    decreases count
  {
    if count > 0 {
      assert Fan(first, count, at)[1..] == Fan(first + 1, count - 1, at);
      FanLeaves(w[first := Due(at, setAt)], first + 1, count - 1, at, setAt);
    }
  }

  /** Counts its turns and the ids it has used. */
  datatype Crowd = Crowd(turn: nat, next: nat)

  /** The handler of turn `k` arms `fan(k)` new timers for one later than now.
      Inputs and snapshots play no part. */
  function Swarm(fan: nat -> nat): Service<Crowd, Crowd, Crowd, Crowd> {
    Service(
      Crowd(0, 0),
      (s: Crowd, q: nat, t: nat, i: Crowd) => Outcome(s, [], []),
      (s: Crowd, q: nat, t: nat, id: nat) => Outcome(Crowd(s.turn + 1, s.next + fan(s.turn)), [], Fan(s.next, fan(s.turn), t + 1)),
      (s: Crowd) => s,
      (s: Crowd) => s,
      (i: Crowd) => [],
      (b: seq<byte>) => None,
      (s: Crowd, es: seq<TimerEntry>) => [],
      (b: seq<byte>) => None,
      1,
      (i: Crowd) => false,
      (s: Crowd) => false,
      (a: Crowd, b: Crowd) => a == b)
  }

  lemma SwarmArmsLater(fan: nat -> nat)
    ensures ArmsLater(Swarm(fan))
  {
    forall s: Crowd, q: nat, t: nat, id: nat
      ensures !Stirs(Swarm(fan).onTimer(s, q, t, id).timers, q, t)
    {
      FanLeaves(map[], s.next, fan(s.turn), t + 1, q);
    }
  }

  /** How many timers the first `k` turns arm for `limit` or earlier. */
  function Hatched(cfg: Config, m: Moment, fan: nat -> nat, k: nat, limit: nat): nat {
    if k == 0 then 0
    else Hatched(cfg, m, fan, k - 1, limit) + if StampAt(cfg, m, k - 1) + 1 <= limit then fan(k - 1) else 0
  }

  lemma SwarmFires(fan: nat -> nat, cfg: Config, n: Node<Crowd>)
    requires DoFire(Swarm(fan), cfg, n).Some?
    ensures NextDue(n.machine.wheel, n.lastTime).Some?
    ensures var s, id := n.machine.service, NextDue(n.machine.wheel, n.lastTime).value;
            DoFire(Swarm(fan), cfg, n).value.node.machine
            == Machine(Crowd(s.turn + 1, s.next + fan(s.turn)),
                       Requests(n.machine.wheel - {id}, Fan(s.next, fan(s.turn), n.lastTime + 1), n.seqno + 1))
  {
    hide DoFire, NextDue, Requests, Fan;
    FireEffect(Swarm(fan), cfg, n);
  }

  lemma SwarmTurn(fan: nat -> nat, cfg: Config, n: Node<Crowd>, horizon: nat)
    requires DoFire(Swarm(fan), cfg, n).Some? && n.lastTime <= horizon
    requires KeysBelow(n.machine.wheel, n.machine.service.next)
    ensures var s, next := n.machine.service, DoFire(Swarm(fan), cfg, n).value.node.machine;
            && next.service == Crowd(s.turn + 1, s.next + fan(s.turn))
            && KeysBelow(next.wheel, next.service.next)
            && |DueIds(next.wheel, horizon)| + 1
               == |DueIds(n.machine.wheel, horizon)| + if n.lastTime + 1 <= horizon then fan(s.turn) else 0
  {
    hide DoFire, NextDue, Requests, Fan, Swarm, DueIds, KeysBelow;
    SwarmFires(fan, cfg, n);
    var w, s, id := n.machine.wheel, n.machine.service, NextDue(n.machine.wheel, n.lastTime).value;
    DueWithout(w, n.lastTime, horizon, s.next);
    FanOut(w - {id}, s.next, fan(s.turn), n.lastTime + 1, n.seqno + 1, horizon);
  }

  lemma DueWithout(w: Wheel, now: nat, horizon: nat, bound: nat)
    requires NextDue(w, now).Some? && now <= horizon && KeysBelow(w, bound)
    ensures var rest := w - {NextDue(w, now).value};
            |DueIds(rest, horizon)| + 1 == |DueIds(w, horizon)| && KeysBelow(rest, bound)
  {
    hide NextDue;
    NextDueIsEarliest(w, now);
    var id := NextDue(w, now).value;
    assert DueIds(w - {id}, horizon) == DueIds(w, horizon) - {id};
    assert id in DueIds(w, horizon);
  }

  /** After `k` turns, `k` of the deadlines due by a horizon have been served. */
  lemma {:induction false} SwarmServed(fan: nat -> nat, cfg: Config, n: Node<Crowd>, k: nat, horizon: nat)
    requires Fires(Swarm(fan), cfg, n, k).Some? && StampAt(cfg, MomentOf(n), k) <= horizon
    requires n.machine.service.turn == 0 && KeysBelow(n.machine.wheel, n.machine.service.next)
    ensures var m := Fires(Swarm(fan), cfg, n, k).value.node.machine;
            && m.service.turn == k && KeysBelow(m.wheel, m.service.next)
            && |DueIds(m.wheel, horizon)| + k
               == |DueIds(n.machine.wheel, horizon)| + Hatched(cfg, MomentOf(n), fan, k, horizon)
    decreases k
  {
    hide DoFire, Swarm, Marked, DueIds, KeysBelow;
    if k > 0 {
      StampGrows(cfg, MomentOf(n), k - 1, k);
      SwarmServed(fan, cfg, n, k - 1, horizon);
      FiresMoment(Swarm(fan), cfg, n, k - 1);
      SwarmTurn(fan, cfg, Fires(Swarm(fan), cfg, n, k - 1).value.node, horizon);
    }
  }

  lemma {:induction false} HatchedAt(cfg: Config, m: Moment, fan: nat -> nat, i: nat, k: nat, limit: nat)
    requires i < k && StampAt(cfg, m, i) + 1 <= limit
    ensures Hatched(cfg, m, fan, k, limit) >= fan(i)
    decreases k
  {
    hide StampAt;
    if i < k - 1 {
      HatchedAt(cfg, m, fan, i, k - 1, limit);
    }
  }

  /** A turn at which time is later than at turn `i`. */
  ghost function Rise(cfg: Config, m: Moment, i: nat): nat {
    if e: nat :| StampAt(cfg, m, e) > StampAt(cfg, m, i) then e else 0
  }

  lemma RiseIsLater(cfg: Config, m: Moment, i: nat, k: nat)
    requires !Rests(cfg, m) && StampAt(cfg, m, k) == StampAt(cfg, m, i)
    ensures k < Rise(cfg, m, i)
  {
    hide StampAt;
    assert !RestsFrom(cfg, m, i);
    var e: nat :| e >= i && StampAt(cfg, m, e) != StampAt(cfg, m, i);
    StampGrows(cfg, m, i, e);
    if k >= Rise(cfg, m, i) {
      StampGrows(cfg, m, Rise(cfg, m, i), k);
    }
  }

  /** The last turn before time reached what it is at turn `k`. */
  lemma {:induction false} LastBefore(cfg: Config, m: Moment, k: nat) returns (i: nat)
    requires StampAt(cfg, m, k) > StampAt(cfg, m, 0)
    ensures i < k && StampAt(cfg, m, i) < StampAt(cfg, m, k) == StampAt(cfg, m, i + 1)
  {
    hide StampAt;
    StampGrows(cfg, m, k - 1, k);
    if StampAt(cfg, m, k - 1) < StampAt(cfg, m, k) {
      i := k - 1;
    } else {
      i := LastBefore(cfg, m, k - 1);
    }
  }

  /** As many timers as it takes to last through the next standstill. */
  ghost function Supply(cfg: Config, m: Moment): nat -> nat { (i: nat) => Rise(cfg, m, i + 1) }

  ghost function Crowded(cfg: Config, m: Moment): Machine<Crowd> {
    Machine(Crowd(0, Rise(cfg, m, 0)), Requests(map[], Fan(0, Rise(cfg, m, 0), 0), 0))
  }

  lemma AlwaysOwed(cfg: Config, m: Moment, k: nat)
    requires !Rests(cfg, m)
    ensures KeysBelow(Crowded(cfg, m).wheel, Crowded(cfg, m).service.next)
    ensures |DueIds(Crowded(cfg, m).wheel, StampAt(cfg, m, k))| + Hatched(cfg, m, Supply(cfg, m), k, StampAt(cfg, m, k)) > k
  {
    hide StampAt, Rests, Rise, Fan, Requests, DueIds, Hatched;
    var none: Wheel := map[];
    var now := StampAt(cfg, m, k);
    FanOut(none, 0, Rise(cfg, m, 0), 0, 0, now);
    StampGrows(cfg, m, 0, k);
    if now == StampAt(cfg, m, 0) {
      RiseIsLater(cfg, m, 0, k);
    } else {
      var i := LastBefore(cfg, m, k);
      RiseIsLater(cfg, m, i + 1, k);
      HatchedAt(cfg, m, Supply(cfg, m), i, k, now);
    }
  }

  /** If time never comes to rest, some handlers that arm later than now keep the
      loop running for ever: every turn succeeds and leaves a timer due. */
  lemma {:induction false} RestlessOutruns(cfg: Config, n: Node<Crowd>, hist: seq<Frame>, k: nat)
    requires Writable(n, hist) && FitsSegment(cfg, 8) && !Rests(cfg, MomentOf(n))
    requires n.machine == Crowded(cfg, MomentOf(n))
    ensures var sv := Swarm(Supply(cfg, MomentOf(n)));
            && Fires(sv, cfg, n, k).Some?
            && var s := Fires(sv, cfg, n, k).value.node; NextDue(s.machine.wheel, s.lastTime).Some?
  {
    hide DoFire, Writable, NextDue, Swarm, Rests, After, Supply, Crowded, DueIds, KeysBelow;
    var m := MomentOf(n);
    var sv := Swarm(Supply(cfg, m));
    if k > 0 {
      RestlessOutruns(cfg, n, hist, k - 1);
      FiresWrite(sv, cfg, n, hist, k - 1);
      FireSucceeds(sv, cfg, Fires(sv, cfg, n, k - 1).value.node, hist + Fires(sv, cfg, n, k - 1).value.published);
    }
    FiresMoment(sv, cfg, n, k);
    var s := Fires(sv, cfg, n, k).value.node;
    AlwaysOwed(cfg, m, k);
    CrowdedTurn(cfg, m);
    SwarmServed(Supply(cfg, m), cfg, n, k, s.lastTime);
    SomeDue(s.machine.wheel, s.lastTime);
  }

  lemma CrowdedTurn(cfg: Config, m: Moment)
    ensures Crowded(cfg, m).service.turn == 0
  {
  }

  lemma SomeDue(w: Wheel, now: nat)
    requires |DueIds(w, now)| > 0
    ensures NextDue(w, now).Some?
  {
    NextDueIsEarliest(w, now);
    var id :| id in DueIds(w, now);
  }

  ghost predicate SwarmEnds(cfg: Config, n: Node<Crowd>, fan: nat -> nat, m: Machine<Crowd>) {
    exists k :: Ended(Swarm(fan), cfg, n.(machine := m), k)
  }

  /** The promise that arming later than now ends the loop is kept at a point of
      a node's run, whatever its handlers and its wheel, if and only if the
      loop's time comes to rest from there: a matter of clock and cadence. */
  lemma LaterEndsIff(cfg: Config, n: Node<Crowd>, hist: seq<Frame>)
    requires Writable(n, hist) && FitsSegment(cfg, 8)
    ensures (forall fan, m :: SwarmEnds(cfg, n, fan, m)) <==> Rests(cfg, MomentOf(n))
  {
    hide Ended, Rests, Swarm, LogOk, ArmsLater;
    if Rests(cfg, MomentOf(n)) {
      forall fan, m
        ensures SwarmEnds(cfg, n, fan, m)
      {
        SwarmArmsLater(fan);
        RestingEnds(Swarm(fan), cfg, n.(machine := m), hist);
      }
    } else {
      var fan, m := Supply(cfg, MomentOf(n)), Crowded(cfg, MomentOf(n));
      forall k: nat
        ensures !Ended(Swarm(fan), cfg, n.(machine := m), k)
      {
        RestlessOutruns(cfg, n.(machine := m), hist, k);
        NotEnded(Swarm(fan), cfg, n.(machine := m), k);
      }
      assert !SwarmEnds(cfg, n, fan, m);
    }
  }

  lemma NotEnded<S, I, O, N>(sv: Service<S, I, O, N>, cfg: Config, n: Node<S>, k: nat)
    requires Fires(sv, cfg, n, k).Some?
    requires var s := Fires(sv, cfg, n, k).value.node; NextDue(s.machine.wheel, s.lastTime).Some?
    ensures !Ended(sv, cfg, n, k)
  {
  }
}
