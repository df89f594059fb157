/** Timers that re-arm themselves a fixed delay after they fire: exactly when the
    firing loop ends, for any wheel, any clock and any snapshot cadence. */
module PeriodicTimers {
  import opened Wrappers
  import opened Frame
  import opened TimerWheel
  import opened Execution
  import opened Sequencer
  import opened NodeWrites
  import opened Firing
  import opened LoopTime

  // ----- counting deadlines -----

  /** A handler that re-arms its own timer `delay` after it fires. */
  ghost predicate Periodic<S(!new), I, O, N>(sv: Service<S, I, O, N>, delay: nat) {
    forall s, q, t: nat, id :: sv.onTimer(s, q, t, id).timers == [SetTimer(id, t + delay)]
  }

  /** How many of the first `k` turns re-arm for `limit` or earlier. */
  function Rearmed(cfg: Config, m: Moment, delay: nat, k: nat, limit: nat): nat {
    if k == 0 then 0
    else Rearmed(cfg, m, delay, k - 1, limit) + if StampAt(cfg, m, k - 1) + delay <= limit then 1 else 0
  }

  /** How many deadlines have come due by turn `k`: those armed at the start, and
      those the first `k` turns have set. */
  function Owed(cfg: Config, w: Wheel, m: Moment, delay: nat, k: nat): nat {
    |DueIds(w, StampAt(cfg, m, k))| + Rearmed(cfg, m, delay, k, StampAt(cfg, m, k))
  }

  lemma RearmOne(w: Wheel, id: nat, at: nat, setAt: nat)
    ensures Requests(w, [SetTimer(id, at)], setAt) == w[id := Due(at, setAt)]
  {
    assert [SetTimer(id, at)][1..] == [];
    assert Requests(w, [SetTimer(id, at)], setAt) == Requests(w[id := Due(at, setAt)], [], setAt);
  }

  lemma DueAfterRearm(w: Wheel, id: nat, at: nat, setAt: nat, horizon: nat)
    requires id in DueIds(w, horizon)
    ensures |DueIds((w - {id})[id := Due(at, setAt)], horizon)| == |DueIds(w, horizon)| - 1 + if at <= horizon then 1 else 0
  {
    var next := (w - {id})[id := Due(at, setAt)];
    if at <= horizon {
      assert DueIds(next, horizon) == DueIds(w, horizon);
    } else {
      assert DueIds(next, horizon) == DueIds(w, horizon) - {id};
    }
  }

  /** What one turn does to the wheel. */
  lemma PeriodicTurn<S(!new), I, O, N>(sv: Service<S, I, O, N>, cfg: Config, n: Node<S>, delay: nat, horizon: nat)
    requires Periodic(sv, delay) && DoFire(sv, cfg, n).Some? && n.lastTime <= horizon
    ensures |DueIds(DoFire(sv, cfg, n).value.node.machine.wheel, horizon)| + 1
            == |DueIds(n.machine.wheel, horizon)| + if n.lastTime + delay <= horizon then 1 else 0
  {
    hide DoFire, NextDue, Requests;
    FireEffect(sv, cfg, n);
    NextDueIsEarliest(n.machine.wheel, n.lastTime);
    var id := NextDue(n.machine.wheel, n.lastTime).value;
    var w := n.machine.wheel;
    assert sv.onTimer(n.machine.service, n.seqno + 1, n.lastTime, id).timers == [SetTimer(id, n.lastTime + delay)];
    RearmOne(w - {id}, id, n.lastTime + delay, n.seqno + 1);
    DueAfterRearm(w, id, n.lastTime + delay, n.seqno + 1, horizon);
  }

  /** After `k` turns, `k` of the deadlines due by a horizon have been served and
      the others are still in the wheel. */
  lemma {:induction false} Served<S(!new), I, O, N>(sv: Service<S, I, O, N>, cfg: Config, n: Node<S>, delay: nat, k: nat, horizon: nat)
    requires Periodic(sv, delay) && Fires(sv, cfg, n, k).Some?
    requires StampAt(cfg, MomentOf(n), k) <= horizon
    ensures |DueIds(Fires(sv, cfg, n, k).value.node.machine.wheel, horizon)| + k
            == |DueIds(n.machine.wheel, horizon)| + Rearmed(cfg, MomentOf(n), delay, k, horizon)
    decreases k
  {
    hide DoFire, Periodic, Marked, DueIds;
    if k > 0 {
      StampGrows(cfg, MomentOf(n), k - 1, k);
      Served(sv, cfg, n, delay, k - 1, horizon);
      FiresMoment(sv, cfg, n, k - 1);
      PeriodicTurn(sv, cfg, Fires(sv, cfg, n, k - 1).value.node, delay, horizon);
    }
  }

  lemma NoneDueIff(w: Wheel, now: nat)
    ensures NextDue(w, now) == None <==> |DueIds(w, now)| == 0
  {
    NextDueIsEarliest(w, now);
    if NextDue(w, now).Some? {
      assert NextDue(w, now).value in DueIds(w, now);
    } else {
      assert DueIds(w, now) == {};
    }
  }

  /** The loop has ended after `k` turns exactly when `k` deadlines have come due. */
  lemma EndedIffOwed<S(!new), I, O, N>(sv: Service<S, I, O, N>, cfg: Config, n: Node<S>, delay: nat, k: nat)
    requires Periodic(sv, delay) && Fires(sv, cfg, n, k).Some?
    ensures Ended(sv, cfg, n, k) <==> Owed(cfg, n.machine.wheel, MomentOf(n), delay, k) == k
  {
    hide Periodic, DueIds, NextDue, Fires, After;
    FiresMoment(sv, cfg, n, k);
    var s := Fires(sv, cfg, n, k).value.node;
    Served(sv, cfg, n, delay, k, s.lastTime);
    NoneDueIff(s.machine.wheel, s.lastTime);
  }

  /** Periodic timers: the loop ends if and only if after some number of turns no
      more deadlines have come due than turns were taken. Which deadlines come
      due is a matter of the wheel, the delay, the clock and the cadence. */
  lemma PeriodicEndsIff<S(!new), I, O, N>(sv: Service<S, I, O, N>, cfg: Config, n: Node<S>, hist: seq<Frame>, delay: nat)
    requires Periodic(sv, delay) && Writable(n, hist) && FitsSegment(cfg, 8)
    ensures (exists k :: Ended(sv, cfg, n, k))
            <==> exists k :: Owed(cfg, n.machine.wheel, MomentOf(n), delay, k) == k
  {
    hide Periodic, Writable, Owed, Ended;
    if k: nat :| Ended(sv, cfg, n, k) {
      EndedFired(sv, cfg, n, k);
      EndedIffOwed(sv, cfg, n, delay, k);
    }
    if k: nat :| Owed(cfg, n.machine.wheel, MomentOf(n), delay, k) == k {
      if forall j: nat :: j < k ==> !Ended(sv, cfg, n, j) {
        TakesEveryTurn(sv, cfg, n, hist, k);
        EndedIffOwed(sv, cfg, n, delay, k);
      }
    }
  }

  lemma EndedFired<S, I, O, N>(sv: Service<S, I, O, N>, cfg: Config, n: Node<S>, k: nat)
    requires Ended(sv, cfg, n, k)
    ensures Fires(sv, cfg, n, k).Some?
  {
  }

  /** With no delay every firing leaves its timer due; with one, none does. */
  lemma PeriodicKind<S(!new), I, O, N>(sv: Service<S, I, O, N>, delay: nat)
    requires Periodic(sv, delay)
    ensures delay == 0 ==> Stirring(sv, 0)
    ensures delay > 0 ==> ArmsLater(sv)
  {
    forall s: S, q: nat, t: nat, id: nat
      ensures Stirs(sv.onTimer(s, q, t, id).timers, q, t) <==> delay == 0
    {
      var none: Wheel := map[];
      RearmOne(none, id, t + delay, q);
      assert sv.onTimer(s, q, t, id).timers == [SetTimer(id, t + delay)];
      assert Left(sv.onTimer(s, q, t, id).timers, q) == map[id := Due(t + delay, q)];
      if delay == 0 {
        assert id in Left(sv.onTimer(s, q, t, id).timers, q);
      }
    }
  }

  // ----- one due timer -----

  /** Some turn of the first `k` re-arms for later than `limit` exactly when not
      all of them count. */
  lemma {:induction false} RearmedLess(cfg: Config, m: Moment, delay: nat, k: nat, limit: nat) returns (i: nat)
    requires Rearmed(cfg, m, delay, k, limit) < k
    ensures i < k && StampAt(cfg, m, i) + delay > limit
  {
    if StampAt(cfg, m, k - 1) + delay > limit {
      i := k - 1;
    } else {
      i := RearmedLess(cfg, m, delay, k - 1, limit);
    }
  }

  lemma {:induction false} RearmedAll(cfg: Config, m: Moment, delay: nat, k: nat, limit: nat)
    requires forall i :: 0 <= i < k ==> StampAt(cfg, m, i) + delay <= limit
    ensures Rearmed(cfg, m, delay, k, limit) == k
  {
    if k > 0 {
      RearmedAll(cfg, m, delay, k - 1, limit);
    }
  }

  /** The clock gives out: some turn moves time on by less than the delay. */
  ghost predicate GivesOut(cfg: Config, m: Moment, delay: nat) {
    exists j: nat :: StampAt(cfg, m, j + 1) < StampAt(cfg, m, j) + delay
  }

  lemma GivesOutWithin(cfg: Config, m: Moment, delay: nat, i: nat, k: nat)
    requires i < k && StampAt(cfg, m, i) + delay > StampAt(cfg, m, k)
    ensures GivesOut(cfg, m, delay)
  {
    hide StampAt;
    StampGrows(cfg, m, i + 1, k);
  }

  lemma {:induction false} FirstGiveOut(cfg: Config, m: Moment, delay: nat, j: nat) returns (first: nat)
    requires StampAt(cfg, m, j + 1) < StampAt(cfg, m, j) + delay
    ensures StampAt(cfg, m, first + 1) < StampAt(cfg, m, first) + delay
    ensures forall i :: 0 <= i < first ==> StampAt(cfg, m, i + 1) >= StampAt(cfg, m, i) + delay
  {
    hide StampAt;
    if i: nat :| i < j && StampAt(cfg, m, i + 1) < StampAt(cfg, m, i) + delay {
      first := FirstGiveOut(cfg, m, delay, i);
    } else {
      first := j;
    }
  }

  /** A single timer, due now: the loop ends if and only if some turn moves time
      on by less than the delay. */
  lemma SingleEndsIff<S(!new), I, O, N>(sv: Service<S, I, O, N>, cfg: Config, n: Node<S>, hist: seq<Frame>, delay: nat, id: nat)
    requires Periodic(sv, delay) && Writable(n, hist) && FitsSegment(cfg, 8)
    requires n.machine.wheel.Keys == {id} && n.machine.wheel[id].at <= n.lastTime
    ensures (exists k :: Ended(sv, cfg, n, k)) <==> GivesOut(cfg, MomentOf(n), delay)
  {
    hide Periodic, Writable, Ended, StampAt, Rearmed;
    PeriodicEndsIff(sv, cfg, n, hist, delay);
    var m := MomentOf(n);
    forall k: nat
      ensures Owed(cfg, n.machine.wheel, m, delay, k) == 1 + Rearmed(cfg, m, delay, k, StampAt(cfg, m, k))
    {
      StartStamp(cfg, m);
      StampGrows(cfg, m, 0, k);
      assert DueIds(n.machine.wheel, StampAt(cfg, m, k)) == {id};
    }
    hide Owed;
    if k: nat :| Owed(cfg, n.machine.wheel, m, delay, k) == k {
      var i := RearmedLess(cfg, m, delay, k, StampAt(cfg, m, k));
      GivesOutWithin(cfg, m, delay, i, k);
    }
    if j: nat :| StampAt(cfg, m, j + 1) < StampAt(cfg, m, j) + delay {
      var first := FirstGiveOut(cfg, m, delay, j);
      SingleOwed(cfg, m, delay, first);
      assert Owed(cfg, n.machine.wheel, m, delay, first + 1) == first + 1;
    }
  }

  lemma StartStamp(cfg: Config, m: Moment)
    ensures StampAt(cfg, m, 0) == m.now
  {
  }

  lemma SingleOwed(cfg: Config, m: Moment, delay: nat, first: nat)
    requires StampAt(cfg, m, first + 1) < StampAt(cfg, m, first) + delay
    requires forall i :: 0 <= i < first ==> StampAt(cfg, m, i + 1) >= StampAt(cfg, m, i) + delay
    ensures Rearmed(cfg, m, delay, first + 1, StampAt(cfg, m, first + 1)) == first
  {
    hide StampAt;
    var limit := StampAt(cfg, m, first + 1);
    forall i | 0 <= i < first
      ensures StampAt(cfg, m, i) + delay <= limit
    {
      StampGrows(cfg, m, i + 1, first + 1);
    }
    RearmedAll(cfg, m, delay, first, limit);
  }

  // ----- without a cadence -----

  /** Without a cadence the clock plays no part: the loop ends if and only if the
      delay is not zero, or nothing was due to begin with. */
  lemma PlainEndsIff<S(!new), I, O, N>(sv: Service<S, I, O, N>, cfg: Config, n: Node<S>, hist: seq<Frame>, delay: nat)
    requires Periodic(sv, delay) && Writable(n, hist) && FitsSegment(cfg, 8) && cfg.every == None
    ensures (exists k :: Ended(sv, cfg, n, k)) <==> delay > 0 || NextDue(n.machine.wheel, n.lastTime) == None
  {
    hide Periodic, Writable, Ended, StampAt, Rearmed, NextDue;
    PeriodicEndsIff(sv, cfg, n, hist, delay);
    var m, due := MomentOf(n), |DueIds(n.machine.wheel, n.lastTime)|;
    NoneDueIff(n.machine.wheel, n.lastTime);
    forall k: nat
      ensures Owed(cfg, n.machine.wheel, m, delay, k) == due + if delay == 0 then k else 0
    {
      TimeStands(cfg, m, k);
      PlainRearmed(cfg, m, delay, k);
    }
    hide Owed;
    if delay > 0 {
      assert Owed(cfg, n.machine.wheel, m, delay, due) == due;
    } else if due == 0 {
      assert Owed(cfg, n.machine.wheel, m, delay, 0) == 0;
    }
  }

  lemma {:induction false} PlainRearmed(cfg: Config, m: Moment, delay: nat, k: nat)
    requires cfg.every == None
    ensures Rearmed(cfg, m, delay, k, m.now) == if delay == 0 then k else 0
  {
    hide StampAt;
    if k > 0 {
      PlainRearmed(cfg, m, delay, k - 1);
      TimeStands(cfg, m, k - 1);
    }
  }
}
