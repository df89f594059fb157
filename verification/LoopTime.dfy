/** Sequenced time inside the firing loop: a firing does not advance it, but the
    mark of a snapshot taken between two firings reads the clock. */
module LoopTime {
  import opened Wrappers
  import opened Frame
  import opened TimerWheel
  import opened Execution
  import opened Log
  import opened Sequencer
  import opened Firing

  /** Where a node is in seqs, clock readings and sequenced time. */
  datatype Moment = Moment(seqno: nat, readings: nat, now: nat)

  function MomentOf<S>(n: Node<S>): Moment { Moment(n.seqno, n.readings, n.lastTime) }

  /** On the cadence a mark takes the next seq and reads the clock. */
  function Marked(cfg: Config, m: Moment): Moment {
    if OnCadence(cfg, m.seqno)
    then Moment(m.seqno + 1, m.readings + 1, if cfg.clock(m.readings) < m.now then m.now else cfg.clock(m.readings))
    else m
  }

  /** Where `k` turns take it: a matter of the clock and the cadence alone. */
  function After(cfg: Config, m: Moment, k: nat): Moment {
    if k == 0 then m else Marked(cfg, After(cfg, m, k - 1).(seqno := After(cfg, m, k - 1).seqno + 1))
  }

  function StampAt(cfg: Config, m: Moment, k: nat): nat { After(cfg, m, k).now }

  lemma FinishMoment<S, I, O, N>(sv: Service<S, I, O, N>, cfg: Config, s: Stepped<S>)
    requires Finish(sv, cfg, s).Some?
    ensures MomentOf(Finish(sv, cfg, s).value.node) == Marked(cfg, MomentOf(s.node))
  {
    hide AppendAll, Prune, Compact, SnapshotImage, Least, EncodeId;
  }

  lemma FireMoment<S, I, O, N>(sv: Service<S, I, O, N>, cfg: Config, n: Node<S>)
    requires DoFire(sv, cfg, n).Some?
    ensures MomentOf(DoFire(sv, cfg, n).value.node) == Marked(cfg, MomentOf(n).(seqno := n.seqno + 1))
  {
    hide AppendAll, Finish, Settle, NextDue, EncodeId;
    var id := NextDue(n.machine.wheel, n.lastTime).value;
    var s := SequenceAt(cfg, n, TimerFired, EncodeId(id), n.lastTime).value;
    var out := sv.onTimer(n.machine.service, s.node.seqno, s.node.lastTime, id);
    FinishMoment(sv, cfg, s.(node := s.node.(machine := Settle(out, n.machine.wheel - {id}, s.node.seqno))));
  }

  lemma {:induction false} FiresMoment<S, I, O, N>(sv: Service<S, I, O, N>, cfg: Config, n: Node<S>, k: nat)
    requires Fires(sv, cfg, n, k).Some?
    ensures MomentOf(Fires(sv, cfg, n, k).value.node) == After(cfg, MomentOf(n), k)
  {
    hide DoFire, Marked;
    if k > 0 {
      FiresMoment(sv, cfg, n, k - 1);
      FireMoment(sv, cfg, Fires(sv, cfg, n, k - 1).value.node);
    }
  }

  lemma {:induction false} StampGrows(cfg: Config, m: Moment, i: nat, k: nat)
    requires i <= k
    ensures StampAt(cfg, m, i) <= StampAt(cfg, m, k)
    decreases k - i
  {
    if i < k {
      StampGrows(cfg, m, i, k - 1);
    }
  }

  lemma {:induction false} TimeStands(cfg: Config, m: Moment, k: nat)
    requires cfg.every == None
    ensures StampAt(cfg, m, k) == m.now
  {
    if k > 0 {
      TimeStands(cfg, m, k - 1);
    }
  }

  // ----- time that comes to rest -----

  /** From some turn on the loop's marks no longer move time. */
  ghost predicate Rests(cfg: Config, m: Moment) {
    exists from: nat :: RestsFrom(cfg, m, from)
  }

  ghost predicate RestsFrom(cfg: Config, m: Moment, from: nat) {
    forall k: nat :: k >= from ==> StampAt(cfg, m, k) == StampAt(cfg, m, from)
  }

  /** Without a cadence it rests at once. */
  lemma PlainRests(cfg: Config, m: Moment)
    requires cfg.every == None
    ensures Rests(cfg, m)
  {
    forall k: nat
      ensures StampAt(cfg, m, k) == m.now
    {
      TimeStands(cfg, m, k);
    }
    assert RestsFrom(cfg, m, 0);
  }

  lemma {:induction false} RestsBelow(cfg: Config, m: Moment, limit: nat, j: nat)
    requires forall k: nat :: StampAt(cfg, m, k) <= limit
    ensures Rests(cfg, m)
    decreases limit - StampAt(cfg, m, j)
  {
    hide StampAt;
    if k: nat :| k >= j && StampAt(cfg, m, k) != StampAt(cfg, m, j) {
      StampGrows(cfg, m, j, k);
      RestsBelow(cfg, m, limit, k);
    } else {
      assert RestsFrom(cfg, m, j);
    }
  }

  lemma {:induction false} StampUnder(cfg: Config, m: Moment, limit: nat, k: nat)
    requires m.now <= limit && forall r :: r >= m.readings ==> cfg.clock(r) <= limit
    ensures StampAt(cfg, m, k) <= limit && After(cfg, m, k).readings >= m.readings
  {
    if k > 0 {
      StampUnder(cfg, m, limit, k - 1);
    }
  }

  /** With a cadence it comes to rest as long as the clock stays below some
      limit. */
  lemma BoundedRests(cfg: Config, m: Moment, limit: nat)
    requires m.now <= limit && forall r :: r >= m.readings ==> cfg.clock(r) <= limit
    ensures Rests(cfg, m)
  {
    hide StampAt, Rests;
    forall k: nat
      ensures StampAt(cfg, m, k) <= limit
    {
      StampUnder(cfg, m, limit, k);
    }
    RestsBelow(cfg, m, limit, 0);
  }
}
