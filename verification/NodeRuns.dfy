/** Whole runs of the node: any mix of submits, firings, ticks, fences, syncs
    and power losses, with the live history they leave behind. */
module NodeRuns {
  import opened Wrappers
  import opened Bytes
  import opened Frame
  import opened Execution
  import opened Log
  import opened Sequencer
  import opened NodeInvariant
  import opened Recovery

  /** A node and the live history: every frame published and not lost. */
  datatype World<+S> = World(node: Node<S>, hist: seq<Frame>)

  /** The world after a step; a run is left when the step fails or when the
      state outgrows the integer widths of the wire formats. */
  ghost function Publish<S, I, O, N>(sv: Service<S, I, O, N>, w: World<S>, s: Option<Stepped<S>>): Option<World<S>> {
    match s
    case None => None
    case Some(t) => if Roomy(sv, t.node) then Some(World(t.node, w.hist + t.published)) else None
  }

  /** One action; None when it cannot be taken, fails or outgrows a width. */
  ghost function Next<S, I, O, N>(sv: Service<S, I, O, N>, cfg: Config, w: World<S>, a: Action<I>): Option<World<S>> {
    if |w.hist| + 2 >= U64_LIMIT then None
    else
      match a
      case Submit(input) => if sv.encodable(input) then Publish(sv, w, DoSubmit(sv, cfg, w.node, input)) else None
      case Fire => Publish(sv, w, DoFire(sv, cfg, w.node))
      case Tick => Publish(sv, w, DoControl(sv, cfg, w.node, FrameKind.Tick, []))
      case Fence(epoch) => Publish(sv, w, DoFence(sv, cfg, w.node, epoch))
      case SyncLog => Some(World(w.node.(log := Sync(w.node.log)), w.hist))
      case PowerLoss(kept) =>
        if !MayKeep(w.node.log, kept) then None
        else
          match DoPowerLoss(sv, w.node, kept)
          case Opened(n) => Some(World(n, if n.seqno <= |w.hist| then w.hist[..n.seqno] else w.hist))
          case _ => None
  }

  ghost function RunAll<S, I, O, N>(sv: Service<S, I, O, N>, cfg: Config, w: World<S>, actions: seq<Action<I>>): Option<World<S>>
    decreases |actions|
  {
    if actions == [] then Some(w)
    else
      match Next(sv, cfg, w, actions[0])
      case None => None
      case Some(next) => RunAll(sv, cfg, next, actions[1..])
  }

  lemma RunThree<S, I, O, N>(sv: Service<S, I, O, N>, cfg: Config, w: World<S>, x: Action<I>, y: Action<I>, z: Action<I>,
                             a: World<S>, b: World<S>, c: World<S>)
    requires Next(sv, cfg, w, x) == Some(a) && Next(sv, cfg, a, y) == Some(b) && Next(sv, cfg, b, z) == Some(c)
    ensures RunAll(sv, cfg, w, [x, y, z]) == Some(c)
  {
    hide Next;
    assert [x, y, z][1..] == [y, z] && [y, z][1..] == [z] && [z][1..] == [];
    assert RunAll(sv, cfg, c, []) == Some(c);
    assert RunAll(sv, cfg, b, [z]) == Some(c);
    assert RunAll(sv, cfg, a, [y, z]) == Some(c);
  }

  /** The node as it first opens on an empty disk. */
  function Fresh<S, I, O, N>(sv: Service<S, I, O, N>): World<S> {
    World(Node(Genesis(sv), NO_LOG, map[], 0, 0, 0, 0), [])
  }

  lemma FreshOpens<S(!new), I(!new), O, N>(sv: Service<S, I, O, N>)
    ensures OpenNode(sv, [], map[], 0, 0) == Opened(Fresh(sv).node)
    ensures Lawful(sv) ==> NodeOk(sv, Fresh(sv).node, [])
  {
    assert Purge(map[], 0) == map[];
    if Lawful(sv) {
      SameSelf(sv, Genesis(sv));
      NothingFits(sv, []);
    }
  }

  lemma NothingFits<S, I, O, N>(sv: Service<S, I, O, N>, hist: seq<Frame>)
    requires hist == []
    ensures WheelsFit(sv, hist)
  {
    assert hist[..0] == [];
  }

  ghost predicate WorldOk<S, I, O, N>(sv: Service<S, I, O, N>, w: World<S>) {
    NodeOk(sv, w.node, w.hist)
  }

  /** Up to everything durable in `w`, the two histories agree. */
  ghost predicate Remembers<S>(w: World<S>, later: World<S>) {
    && 0 <= Durable(w.node) <= Durable(later.node)
    && Durable(w.node) <= |w.hist| && Durable(w.node) <= |later.hist|
    && later.hist[..Durable(w.node)] == w.hist[..Durable(w.node)]
  }

  lemma DurableInside<S, I, O, N>(sv: Service<S, I, O, N>, n: Node<S>, hist: seq<Frame>)
    requires NodeOk(sv, n, hist)
    ensures 0 <= Durable(n) <= |hist|
  {
    SnapsBelow(sv, n.snaps, hist);
    if n.log.segs != [] {
      assert SegOk(Active(n.log.segs), hist);
    }
  }

  lemma PublishOk<S, I, O, N>(sv: Service<S, I, O, N>, w: World<S>, s: Option<Stepped<S>>)
    requires WorldOk(sv, w)
    requires s.Some? && Roomy(sv, s.value.node) ==> Continues(sv, w.node, w.hist, s.value)
    ensures Publish(sv, w, s).Some? ==> WorldOk(sv, Publish(sv, w, s).value) && Remembers(w, Publish(sv, w, s).value)
  {
    hide NodeOk, Durable, Roomy;
    DurableInside(sv, w.node, w.hist);
    if s.Some? && Roomy(sv, s.value.node) {
      DurableInside(sv, s.value.node, w.hist + s.value.published);
      assert (w.hist + s.value.published)[..Durable(w.node)] == w.hist[..Durable(w.node)];
    }
  }

  lemma NextOk<S(!new), I(!new), O, N>(sv: Service<S, I, O, N>, cfg: Config, w: World<S>, a: Action<I>)
    requires Lawful(sv) && WorldOk(sv, w)
    requires Next(sv, cfg, w, a).Some?
    ensures WorldOk(sv, Next(sv, cfg, w, a).value)
    ensures Remembers(w, Next(sv, cfg, w, a).value)
  {
    hide Lawful, NodeOk, Durable, DoSubmit, DoFire, DoControl, DoPowerLoss, Continues, FencePayload, Sync, Roomy;
    match a {
      case Submit(input) =>
        var s := DoSubmit(sv, cfg, w.node, input);
        if s.Some? && Roomy(sv, s.value.node) { SubmitOk(sv, cfg, w.node, w.hist, input); }
        PublishOk(sv, w, s);
      case Fire =>
        var s := DoFire(sv, cfg, w.node);
        if s.Some? && Roomy(sv, s.value.node) { FireOk(sv, cfg, w.node, w.hist); }
        PublishOk(sv, w, s);
      case Tick =>
        var s := DoControl(sv, cfg, w.node, FrameKind.Tick, []);
        if s.Some? && Roomy(sv, s.value.node) { ControlOk(sv, cfg, w.node, w.hist, FrameKind.Tick, []); }
        PublishOk(sv, w, s);
      case Fence(epoch) =>
        NextFence(sv, cfg, w, epoch);
      case SyncLog =>
        SyncLogOk(sv, w.node, w.hist);
        SyncRemembers(sv, w);
      case PowerLoss(kept) =>
        NextLoss(sv, w, kept);
    }
  }

  lemma NextFence<S(!new), I(!new), O, N>(sv: Service<S, I, O, N>, cfg: Config, w: World<S>, epoch: nat)
    requires Lawful(sv) && WorldOk(sv, w) && |w.hist| + 2 < U64_LIMIT
    requires Publish(sv, w, DoFence(sv, cfg, w.node, epoch)).Some?
    ensures var r := Publish(sv, w, DoFence(sv, cfg, w.node, epoch));
            WorldOk(sv, r.value) && Remembers(w, r.value)
  {
    hide Lawful, NodeOk, Durable, DoControl, Continues, FencePayload, Roomy;
    var payload := FencePayload(epoch, w.node.seqno + 1, sv.schema);
    ControlOk(sv, cfg, w.node, w.hist, EpochChange, payload);
    PublishOk(sv, w, DoFence(sv, cfg, w.node, epoch));
  }

  lemma SyncRemembers<S, I, O, N>(sv: Service<S, I, O, N>, w: World<S>)
    requires WorldOk(sv, w)
    ensures var r := World(w.node.(log := Sync(w.node.log)), w.hist);
            WorldOk(sv, r) && Remembers(w, r) && Durable(r.node) == |w.hist|
  {
    hide NodeOk, Durable, Sync;
    SyncLogOk(sv, w.node, w.hist);
    assert w.hist + [] == w.hist;
    DurableInside(sv, w.node, w.hist);
  }

  lemma NextLoss<S(!new), I(!new), O, N>(sv: Service<S, I, O, N>, w: World<S>, kept: nat)
    requires Lawful(sv) && WorldOk(sv, w) && MayKeep(w.node.log, kept)
    ensures var r := DoPowerLoss(sv, w.node, kept);
            && r.Opened?
            && r.node.seqno <= |w.hist|
            && WorldOk(sv, World(r.node, w.hist[..r.node.seqno]))
            && Remembers(w, World(r.node, w.hist[..r.node.seqno]))
  {
    hide Lawful, NodeOk, Durable, DoPowerLoss, MayKeep;
    DurableInside(sv, w.node, w.hist);
    PowerLossOk(sv, w.node, w.hist, kept);
    var n := DoPowerLoss(sv, w.node, kept).node;
    assert w.hist[..n.seqno][..Durable(w.node)] == w.hist[..Durable(w.node)];
  }

  lemma RemembersChain<S>(a: World<S>, b: World<S>, c: World<S>)
    requires Remembers(a, b) && Remembers(b, c)
    ensures Remembers(a, c)
  {
    hide Durable;
    var k, l := Durable(a.node), Durable(b.node);
    assert c.hist[..k] == c.hist[..l][..k] && b.hist[..k] == b.hist[..l][..k];
  }

  /** Over every run: the invariant holds throughout, and whatever was durable
      at the start is still there, unchanged, at the end. */
  lemma {:induction false} RunOk<S(!new), I(!new), O, N>(sv: Service<S, I, O, N>, cfg: Config, w: World<S>, actions: seq<Action<I>>)
    requires Lawful(sv) && WorldOk(sv, w)
    requires RunAll(sv, cfg, w, actions).Some?
    ensures WorldOk(sv, RunAll(sv, cfg, w, actions).value)
    ensures Remembers(w, RunAll(sv, cfg, w, actions).value)
    decreases |actions|
  {
    hide Lawful, WorldOk, Remembers, Next;
    if actions == [] {
      RemembersSelf(sv, w);
    } else {
      var next := Next(sv, cfg, w, actions[0]).value;
      NextOk(sv, cfg, w, actions[0]);
      RunOk(sv, cfg, next, actions[1..]);
      RemembersChain(w, next, RunAll(sv, cfg, next, actions[1..]).value);
    }
  }

  lemma RemembersSelf<S, I, O, N>(sv: Service<S, I, O, N>, w: World<S>)
    requires WorldOk(sv, w)
    ensures Remembers(w, w)
  {
    hide NodeOk, Durable;
    DurableInside(sv, w.node, w.hist);
  }

  /** Crash refinement. After any run, any power loss: reopening succeeds and
      service and wheel are like those of replaying the first `tip` frames of
      the live history, with `tip` at or above everything durable. */
  lemma CrashRefinement<S(!new), I(!new), O, N>(sv: Service<S, I, O, N>, cfg: Config, actions: seq<Action<I>>, kept: nat)
    requires Lawful(sv)
    requires RunAll(sv, cfg, Fresh(sv), actions).Some?
    requires MayKeep(RunAll(sv, cfg, Fresh(sv), actions).value.node.log, kept)
    ensures var w := RunAll(sv, cfg, Fresh(sv), actions).value;
            var r := DoPowerLoss(sv, w.node, kept);
            && r.Opened?
            && Durable(w.node) <= r.node.seqno <= |w.hist|
            && Replay(sv, Genesis(sv), w.hist[..r.node.seqno]).Some?
            && Same(sv, Replay(sv, Genesis(sv), w.hist[..r.node.seqno]).value, r.node.machine)
            && Replay(sv, Genesis(sv), w.hist).Some?
            && Same(sv, Replay(sv, Genesis(sv), w.hist).value, w.node.machine)
  {
    hide Lawful, DiskOk, Durable, DoPowerLoss, MayKeep, RunAll, Replay, Same, WheelsFit;
    FreshOpens(sv);
    RunOk(sv, cfg, Fresh(sv), actions);
    var w := RunAll(sv, cfg, Fresh(sv), actions).value;
    NextLoss(sv, w, kept);
  }

  /** For a service that restores exactly, the recovered machine is the replay. */
  lemma CrashRefinementExact<S(!new), I(!new), O, N>(sv: Service<S, I, O, N>, cfg: Config, actions: seq<Action<I>>, kept: nat)
    requires Lawful(sv) && Exact(sv)
    requires RunAll(sv, cfg, Fresh(sv), actions).Some?
    requires MayKeep(RunAll(sv, cfg, Fresh(sv), actions).value.node.log, kept)
    ensures var w := RunAll(sv, cfg, Fresh(sv), actions).value;
            var r := DoPowerLoss(sv, w.node, kept);
            && r.Opened?
            && Durable(w.node) <= r.node.seqno <= |w.hist|
            && Replay(sv, Genesis(sv), w.hist[..r.node.seqno]) == Some(r.node.machine)
            && Replay(sv, Genesis(sv), w.hist) == Some(w.node.machine)
  {
    CrashRefinement(sv, cfg, actions, kept);
    hide Lawful, Durable, DoPowerLoss, MayKeep, RunAll, Replay;
  }

  /** Whatever a sync has covered survives every later run, power losses
      included. */
  lemma SyncedNeverLost<S(!new), I(!new), O, N>(sv: Service<S, I, O, N>, cfg: Config, before: seq<Action<I>>, later: seq<Action<I>>)
    requires Lawful(sv)
    requires RunAll(sv, cfg, Fresh(sv), before).Some?
    requires var w := RunAll(sv, cfg, Fresh(sv), before).value;
             RunAll(sv, cfg, World(w.node.(log := Sync(w.node.log)), w.hist), later).Some?
    ensures var w := RunAll(sv, cfg, Fresh(sv), before).value;
            var end := RunAll(sv, cfg, World(w.node.(log := Sync(w.node.log)), w.hist), later).value;
            |w.hist| <= |end.hist| && end.hist[..|w.hist|] == w.hist
  {
    hide Lawful, NodeOk, RunAll, Sync, Durable;
    FreshOpens(sv);
    RunOk(sv, cfg, Fresh(sv), before);
    var w := RunAll(sv, cfg, Fresh(sv), before).value;
    var synced := World(w.node.(log := Sync(w.node.log)), w.hist);
    SyncRemembers(sv, w);
    RunOk(sv, cfg, synced, later);
    assert w.hist[..|w.hist|] == w.hist;
  }

  /** A follower fed the live history, with no wheel of its own, holds the
      leader's service state, or one nobody can tell from it. */
  lemma FollowerOfLive<S(!new), I(!new), O, N>(sv: Service<S, I, O, N>, cfg: Config, actions: seq<Action<I>>)
    requires Lawful(sv)
    requires RunAll(sv, cfg, Fresh(sv), actions).Some?
    ensures var w := RunAll(sv, cfg, Fresh(sv), actions).value;
            var r := FollowAll(sv, sv.genesis, 0, w.hist);
            && r.error == None && r.seqno == w.node.seqno
            && sv.alike(r.service, w.node.machine.service)
            && r.outputs == EmittedAll(sv, Genesis(sv), w.hist)
  {
    hide RunAll, Replay, FollowAll, EmittedAll, WellFormed, LogOk, SnapsOk, WheelsFit;
    FreshOpens(sv);
    RunOk(sv, cfg, Fresh(sv), actions);
    var w := RunAll(sv, cfg, Fresh(sv), actions).value;
    FollowerAgrees(sv, Genesis(sv), 0, w.hist);
  }
}
