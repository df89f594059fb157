/** The order book as the service of a node: its expiry timers over whole runs. */
module BookOnNode {
  import opened Wrappers
  import opened Frame
  import opened TimerWheel
  import opened FlatBook
  import opened Execution
  import opened Sequencer
  import opened NodeWrites
  import opened Firing
  import BookWire
  import Runs = NodeRuns

  /** The service's two steps are the book's. */
  ghost predicate HostsBook<N>(sv: Service<Flat, Cmd, Evt, N>) {
    && sv.genesis == EMPTY
    && (forall s, q, t, c :: sv.apply(s, q, t, c) == Outcome(Apply(s, c).0, Apply(s, c).1.events, Apply(s, c).1.timers))
    && (forall s, q, t, id :: sv.onTimer(s, q, t, id) == Outcome(TimerStep(s, id).0, TimerStep(s, id).1.events, TimerStep(s, id).1.timers))
  }

  /** The wheel's ids after a step's requests. */
  lemma {:induction false} RequestsArm(w: Wheel, reqs: seq<TimerReq>, setAt: nat)
    ensures Requests(w, reqs, setAt).Keys == Armed(w.Keys, reqs)
    decreases |reqs|
  {
    if reqs != [] {
      RequestsArm(Request(w, reqs[0], setAt), reqs[1..], setAt);
      assert reqs[0].SetTimer? ==> Request(w, reqs[0], setAt).Keys == w.Keys + {reqs[0].id};
      assert reqs[0].CancelTimer? ==> Request(w, reqs[0], setAt).Keys == w.Keys - {reqs[0].id};
    }
  }

  /** The book is sound and every armed timer belongs to a resting order. */
  ghost predicate Sound(m: Machine<Flat>) {
    Inv(m.service) && ArmedRest(m.service, m.wheel.Keys)
  }

  lemma StepSound<N>(sv: Service<Flat, Cmd, Evt, N>, m: Machine<Flat>, f: Frame)
    requires HostsBook(sv) && Sound(m) && ReplayStep(sv, m, f).Some?
    ensures Sound(ReplayStep(sv, m, f).value)
  {
    hide Inv, ArmedRest, Apply, TimerStep, Requests, Armed, DecodeId;
    if f.kind == FrameKind.Input {
      var cmd := sv.decodeInput(f.payload).value;
      var (next, effect) := Apply(m.service, cmd);
      StepKeeps(m.service, Command(cmd));
      ArmedStaysResting(m.service, m.wheel.Keys, Command(cmd));
      RequestsArm(m.wheel, effect.timers, f.seqno);
    } else if f.kind == TimerFired {
      var id := DecodeId(f.payload).value;
      var (next, effect) := TimerStep(m.service, id);
      StepKeeps(m.service, Fired(id));
      ArmedStaysResting(m.service, m.wheel.Keys, Fired(id));
      assert (m.wheel - {id}).Keys == m.wheel.Keys - {id};
      RequestsArm(m.wheel - {id}, effect.timers, f.seqno);
    }
  }

  lemma {:induction false} ReplaySound<N>(sv: Service<Flat, Cmd, Evt, N>, m: Machine<Flat>, frames: seq<Frame>)
    requires HostsBook(sv) && Sound(m) && Replay(sv, m, frames).Some?
    ensures Sound(Replay(sv, m, frames).value)
    decreases |frames|
  {
    hide HostsBook, Sound, ReplayStep;
    if frames != [] {
      StepSound(sv, m, frames[0]);
      ReplaySound(sv, ReplayStep(sv, m, frames[0]).value, frames[1..]);
    }
  }

  /** Over every run of a node hosting the book, power losses included: the
      book is uncrossed and conserves shares, and armed ids are resting orders. */
  lemma EveryNodeRunSound<N>(sv: Service<Flat, Cmd, Evt, N>, cfg: Config, actions: seq<Action<Cmd>>)
    requires Lawful(sv) && Exact(sv) && HostsBook(sv)
    requires Runs.RunAll(sv, cfg, Runs.Fresh(sv), actions).Some?
    ensures Sound(Runs.RunAll(sv, cfg, Runs.Fresh(sv), actions).value.node.machine)
  {
    hide Lawful, HostsBook, Runs.RunAll, Replay, DiskOk, WheelsFit;
    Runs.FreshOpens(sv);
    Runs.RunOk(sv, cfg, Runs.Fresh(sv), actions);
    var w := Runs.RunAll(sv, cfg, Runs.Fresh(sv), actions).value;
    GenesisSound(sv);
    ReplaySound(sv, Genesis(sv), w.hist);
  }

  lemma GenesisSound<N>(sv: Service<Flat, Cmd, Evt, N>)
    requires HostsBook(sv)
    ensures Sound(Genesis(sv))
  {
    hide Match, Run, Step;
    EmptyInvariant(Genesis(sv).service);
  }

  lemma EmptyInvariant(book: Flat)
    requires book.bids == [] && book.asks == [] && book.accepted == 0 && book.traded == 0 && book.canceled == 0
    ensures Inv(book)
  {
  }

  // ----- the book with its own wire formats -----

  lemma BookHosted()
    ensures HostsBook(BookWire.BookService())
  {
    hide Apply, TimerStep;
  }

  /** No hypothesis on the service is left: every run of a node that hosts the
      order book, whatever is submitted, fired, synced, snapshotted and lost. */
  lemma BookRunsSound(cfg: Config, actions: seq<Action<Cmd>>)
    requires Runs.RunAll(BookWire.BookService(), cfg, Runs.Fresh(BookWire.BookService()), actions).Some?
    ensures Sound(Runs.RunAll(BookWire.BookService(), cfg, Runs.Fresh(BookWire.BookService()), actions).value.node.machine)
  {
    hide Lawful, Exact, HostsBook, Runs.RunAll, BookWire.BookService, Sound;
    BookWire.BookIsLawful();
    BookHosted();
    EveryNodeRunSound(BookWire.BookService(), cfg, actions);
  }

  /** Crash refinement for the order book. */
  lemma BookSurvivesCrashes(cfg: Config, actions: seq<Action<Cmd>>, kept: nat)
    requires Runs.RunAll(BookWire.BookService(), cfg, Runs.Fresh(BookWire.BookService()), actions).Some?
    requires MayKeep(Runs.RunAll(BookWire.BookService(), cfg, Runs.Fresh(BookWire.BookService()), actions).value.node.log, kept)
    ensures var sv := BookWire.BookService();
            var w := Runs.RunAll(sv, cfg, Runs.Fresh(sv), actions).value;
            var r := DoPowerLoss(sv, w.node, kept);
            && r.Opened? && Durable(w.node) <= r.node.seqno <= |w.hist|
            && Replay(sv, Genesis(sv), w.hist[..r.node.seqno]) == Some(r.node.machine)
            && Sound(r.node.machine)
  {
    hide Lawful, Exact, HostsBook, Runs.RunAll, BookWire.BookService, Sound, Replay, DoPowerLoss, MayKeep, Durable;
    var sv := BookWire.BookService();
    BookWire.BookIsLawful();
    BookHosted();
    Runs.CrashRefinementExact(sv, cfg, actions, kept);
    GenesisSound(sv);
    var w := Runs.RunAll(sv, cfg, Runs.Fresh(sv), actions).value;
    ReplaySound(sv, Genesis(sv), w.hist[..DoPowerLoss(sv, w.node, kept).node.seqno]);
  }

  // ----- its expiries -----

  /** An expiry never arms a timer. */
  lemma BookIsIdle<N>(sv: Service<Flat, Cmd, Evt, N>)
    requires HostsBook(sv)
    ensures Idle(sv)
  {
    hide Inv, Withdraw;
    forall s, q, t, id
      ensures sv.onTimer(s, q, t, id).timers == []
    {
      assert TimerStep(s, id).1.timers == [];
    }
  }

  /** So the firing loop always ends with nothing due, whatever the clock does,
      within as many turns as timers are armed. */
  lemma ExpiriesEnd<N>(sv: Service<Flat, Cmd, Evt, N>, cfg: Config, n: Node<Flat>, hist: seq<Frame>) returns (k: nat)
    requires HostsBook(sv) && Writable(n, hist) && FitsSegment(cfg, 8)
    ensures k <= |n.machine.wheel| && Ended(sv, cfg, n, k)
  {
    BookIsIdle(sv);
    hide HostsBook, Idle, Writable;
    k := IdleSettles(sv, cfg, n, hist);
  }
}
