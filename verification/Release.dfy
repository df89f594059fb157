/** The leader's commit state over whole runs: every output of a frame applied
    since opening is either pending or released, releases happen once, in seq
    order, and only of frames a majority holds. */
module Release {
  import opened Wrappers
  import opened Quorum
  import opened Commit

  datatype Voters = Voters(count: nat, self: nat)

  datatype Batch<+O> = Batch(seqno: nat, outputs: seq<O>)

  /** `tip` is the last seq the node has sequenced. */
  datatype State<+O> = State(waters: Waters, pending: map<nat, seq<O>>, committed: nat, tip: nat)

  /** What happens to the leader: it applies a frame that has outputs, it
      sequences a tick or a fence, it sequences the mark of a snapshot, which it
      does not count as its own progress, or a follower reports. */
  datatype Event<+O> = Applied(outputs: seq<O>) | Control | Mark | Ack(replica: nat, upTo: nat)

  function Opened<O>(v: Voters, tip: nat): State<O> {
    State(map[v.self := tip], map[], tip, tip)
  }

  /** The entries of a map in key order. */
  function InOrder<O>(m: map<nat, seq<O>>): (r: seq<Batch<O>>)
    decreases |m|
  {
    if m.Keys == {} then []
    else
      var k := Least(m.Keys);
      Without(m, k);
      [Batch(k, m[k])] + InOrder(m - {k})
  }

  function UpTo<O>(m: map<nat, seq<O>>, mark: nat): map<nat, seq<O>> {
    map k | k in m && k <= mark :: m[k]
  }

  function Above<O>(m: map<nat, seq<O>>, mark: nat): map<nat, seq<O>> {
    map k | k in m && k > mark :: m[k]
  }

  /** Advance to the watermark and release everything at or below it. */
  function Drained<O>(v: Voters, s: State<O>): (State<O>, seq<Batch<O>>) {
    var mark := Watermark(s.waters, v.count);
    if mark <= s.committed then (s, [])
    else (s.(committed := mark, pending := Above(s.pending, mark)), InOrder(UpTo(s.pending, mark)))
  }

  /** A frame with outputs has been applied at `k`: hold them, count this node's
      own copy, release what that commits. */
  function FinishedAt<O>(v: Voters, s: State<O>, k: nat, outputs: seq<O>): (State<O>, seq<Batch<O>>) {
    Drained(v, State(Recorded(s.waters, v.self, k), s.pending[k := outputs], s.committed, if s.tip < k then k else s.tip))
  }

  function Step<O>(v: Voters, s: State<O>, e: Event<O>): (State<O>, seq<Batch<O>>) {
    match e
    case Applied(outputs) => FinishedAt(v, s, s.tip + 1, outputs)
    case Control => (s.(waters := Recorded(s.waters, v.self, s.tip + 1), tip := s.tip + 1), [])
    case Mark => (s.(tip := s.tip + 1), [])
    case Ack(replica, upTo) => Drained(v, s.(waters := Recorded(s.waters, replica, upTo)))
  }

  /** A run: the state, everything released so far, and every frame applied. */
  datatype Run<+O> = Run(state: State<O>, released: seq<Batch<O>>, applied: map<nat, seq<O>>)

  function RunStep<O>(v: Voters, r: Run<O>, e: Event<O>): Run<O> {
    var (next, out) := Step(v, r.state, e);
    Run(next, r.released + out, if e.Applied? then r.applied[r.state.tip + 1 := e.outputs] else r.applied)
  }

  function RunAll<O>(v: Voters, r: Run<O>, events: seq<Event<O>>): Run<O>
    decreases |events|
  {
    if events == [] then r else RunAll(v, RunStep(v, r, events[0]), events[1..])
  }

  // ----- draining in order -----

  ghost predicate Increasing<O>(batches: seq<Batch<O>>) {
    forall i, j :: 0 <= i < j < |batches| ==> batches[i].seqno < batches[j].seqno
  }

  function Seqnos<O>(batches: seq<Batch<O>>): set<nat> {
    if batches == [] then {} else {batches[0].seqno} + Seqnos(batches[1..])
  }

  lemma {:induction false} SeqnosAppend<O>(a: seq<Batch<O>>, b: seq<Batch<O>>)
    ensures Seqnos(a + b) == Seqnos(a) + Seqnos(b)
  {
    if a == [] {
      assert a + b == b;
    } else {
      assert (a + b)[1..] == a[1..] + b;
      SeqnosAppend(a[1..], b);
    }
  }

  lemma {:induction false} SeqnoAt<O>(batches: seq<Batch<O>>, i: nat)
    requires i < |batches|
    ensures batches[i].seqno in Seqnos(batches)
  {
    if i > 0 {
      SeqnoAt(batches[1..], i - 1);
    }
  }

  /** Each batch carries the outputs that `m` keeps under its seq. */
  ghost predicate Matches<O>(batches: seq<Batch<O>>, m: map<nat, seq<O>>) {
    forall i :: 0 <= i < |batches| ==> batches[i].seqno in m && batches[i].outputs == m[batches[i].seqno]
  }

  /** The batches are exactly the entries of `m`, in key order. */
  ghost predicate Lists<O>(batches: seq<Batch<O>>, m: map<nat, seq<O>>) {
    Increasing(batches) && Seqnos(batches) == m.Keys && Matches(batches, m)
  }

  lemma ListsFirst<O>(tail: seq<Batch<O>>, m: map<nat, seq<O>>, k: nat)
    requires IsLeast(m.Keys, k) && Lists(tail, m - {k})
    ensures Lists([Batch(k, m[k])] + tail, m)
  {
    var all := [Batch(k, m[k])] + tail;
    assert all[1..] == tail;
    assert (m - {k}).Keys == m.Keys - {k};
    forall j | 0 <= j < |tail|
      ensures k < tail[j].seqno
    {
      assert tail[j].seqno in m - {k};
    }
  }

  lemma {:induction false} InOrderLists<O>(m: map<nat, seq<O>>)
    ensures Lists(InOrder(m), m)
    decreases |m|
  {
    if m.Keys != {} {
      hide Least, Lists;
      var k := Least(m.Keys);
      Without(m, k);
      InOrderLists(m - {k});
      ListsFirst(InOrder(m - {k}), m, k);
    }
  }

  // ----- what every run keeps -----

  /** Frames applied so far split into pending and released, outputs intact. */
  ghost predicate Split<O>(r: Run<O>) {
    && r.applied.Keys == r.state.pending.Keys + Seqnos(r.released)
    && r.state.pending.Keys !! Seqnos(r.released)
    && (forall k :: k in r.state.pending ==> k in r.applied && r.state.pending[k] == r.applied[k])
    && Matches(r.released, r.applied)
  }

  /** Released in seq order, and before everything still pending. */
  ghost predicate Ordered<O>(r: Run<O>) {
    && Increasing(r.released)
    && (forall i, k :: 0 <= i < |r.released| && k in r.state.pending ==> r.released[i].seqno < k)
    && (forall k :: k in r.applied ==> 0 < k <= r.state.tip)
  }

  /** Everything released is held by a majority. */
  ghost predicate Held<O>(v: Voters, r: Run<O>) {
    forall i :: 0 <= i < |r.released| ==> |Holders(r.state.waters, r.released[i].seqno)| >= Majority(v.count)
  }

  ghost predicate Safe<O>(v: Voters, r: Run<O>) {
    Split(r) && Ordered(r) && Held(v, r)
  }

  lemma {:induction false} HeldGrows<O>(v: Voters, r: Run<O>, replica: nat, upTo: nat, next: Run<O>)
    requires Held(v, r)
    requires next.released == r.released && next.state.waters == Recorded(r.state.waters, replica, upTo)
    ensures Held(v, next)
  {
    hide Recorded;
    forall i | 0 <= i < |r.released|
      ensures |Holders(next.state.waters, r.released[i].seqno)| >= Majority(v.count)
    {
      HoldersGrow(r.state.waters, replica, upTo, r.released[i].seqno);
    }
  }

  lemma HeldSame<O>(v: Voters, r: Run<O>, next: Run<O>)
    requires Held(v, r) && next.released == r.released && next.state.waters == r.state.waters
    ensures Held(v, next)
  {
  }

  /** The run once its state has been drained. */
  function DrainRun<O>(v: Voters, r: Run<O>): Run<O> {
    var (s, out) := Drained(v, r.state);
    Run(s, r.released + out, r.applied)
  }

  lemma DrainSplits<O>(v: Voters, r: Run<O>)
    requires Split(r)
    ensures Split(DrainRun(v, r))
  {
    hide Watermark, InOrder, Seqnos, Increasing;
    var mark := Watermark(r.state.waters, v.count);
    if mark > r.state.committed {
      var out := InOrder(UpTo(r.state.pending, mark));
      InOrderLists(UpTo(r.state.pending, mark));
      SeqnosAppend(r.released, out);
      assert UpTo(r.state.pending, mark).Keys + Above(r.state.pending, mark).Keys == r.state.pending.Keys;
      MatchesAppend(r.released, out, r.applied, UpTo(r.state.pending, mark));
    } else {
      assert r.released + [] == r.released;
    }
  }

  lemma MatchesAppend<O>(a: seq<Batch<O>>, b: seq<Batch<O>>, m: map<nat, seq<O>>, part: map<nat, seq<O>>)
    requires Matches(a, m) && Matches(b, part)
    requires forall k :: k in part ==> k in m && part[k] == m[k]
    ensures Matches(a + b, m)
  {
  }

  lemma DrainOrders<O>(v: Voters, r: Run<O>)
    requires Split(r) && Ordered(r)
    ensures Ordered(DrainRun(v, r))
  {
    hide Watermark, InOrder, Split;
    var mark := Watermark(r.state.waters, v.count);
    if mark > r.state.committed {
      var n := DrainRun(v, r);
      var out := InOrder(UpTo(r.state.pending, mark));
      InOrderLists(UpTo(r.state.pending, mark));
      hide Seqnos;
      assert n.released == r.released + out;
      forall i | 0 <= i < |out|
        ensures out[i].seqno in r.state.pending && out[i].seqno <= mark
      {
        assert out[i].seqno in UpTo(r.state.pending, mark);
      }
    } else {
      assert r.released + [] == r.released;
    }
  }

  lemma DrainHeld<O>(v: Voters, r: Run<O>)
    requires Split(r) && Ordered(r) && Held(v, r)
    ensures Held(v, DrainRun(v, r))
  {
    hide Watermark, InOrder, Holders;
    var mark := Watermark(r.state.waters, v.count);
    if mark > r.state.committed {
      var n := DrainRun(v, r);
      var out := InOrder(UpTo(r.state.pending, mark));
      InOrderLists(UpTo(r.state.pending, mark));
      hide Seqnos;
      assert n.released == r.released + out;
      forall i | 0 <= i < |out|
        ensures |Holders(r.state.waters, out[i].seqno)| >= Majority(v.count)
      {
        assert out[i].seqno in UpTo(r.state.pending, mark);
        WatermarkIsMajority(r.state.waters, v.count, out[i].seqno);
      }
    } else {
      assert r.released + [] == r.released;
    }
  }

  lemma AppliedSplits<O>(r: Run<O>, outputs: seq<O>, next: Run<O>)
    requires Split(r) && Ordered(r)
    requires next.state.pending == r.state.pending[r.state.tip + 1 := outputs]
    requires next.applied == r.applied[r.state.tip + 1 := outputs]
    requires next.released == r.released && next.state.tip == r.state.tip + 1
    ensures Split(next) && Ordered(next)
  {
    hide Seqnos, Increasing;
    var k := r.state.tip + 1;
    assert k !in r.applied;
    forall i | 0 <= i < |r.released|
      ensures r.released[i].seqno in r.applied && r.released[i].seqno < k
    {
    }
  }

  /** One event, any event, keeps the split, the order and the quorum. */
  lemma StepSafe<O>(v: Voters, r: Run<O>, e: Event<O>)
    requires Safe(v, r)
    ensures Safe(v, RunStep(v, r, e))
  {
    hide Split, Ordered, Held, Drained, Recorded;
    match e {
      case Applied(outputs) =>
        var k := r.state.tip + 1;
        var mid := Run(State(Recorded(r.state.waters, v.self, k), r.state.pending[k := outputs], r.state.committed, k),
                       r.released, r.applied[k := outputs]);
        AppliedSplits(r, outputs, mid);
        HeldGrows(v, r, v.self, k, mid);
        DrainSafe(v, mid);
      case Control =>
        var k := r.state.tip + 1;
        var n := RunStep(v, r, e);
        assert n.released == r.released;
        HeldGrows(v, r, v.self, k, n);
        WatersApart(r, n);
      case Mark =>
        var n := RunStep(v, r, e);
        assert n.released == r.released;
        WatersApart(r, n);
        HeldSame(v, r, n);
      case Ack(replica, upTo) =>
        var mid := r.(state := r.state.(waters := Recorded(r.state.waters, replica, upTo)));
        HeldGrows(v, r, replica, upTo, mid);
        WatersApart(r, mid);
        DrainSafe(v, mid);
    }
  }

  lemma DrainSafe<O>(v: Voters, r: Run<O>)
    requires Safe(v, r)
    ensures Safe(v, DrainRun(v, r))
  {
    hide Split, Ordered, Held, Drained;
    DrainSplits(v, r);
    DrainOrders(v, r);
    DrainHeld(v, r);
  }

  lemma WatersApart<O>(r: Run<O>, next: Run<O>)
    requires Split(r) && Ordered(r)
    requires next.released == r.released && next.applied == r.applied && next.state.pending == r.state.pending && r.state.tip <= next.state.tip
    ensures Split(next) && Ordered(next)
  {
  }

  /** Over every interleaving of submits, ticks, marks and acks, stale or reordered
      or even ahead of the tip: each frame's outputs are pending or released,
      never both; releases are in strictly increasing seq order; and each was
      held by a majority. */
  lemma {:induction false} RunSafe<O>(v: Voters, r: Run<O>, events: seq<Event<O>>)
    requires Safe(v, r)
    ensures Safe(v, RunAll(v, r, events))
    decreases |events|
  {
    hide Safe, RunStep;
    if events != [] {
      StepSafe(v, r, events[0]);
      RunSafe(v, RunStep(v, r, events[0]), events[1..]);
    }
  }

  lemma EveryRunSafe<O>(v: Voters, tip: nat, events: seq<Event<O>>)
    ensures Safe(v, RunAll(v, Run(Opened<O>(v, tip), [], map[]), events))
  {
    RunSafe(v, Run(Opened<O>(v, tip), [], map[]), events);
  }

  // ----- exactly when a frame a majority holds is held back -----

  ghost predicate MajorityHolds<O>(v: Voters, s: State<O>, k: nat) {
    |Holders(s.waters, k)| >= Majority(v.count)
  }

  /** A frame pending at `k` is above where the run started, is counted as this
      node's own, and is held by a majority only if `committed` has passed it. */
  ghost predicate Waits<O>(v: Voters, from: nat, s: State<O>, k: nat) {
    && v.self in s.waters
    && from < k <= s.tip && k <= s.waters[v.self]
    && (k <= Watermark(s.waters, v.count) <==> k <= s.committed)
  }

  /** `committed` and the watermark differ only below the start of the run or by
      what this node has counted of its own. */
  ghost predicate Tracking<O>(v: Voters, from: nat, s: State<O>) {
    && v.self in s.waters && from <= s.tip
    && (s.committed <= from || s.committed <= Watermark(s.waters, v.count))
    && (Watermark(s.waters, v.count) <= s.committed || Watermark(s.waters, v.count) <= s.tip)
    && forall k :: k in s.pending ==> Waits(v, from, s, k)
  }

  /** Raising one high-water to `b` raises the watermark at most to `b`. */
  lemma RaiseOne(waters: Waters, id: nat, b: nat, voters: nat)
    ensures var u, w := Watermark(Recorded(waters, id, b), voters), Watermark(waters, voters);
            w <= u && (u <= w || u <= b)
  {
    hide Watermark;
    var next := Recorded(waters, id, b);
    var u := Watermark(next, voters);
    WatermarkMonotone(waters, id, b, voters);
    if u > b {
      WatermarkIsMajority(next, voters, u);
      WatermarkIsMajority(waters, voters, u);
      assert Holders(next, u) == Holders(waters, u);
    }
  }

  /** A replica that already reaches `k` does not help `k` by going further. */
  lemma RaiseAbove(waters: Waters, id: nat, b: nat, voters: nat, k: nat)
    requires id in waters && 0 < k <= waters[id]
    ensures k <= Watermark(Recorded(waters, id, b), voters) <==> k <= Watermark(waters, voters)
  {
    hide Watermark;
    WatermarkIsMajority(waters, voters, k);
    WatermarkIsMajority(Recorded(waters, id, b), voters, k);
    assert Holders(Recorded(waters, id, b), k) == Holders(waters, k);
  }

  /** Draining settles every frame that waits, and every one that waits only for
      the drain. */
  lemma DrainTracks<O>(v: Voters, from: nat, s: State<O>)
    requires v.self in s.waters && from <= s.tip
    requires s.committed <= from || s.committed <= Watermark(s.waters, v.count)
    requires forall k :: k in s.pending ==>
               from < k <= s.tip && k <= s.waters[v.self] && (k <= s.committed ==> k <= Watermark(s.waters, v.count))
    ensures Tracking(v, from, Drained(v, s).0)
  {
    hide Watermark, InOrder;
  }

  lemma StepTracks<O>(v: Voters, from: nat, s: State<O>, e: Event<O>)
    requires Tracking(v, from, s)
    ensures Tracking(v, from, Step(v, s, e).0)
  {
    hide Watermark, Drained;
    match e {
      case Applied(outputs) =>
        RaiseOne(s.waters, v.self, s.tip + 1, v.count);
        DrainTracks(v, from, State(Recorded(s.waters, v.self, s.tip + 1), s.pending[s.tip + 1 := outputs], s.committed, s.tip + 1));
      case Control =>
        RaiseOne(s.waters, v.self, s.tip + 1, v.count);
        var n := Step(v, s, e).0;
        forall k | k in n.pending
          ensures Waits(v, from, n, k)
        {
          assert Waits(v, from, s, k);
          RaiseAbove(s.waters, v.self, s.tip + 1, v.count, k);
        }
      case Mark =>
        var n := Step(v, s, e).0;
        forall k | k in n.pending
          ensures Waits(v, from, n, k)
        {
          assert Waits(v, from, s, k);
        }
      case Ack(replica, upTo) =>
        RaiseOne(s.waters, replica, upTo, v.count);
        DrainTracks(v, from, s.(waters := Recorded(s.waters, replica, upTo)));
    }
  }

  lemma {:induction false} RunTracks<O>(v: Voters, from: nat, r: Run<O>, events: seq<Event<O>>)
    requires Tracking(v, from, r.state)
    ensures Tracking(v, from, RunAll(v, r, events).state)
    decreases |events|
  {
    hide Tracking, Step;
    if events != [] {
      StepTracks(v, from, r.state, events[0]);
      RunTracks(v, from, RunStep(v, r, events[0]), events[1..]);
    }
  }

  lemma OpenedTracks<O>(v: Voters, tip: nat)
    ensures Tracking(v, tip, Opened<O>(v, tip))
  {
    hide Watermark;
    var w: Waters := map[v.self := tip];
    WatermarkBelow(w, v.count, tip);
  }

  lemma WatermarkBelow(waters: Waters, voters: nat, tip: nat)
    requires forall id :: id in waters ==> waters[id] <= tip
    ensures Watermark(waters, voters) <= tip
  {
    hide Watermark;
    assert Holders(waters, tip + 1) == {};
    WatermarkIsMajority(waters, voters, tip + 1);
  }

  /** After every run, whatever the followers reported: a pending frame is held
      by a majority if and only if `committed` is at or above it. */
  lemma HeldBackIff<O>(v: Voters, tip: nat, events: seq<Event<O>>, k: nat)
    requires k in RunAll(v, Run(Opened<O>(v, tip), [], map[]), events).state.pending
    ensures var s := RunAll(v, Run(Opened<O>(v, tip), [], map[]), events).state;
            MajorityHolds(v, s, k) <==> k <= s.committed
  {
    hide RunAll, Watermark;
    OpenedTracks<O>(v, tip);
    RunTracks(v, tip, Run(Opened<O>(v, tip), [], map[]), events);
    var s := RunAll(v, Run(Opened<O>(v, tip), [], map[]), events).state;
    assert Waits(v, tip, s, k);
    WatermarkIsMajority(s.waters, v.count, k);
  }

  /** That happens to a frame if and only if `committed` was already at or above
      its seq when it was applied. */
  lemma StallsIff<O>(v: Voters, tip: nat, events: seq<Event<O>>, outputs: seq<O>)
    ensures var r := RunAll(v, Run(Opened<O>(v, tip), [], map[]), events);
            var n := RunStep(v, r, Applied(outputs));
            var k := r.state.tip + 1;
            k in n.state.pending && MajorityHolds(v, n.state, k) <==> r.state.committed >= k
  {
    hide RunAll, Watermark, InOrder;
    OpenedTracks<O>(v, tip);
    RunTracks(v, tip, Run(Opened<O>(v, tip), [], map[]), events);
    var s := RunAll(v, Run(Opened<O>(v, tip), [], map[]), events).state;
    var k := s.tip + 1;
    RaiseOne(s.waters, v.self, k, v.count);
    StepTracks(v, tip, s, Applied(outputs));
    WatermarkIsMajority(Step(v, s, Applied(outputs)).0.waters, v.count, k);
  }

  /** Any other pending frame is released by the first event after which a
      majority holds it, and by no earlier one. */
  lemma ReleasedOnceHeld<O>(v: Voters, tip: nat, events: seq<Event<O>>, e: Event<O>, k: nat)
    requires var s := RunAll(v, Run(Opened<O>(v, tip), [], map[]), events).state;
             k in s.pending && k > s.committed
    ensures var n := RunStep(v, RunAll(v, Run(Opened<O>(v, tip), [], map[]), events), e).state;
            && (k in n.pending <==> !MajorityHolds(v, n, k))
            && (k in n.pending ==> k > n.committed)
  {
    hide RunAll, Watermark, InOrder;
    OpenedTracks<O>(v, tip);
    RunTracks(v, tip, Run(Opened<O>(v, tip), [], map[]), events);
    var s := RunAll(v, Run(Opened<O>(v, tip), [], map[]), events).state;
    assert Waits(v, tip, s, k);
    StepTracks(v, tip, s, e);
    var n := Step(v, s, e).0;
    WatermarkIsMajority(n.waters, v.count, k);
    if k in n.pending {
      assert Waits(v, tip, n, k);
    }
  }

  // ----- honest followers -----

  /** Followers never report a seq the leader has not sequenced. */
  ghost predicate Honest<O>(s: State<O>, e: Event<O>) {
    e.Ack? ==> e.upTo <= s.tip
  }

  ghost predicate HonestRun<O>(v: Voters, r: Run<O>, events: seq<Event<O>>)
    decreases |events|
  {
    events == [] || (Honest(r.state, events[0]) && HonestRun(v, RunStep(v, r, events[0]), events[1..]))
  }

  ghost predicate Within<O>(s: State<O>) {
    && s.committed <= s.tip
    && (forall id :: id in s.waters ==> s.waters[id] <= s.tip)
    && forall k :: k in s.pending ==> k > s.committed
  }

  lemma StepWithin<O>(v: Voters, s: State<O>, e: Event<O>)
    requires Within(s) && Honest(s, e)
    ensures Within(Step(v, s, e).0)
  {
    hide Watermark, InOrder;
    match e {
      case Applied(outputs) => WatermarkBelow(Recorded(s.waters, v.self, s.tip + 1), v.count, s.tip + 1);
      case Control =>
      case Mark =>
      case Ack(replica, upTo) => WatermarkBelow(Recorded(s.waters, replica, upTo), v.count, s.tip);
    }
  }

  lemma {:induction false} RunWithin<O>(v: Voters, r: Run<O>, events: seq<Event<O>>)
    requires Within(r.state) && HonestRun(v, r, events)
    ensures Within(RunAll(v, r, events).state)
    decreases |events|
  {
    hide Within, Step;
    if events != [] {
      StepWithin(v, r.state, events[0]);
      RunWithin(v, RunStep(v, r, events[0]), events[1..]);
    }
  }

  /** With honest followers nothing a majority holds is ever held back, with any
      number of voters and any snapshot cadence. */
  lemma RunPrompt<O>(v: Voters, tip: nat, events: seq<Event<O>>, k: nat)
    requires HonestRun(v, Run(Opened<O>(v, tip), [], map[]), events)
    requires k in RunAll(v, Run(Opened<O>(v, tip), [], map[]), events).state.pending
    ensures !MajorityHolds(v, RunAll(v, Run(Opened<O>(v, tip), [], map[]), events).state, k)
  {
    hide RunAll, MajorityHolds, HonestRun;
    RunWithin(v, Run(Opened<O>(v, tip), [], map[]), events);
    HeldBackIff(v, tip, events, k);
  }

  /** With a follower ahead of the leader it can fail: two followers claim seq
      100 of a fresh three-voter leader, and the leader's first frame is held
      back although a majority reaches it. */
  lemma AheadStalls(o: nat)
    ensures var v := Voters(3, 0);
            var start: Run<nat> := Run(Opened(v, 0), [], map[]);
            var end := RunAll(v, start, [Ack(1, 100), Ack(2, 100), Applied([o])]);
            && end.state.pending == map[1 := [o]]
            && |Holders(end.state.waters, 1)| >= Majority(3)
            && end.released == []
  {
    var v := Voters(3, 0);
    var r0: Run<nat> := Run(Opened(v, 0), [], map[]);
    var r1 := FirstAhead(v, r0);
    var r2 := SecondAhead(v, r1);
    var r3 := ThenHeldBack(v, r2, o);
    RunThree(v, r0, Ack(1, 100), Ack(2, 100), Applied([o]));
  }

  lemma FirstAhead(v: Voters, r: Run<nat>) returns (next: Run<nat>)
    requires v == Voters(3, 0) && r == Run(Opened(v, 0), [], map[])
    ensures next == RunStep(v, r, Ack(1, 100)) == Run(State(map[0 := 0, 1 := 100], map[], 0, 0), [], map[])
  {
    hide Watermark, InOrder;
    next := RunStep(v, r, Ack(1, 100));
    var w: Waters := map[0 := 0, 1 := 100];
    assert Recorded(r.state.waters, 1, 100) == w;
    assert Holders(w, 1) == {1};
    AtMark(w, 3, 0, 1);
  }

  lemma SecondAhead(v: Voters, r: Run<nat>) returns (next: Run<nat>)
    requires v == Voters(3, 0) && r == Run(State(map[0 := 0, 1 := 100], map[], 0, 0), [], map[])
    ensures next == RunStep(v, r, Ack(2, 100)) == Run(State(map[0 := 0, 1 := 100, 2 := 100], map[], 100, 0), [], map[])
  {
    hide Watermark;
    next := RunStep(v, r, Ack(2, 100));
    var w: Waters := map[0 := 0, 1 := 100, 2 := 100];
    assert Recorded(r.state.waters, 2, 100) == w;
    assert Holders(w, 100) == {1, 2} && Holders(w, 101) == {};
    AtMark(w, 3, 100, 101);
    assert UpTo(r.state.pending, 100) == r.state.pending && Above(r.state.pending, 100) == r.state.pending;
  }

  lemma ThenHeldBack(v: Voters, r: Run<nat>, o: nat) returns (next: Run<nat>)
    requires v == Voters(3, 0) && r == Run(State(map[0 := 0, 1 := 100, 2 := 100], map[], 100, 0), [], map[])
    ensures next == RunStep(v, r, Applied([o]))
    ensures next.state.pending == map[1 := [o]] && next.released == [] && |Holders(next.state.waters, 1)| >= Majority(3)
  {
    hide Watermark, InOrder;
    next := RunStep(v, r, Applied([o]));
    var w: Waters := map[0 := 1, 1 := 100, 2 := 100];
    assert Recorded(r.state.waters, 0, 1) == w;
    assert Holders(w, 100) == {1, 2} && Holders(w, 101) == {} && Holders(w, 1) == {0, 1, 2};
    AtMark(w, 3, 100, 101);
  }

  lemma RunThree<O>(v: Voters, r: Run<O>, a: Event<O>, b: Event<O>, c: Event<O>)
    ensures RunAll(v, r, [a, b, c]) == RunStep(v, RunStep(v, RunStep(v, r, a), b), c)
  {
    hide RunStep;
    var x := RunStep(v, r, a);
    var y := RunStep(v, x, b);
    assert [a, b, c][1..] == [b, c] && [b, c][1..] == [c] && [c][1..] == [];
    assert RunAll(v, y, [c]) == RunAll(v, RunStep(v, y, c), []) == RunStep(v, y, c);
    assert RunAll(v, x, [b, c]) == RunAll(v, y, [c]);
  }

  /** Pin a watermark by the least seq no majority reaches. */
  lemma AtMark(waters: Waters, voters: nat, mark: nat, past: nat)
    requires past == mark + 1
    requires |Holders(waters, past)| < Majority(voters)
    requires mark > 0 ==> |Holders(waters, mark)| >= Majority(voters)
    ensures Watermark(waters, voters) == mark
  {
    hide Watermark;
    WatermarkIsMajority(waters, voters, past);
    if mark > 0 {
      WatermarkIsMajority(waters, voters, mark);
    }
  }

  // ----- a batch that is not quiet -----

  /** A frame applied at any seq stays pending although a majority holds it if
      and only if counting it does not take the watermark past `committed`. */
  lemma LateStallsIff<O>(v: Voters, s: State<O>, k: nat, outputs: seq<O>)
    requires k > 0
    ensures var n := FinishedAt(v, s, k, outputs).0;
            k in n.pending && MajorityHolds(v, n, k) <==> k <= Watermark(Recorded(s.waters, v.self, k), v.count) <= s.committed
  {
    hide Watermark, InOrder;
    WatermarkIsMajority(Recorded(s.waters, v.self, k), v.count, k);
  }

  /** A batch of two whose first input fires a timer applies seqs 1, 3, 2. With
      one voter the firing commits 3, so 2 is held back although it is held by
      all, and is released only with the next frame, after 3. */
  lemma LateRelease(a: nat, b: nat, c: nat, d: nat)
    ensures var v := Voters(1, 0);
            var s0: State<nat> := Opened(v, 0);
            var (s1, r1) := FinishedAt(v, s0, 1, [a]);
            var (s2, r2) := FinishedAt(v, s1, 3, [c]);
            var (s3, r3) := FinishedAt(v, s2, 2, [b]);
            var (s4, r4) := FinishedAt(v, s3, 4, [d]);
            && s3.pending == map[2 := [b]] && MajorityHolds(v, s3, 2) && r3 == []
            && r1 + r2 + r3 + r4 == [Batch(1, [a]), Batch(3, [c]), Batch(2, [b]), Batch(4, [d])]
  {
    hide FinishedAt, MajorityHolds;
    var v := Voters(1, 0);
    var none: map<nat, seq<nat>> := map[];
    var s1: State<nat> := State(map[0 := 1], none, 1, 1);
    var s2: State<nat> := State(map[0 := 3], none, 3, 3);
    var s3: State<nat> := State(map[0 := 3], map[2 := [b]], 3, 3);
    SoleFinish(v, Opened(v, 0), 1, [a], s1);
    SoleFinish(v, s1, 3, [c], s2);
    SoleLate(v, s2, 2, [b], s3);
    SoleDrain(v, s3, 4, [d], 2, [b]);
  }

  lemma SoleMark(k: nat)
    requires k > 0
    ensures Watermark(map[0 := k], 1) == k
  {
    var w: Waters := map[0 := k];
    assert Holders(w, k) == {0} && Holders(w, k + 1) == {};
    AtMark(w, 1, k, k + 1);
  }

  lemma OneInOrder<O>(k: nat, outputs: seq<O>)
    ensures InOrder(map[k := outputs]) == [Batch(k, outputs)]
  {
    var m := map[k := outputs];
    assert m.Keys == {k} && m - {k} == map[];
    assert InOrder(m) == [Batch(k, outputs)] + InOrder(m - {k});
  }

  /** With one voter and nothing pending, the frame goes out at once. */
  lemma SoleFinish(v: Voters, s: State<nat>, k: nat, outputs: seq<nat>, next: State<nat>)
    requires v == Voters(1, 0) && s.waters.Keys == {0} && s.waters[0] == s.committed == s.tip < k && s.pending == map[]
    requires next == State(map[0 := k], map[], k, k)
    ensures FinishedAt(v, s, k, outputs) == (next, [Batch(k, outputs)])
  {
    SoleMark(k);
    OneInOrder(k, outputs);
    hide Watermark, InOrder;
    assert Recorded(s.waters, 0, k) == map[0 := k];
    var pending := s.pending[k := outputs];
    assert UpTo(pending, k) == map[k := outputs] && Above(pending, k) == map[];
  }

  lemma SoleLate(v: Voters, s: State<nat>, k: nat, outputs: seq<nat>, next: State<nat>)
    requires v == Voters(1, 0) && s == State(map[0 := 3], map[], 3, 3) && k == 2
    requires next == State(map[0 := 3], map[2 := outputs], 3, 3)
    ensures FinishedAt(v, s, k, outputs) == (next, []) && MajorityHolds(v, next, k)
  {
    SoleMark(3);
    hide Watermark, InOrder;
    assert Recorded(s.waters, 0, k) == map[0 := 3];
    assert Holders(next.waters, k) == {0};
  }

  lemma SoleDrain(v: Voters, s: State<nat>, k: nat, outputs: seq<nat>, late: nat, held: seq<nat>)
    requires v == Voters(1, 0) && s == State(map[0 := 3], map[late := held], 3, 3) && late == 2 && k == 4
    ensures FinishedAt(v, s, k, outputs).1 == [Batch(late, held), Batch(k, outputs)]
  {
    SoleMark(4);
    TwoInOrder(late, held, k, outputs);
    hide Watermark, InOrder;
    assert Recorded(s.waters, 0, k) == map[0 := 4];
    var all := s.pending[k := outputs];
    assert UpTo(all, 4) == all && all == map[late := held, k := outputs];
  }

  lemma TwoInOrder<O>(j: nat, first: seq<O>, k: nat, second: seq<O>)
    requires j < k
    ensures InOrder(map[j := first, k := second]) == [Batch(j, first), Batch(k, second)]
  {
    OneInOrder(k, second);
    var m := map[j := first, k := second];
    assert m.Keys == {j, k} && IsLeast(m.Keys, j) && Least(m.Keys) == j;
    assert m - {j} == map[k := second];
    assert InOrder(m) == [Batch(j, first)] + InOrder(m - {j});
  }

  /** Marks only take seqs. */
  lemma {:induction false} MarksSkip<O>(v: Voters, r: Run<O>, marks: nat)
    ensures RunAll(v, r, seq(marks, i => Mark)) == r.(state := r.state.(tip := r.state.tip + marks))
    decreases marks
  {
    var events: seq<Event<O>> := seq(marks, i => Mark);
    if marks > 0 {
      var next := RunStep(v, r, Mark);
      assert r.released + [] == r.released;
      assert events[0] == Mark && events[1..] == seq(marks - 1, i => Mark);
      MarksSkip(v, next, marks - 1);
    }
  }

  // ----- the leader's object -----

  class CommitState<!O(!new)> {
    const voters: Voters
    var waters: Waters
    var pending: map<nat, seq<O>>
    var committed: nat
    ghost var tip: nat

    ghost function Abs(): State<O>
      reads this
    {
      State(waters, pending, committed, tip)
    }

    constructor (voters: Voters, selfSeq: nat)
      ensures this.voters == voters && Abs() == Opened(voters, selfSeq)
    {
      this.voters := voters;
      waters, pending, committed, tip := map[voters.self := selfSeq], map[], selfSeq, selfSeq;
    }

    method Record(replica: nat, upTo: nat)
      modifies this`waters
      ensures waters == Recorded(old(waters), replica, upTo)
    {
      var had := if replica in waters then waters[replica] else 0;
      waters := waters[replica := if had < upTo then upTo else had];
    }

    /** Advance to the watermark and hand out what crossed it, in seq order. */
    method DrainCommitted() returns (released: seq<Batch<O>>)
      modifies this`pending, this`committed
      ensures (Abs(), released) == Drained(voters, old(Abs()))
    {
      hide Least, KthHighest, Values;
      var mark := Watermark(waters, voters.count);
      if mark <= committed {
        return [];
      }
      committed := mark;
      var below := UpTo(pending, mark);
      pending := Above(pending, mark);
      released := [];
      ghost var all := below;
      while below.Keys != {}
        invariant InOrder(all) == released + InOrder(below)
        invariant waters == old(waters) && pending == Above(old(pending), mark) && committed == mark && tip == old(tip)
        decreases |below|
      {
        var k := Least(below.Keys);
        Without(below, k);
        released := released + [Batch(k, below[k])];
        below := below - {k};
      }
      assert released + [] == released;
    }

    /** A frame with outputs has been applied: hold them, count this node's own
        copy, release what that commits. Seqs skipped since the last frame went
        to snapshot marks; in a batch the seq may lie below others already
        counted. */
    method FinishFrame(outputs: seq<O>, seqno: nat) returns (released: seq<Batch<O>>)
      modifies this
      ensures (Abs(), released) == FinishedAt(voters, old(Abs()), seqno, outputs)
      ensures seqno > old(tip) ==> (Abs(), released) == Step(voters, old(Abs()).(tip := seqno - 1), Applied(outputs))
    {
      hide Drained, Recorded;
      pending := pending[seqno := outputs];
      tip := if tip < seqno then seqno else tip;
      Record(voters.self, seqno);
      released := DrainCommitted();
    }

    /** A frame without outputs: only this node's own high-water moves. */
    method NoteProgress(seqno: nat)
      requires seqno > tip
      modifies this
      ensures Step(voters, old(Abs()).(tip := seqno - 1), Control) == (Abs(), [])
    {
      tip := seqno;
      Record(voters.self, seqno);
    }

    method RecordAck(replica: nat, upTo: nat) returns (released: seq<Batch<O>>)
      modifies this
      ensures (Abs(), released) == Step(voters, old(Abs()), Ack(replica, upTo))
    {
      hide Drained, Recorded;
      Record(replica, upTo);
      released := DrainCommitted();
    }
  }
}
