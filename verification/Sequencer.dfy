/** The sequencer node as a state machine over frames: stage, journal, apply,
    fire timers, snapshot, prune, compact, lose power and recover. */
module Sequencer {
  import opened Wrappers
  import opened Bytes
  import opened Frame
  import opened TimerWheel
  import opened Execution
  import opened SnapshotFile
  import opened Log

  /** `clock(k)` is the k-th reading of the time source; `syncs(k)` says
      whether the fsync policy syncs after the k-th append. Both are arbitrary. */
  datatype Config = Config(
    segmentBytes: nat,
    every: Option<nat>,
    retain: nat,
    streamId: nat,
    clock: nat -> nat,
    syncs: nat -> bool)

  datatype Node<+S> = Node(
    machine: Machine<S>,
    log: Log,
    snaps: map<nat, seq<byte>>,
    seqno: nat,
    lastTime: nat,
    readings: nat,
    appends: nat)

  /** A node and the frames it published on the way. */
  datatype Stepped<+S> = Stepped(node: Node<S>, published: seq<Frame>)

  // ----- sequencing -----

  function Stage<S>(cfg: Config, n: Node<S>, kind: FrameKind, payload: seq<byte>, at: nat): Frame {
    Frame(n.seqno + 1, if at < n.lastTime then n.lastTime else at, cfg.streamId, kind, payload)
  }

  /** Stage and journal one frame stamped `at`; None is a journal error. */
  function SequenceAt<S>(cfg: Config, n: Node<S>, kind: FrameKind, payload: seq<byte>, at: nat): Option<Stepped<S>> {
    var f := Stage(cfg, n, kind, payload, at);
    match AppendAll(n.log, [f], cfg.segmentBytes, cfg.syncs(n.appends))
    case Appended(log) =>
      Some(Stepped(n.(log := log, seqno := f.seqno, lastTime := f.timestamp, appends := n.appends + 1), [f]))
    case _ => None
  }

  /** What a refused frame leaves behind: the seq and the stamp are spent, and
      a roll that could not create its file has synced the open one. */
  function AfterRefusal<S>(cfg: Config, n: Node<S>, kind: FrameKind, payload: seq<byte>, at: nat): Node<S> {
    var f := Stage(cfg, n, kind, payload, at);
    var log := match AppendAll(n.log, [f], cfg.segmentBytes, cfg.syncs(n.appends))
               case NameTaken(synced) => synced
               case _ => n.log;
    n.(log := log, seqno := f.seqno, lastTime := f.timestamp, appends := n.appends + 1)
  }

  function Sequence<S>(cfg: Config, n: Node<S>, kind: FrameKind, payload: seq<byte>): Option<Stepped<S>> {
    SequenceAt(cfg, n.(readings := n.readings + 1), kind, payload, cfg.clock(n.readings))
  }

  // ----- snapshots and retention -----

  function SnapshotImage<S, I, O, N>(sv: Service<S, I, O, N>, m: Machine<S>, seqno: nat): seq<byte> {
    Image(seqno, 0, sv.encodeSnapshot(sv.snapshot(m.service), Entries(m.wheel)))
  }

  /** Keep the newest `keep` snapshots, at least one. */
  function Prune(snaps: map<nat, seq<byte>>, keep: nat): (r: map<nat, seq<byte>>)
    ensures r.Keys <= snaps.Keys
    decreases |snaps|
  {
    if |snaps| > 1 && |snaps| > keep then
      assert snaps.Keys != {} by { assert |snaps.Keys| == |snaps|; }
      var oldest := Least(snaps.Keys);
      Without(snaps, oldest);
      Prune(snaps - {oldest}, keep)
    else snaps
  }

  /** Write a snapshot file, advertise it with a mark, prune the snapshots and
      compact the journal below the oldest one kept. */
  function TakeSnapshot<S, I, O, N>(sv: Service<S, I, O, N>, cfg: Config, n: Node<S>): Option<Stepped<S>> {
    if n.seqno in n.snaps then None
    else
      var written := n.(snaps := n.snaps[n.seqno := SnapshotImage(sv, n.machine, n.seqno)]);
      match Sequence(cfg, written, SnapshotMark, EncodeId(n.seqno))
      case None => None
      case Some(marked) => Some(marked.(node := Retain(cfg, marked.node)))
  }

  function Retain<S>(cfg: Config, n: Node<S>): Node<S> {
    var kept := Prune(n.snaps, cfg.retain);
    if kept.Keys == {} then n.(snaps := kept)
    else
      var oldest := Least(kept.Keys);
      n.(snaps := kept, log := n.log.(segs := Compact(n.log.segs, if oldest == 0 then 0 else oldest - 1)))
  }

  predicate OnCadence(cfg: Config, seqno: nat) {
    cfg.every.Some? && seqno % (if cfg.every.value == 0 then 1 else cfg.every.value) == 0
  }

  function MaybeSnapshot<S, I, O, N>(sv: Service<S, I, O, N>, cfg: Config, n: Node<S>): Option<Stepped<S>> {
    if OnCadence(cfg, n.seqno) then TakeSnapshot(sv, cfg, n) else Some(Stepped(n, []))
  }

  /** Finish a frame that has just been applied. */
  function Finish<S, I, O, N>(sv: Service<S, I, O, N>, cfg: Config, s: Stepped<S>): Option<Stepped<S>> {
    match MaybeSnapshot(sv, cfg, s.node)
    case None => None
    case Some(t) => Some(Stepped(t.node, s.published + t.published))
  }

  // ----- the operations, one sequenced frame at a time -----

  datatype Action<+I> = Submit(input: I) | Fire | Tick | Fence(epoch: nat) | SyncLog | PowerLoss(kept: nat)

  function DoSubmit<S, I, O, N>(sv: Service<S, I, O, N>, cfg: Config, n: Node<S>, input: I): Option<Stepped<S>> {
    match Sequence(cfg, n, Input, sv.encodeInput(input))
    case None => None
    case Some(s) =>
      var out := sv.apply(n.machine.service, s.node.seqno, s.node.lastTime, input);
      Finish(sv, cfg, s.(node := s.node.(machine := Settle(out, n.machine.wheel, s.node.seqno))))
  }

  /** One turn of the firing loop; None when nothing is due. */
  function DoFire<S, I, O, N>(sv: Service<S, I, O, N>, cfg: Config, n: Node<S>): Option<Stepped<S>> {
    match NextDue(n.machine.wheel, n.lastTime)
    case None => None
    case Some(id) =>
      match SequenceAt(cfg, n, TimerFired, EncodeId(id), n.lastTime)
      case None => None
      case Some(s) =>
        var out := sv.onTimer(n.machine.service, s.node.seqno, s.node.lastTime, id);
        Finish(sv, cfg, s.(node := s.node.(machine := Settle(out, n.machine.wheel - {id}, s.node.seqno))))
  }

  function DoControl<S, I, O, N>(sv: Service<S, I, O, N>, cfg: Config, n: Node<S>, kind: FrameKind, payload: seq<byte>): Option<Stepped<S>> {
    match Sequence(cfg, n, kind, payload)
    case None => None
    case Some(s) => Finish(sv, cfg, s)
  }

  function DoFence<S, I, O, N>(sv: Service<S, I, O, N>, cfg: Config, n: Node<S>, epoch: nat): Option<Stepped<S>> {
    DoControl(sv, cfg, n, EpochChange, FencePayload(epoch, n.seqno + 1, sv.schema))
  }

  // ----- recovery -----

  datatype Opening<+S> = Opened(node: Node<S>) | UncoveredHistory(first: nat) | CorruptFrame

  /** The newest snapshot that parses, that the journal can continue from and
      that decodes. */
  function ChooseAnchor<S, I, O, N>(sv: Service<S, I, O, N>, snaps: map<nat, seq<byte>>, first: nat, ceiling: nat): Option<(nat, Machine<S>)>
    decreases |snaps|
  {
    if snaps.Keys == {} then None
    else
      var name := Greatest(snaps.Keys);
      Without(snaps, name);
      match Usable(sv, snaps[name], first, ceiling)
      case Some(anchor) => Some(anchor)
      case None => ChooseAnchor(sv, snaps - {name}, first, ceiling)
  }

  function Usable<S, I, O, N>(sv: Service<S, I, O, N>, file: seq<byte>, first: nat, ceiling: nat): Option<(nat, Machine<S>)> {
    match Parse(file)
    case None => None
    case Some(loaded) =>
      if loaded.seqno > ceiling || loaded.seqno + 1 < first then None
      else
        match sv.decodeSnapshot(loaded.payload)
        case None => None
        case Some((snap, entries)) => Some((loaded.seqno, Machine(sv.restore(snap), Rearm(entries, map[]))))
  }

  function HighWater(snaps: map<nat, seq<byte>>): nat {
    if snaps.Keys == {} then 0 else Greatest(snaps.Keys)
  }

  function FirstSeq(log: Log): nat {
    var frames := FramesOf(log.segs);
    if frames == [] then log.last + 1 else frames[0].seqno
  }

  function Purge(snaps: map<nat, seq<byte>>, tip: nat): map<nat, seq<byte>> {
    map s | s in snaps && s <= tip :: snaps[s]
  }

  /** Replay the frames above the anchor. */
  function ReplayAbove<S, I, O, N>(sv: Service<S, I, O, N>, m: Machine<S>, frames: seq<Frame>, from: nat): Option<Machine<S>>
    decreases |frames|
  {
    if frames == [] then Some(m)
    else if frames[0].seqno <= from then ReplayAbove(sv, m, frames[1..], from)
    else
      match ReplayStep(sv, m, frames[0])
      case None => None
      case Some(next) => ReplayAbove(sv, next, frames[1..], from)
  }

  function LastStamp(frames: seq<Frame>): nat {
    if frames == [] then 0 else frames[|frames| - 1].timestamp
  }

  /** Open a node on what the disk holds. */
  function OpenNode<S, I, O, N>(sv: Service<S, I, O, N>, segs: seq<Seg>, snaps: map<nat, seq<byte>>, readings: nat, appends: nat): Opening<S> {
    var log := Reopen(segs);
    var first := FirstSeq(log);
    var ceiling := if log.last < HighWater(snaps) then HighWater(snaps) else log.last;
    var anchor := ChooseAnchor(sv, snaps, first, ceiling);
    if anchor.None? && first > 1 then UncoveredHistory(first)
    else
      var from := if anchor.Some? then anchor.value.0 else 0;
      var base := if anchor.Some? then anchor.value.1 else Genesis(sv);
      var tip := if log.last < from then from else log.last;
      match ReplayAbove(sv, base, FramesOf(segs), from)
      case None => CorruptFrame
      case Some(machine) =>
        Opened(Node(machine, if from > log.last then Reseat(log, tip + 1) else log, Purge(snaps, tip),
                    tip, LastStamp(FramesOf(segs)), readings, appends))
  }

  /** What power loss may keep of the open segment. */
  predicate MayKeep(log: Log, kept: nat) {
    log.segs != [] ==> Active(log.segs).durable <= kept <= |Active(log.segs).frames|
  }

  function AfterLoss(log: Log, kept: nat): seq<Seg>
    requires MayKeep(log, kept)
  {
    if log.segs == [] then [] else Cut(log.segs, kept)
  }

  function DoPowerLoss<S, I, O, N>(sv: Service<S, I, O, N>, n: Node<S>, kept: nat): Opening<S>
    requires MayKeep(n.log, kept)
  {
    OpenNode(sv, AfterLoss(n.log, kept), n.snaps, n.readings, n.appends)
  }

  // ----- what holds of every reachable node -----

  /** The file restores to a machine like that of the history's first `s`
      frames. */
  ghost predicate SnapOk<S, I, O, N>(sv: Service<S, I, O, N>, s: nat, file: seq<byte>, hist: seq<Frame>) {
    && 1 <= s <= |hist|
    && Replay(sv, Genesis(sv), hist[..s]).Some?
    && Usable(sv, file, 0, s).Some?
    && Usable(sv, file, 0, s).value.0 == s
    && Same(sv, Replay(sv, Genesis(sv), hist[..s]).value, Usable(sv, file, 0, s).value.1)
  }

  ghost predicate SnapsOk<S, I, O, N>(sv: Service<S, I, O, N>, snaps: map<nat, seq<byte>>, hist: seq<Frame>) {
    forall s :: s in snaps ==> SnapOk(sv, s, snaps[s], hist)
  }

  /** Recovery always has a base: history starts at 1, or the newest snapshot
      reaches the frame before the journal's first. */
  ghost predicate Covered(start: nat, snaps: map<nat, seq<byte>>) {
    start == 1 || (snaps.Keys != {} && HighWater(snaps) + 1 >= start)
  }

  ghost predicate DiskOk<S, I, O, N>(sv: Service<S, I, O, N>, n: Node<S>, hist: seq<Frame>) {
    && Numbered(hist)
    && n.seqno == |hist| < U64_LIMIT
    && LogOk(n.log, hist)
    && SnapsOk(sv, n.snaps, hist)
    && Covered(Start(n.log), n.snaps)
    && (forall i :: 0 <= i < |hist| ==> WellFormed(sv, hist[i]))
  }

  /** At every point of the history the wheel keeps within the wire's widths. */
  ghost predicate WheelsFit<S, I, O, N>(sv: Service<S, I, O, N>, hist: seq<Frame>) {
    forall k :: 0 <= k <= |hist| ==>
      Replay(sv, Genesis(sv), hist[..k]).Some? && WheelFits(Replay(sv, Genesis(sv), hist[..k]).value.wheel)
  }

  /** Service and wheel are like the replay of the history. */
  ghost predicate MachineOk<S, I, O, N>(sv: Service<S, I, O, N>, m: Machine<S>, hist: seq<Frame>) {
    && Replay(sv, Genesis(sv), hist).Some?
    && Same(sv, Replay(sv, Genesis(sv), hist).value, m)
    && WheelsFit(sv, hist)
  }

  ghost predicate NodeOk<S, I, O, N>(sv: Service<S, I, O, N>, n: Node<S>, hist: seq<Frame>) {
    DiskOk(sv, n, hist) && MachineOk(sv, n.machine, hist)
  }

  /** The seq below which nothing can be lost any more. */
  function Durable<S>(n: Node<S>): int {
    if DurableEnd(n.log) < HighWater(n.snaps) then HighWater(n.snaps) else DurableEnd(n.log)
  }

  /** Every retained snapshot could serve as the anchor. */
  ghost predicate AllUsable<S>(n: Node<S>) {
    forall s :: s in n.snaps ==> s + 1 >= Start(n.log)
  }

  // ----- the widths a run stays within -----

  /** Snapshot files whose payload length fits its 32-bit field. */
  ghost predicate SnapshotsFit(snaps: map<nat, seq<byte>>) {
    forall s :: s in snaps ==> |snaps[s]| < SNAPSHOT_HEADER + U32_LIMIT + 4
  }

  /** The state has not outgrown the integer widths of the wire formats. */
  ghost predicate Roomy<S, I, O, N>(sv: Service<S, I, O, N>, n: Node<S>) {
    sv.storable(n.machine.service) && WheelFits(n.machine.wheel) && SnapshotsFit(n.snaps)
  }
}
