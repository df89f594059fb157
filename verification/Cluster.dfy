/** The whole replicated protocol: submit, deliver, rebuild, kill, partition,
    elect, promote and fence, as one step function over the cluster's state.

    Randomness and the clock are parameters of a step: which node, which
    candidates, in which order votes arrive (an arbitrary list, so requests
    may also be lost or repeated), where a rebuild stops, what time it is. */
module Cluster {
  import opened Wrappers
  import opened Quorum
  import opened Election

  datatype Tier = AsyncStandby | QuorumCommit

  datatype Body = Input(payload: seq<int>) | EpochChange(epoch: nat, firstSeq: nat)

  datatype Entry = Entry(seqno: nat, timestamp: nat, body: Body)

  datatype Node = Node(
    alive: bool,
    partitioned: bool,
    epoch: nat,
    acceptor: AcceptorState,
    history: seq<Entry>,
    replicaSeq: nat,
    needsRebuild: bool,
    thinksLeader: bool)

  datatype Sim = Sim(
    tier: Tier,
    fencing: bool,
    epoch: nat,
    leader: Option<nat>,
    canonical: seq<Entry>,
    nodes: seq<Node>,
    assignments: map<(nat, nat), Entry>,
    released: seq<nat>,
    lostReleased: seq<nat>,
    epochCounter: nat,
    releaseCursor: nat,
    kills: nat)

  datatype Violation =
    | SplitBrainAssignment(seqno: nat, epoch: nat)
    | SplitBrainElection(epoch: nat)
    | CommittedLoss(seqno: nat)

  datatype Outcome = Next(sim: Sim) | Violated(violation: Violation)

  datatype Op =
    | Submit(payload: seq<int>, time: nat)
    | Deliver(node: nat, upto: nat)
    | KillLeader
    | PartitionOrHeal(node: nat)
    | Elect(candidates: seq<nat>, order: seq<(nat, nat)>, time: nat)

  function NewSim(tier: Tier, fencing: bool, voters: nat): Sim
    requires voters > 0
  {
    var idle := Node(true, false, 1, AcceptorState(0, 0), [], 0, false, false);
    Sim(tier, fencing, 1, Some(0), [], Repeat(idle, voters)[0 := idle.(thinksLeader := true)],
        map[], [], [], 1, 1, 0)
  }

  function Repeat(node: Node, n: nat): (r: seq<Node>)
    ensures |r| == n
    ensures forall i :: 0 <= i < n ==> r[i] == node
  {
    if n == 0 then [] else [node] + Repeat(node, n - 1)
  }

  function Min(a: nat, b: nat): nat { if a <= b then a else b }
  function Max(a: nat, b: nat): nat { if a >= b then a else b }

  // ----- commit and release -----

  /** `zip` then `take_while` equal then `count`. */
  function CommonPrefix(a: seq<Entry>, b: seq<Entry>): (n: nat)
    ensures n <= |a| && n <= |b|
    ensures a[..n] == b[..n]
    ensures n < |a| && n < |b| ==> a[n] != b[n]
  {
    if a == [] || b == [] || a[0] != b[0] then 0
    else
      var n := CommonPrefix(a[1..], b[1..]);
      assert a[..n + 1] == [a[0]] + a[1..][..n];
      assert b[..n + 1] == [b[0]] + b[1..][..n];
      n + 1
  }

  function Waters(nodes: seq<Node>, canonical: seq<Entry>): (w: seq<nat>)
    ensures |w| == |nodes|
    ensures forall i :: 0 <= i < |nodes| ==> w[i] == CommonPrefix(nodes[i].history, canonical)
  {
    if nodes == [] then []
    else [CommonPrefix(nodes[0].history, canonical)] + Waters(nodes[1..], canonical)
  }

  /** The majority-th highest canonical-consistent prefix. */
  function Committed(sim: Sim): nat
    requires |sim.nodes| > 0
  {
    KthHighest(Waters(sim.nodes, sim.canonical), Majority(|sim.nodes|))
  }

  function ReleaseLimit(sim: Sim): nat
    requires |sim.nodes| > 0
  {
    match sim.tier
    case AsyncStandby => |sim.canonical|
    case QuorumCommit => Committed(sim)
  }

  /** The input seqs in `from..=upto`; control frames release nothing. */
  function InputSeqs(canonical: seq<Entry>, from: nat, upto: nat): (r: seq<nat>)
    decreases upto + 1 - from
  {
    if from > upto then []
    else (if 1 <= from <= |canonical| && canonical[from - 1].body.Input? then [from] else [])
         + InputSeqs(canonical, from + 1, upto)
  }

  function ReleaseOutputs(sim: Sim): Sim
    requires |sim.nodes| > 0
  {
    var upto := ReleaseLimit(sim);
    sim.(released := sim.released + InputSeqs(sim.canonical, sim.releaseCursor, upto),
         releaseCursor := Max(sim.releaseCursor, upto + 1))
  }

  function RecordAssignment(sim: Sim, entry: Entry, epoch: nat): Outcome {
    var key := (entry.seqno, epoch);
    if key in sim.assignments then
      if sim.assignments[key] != entry then Violated(SplitBrainAssignment(entry.seqno, epoch)) else Next(sim)
    else Next(sim.(assignments := sim.assignments[key := entry]))
  }

  // ----- the steps -----

  /** Journal and apply one entry, and let the acceptor vouch for it. */
  function Append(node: Node, entry: Entry): Node {
    node.(history := node.history + [entry],
          replicaSeq := node.replicaSeq + 1,
          acceptor := node.acceptor.Observed(entry.seqno))
  }

  function SubmitStep(sim: Sim, payload: seq<int>, time: nat): Outcome
    requires |sim.nodes| > 0
    requires sim.leader.Some? ==> sim.leader.value < |sim.nodes|
  {
    if sim.leader.None? then Next(sim)
    else
      var leader := sim.leader.value;
      var entry := Entry(|sim.canonical| + 1, time, Input(payload));
      match RecordAssignment(sim, entry, sim.epoch)
      case Violated(v) => Violated(v)
      case Next(s) =>
        Next(ReleaseOutputs(s.(canonical := s.canonical + [entry],
                               nodes := s.nodes[leader := Append(s.nodes[leader], entry)])))
  }

  /** The epoch a node adopts by replaying `entries`. */
  function AdoptedEpoch(entries: seq<Entry>, start: nat): nat
    decreases |entries|
  {
    if entries == [] then start
    else
      var last := entries[|entries| - 1];
      if last.body.EpochChange? then last.body.epoch else AdoptedEpoch(entries[..|entries| - 1], start)
  }

  /** State transfer from the canonical stream, up to a chosen point. */
  function Rebuilt(node: Node, canonical: seq<Entry>, upto: nat): Node
    requires upto <= |canonical|
  {
    node.(history := canonical[..upto],
          replicaSeq := upto,
          epoch := AdoptedEpoch(canonical[..upto], node.epoch),
          acceptor := AcceptorState(node.acceptor.promised, upto))
  }

  /** A flagged node rebuilds first (or, with fencing off, just forgets). */
  function Unflagged(sim: Sim, i: nat, upto: nat): Node
    requires i < |sim.nodes|
    requires upto <= |sim.canonical|
  {
    var node := sim.nodes[i];
    if node.needsRebuild
    then (if sim.fencing then Rebuilt(node, sim.canonical, upto) else node).(needsRebuild := false)
    else node
  }

  function DeliverTo(sim: Sim, i: nat, upto: nat): Sim
    requires i < |sim.nodes|
    requires upto <= |sim.canonical|
  {
    var node := Unflagged(sim, i, upto);
    var len := |node.history|;
    var next :=
      if len >= |sim.canonical| || node.replicaSeq != len then node
      else
        var entry := sim.canonical[len];
        var told := if entry.body.EpochChange?
                    then node.(epoch := entry.body.epoch, thinksLeader := false) else node;
        Append(told, entry);
    sim.(nodes := sim.nodes[i := next])
  }

  predicate Reachable(node: Node) { node.alive && !node.partitioned }

  function DeliverStep(sim: Sim, i: nat, upto: nat): Outcome
    requires |sim.nodes| > 0
    requires i < |sim.nodes|
    requires upto <= |sim.canonical|
  {
    if !Reachable(sim.nodes[i]) || sim.leader == Some(i) then Next(sim)
    else Next(ReleaseOutputs(DeliverTo(sim, i, upto)))
  }

  /** A majority is kept alive so that elections stay possible. */
  function KillLeaderStep(sim: Sim): Sim
    requires sim.leader.Some? ==> sim.leader.value < |sim.nodes|
  {
    if sim.kills + Majority(|sim.nodes|) >= |sim.nodes| || sim.leader.None? then sim
    else
      var l := sim.leader.value;
      sim.(leader := None, kills := sim.kills + 1,
           nodes := sim.nodes[l := sim.nodes[l].(alive := false, thinksLeader := false)])
  }

  function PartitionStep(sim: Sim, i: nat): Sim
    requires i < |sim.nodes|
  {
    var node := sim.nodes[i];
    if !node.alive then sim
    else sim.(nodes := sim.nodes[i := node.(partitioned := !node.partitioned)],
              leader := if !node.partitioned && sim.leader == Some(i) then None else sim.leader)
  }

  /** Vote requests in the given order; unreachable acceptors are skipped. */
  function Vote(nodes: seq<Node>, tallies: seq<Tally>, order: seq<(nat, nat)>): (r: (seq<Node>, seq<Tally>))
    requires forall p :: p in order ==> p.0 < |tallies| && p.1 < |nodes|
    ensures |r.0| == |nodes| && |r.1| == |tallies|
    decreases |order|
  {
    if order == [] then (nodes, tallies)
    else
      var (e, a) := order[0];
      if !Reachable(nodes[a]) then Vote(nodes, tallies, order[1..])
      else
        var epoch := tallies[e].epoch;
        var reply := nodes[a].acceptor.Answer(epoch);
        Vote(nodes[a := nodes[a].(acceptor := nodes[a].acceptor.AfterVote(epoch))],
             tallies[e := tallies[e].After(a, reply)], order[1..])
  }

  function NewTallies(n: nat, epoch: nat, voters: nat): (r: seq<Tally>)
    ensures |r| == n
    ensures forall i :: 0 <= i < n ==> r[i] == NewTally(epoch, voters)
  {
    if n == 0 then [] else [NewTally(epoch, voters)] + NewTallies(n - 1, epoch, voters)
  }

  predicate ElectOk(sim: Sim, candidates: seq<nat>, order: seq<(nat, nat)>) {
    && |candidates| <= 2
    && (candidates == [] ==> forall i :: 0 <= i < |sim.nodes| ==> !Reachable(sim.nodes[i]))
    && (forall k :: 0 <= k < |candidates| ==> candidates[k] < |sim.nodes| && Reachable(sim.nodes[candidates[k]]))
    && (forall p :: p in order ==> p.0 < |candidates| && p.1 < |sim.nodes|)
  }

  /** Every bid burns a fresh epoch. */
  function ElectStep(sim: Sim, candidates: seq<nat>, order: seq<(nat, nat)>, time: nat): Outcome
    requires |sim.nodes| > 0
    requires ElectOk(sim, candidates, order)
  {
    var target := sim.epochCounter + 1;
    var (nodes, tallies) := Vote(sim.nodes, NewTallies(|candidates|, target, |sim.nodes|), order);
    var voted := sim.(epochCounter := target, nodes := nodes);
    var won0 := |tallies| > 0 && tallies[0].Outcome().Won?;
    var won1 := |tallies| > 1 && tallies[1].Outcome().Won?;
    if won0 && won1 then Violated(SplitBrainElection(target))
    else if won0 then Promote(voted, candidates[0], target, tallies[0].syncTo, time)
    else if won1 then Promote(voted, candidates[1], target, tallies[1].syncTo, time)
    else Next(voted)
  }

  /** The winner discards any suffix that earlier fences condemned. */
  function Reconciled(node: Node, canonical: seq<Entry>): Node {
    var common := CommonPrefix(node.history, canonical);
    if common < |node.history|
    then node.(history := node.history[..common], replicaSeq := common,
               epoch := AdoptedEpoch(node.history[..common], 1),
               acceptor := AcceptorState(node.acceptor.promised, common),
               needsRebuild := false)
    else node
  }

  /** Where a winner with these grants fences the old epoch. */
  function FenceFor(tier: Tier, winner: Node, canonical: seq<Entry>, syncTo: nat): (fence: nat)
    ensures fence <= |canonical|
  {
    var have := |Reconciled(winner, canonical).history|;
    var fence := match tier
      case AsyncStandby => have
      case QuorumCommit => Max(syncTo, have);
    Min(fence, |canonical|)
  }

  /** State transfer: the canonical frames the node is missing, up to `upto`. */
  function Transferred(node: Node, canonical: seq<Entry>, upto: nat): Node
    requires upto <= |canonical| || upto <= |node.history|
  {
    if |node.history| < upto
    then node.(history := node.history + canonical[|node.history|..upto],
               replicaSeq := node.replicaSeq + (upto - |node.history|),
               acceptor := node.acceptor.Observed(upto))
    else node
  }

  /** The winner once it holds everything up to the fence. */
  function Synced(winner: Node, canonical: seq<Entry>, fence: nat): Node
    requires fence <= |canonical|
  {
    Transferred(Reconciled(winner, canonical), canonical, fence)
  }

  function AtMost(seqs: seq<nat>, limit: nat): (r: seq<nat>) {
    if seqs == [] then []
    else (if seqs[0] <= limit then [seqs[0]] else []) + AtMost(seqs[1..], limit)
  }

  function Above(seqs: seq<nat>, limit: nat): (r: seq<nat>) {
    if seqs == [] then []
    else (if seqs[0] > limit then [seqs[0]] else []) + Above(seqs[1..], limit)
  }

  /** Nodes that applied fenced history must rebuild. */
  function Flagged(nodes: seq<Node>, fence: nat): (r: seq<Node>)
    ensures |r| == |nodes|
    ensures forall i :: 0 <= i < |nodes| ==>
              r[i] == if |nodes[i].history| > fence then nodes[i].(needsRebuild := true) else nodes[i]
  {
    if nodes == [] then []
    else [if |nodes[0].history| > fence then nodes[0].(needsRebuild := true) else nodes[0]]
         + Flagged(nodes[1..], fence)
  }

  function Promote(sim: Sim, winner: nat, epoch: nat, syncTo: nat, time: nat): Outcome
    requires winner < |sim.nodes|
  {
    var fence := FenceFor(sim.tier, sim.nodes[winner], sim.canonical, syncTo);
    var synced := Synced(sim.nodes[winner], sim.canonical, fence);
    FenceAt(sim.(nodes := sim.nodes[winner := synced]), winner, epoch, fence, time)
  }

  /** Discard everything past the fence, flag who applied it, seal the epoch. */
  function FenceAt(sim: Sim, winner: nat, epoch: nat, fence: nat, time: nat): Outcome
    requires winner < |sim.nodes|
    requires fence <= |sim.canonical|
  {
    var lost := Above(sim.released, fence);
    if lost != [] && sim.tier.QuorumCommit? then Violated(CommittedLoss(lost[0]))
    else
      var seal := Entry(fence + 1, time, EpochChange(epoch, fence + 1));
      var flagged := Flagged(sim.nodes, fence);
      var leading := flagged[winner].(thinksLeader := true, epoch := epoch, needsRebuild := false);
      var s := sim.(canonical := sim.canonical[..fence],
                    released := AtMost(sim.released, fence),
                    lostReleased := sim.lostReleased + lost,
                    releaseCursor := Min(sim.releaseCursor, fence + 1),
                    epoch := epoch,
                    leader := Some(winner),
                    nodes := flagged[winner := leading]);
      match RecordAssignment(s, seal, epoch)
      case Violated(v) => Violated(v)
      case Next(t) =>
        Next(t.(canonical := t.canonical + [seal],
                nodes := t.nodes[winner := Append(leading, seal)]))
  }

  // ----- runs -----

  predicate OpOk(sim: Sim, op: Op) {
    && |sim.nodes| > 0
    && (sim.leader.Some? ==> sim.leader.value < |sim.nodes|)
    && match op
       case Submit(_, _) => true
       case Deliver(i, upto) => i < |sim.nodes| && upto <= |sim.canonical|
       case KillLeader => true
       case PartitionOrHeal(i) => i < |sim.nodes|
       case Elect(candidates, order, _) => ElectOk(sim, candidates, order)
  }

  function Step(sim: Sim, op: Op): Outcome
    requires OpOk(sim, op)
  {
    match op
    case Submit(payload, time) => SubmitStep(sim, payload, time)
    case Deliver(i, upto) => DeliverStep(sim, i, upto)
    case KillLeader => Next(KillLeaderStep(sim))
    case PartitionOrHeal(i) => Next(PartitionStep(sim, i))
    case Elect(candidates, order, time) => ElectStep(sim, candidates, order, time)
  }

  /** Every op is possible where it happens. */
  predicate IsRun(sim: Sim, ops: seq<Op>)
    decreases |ops|
  {
    ops == [] ||
    (OpOk(sim, ops[0]) && (Step(sim, ops[0]).Next? ==> IsRun(Step(sim, ops[0]).sim, ops[1..])))
  }

  function RunOps(sim: Sim, ops: seq<Op>): Outcome
    requires IsRun(sim, ops)
    decreases |ops|
  {
    if ops == [] then Next(sim)
    else
      match Step(sim, ops[0])
      case Violated(v) => Violated(v)
      case Next(s) => RunOps(s, ops[1..])
  }
}
