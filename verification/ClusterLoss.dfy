/** The rebuild restart point is load-bearing: a concrete five-node tier 2 run
    in which a rebuild that restarts from seq 1 loses a released input.

    Inputs 1 and 2 are committed on nodes 0, 1 and 2 and released. Leader 0
    sequences input 3 alone and is partitioned; node 1 is elected, fences at 2
    and flags node 0. Node 0 heals and rebuilds from scratch, so only nodes 1
    and 2 still hold input 2. They are partitioned, and nodes 0, 3 and 4 elect
    node 3, which fences at 1. */
module ClusterLoss {
  import opened Wrappers
  import opened Quorum
  import opened Election
  import opened Cluster

  const A := Entry(1, 0, Input([]))
  const B := Entry(2, 0, Input([]))
  const C := Entry(3, 0, Input([]))
  const SEAL := Entry(3, 0, EpochChange(2, 3))

  function Member(reach: bool, epoch: nat, promised: nat, history: seq<Entry>, flagged: bool, leads: bool): Node {
    Node(true, !reach, epoch, AcceptorState(promised, |history|), history, |history|, flagged, leads)
  }

  /** A follower that has never voted. */
  function Follower(history: seq<Entry>): Node {
    Member(true, 1, 0, history, false, false)
  }

  function Five(a: Node, b: Node, c: Node, d: Node, e: Node): seq<Node> {
    [a, b, c, d, e]
  }

  /** Epoch 1, led by node 0. */
  function Epoch1(canonical: seq<Entry>, one: seq<Entry>, two: seq<Entry>, released: seq<nat>): Sim {
    Sim(QuorumCommit, true, 1, Some(0), canonical,
        Five(Member(true, 1, 0, canonical, false, true), Follower(one), Follower(two), Follower([]), Follower([])),
        Assigned(canonical), released, [], 1, |released| + 1, 0)
  }

  function Assigned(canonical: seq<Entry>): map<(nat, nat), Entry> {
    if |canonical| == 0 then map[]
    else if |canonical| == 1 then map[(1, 1) := A]
    else if |canonical| == 2 then map[(1, 1) := A, (2, 1) := B]
    else map[(1, 1) := A, (2, 1) := B, (3, 1) := C]
  }

  lemma Step1()
    ensures OpOk(Epoch1([], [], [], []), Submit([], 0))
    ensures Step(Epoch1([], [], [], []), Submit([], 0)) == Next(Epoch1([A], [], [], []))
  {
    var mid := Epoch1([A], [], [], []);
    WatersAre(mid, 1, 0, 0);
  }

  lemma Step2()
    ensures OpOk(Epoch1([A], [], [], []), Submit([], 0))
    ensures Step(Epoch1([A], [], [], []), Submit([], 0)) == Next(Epoch1([A, B], [], [], []))
  {
    Lists();
    var mid := Epoch1([A, B], [], [], []);
    WatersAre(mid, 2, 0, 0);
  }

  lemma Step3()
    ensures OpOk(Epoch1([A, B], [], [], []), Deliver(1, 0))
    ensures Step(Epoch1([A, B], [], [], []), Deliver(1, 0)) == Next(Epoch1([A, B], [A], [], []))
  {
    Lists();
    var mid := Epoch1([A, B], [A], [], []);
    WatersAre(mid, 2, 1, 0);
    var d := DeliverTo(Epoch1([A, B], [], [], []), 1, 0);
    assert d.nodes == mid.nodes;
    assert InputSeqs(mid.canonical, mid.releaseCursor, Committed(mid)) == [];
  }

  lemma Step4()
    ensures OpOk(Epoch1([A, B], [A], [], []), Deliver(2, 0))
    ensures Step(Epoch1([A, B], [A], [], []), Deliver(2, 0)) == Next(Epoch1([A, B], [A], [A], [1]))
  {
    Lists();
    var mid := Epoch1([A, B], [A], [A], []);
    WatersAre(mid, 2, 1, 1);
    var d := DeliverTo(Epoch1([A, B], [A], [], []), 2, 0);
    assert d.nodes == mid.nodes;
    assert InputSeqs(mid.canonical, mid.releaseCursor, Committed(mid)) == [1];
  }

  lemma Step5()
    ensures OpOk(Epoch1([A, B], [A], [A], [1]), Deliver(1, 0))
    ensures Step(Epoch1([A, B], [A], [A], [1]), Deliver(1, 0)) == Next(Epoch1([A, B], [A, B], [A], [1]))
  {
    Lists();
    var mid := Epoch1([A, B], [A, B], [A], [1]);
    WatersAre(mid, 2, 2, 1);
    var d := DeliverTo(Epoch1([A, B], [A], [A], [1]), 1, 0);
    assert d.nodes == mid.nodes;
    assert InputSeqs(mid.canonical, mid.releaseCursor, Committed(mid)) == [];
  }

  lemma Step6()
    ensures OpOk(Epoch1([A, B], [A, B], [A], [1]), Deliver(2, 0))
    ensures Step(Epoch1([A, B], [A, B], [A], [1]), Deliver(2, 0)) == Next(Epoch1([A, B], [A, B], [A, B], [1, 2]))
  {
    Lists();
    var mid := Epoch1([A, B], [A, B], [A, B], [1]);
    WatersAre(mid, 2, 2, 2);
    var d := DeliverTo(Epoch1([A, B], [A, B], [A], [1]), 2, 0);
    assert d.nodes == mid.nodes;
    assert InputSeqs(mid.canonical, mid.releaseCursor, Committed(mid)) == [2];
  }

  lemma Step7()
    ensures OpOk(Epoch1([A, B], [A, B], [A, B], [1, 2]), Submit([], 0))
    ensures Step(Epoch1([A, B], [A, B], [A, B], [1, 2]), Submit([], 0)) == Next(Epoch1([A, B, C], [A, B], [A, B], [1, 2]))
  {
    Lists();
    var mid := Epoch1([A, B, C], [A, B], [A, B], [1, 2]);
    WatersAre(mid, 3, 2, 2);
    var s := Epoch1([A, B], [A, B], [A, B], [1, 2]);
    assert s.nodes[0 := Append(s.nodes[0], C)] == mid.nodes;
    assert s.assignments[(3, 1) := C] == mid.assignments;
    assert s.canonical + [C] == mid.canonical;
    assert InputSeqs(mid.canonical, mid.releaseCursor, Committed(mid)) == [];
  }

  /** Epoch 2, led by node 1; node 0's reach, journal and flag vary, as do
      the partitions of nodes 1 and 2. */
  function Epoch2(zero: Node, reach1: bool, reach2: bool): Sim {
    Sim(QuorumCommit, true, 2, if reach1 then Some(1) else None, [A, B, SEAL],
        Five(zero, Member(reach1, 2, 2, [A, B, SEAL], false, true), Member(reach2, 1, 2, [A, B], false, false),
             Member(true, 1, 2, [], false, false), Member(true, 1, 2, [], false, false)),
        Assigned([A, B, C])[(3, 2) := SEAL], [1, 2], [], 2, 3, 0)
  }

  function Cut(): Sim {
    Epoch1([A, B, C], [A, B], [A, B], [1, 2]).(leader := None,
      nodes := Five(Member(false, 1, 0, [A, B, C], false, true), Follower([A, B]), Follower([A, B]), Follower([]), Follower([])))
  }

  lemma Step8()
    ensures OpOk(Epoch1([A, B, C], [A, B], [A, B], [1, 2]), PartitionOrHeal(0))
    ensures Step(Epoch1([A, B, C], [A, B], [A, B], [1, 2]), PartitionOrHeal(0)) == Next(Cut())
  {
  }

  const BALLOT1: seq<(nat, nat)> := [(0, 1), (0, 2), (0, 3), (0, 4)]

  /** The four reachable voters after granting epoch 2. */
  function Voted(): seq<Node> {
    Five(Member(false, 1, 0, [A, B, C], false, true), Member(true, 1, 2, [A, B], false, false),
         Member(true, 1, 2, [A, B], false, false), Member(true, 1, 2, [], false, false), Member(true, 1, 2, [], false, false))
  }

  lemma OneBallot(nodes: seq<Node>, tally: Tally, a: nat, rest: seq<(nat, nat)>)
    requires a < |nodes| && Reachable(nodes[a]) && nodes[a].acceptor.promised < tally.epoch
    requires forall p :: p in rest ==> p.0 < 1 && p.1 < |nodes|
    ensures var next := nodes[a := nodes[a].(acceptor := AcceptorState(tally.epoch, nodes[a].acceptor.highWater))];
            var after := tally.After(a, Grant(tally.epoch, nodes[a].acceptor.highWater));
            Vote(nodes, [tally], [(0, a)] + rest) == Vote(next, [after], rest)
  {
    assert ([(0, a)] + rest)[1..] == rest;
    assert [tally][0 := tally.After(a, Grant(tally.epoch, nodes[a].acceptor.highWater))]
        == [tally.After(a, Grant(tally.epoch, nodes[a].acceptor.highWater))];
  }

  lemma Ballots9()
    ensures Vote(Cut().nodes, NewTallies(1, 2, 5), BALLOT1) == (Voted(), [Tally(2, 3, {1, 2, 3, 4}, 2, 0, false)])
  {
    hide Vote;
    var n0, n4 := Cut().nodes, Voted();
    var n1 := n0[1 := n4[1]];
    var n2 := n1[2 := n4[2]];
    var n3 := n2[3 := n4[3]];
    assert n3[4 := n4[4]] == n4;
    assert NewTallies(1, 2, 5) == [NewTally(2, 5)];
    assert {} + {1} == {1} && {1} + {2} == {1, 2} && {1, 2} + {3} == {1, 2, 3} && {1, 2, 3} + {4} == {1, 2, 3, 4};
    OneBallot(n0, NewTally(2, 5), 1, [(0, 2), (0, 3), (0, 4)]);
    OneBallot(n1, Tally(2, 3, {1}, 2, 0, false), 2, [(0, 3), (0, 4)]);
    OneBallot(n2, Tally(2, 3, {1, 2}, 2, 0, false), 3, [(0, 4)]);
    OneBallot(n3, Tally(2, 3, {1, 2, 3}, 2, 0, false), 4, []);
    assert BALLOT1 == [(0, 1)] + [(0, 2), (0, 3), (0, 4)];
    assert [(0, 2), (0, 3), (0, 4)] == [(0, 2)] + [(0, 3), (0, 4)];
    assert [(0, 3), (0, 4)] == [(0, 3)] + [(0, 4)];
    assert [(0, 4)] == [(0, 4)] + [];
    NoBallots(n4, [Tally(2, 3, {1, 2, 3, 4}, 2, 0, false)]);
  }

  lemma NoBallots(nodes: seq<Node>, tallies: seq<Tally>)
    ensures Vote(nodes, tallies, []) == (nodes, tallies)
  {
  }

  lemma Promote9()
    ensures Promote(Cut().(epochCounter := 2, nodes := Voted()), 1, 2, 2, 0)
         == Next(Epoch2(Member(false, 1, 0, [A, B, C], true, true), true, true))
  {
    hide FenceAt;
    Lists();
    var sim := Cut().(epochCounter := 2, nodes := Voted());
    PrefixCommon([A, B], [A, B, C]);
    assert FenceFor(sim.tier, sim.nodes[1], sim.canonical, 2) == 2;
    assert Synced(sim.nodes[1], sim.canonical, 2) == sim.nodes[1];
    assert sim.nodes[1 := sim.nodes[1]] == sim.nodes;
    Fence9();
  }

  /** The nodes after the fence: node 0 flagged, node 1 sealing epoch 2. */
  lemma Nodes9()
    ensures |Voted()| == 5
    ensures var flagged := Flagged(Voted(), 2);
            var leading := flagged[1].(thinksLeader := true, epoch := 2, needsRebuild := false);
            flagged[1 := leading][1 := Append(leading, SEAL)]
            == Epoch2(Member(false, 1, 0, [A, B, C], true, true), true, true).nodes
  {
    Lists();
    var flagged := Flagged(Voted(), 2);
    hide Flagged;
    assert flagged == Voted()[0 := Voted()[0].(needsRebuild := true)];
    var leading := flagged[1].(thinksLeader := true, epoch := 2, needsRebuild := false);
    assert flagged[1 := leading][1 := Append(leading, SEAL)]
           == Epoch2(Member(false, 1, 0, [A, B, C], true, true), true, true).nodes;
  }

  /** A fence that loses nothing, with its nodes worked out. */
  lemma FenceUnfolds(sim: Sim, winner: nat, epoch: nat, fence: nat, time: nat, seal: Entry, nodes: seq<Node>)
    requires winner < |sim.nodes| && fence <= |sim.canonical| && Above(sim.released, fence) == []
    requires seal == Entry(fence + 1, time, EpochChange(epoch, fence + 1)) && (fence + 1, epoch) !in sim.assignments
    requires var flagged := Flagged(sim.nodes, fence);
             var leading := flagged[winner].(thinksLeader := true, epoch := epoch, needsRebuild := false);
             nodes == flagged[winner := leading][winner := Append(leading, seal)]
    ensures FenceAt(sim, winner, epoch, fence, time)
            == Next(sim.(canonical := sim.canonical[..fence] + [seal], released := AtMost(sim.released, fence),
                         releaseCursor := Min(sim.releaseCursor, fence + 1), epoch := epoch, leader := Some(winner), nodes := nodes,
                         assignments := sim.assignments[(fence + 1, epoch) := seal]))
  {
    hide Flagged, Above, AtMost, Append;
    assert sim.lostReleased + [] == sim.lostReleased;
  }

  lemma Released9()
    ensures Above([1, 2], 2) == [] && AtMost([1, 2], 2) == [1, 2]
  {
    assert [1, 2][1..] == [2] && [2][1..] == [];
    assert Above([2], 2) == [] && AtMost([2], 2) == [2];
  }

  lemma Fence9()
    ensures FenceAt(Cut().(epochCounter := 2, nodes := Voted()), 1, 2, 2, 0)
         == Next(Epoch2(Member(false, 1, 0, [A, B, C], true, true), true, true))
  {
    hide Flagged, Voted, Above, AtMost, FenceAt, Append, Member, Five;
    Lists();
    Released9();
    Nodes9();
    var sim := Cut().(epochCounter := 2, nodes := Voted());
    FenceUnfolds(sim, 1, 2, 2, 0, SEAL, Epoch2(Member(false, 1, 0, [A, B, C], true, true), true, true).nodes);
  }

  lemma Step9()
    ensures OpOk(Cut(), Elect([1], BALLOT1, 0))
    ensures Step(Cut(), Elect([1], BALLOT1, 0)) == Next(Epoch2(Member(false, 1, 0, [A, B, C], true, true), true, true))
  {
    hide Vote, Promote;
    Ballots9();
    Promote9();
    assert |{1, 2, 3, 4}| == 4;
  }

  lemma Step10()
    ensures OpOk(Epoch2(Member(false, 1, 0, [A, B, C], true, true), true, true), PartitionOrHeal(0))
    ensures Step(Epoch2(Member(false, 1, 0, [A, B, C], true, true), true, true), PartitionOrHeal(0))
         == Next(Epoch2(Member(true, 1, 0, [A, B, C], true, true), true, true))
  {
  }

  /** The rebuild restarts from nothing. */
  lemma Step11()
    ensures OpOk(Epoch2(Member(true, 1, 0, [A, B, C], true, true), true, true), Deliver(0, 0))
    ensures Step(Epoch2(Member(true, 1, 0, [A, B, C], true, true), true, true), Deliver(0, 0))
         == Next(Epoch2(Member(true, 1, 0, [A], false, true), true, true))
  {
    Lists();
    var mid := Epoch2(Member(true, 1, 0, [A], false, true), true, true);
    WatersAre(mid, 1, 3, 2);
    var s := Epoch2(Member(true, 1, 0, [A, B, C], true, true), true, true);
    var d := DeliverTo(s, 0, 0);
    assert d.nodes == mid.nodes;
    assert InputSeqs(mid.canonical, mid.releaseCursor, Committed(mid)) == [];
  }

  lemma Step12()
    ensures OpOk(Epoch2(Member(true, 1, 0, [A], false, true), true, true), PartitionOrHeal(1))
    ensures Step(Epoch2(Member(true, 1, 0, [A], false, true), true, true), PartitionOrHeal(1))
         == Next(Epoch2(Member(true, 1, 0, [A], false, true), false, true))
  {
  }

  lemma Step13()
    ensures OpOk(Epoch2(Member(true, 1, 0, [A], false, true), false, true), PartitionOrHeal(2))
    ensures Step(Epoch2(Member(true, 1, 0, [A], false, true), false, true), PartitionOrHeal(2))
         == Next(Epoch2(Member(true, 1, 0, [A], false, true), false, false))
  {
  }

  const BALLOT2: seq<(nat, nat)> := [(0, 0), (0, 3), (0, 4)]

  /** Nodes 0, 3 and 4 after granting epoch 3. */
  function Voted3(): seq<Node> {
    Five(Member(true, 1, 3, [A], false, true), Member(false, 2, 2, [A, B, SEAL], false, true),
         Member(false, 1, 2, [A, B], false, false), Member(true, 1, 3, [], false, false), Member(true, 1, 3, [], false, false))
  }

  lemma Ballots14()
    ensures Vote(Epoch2(Member(true, 1, 0, [A], false, true), false, false).nodes, NewTallies(1, 3, 5), BALLOT2)
         == (Voted3(), [Tally(3, 3, {0, 3, 4}, 1, 0, false)])
  {
    hide Vote;
    var n0, n3 := Epoch2(Member(true, 1, 0, [A], false, true), false, false).nodes, Voted3();
    var n1 := n0[0 := n3[0]];
    var n2 := n1[3 := n3[3]];
    assert n2[4 := n3[4]] == n3;
    assert NewTallies(1, 3, 5) == [NewTally(3, 5)];
    assert {} + {0} == {0} && {0} + {3} == {0, 3} && {0, 3} + {4} == {0, 3, 4};
    OneBallot(n0, NewTally(3, 5), 0, [(0, 3), (0, 4)]);
    OneBallot(n1, Tally(3, 3, {0}, 1, 0, false), 3, [(0, 4)]);
    OneBallot(n2, Tally(3, 3, {0, 3}, 1, 0, false), 4, []);
    assert BALLOT2 == [(0, 0)] + [(0, 3), (0, 4)];
    assert [(0, 3), (0, 4)] == [(0, 3)] + [(0, 4)];
    assert [(0, 4)] == [(0, 4)] + [];
    NoBallots(n3, [Tally(3, 3, {0, 3, 4}, 1, 0, false)]);
  }

  lemma Promote14()
    ensures Promote(Epoch2(Member(true, 1, 0, [A], false, true), false, false).(epochCounter := 3, nodes := Voted3()), 3, 3, 1, 0)
         == Violated(CommittedLoss(2))
  {
    hide Flagged, Synced;
    assert Above([1, 2], 1) == [2];
  }

  /** Seq 2 was released in step 6; the fence at 1 discards it. */
  lemma Step14()
    ensures OpOk(Epoch2(Member(true, 1, 0, [A], false, true), false, false), Elect([3], BALLOT2, 0))
    ensures Step(Epoch2(Member(true, 1, 0, [A], false, true), false, false), Elect([3], BALLOT2, 0))
         == Violated(CommittedLoss(2))
  {
    hide Vote, Promote;
    Ballots14();
    Promote14();
    assert |{0, 3, 4}| == 3;
  }

  lemma Genesis()
    ensures NewSim(QuorumCommit, true, 5) == Epoch1([], [], [], [])
  {
    var s := NewSim(QuorumCommit, true, 5);
    assert s.nodes == Epoch1([], [], [], []).nodes;
  }

  const PART1: seq<Op> := [Submit([], 0), Submit([], 0), Deliver(1, 0), Deliver(2, 0), Deliver(1, 0), Deliver(2, 0), Submit([], 0)]

  const PART2: seq<Op> := [PartitionOrHeal(0), Elect([1], BALLOT1, 0), PartitionOrHeal(0), Deliver(0, 0),
                           PartitionOrHeal(1), PartitionOrHeal(2), Elect([3], BALLOT2, 0)]

  /** One step of a run, then the rest. */
  lemma RunAt(sim: Sim, ops: seq<Op>, k: nat, next: Sim)
    requires k < |ops|
    requires OpOk(sim, ops[k])
    requires Step(sim, ops[k]) == Next(next)
    requires IsRun(next, ops[k + 1..])
    ensures IsRun(sim, ops[k..])
    ensures RunOps(sim, ops[k..]) == RunOps(next, ops[k + 1..])
  {
    hide Step, OpOk;
    assert ops[k..][0] == ops[k];
    assert ops[k..][1..] == ops[k + 1..];
  }

  lemma RunLast(sim: Sim, op: Op)
    requires OpOk(sim, op)
    requires Step(sim, op).Violated?
    ensures IsRun(sim, [op])
    ensures RunOps(sim, [op]) == Step(sim, op)
  {
  }

  lemma SecondHalf()
    ensures IsRun(Epoch1([A, B, C], [A, B], [A, B], [1, 2]), PART2)
    ensures RunOps(Epoch1([A, B, C], [A, B], [A, B], [1, 2]), PART2) == Violated(CommittedLoss(2))
  {
    hide Step, OpOk, IsRun, RunOps, Epoch1, Epoch2, Cut, Member;
    var out, back := Member(false, 1, 0, [A, B, C], true, true), Member(true, 1, 0, [A, B, C], true, true);
    var reset := Member(true, 1, 0, [A], false, true);
    Step8();
    Step9();
    Step10();
    Step11();
    Step12();
    Step13();
    Step14();
    RunLast(Epoch2(reset, false, false), PART2[6]);
    assert PART2[6..] == [PART2[6]];
    RunAt(Epoch2(reset, false, true), PART2, 5, Epoch2(reset, false, false));
    RunAt(Epoch2(reset, true, true), PART2, 4, Epoch2(reset, false, true));
    RunAt(Epoch2(back, true, true), PART2, 3, Epoch2(reset, true, true));
    RunAt(Epoch2(out, true, true), PART2, 2, Epoch2(back, true, true));
    RunAt(Cut(), PART2, 1, Epoch2(out, true, true));
    RunAt(Epoch1([A, B, C], [A, B], [A, B], [1, 2]), PART2, 0, Cut());
    assert PART2[0..] == PART2;
  }

  /** With the code's own restart point, tier 2 does lose a released input:
      five nodes, fencing on, fourteen steps. */
  lemma RebuildFromScratchLoses()
    ensures IsRun(NewSim(QuorumCommit, true, 5), PART1 + PART2)
    ensures RunOps(NewSim(QuorumCommit, true, 5), PART1 + PART2) == Violated(CommittedLoss(2))
  {
    hide Step, OpOk, IsRun, RunOps, Epoch1, NewSim;
    var ops := PART1 + PART2;
    Genesis();
    Step1();
    Step2();
    Step3();
    Step4();
    Step5();
    Step6();
    Step7();
    SecondHalf();
    assert ops[7..] == PART2;
    RunAt(Epoch1([A, B], [A, B], [A, B], [1, 2]), ops, 6, Epoch1([A, B, C], [A, B], [A, B], [1, 2]));
    RunAt(Epoch1([A, B], [A, B], [A], [1]), ops, 5, Epoch1([A, B], [A, B], [A, B], [1, 2]));
    RunAt(Epoch1([A, B], [A], [A], [1]), ops, 4, Epoch1([A, B], [A, B], [A], [1]));
    RunAt(Epoch1([A, B], [A], [], []), ops, 3, Epoch1([A, B], [A], [A], [1]));
    RunAt(Epoch1([A, B], [], [], []), ops, 2, Epoch1([A, B], [A], [], []));
    RunAt(Epoch1([A], [], [], []), ops, 1, Epoch1([A, B], [], [], []));
    RunAt(Epoch1([], [], [], []), ops, 0, Epoch1([A], [], [], []));
    assert ops[0..] == ops;
  }

  lemma Lists()
    ensures [] + [A] == [A]
    ensures [A] + [B] == [A, B]
    ensures [A, B] + [C] == [A, B, C]
    ensures [A, B] + [SEAL] == [A, B, SEAL]
    ensures [A, B, SEAL][..0] == []
    ensures [A, B, C][..2] == [A, B]
  {
  }

  lemma PrefixCommon(a: seq<Entry>, c: seq<Entry>)
    requires a <= c
    ensures CommonPrefix(a, c) == |a|
  {
  }

  /** Followers 3 and 4 hold nothing: the watermark is the least of the other
      three prefixes. */
  lemma WatersAre(sim: Sim, a: nat, b: nat, c: nat)
    requires |sim.nodes| == 5
    requires sim.nodes[3].history == [] && sim.nodes[4].history == []
    requires CommonPrefix(sim.nodes[0].history, sim.canonical) == a
    requires CommonPrefix(sim.nodes[1].history, sim.canonical) == b
    requires CommonPrefix(sim.nodes[2].history, sim.canonical) == c
    ensures Committed(sim) == Min(a, Min(b, c))
  {
    var w := Waters(sim.nodes, sim.canonical);
    assert w == [a, b, c, 0, 0];
    var m := Min(a, Min(b, c));
    KthHighestIsGreatest(w, 3);
    Count5(a, b, c, 0, 0, m);
    Count5(a, b, c, 0, 0, m + 1);
    if Committed(sim) > m {
      Count5(a, b, c, 0, 0, Committed(sim));
    }
  }

  lemma Count5(a: nat, b: nat, c: nat, d: nat, e: nat, v: nat)
    ensures CountAtLeast([a, b, c, d, e], v) ==
      (if a >= v then 1 else 0) + (if b >= v then 1 else 0) + (if c >= v then 1 else 0)
      + (if d >= v then 1 else 0) + (if e >= v then 1 else 0)
  {
    CountCons(a, [b, c, d, e], v);
    CountCons(b, [c, d, e], v);
    CountCons(c, [d, e], v);
    CountCons(d, [e], v);
    CountCons(e, [], v);
    assert [a, b, c, d, e] == [a] + [b, c, d, e];
    assert [b, c, d, e] == [b] + [c, d, e];
    assert [c, d, e] == [c] + [d, e];
    assert [d, e] == [d] + [e];
    assert [e] == [e] + [];
  }

  lemma CountCons(x: nat, t: seq<nat>, v: nat)
    ensures CountAtLeast([x] + t, v) == (if x >= v then 1 else 0) + CountAtLeast(t, v)
  {
    assert ([x] + t)[1..] == t;
  }
}
