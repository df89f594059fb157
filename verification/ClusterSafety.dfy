/** Safety of the cluster over unbounded runs, for any number of nodes. */
module ClusterSafety {
  import opened Wrappers
  import opened Quorum
  import opened Election
  import opened Cluster

  // ----- the invariant -----

  ghost predicate Numbered(entries: seq<Entry>) {
    forall i :: 0 <= i < |entries| ==> entries[i].seqno == i + 1
  }

  /** A node vouches for exactly what it journaled, and an unflagged node
      holds a prefix of the canonical history. */
  ghost predicate NodeInv(node: Node, canonical: seq<Entry>) {
    && Numbered(node.history)
    && node.replicaSeq == |node.history|
    && node.acceptor.highWater == |node.history|
    && (!node.needsRebuild ==> node.history <= canonical)
  }

  ghost predicate LeaderInv(sim: Sim) {
    sim.leader.Some? ==>
      && sim.leader.value < |sim.nodes|
      && sim.nodes[sim.leader.value].history == sim.canonical
      && !sim.nodes[sim.leader.value].needsRebuild
  }

  /** The split-brain ledger: the current epoch's entries are the canonical
      ones, and no later epoch has assigned anything. */
  ghost predicate LedgerInv(sim: Sim) {
    && sim.epoch <= sim.epochCounter
    && forall key :: key in sim.assignments ==>
         && key.1 <= sim.epoch
         && (key.1 == sim.epoch ==> 1 <= key.0 <= |sim.canonical|)
  }

  ghost predicate ReleaseInv(sim: Sim) {
    && 1 <= sim.releaseCursor <= |sim.canonical| + 1
    && (forall i, j :: 0 <= i < j < |sim.released| ==> sim.released[i] < sim.released[j])
    && (forall i :: 0 <= i < |sim.released| ==> 1 <= sim.released[i] < sim.releaseCursor)
  }

  ghost predicate Base(sim: Sim) {
    && sim.fencing
    && |sim.nodes| > 0
    && Numbered(sim.canonical)
    && (forall i :: 0 <= i < |sim.nodes| ==> NodeInv(sim.nodes[i], sim.canonical))
    && LeaderInv(sim)
    && LedgerInv(sim)
    && ReleaseInv(sim)
  }

  /** The highest seq whose outputs clients have seen. */
  function Top(sim: Sim): nat {
    if sim.released == [] then 0 else sim.released[|sim.released| - 1]
  }

  /** The nodes whose journal does not reach `k`. */
  ghost function Short(nodes: seq<Node>, k: nat): set<nat> {
    set i: nat | i < |nodes| && |nodes[i].history| < k
  }

  /** No majority of voters is entirely short of a released seq. */
  ghost predicate Covered(sim: Sim) {
    |Short(sim.nodes, Top(sim))| < Majority(|sim.nodes|)
  }

  // ----- small facts -----

  ghost predicate Increasing(seqs: seq<nat>, low: nat, high: nat) {
    && (forall i :: 0 <= i < |seqs| ==> low <= seqs[i] <= high)
    && (forall i, j :: 0 <= i < j < |seqs| ==> seqs[i] < seqs[j])
  }

  lemma IncreasingCons(x: nat, t: seq<nat>, high: nat)
    requires x <= high
    requires Increasing(t, x + 1, high)
    ensures Increasing([x] + t, x, high)
    ensures Increasing(t, x, high)
  {
  }

  lemma {:induction false} InputSeqsIncrease(canonical: seq<Entry>, from: nat, upto: nat)
    requires 1 <= from
    ensures Increasing(InputSeqs(canonical, from, upto), from, upto)
    decreases upto + 1 - from
  {
    hide Increasing;
    if from <= upto {
      var t := InputSeqs(canonical, from + 1, upto);
      InputSeqsIncrease(canonical, from + 1, upto);
      IncreasingCons(from, t, upto);
      assert [] + t == t;
      assert InputSeqs(canonical, from, upto) == t || InputSeqs(canonical, from, upto) == [from] + t;
    } else {
      EmptyIncreases(from, upto);
    }
  }

  lemma EmptyIncreases(low: nat, high: nat)
    ensures Increasing([], low, high)
  {
  }

  /** A release hands out exactly the input seqs it passes. */
  lemma {:induction false} InputSeqsExact(canonical: seq<Entry>, from: nat, upto: nat, s: nat)
    requires 1 <= from
    ensures s in InputSeqs(canonical, from, upto) <==>
              from <= s <= upto && s <= |canonical| && canonical[s - 1].body.Input?
    decreases upto + 1 - from
  {
    if from <= upto {
      InputSeqsExact(canonical, from + 1, upto, s);
      var head := if from <= |canonical| && canonical[from - 1].body.Input? then [from] else [];
      assert InputSeqs(canonical, from, upto) == head + InputSeqs(canonical, from + 1, upto);
    }
  }

  lemma {:induction false} AllAbove(seqs: seq<nat>, limit: nat)
    requires forall i :: 0 <= i < |seqs| ==> seqs[i] > limit
    ensures AtMost(seqs, limit) == [] && Above(seqs, limit) == seqs
  {
    if seqs != [] {
      AllAbove(seqs[1..], limit);
    }
  }

  lemma {:induction false} NoneAbove(seqs: seq<nat>, limit: nat)
    requires forall i :: 0 <= i < |seqs| ==> seqs[i] <= limit
    ensures AtMost(seqs, limit) == seqs && Above(seqs, limit) == []
  {
    if seqs != [] {
      NoneAbove(seqs[1..], limit);
    }
  }

  /** A fence splits an increasing list of seqs in two. */
  lemma {:induction false} SplitAtLimit(seqs: seq<nat>, limit: nat)
    requires forall i, j :: 0 <= i < j < |seqs| ==> seqs[i] < seqs[j]
    ensures seqs == AtMost(seqs, limit) + Above(seqs, limit)
    ensures forall i :: 0 <= i < |AtMost(seqs, limit)| ==> AtMost(seqs, limit)[i] <= limit
  {
    if seqs != [] {
      if seqs[0] > limit {
        AllAbove(seqs, limit);
      } else {
        SplitAtLimit(seqs[1..], limit);
      }
    }
  }

  lemma ShortMonotone(nodes: seq<Node>, j: nat, k: nat)
    requires j <= k
    ensures |Short(nodes, j)| <= |Short(nodes, k)|
  {
    SubsetSmaller(Short(nodes, j), Short(nodes, k));
  }

  /** What the commit watermark certifies: fewer than a majority are short. */
  lemma CommittedCovers(sim: Sim)
    requires |sim.nodes| > 0
    ensures |Short(sim.nodes, Committed(sim))| < Majority(|sim.nodes|)
    ensures Committed(sim) <= |sim.canonical|
  {
    var n, w, k := |sim.nodes|, Waters(sim.nodes, sim.canonical), Majority(|sim.nodes|);
    var c := Committed(sim);
    KthHighestIsGreatest(w, k);
    KthHighestBounded(w, k, |sim.canonical|);
    CountIsCardinality(w, c);
    var holders, short := Reaching(w, c), Short(sim.nodes, c);
    assert holders !! short;
    assert holders + short <= Range(n);
    SubsetSmaller(holders + short, Range(n));
    assert |holders + short| == |holders| + |short|;
  }

  // ----- releasing outputs -----

  lemma ReleaseKeeps(sim: Sim)
    requires Base(sim)
    ensures Base(ReleaseOutputs(sim))
    ensures sim.tier.QuorumCommit? && Covered(sim) ==> Covered(ReleaseOutputs(sim))
  {
    hide InputSeqs, Committed, NodeInv, LeaderInv, LedgerInv, Covered;
    var upto, next := ReleaseLimit(sim), ReleaseOutputs(sim);
    CommittedCovers(sim);
    InputSeqsIncrease(sim.canonical, sim.releaseCursor, upto);
    ReleasedIncreases(sim, next, InputSeqs(sim.canonical, sim.releaseCursor, upto), upto);
    SameLeaderAndLedger(sim, next);
    if sim.tier.QuorumCommit? && Covered(sim) {
      ReleasedCovered(sim, next, InputSeqs(sim.canonical, sim.releaseCursor, upto), upto);
    }
  }

  lemma SameLeaderAndLedger(sim: Sim, next: Sim)
    requires LeaderInv(sim) && LedgerInv(sim)
    requires next == sim.(released := next.released, releaseCursor := next.releaseCursor)
    ensures LeaderInv(next) && LedgerInv(next)
  {
  }

  lemma ReleasedIncreases(sim: Sim, next: Sim, more: seq<nat>, upto: nat)
    requires ReleaseInv(sim)
    requires upto <= |sim.canonical|
    requires Increasing(more, sim.releaseCursor, upto)
    requires next == sim.(released := sim.released + more, releaseCursor := Max(sim.releaseCursor, upto + 1))
    ensures ReleaseInv(next)
  {
  }

  lemma ReleasedCovered(sim: Sim, next: Sim, more: seq<nat>, upto: nat)
    requires Covered(sim)
    requires |Short(sim.nodes, upto)| < Majority(|sim.nodes|)
    requires Increasing(more, sim.releaseCursor, upto)
    requires next.nodes == sim.nodes
    requires next.released == sim.released + more
    ensures Covered(next)
  {
    if more == [] {
      assert next.released == sim.released;
    } else {
      assert Top(next) == more[|more| - 1];
      ShortMonotone(sim.nodes, Top(next), upto);
    }
  }

  // ----- submit -----

  lemma SubmitKeeps(sim: Sim, payload: seq<int>, time: nat)
    requires Base(sim)
    ensures var r := SubmitStep(sim, payload, time);
            && r.Next?
            && Base(r.sim)
            && r.sim.tier == sim.tier && r.sim.lostReleased == sim.lostReleased
            && (sim.tier.QuorumCommit? && Covered(sim) ==> Covered(r.sim))
  {
    hide ReleaseOutputs;
    if sim.leader.Some? {
      var l := sim.leader.value;
      var entry := Entry(|sim.canonical| + 1, time, Input(payload));
      var s := RecordAssignment(sim, entry, sim.epoch);
      assert (entry.seqno, sim.epoch) !in sim.assignments;
      var t := s.sim.(canonical := sim.canonical + [entry], nodes := sim.nodes[l := Append(sim.nodes[l], entry)]);
      assert Base(t);
      GrownKeepsCovered(sim, t, l);
      ReleaseKeeps(t);
      ReleaseFrame(t);
    }
  }

  lemma ReleaseFrame(sim: Sim)
    requires |sim.nodes| > 0
    ensures ReleaseOutputs(sim).tier == sim.tier
    ensures ReleaseOutputs(sim).lostReleased == sim.lostReleased
    ensures ReleaseOutputs(sim).nodes == sim.nodes
    ensures ReleaseOutputs(sim).canonical == sim.canonical
  {
  }

  /** One journal got no shorter: coverage survives. */
  lemma GrownKeepsCovered(sim: Sim, next: Sim, i: nat)
    requires i < |sim.nodes| == |next.nodes|
    requires next.released == sim.released
    requires forall j :: 0 <= j < |sim.nodes| && j != i ==> |next.nodes[j].history| == |sim.nodes[j].history|
    requires |next.nodes[i].history| >= Min(|sim.nodes[i].history|, Top(sim))
    ensures Covered(sim) ==> Covered(next)
  {
    SubsetSmaller(Short(next.nodes, Top(next)), Short(sim.nodes, Top(sim)));
  }

  // ----- deliver and rebuild -----

  lemma DeliverToKeeps(sim: Sim, i: nat, upto: nat)
    requires Base(sim)
    requires i < |sim.nodes|
    requires upto <= |sim.canonical|
    requires sim.leader != Some(i)
    ensures var next := DeliverTo(sim, i, upto);
            && Base(next)
            && next.tier == sim.tier && next.lostReleased == sim.lostReleased && next.released == sim.released
            && |next.nodes| == |sim.nodes|
            && (forall j :: 0 <= j < |sim.nodes| && j != i ==> next.nodes[j] == sim.nodes[j])
            && next.nodes[i].history <= sim.canonical
            && |next.nodes[i].history| == Min(|Unflagged(sim, i, upto).history| + 1, |sim.canonical|)
            && !next.nodes[i].needsRebuild
  {
    hide AdoptedEpoch;
    var node := Unflagged(sim, i, upto);
    assert NodeInv(sim.nodes[i], sim.canonical);
    assert node.history <= sim.canonical;
    var next := DeliverTo(sim, i, upto);
    var len := |node.history|;
    if len < |sim.canonical| {
      assert next.nodes[i].history == sim.canonical[..len + 1];
    }
    assert NodeInv(next.nodes[i], next.canonical);
  }

  /** The exact condition under which delivering to a flagged node leaves no
      majority short: the rebuild (and the frame delivered right after it)
      reaches the highest released seq, or enough other nodes do. */
  ghost predicate RebuildSafe(sim: Sim, i: nat, upto: nat) {
    i < |sim.nodes| && sim.nodes[i].needsRebuild ==>
      |Short(sim.nodes, Top(sim)) - {i}| + (if upto + 1 < Top(sim) then 1 else 0) < Majority(|sim.nodes|)
  }

  /** The short nodes after a delivery to `i`. */
  lemma ShortAfterDeliver(sim: Sim, i: nat, upto: nat)
    requires Base(sim)
    requires i < |sim.nodes|
    requires upto <= |sim.canonical|
    requires sim.leader != Some(i)
    requires sim.nodes[i].needsRebuild
    ensures var next := DeliverTo(sim, i, upto);
            |Short(next.nodes, Top(sim))| == |Short(sim.nodes, Top(sim)) - {i}| + (if upto + 1 < Top(sim) then 1 else 0)
  {
    DeliverToKeeps(sim, i, upto);
    var next := DeliverTo(sim, i, upto);
    var others := Short(sim.nodes, Top(sim)) - {i};
    assert Top(sim) <= |sim.canonical|;
    assert Short(next.nodes, Top(sim)) == others + (if upto + 1 < Top(sim) then {i} else {});
  }

  lemma DeliverKeeps(sim: Sim, i: nat, upto: nat)
    requires Base(sim)
    requires i < |sim.nodes|
    requires upto <= |sim.canonical|
    ensures var r := DeliverStep(sim, i, upto);
            && r.Next?
            && Base(r.sim)
            && r.sim.tier == sim.tier && r.sim.lostReleased == sim.lostReleased
            && (sim.tier.QuorumCommit? && Covered(sim) && RebuildSafe(sim, i, upto) ==> Covered(r.sim))
  {
    hide DeliverTo, ReleaseOutputs, Covered, RebuildSafe, NodeInv, LeaderInv, LedgerInv, ReleaseInv, Unflagged;
    if Reachable(sim.nodes[i]) && sim.leader != Some(i) {
      var next := DeliverTo(sim, i, upto);
      DeliverToKeeps(sim, i, upto);
      if Covered(sim) && RebuildSafe(sim, i, upto) {
        DeliverCovered(sim, i, upto);
      }
      ReleaseKeeps(next);
      ReleaseFrame(next);
    }
  }

  lemma DeliverCovered(sim: Sim, i: nat, upto: nat)
    requires Base(sim)
    requires i < |sim.nodes|
    requires upto <= |sim.canonical|
    requires sim.leader != Some(i)
    requires Covered(sim) && RebuildSafe(sim, i, upto)
    ensures Covered(DeliverTo(sim, i, upto))
  {
    hide DeliverTo, NodeInv, LeaderInv, LedgerInv, ReleaseInv;
    var next := DeliverTo(sim, i, upto);
    DeliverToKeeps(sim, i, upto);
    if sim.nodes[i].needsRebuild {
      ShortAfterDeliver(sim, i, upto);
    } else {
      PrefixNoLonger(sim, i);
      GrownKeepsCovered(sim, next, i);
    }
  }

  lemma PrefixNoLonger(sim: Sim, i: nat)
    requires Base(sim)
    requires i < |sim.nodes|
    ensures !sim.nodes[i].needsRebuild ==> |sim.nodes[i].history| <= |sim.canonical|
  {
    assert NodeInv(sim.nodes[i], sim.canonical);
  }

  // ----- elections -----

  /** While one epoch's votes are collected: each tally's granters have
      promised that epoch, and no voter is counted by two tallies. */
  ghost predicate VoteInv(nodes: seq<Node>, tallies: seq<Tally>, target: nat) {
    && (forall e :: 0 <= e < |tallies| ==> TallyOk(nodes, tallies[e], target))
    && (forall d, e :: 0 <= d < e < |tallies| ==> tallies[d].granters !! tallies[e].granters)
  }

  ghost predicate TallyOk(nodes: seq<Node>, tally: Tally, target: nat) {
    && tally.epoch == target
    && tally.needed == Majority(|nodes|)
    && forall v :: v in tally.granters ==>
         && v < |nodes|
         && nodes[v].acceptor.promised >= target
         && nodes[v].acceptor.highWater <= tally.syncTo
  }

  /** Voting changes promises and nothing else. */
  ghost predicate SameJournals(a: seq<Node>, b: seq<Node>) {
    && |a| == |b|
    && forall i :: 0 <= i < |a| ==>
         b[i] == a[i].(acceptor := AcceptorState(b[i].acceptor.promised, a[i].acceptor.highWater))
  }

  lemma {:induction false} VoteKeeps(nodes: seq<Node>, tallies: seq<Tally>, order: seq<(nat, nat)>, target: nat)
    requires forall p :: p in order ==> p.0 < |tallies| && p.1 < |nodes|
    requires VoteInv(nodes, tallies, target)
    ensures var r := Vote(nodes, tallies, order);
            VoteInv(r.0, r.1, target) && SameJournals(nodes, r.0)
    decreases |order|
  {
    if order != [] {
      var (e, a) := order[0];
      if !Reachable(nodes[a]) {
        VoteKeeps(nodes, tallies, order[1..], target);
      } else {
        var reply := nodes[a].acceptor.Answer(target);
        var nodes' := nodes[a := nodes[a].(acceptor := nodes[a].acceptor.AfterVote(target))];
        var tallies' := tallies[e := tallies[e].After(a, reply)];
        OneVote(nodes, tallies, e, a, target);
        VoteKeeps(nodes', tallies', order[1..], target);
      }
    }
  }

  lemma OneVote(nodes: seq<Node>, tallies: seq<Tally>, e: nat, a: nat, target: nat)
    requires e < |tallies| && a < |nodes|
    requires VoteInv(nodes, tallies, target)
    ensures var nodes' := nodes[a := nodes[a].(acceptor := nodes[a].acceptor.AfterVote(target))];
            var tallies' := tallies[e := tallies[e].After(a, nodes[a].acceptor.Answer(target))];
            VoteInv(nodes', tallies', target) && SameJournals(nodes, nodes')
  {
    var nodes' := nodes[a := nodes[a].(acceptor := nodes[a].acceptor.AfterVote(target))];
    var tallies' := tallies[e := tallies[e].After(a, nodes[a].acceptor.Answer(target))];
    forall d | 0 <= d < |tallies|
      ensures TallyOk(nodes', tallies'[d], target)
    {
      assert TallyOk(nodes, tallies[d], target);
    }
    if target > nodes[a].acceptor.promised {
      forall d | 0 <= d < |tallies|
        ensures a !in tallies[d].granters
      {
        assert TallyOk(nodes, tallies[d], target);
      }
    }
  }

  /** At most one of two duelling candidates wins. */
  lemma OneWinner(nodes: seq<Node>, tallies: seq<Tally>, target: nat)
    requires VoteInv(nodes, tallies, target)
    requires |tallies| == 2
    ensures !(tallies[0].Outcome().Won? && tallies[1].Outcome().Won?)
  {
    var s, t := tallies[0], tallies[1];
    assert TallyOk(nodes, s, target) && TallyOk(nodes, t, target);
    if s.Outcome().Won? && t.Outcome().Won? {
      MajoritiesIntersect(s.granters, t.granters, |nodes|);
    }
  }

  // ----- promotion -----

  lemma PromoteKeeps(sim: Sim, w: nat, epoch: nat, syncTo: nat, time: nat)
    requires Base(sim)
    requires w < |sim.nodes|
    requires epoch == sim.epochCounter > sim.epoch
    requires sim.tier.QuorumCommit? ==>
               Covered(sim) && FenceFor(sim.tier, sim.nodes[w], sim.canonical, syncTo) >= Top(sim)
    ensures var r := Promote(sim, w, epoch, syncTo, time);
            && r.Next?
            && Base(r.sim)
            && r.sim.tier == sim.tier
            && (sim.tier.QuorumCommit? ==> Covered(r.sim) && r.sim.lostReleased == sim.lostReleased)
  {
    hide Promote, FenceFor, NodeInv, LedgerInv, ReleaseInv, Covered;
    PromoteHappens(sim, w, epoch, syncTo, time);
    PromotedNodes(sim, w, epoch, syncTo, time);
    PromotedRelease(sim, w, epoch, syncTo, time);
    var next := Promote(sim, w, epoch, syncTo, time).sim;
    assert Numbered(next.canonical);
    if sim.tier.QuorumCommit? {
      PromoteCovered(sim, w, next);
    }
  }

  /** Neither a second payload for the sealed seq nor (given the fence) a
      committed loss is reported. */
  lemma PromoteHappens(sim: Sim, w: nat, epoch: nat, syncTo: nat, time: nat)
    requires Base(sim)
    requires w < |sim.nodes|
    requires epoch > sim.epoch
    requires sim.tier.QuorumCommit? ==> FenceFor(sim.tier, sim.nodes[w], sim.canonical, syncTo) >= Top(sim)
    ensures var r := Promote(sim, w, epoch, syncTo, time);
            && r.Next?
            && r.sim.tier == sim.tier && r.sim.fencing == sim.fencing
            && (sim.tier.QuorumCommit? ==> r.sim.lostReleased == sim.lostReleased && r.sim.released == sim.released)
  {
    hide FenceFor, Synced, Flagged, AdoptedEpoch, NodeInv;
    var fence := FenceFor(sim.tier, sim.nodes[w], sim.canonical, syncTo);
    if sim.tier.QuorumCommit? {
      NoneAbove(sim.released, fence);
      assert sim.lostReleased + [] == sim.lostReleased;
    }
    assert (fence + 1, epoch) !in sim.assignments;
  }

  lemma PromoteCovered(sim: Sim, w: nat, next: Sim)
    requires Covered(sim)
    requires w < |sim.nodes| == |next.nodes|
    requires next.released == sim.released
    requires Top(sim) <= |next.nodes[w].history|
    requires forall i :: 0 <= i < |sim.nodes| && i != w ==> next.nodes[i].history == sim.nodes[i].history
    ensures Covered(next)
  {
    SubsetSmaller(Short(next.nodes, Top(sim)), Short(sim.nodes, Top(sim)));
  }

  lemma ReconciledIsPrefix(node: Node, canonical: seq<Entry>)
    requires NodeInv(node, canonical)
    ensures var r := Reconciled(node, canonical);
            && r.history == canonical[..CommonPrefix(node.history, canonical)]
            && r.replicaSeq == |r.history|
            && r.acceptor.highWater == |r.history|
  {
    hide AdoptedEpoch;
    assert node.history[..|node.history|] == node.history;
  }

  /** After reconciliation and state transfer the winner holds exactly the
      canonical history up to the fence. */
  lemma SyncedIsPrefix(sim: Sim, w: nat, syncTo: nat)
    requires Base(sim)
    requires w < |sim.nodes|
    ensures var fence := FenceFor(sim.tier, sim.nodes[w], sim.canonical, syncTo);
            var node := Synced(sim.nodes[w], sim.canonical, fence);
            && node.history == sim.canonical[..fence]
            && node.replicaSeq == fence
            && node.acceptor.highWater == fence
  {
    hide Reconciled, LeaderInv, LedgerInv, ReleaseInv;
    var fence := FenceFor(sim.tier, sim.nodes[w], sim.canonical, syncTo);
    assert NodeInv(sim.nodes[w], sim.canonical);
    ReconciledIsPrefix(sim.nodes[w], sim.canonical);
    var held := CommonPrefix(sim.nodes[w].history, sim.canonical);
    assert sim.canonical[..held] + sim.canonical[held..fence] == sim.canonical[..fence];
  }

  lemma PromotedNodes(sim: Sim, w: nat, epoch: nat, syncTo: nat, time: nat)
    requires Base(sim)
    requires w < |sim.nodes|
    requires Promote(sim, w, epoch, syncTo, time).Next?
    ensures var next := Promote(sim, w, epoch, syncTo, time).sim;
            var fence := FenceFor(sim.tier, sim.nodes[w], sim.canonical, syncTo);
            && |next.nodes| == |sim.nodes|
            && next.leader == Some(w)
            && next.canonical == sim.canonical[..fence] + [Entry(fence + 1, time, EpochChange(epoch, fence + 1))]
            && next.nodes[w].history == next.canonical
            && !next.nodes[w].needsRebuild
            && (forall i :: 0 <= i < |sim.nodes| ==> NodeInv(next.nodes[i], next.canonical))
            && (forall i :: 0 <= i < |sim.nodes| && i != w ==> next.nodes[i].history == sim.nodes[i].history)
  {
    hide FenceFor, Synced, AtMost, Above;
    var fence := FenceFor(sim.tier, sim.nodes[w], sim.canonical, syncTo);
    var synced := Synced(sim.nodes[w], sim.canonical, fence);
    SyncedIsPrefix(sim, w, syncTo);
    var next := Promote(sim, w, epoch, syncTo, time).sim;
    var flagged := Flagged(sim.nodes[w := synced], fence);
    forall i | 0 <= i < |sim.nodes|
      ensures NodeInv(next.nodes[i], next.canonical)
      ensures i != w ==> next.nodes[i].history == sim.nodes[i].history
    {
      assert NodeInv(sim.nodes[i], sim.canonical);
      if i != w {
        assert next.nodes[i] == flagged[i];
        FlaggedNodeInv(sim.nodes[i], sim.canonical, fence, next.canonical[fence]);
      }
    }
  }

  /** Flagging at a fence keeps what a node promises about its history. */
  lemma FlaggedNodeInv(node: Node, canonical: seq<Entry>, fence: nat, seal: Entry)
    requires NodeInv(node, canonical)
    requires fence <= |canonical|
    ensures var n := if |node.history| > fence then node.(needsRebuild := true) else node;
            NodeInv(n, canonical[..fence] + [seal])
  {
    if !node.needsRebuild && |node.history| <= fence {
      assert node.history <= canonical[..fence];
    }
  }

  lemma PromotedRelease(sim: Sim, w: nat, epoch: nat, syncTo: nat, time: nat)
    requires Base(sim)
    requires w < |sim.nodes|
    requires Promote(sim, w, epoch, syncTo, time).Next?
    requires epoch == sim.epochCounter > sim.epoch
    ensures var next := Promote(sim, w, epoch, syncTo, time).sim;
            ReleaseInv(next) && LedgerInv(next)
  {
    hide AdoptedEpoch, Flagged, Synced, FenceFor, AtMost, Above;
    var fence := FenceFor(sim.tier, sim.nodes[w], sim.canonical, syncTo);
    SplitAtLimit(sim.released, fence);
    var kept := AtMost(sim.released, fence);
    assert forall i :: 0 <= i < |kept| ==> kept[i] == sim.released[i];
  }

  /** The fence of any quorum's winner reaches every released seq. */
  lemma FenceCovers(sim: Sim, nodes: seq<Node>, tally: Tally, w: nat, target: nat)
    requires Base(sim)
    requires sim.tier.QuorumCommit? && Covered(sim)
    requires SameJournals(sim.nodes, nodes)
    requires TallyOk(nodes, tally, target)
    requires |tally.granters| >= tally.needed
    requires w < |nodes|
    ensures FenceFor(sim.tier, nodes[w], sim.canonical, tally.syncTo) >= Top(sim)
  {
    hide Reconciled;
    MajorityEscapes(tally.granters, Short(sim.nodes, Top(sim)), |nodes|);
    var g: nat :| g in tally.granters && g !in Short(sim.nodes, Top(sim));
    assert NodeInv(sim.nodes[g], sim.canonical);
  }

  lemma ElectKeeps(sim: Sim, candidates: seq<nat>, order: seq<(nat, nat)>, time: nat)
    requires Base(sim)
    requires ElectOk(sim, candidates, order)
    requires sim.tier.QuorumCommit? ==> Covered(sim)
    ensures var r := ElectStep(sim, candidates, order, time);
            && r.Next?
            && Base(r.sim)
            && r.sim.tier == sim.tier
            && (sim.tier.QuorumCommit? ==> Covered(r.sim) && r.sim.lostReleased == sim.lostReleased)
  {
    hide Vote, Promote, CommonPrefix, Reconciled;
    var target := sim.epochCounter + 1;
    var start := NewTallies(|candidates|, target, |sim.nodes|);
    assert VoteInv(sim.nodes, start, target);
    VoteKeeps(sim.nodes, start, order, target);
    var (nodes, tallies) := Vote(sim.nodes, start, order);
    var voted := sim.(epochCounter := target, nodes := nodes);
    VotedKeeps(sim, nodes, target);
    if |tallies| == 2 {
      OneWinner(nodes, tallies, target);
    }
    if |tallies| > 0 && tallies[0].Outcome().Won? {
      Elected(sim, voted, tallies[0], candidates[0], target, time);
    } else if |tallies| > 1 && tallies[1].Outcome().Won? {
      Elected(sim, voted, tallies[1], candidates[1], target, time);
    }
  }

  lemma VotedKeeps(sim: Sim, nodes: seq<Node>, target: nat)
    requires Base(sim)
    requires SameJournals(sim.nodes, nodes)
    requires target == sim.epochCounter + 1
    ensures Base(sim.(epochCounter := target, nodes := nodes))
    ensures Covered(sim) ==> Covered(sim.(epochCounter := target, nodes := nodes))
  {
    var voted := sim.(epochCounter := target, nodes := nodes);
    forall i | 0 <= i < |nodes|
      ensures NodeInv(nodes[i], sim.canonical)
    {
      assert NodeInv(sim.nodes[i], sim.canonical);
    }
    assert Short(nodes, Top(sim)) == Short(sim.nodes, Top(sim));
  }

  lemma Elected(sim: Sim, voted: Sim, tally: Tally, w: nat, target: nat, time: nat)
    requires Base(sim) && Base(voted)
    requires SameJournals(sim.nodes, voted.nodes)
    requires voted == sim.(epochCounter := target, nodes := voted.nodes)
    requires target == sim.epochCounter + 1
    requires TallyOk(voted.nodes, tally, target)
    requires |tally.granters| >= tally.needed
    requires w < |voted.nodes|
    requires sim.tier.QuorumCommit? ==> Covered(sim) && Covered(voted)
    ensures var r := Promote(voted, w, target, tally.syncTo, time);
            && r.Next?
            && Base(r.sim)
            && r.sim.tier == sim.tier
            && (sim.tier.QuorumCommit? ==> Covered(r.sim) && r.sim.lostReleased == sim.lostReleased)
  {
    hide Promote, CommonPrefix, Reconciled;
    if sim.tier.QuorumCommit? {
      FenceCovers(sim, voted.nodes, tally, w, target);
    }
    PromoteKeeps(voted, w, target, tally.syncTo, time);
  }

  // ----- kill and partition -----

  lemma FaultKeeps(sim: Sim, op: Op)
    requires Base(sim)
    requires OpOk(sim, op)
    requires op.KillLeader? || op.PartitionOrHeal?
    ensures var r := Step(sim, op);
            && r.Next?
            && Base(r.sim)
            && r.sim.tier == sim.tier && r.sim.lostReleased == sim.lostReleased
            && (Covered(sim) ==> Covered(r.sim))
  {
    var next := Step(sim, op).sim;
    forall i | 0 <= i < |sim.nodes|
      ensures NodeInv(next.nodes[i], next.canonical)
    {
      assert NodeInv(sim.nodes[i], sim.canonical);
    }
    assert Short(next.nodes, Top(next)) == Short(sim.nodes, Top(sim));
  }

  // ----- runs -----

  lemma NewSimSafe(tier: Tier, voters: nat)
    requires voters > 0
    ensures Base(NewSim(tier, true, voters))
    ensures Covered(NewSim(tier, true, voters))
  {
    var sim := NewSim(tier, true, voters);
    assert Short(sim.nodes, 0) == {};
  }

  ghost predicate OpSafe(sim: Sim, op: Op) {
    op.Deliver? ==> RebuildSafe(sim, op.node, op.upto)
  }

  lemma StepKeeps(sim: Sim, op: Op)
    requires Base(sim)
    requires OpOk(sim, op)
    requires sim.tier.QuorumCommit? ==> Covered(sim) && OpSafe(sim, op)
    ensures var r := Step(sim, op);
            && r.Next?
            && Base(r.sim)
            && r.sim.tier == sim.tier
            && (sim.tier.QuorumCommit? ==> Covered(r.sim) && r.sim.lostReleased == sim.lostReleased)
  {
    hide SubmitStep, DeliverStep, ElectStep, KillLeaderStep, PartitionStep, Base, Covered;
    match op {
      case Submit(payload, time) => SubmitKeeps(sim, payload, time);
      case Deliver(i, upto) => DeliverKeeps(sim, i, upto);
      case KillLeader => FaultKeeps(sim, op);
      case PartitionOrHeal(i) => FaultKeeps(sim, op);
      case Elect(candidates, order, time) => ElectKeeps(sim, candidates, order, time);
    }
  }

  /** Every rebuild of a run reaches what has been released, or enough other
      nodes do. */
  ghost predicate RebuildsSafe(sim: Sim, ops: seq<Op>)
    requires IsRun(sim, ops)
    decreases |ops|
  {
    ops == [] ||
    (OpSafe(sim, ops[0]) && (Step(sim, ops[0]).Next? ==> RebuildsSafe(Step(sim, ops[0]).sim, ops[1..])))
  }

  lemma {:induction false} RunKeeps(sim: Sim, ops: seq<Op>)
    requires Base(sim)
    requires IsRun(sim, ops)
    requires sim.tier.QuorumCommit? ==> Covered(sim) && RebuildsSafe(sim, ops)
    ensures var r := RunOps(sim, ops);
            && r.Next?
            && Base(r.sim)
            && (sim.tier.QuorumCommit? ==> Covered(r.sim) && r.sim.lostReleased == sim.lostReleased)
    decreases |ops|
  {
    hide Step, Base, Covered, OpOk, OpSafe;
    if ops != [] {
      StepKeeps(sim, ops[0]);
      RunKeeps(Step(sim, ops[0]).sim, ops[1..]);
    }
  }

  /** Main theorem. From genesis, for any number of nodes and any schedule of
      submits, deliveries, kills, partitions, duels and elections, with
      fencing on: no violation is ever reported, every unflagged node holds a
      prefix of the canonical history, and at tier 2 nothing released is ever
      lost. */
  lemma NoCommittedLoss(tier: Tier, voters: nat, ops: seq<Op>)
    requires voters > 0
    requires IsRun(NewSim(tier, true, voters), ops)
    requires tier.QuorumCommit? ==> RebuildsSafe(NewSim(tier, true, voters), ops)
    ensures var r := RunOps(NewSim(tier, true, voters), ops);
            && r.Next?
            && (forall i :: 0 <= i < |r.sim.nodes| && !r.sim.nodes[i].needsRebuild ==>
                  r.sim.nodes[i].history <= r.sim.canonical)
            && (forall i :: 0 <= i < |r.sim.released| ==> r.sim.released[i] <= |r.sim.canonical|)
            && (tier.QuorumCommit? ==> r.sim.lostReleased == [] && Covered(r.sim))
  {
    hide NewSim, Covered;
    var sim := NewSim(tier, true, voters);
    NewSimSafe(tier, voters);
    NewSimTier(tier, voters);
    RunKeeps(sim, ops);
    var r := RunOps(sim, ops);
    assert forall i :: 0 <= i < |r.sim.nodes| ==> NodeInv(r.sim.nodes[i], r.sim.canonical);
  }

  /** The rebuild reaches everything the node had vouched for. */
  ghost predicate Reaches(sim: Sim, op: Op) {
    op.Deliver? && op.node < |sim.nodes| && sim.nodes[op.node].needsRebuild ==>
      op.upto + 1 >= sim.nodes[op.node].acceptor.highWater
  }

  lemma ReachingIsSafe(sim: Sim, op: Op)
    requires Base(sim) && Covered(sim) && Reaches(sim, op)
    ensures OpSafe(sim, op)
  {
    hide LeaderInv, LedgerInv, ReleaseInv;
    if op.Deliver? && op.node < |sim.nodes| && sim.nodes[op.node].needsRebuild {
      var i := op.node;
      var short := Short(sim.nodes, Top(sim));
      assert NodeInv(sim.nodes[i], sim.canonical);
      if i in short {
        assert |short - {i}| == |short| - 1;
      } else {
        assert short - {i} == short;
      }
    }
  }

  ghost predicate RebuildsReach(sim: Sim, ops: seq<Op>)
    requires IsRun(sim, ops)
    decreases |ops|
  {
    ops == [] ||
    (Reaches(sim, ops[0]) && (Step(sim, ops[0]).Next? ==> RebuildsReach(Step(sim, ops[0]).sim, ops[1..])))
  }

  lemma {:induction false} ReachingRunIsSafe(sim: Sim, ops: seq<Op>)
    requires Base(sim) && sim.tier.QuorumCommit? && Covered(sim)
    requires IsRun(sim, ops) && RebuildsReach(sim, ops)
    ensures RebuildsSafe(sim, ops)
    decreases |ops|
  {
    hide Step, Base, Covered, OpOk, OpSafe, Reaches;
    if ops != [] {
      ReachingIsSafe(sim, ops[0]);
      StepKeeps(sim, ops[0]);
      ReachingRunIsSafe(Step(sim, ops[0]).sim, ops[1..]);
    }
  }

  /** It is enough that every rebuild reaches what its node had vouched for. */
  lemma NoLossIfRebuildsReach(voters: nat, ops: seq<Op>)
    requires voters > 0
    requires IsRun(NewSim(QuorumCommit, true, voters), ops) && RebuildsReach(NewSim(QuorumCommit, true, voters), ops)
    ensures var r := RunOps(NewSim(QuorumCommit, true, voters), ops); r.Next? && r.sim.lostReleased == []
  {
    hide NewSim, Covered, Base;
    NewSimSafe(QuorumCommit, voters);
    NewSimTier(QuorumCommit, voters);
    ReachingRunIsSafe(NewSim(QuorumCommit, true, voters), ops);
    NoCommittedLoss(QuorumCommit, voters, ops);
  }

  lemma NewSimTier(tier: Tier, voters: nat)
    requires voters > 0
    ensures NewSim(tier, true, voters).tier == tier
    ensures NewSim(tier, true, voters).lostReleased == []
  {
  }

  // ----- the rebuild condition is exact -----

  /** `syncTo` is the highest high-water among these granters. */
  ghost predicate IsSyncTo(nodes: seq<Node>, granters: set<nat>, syncTo: nat) {
    && (forall g :: g in granters ==> g < |nodes| && nodes[g].acceptor.highWater <= syncTo)
    && (syncTo == 0 || exists g :: g in granters && g < |nodes| && nodes[g].acceptor.highWater == syncTo)
  }

  /** Whatever majority grants and whoever wins, the fence keeps `k`. */
  ghost predicate EveryFenceKeeps(sim: Sim, k: nat) {
    forall granters: set<nat>, w: nat, syncTo: nat ::
      |granters| >= Majority(|sim.nodes|) && w < |sim.nodes| && IsSyncTo(sim.nodes, granters, syncTo)
      ==> FenceFor(sim.tier, sim.nodes[w], sim.canonical, syncTo) >= k
  }

  lemma {:induction false} SyncToExists(nodes: seq<Node>, granters: set<nat>) returns (syncTo: nat)
    requires forall g :: g in granters ==> g < |nodes|
    ensures IsSyncTo(nodes, granters, syncTo)
    decreases granters
  {
    if granters == {} {
      syncTo := 0;
    } else {
      var g: nat :| g in granters;
      var rest := SyncToExists(nodes, granters - {g});
      syncTo := Max(rest, nodes[g].acceptor.highWater);
    }
  }

  /** In a sound state, no election can fence below a released seq exactly
      when no majority is short of it. */
  lemma CoverageIsExact(sim: Sim)
    requires Base(sim)
    requires sim.tier.QuorumCommit?
    ensures EveryFenceKeeps(sim, Top(sim)) <==> Covered(sim)
  {
    hide NodeInv, LeaderInv, LedgerInv;
    var k, short := Top(sim), Short(sim.nodes, Top(sim));
    if Covered(sim) {
      forall granters: set<nat>, w: nat, syncTo: nat
        | |granters| >= Majority(|sim.nodes|) && w < |sim.nodes| && IsSyncTo(sim.nodes, granters, syncTo)
        ensures FenceFor(sim.tier, sim.nodes[w], sim.canonical, syncTo) >= k
      {
        MajorityEscapes(granters, short, |sim.nodes|);
        var g: nat :| g in granters && g !in short;
        HighWaterIsLength(sim, g);
      }
    } else {
      var syncTo := SyncToExists(sim.nodes, short);
      ShortFence(sim, short, syncTo);
    }
  }

  lemma HighWaterIsLength(sim: Sim, i: nat)
    requires Base(sim)
    requires i < |sim.nodes|
    ensures sim.nodes[i].acceptor.highWater == |sim.nodes[i].history|
  {
    assert NodeInv(sim.nodes[i], sim.canonical);
  }

  /** A majority of short nodes electing one of themselves fences too low. */
  lemma ShortFence(sim: Sim, short: set<nat>, syncTo: nat)
    requires Base(sim)
    requires sim.tier.QuorumCommit?
    requires short == Short(sim.nodes, Top(sim))
    requires |short| >= Majority(|sim.nodes|)
    requires IsSyncTo(sim.nodes, short, syncTo)
    ensures !EveryFenceKeeps(sim, Top(sim))
  {
    hide NodeInv, LeaderInv, LedgerInv;
    var w: nat :| w in short;
    if syncTo > 0 {
      var g :| g in short && g < |sim.nodes| && sim.nodes[g].acceptor.highWater == syncTo;
      HighWaterIsLength(sim, g);
    }
    assert FenceFor(sim.tier, sim.nodes[w], sim.canonical, syncTo) < Top(sim);
  }

  /** The exact condition on a rebuild. Delivering to a flagged node leaves
      every future fence above the released seqs if and only if the rebuild
      condition, which the caller can check beforehand, holds. */
  lemma RebuildConditionIsExact(sim: Sim, i: nat, upto: nat)
    requires Base(sim)
    requires sim.tier.QuorumCommit?
    requires i < |sim.nodes| && sim.nodes[i].needsRebuild
    requires upto <= |sim.canonical|
    requires sim.leader != Some(i)
    ensures EveryFenceKeeps(DeliverTo(sim, i, upto), Top(sim)) <==> RebuildSafe(sim, i, upto)
  {
    hide DeliverTo, NodeInv, LeaderInv, LedgerInv, EveryFenceKeeps;
    var next := DeliverTo(sim, i, upto);
    DeliverToKeeps(sim, i, upto);
    ShortAfterDeliver(sim, i, upto);
    CoverageIsExact(next);
  }

  // ----- tier 1: what a failover loses -----

  /** A tier 1 failover loses exactly the released seqs past the longest
      canonical prefix the winner holds, and accounts for each of them. */
  lemma AsyncLossIsTheTail(sim: Sim, w: nat, epoch: nat, syncTo: nat, time: nat)
    requires Base(sim)
    requires sim.tier.AsyncStandby?
    requires w < |sim.nodes|
    requires epoch == sim.epochCounter > sim.epoch
    ensures var r := Promote(sim, w, epoch, syncTo, time);
            var held := CommonPrefix(sim.nodes[w].history, sim.canonical);
            && r.Next?
            && r.sim.canonical[..held] == sim.canonical[..held]
            && |r.sim.canonical| == held + 1
            && sim.released == r.sim.released + r.sim.lostReleased[|sim.lostReleased|..]
            && (forall i :: 0 <= i < |r.sim.released| ==> r.sim.released[i] <= held)
            && (forall i :: |sim.lostReleased| <= i < |r.sim.lostReleased| ==> r.sim.lostReleased[i] > held)
  {
    hide AdoptedEpoch, Synced, Flagged, NodeInv, LeaderInv;
    var held := CommonPrefix(sim.nodes[w].history, sim.canonical);
    assert FenceFor(sim.tier, sim.nodes[w], sim.canonical, syncTo) == held;
    PromoteHappens(sim, w, epoch, syncTo, time);
    SplitAtLimit(sim.released, held);
    AboveIsAbove(sim.released, held);
  }

  lemma {:induction false} AboveIsAbove(seqs: seq<nat>, limit: nat)
    ensures forall i :: 0 <= i < |Above(seqs, limit)| ==> Above(seqs, limit)[i] > limit
  {
    if seqs != [] {
      AboveIsAbove(seqs[1..], limit);
    }
  }

  // ----- convergence -----

  function DeliverTimes(sim: Sim, i: nat, upto: nat, n: nat): (r: Sim)
    requires i < |sim.nodes|
    requires upto <= |sim.canonical|
    ensures |r.nodes| == |sim.nodes|
    decreases n
  {
    if n == 0 then sim else DeliverTimes(DeliverTo(sim, i, upto), i, upto, n - 1)
  }

  /** Enough deliveries bring any follower, flagged or not, to exactly the
      canonical history. */
  lemma {:induction false} Converges(sim: Sim, i: nat, upto: nat, n: nat)
    requires Base(sim)
    requires i < |sim.nodes|
    requires upto <= |sim.canonical|
    requires sim.leader != Some(i)
    requires n > |sim.canonical|
          || (!sim.nodes[i].needsRebuild && |sim.nodes[i].history| + n >= |sim.canonical|)
    ensures DeliverTimes(sim, i, upto, n).nodes[i].history == sim.canonical
    decreases n
  {
    hide DeliverTo, LeaderInv, LedgerInv, ReleaseInv;
    assert NodeInv(sim.nodes[i], sim.canonical);
    if n > 0 {
      var next := DeliverTo(sim, i, upto);
      DeliverToKeeps(sim, i, upto);
      DeliverFrame(sim, i, upto);
      Converges(next, i, upto, n - 1);
    }
  }

  lemma DeliverFrame(sim: Sim, i: nat, upto: nat)
    requires i < |sim.nodes|
    requires upto <= |sim.canonical|
    ensures DeliverTo(sim, i, upto).canonical == sim.canonical
    ensures DeliverTo(sim, i, upto).leader == sim.leader
    ensures |DeliverTo(sim, i, upto).nodes| == |sim.nodes|
    ensures !sim.nodes[i].needsRebuild ==> |Unflagged(sim, i, upto).history| == |sim.nodes[i].history|
  {
  }
}
