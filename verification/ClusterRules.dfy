/** What the cluster's history holds, stated from the operations alone: every
    slot carries the submission that took it or the fence that sealed an epoch,
    and exactly the inputs within the release limit are released. */
module ClusterRules {
  import opened Wrappers
  import opened Quorum
  import opened Election
  import opened Cluster
  import opened ClusterSafety

  /** What took a seq. */
  datatype Claim = Sent(payload: seq<int>, time: nat) | Sealed(epoch: nat, time: nat)

  function EntryOf(claim: Claim, seqno: nat): Entry {
    match claim
    case Sent(payload, time) => Entry(seqno, time, Input(payload))
    case Sealed(epoch, time) => Entry(seqno, time, EpochChange(epoch, seqno))
  }

  /** The account of a run, kept beside it: a submission that finds a leader
      claims the next seq; a promotion strikes what its fence cuts off and
      claims the seq after the fence. */
  ghost function Accounted(claims: seq<Claim>, sim: Sim, op: Op): seq<Claim>
    requires OpOk(sim, op)
  {
    match op
    case Submit(payload, time) => if sim.leader.Some? then claims + [Sent(payload, time)] else claims
    case Elect(_, _, time) =>
      var r := Step(sim, op);
      if r.Next? && r.sim.epoch != sim.epoch && 1 <= |r.sim.canonical| <= |claims| + 1
      then claims[..|r.sim.canonical| - 1] + [Sealed(r.sim.epoch, time)]
      else claims
    case _ => claims
  }

  ghost function AccountAll(claims: seq<Claim>, sim: Sim, ops: seq<Op>): seq<Claim>
    requires IsRun(sim, ops)
    decreases |ops|
  {
    if ops == [] then claims
    else
      match Step(sim, ops[0])
      case Violated(_) => claims
      case Next(s) => AccountAll(Accounted(claims, sim, ops[0]), s, ops[1..])
  }

  /** The canonical history is what the account says, slot by slot. */
  ghost predicate Agrees(claims: seq<Claim>, canonical: seq<Entry>) {
    |claims| == |canonical| && forall i :: 0 <= i < |claims| ==> canonical[i] == EntryOf(claims[i], i + 1)
  }

  /** Released so far: exactly the inputs below the cursor. */
  ghost predicate ReleasedExactly(sim: Sim) {
    && 1 <= sim.releaseCursor <= |sim.canonical| + 1
    && forall s :: s in sim.released <==> 1 <= s < sim.releaseCursor && sim.canonical[s - 1].body.Input?
  }

  // ----- what each step does to the history -----

  lemma PromoteCuts(sim: Sim, w: nat, epoch: nat, syncTo: nat, time: nat) returns (fence: nat)
    requires w < |sim.nodes| && Promote(sim, w, epoch, syncTo, time).Next?
    ensures var r := Promote(sim, w, epoch, syncTo, time).sim;
            && fence <= |sim.canonical|
            && r.canonical == sim.canonical[..fence] + [Entry(fence + 1, time, EpochChange(epoch, fence + 1))]
            && r.epoch == epoch && r.leader == Some(w)
            && r.released == AtMost(sim.released, fence)
            && r.releaseCursor == Min(sim.releaseCursor, fence + 1)
  {
    hide Synced, Flagged, Above, AtMost, FenceFor;
    fence := FenceFor(sim.tier, sim.nodes[w], sim.canonical, syncTo);
  }

  /** A fence flags exactly the nodes that had gone past it, besides those already
      flagged, and never the winner. */
  lemma FenceFlags(sim: Sim, w: nat, epoch: nat, syncTo: nat, time: nat, i: nat)
    requires w < |sim.nodes| && i < |sim.nodes| && Promote(sim, w, epoch, syncTo, time).Next?
    ensures var r := Promote(sim, w, epoch, syncTo, time).sim;
            var fence: int := |r.canonical| - 1;
            && |r.nodes| == |sim.nodes| && !r.nodes[w].needsRebuild
            && (i != w ==>
                  && (r.nodes[i].needsRebuild <==> sim.nodes[i].needsRebuild || |sim.nodes[i].history| > fence)
                  && r.nodes[i].history == sim.nodes[i].history)
  {
    hide Synced, Above, AtMost, FenceFor;
    var fence := PromoteCuts(sim, w, epoch, syncTo, time);
  }

  lemma {:induction false} AtMostKeeps(seqs: seq<nat>, limit: nat, s: nat)
    ensures s in AtMost(seqs, limit) <==> s in seqs && s <= limit
  {
    if seqs != [] {
      AtMostKeeps(seqs[1..], limit, s);
      assert seqs == [seqs[0]] + seqs[1..];
    }
  }

  lemma {:induction false} InputSeqsAre(canonical: seq<Entry>, from: nat, upto: nat, s: nat)
    ensures s in InputSeqs(canonical, from, upto)
            <==> from <= s <= upto && 1 <= s <= |canonical| && canonical[s - 1].body.Input?
    decreases upto + 1 - from
  {
    if from <= upto {
      InputSeqsAre(canonical, from + 1, upto, s);
    }
  }

  /** Releasing moves the cursor past the limit and releases exactly the inputs
      it passes. */
  lemma ReleaseExact(sim: Sim)
    requires |sim.nodes| > 0 && ReleasedExactly(sim) && ReleaseLimit(sim) <= |sim.canonical|
    ensures ReleasedExactly(ReleaseOutputs(sim))
    ensures forall s :: 1 <= s <= ReleaseLimit(sim) && sim.canonical[s - 1].body.Input? ==> s in ReleaseOutputs(sim).released
  {
    hide ReleaseLimit, InputSeqs;
    var upto := ReleaseLimit(sim);
    forall s
      ensures s in InputSeqs(sim.canonical, sim.releaseCursor, upto)
              <==> sim.releaseCursor <= s <= upto && 1 <= s <= |sim.canonical| && sim.canonical[s - 1].body.Input?
    {
      if s >= 0 {
        InputSeqsAre(sim.canonical, sim.releaseCursor, upto, s);
      }
    }
  }

  lemma LimitInside(sim: Sim)
    requires |sim.nodes| > 0
    ensures ReleaseLimit(sim) <= |sim.canonical|
  {
    hide Committed;
    CommittedCovers(sim);
  }

  /** The nodes whose journal agrees with the canonical history up to `k`. */
  ghost function Holding(sim: Sim, k: nat): set<nat> {
    set i: nat | i < |sim.nodes| && k <= |sim.nodes[i].history| && k <= |sim.canonical| && sim.nodes[i].history[..k] == sim.canonical[..k]
  }

  lemma PrefixIff(a: seq<Entry>, b: seq<Entry>, k: nat)
    ensures k <= CommonPrefix(a, b) <==> k <= |a| && k <= |b| && a[..k] == b[..k]
  {
    var n := CommonPrefix(a, b);
    if k <= n {
      assert a[..k] == a[..n][..k] && b[..k] == b[..n][..k];
    } else if k <= |a| && k <= |b| {
      assert a[..k][n] == a[n] && b[..k][n] == b[n];
    }
  }

  /** At tier 2 the limit is the greatest seq up to which a majority of journals
      agree with the canonical history. */
  lemma CommittedIsGreatest(sim: Sim, k: nat)
    requires |sim.nodes| > 0
    ensures |Holding(sim, k)| >= Majority(|sim.nodes|) <==> k <= Committed(sim)
  {
    var w, m := Waters(sim.nodes, sim.canonical), Majority(|sim.nodes|);
    KthHighestIsGreatest(w, m);
    CountIsCardinality(w, k);
    CountIsCardinality(w, Committed(sim));
    forall i: nat | i < |sim.nodes|
      ensures i in Holding(sim, k) <==> w[i] >= k
    {
      PrefixIff(sim.nodes[i].history, sim.canonical, k);
    }
    assert Holding(sim, k) == Reaching(w, k);
    if k <= Committed(sim) {
      SubsetSmaller(Reaching(w, Committed(sim)), Reaching(w, k));
    }
  }

  // ----- over runs -----

  /** Account, history and releases agree. */
  ghost predicate Kept(claims: seq<Claim>, sim: Sim) {
    Agrees(claims, sim.canonical) && ReleasedExactly(sim)
  }

  lemma SubmitAccounts(claims: seq<Claim>, sim: Sim, payload: seq<int>, time: nat)
    requires Base(sim) && Kept(claims, sim) && SubmitStep(sim, payload, time).Next?
    ensures Kept(Accounted(claims, sim, Submit(payload, time)), SubmitStep(sim, payload, time).sim)
  {
    hide ReleaseOutputs, ReleaseLimit, NodeInv, LedgerInv;
    if sim.leader.Some? {
      var l := sim.leader.value;
      var entry := EntryOf(Sent(payload, time), |sim.canonical| + 1);
      var r := SubmitStep(sim, payload, time).sim;
      var t := RecordAssignment(sim, entry, sim.epoch).sim
                 .(canonical := sim.canonical + [entry], nodes := sim.nodes[l := Append(sim.nodes[l], entry)]);
      assert r == ReleaseOutputs(t);
      StillExact(sim, t);
      LimitInside(t);
      ReleaseExact(t);
      ReleaseFrame(t);
    }
  }

  /** A longer history with the same releases. */
  lemma StillExact(sim: Sim, t: Sim)
    requires ReleasedExactly(sim) && sim.canonical <= t.canonical
    requires t.released == sim.released && t.releaseCursor == sim.releaseCursor
    ensures ReleasedExactly(t)
  {
    forall s
      ensures s in t.released <==> 1 <= s < t.releaseCursor && t.canonical[s - 1].body.Input?
    {
      assert 1 <= s < sim.releaseCursor ==> t.canonical[s - 1] == sim.canonical[s - 1];
    }
  }

  lemma DeliverAccounts(claims: seq<Claim>, sim: Sim, i: nat, upto: nat)
    requires Base(sim) && Kept(claims, sim) && i < |sim.nodes| && upto <= |sim.canonical|
    ensures DeliverStep(sim, i, upto).Next? && Kept(claims, DeliverStep(sim, i, upto).sim)
  {
    hide ReleaseOutputs, ReleaseLimit;
    if Reachable(sim.nodes[i]) && sim.leader != Some(i) {
      var t := DeliverTo(sim, i, upto);
      StillExact(sim, t);
      LimitInside(t);
      ReleaseExact(t);
      ReleaseFrame(t);
    }
  }

  lemma PromoteAccounts(claims: seq<Claim>, sim: Sim, w: nat, epoch: nat, syncTo: nat, time: nat)
    requires Kept(claims, sim) && w < |sim.nodes| && Promote(sim, w, epoch, syncTo, time).Next?
    ensures var r := Promote(sim, w, epoch, syncTo, time).sim;
            && r.epoch == epoch && 1 <= |r.canonical| <= |claims| + 1
            && Kept(claims[..|r.canonical| - 1] + [Sealed(epoch, time)], r)
  {
    hide Promote;
    var fence := PromoteCuts(sim, w, epoch, syncTo, time);
    var r := Promote(sim, w, epoch, syncTo, time).sim;
    forall s
      ensures s in r.released <==> 1 <= s < r.releaseCursor && r.canonical[s - 1].body.Input?
    {
      if s >= 0 {
        AtMostKeeps(sim.released, fence, s);
      }
    }
  }

  lemma ElectAccounts(claims: seq<Claim>, sim: Sim, candidates: seq<nat>, order: seq<(nat, nat)>, time: nat)
    requires Base(sim) && Kept(claims, sim) && ElectOk(sim, candidates, order) && ElectStep(sim, candidates, order, time).Next?
    ensures OpOk(sim, Elect(candidates, order, time))
    ensures Kept(Accounted(claims, sim, Elect(candidates, order, time)), ElectStep(sim, candidates, order, time).sim)
  {
    hide Promote, Vote, NewTallies, NodeInv, ReleaseInv;
    var target := sim.epochCounter + 1;
    var (nodes, tallies) := Vote(sim.nodes, NewTallies(|candidates|, target, |sim.nodes|), order);
    var voted := sim.(epochCounter := target, nodes := nodes);
    if |tallies| > 0 && tallies[0].Outcome().Won? {
      PromoteAccounts(claims, voted, candidates[0], target, tallies[0].syncTo, time);
    } else if |tallies| > 1 && tallies[1].Outcome().Won? {
      PromoteAccounts(claims, voted, candidates[1], target, tallies[1].syncTo, time);
    }
  }

  lemma StepAccounts(claims: seq<Claim>, sim: Sim, op: Op)
    requires Base(sim) && Kept(claims, sim) && OpOk(sim, op) && Step(sim, op).Next?
    ensures Kept(Accounted(claims, sim, op), Step(sim, op).sim)
  {
    hide SubmitStep, DeliverStep, ElectStep, NodeInv, LedgerInv, ReleaseInv, Kept;
    match op {
      case Submit(payload, time) => SubmitAccounts(claims, sim, payload, time);
      case Deliver(i, upto) => DeliverAccounts(claims, sim, i, upto);
      case KillLeader => FaultAccounts(claims, sim, KillLeaderStep(sim));
      case PartitionOrHeal(i) => FaultAccounts(claims, sim, PartitionStep(sim, i));
      case Elect(candidates, order, time) => ElectAccounts(claims, sim, candidates, order, time);
    }
  }

  lemma FaultAccounts(claims: seq<Claim>, sim: Sim, next: Sim)
    requires Kept(claims, sim)
    requires next.canonical == sim.canonical && next.released == sim.released && next.releaseCursor == sim.releaseCursor
    ensures Kept(claims, next)
  {
  }

  lemma {:induction false} RunAccounts(claims: seq<Claim>, sim: Sim, ops: seq<Op>)
    requires Base(sim) && Kept(claims, sim) && IsRun(sim, ops)
    requires sim.tier.QuorumCommit? ==> ClusterSafety.Covered(sim) && RebuildsSafe(sim, ops)
    ensures RunOps(sim, ops).Next? && Kept(AccountAll(claims, sim, ops), RunOps(sim, ops).sim)
    decreases |ops|
  {
    hide Step, Base, ClusterSafety.Covered, OpOk, OpSafe, Kept, Accounted;
    if ops != [] {
      ClusterSafety.StepKeeps(sim, ops[0]);
      StepAccounts(claims, sim, ops[0]);
      RunAccounts(Accounted(claims, sim, ops[0]), Step(sim, ops[0]).sim, ops[1..]);
    }
  }

  /** Over every run from genesis, with fencing on: the canonical history is, seq
      by seq, the submissions that found a leader and were not fenced off, with
      their payloads and times, and the fences; and exactly the inputs below the
      release cursor have been released. */
  lemma HistoryIsSubmitted(tier: Tier, voters: nat, ops: seq<Op>)
    requires voters > 0 && IsRun(NewSim(tier, true, voters), ops)
    requires tier.QuorumCommit? ==> RebuildsSafe(NewSim(tier, true, voters), ops)
    ensures var r := RunOps(NewSim(tier, true, voters), ops);
            && r.Next?
            && Agrees(AccountAll([], NewSim(tier, true, voters), ops), r.sim.canonical)
            && ReleasedExactly(r.sim)
  {
    hide ClusterSafety.Covered, Base;
    var sim := NewSim(tier, true, voters);
    NewSimSafe(tier, voters);
    RunAccounts([], sim, ops);
  }

  /** On every unflagged node, every seq it holds carries the payload of the
      submission that took that seq; and whatever is released was submitted. */
  lemma HeldIsSubmitted(tier: Tier, voters: nat, ops: seq<Op>, node: nat, s: nat)
    requires voters > 0 && IsRun(NewSim(tier, true, voters), ops)
    requires tier.QuorumCommit? ==> RebuildsSafe(NewSim(tier, true, voters), ops)
    requires var r := RunOps(NewSim(tier, true, voters), ops);
             r.Next? && node < |r.sim.nodes| && !r.sim.nodes[node].needsRebuild && 1 <= s <= |r.sim.nodes[node].history|
    ensures var sim := RunOps(NewSim(tier, true, voters), ops).sim;
            var claims := AccountAll([], NewSim(tier, true, voters), ops);
            && s <= |claims| && sim.nodes[node].history[s - 1] == EntryOf(claims[s - 1], s)
            && (s in sim.released ==> claims[s - 1].Sent? && sim.nodes[node].history[s - 1].body == Input(claims[s - 1].payload))
  {
    hide RunOps, AccountAll, NewSim, ClusterSafety.Covered, IsRun;
    HistoryIsSubmitted(tier, voters, ops);
    NoCommittedLoss(tier, voters, ops);
    var sim := RunOps(NewSim(tier, true, voters), ops).sim;
    assert sim.nodes[node].history[s - 1] == sim.canonical[s - 1];
  }

  // ----- leaders, faults and elections -----

  /** The leader, if there is one, can be reached and knows that it leads. */
  ghost predicate Led(sim: Sim) {
    sim.leader.Some? ==>
      sim.leader.value < |sim.nodes| && Reachable(sim.nodes[sim.leader.value]) && sim.nodes[sim.leader.value].thinksLeader
  }

  ghost function Dead(nodes: seq<Node>): set<nat> {
    set i: nat | i < |nodes| && !nodes[i].alive
  }

  /** As many nodes are dead as were killed, and a majority is alive. */
  ghost predicate Alive(sim: Sim) {
    |Dead(sim.nodes)| == sim.kills && sim.kills + Majority(|sim.nodes|) <= |sim.nodes|
  }

  /** Every promise was given for an epoch already bid for. */
  ghost predicate Promised(sim: Sim) {
    forall i :: 0 <= i < |sim.nodes| ==> sim.nodes[i].acceptor.promised <= sim.epochCounter
  }

  ghost predicate Standing(sim: Sim) { Led(sim) && Alive(sim) && Promised(sim) }

  /** Two clusters' nodes differ in nothing that faults or promises show. */
  ghost predicate SameFaults(a: seq<Node>, b: seq<Node>) {
    |a| == |b| && forall i :: 0 <= i < |a| ==>
      a[i].alive == b[i].alive && a[i].partitioned == b[i].partitioned && a[i].acceptor.promised == b[i].acceptor.promised
  }

  lemma FaultsSame(sim: Sim, next: Sim)
    requires Standing(sim) && SameFaults(sim.nodes, next.nodes) && next.kills == sim.kills && next.epochCounter >= sim.epochCounter
    requires next.leader.Some? ==> next.leader.value < |next.nodes| && Reachable(next.nodes[next.leader.value]) && next.nodes[next.leader.value].thinksLeader
    ensures Standing(next)
  {
    assert Dead(sim.nodes) == Dead(next.nodes);
  }

  /** A kill takes the leader down if a majority stays alive without it, and
      otherwise does nothing. */
  lemma KillRules(sim: Sim)
    requires Standing(sim)
    ensures var r := KillLeaderStep(sim);
            && Standing(r)
            && (sim.leader.Some? && sim.kills + Majority(|sim.nodes|) < |sim.nodes| ==>
                  && r.leader == None && r.kills == sim.kills + 1
                  && Dead(r.nodes) == Dead(sim.nodes) + {sim.leader.value} && sim.leader.value !in Dead(sim.nodes))
            && (sim.leader.None? || sim.kills + Majority(|sim.nodes|) >= |sim.nodes| ==> r == sim)
  {
    if sim.leader.Some? && sim.kills + Majority(|sim.nodes|) < |sim.nodes| {
      var r := KillLeaderStep(sim);
      assert Dead(r.nodes) == Dead(sim.nodes) + {sim.leader.value};
    }
  }

  /** A partition cuts a live node off or lets it back, and a leader that is cut
      off no longer leads. */
  lemma PartitionRules(sim: Sim, i: nat)
    requires Standing(sim) && i < |sim.nodes|
    ensures var r := PartitionStep(sim, i);
            && Standing(r)
            && (sim.nodes[i].alive ==> r.nodes[i].partitioned != sim.nodes[i].partitioned)
            && (sim.leader == Some(i) ==> r.leader == None)
            && (sim.leader != Some(i) ==> r.leader == sim.leader)
  {
    var r := PartitionStep(sim, i);
    assert Dead(r.nodes) == Dead(sim.nodes);
  }

  lemma {:induction false} VoteKeepsFaults(nodes: seq<Node>, tallies: seq<Tally>, order: seq<(nat, nat)>, counter: nat)
    requires forall p :: p in order ==> p.0 < |tallies| && p.1 < |nodes|
    requires forall i :: 0 <= i < |nodes| ==> nodes[i].acceptor.promised <= counter
    requires forall i :: 0 <= i < |tallies| ==> tallies[i].epoch <= counter
    ensures var r := Vote(nodes, tallies, order);
            && (forall i :: 0 <= i < |nodes| ==>
                  && r.0[i].alive == nodes[i].alive && r.0[i].partitioned == nodes[i].partitioned
                  && r.0[i].thinksLeader == nodes[i].thinksLeader && r.0[i].acceptor.promised <= counter)
            && (forall i :: 0 <= i < |tallies| ==> r.1[i].epoch == tallies[i].epoch)
    decreases |order|
  {
    if order != [] {
      var (e, a) := order[0];
      assert order[0] in order;
      if Reachable(nodes[a]) {
        var epoch := tallies[e].epoch;
        var reply := nodes[a].acceptor.Answer(epoch);
        VoteKeepsFaults(nodes[a := nodes[a].(acceptor := nodes[a].acceptor.AfterVote(epoch))],
                        tallies[e := tallies[e].After(a, reply)], order[1..], counter);
      } else {
        VoteKeepsFaults(nodes, tallies, order[1..], counter);
      }
    }
  }

  lemma SyncedFaults(winner: Node, canonical: seq<Entry>, fence: nat)
    requires fence <= |canonical|
    ensures var n := Synced(winner, canonical, fence);
            n.alive == winner.alive && n.partitioned == winner.partitioned && n.acceptor.promised == winner.acceptor.promised
  {
    hide CommonPrefix, AdoptedEpoch;
  }

  /** A winner leads: reachable, in the epoch it won, at the end of the history
      it sealed. */
  lemma PromoteLeads(sim: Sim, w: nat, epoch: nat, syncTo: nat, time: nat)
    requires w < |sim.nodes| && Reachable(sim.nodes[w]) && Alive(sim) && Promised(sim) && Promote(sim, w, epoch, syncTo, time).Next?
    ensures var r := Promote(sim, w, epoch, syncTo, time).sim;
            Standing(r) && r.leader == Some(w) && r.epoch == epoch && r.nodes[w].epoch == epoch && |r.nodes| == |sim.nodes|
  {
    hide Above, AtMost, Synced, FenceFor;
    var r := Promote(sim, w, epoch, syncTo, time).sim;
    SyncedFaults(sim.nodes[w], sim.canonical, FenceFor(sim.tier, sim.nodes[w], sim.canonical, syncTo));
    assert SameFaults(sim.nodes, r.nodes);
    assert Dead(sim.nodes) == Dead(r.nodes);
  }

  predicate Wins(tallies: seq<Tally>, k: nat) { k < |tallies| && tallies[k].Outcome().Won? }

  /** An election is decided by its tallies: whoever won leads in the fresh
      epoch; if nobody did, leader and epoch stay. */
  lemma ElectRules(sim: Sim, candidates: seq<nat>, order: seq<(nat, nat)>, time: nat)
    requires |sim.nodes| > 0 && Standing(sim) && ElectOk(sim, candidates, order) && ElectStep(sim, candidates, order, time).Next?
    ensures var r := ElectStep(sim, candidates, order, time).sim;
            var target := sim.epochCounter + 1;
            var tallies := Vote(sim.nodes, NewTallies(|candidates|, target, |sim.nodes|), order).1;
            && Standing(r) && r.epochCounter == target
            && (Wins(tallies, 0) ==> r.leader == Some(candidates[0]) && r.epoch == target)
            && (Wins(tallies, 1) ==> r.leader == Some(candidates[1]) && r.epoch == target)
            && (!Wins(tallies, 0) && !Wins(tallies, 1) ==> r.leader == sim.leader && r.epoch == sim.epoch)
  {
    hide Promote, Vote, NewTallies, Alive, Standing;
    var target := sim.epochCounter + 1;
    var bids := NewTallies(|candidates|, target, |sim.nodes|);
    var (nodes, tallies) := Vote(sim.nodes, bids, order);
    var voted := sim.(epochCounter := target, nodes := nodes);
    StandingParts(sim);
    VoteKeepsFaults(sim.nodes, bids, order, target);
    VotedStands(sim, voted);
    assert |tallies| == |candidates|;
    if |tallies| > 0 && tallies[0].Outcome().Won? {
      PromoteLeads(voted, candidates[0], target, tallies[0].syncTo, time);
      PromoteCounter(voted, candidates[0], target, tallies[0].syncTo, time);
    } else if |tallies| > 1 && tallies[1].Outcome().Won? {
      PromoteLeads(voted, candidates[1], target, tallies[1].syncTo, time);
      PromoteCounter(voted, candidates[1], target, tallies[1].syncTo, time);
    }
  }

  lemma StandingParts(sim: Sim)
    requires Standing(sim)
    ensures Led(sim) && Alive(sim) && Promised(sim)
  {
  }

  lemma PromoteCounter(sim: Sim, w: nat, epoch: nat, syncTo: nat, time: nat)
    requires w < |sim.nodes| && Promote(sim, w, epoch, syncTo, time).Next?
    ensures Promote(sim, w, epoch, syncTo, time).sim.epochCounter == sim.epochCounter
  {
    hide Above, AtMost, Synced, FenceFor, Flagged;
  }

  lemma VotedStands(sim: Sim, voted: Sim)
    requires Standing(sim) && |voted.nodes| == |sim.nodes| && voted.kills == sim.kills && voted.leader == sim.leader
    requires forall i :: 0 <= i < |sim.nodes| ==>
               && voted.nodes[i].alive == sim.nodes[i].alive && voted.nodes[i].partitioned == sim.nodes[i].partitioned
               && voted.nodes[i].thinksLeader == sim.nodes[i].thinksLeader
               && voted.nodes[i].acceptor.promised <= voted.epochCounter
    ensures Standing(voted)
  {
    assert Dead(sim.nodes) == Dead(voted.nodes);
  }

  lemma StepStands(sim: Sim, op: Op)
    requires Base(sim) && Standing(sim) && OpOk(sim, op) && Step(sim, op).Next?
    ensures Standing(Step(sim, op).sim)
  {
    hide ReleaseOutputs, ElectStep, KillLeaderStep, PartitionStep, AdoptedEpoch, Standing, Base;
    match op {
      case Submit(payload, time) => SubmitStands(sim, payload, time);
      case Deliver(i, upto) => DeliverStands(sim, i, upto);
      case KillLeader => KillRules(sim);
      case PartitionOrHeal(i) => PartitionRules(sim, i);
      case Elect(candidates, order, time) => ElectRules(sim, candidates, order, time);
    }
  }

  lemma ReleaseFaults(sim: Sim)
    requires |sim.nodes| > 0
    ensures var r := ReleaseOutputs(sim);
            r.nodes == sim.nodes && r.leader == sim.leader && r.kills == sim.kills && r.epochCounter == sim.epochCounter
  {
  }

  lemma SubmitStands(sim: Sim, payload: seq<int>, time: nat)
    requires |sim.nodes| > 0 && Standing(sim) && (sim.leader.Some? ==> sim.leader.value < |sim.nodes|) && SubmitStep(sim, payload, time).Next?
    ensures Standing(SubmitStep(sim, payload, time).sim)
  {
    hide ReleaseOutputs, Alive, Promised;
    if sim.leader.Some? {
      var l := sim.leader.value;
      var entry := EntryOf(Sent(payload, time), |sim.canonical| + 1);
      var t := RecordAssignment(sim, entry, sim.epoch).sim
                 .(canonical := sim.canonical + [entry], nodes := sim.nodes[l := Append(sim.nodes[l], entry)]);
      FaultsSame(sim, t);
      ReleaseFaults(t);
      StandsAlike(t, ReleaseOutputs(t));
    }
  }

  lemma StandsAlike(a: Sim, b: Sim)
    requires Standing(a) && b.nodes == a.nodes && b.leader == a.leader && b.kills == a.kills && b.epochCounter == a.epochCounter
    ensures Standing(b)
  {
  }

  lemma DeliverStands(sim: Sim, i: nat, upto: nat)
    requires |sim.nodes| > 0 && Standing(sim) && i < |sim.nodes| && upto <= |sim.canonical|
    ensures DeliverStep(sim, i, upto).Next? && Standing(DeliverStep(sim, i, upto).sim)
  {
    hide ReleaseOutputs, AdoptedEpoch, Alive, Promised;
    if Reachable(sim.nodes[i]) && sim.leader != Some(i) {
      var t := DeliverTo(sim, i, upto);
      assert SameFaults(sim.nodes, t.nodes);
      FaultsSame(sim, t);
      ReleaseFaults(t);
      StandsAlike(t, ReleaseOutputs(t));
    }
  }

  lemma {:induction false} RunStands(sim: Sim, ops: seq<Op>)
    requires Base(sim) && Standing(sim) && IsRun(sim, ops)
    requires sim.tier.QuorumCommit? ==> ClusterSafety.Covered(sim) && RebuildsSafe(sim, ops)
    ensures RunOps(sim, ops).Next? && Standing(RunOps(sim, ops).sim)
    decreases |ops|
  {
    hide Step, Base, ClusterSafety.Covered, OpOk, OpSafe, Standing;
    if ops != [] {
      ClusterSafety.StepKeeps(sim, ops[0]);
      StepStands(sim, ops[0]);
      RunStands(Step(sim, ops[0]).sim, ops[1..]);
    }
  }

  /** Over every run: whoever leads can be reached and knows it, exactly the
      killed are dead, a majority is alive, and every promise was bid for. */
  lemma EveryRunStands(tier: Tier, voters: nat, ops: seq<Op>)
    requires voters > 0 && IsRun(NewSim(tier, true, voters), ops)
    requires tier.QuorumCommit? ==> RebuildsSafe(NewSim(tier, true, voters), ops)
    ensures var r := RunOps(NewSim(tier, true, voters), ops); r.Next? && Standing(r.sim)
  {
    hide ClusterSafety.Covered, Base;
    var sim := NewSim(tier, true, voters);
    assert Dead(sim.nodes) == {};
    NewSimSafe(tier, voters);
    RunStands(sim, ops);
  }

  /** A delivery: a flagged node is first rebuilt from the canonical history; then
      the next canonical entry is journaled, if there is one. A fence makes the
      node adopt its epoch and stop leading; nothing else changes its epoch. */
  lemma DeliverRules(sim: Sim, i: nat, upto: nat)
    requires Base(sim) && i < |sim.nodes| && upto <= |sim.canonical| && sim.leader != Some(i)
    ensures var was, now := sim.nodes[i], DeliverTo(sim, i, upto).nodes[i];
            var held := if was.needsRebuild then upto else |was.history|;
            && now.history == sim.canonical[..if held < |sim.canonical| then held + 1 else held]
            && !now.needsRebuild && now.alive == was.alive && now.partitioned == was.partitioned
            && (held < |sim.canonical| && sim.canonical[held].body.EpochChange? ==>
                  now.epoch == sim.canonical[held].body.epoch && !now.thinksLeader)
            && (!was.needsRebuild && (held == |sim.canonical| || sim.canonical[held].body.Input?) ==>
                  now.epoch == was.epoch && now.thinksLeader == was.thinksLeader)
  {
    hide AdoptedEpoch, LedgerInv, ReleaseInv, LeaderInv;
    assert NodeInv(sim.nodes[i], sim.canonical);
    var was := sim.nodes[i];
    if !was.needsRebuild {
      assert was.history == sim.canonical[..|was.history|];
    }
  }

  // ----- an election that asks a majority succeeds -----

  lemma {:induction false} VoteGrants(nodes: seq<Node>, tallies: seq<Tally>, order: seq<(nat, nat)>, epoch: nat, a: nat)
    requires |tallies| == 1 && tallies[0].epoch == epoch
    requires forall p :: p in order ==> p.0 == 0 && p.1 < |nodes|
    requires a < |nodes| && (a in tallies[0].granters || nodes[a].acceptor.promised < epoch)
    ensures var r := Vote(nodes, tallies, order);
            && r.1[0].epoch == epoch && r.1[0].needed == tallies[0].needed
            && (a in tallies[0].granters ==> a in r.1[0].granters)
            && (Reachable(nodes[a]) && (0, a) in order ==> a in r.1[0].granters)
    decreases |order|
  {
    if order != [] {
      var (e, b) := order[0];
      assert order[0] in order && order == [order[0]] + order[1..];
      if Reachable(nodes[b]) {
        var reply := nodes[b].acceptor.Answer(epoch);
        var next := nodes[b := nodes[b].(acceptor := nodes[b].acceptor.AfterVote(epoch))];
        VoteGrants(next, tallies[0 := tallies[0].After(b, reply)], order[1..], epoch, a);
      } else {
        VoteGrants(nodes, tallies, order[1..], epoch, a);
      }
    }
  }

  /** A lone candidate whose requests reach a majority is elected, whatever else
      the network did to them: it leads, in a fresh epoch. */
  lemma ElectionSucceeds(sim: Sim, candidate: nat, order: seq<(nat, nat)>, time: nat, asked: set<nat>)
    requires Base(sim) && Standing(sim) && OpOk(sim, Elect([candidate], order, time))
    requires sim.tier.QuorumCommit? ==> ClusterSafety.Covered(sim)
    requires forall a :: a in asked ==> a < |sim.nodes| && Reachable(sim.nodes[a]) && (0, a) in order
    requires |asked| >= Majority(|sim.nodes|)
    ensures var r := ElectStep(sim, [candidate], order, time);
            r.Next? && r.sim.leader == Some(candidate) && r.sim.epoch == sim.epochCounter + 1
  {
    hide Vote, ElectStep, Base, ClusterSafety.Covered, Alive, Led;
    ClusterSafety.StepKeeps(sim, Elect([candidate], order, time));
    ElectRules(sim, [candidate], order, time);
    var target := sim.epochCounter + 1;
    var bids := NewTallies(1, target, |sim.nodes|);
    assert |[candidate]| == 1 && [candidate][0] == candidate;
    var t := Vote(sim.nodes, bids, order).1[0];
    VoteGrants(sim.nodes, bids, order, target, candidate);
    forall a | a in asked
      ensures a in t.granters
    {
      VoteGrants(sim.nodes, bids, order, target, a);
    }
    SubsetSmaller(asked, t.granters);
    assert t.Outcome().Won?;
  }
}
