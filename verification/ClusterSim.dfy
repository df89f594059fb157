/** The simulator object: fields updated in place, loops as the harness has
    them, each method proved against the step function of `Cluster`. */
module ClusterSim {
  import opened Wrappers
  import opened Quorum
  import opened Election
  import opened Cluster

  class Harness {
    const tier: Tier
    const fencing: bool
    var epoch: nat
    var leader: Option<nat>
    var canonical: seq<Entry>
    var nodes: seq<Node>
    var assignments: map<(nat, nat), Entry>
    var released: seq<nat>
    var lostReleased: seq<nat>
    var epochCounter: nat
    var releaseCursor: nat
    var kills: nat

    ghost function View(): Sim
      reads this
    {
      Sim(tier, fencing, epoch, leader, canonical, nodes, assignments, released, lostReleased,
          epochCounter, releaseCursor, kills)
    }

    constructor (tier: Tier, fencing: bool, voters: nat)
      requires voters > 0
      ensures View() == NewSim(tier, fencing, voters)
    {
      this.tier, this.fencing := tier, fencing;
      epoch, leader, canonical := 1, Some(0), [];
      var idle := Node(true, false, 1, AcceptorState(0, 0), [], 0, false, false);
      nodes := Repeat(idle, voters)[0 := idle.(thinksLeader := true)];
      assignments, released, lostReleased := map[], [], [];
      epochCounter, releaseCursor, kills := 1, 1, 0;
    }

    /** Walk the cursor up to the limit, releasing only inputs. */
    method ReleaseOutputs()
      requires |nodes| > 0
      requires releaseCursor >= 1
      modifies this`released, this`releaseCursor
      ensures View() == Cluster.ReleaseOutputs(old(View()))
    {
      hide Committed;
      var upto := match tier
        case AsyncStandby => |canonical|
        case QuorumCommit => Committed(Sim(tier, fencing, epoch, leader, canonical, nodes, assignments, released,
                                           lostReleased, epochCounter, releaseCursor, kills));
      ghost var from := releaseCursor;
      while releaseCursor <= upto
        invariant from <= releaseCursor
        invariant releaseCursor <= Max(from, upto + 1)
        invariant released + InputSeqs(canonical, releaseCursor, upto) == old(released) + InputSeqs(canonical, from, upto)
        decreases upto + 1 - releaseCursor
      {
        if releaseCursor <= |canonical| && canonical[releaseCursor - 1].body.Input? {
          released := released + [releaseCursor];
        }
        releaseCursor := releaseCursor + 1;
      }
    }

    method RecordAssignment(entry: Entry, e: nat) returns (violation: Option<Violation>)
      modifies this`assignments
      ensures match Cluster.RecordAssignment(old(View()), entry, e)
              case Next(s) => violation == None && View() == s
              case Violated(v) => violation == Some(v) && View() == old(View())
    {
      var key := (entry.seqno, e);
      violation := None;
      if key in assignments {
        if assignments[key] != entry {
          violation := Some(SplitBrainAssignment(entry.seqno, e));
        }
      } else {
        assignments := assignments[key := entry];
      }
    }

    method OpSubmit(payload: seq<int>, time: nat) returns (violation: Option<Violation>)
      requires |nodes| > 0
      requires leader.Some? ==> leader.value < |nodes|
      requires releaseCursor >= 1
      modifies this
      ensures match SubmitStep(old(View()), payload, time)
              case Next(s) => violation == None && View() == s
              case Violated(v) => violation == Some(v)
    {
      hide Committed, InputSeqs;
      violation := None;
      if leader.Some? {
        var entry := Entry(|canonical| + 1, time, Input(payload));
        violation := RecordAssignment(entry, epoch);
        if violation == None {
          canonical := canonical + [entry];
          nodes := nodes[leader.value := Append(nodes[leader.value], entry)];
          ReleaseOutputs();
        }
      }
    }

    /** Replay the canonical stream up to `upto`, one frame at a time. */
    method Rebuild(i: nat, upto: nat)
      requires i < |nodes|
      requires upto <= |canonical|
      requires forall k :: 0 <= k < |canonical| ==> canonical[k].seqno == k + 1
      modifies this`nodes
      ensures nodes == old(nodes)[i := Rebuilt(old(nodes)[i], canonical, upto)]
    {
      var node := nodes[i];
      node := node.(history := [], replicaSeq := 0, acceptor := AcceptorState(node.acceptor.promised, 0));
      for k := 0 to upto
        invariant node == Rebuilt(old(nodes)[i], canonical, k)
      {
        var entry := canonical[k];
        assert canonical[..k + 1] == canonical[..k] + [entry];
        if entry.body.EpochChange? {
          node := node.(epoch := entry.body.epoch);
        }
        node := Append(node, entry);
      }
      nodes := nodes[i := node];
    }

    method DeliverTo(i: nat, upto: nat)
      requires i < |nodes|
      requires upto <= |canonical|
      requires forall k :: 0 <= k < |canonical| ==> canonical[k].seqno == k + 1
      modifies this`nodes
      ensures View() == Cluster.DeliverTo(old(View()), i, upto)
    {
      hide AdoptedEpoch;
      if nodes[i].needsRebuild {
        if fencing {
          Rebuild(i, upto);
        }
        nodes := nodes[i := nodes[i].(needsRebuild := false)];
      }
      assert nodes == old(nodes)[i := Unflagged(old(View()), i, upto)];
      var len := |nodes[i].history|;
      if len < |canonical| && nodes[i].replicaSeq == len {
        var entry := canonical[len];
        if entry.body.EpochChange? {
          nodes := nodes[i := nodes[i].(epoch := entry.body.epoch, thinksLeader := false)];
        }
        nodes := nodes[i := Append(nodes[i], entry)];
      }
    }

    method OpDeliver(i: nat, upto: nat)
      requires i < |nodes|
      requires upto <= |canonical|
      requires releaseCursor >= 1
      requires forall k :: 0 <= k < |canonical| ==> canonical[k].seqno == k + 1
      modifies this
      ensures DeliverStep(old(View()), i, upto) == Next(View())
    {
      hide Committed, InputSeqs, Cluster.DeliverTo;
      DeliverSize(View(), i, upto);
      if Reachable(nodes[i]) && leader != Some(i) {
        DeliverTo(i, upto);
        ReleaseOutputs();
      }
    }

    method OpKillLeader()
      requires leader.Some? ==> leader.value < |nodes|
      modifies this
      ensures View() == KillLeaderStep(old(View()))
    {
      if kills + Majority(|nodes|) < |nodes| && leader.Some? {
        var l := leader.value;
        leader := None;
        nodes := nodes[l := nodes[l].(alive := false, thinksLeader := false)];
        kills := kills + 1;
      }
    }

    method OpPartitionOrHeal(i: nat)
      requires i < |nodes|
      modifies this
      ensures View() == PartitionStep(old(View()), i)
    {
      if nodes[i].alive {
        if nodes[i].partitioned {
          nodes := nodes[i := nodes[i].(partitioned := false)];
        } else {
          nodes := nodes[i := nodes[i].(partitioned := true)];
          if leader == Some(i) {
            leader := None;
          }
        }
      }
    }

    /** Collect votes in the given order. */
    method CollectVotes(start: seq<Tally>, order: seq<(nat, nat)>) returns (tallies: seq<Tally>)
      requires forall p :: p in order ==> p.0 < |start| && p.1 < |nodes|
      modifies this`nodes
      ensures (nodes, tallies) == Vote(old(nodes), start, order)
    {
      tallies := start;
      for k := 0 to |order|
        invariant |tallies| == |start| && |nodes| == |old(nodes)|
        invariant Vote(nodes, tallies, order[k..]) == Vote(old(nodes), start, order)
      {
        var (e, a) := order[k];
        assert order[k] in order;
        assert order[k..][1..] == order[k + 1..];
        if Reachable(nodes[a]) {
          var target := tallies[e].epoch;
          var reply := nodes[a].acceptor.Answer(target);
          nodes := nodes[a := nodes[a].(acceptor := nodes[a].acceptor.AfterVote(target))];
          tallies := tallies[e := tallies[e].After(a, reply)];
        }
      }
    }

    method OpElection(candidates: seq<nat>, order: seq<(nat, nat)>, time: nat) returns (violation: Option<Violation>)
      requires |nodes| > 0
      requires ElectOk(View(), candidates, order)
      requires forall k :: 0 <= k < |canonical| ==> canonical[k].seqno == k + 1
      requires forall i :: 0 <= i < |nodes| ==> nodes[i].replicaSeq == |nodes[i].history|
      modifies this
      ensures match ElectStep(old(View()), candidates, order, time)
              case Next(s) => violation == None && View() == s
              case Violated(v) => violation == Some(v)
    {
      hide Vote, Cluster.Promote;
      violation := None;
      epochCounter := epochCounter + 1;
      var target := epochCounter;
      var tallies := CollectVotes(NewTallies(|candidates|, target, |nodes|), order);
      ghost var voted := View();
      VoteFrame(old(nodes), NewTallies(|candidates|, target, |nodes|), order);
      var won0 := |tallies| > 0 && tallies[0].Outcome().Won?;
      var won1 := |tallies| > 1 && tallies[1].Outcome().Won?;
      if won0 && won1 {
        violation := Some(SplitBrainElection(target));
      } else if won0 {
        violation := Promote(candidates[0], target, tallies[0].syncTo, time);
      } else if won1 {
        violation := Promote(candidates[1], target, tallies[1].syncTo, time);
      }
    }

    /** Reconcile, sync to the quorum, fence, flag, seal. */
    method Promote(winner: nat, newEpoch: nat, syncTo: nat, time: nat) returns (violation: Option<Violation>)
      requires winner < |nodes|
      requires forall k :: 0 <= k < |canonical| ==> canonical[k].seqno == k + 1
      requires nodes[winner].replicaSeq == |nodes[winner].history|
      modifies this
      ensures match Cluster.Promote(old(View()), winner, newEpoch, syncTo, time)
              case Next(s) => violation == None && View() == s
              case Violated(v) => violation == Some(v)
    {
      hide AdoptedEpoch, Cluster.FenceAt;
      nodes := nodes[winner := Reconciled(nodes[winner], canonical)];
      var have := |nodes[winner].history|;
      var fence := match tier
        case AsyncStandby => have
        case QuorumCommit => Max(syncTo, have);
      fence := Min(fence, |canonical|);
      assert fence == FenceFor(tier, old(nodes)[winner], canonical, syncTo);
      Transfer(winner, fence);
      assert nodes == old(nodes)[winner := Synced(old(nodes)[winner], canonical, fence)];
      violation := FenceAt(winner, newEpoch, fence, time);
    }

    method FenceAt(winner: nat, newEpoch: nat, fence: nat, time: nat) returns (violation: Option<Violation>)
      requires winner < |nodes|
      requires fence <= |canonical|
      modifies this
      ensures match Cluster.FenceAt(old(View()), winner, newEpoch, fence, time)
              case Next(s) => violation == None && View() == s
              case Violated(v) => violation == Some(v)
    {
      hide Above, AtMost, Flagged, Cluster.RecordAssignment;
      var lost := Above(released, fence);
      if lost != [] && tier.QuorumCommit? {
        return Some(CommittedLoss(lost[0]));
      }
      lostReleased := lostReleased + lost;
      canonical := canonical[..fence];
      released := AtMost(released, fence);
      releaseCursor := Min(releaseCursor, fence + 1);
      FlagFenced(fence);
      epoch := newEpoch;
      leader := Some(winner);
      nodes := nodes[winner := nodes[winner].(thinksLeader := true, epoch := newEpoch, needsRebuild := false)];
      var seal := Entry(fence + 1, time, EpochChange(newEpoch, fence + 1));
      ghost var fenced := View();
      violation := RecordAssignment(seal, newEpoch);
      RecordFrame(fenced, seal, newEpoch);
      if violation == None {
        canonical := canonical + [seal];
        nodes := nodes[winner := Append(nodes[winner], seal)];
      }
    }

    /** State transfer, one canonical frame at a time. */
    method Transfer(winner: nat, fence: nat)
      requires winner < |nodes|
      requires fence <= |canonical|
      requires forall k :: 0 <= k < |canonical| ==> canonical[k].seqno == k + 1
      modifies this`nodes
      ensures nodes == old(nodes)[winner := Transferred(old(nodes)[winner], canonical, fence)]
    {
      ghost var node := nodes[winner];
      while |nodes[winner].history| < fence
        invariant |nodes| == |old(nodes)|
        invariant |node.history| <= |nodes[winner].history|
        invariant |nodes[winner].history| <= Max(|node.history|, fence)
        invariant nodes == old(nodes)[winner := Transferred(node, canonical, |nodes[winner].history|)]
        decreases fence - |nodes[winner].history|
      {
        var len := |nodes[winner].history|;
        ghost var base := |node.history|;
        assert canonical[len].seqno == len + 1;
        assert node.history + canonical[base..len] + [canonical[len]] == node.history + canonical[base..len + 1];
        assert nodes[winner].history == node.history + canonical[base..len] by {
          assert len == base ==> canonical[base..len] == [];
        }
        nodes := nodes[winner := Append(nodes[winner], canonical[len])];
      }
    }

    method FlagFenced(fence: nat)
      modifies this`nodes
      ensures nodes == Flagged(old(nodes), fence)
    {
      for i := 0 to |nodes|
        invariant |nodes| == |old(nodes)|
        invariant forall j :: 0 <= j < i ==> nodes[j] == Flagged(old(nodes), fence)[j]
        invariant forall j :: i <= j < |nodes| ==> nodes[j] == old(nodes)[j]
      {
        if |nodes[i].history| > fence {
          nodes := nodes[i := nodes[i].(needsRebuild := true)];
        }
      }
    }
  }

  lemma RecordFrame(sim: Sim, entry: Entry, epoch: nat)
    ensures var r := Cluster.RecordAssignment(sim, entry, epoch);
            r.Next? ==> r.sim == sim.(assignments := r.sim.assignments)
  {
  }

  lemma DeliverSize(sim: Sim, i: nat, upto: nat)
    requires i < |sim.nodes|
    requires upto <= |sim.canonical|
    ensures |Cluster.DeliverTo(sim, i, upto).nodes| == |sim.nodes|
    ensures Cluster.DeliverTo(sim, i, upto).releaseCursor == sim.releaseCursor
  {
  }

  /** Voting moves no journal. */
  lemma {:induction false} VoteFrame(nodes: seq<Node>, tallies: seq<Tally>, order: seq<(nat, nat)>)
    requires forall p :: p in order ==> p.0 < |tallies| && p.1 < |nodes|
    ensures forall i :: 0 <= i < |nodes| ==>
              && Vote(nodes, tallies, order).0[i].replicaSeq == nodes[i].replicaSeq
              && Vote(nodes, tallies, order).0[i].history == nodes[i].history
    decreases |order|
  {
    if order != [] {
      var (e, a) := order[0];
      if Reachable(nodes[a]) {
        var epoch := tallies[e].epoch;
        VoteFrame(nodes[a := nodes[a].(acceptor := nodes[a].acceptor.AfterVote(epoch))],
                  tallies[e := tallies[e].After(a, nodes[a].acceptor.Answer(epoch))], order[1..]);
      } else {
        VoteFrame(nodes, tallies, order[1..]);
      }
    }
  }
}
