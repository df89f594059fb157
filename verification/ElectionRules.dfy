/** What an acceptor answers and what a candidate makes of the answers, stated
    over whole sequences of requests and replies. */
module ElectionRules {
  import opened Quorum
  import opened Election

  /** A majority is the least number of which two must share a member. */
  lemma MajorityIsLeast(voters: nat)
    ensures 2 * Majority(voters) > voters
    ensures 2 * (Majority(voters) - 1) <= voters
  {
  }

  // ----- an acceptor -----

  function Asked(state: AcceptorState, epochs: seq<nat>): AcceptorState
    decreases |epochs|
  {
    if epochs == [] then state else Asked(state, epochs[..|epochs| - 1]).AfterVote(epochs[|epochs| - 1])
  }

  /** After any requests the promise is the highest epoch asked for, or what it
      was if that is higher; the high-water is never touched. */
  lemma {:induction false} PromiseIsHighest(state: AcceptorState, epochs: seq<nat>)
    ensures var p := Asked(state, epochs);
            && p.highWater == state.highWater && p.promised >= state.promised
            && (forall i :: 0 <= i < |epochs| ==> epochs[i] <= p.promised)
            && (p.promised == state.promised || p.promised in epochs)
    decreases |epochs|
  {
    if epochs != [] {
      var front, last := epochs[..|epochs| - 1], epochs[|epochs| - 1];
      PromiseIsHighest(state, front);
      assert epochs == front + [last];
    }
  }

  /** A request is granted if and only if its epoch is above the promise at the
      start and above every epoch asked for since; a grant carries the epoch and
      the high-water, a rejection the promise that stands in the way. */
  lemma GrantedIff(state: AcceptorState, epochs: seq<nat>, epoch: nat)
    ensures var reply := Asked(state, epochs).Answer(epoch);
            && (reply.Grant? <==> epoch > state.promised && forall i :: 0 <= i < |epochs| ==> epoch > epochs[i])
            && (reply.Grant? ==> reply == Grant(epoch, state.highWater))
            && (reply.Reject? ==> reply.promised >= epoch && reply.promised == Asked(state, epochs).promised)
  {
    hide Asked;
    PromiseIsHighest(state, epochs);
    var p := Asked(state, epochs);
    if p.promised in epochs {
      var i :| 0 <= i < |epochs| && epochs[i] == p.promised;
    }
  }

  // ----- a candidate -----

  datatype Answer = Answer(from: nat, reply: VoteReply)

  function Heard(t: Tally, answers: seq<Answer>): Tally
    decreases |answers|
  {
    if answers == [] then t
    else
      var last := answers[|answers| - 1];
      Heard(t, answers[..|answers| - 1]).After(last.from, last.reply)
  }

  ghost predicate Counts(epoch: nat, a: Answer) { a.reply.Grant? && a.reply.epoch == epoch }

  /** Who granted this epoch, however often. */
  ghost function Granters(epoch: nat, answers: seq<Answer>): set<nat> {
    set i | 0 <= i < |answers| && Counts(epoch, answers[i]) :: answers[i].from
  }

  /** The greatest high-water a counted grant carried. */
  ghost predicate IsSyncTo(epoch: nat, answers: seq<Answer>, to: nat) {
    && (forall i :: 0 <= i < |answers| && Counts(epoch, answers[i]) ==> answers[i].reply.highWater <= to)
    && (to == 0 || exists i :: 0 <= i < |answers| && Counts(epoch, answers[i]) && answers[i].reply.highWater == to)
  }

  /** The greatest promise a rejection named. */
  ghost predicate IsHighest(answers: seq<Answer>, p: nat) {
    && (forall i :: 0 <= i < |answers| && answers[i].reply.Reject? ==> answers[i].reply.promised <= p)
    && (p == 0 || exists i :: 0 <= i < |answers| && answers[i].reply.Reject? && answers[i].reply.promised == p)
  }

  ghost predicate Overtaken(epoch: nat, answers: seq<Answer>) {
    exists i :: 0 <= i < |answers| && answers[i].reply.Reject? && answers[i].reply.promised >= epoch
  }

  lemma {:induction false} TallyIs(epoch: nat, voters: nat, answers: seq<Answer>)
    ensures var t := Heard(NewTally(epoch, voters), answers);
            && t.epoch == epoch && t.needed == Majority(voters)
            && t.granters == Granters(epoch, answers)
            && IsSyncTo(epoch, answers, t.syncTo) && IsHighest(answers, t.highestPromised)
            && (t.lost <==> Overtaken(epoch, answers))
    decreases |answers|
  {
    if answers != [] {
      var front, last := answers[..|answers| - 1], answers[|answers| - 1];
      TallyIs(epoch, voters, front);
      assert answers == front + [last];
      GrantersNext(epoch, front, last);
      SyncToNext(epoch, front, last, Heard(NewTally(epoch, voters), front).syncTo);
      HighestNext(epoch, front, last, Heard(NewTally(epoch, voters), front).highestPromised);
    }
  }

  lemma GrantersNext(epoch: nat, front: seq<Answer>, last: Answer)
    ensures Granters(epoch, front + [last]) == Granters(epoch, front) + if Counts(epoch, last) then {last.from} else {}
  {
    var all := front + [last];
    assert all[|front|] == last;
    forall x | x in Granters(epoch, front)
      ensures x in Granters(epoch, all)
    {
      var i :| 0 <= i < |front| && Counts(epoch, front[i]) && front[i].from == x;
      assert all[i] == front[i];
    }
  }

  lemma SyncToNext(epoch: nat, front: seq<Answer>, last: Answer, to: nat)
    requires IsSyncTo(epoch, front, to)
    ensures IsSyncTo(epoch, front + [last], if Counts(epoch, last) && last.reply.highWater > to then last.reply.highWater else to)
  {
    var all := front + [last];
    assert all[|front|] == last;
    if to > 0 {
      var i :| 0 <= i < |front| && Counts(epoch, front[i]) && front[i].reply.highWater == to;
      assert all[i] == front[i];
    }
  }

  lemma HighestNext(epoch: nat, front: seq<Answer>, last: Answer, p: nat)
    requires IsHighest(front, p)
    ensures IsHighest(front + [last], if last.reply.Reject? && last.reply.promised > p then last.reply.promised else p)
    ensures Overtaken(epoch, front + [last]) <==> Overtaken(epoch, front) || (last.reply.Reject? && last.reply.promised >= epoch)
  {
    var all := front + [last];
    assert all[|front|] == last;
    if p > 0 {
      var i :| 0 <= i < |front| && front[i].reply.Reject? && front[i].reply.promised == p;
      assert all[i] == front[i];
    }
    if Overtaken(epoch, front) {
      var i :| 0 <= i < |front| && front[i].reply.Reject? && front[i].reply.promised >= epoch;
      assert all[i] == front[i];
    }
  }

  /** A candidate's verdict on any replies, in any order and with any repeats: won
      if and only if a majority of distinct acceptors granted its epoch, and then
      it must sync to the highest of their high-waters; otherwise lost if and
      only if some acceptor had promised its epoch or a later one, and then it
      names the highest promise; otherwise open. */
  lemma VerdictIs(epoch: nat, voters: nat, answers: seq<Answer>)
    ensures var outcome := Heard(NewTally(epoch, voters), answers).Outcome();
            var won := 2 * |Granters(epoch, answers)| > voters;
            && (won <==> outcome.Won?)
            && (won ==> outcome.epoch == epoch && IsSyncTo(epoch, answers, outcome.syncTo))
            && (!won && Overtaken(epoch, answers) ==> outcome.Lost? && IsHighest(answers, outcome.highestPromised) && outcome.highestPromised >= epoch)
            && (!won && !Overtaken(epoch, answers) ==> outcome == Pending)
  {
    hide Heard, Granters, IsSyncTo;
    TallyIs(epoch, voters, answers);
    MajorityIsLeast(voters);
    if Overtaken(epoch, answers) {
      var i :| 0 <= i < |answers| && answers[i].reply.Reject? && answers[i].reply.promised >= epoch;
    }
  }
}
