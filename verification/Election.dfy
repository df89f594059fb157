/** Epoch-lease election: one voter's promise, one candidate's tally. */
module Election {
  import opened Quorum

  datatype VoteReply =
    | Grant(epoch: nat, highWater: nat)
    | Reject(promised: nat)

  /** One voter's election state as a value. */
  datatype AcceptorState = AcceptorState(promised: nat, highWater: nat) {
    function Answer(epoch: nat): VoteReply {
      if epoch > promised then Grant(epoch, highWater) else Reject(promised)
    }

    function AfterVote(epoch: nat): AcceptorState {
      if epoch > promised then AcceptorState(epoch, highWater) else this
    }

    function Observed(seqno: nat): AcceptorState {
      AcceptorState(promised, if seqno > highWater then seqno else highWater)
    }
  }

  class Acceptor {
    var promised: nat
    var highWater: nat

    ghost function State(): AcceptorState
      reads this
    {
      AcceptorState(promised, highWater)
    }

    constructor ()
      ensures State() == AcceptorState(0, 0)
    {
      promised, highWater := 0, 0;
    }

    method ObserveSeq(seqno: nat)
      modifies this
      ensures State() == old(State()).Observed(seqno)
    {
      if seqno > highWater {
        highWater := seqno;
      }
    }

    method ResetHighWater(seqno: nat)
      modifies this
      ensures State() == AcceptorState(old(promised), seqno)
    {
      highWater := seqno;
    }

    /** Promises never go down, and a grant is given only by raising one. */
    method Handle(epoch: nat) returns (reply: VoteReply)
      modifies this
      ensures State() == old(State()).AfterVote(epoch)
      ensures reply == old(State()).Answer(epoch)
      ensures promised >= old(promised)
      ensures reply.Grant? <==> promised > old(promised)
    {
      if epoch > promised {
        promised := epoch;
        reply := Grant(epoch, highWater);
      } else {
        reply := Reject(promised);
      }
    }
  }

  datatype Outcome = Pending | Won(epoch: nat, syncTo: nat) | Lost(highestPromised: nat)

  /** A candidate's tally for one epoch attempt, as a value. */
  datatype Tally = Tally(
    epoch: nat,
    needed: nat,
    granters: set<nat>,
    syncTo: nat,
    highestPromised: nat,
    lost: bool)
  {
    function After(from: nat, reply: VoteReply): Tally {
      match reply
      case Grant(e, highWater) =>
        if e == epoch
        then this.(granters := granters + {from}, syncTo := if highWater > syncTo then highWater else syncTo)
        else this
      case Reject(p) =>
        this.(highestPromised := if p > highestPromised then p else highestPromised,
              lost := lost || p >= epoch)
    }

    function Outcome(): Outcome {
      if |granters| >= needed then Won(epoch, syncTo)
      else if lost then Lost(highestPromised)
      else Pending
    }
  }

  function NewTally(epoch: nat, voters: nat): Tally {
    Tally(epoch, Majority(voters), {}, 0, 0, false)
  }

  class Candidate {
    var tally: Tally

    constructor (epoch: nat, voters: nat)
      ensures tally == NewTally(epoch, voters)
    {
      tally := Tally(epoch, voters / 2 + 1, {}, 0, 0, false);
    }

    /** Duplicates from one acceptor are counted once; a grant for another
        epoch is ignored. */
    method OnReply(from: nat, reply: VoteReply) returns (outcome: Outcome)
      modifies this
      ensures tally == old(tally).After(from, reply)
      ensures outcome == tally.Outcome()
      ensures outcome.Won? ==> |tally.granters| >= tally.needed
    {
      match reply {
        case Grant(epoch, highWater) =>
          if epoch == tally.epoch {
            tally := tally.(granters := tally.granters + {from});
            if highWater > tally.syncTo {
              tally := tally.(syncTo := highWater);
            }
          }
        case Reject(promised) =>
          if promised > tally.highestPromised {
            tally := tally.(highestPromised := promised);
          }
          if promised >= tally.epoch {
            tally := tally.(lost := true);
          }
      }
      outcome := if |tally.granters| >= tally.needed then Won(tally.epoch, tally.syncTo)
                 else if tally.lost then Lost(tally.highestPromised)
                 else Pending;
    }
  }
}
