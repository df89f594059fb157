/** Elections as a distributed protocol: any interleaving of requests,
    replies that are lost, duplicated or late, and acceptor crashes between
    any two disk operations of a promise being saved.

    A message once sent may be delivered any number of times, at any later
    point, or never. */
module ElectionProtocol {
  import opened Wrappers
  import opened Bytes
  import opened Segment
  import opened Quorum
  import opened Election
  import opened Persist

  datatype SaveStep = Emptying | Writing | Syncing | Replying

  /** What an acceptor process is doing. */
  datatype Phase =
    | Down
    | Up(state: AcceptorState)
    | Saving(state: AcceptorState, candidate: nat, reply: VoteReply, step: SaveStep)

  datatype Voter = Voter(file: Option<FileData>, phase: Phase)

  datatype Message = Message(from: nat, to: nat, reply: VoteReply)

  datatype Net = Net(voters: seq<Voter>, elections: map<nat, Tally>, sent: set<Message>)

  datatype Action =
    | Start(id: nat, epoch: nat)
    | Request(voter: nat, id: nat)
    | Save(voter: nat)
    | Crash(voter: nat, survived: seq<byte>)
    | Reopen(voter: nat)
    | Deliver(message: Message)
    | Observe(voter: nat, seqno: nat)
    | ResetWater(voter: nat, seqno: nat)

  ghost predicate Init(net: Net) {
    && (forall v :: 0 <= v < |net.voters| ==> net.voters[v] == Voter(None, Up(AcceptorState(0, 0))))
    && net.elections == map[]
    && net.sent == {}
  }

  ghost predicate Enabled(net: Net, action: Action) {
    match action
    case Start(id, epoch) => id !in net.elections && epoch < U64_LIMIT
    case Request(v, id) => v < |net.voters| && net.voters[v].phase.Up? && id in net.elections
    case Save(v) => v < |net.voters| && net.voters[v].phase.Saving?
    case Crash(v, survived) =>
      && v < |net.voters|
      && (net.voters[v].file.Some? ==> CrashOutcome(net.voters[v].file.value, survived))
    case Reopen(v) => v < |net.voters| && net.voters[v].phase.Down?
    case Deliver(m) => m in net.sent
    case Observe(v, seqno) => v < |net.voters| && net.voters[v].phase.Up?
    case ResetWater(v, seqno) => v < |net.voters| && net.voters[v].phase.Up?
  }

  /** The acceptor receives a request: raise the promise in memory and begin
      saving it, or refuse at once. */
  function VoterOnRequest(voter: Voter, id: nat, epoch: nat): Voter
    requires voter.phase.Up?
  {
    var state := voter.phase.state;
    if state.AfterVote(epoch).promised > state.promised
    then voter.(phase := Saving(state.AfterVote(epoch), id, state.Answer(epoch), Emptying))
    else voter
  }

  /** One disk operation of `persist`, then the reply. */
  function VoterOnSave(voter: Voter): Voter
    requires voter.phase.Saving?
  {
    var phase := voter.phase;
    match phase.step
    case Emptying => Voter(Some(Emptied()), phase.(step := Writing))
    case Writing =>
      var data := if voter.file.Some? then voter.file.value else Emptied();
      Voter(Some(data.WriteAll(Record(phase.state.promised))), phase.(step := Syncing))
    case Syncing =>
      var data := if voter.file.Some? then voter.file.value else Emptied();
      Voter(Some(data.SyncData()), phase.(step := Replying))
    case Replying => voter.(phase := Up(phase.state))
  }

  function VoterOnCrash(voter: Voter, survived: seq<byte>): Voter {
    Voter(if voter.file.None? then None else Some(FileData(survived, [])), Down)
  }

  function VoterOnReopen(voter: Voter): Voter {
    match OpenFile(voter.file)
    case Refused => voter
    case Opened(promised) => voter.(phase := Up(AcceptorState(promised, 0)))
  }

  function SentBy(net: Net, action: Action): set<Message>
    requires action.Request? || action.Save? ==> action.voter < |net.voters|
    requires action.Request? ==> net.voters[action.voter].phase.Up? && action.id in net.elections
    requires action.Save? ==> net.voters[action.voter].phase.Saving?
  {
    match action
    case Request(v, id) =>
      var state, epoch := net.voters[v].phase.state, net.elections[id].epoch;
      if state.AfterVote(epoch).promised > state.promised then {}
      else {Message(v, id, state.Answer(epoch))}
    case Save(v) =>
      var phase := net.voters[v].phase;
      if phase.step.Replying? then {Message(v, phase.candidate, phase.reply)} else {}
    case _ => {}
  }

  ghost function Apply(net: Net, action: Action): Net
    requires Enabled(net, action)
  {
    var sent := net.sent + SentBy(net, action);
    match action
    case Start(id, epoch) =>
      net.(elections := net.elections[id := NewTally(epoch, |net.voters|)])
    case Request(v, id) =>
      net.(voters := net.voters[v := VoterOnRequest(net.voters[v], id, net.elections[id].epoch)], sent := sent)
    case Save(v) => net.(voters := net.voters[v := VoterOnSave(net.voters[v])], sent := sent)
    case Crash(v, survived) => net.(voters := net.voters[v := VoterOnCrash(net.voters[v], survived)])
    case Reopen(v) => net.(voters := net.voters[v := VoterOnReopen(net.voters[v])])
    case Deliver(m) =>
      if m.to in net.elections
      then net.(elections := net.elections[m.to := net.elections[m.to].After(m.from, m.reply)])
      else net
    case Observe(v, seqno) =>
      net.(voters := net.voters[v := net.voters[v].(phase := Up(net.voters[v].phase.state.Observed(seqno)))])
    case ResetWater(v, seqno) =>
      net.(voters := net.voters[v := net.voters[v].(phase := Up(AcceptorState(net.voters[v].phase.state.promised, seqno)))])
  }

  ghost predicate IsRun(net: Net, actions: seq<Action>)
    decreases |actions|
  {
    actions == [] || (Enabled(net, actions[0]) && IsRun(Apply(net, actions[0]), actions[1..]))
  }

  ghost function Run(net: Net, actions: seq<Action>): Net
    requires IsRun(net, actions)
    decreases |actions|
  {
    if actions == [] then net else Run(Apply(net, actions[0]), actions[1..])
  }

  // ----- what every step keeps -----

  /** No grant this voter has sent exceeds `bound`. */
  ghost predicate GrantsUpTo(sent: set<Message>, v: nat, bound: nat) {
    forall m :: m in sent && m.from == v && m.reply.Grant? ==> m.reply.epoch <= bound
  }

  ghost predicate FileRemembers(file: Option<FileData>, promised: nat) {
    && promised < U64_LIMIT
    && file == (if promised == 0 then None else Some(FileData(Record(promised), [])))
  }

  /** The promise a voter could still be held to is never below its grants. */
  ghost predicate VoterInv(voter: Voter, sent: set<Message>, v: nat) {
    match voter.phase
    case Down =>
      if voter.file.None? then GrantsUpTo(sent, v, 0)
      else
        && voter.file.value.unsynced == []
        && (ParseRecord(voter.file.value.synced).Some? ==>
              var p := ParseRecord(voter.file.value.synced).value;
              GrantsUpTo(sent, v, p) && FileRemembers(voter.file, p))
    case Up(state) =>
      && FileRemembers(voter.file, state.promised)
      && GrantsUpTo(sent, v, state.promised)
    case Saving(state, candidate, reply, step) =>
      && 0 < state.promised < U64_LIMIT
      && reply.Grant? && reply.epoch == state.promised
      && GrantsUpTo(sent, v, state.promised - 1)
      && (step.Emptying? ==> exists p: nat :: p < state.promised && FileRemembers(voter.file, p) && GrantsUpTo(sent, v, p))
      && (step.Writing? ==> voter.file == Some(Emptied()))
      && (step.Syncing? ==> voter.file == Some(Written(state.promised)))
      && (step.Replying? ==> voter.file == Some(FileData(Record(state.promised), [])))
  }

  /** No voter has sent two grants for one epoch. */
  ghost predicate GrantedOnce(sent: set<Message>) {
    forall m, n :: m in sent && n in sent && m.from == n.from
      && m.reply.Grant? && n.reply.Grant? && m.reply.epoch == n.reply.epoch
      ==> m == n
  }

  /** A tally's granters each sent it a grant for its epoch, and its sync
      target covers every grant it counted. */
  ghost predicate TallyInv(tally: Tally, sent: set<Message>, id: nat, voters: nat) {
    && tally.needed == Majority(voters)
    && tally.epoch < U64_LIMIT
    && forall v :: v in tally.granters ==>
         v < voters && exists w: nat :: w <= tally.syncTo && Message(v, id, Grant(tally.epoch, w)) in sent
  }

  ghost predicate Inv(net: Net) {
    && (forall v :: 0 <= v < |net.voters| ==> VoterInv(net.voters[v], net.sent, v))
    && GrantedOnce(net.sent)
    && (forall m :: m in net.sent ==> m.from < |net.voters|)
    && (forall id :: id in net.elections ==> TallyInv(net.elections[id], net.sent, id, |net.voters|))
  }

  lemma InitInv(net: Net)
    requires Init(net)
    ensures Inv(net)
  {
  }

  /** Changing only voter `v`, with nothing new sent, is judged at `v` alone. */
  lemma QuietVoterStep(net: Net, v: nat, voter: Voter)
    requires Inv(net)
    requires v < |net.voters|
    requires VoterInv(voter, net.sent, v)
    ensures Inv(net.(voters := net.voters[v := voter]))
  {
  }

  lemma RequestKeeps(net: Net, v: nat, id: nat)
    requires Inv(net)
    requires Enabled(net, Request(v, id))
    ensures Inv(Apply(net, Request(v, id)))
  {
    hide Record, ParseRecord;
    var voter, epoch := net.voters[v], net.elections[id].epoch;
    var state := voter.phase.state;
    if epoch > state.promised {
      assert SentBy(net, Request(v, id)) == {};
      assert net.sent + {} == net.sent;
      QuietVoterStep(net, v, VoterOnRequest(voter, id, epoch));
    } else {
      assert net.voters[v := voter] == net.voters;
      RejectKeeps(net, Message(v, id, Reject(state.promised)));
    }
  }

  /** A rejection promises nothing. */
  lemma RejectKeeps(net: Net, m: Message)
    requires Inv(net)
    requires m.from < |net.voters|
    requires m.reply.Reject?
    ensures Inv(net.(sent := net.sent + {m}))
  {
    hide Record, ParseRecord;
    var sent := net.sent + {m};
    forall v | 0 <= v < |net.voters|
      ensures VoterInv(net.voters[v], sent, v)
    {
      assert forall bound :: GrantsUpTo(net.sent, v, bound) ==> GrantsUpTo(sent, v, bound);
    }
    forall id | id in net.elections
      ensures TallyInv(net.elections[id], sent, id, |net.voters|)
    {
      TallyMonotone(net.elections[id], net.sent, sent, id, |net.voters|);
    }
  }

  lemma TallyMonotone(tally: Tally, sent: set<Message>, more: set<Message>, id: nat, voters: nat)
    requires TallyInv(tally, sent, id, voters)
    requires sent <= more
    ensures TallyInv(tally, more, id, voters)
  {
    forall v | v in tally.granters
      ensures exists w: nat :: w <= tally.syncTo && Message(v, id, Grant(tally.epoch, w)) in more
    {
      var w: nat :| w <= tally.syncTo && Message(v, id, Grant(tally.epoch, w)) in sent;
      assert Message(v, id, Grant(tally.epoch, w)) in more;
    }
  }

  lemma SaveKeeps(net: Net, v: nat)
    requires Inv(net)
    requires Enabled(net, Save(v))
    ensures Inv(Apply(net, Save(v)))
  {
    hide Record, ParseRecord;
    var voter := net.voters[v];
    if voter.phase.step.Replying? {
      GrantKeeps(net, v);
    } else {
      if voter.phase.step.Syncing? {
        SavedContent(voter.phase.state.promised);
      }
      assert net.sent + {} == net.sent;
      QuietVoterStep(net, v, VoterOnSave(voter));
    }
  }

  /** The grant leaves only now that its promise is on disk; it is the first
      this voter has ever sent for that epoch. */
  lemma GrantKeeps(net: Net, v: nat)
    requires Inv(net)
    requires Enabled(net, Save(v))
    requires net.voters[v].phase.step.Replying?
    ensures Inv(Apply(net, Save(v)))
  {
    hide Record, ParseRecord;
    var phase := net.voters[v].phase;
    var m := Message(v, phase.candidate, phase.reply);
    var sent := net.sent + {m};
    var next := Apply(net, Save(v));
    assert next.sent == sent;
    forall u | 0 <= u < |net.voters|
      ensures VoterInv(next.voters[u], sent, u)
    {
      if u != v {
        assert forall bound :: GrantsUpTo(net.sent, u, bound) ==> GrantsUpTo(sent, u, bound);
      } else {
        assert GrantsUpTo(sent, v, phase.state.promised);
      }
    }
    forall id | id in net.elections
      ensures TallyInv(net.elections[id], sent, id, |net.voters|)
    {
      TallyMonotone(net.elections[id], net.sent, sent, id, |net.voters|);
    }
  }

  lemma CrashKeeps(net: Net, v: nat, survived: seq<byte>)
    requires Inv(net)
    requires Enabled(net, Crash(v, survived))
    ensures Inv(Apply(net, Crash(v, survived)))
  {
    hide Record, ParseRecord;
    VoterCrash(net.voters[v], net.sent, v, survived);
    QuietVoterStep(net, v, VoterOnCrash(net.voters[v], survived));
  }

  lemma SyncedSurvives(file: FileData, survived: seq<byte>)
    requires file.unsynced == []
    requires CrashOutcome(file, survived)
    ensures survived == file.synced
  {
    assert file.Combined() == file.synced;
  }

  lemma VoterCrash(voter: Voter, sent: set<Message>, v: nat, survived: seq<byte>)
    requires VoterInv(voter, sent, v)
    requires voter.file.Some? ==> CrashOutcome(voter.file.value, survived)
    ensures VoterInv(VoterOnCrash(voter, survived), sent, v)
  {
    hide Record, ParseRecord, Emptied, Written;
    if voter.file.Some? && voter.file.value.unsynced == [] {
      SyncedSurvives(voter.file.value, survived);
    }
    match voter.phase {
      case Down =>
      case Up(state) => ReopenRemembers(voter.file, state.promised);
      case Saving(state, candidate, reply, step) =>
        match step {
          case Emptying =>
            var p: nat :| p < state.promised && FileRemembers(voter.file, p) && GrantsUpTo(sent, v, p);
            ReopenRemembers(voter.file, p);
          case Writing => EmptyRefused(survived);
          case Syncing =>
            CrashWhileSaving(state.promised, survived);
            if ParseRecord(survived).Some? {
              ParsedIsRecord(state.promised, survived);
            }
          case Replying => RecordRoundTrip(state.promised);
        }
    }
  }

  lemma EmptyRefused(survived: seq<byte>)
    requires CrashOutcome(Emptied(), survived)
    ensures ParseRecord(survived) == None
  {
    assert Emptied().Combined() == [];
  }

  lemma ReopenRemembers(file: Option<FileData>, promised: nat)
    requires FileRemembers(file, promised)
    ensures file.Some? ==> ParseRecord(file.value.synced) == Some(promised)
  {
    hide Record, ParseRecord;
    if file.Some? {
      RecordRoundTrip(promised);
    }
  }

  /** What survives a crash and still parses is the record itself. */
  lemma ParsedIsRecord(promised: nat, survived: seq<byte>)
    requires promised < U64_LIMIT
    requires CrashOutcome(Written(promised), survived)
    requires ParseRecord(survived).Some?
    ensures survived == Record(promised)
  {
    hide Record, ParseRecord;
    var r := Record(promised);
    assert Written(promised).Combined() == r;
    assert r[..|survived|] == r;
    if survived != r {
      var p :| 0 <= p && DiffersOnlyAt(r, survived, p);
      DamagedRecordRefused(promised, survived, p);
    }
  }

  lemma ReopenKeeps(net: Net, v: nat)
    requires Inv(net)
    requires Enabled(net, Reopen(v))
    ensures Inv(Apply(net, Reopen(v)))
  {
    hide Record, ParseRecord;
    var voter := net.voters[v];
    if voter.file.Some? {
      assert voter.file.value.Combined() == voter.file.value.synced;
    }
    QuietVoterStep(net, v, VoterOnReopen(voter));
  }

  lemma DeliverKeeps(net: Net, m: Message)
    requires Inv(net)
    requires m in net.sent
    ensures Inv(Apply(net, Deliver(m)))
  {
    if m.to in net.elections {
      var tally := net.elections[m.to];
      var next := tally.After(m.from, m.reply);
      forall v | v in next.granters
        ensures v < |net.voters| && exists w: nat :: w <= next.syncTo && Message(v, m.to, Grant(next.epoch, w)) in net.sent
      {
        if v in tally.granters {
          var w: nat :| w <= tally.syncTo && Message(v, m.to, Grant(tally.epoch, w)) in net.sent;
          assert w <= next.syncTo;
        } else {
          assert Message(v, m.to, Grant(next.epoch, m.reply.highWater)) == m;
        }
      }
    }
  }

  lemma StepKeeps(net: Net, action: Action)
    requires Inv(net)
    requires Enabled(net, action)
    ensures Inv(Apply(net, action))
  {
    hide Record, ParseRecord;
    match action {
      case Start(id, epoch) =>
      case Request(v, id) => RequestKeeps(net, v, id);
      case Save(v) => SaveKeeps(net, v);
      case Crash(v, survived) => CrashKeeps(net, v, survived);
      case Reopen(v) => ReopenKeeps(net, v);
      case Deliver(m) => DeliverKeeps(net, m);
      case Observe(v, seqno) =>
        QuietVoterStep(net, v, net.voters[v].(phase := Up(net.voters[v].phase.state.Observed(seqno))));
      case ResetWater(v, seqno) =>
        QuietVoterStep(net, v, net.voters[v].(phase := Up(AcceptorState(net.voters[v].phase.state.promised, seqno))));
    }
  }

  lemma {:induction false} RunKeeps(net: Net, actions: seq<Action>)
    requires Inv(net)
    requires IsRun(net, actions)
    ensures Inv(Run(net, actions))
    decreases |actions|
  {
    hide Enabled, Apply, Inv;
    if actions != [] {
      StepKeeps(net, actions[0]);
      RunKeeps(Apply(net, actions[0]), actions[1..]);
    }
  }

  /** In every reachable state no acceptor has sent two grants for one epoch, to
      two candidates or to one, crashes included. */
  lemma NeverGrantedTwice(net: Net, actions: seq<Action>)
    requires Init(net)
    requires IsRun(net, actions)
    ensures GrantedOnce(Run(net, actions).sent)
  {
    InitInv(net);
    RunKeeps(net, actions);
  }

  /** And none is ever sent a second time: the reply that ends a save is the
      first grant its acceptor sends for that epoch. */
  lemma GrantSentOnce(net: Net, actions: seq<Action>, v: nat)
    requires Init(net)
    requires IsRun(net, actions)
    requires var end := Run(net, actions);
             v < |end.voters| && end.voters[v].phase.Saving? && end.voters[v].phase.step.Replying?
    ensures var end := Run(net, actions);
            var reply := end.voters[v].phase.reply;
            && reply.Grant?
            && forall m :: m in end.sent && m.from == v && m.reply.Grant? ==> m.reply.epoch < reply.epoch
  {
    hide Record, ParseRecord;
    InitInv(net);
    RunKeeps(net, actions);
    var end := Run(net, actions);
    assert VoterInv(end.voters[v], end.sent, v);
  }

  /** At most one candidate ever wins an epoch. */
  lemma AtMostOneWinner(net: Net, actions: seq<Action>, a: nat, b: nat)
    requires Init(net)
    requires IsRun(net, actions)
    requires var e := Run(net, actions).elections;
             a in e && b in e && e[a].epoch == e[b].epoch && e[a].Outcome().Won? && e[b].Outcome().Won?
    ensures a == b
  {
    InitInv(net);
    RunKeeps(net, actions);
    var end := Run(net, actions);
    var s, t := end.elections[a], end.elections[b];
    MajoritiesIntersect(s.granters, t.granters, |end.voters|);
    var v: nat :| v in s.granters && v in t.granters;
    var x: nat :| Message(v, a, Grant(s.epoch, x)) in end.sent;
    var y: nat :| Message(v, b, Grant(t.epoch, y)) in end.sent;
  }
}
