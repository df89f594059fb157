/** A service is a deterministic step; its state is a fold over the frames.
    Live execution, recovery and followers all run that fold. */
module Execution {
  import opened Wrappers
  import opened Bytes
  import opened Frame
  import opened TimerWheel

  /** What one service step leaves: new state, outputs, timer requests. */
  datatype Outcome<+S, +O> = Outcome(state: S, outputs: seq<O>, timers: seq<TimerReq>)

  /** The application: state S, input I, output O, snapshot N. A step sees the
      frame's seq and timestamp and nothing else. The last three members are
      never called by the node: `encodable` says which inputs its input type
      has, `storable` which states fit the widths of its snapshot type, `alike`
      which states nobody can tell apart. */
  datatype Service<!S, !I, !O, !N> = Service(
    genesis: S,
    apply: (S, nat, nat, I) -> Outcome<S, O>,
    onTimer: (S, nat, nat, nat) -> Outcome<S, O>,
    snapshot: S -> N,
    restore: N -> S,
    encodeInput: I -> seq<byte>,
    decodeInput: seq<byte> -> Option<I>,
    encodeSnapshot: (N, seq<TimerEntry>) -> seq<byte>,
    decodeSnapshot: seq<byte> -> Option<(N, seq<TimerEntry>)>,
    schema: nat,
    encodable: I -> bool,
    storable: S -> bool,
    alike: (S, S) -> bool)


  /** Timer entries within the widths of the wire. */
  ghost predicate EntriesFit(entries: seq<TimerEntry>) {
    && |entries| < U32_LIMIT
    && forall i :: 0 <= i < |entries| ==>
         entries[i].id < U64_LIMIT && entries[i].at < U64_LIMIT && entries[i].setAt < U64_LIMIT
  }

  ghost predicate WheelFits(wheel: Wheel) {
    && |wheel| < U32_LIMIT
    && forall id :: id in wheel ==> id < U64_LIMIT && wheel[id].at < U64_LIMIT && wheel[id].setAt < U64_LIMIT
  }

  /** Two outcomes nobody can tell apart. */
  ghost predicate Agree<S, I, O, N>(sv: Service<S, I, O, N>, a: Outcome<S, O>, b: Outcome<S, O>) {
    sv.alike(a.state, b.state) && a.outputs == b.outputs && a.timers == b.timers
  }

  /** What an application promises: states alike stay alike and answer alike;
      a snapshot restores to a state alike; and the codec round-trips inputs of
      the input type and snapshots within its widths. */
  ghost predicate Lawful<S(!new), I(!new), O, N>(sv: Service<S, I, O, N>) {
    && (forall s :: sv.alike(s, s))
    && (forall a, b, c :: sv.alike(a, b) && sv.alike(b, c) ==> sv.alike(a, c))
    && (forall a, b, q, t, i :: sv.alike(a, b) ==> Agree(sv, sv.apply(a, q, t, i), sv.apply(b, q, t, i)))
    && (forall a, b, q, t, id :: sv.alike(a, b) ==> Agree(sv, sv.onTimer(a, q, t, id), sv.onTimer(b, q, t, id)))
    && (forall s :: sv.storable(s) ==> sv.alike(s, sv.restore(sv.snapshot(s))))
    && (forall i :: sv.encodable(i) ==> sv.decodeInput(sv.encodeInput(i)) == Some(i))
    && (forall s, es :: sv.storable(s) && EntriesFit(es) && |sv.encodeSnapshot(sv.snapshot(s), es)| < U32_LIMIT ==>
          sv.decodeSnapshot(sv.encodeSnapshot(sv.snapshot(s), es)) == Some((sv.snapshot(s), es)))
    && sv.schema < U32_LIMIT
  }

  /** Only equal states are alike: such a service restores exactly. */
  ghost predicate Exact<S(!new), I, O, N>(sv: Service<S, I, O, N>) {
    forall a, b :: sv.alike(a, b) ==> a == b
  }

  /** Service state and armed timers. */
  datatype Machine<+S> = Machine(service: S, wheel: Wheel)

  function Genesis<S, I, O, N>(sv: Service<S, I, O, N>): Machine<S> {
    Machine(sv.genesis, map[])
  }

  /** Machines nobody can tell apart. */
  ghost predicate Same<S, I, O, N>(sv: Service<S, I, O, N>, a: Machine<S>, b: Machine<S>) {
    a.wheel == b.wheel && sv.alike(a.service, b.service)
  }

  lemma SameChain<S(!new), I(!new), O, N>(sv: Service<S, I, O, N>, a: Machine<S>, b: Machine<S>, c: Machine<S>)
    requires Lawful(sv) && Same(sv, a, b) && Same(sv, b, c)
    ensures Same(sv, a, c)
  {
  }

  lemma SameSelf<S(!new), I(!new), O, N>(sv: Service<S, I, O, N>, m: Machine<S>)
    requires Lawful(sv)
    ensures Same(sv, m, m)
  {
  }

  function EncodeId(id: nat): seq<byte> { LittleEndian(id, 8) }

  function DecodeId(payload: seq<byte>): Option<nat> {
    if |payload| == 8 then Some(FromLittleEndian(payload)) else None
  }

  lemma IdRoundTrip(id: nat)
    requires id < U64_LIMIT
    ensures DecodeId(EncodeId(id)) == Some(id)
  {
    Pow256Values();
    LittleEndianRoundTrip(id, 8);
  }

  /** Fold a step's timer requests into the wheel, tagged with its seq. */
  function Settle<S, O>(out: Outcome<S, O>, wheel: Wheel, seqno: nat): Machine<S> {
    Machine(out.state, Requests(wheel, out.timers, seqno))
  }

  /** One frame of recovery replay; None is an input that no longer decodes. */
  function ReplayStep<S, I, O, N>(sv: Service<S, I, O, N>, m: Machine<S>, f: Frame): Option<Machine<S>> {
    match f.kind
    case Input =>
      (match sv.decodeInput(f.payload)
       case None => None
       case Some(input) => Some(Settle(sv.apply(m.service, f.seqno, f.timestamp, input), m.wheel, f.seqno)))
    case TimerFired =>
      (match DecodeId(f.payload)
       case None => None
       case Some(id) => Some(Settle(sv.onTimer(m.service, f.seqno, f.timestamp, id), m.wheel - {id}, f.seqno)))
    case _ => Some(m)
  }

  function Replay<S, I, O, N>(sv: Service<S, I, O, N>, m: Machine<S>, frames: seq<Frame>): Option<Machine<S>>
    decreases |frames|
  {
    if frames == [] then Some(m)
    else
      match ReplayStep(sv, m, frames[0])
      case None => None
      case Some(next) => Replay(sv, next, frames[1..])
  }

  /** Replaying in two parts is replaying the whole. */
  lemma {:induction false} ReplayAppend<S, I, O, N>(sv: Service<S, I, O, N>, m: Machine<S>, a: seq<Frame>, b: seq<Frame>)
    ensures Replay(sv, m, a + b) ==
            match Replay(sv, m, a)
            case None => None
            case Some(mid) => Replay(sv, mid, b)
    decreases |a|
  {
    hide ReplayStep;
    if a == [] {
      assert a + b == b;
    } else {
      assert (a + b)[0] == a[0] && (a + b)[1..] == a[1..] + b;
      var step := ReplayStep(sv, m, a[0]);
      if step.Some? {
        ReplayAppend(sv, step.value, a[1..], b);
      }
    }
  }

  lemma ReplayOne<S, I, O, N>(sv: Service<S, I, O, N>, m: Machine<S>, f: Frame)
    ensures Replay(sv, m, [f]) == ReplayStep(sv, m, f)
  {
    hide ReplayStep;
    assert [f][1..] == [];
    var step := ReplayStep(sv, m, f);
    assert step.Some? ==> Replay(sv, step.value, []) == step;
  }

  /** A history that replays, replays to every point before its end. */
  lemma ReplayPrefix<S, I, O, N>(sv: Service<S, I, O, N>, m: Machine<S>, frames: seq<Frame>, k: nat)
    requires k <= |frames|
    requires Replay(sv, m, frames).Some?
    ensures Replay(sv, m, frames[..k]).Some?
    ensures Replay(sv, m, frames) == Replay(sv, Replay(sv, m, frames[..k]).value, frames[k..])
  {
    hide Replay;
    ReplayAppend(sv, m, frames[..k], frames[k..]);
    assert frames[..k] + frames[k..] == frames;
  }

  /** The outputs a frame gives rise to. */
  function Emitted<S, I, O, N>(sv: Service<S, I, O, N>, m: Machine<S>, f: Frame): seq<O> {
    match f.kind
    case Input =>
      (match sv.decodeInput(f.payload)
       case None => []
       case Some(input) => sv.apply(m.service, f.seqno, f.timestamp, input).outputs)
    case TimerFired =>
      (match DecodeId(f.payload)
       case None => []
       case Some(id) => sv.onTimer(m.service, f.seqno, f.timestamp, id).outputs)
    case _ => []
  }

  function EmittedAll<S, I, O, N>(sv: Service<S, I, O, N>, m: Machine<S>, frames: seq<Frame>): seq<O>
    decreases |frames|
  {
    if frames == [] then []
    else
      match ReplayStep(sv, m, frames[0])
      case None => Emitted(sv, m, frames[0])
      case Some(next) => Emitted(sv, m, frames[0]) + EmittedAll(sv, next, frames[1..])
  }

  lemma {:induction false} EmittedAppend<S, I, O, N>(sv: Service<S, I, O, N>, m: Machine<S>, a: seq<Frame>, b: seq<Frame>)
    requires Replay(sv, m, a).Some?
    ensures EmittedAll(sv, m, a + b) == EmittedAll(sv, m, a) + EmittedAll(sv, Replay(sv, m, a).value, b)
    decreases |a|
  {
    hide ReplayStep, Emitted;
    if a == [] {
      assert a + b == b;
    } else {
      assert (a + b)[0] == a[0] && (a + b)[1..] == a[1..] + b;
      EmittedAppend(sv, ReplayStep(sv, m, a[0]).value, a[1..], b);
    }
  }

  lemma EmittedOne<S, I, O, N>(sv: Service<S, I, O, N>, m: Machine<S>, f: Frame)
    ensures EmittedAll(sv, m, [f]) == Emitted(sv, m, f)
    ensures EmittedAll(sv, m, []) == []
  {
    hide ReplayStep, Emitted;
    assert [f][1..] == [];
    var step := ReplayStep(sv, m, f);
    assert step.Some? ==> EmittedAll(sv, step.value, []) == [];
  }

  // ----- machines alike replay alike -----

  lemma StepSame<S(!new), I(!new), O, N>(sv: Service<S, I, O, N>, a: Machine<S>, b: Machine<S>, f: Frame)
    requires Lawful(sv) && Same(sv, a, b)
    ensures ReplayStep(sv, a, f).Some? <==> ReplayStep(sv, b, f).Some?
    ensures ReplayStep(sv, a, f).Some? ==> Same(sv, ReplayStep(sv, a, f).value, ReplayStep(sv, b, f).value)
    ensures Emitted(sv, a, f) == Emitted(sv, b, f)
  {
    hide Requests, DecodeId;
    if f.kind == Input && sv.decodeInput(f.payload).Some? {
      var i := sv.decodeInput(f.payload).value;
      assert Agree(sv, sv.apply(a.service, f.seqno, f.timestamp, i), sv.apply(b.service, f.seqno, f.timestamp, i));
    } else if f.kind == TimerFired && DecodeId(f.payload).Some? {
      var id := DecodeId(f.payload).value;
      assert Agree(sv, sv.onTimer(a.service, f.seqno, f.timestamp, id), sv.onTimer(b.service, f.seqno, f.timestamp, id));
    }
  }

  /** Replay cannot tell machines alike apart, and neither can an observer. */
  lemma {:induction false} ReplaySame<S(!new), I(!new), O, N>(sv: Service<S, I, O, N>, a: Machine<S>, b: Machine<S>, frames: seq<Frame>)
    requires Lawful(sv) && Same(sv, a, b)
    ensures Replay(sv, a, frames).Some? <==> Replay(sv, b, frames).Some?
    ensures Replay(sv, a, frames).Some? ==> Same(sv, Replay(sv, a, frames).value, Replay(sv, b, frames).value)
    ensures EmittedAll(sv, a, frames) == EmittedAll(sv, b, frames)
    decreases |frames|
  {
    hide Lawful, Same, ReplayStep, Emitted;
    if frames != [] {
      StepSame(sv, a, b, frames[0]);
      if ReplayStep(sv, a, frames[0]).Some? {
        ReplaySame(sv, ReplayStep(sv, a, frames[0]).value, ReplayStep(sv, b, frames[0]).value, frames[1..]);
      }
    }
  }

  // ----- followers -----

  datatype ReplicaError = WrongSeq(expected: nat, got: nat) | CorruptInput(seqno: nat) | SchemaMismatch(theirs: nat, ours: nat)

  /** A fence payload: (epoch, first seq, schema version). */
  function FencePayload(epoch: nat, first: nat, schema: nat): (p: seq<byte>)
    ensures |p| == 20
  {
    LittleEndian(epoch, 8) + LittleEndian(first, 8) + LittleEndian(schema, 4)
  }

  /** What a follower does with one frame: its state, its outputs, or an
      error. It keeps no timers of its own. */
  datatype Followed<+S, +O> = Followed(service: S, seqno: nat, outputs: seq<O>, error: Option<ReplicaError>)

  function Follow<S, I, O, N>(sv: Service<S, I, O, N>, service: S, seqno: nat, f: Frame): Followed<S, O> {
    if f.seqno != seqno + 1 then Followed(service, seqno, [], Some(WrongSeq(seqno + 1, f.seqno)))
    else
      match f.kind
      case Input =>
        (match sv.decodeInput(f.payload)
         case None => Followed(service, f.seqno, [], Some(CorruptInput(f.seqno)))
         case Some(input) =>
           var out := sv.apply(service, f.seqno, f.timestamp, input);
           Followed(out.state, f.seqno, out.outputs, None))
      case TimerFired =>
        (match DecodeId(f.payload)
         case None => Followed(service, f.seqno, [], Some(CorruptInput(f.seqno)))
         case Some(id) =>
           var out := sv.onTimer(service, f.seqno, f.timestamp, id);
           Followed(out.state, f.seqno, out.outputs, None))
      case EpochChange =>
        if |f.payload| < 20 then Followed(service, f.seqno, [], None)
        else if |f.payload| > 20 then Followed(service, f.seqno, [], Some(CorruptInput(f.seqno)))
        else
          var theirs := FromLittleEndian(f.payload[16..20]);
          Followed(service, f.seqno, [], if theirs != sv.schema then Some(SchemaMismatch(theirs, sv.schema)) else None)
      case _ => Followed(service, f.seqno, [], None)
  }

  /** The whole stream through a follower, stopping at the first error. */
  function FollowAll<S, I, O, N>(sv: Service<S, I, O, N>, service: S, seqno: nat, frames: seq<Frame>): Followed<S, O>
    decreases |frames|
  {
    if frames == [] then Followed(service, seqno, [], None)
    else
      var one := Follow(sv, service, seqno, frames[0]);
      if one.error.Some? then one
      else
        var rest := FollowAll(sv, one.service, one.seqno, frames[1..]);
        rest.(outputs := one.outputs + rest.outputs)
  }

  /** A frame a lawful leader sequences: a fence names the leader's schema. */
  ghost predicate WellFormed<S, I, O, N>(sv: Service<S, I, O, N>, f: Frame) {
    f.kind == EpochChange ==> exists epoch, first :: f.payload == FencePayload(epoch, first, sv.schema)
  }

  lemma FenceSchema(epoch: nat, first: nat, schema: nat)
    requires schema < 0x1_0000_0000
    ensures FromLittleEndian(FencePayload(epoch, first, schema)[16..20]) == schema
  {
    hide LittleEndian, FromLittleEndian;
    Pow256Values();
    LittleEndianRoundTrip(schema, 4);
    assert FencePayload(epoch, first, schema)[16..20] == LittleEndian(schema, 4);
  }

  /** A follower fed any stretch of a replayable history, with no wheel of its
      own, reaches the same service state, emits the same outputs and raises
      no error. */
  lemma {:induction false} FollowerAgrees<S, I, O, N>(sv: Service<S, I, O, N>, m: Machine<S>, seqno: nat, frames: seq<Frame>)
    requires sv.schema < 0x1_0000_0000
    requires forall i :: 0 <= i < |frames| ==> frames[i].seqno == seqno + 1 + i && WellFormed(sv, frames[i])
    requires Replay(sv, m, frames).Some?
    ensures var r := FollowAll(sv, m.service, seqno, frames);
            && r.error == None
            && r.seqno == seqno + |frames|
            && r.service == Replay(sv, m, frames).value.service
            && r.outputs == EmittedAll(sv, m, frames)
    decreases |frames|
  {
    if frames != [] {
      var f := frames[0];
      var next := ReplayStep(sv, m, f).value;
      StepAgrees(sv, m, seqno, f);
      hide Follow, ReplayStep, WellFormed, Emitted;
      FollowerAgrees(sv, next, seqno + 1, frames[1..]);
    }
  }

  lemma StepAgrees<S, I, O, N>(sv: Service<S, I, O, N>, m: Machine<S>, seqno: nat, f: Frame)
    requires sv.schema < 0x1_0000_0000
    requires f.seqno == seqno + 1 && WellFormed(sv, f)
    requires ReplayStep(sv, m, f).Some?
    ensures var r := Follow(sv, m.service, seqno, f);
            && r.error == None && r.seqno == seqno + 1
            && r.service == ReplayStep(sv, m, f).value.service
            && r.outputs == Emitted(sv, m, f)
  {
    hide LittleEndian, FromLittleEndian, FencePayload;
    if f.kind == EpochChange {
      var epoch, first :| f.payload == FencePayload(epoch, first, sv.schema);
      FenceSchema(epoch, first, sv.schema);
    }
  }

  class Replica<!S(==), !I, !O, !N> {
    const sv: Service<S, I, O, N>
    var service: S
    var seqno: nat

    constructor (sv: Service<S, I, O, N>)
      ensures this.sv == sv && service == sv.genesis && seqno == 0
    {
      this.sv := sv;
      service, seqno := sv.genesis, 0;
    }

    constructor FromSnapshot(sv: Service<S, I, O, N>, snap: N, at: nat)
      ensures this.sv == sv && service == sv.restore(snap) && seqno == at
    {
      this.sv := sv;
      service, seqno := sv.restore(snap), at;
    }

    method Apply(f: Frame) returns (outputs: seq<O>, error: Option<ReplicaError>)
      modifies this
      ensures Followed(service, seqno, outputs, error) == Follow(sv, old(service), old(seqno), f)
    {
      if f.seqno != seqno + 1 {
        return [], Some(WrongSeq(seqno + 1, f.seqno));
      }
      seqno := f.seqno;
      match f.kind {
        case Input =>
          match sv.decodeInput(f.payload) {
            case None => return [], Some(CorruptInput(f.seqno));
            case Some(input) =>
              var out := sv.apply(service, f.seqno, f.timestamp, input);
              service := out.state;
              return out.outputs, None;
          }
        case TimerFired =>
          match DecodeId(f.payload) {
            case None => return [], Some(CorruptInput(f.seqno));
            case Some(id) =>
              var out := sv.onTimer(service, f.seqno, f.timestamp, id);
              service := out.state;
              return out.outputs, None;
          }
        case EpochChange =>
          if |f.payload| >= 20 {
            if |f.payload| > 20 {
              return [], Some(CorruptInput(f.seqno));
            }
            var theirs := FromLittleEndian(f.payload[16..20]);
            if theirs != sv.schema {
              return [], Some(SchemaMismatch(theirs, sv.schema));
            }
          }
          return [], None;
        case _ => return [], None;
      }
    }
  }
}
