/** What a follower refuses: frames out of order, fences of another schema, and
    payloads it cannot read. Any frames whatever may arrive. */
module ReplicaRules {
  import opened Wrappers
  import opened Bytes
  import opened Frame
  import opened Execution

  /** A frame that is not the next one changes nothing and is reported with both
      numbers; the next one always moves the follower on. */
  lemma OrderIff<S, I, O, N>(sv: Service<S, I, O, N>, service: S, seqno: nat, f: Frame)
    ensures var r := Follow(sv, service, seqno, f);
            && (f.seqno != seqno + 1 ==> r == Followed(service, seqno, [], Some(WrongSeq(seqno + 1, f.seqno))))
            && (f.seqno == seqno + 1 ==> r.seqno == f.seqno && !(r.error.Some? && r.error.value.WrongSeq?))
  {
    hide FromLittleEndian, DecodeId;
  }

  /** A stream that raises no error was gapless, in order and without a repeat,
      from the frame after the follower's own. */
  lemma {:induction false} AcceptedInOrder<S, I, O, N>(sv: Service<S, I, O, N>, service: S, seqno: nat, frames: seq<Frame>)
    requires FollowAll(sv, service, seqno, frames).error == None
    ensures forall i :: 0 <= i < |frames| ==> frames[i].seqno == seqno + 1 + i
    ensures FollowAll(sv, service, seqno, frames).seqno == seqno + |frames|
    decreases |frames|
  {
    hide Follow;
    if frames != [] {
      var one := Follow(sv, service, seqno, frames[0]);
      OrderIff(sv, service, seqno, frames[0]);
      AcceptedInOrder(sv, one.service, one.seqno, frames[1..]);
      forall i | 0 <= i < |frames|
        ensures frames[i].seqno == seqno + 1 + i
      {
        if i > 0 {
          assert frames[1..][i - 1].seqno == seqno + 1 + i;
        }
      }
    }
  }

  /** A fence in order: a 20-byte one of another schema is reported with both
      versions, one of the follower's own passes; a shorter payload is no fence
      and a longer one is corrupt. The service never changes. */
  lemma FenceIff<S, I, O, N>(sv: Service<S, I, O, N>, service: S, seqno: nat, f: Frame, epoch: nat, first: nat, theirs: nat)
    requires f.seqno == seqno + 1 && f.kind == EpochChange && theirs < U32_LIMIT
    ensures var r := Follow(sv, service, seqno, f);
            && r.service == service && r.seqno == f.seqno && r.outputs == []
            && (f.payload == FencePayload(epoch, first, theirs) ==>
                  r.error == if theirs == sv.schema then None else Some(SchemaMismatch(theirs, sv.schema)))
            && (|f.payload| < 20 ==> r.error == None)
            && (|f.payload| > 20 ==> r.error == Some(CorruptInput(f.seqno)))
  {
    hide FromLittleEndian, FencePayload;
    FenceSchema(epoch, first, theirs);
  }

  /** The fence on the wire: its epoch, then its own first seq, then the schema. */
  lemma FenceNames(epoch: nat, first: nat, schema: nat)
    requires epoch < U64_LIMIT && first < U64_LIMIT && schema < U32_LIMIT
    ensures var p := FencePayload(epoch, first, schema);
            && |p| == 20
            && FromLittleEndian(p[..8]) == epoch
            && FromLittleEndian(p[8..16]) == first
            && FromLittleEndian(p[16..]) == schema
  {
    hide LittleEndian, FromLittleEndian;
    Pow256Values();
    LittleEndianRoundTrip(epoch, 8);
    LittleEndianRoundTrip(first, 8);
    LittleEndianRoundTrip(schema, 4);
    var p := FencePayload(epoch, first, schema);
    assert p[..8] == LittleEndian(epoch, 8) && p[8..16] == LittleEndian(first, 8) && p[16..] == LittleEndian(schema, 4);
  }

  /** Inputs and firings in order: one that decodes is run on the frame's seq and
      stamp and its outputs are the follower's; one that does not is reported,
      and the state stays. */
  lemma AppliedOrCorrupt<S, I, O, N>(sv: Service<S, I, O, N>, service: S, seqno: nat, f: Frame)
    requires f.seqno == seqno + 1
    ensures var r := Follow(sv, service, seqno, f);
            && (r.error.Some? && r.error.value.CorruptInput? ==> r.service == service && r.outputs == [] && r.error.value.seqno == f.seqno)
            && (f.kind == Input ==> (r.error == None <==> sv.decodeInput(f.payload).Some?))
            && (f.kind == TimerFired ==> (r.error == None <==> |f.payload| == 8))
            && (f.kind == Input && r.error == None ==>
                  var out := sv.apply(service, f.seqno, f.timestamp, sv.decodeInput(f.payload).value);
                  r.service == out.state && r.outputs == out.outputs)
            && (f.kind == TimerFired && r.error == None ==>
                  var out := sv.onTimer(service, f.seqno, f.timestamp, FromLittleEndian(f.payload));
                  r.service == out.state && r.outputs == out.outputs)
            && (f.kind != Input && f.kind != TimerFired ==> r.service == service && r.outputs == [])
  {
    hide FromLittleEndian;
  }
}
