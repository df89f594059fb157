/** From a lossy, duplicated, reordered packet stream back to the exact frame
    sequence. */
module Reassembler {
  import opened Wrappers
  import opened Frame

  const PENDING_CAP := 64 * 1024

  datatype Packet = Heartbeat(session: nat, nextSeq: nat) | Data(session: nat, frames: seq<Frame>)

  datatype Buffer = Buffer(session: Option<nat>, next: nat, pending: map<nat, Frame>, announced: nat, packets: nat)

  function Start(from: nat): Buffer {
    var start := if from < 1 then 1 else from;
    Buffer(None, start, map[], start, 0)
  }

  /** One frame of a data packet: announce it; buffer it unless it is a
      duplicate. */
  function Take(b: Buffer, f: Frame): Buffer {
    var seen := b.(announced := if b.announced < f.seqno + 1 then f.seqno + 1 else b.announced);
    if f.seqno < b.next || f.seqno in b.pending then seen
    else seen.(pending := seen.pending[f.seqno := f])
  }

  function TakeAll(b: Buffer, frames: seq<Frame>): Buffer
    decreases |frames|
  {
    if frames == [] then b else TakeAll(Take(b, frames[0]), frames[1..])
  }

  /** Drop the farthest-ahead frames beyond the cap. */
  function Trim(pending: map<nat, Frame>): map<nat, Frame>
    decreases |pending|
  {
    if |pending| > PENDING_CAP && pending.Keys != {} then
      var last := Greatest(pending.Keys);
      Without(pending, last);
      Trim(pending - {last})
    else pending
  }

  datatype Fed = Fed(buffer: Buffer) | SessionMismatch(expected: nat, got: nat)

  /** The stream locks onto the first session it sees. */
  function Ingest(b: Buffer, p: Packet): Fed {
    if b.session.Some? && b.session.value != p.session then SessionMismatch(b.session.value, p.session)
    else
      var locked := b.(session := Some(p.session), packets := b.packets + 1);
      match p
      case Heartbeat(_, nextSeq) =>
        Fed(locked.(announced := if locked.announced < nextSeq then nextSeq else locked.announced))
      case Data(_, frames) =>
        var taken := TakeAll(locked, frames);
        Fed(taken.(pending := Trim(taken.pending)))
  }

  /** Pop the next in-order frame, if it has arrived. */
  function Pop(b: Buffer): (Buffer, Option<Frame>) {
    if b.next in b.pending
    then (b.(pending := b.pending - {b.next}, next := b.next + 1), Some(b.pending[b.next]))
    else (b, None)
  }

  datatype Range = Range(from: nat, count: nat)

  /** The range known to be missing. */
  function Gap(b: Buffer): Option<Range> {
    var until := if b.pending.Keys != {} then Least(b.pending.Keys) else b.announced;
    if until > b.next then Some(Range(b.next, until - b.next)) else None
  }

  // ----- what every run keeps -----

  /** Every frame in the packet is the stream's own. */
  ghost predicate Genuine(stream: nat -> Frame, p: Packet) {
    p.Data? ==> forall i :: 0 <= i < |p.frames| ==> p.frames[i] == stream(p.frames[i].seqno)
  }

  /** The stream's frames carry their own positions. */
  ghost predicate Numbered(stream: nat -> Frame) {
    forall k :: stream(k).seqno == k
  }

  /** Buffered frames are the stream's, ahead of what was delivered, and known
      to exist. */
  ghost predicate Held(stream: nat -> Frame, b: Buffer) {
    && (forall k :: k in b.pending ==> b.next <= k < b.announced && b.pending[k] == stream(k))
    && b.next <= b.announced
  }

  lemma {:induction false} TakeAllHolds(stream: nat -> Frame, b: Buffer, frames: seq<Frame>)
    requires Held(stream, b)
    requires forall i :: 0 <= i < |frames| ==> frames[i] == stream(frames[i].seqno)
    ensures var r := TakeAll(b, frames);
            && Held(stream, r) && r.next == b.next && r.session == b.session && r.announced >= b.announced
            && b.pending.Keys <= r.pending.Keys
    decreases |frames|
  {
    if frames != [] {
      assert Held(stream, Take(b, frames[0]));
      TakeAllHolds(stream, Take(b, frames[0]), frames[1..]);
    }
  }

  /** Trimming keeps the nearest frame. */
  lemma {:induction false} TrimKeeps(pending: map<nat, Frame>)
    ensures var r := Trim(pending);
            && |r| <= PENDING_CAP
            && (forall k :: k in r ==> k in pending && r[k] == pending[k])
            && (pending.Keys != {} ==> Least(pending.Keys) in r)
    decreases |pending|
  {
    hide Least, Greatest;
    assert |pending.Keys| == |pending|;
    if |pending| > PENDING_CAP {
      assert pending.Keys != {};
      var last, first := Greatest(pending.Keys), Least(pending.Keys);
      Without(pending, last);
      var rest := pending - {last};
      assert rest.Keys == pending.Keys - {last};
      assert |rest.Keys| == |pending.Keys| - 1;
      var other :| other in rest.Keys;
      assert first <= other < last;
      assert IsLeast(rest.Keys, first);
      TrimKeeps(rest);
    } else {
      assert Trim(pending) == pending;
    }
  }

  lemma IngestHolds(stream: nat -> Frame, b: Buffer, p: Packet)
    requires Held(stream, b) && Genuine(stream, p)
    requires Ingest(b, p).Fed?
    ensures var r := Ingest(b, p).buffer;
            && Held(stream, r) && r.next == b.next && r.announced >= b.announced
            && (p.Data? ==> |r.pending| <= PENDING_CAP)
  {
    hide TakeAll, Trim;
    if p.Data? {
      var locked := b.(session := Some(p.session), packets := b.packets + 1);
      TakeAllHolds(stream, locked, p.frames);
      TrimKeeps(TakeAll(locked, p.frames).pending);
    }
  }

  // ----- whole runs -----

  datatype Action = Feed(packet: Packet) | Next

  /** A reassembler and everything it has delivered. */
  datatype Run = Run(buffer: Buffer, delivered: seq<Frame>)

  function RunStep(r: Run, a: Action): Run {
    match a
    case Feed(p) =>
      (match Ingest(r.buffer, p)
       case Fed(b) => r.(buffer := b)
       case SessionMismatch(_, _) => r)
    case Next =>
      var (b, f) := Pop(r.buffer);
      Run(b, if f.Some? then r.delivered + [f.value] else r.delivered)
  }

  function RunAll(r: Run, actions: seq<Action>): Run
    decreases |actions|
  {
    if actions == [] then r else RunAll(RunStep(r, actions[0]), actions[1..])
  }

  /** Delivered so far: the stream from `start`, in order, without duplicates. */
  ghost predicate Exact(stream: nat -> Frame, start: nat, r: Run) {
    && r.buffer.next == start + |r.delivered|
    && (forall i :: 0 <= i < |r.delivered| ==> r.delivered[i] == stream(start + i))
    && Held(stream, r.buffer)
  }

  lemma StepExact(stream: nat -> Frame, start: nat, r: Run, a: Action)
    requires Exact(stream, start, r)
    requires a.Feed? ==> Genuine(stream, a.packet)
    ensures Exact(stream, start, RunStep(r, a))
  {
    hide Ingest;
    if a.Feed? && Ingest(r.buffer, a.packet).Fed? {
      IngestHolds(stream, r.buffer, a.packet);
    }
  }

  /** For any stream, and any loss, duplication, reordering or repackaging of
      it: what is delivered is exactly the stream from `from` on. */
  lemma {:induction false} RunExact(stream: nat -> Frame, start: nat, r: Run, actions: seq<Action>)
    requires Exact(stream, start, r)
    requires forall i :: 0 <= i < |actions| && actions[i].Feed? ==> Genuine(stream, actions[i].packet)
    ensures Exact(stream, start, RunAll(r, actions))
    decreases |actions|
  {
    hide RunStep, Exact, Genuine;
    if actions != [] {
      StepExact(stream, start, r, actions[0]);
      RunExact(stream, start, RunStep(r, actions[0]), actions[1..]);
    }
  }

  /** From a fresh reassembler: the delivered frames are the stream from `from`
      on (from 1 if it is 0), and the next one expected is the one after. */
  lemma FreshRunExact(stream: nat -> Frame, from: nat, actions: seq<Action>)
    requires forall i :: 0 <= i < |actions| && actions[i].Feed? ==> Genuine(stream, actions[i].packet)
    ensures var first := if from < 1 then 1 else from;
            var end := RunAll(Run(Start(from), []), actions);
            && (forall i :: 0 <= i < |end.delivered| ==> end.delivered[i] == stream(first + i))
            && end.buffer.next == first + |end.delivered|
  {
    hide RunAll, Genuine;
    RunExact(stream, if from < 1 then 1 else from, Run(Start(from), []), actions);
  }

  /** No gap and nothing to pop: exactly when everything announced has been
      delivered. A reported gap starts at the next frame and names only frames
      that exist and are missing. */
  lemma GapMeans(stream: nat -> Frame, b: Buffer)
    requires Held(stream, b)
    ensures Gap(b) == None && b.next !in b.pending <==> b.next == b.announced
    ensures Gap(b).Some? ==>
              && Gap(b).value.from == b.next && Gap(b).value.count > 0
              && b.next + Gap(b).value.count <= b.announced
              && forall k :: b.next <= k < b.next + Gap(b).value.count ==> k !in b.pending
  {
    hide Least;
    if b.pending.Keys != {} {
      var l := Least(b.pending.Keys);
      assert l in b.pending && b.next <= l < b.announced;
    }
  }

  /** The frames a retransmitter answers a gap with. */
  function Served(stream: nat -> Frame, from: nat, count: nat): (r: seq<Frame>)
    ensures |r| == count && forall i :: 0 <= i < count ==> r[i] == stream(from + i)
    decreases count
  {
    if count == 0 then [] else [stream(from)] + Served(stream, from + 1, count - 1)
  }

  lemma {:induction false} TakeAllHas(b: Buffer, frames: seq<Frame>, i: nat)
    requires i < |frames| && frames[i].seqno >= b.next
    ensures frames[i].seqno in TakeAll(b, frames).pending
    decreases |frames|
  {
    var t := Take(b, frames[0]);
    if i == 0 {
      TakeAllKeeps(t, frames[1..], frames[0].seqno);
    } else {
      TakeAllHas(t, frames[1..], i - 1);
    }
  }

  lemma {:induction false} TakeAllKeeps(b: Buffer, frames: seq<Frame>, k: nat)
    requires k in b.pending
    ensures k in TakeAll(b, frames).pending
    decreases |frames|
  {
    if frames != [] {
      TakeAllKeeps(Take(b, frames[0]), frames[1..], k);
    }
  }

  lemma {:induction false} TakeAllAnnounces(b: Buffer, frames: seq<Frame>, high: nat)
    requires b.announced >= high
    requires forall i :: 0 <= i < |frames| ==> frames[i].seqno < high
    ensures TakeAll(b, frames).announced == b.announced
    decreases |frames|
  {
    if frames != [] {
      TakeAllAnnounces(Take(b, frames[0]), frames[1..], high);
    }
  }

  /** Answering a gap makes the next frame deliverable, whatever the cap drops,
      and announces nothing new: the measure of the gap-fill loop. */
  lemma FillAdvances(stream: nat -> Frame, b: Buffer)
    requires Numbered(stream) && Held(stream, b) && Gap(b).Some?
    requires b.session.Some?
    ensures var g := Gap(b).value;
            var r := Ingest(b, Data(b.session.value, Served(stream, g.from, g.count)));
            && r.Fed? && Held(stream, r.buffer)
            && r.buffer.next == b.next && b.next in r.buffer.pending
            && r.buffer.announced == b.announced
            && r.buffer.session == b.session
  {
    hide TakeAll, Trim, Served, Held, Gap;
    var g := Gap(b).value;
    GapMeans(stream, b);
    var frames := Served(stream, g.from, g.count);
    var p := Data(b.session.value, frames);
    IngestHolds(stream, b, p);
    var locked := b.(session := Some(p.session), packets := b.packets + 1);
    HeldApart(stream, b, locked);
    TakeAllHolds(stream, locked, frames);
    TakeAllHas(locked, frames, 0);
    TakeAllAnnounces(locked, frames, b.next + g.count);
    TrimKeepsNext(stream, TakeAll(locked, frames));
  }

  lemma HeldApart(stream: nat -> Frame, b: Buffer, c: Buffer)
    requires Held(stream, b) && c == b.(session := c.session, packets := c.packets)
    ensures Held(stream, c)
  {
  }

  lemma TrimKeepsNext(stream: nat -> Frame, b: Buffer)
    requires Held(stream, b) && b.next in b.pending
    ensures b.next in Trim(b.pending)
  {
    hide Trim, Least;
    TrimKeeps(b.pending);
    assert Least(b.pending.Keys) == b.next;
  }

  class Reassembly {
    var session: Option<nat>
    var next: nat
    var pending: map<nat, Frame>
    var announced: nat
    var packets: nat

    ghost function Abs(): Buffer
      reads this
    {
      Buffer(session, next, pending, announced, packets)
    }

    constructor (from: nat)
      ensures Abs() == Start(from)
    {
      session := None;
      next := if from < 1 then 1 else from;
      announced := if from < 1 then 1 else from;
      pending, packets := map[], 0;
    }

    /** Announce and buffer the frames of one packet, discarding duplicates. */
    method TakeFrames(frames: seq<Frame>)
      modifies this`announced, this`pending
      ensures Abs() == TakeAll(old(Abs()), frames)
    {
      for k := 0 to |frames|
        invariant TakeAll(old(Abs()), frames) == TakeAll(Abs(), frames[k..])
      {
        var f := frames[k];
        assert frames[k..][0] == f && frames[k..][1..] == frames[k + 1..];
        announced := if announced < f.seqno + 1 then f.seqno + 1 else announced;
        if !(f.seqno < next || f.seqno in pending) {
          pending := pending[f.seqno := f];
        }
      }
    }

    method TrimPending()
      modifies this`pending
      ensures pending == Trim(old(pending))
    {
      hide Greatest;
      while |pending| > PENDING_CAP && pending.Keys != {}
        invariant Trim(pending) == Trim(old(pending))
        decreases |pending|
      {
        var last := Greatest(pending.Keys);
        Without(pending, last);
        pending := pending - {last};
      }
    }

    method IngestPacket(p: Packet) returns (ok: bool)
      modifies this
      ensures ok == Ingest(old(Abs()), p).Fed?
      ensures Abs() == if ok then Ingest(old(Abs()), p).buffer else old(Abs())
    {
      hide TakeAll, Trim;
      if session.Some? && session.value != p.session {
        return false;
      }
      session := Some(p.session);
      packets := packets + 1;
      match p {
        case Heartbeat(_, nextSeq) =>
          announced := if announced < nextSeq then nextSeq else announced;
        case Data(_, frames) =>
          TakeFrames(frames);
          TrimPending();
      }
      return true;
    }

    method NextFrame() returns (f: Option<Frame>)
      modifies this
      ensures (Abs(), f) == Pop(old(Abs()))
    {
      if next in pending {
        f := Some(pending[next]);
        pending := pending - {next};
        next := next + 1;
      } else {
        f := None;
      }
    }

    method FindGap() returns (g: Option<Range>)
      ensures g == Gap(Abs())
    {
      var until := if pending.Keys != {} then Least(pending.Keys) else announced;
      g := if until > next then Some(Range(next, until - next)) else None;
    }

    /** Deliver everything that has arrived in order. */
    method DeliverReady(ghost stream: nat -> Frame) returns (frames: seq<Frame>)
      requires Held(stream, Abs())
      modifies this
      ensures Held(stream, Abs()) && session == old(session)
      ensures next == old(next) + |frames| && announced == old(announced)
      ensures forall i :: 0 <= i < |frames| ==> frames[i] == stream(old(next) + i)
      ensures next !in pending
      ensures old(next) in old(pending) ==> next > old(next)
    {
      frames := [];
      while next in pending
        invariant Held(stream, Abs()) && session == old(session)
        invariant next == old(next) + |frames| && announced == old(announced)
        invariant forall i :: 0 <= i < |frames| ==> frames[i] == stream(old(next) + i)
        invariant frames == [] ==> pending == old(pending)
        decreases announced - next
      {
        var f := NextFrame();
        frames := frames + [f.value];
      }
    }

    /** Fetch every gap from the retransmitter until the stream is intact: the
        loop ends, and everything announced has been delivered. */
    method FillGaps(stream: nat -> Frame) returns (frames: seq<Frame>)
      requires Numbered(stream) && Held(stream, Abs()) && session.Some?
      requires next !in pending
      modifies this
      ensures Held(stream, Abs())
      ensures announced == old(announced) && next == announced
      ensures |frames| == announced - old(next)
      ensures forall i :: 0 <= i < |frames| ==> frames[i] == stream(old(next) + i)
    {
      hide Ingest, Gap, Held;
      frames := [];
      var g := FindGap();
      HeldBounds(stream, Abs());
      while g.Some?
        invariant Held(stream, Abs()) && session.Some? && g == Gap(Abs())
        invariant next == old(next) + |frames| && announced == old(announced) && next <= announced
        invariant next !in pending
        invariant forall i :: 0 <= i < |frames| ==> frames[i] == stream(old(next) + i)
        decreases announced - next
      {
        FillAdvances(stream, Abs());
        var ok := IngestPacket(Data(session.value, Served(stream, g.value.from, g.value.count)));
        var more := DeliverReady(stream);
        frames := frames + more;
        HeldBounds(stream, Abs());
        g := FindGap();
      }
      GapMeans(stream, Abs());
    }
  }

  lemma HeldBounds(stream: nat -> Frame, b: Buffer)
    requires Held(stream, b)
    ensures b.next <= b.announced
  {
  }
}
