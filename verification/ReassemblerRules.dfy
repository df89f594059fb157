/** What one packet does to a reassembler: which it refuses, what it announces
    and exactly which frames it buffers. */
module ReassemblerRules {
  import opened Wrappers
  import opened Frame
  import opened Reassembler

  /** A packet of another session than the first one is refused with both ids and
      changes nothing; every other packet is taken and leaves its session locked. */
  lemma SessionIff(b: Buffer, p: Packet)
    ensures var r := Ingest(b, p);
            && (b.session.Some? && b.session.value != p.session ==> r == SessionMismatch(b.session.value, p.session))
            && (b.session.None? || b.session.value == p.session ==>
                  r.Fed? && r.buffer.session == Some(p.session) && r.buffer.packets == b.packets + 1 && r.buffer.next == b.next)
  {
    hide Trim;
    if p.Data? {
      TakeAllLeaves(b.(session := Some(p.session), packets := b.packets + 1), p.frames);
    }
  }

  lemma {:induction false} TakeAllLeaves(b: Buffer, frames: seq<Frame>)
    ensures var r := TakeAll(b, frames); r.session == b.session && r.packets == b.packets && r.next == b.next
    decreases |frames|
  {
    if frames != [] {
      TakeAllLeaves(Take(b, frames[0]), frames[1..]);
    }
  }

  /** After a run, everything taken was of one session, and mismatches were not. */
  lemma {:induction false} OneSession(r: Run, actions: seq<Action>, session: nat)
    requires r.buffer.session == Some(session)
    ensures RunAll(r, actions).buffer.session == Some(session)
    decreases |actions|
  {
    hide Ingest;
    if actions != [] {
      if actions[0].Feed? {
        SessionIff(r.buffer, actions[0].packet);
      }
      OneSession(RunStep(r, actions[0]), actions[1..], session);
    }
  }

  /** A heartbeat announces up to the seq it names and buffers nothing. */
  lemma HeartbeatAnnounces(b: Buffer, session: nat, nextSeq: nat)
    requires Ingest(b, Packet.Heartbeat(session, nextSeq)).Fed?
    ensures var r := Ingest(b, Packet.Heartbeat(session, nextSeq)).buffer;
            && r.pending == b.pending
            && r.announced >= b.announced && r.announced >= nextSeq && (r.announced == b.announced || r.announced == nextSeq)
  {
  }

  ghost predicate Carries(frames: seq<Frame>, k: nat) {
    exists i :: 0 <= i < |frames| && frames[i].seqno == k
  }

  /** Taking frames buffers exactly those not yet delivered, keeps what was
      buffered, and announces one past the highest. */
  lemma {:induction false} TakeAllExact(b: Buffer, frames: seq<Frame>, k: nat)
    ensures var r := TakeAll(b, frames);
            && (k in r.pending <==> k in b.pending || (k >= b.next && Carries(frames, k)))
            && (k in b.pending ==> r.pending[k] == b.pending[k])
            && r.announced >= b.announced
            && (Carries(frames, k) ==> r.announced > k)
            && (r.announced == b.announced || (r.announced > 0 && Carries(frames, r.announced - 1)))
    decreases |frames|
  {
    if frames != [] {
      var t := Take(b, frames[0]);
      TakeAllExact(t, frames[1..], k);
      var r := TakeAll(b, frames);
      CarriesFirst(frames, k);
      if r.announced > 0 {
        CarriesFirst(frames, r.announced - 1);
      }
    }
  }

  lemma CarriesFirst(frames: seq<Frame>, k: nat)
    requires frames != []
    ensures Carries(frames, k) <==> frames[0].seqno == k || Carries(frames[1..], k)
  {
    if Carries(frames[1..], k) {
      var i :| 0 <= i < |frames[1..]| && frames[1..][i].seqno == k;
      assert frames[i + 1].seqno == k;
    }
    if i :| 0 <= i < |frames| && frames[i].seqno == k && i > 0 {
      assert frames[1..][i - 1].seqno == k;
    }
  }

  /** The cap: at most 65536 frames are kept, as many as there are up to that, and
      they are the nearest. */
  lemma {:induction false} TrimExact(pending: map<nat, Frame>)
    ensures var r := Trim(pending);
            && |r| == (if |pending| < 65536 then |pending| else 65536)
            && (forall k :: k in r ==> k in pending && r[k] == pending[k])
            && (forall k, j :: k in r && j in pending && j !in r ==> k < j)
    decreases |pending|
  {
    hide Greatest;
    assert |pending.Keys| == |pending|;
    if |pending| > PENDING_CAP {
      assert pending.Keys != {};
      var last := Greatest(pending.Keys);
      Without(pending, last);
      var rest := pending - {last};
      assert rest.Keys == pending.Keys - {last} && |rest.Keys| == |rest|;
      TrimExact(rest);
      var r := Trim(rest);
      assert Trim(pending) == r;
      forall k, j | k in r && j in pending && j !in r
        ensures k < j
      {
        if j == last {
          assert k in pending.Keys && k != last;
        }
      }
    }
  }

  /** So a data packet, while the cap is not reached, leaves buffered exactly what
      was buffered and its own undelivered frames. */
  lemma DataBuffers(b: Buffer, session: nat, frames: seq<Frame>, k: nat)
    requires Ingest(b, Data(session, frames)).Fed?
    ensures var r := Ingest(b, Data(session, frames)).buffer;
            && (k in r.pending ==> k in b.pending || (k >= b.next && Carries(frames, k)))
            && (|r.pending| < 65536 && (k in b.pending || (k >= b.next && Carries(frames, k))) ==> k in r.pending)
            && (Carries(frames, k) ==> r.announced > k) && r.announced >= b.announced
  {
    hide TakeAll, Trim;
    var locked := b.(session := Some(session), packets := b.packets + 1);
    TakeAllExact(locked, frames, k);
    var t := TakeAll(locked, frames);
    TrimExact(t.pending);
    NothingTrimmed(t.pending, k);
  }

  lemma NothingTrimmed(pending: map<nat, Frame>, k: nat)
    ensures |Trim(pending)| < 65536 && k in pending ==> k in Trim(pending)
  {
    TrimExact(pending);
    if |pending| < 65536 {
      assert Trim(pending) == pending;
    }
  }

  /** The gap reported is the whole hole: it ends at the next frame buffered or at
      what was announced. */
  lemma GapIsWhole(stream: nat -> Frame, b: Buffer)
    requires Held(stream, b) && Gap(b).Some?
    ensures var until := b.next + Gap(b).value.count; until in b.pending || until == b.announced
  {
  }

  /** Popping delivers the next frame if and only if it has arrived. */
  lemma PopIff(b: Buffer)
    ensures var (r, f) := Pop(b);
            && (f.Some? <==> b.next in b.pending)
            && (f.Some? ==> f.value == b.pending[b.next] && r.next == b.next + 1 && r.pending == b.pending - {b.next})
            && (f.None? ==> r == b)
            && r.announced == b.announced && r.session == b.session
  {
  }
}
