/** Opening on any directory whatever, damaged snapshots included: which snapshot
    is the anchor, what is purged, and when opening fails. And the firing order
    and snapshot order of timers. */
module RecoveryRules {
  import opened Wrappers
  import opened Bytes
  import opened TimerWheel
  import opened Execution
  import opened SnapshotFile
  import opened Log
  import opened Sequencer
  import opened NodeInvariant

  // ----- the anchor -----

  /** A file recovery can start from: it parses, its seq is not above the ceiling,
      the journal goes on from it, and its payload decodes. */
  ghost predicate CanAnchor<S, I, O, N>(sv: Service<S, I, O, N>, file: seq<byte>, first: nat, ceiling: nat) {
    && Parse(file).Some?
    && Parse(file).value.seqno <= ceiling && first <= Parse(file).value.seqno + 1
    && sv.decodeSnapshot(Parse(file).value.payload).Some?
  }

  lemma UsableIff<S, I, O, N>(sv: Service<S, I, O, N>, file: seq<byte>, first: nat, ceiling: nat)
    ensures Usable(sv, file, first, ceiling).Some? <==> CanAnchor(sv, file, first, ceiling)
    ensures CanAnchor(sv, file, first, ceiling) ==>
              var (snap, entries) := sv.decodeSnapshot(Parse(file).value.payload).value;
              Usable(sv, file, first, ceiling) == Some((Parse(file).value.seqno, Machine(sv.restore(snap), Rearm(entries, map[]))))
  {
    hide Parse, Rearm;
  }

  /** For any files, torn or damaged ones among them: the anchor is the newest of
      those recovery can start from, and there is none only if no file will do. */
  lemma {:induction false} AnchorExact<S, I, O, N>(sv: Service<S, I, O, N>, snaps: map<nat, seq<byte>>, first: nat, ceiling: nat) returns (at: nat)
    ensures var a := ChooseAnchor(sv, snaps, first, ceiling);
            && (a.None? ==> forall s :: s in snaps ==> !CanAnchor(sv, snaps[s], first, ceiling))
            && (a.Some? ==>
                  && at in snaps && CanAnchor(sv, snaps[at], first, ceiling) && a == Usable(sv, snaps[at], first, ceiling)
                  && forall t :: t in snaps && t > at ==> !CanAnchor(sv, snaps[t], first, ceiling))
    decreases |snaps|
  {
    hide Usable, CanAnchor, Greatest;
    at := 0;
    if snaps.Keys != {} {
      var name := Greatest(snaps.Keys);
      Without(snaps, name);
      UsableIff(sv, snaps[name], first, ceiling);
      assert forall t :: t in snaps.Keys ==> t <= name;
      if Usable(sv, snaps[name], first, ceiling).Some? {
        at := name;
      } else {
        var rest := snaps - {name};
        at := AnchorExact(sv, rest, first, ceiling);
        assert forall t :: t in snaps ==> t == name || (t in rest && rest[t] == snaps[t]);
      }
    }
  }

  // ----- what opening leaves -----

  /** Opening fails exactly when no snapshot will do and the journal starts past
      seq 1, or when a frame above the anchor does not replay; it keeps exactly
      the snapshots at or below the tip it reaches. */
  lemma OpensIff<S, I, O, N>(sv: Service<S, I, O, N>, segs: seq<Seg>, snaps: map<nat, seq<byte>>, readings: nat, appends: nat)
    ensures var log := Reopen(segs);
            var high := if snaps.Keys == {} then 0 else Greatest(snaps.Keys);
            var anchor := ChooseAnchor(sv, snaps, FirstSeq(log), if log.last < high then high else log.last);
            var r := OpenNode(sv, segs, snaps, readings, appends);
            && (r.UncoveredHistory? <==> anchor.None? && FirstSeq(log) > 1)
            && (r.UncoveredHistory? ==> r.first == FirstSeq(log))
            && (anchor.Some? ==>
                  && (r.CorruptFrame? <==> ReplayAbove(sv, anchor.value.1, FramesOf(segs), anchor.value.0) == None)
                  && (r.Opened? ==> r.node.seqno == if log.last < anchor.value.0 then anchor.value.0 else log.last))
            && (anchor.None? && FirstSeq(log) <= 1 ==>
                  && (r.CorruptFrame? <==> ReplayAbove(sv, Genesis(sv), FramesOf(segs), 0) == None)
                  && (r.Opened? ==> r.node.seqno == log.last))
            && (r.Opened? ==>
                  && r.node.readings == readings && r.node.appends == appends
                  && forall s :: s in r.node.snaps <==> s in snaps && s <= r.node.seqno)
            && (r.Opened? ==> forall s :: s in r.node.snaps ==> r.node.snaps[s] == snaps[s])
  {
    hide ChooseAnchor, ReplayAbove, Reopen, Reseat, FirstSeq, FramesOf, LastStamp, Greatest;
  }

  // ----- timers -----

  /** The timer fired next, in plain terms: due, and no other armed timer has an
      earlier deadline, or the same deadline and an earlier set-at, or both the
      same and a lower id. */
  lemma NextDuePlain(w: Wheel, now: nat)
    ensures NextDue(w, now) == None <==> forall id :: id in w ==> w[id].at > now
    ensures NextDue(w, now).Some? ==>
              var x := NextDue(w, now).value;
              && x in w && w[x].at <= now
              && forall id :: id in w && id != x ==>
                   && w[x].at <= w[id].at
                   && (w[x].at == w[id].at ==> w[x].setAt <= w[id].setAt)
                   && (w[x].at == w[id].at && w[x].setAt == w[id].setAt ==> x < id)
  {
    NextDueIsEarliest(w, now);
    hide NextDue;
  }

  /** What a step's requests leave armed: for each id the last request decides,
      and a timer set carries the step's seq. */
  lemma {:induction false} LastRequestDecides(w: Wheel, reqs: seq<TimerReq>, setAt: nat, i: nat)
    requires i < |reqs| && forall j :: i < j < |reqs| ==> reqs[j].id != reqs[i].id
    ensures var r, id := Requests(w, reqs, setAt), reqs[i].id;
            && (reqs[i].CancelTimer? ==> id !in r)
            && (reqs[i].SetTimer? ==> id in r && r[id] == Due(reqs[i].at, setAt))
    decreases |reqs|
  {
    if i > 0 {
      LastRequestDecides(Request(w, reqs[0], setAt), reqs[1..], setAt, i - 1);
    } else {
      OthersUntouched(Request(w, reqs[0], setAt), reqs[1..], setAt, reqs[0].id);
    }
  }

  lemma {:induction false} OthersUntouched(w: Wheel, reqs: seq<TimerReq>, setAt: nat, id: nat)
    requires forall j :: 0 <= j < |reqs| ==> reqs[j].id != id
    ensures var r := Requests(w, reqs, setAt); (id in r <==> id in w) && (id in w ==> r[id] == w[id])
    decreases |reqs|
  {
    if reqs != [] {
      OthersUntouched(Request(w, reqs[0], setAt), reqs[1..], setAt, id);
    }
  }

  /** A snapshot lists the armed timers by ascending id, each with its deadline
      and set-at. */
  lemma {:induction false} EntriesAscend(w: Wheel)
    ensures var es := Entries(w);
            && (forall i, j :: 0 <= i < j < |es| ==> es[i].id < es[j].id)
            && (forall i :: 0 <= i < |es| ==> es[i].id in w && w[es[i].id] == Due(es[i].at, es[i].setAt))
            && |es| == |w|
    decreases |w|
  {
    hide Least, Entries;
    EntriesFrom(w);
    EntriesCount(w);
    if w.Keys != {} {
      var id := Least(w.Keys);
      Without(w, id);
      EntriesAscend(w - {id});
      var rest := Entries(w - {id});
      forall j | 0 <= j < |rest|
        ensures id < rest[j].id
      {
        assert rest[j].id in w.Keys && rest[j].id != id;
      }
    }
  }
}
