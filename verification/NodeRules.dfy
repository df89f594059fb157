/** What the node's own operations leave, stated without them: how many snapshots
    are kept and which, what compaction removes, when a snapshot is taken and what
    its mark names, when a segment is rolled, and what a frame carries. */
module NodeRules {
  import opened Wrappers
  import opened Bytes
  import opened Frame
  import opened Segment
  import opened Execution
  import opened ReplicaRules
  import opened Log
  import opened Sequencer
  import opened NodeInvariant

  // ----- retention -----

  function AtLeastOne(keep: nat): nat { if keep < 1 then 1 else keep }

  /** `r` holds the newest of `snaps`, unchanged, as many as asked for: the lesser
      of what there is and `keep`, and one at least if there is one. */
  ghost predicate Newest(snaps: map<nat, seq<byte>>, keep: nat, r: map<nat, seq<byte>>) {
    && |r| == (if |snaps| < AtLeastOne(keep) then |snaps| else AtLeastOne(keep))
    && (forall s :: s in r ==> s in snaps && r[s] == snaps[s])
    && (forall s, t :: s in r && t in snaps && t !in r ==> t < s)
  }

  lemma {:induction false} PruneExact(snaps: map<nat, seq<byte>>, keep: nat)
    ensures Newest(snaps, keep, Prune(snaps, keep))
    decreases |snaps|
  {
    hide Least;
    assert |snaps.Keys| == |snaps|;
    if |snaps| > 1 && |snaps| > keep {
      assert snaps.Keys != {};
      var oldest := Least(snaps.Keys);
      var rest := snaps - {oldest};
      Without(snaps, oldest);
      assert rest.Keys == snaps.Keys - {oldest} && |rest.Keys| == |rest|;
      PruneExact(rest, keep);
      var r := Prune(rest, keep);
      assert Prune(snaps, keep) == r;
      forall s, t | s in r && t in snaps && t !in r
        ensures t < s
      {
        if t == oldest {
          assert s in snaps.Keys && s != oldest;
        }
      }
    }
  }

  /** Adding a newer snapshot and pruning. */
  lemma NewestKept(snaps: map<nat, seq<byte>>, at: nat, file: seq<byte>, keep: nat)
    requires forall s :: s in snaps ==> s < at
    ensures var r := Prune(snaps[at := file], keep);
            && at in r && r[at] == file
            && |r| == (if |snaps| + 1 < AtLeastOne(keep) then |snaps| + 1 else AtLeastOne(keep))
            && (forall s :: s in r && s != at ==> s in snaps && r[s] == snaps[s])
            && (forall s, t :: s in r && t in snaps && t !in r ==> t < s)
  {
    hide Prune;
    var all := snaps[at := file];
    assert at !in snaps.Keys;
    assert all.Keys == snaps.Keys + {at} && |all.Keys| == |all| && |snaps.Keys| == |snaps|;
    PruneExact(all, keep);
    NonEmpty(Prune(all, keep));
    NewestThere(all, keep, Prune(all, keep), at);
  }

  lemma NewestThere(all: map<nat, seq<byte>>, keep: nat, r: map<nat, seq<byte>>, at: nat)
    requires Newest(all, keep, r) && at in all && (forall s :: s in all ==> s <= at) && exists s :: s in r
    ensures at in r && r[at] == all[at]
  {
    var s :| s in r;
    assert s in all;
  }

  /** A directory after a snapshot at `at` was taken: it is there, and with it the
      newest of the old ones, as many as are retained. */
  ghost predicate Retained(was: map<nat, seq<byte>>, at: nat, retain: nat, now: map<nat, seq<byte>>) {
    && at in now
    && |now| == (if |was| + 1 < AtLeastOne(retain) then |was| + 1 else AtLeastOne(retain))
    && (forall s :: s in now && s != at ==> s in was && now[s] == was[s])
    && (forall s, t :: s in now && t in was && t !in now ==> t < s)
  }

  lemma RetainedExactly<S, I, O, N>(sv: Service<S, I, O, N>, cfg: Config, n: Node<S>)
    requires OnCadence(cfg, n.seqno) && MaybeSnapshot(sv, cfg, n).Some?
    requires forall s :: s in n.snaps ==> s < n.seqno
    ensures var r := MaybeSnapshot(sv, cfg, n).value.node.snaps;
            Retained(n.snaps, n.seqno, cfg.retain, r) && r[n.seqno] == SnapshotImage(sv, n.machine, n.seqno)
  {
    hide SnapshotImage, Prune, MaybeSnapshot, OnCadence;
    SnapshotLeaves(sv, cfg, n);
    NewestKept(n.snaps, n.seqno, SnapshotImage(sv, n.machine, n.seqno), cfg.retain);
  }

  lemma NonEmpty(r: map<nat, seq<byte>>)
    requires |r| > 0
    ensures exists s :: s in r
  {
    assert |r.Keys| == |r|;
    assert r.Keys != {};
    var s :| s in r.Keys;
  }

  /** Compaction removes exactly the leading segments that end at or below the
      cutoff, and never the open one. */
  lemma {:induction false} CompactExact(segs: seq<Seg>, cutoff: nat) returns (gone: nat)
    ensures gone <= |segs| && Compact(segs, cutoff) == segs[gone..]
    ensures segs != [] ==> gone < |segs|
    ensures forall i :: 1 <= i <= gone < |segs| ==> segs[i].first <= cutoff + 1
    ensures gone + 1 < |segs| ==> segs[gone + 1].first > cutoff + 1
  {
    if |segs| > 1 && segs[1].first <= cutoff + 1 {
      var more := CompactExact(segs[1..], cutoff);
      gone := more + 1;
      assert segs[1..][more..] == segs[gone..];
      forall i | 1 <= i <= gone
        ensures segs[i].first <= cutoff + 1
      {
        if i > 1 {
          assert segs[1..][i - 1].first <= cutoff + 1;
        }
      }
    } else {
      gone := 0;
    }
  }

  /** So retention removes a segment exactly when the next one starts at or below
      the oldest snapshot kept: every frame it held is in that snapshot. */
  lemma RetainCompacts<S>(cfg: Config, n: Node<S>) returns (gone: nat)
    requires n.snaps.Keys != {} && forall s :: s in n.snaps ==> s >= 1
    ensures var r := Retain(cfg, n);
            && r.snaps.Keys != {} && gone <= |n.log.segs| && r.log.segs == n.log.segs[gone..]
            && (n.log.segs != [] ==> gone < |n.log.segs|)
            && (forall i :: 1 <= i <= gone < |n.log.segs| ==> n.log.segs[i].first <= Least(r.snaps.Keys))
            && (gone + 1 < |n.log.segs| ==> n.log.segs[gone + 1].first > Least(r.snaps.Keys))
  {
    hide Prune, Compact, Least, HighWater;
    PruneKeeps(n.snaps, cfg.retain);
    var oldest := Least(Prune(n.snaps, cfg.retain).Keys);
    gone := CompactExact(n.log.segs, oldest - 1);
  }

  // ----- the cadence -----

  /** Snapshots fall on the multiples of the cadence, a cadence of zero counting
      as one. */
  lemma CadenceIff(cfg: Config, seqno: nat)
    ensures OnCadence(cfg, seqno) <==> cfg.every.Some? && exists k: nat :: seqno == k * AtLeastOne(cfg.every.value)
  {
    if cfg.every.Some? {
      var e := AtLeastOne(cfg.every.value);
      if k: nat :| seqno == k * e {
        MultipleOf(k, e);
      }
      if OnCadence(cfg, seqno) {
        assert seqno == (seqno / e) * e;
      }
    }
  }

  lemma MultipleOf(k: nat, e: nat)
    requires e > 0
    ensures (k * e) % e == 0
  {
    var q, r := (k * e) / e, (k * e) % e;
    assert r == (k - q) * e;
    NoSmallMultiple(k - q, e);
  }

  lemma NoSmallMultiple(d: int, e: nat)
    requires e > 0
    ensures 0 <= d * e < e ==> d == 0
  {
  }

  /** A frame off the cadence leaves no snapshot and no mark; one on it leaves its
      snapshot and exactly one mark, which names that snapshot. */
  lemma MarkNames<S, I, O, N>(sv: Service<S, I, O, N>, cfg: Config, n: Node<S>)
    requires MaybeSnapshot(sv, cfg, n).Some? && n.seqno < U64_LIMIT
    ensures var s := MaybeSnapshot(sv, cfg, n).value;
            && (!OnCadence(cfg, n.seqno) ==> s == Stepped(n, []))
            && (OnCadence(cfg, n.seqno) ==>
                  && |s.published| == 1 && s.published[0].kind == SnapshotMark && s.published[0].seqno == n.seqno + 1
                  && DecodeId(s.published[0].payload) == Some(n.seqno))
  {
    hide AppendAll, SnapshotImage, Prune, Compact, Least, EncodeId, DecodeId;
    IdRoundTrip(n.seqno);
  }

  // ----- what a frame carries -----

  /** The next seq, the stream's id, what was asked for, and the later of the
      clock and the last stamp. */
  lemma StageCarries<S>(cfg: Config, n: Node<S>, kind: FrameKind, payload: seq<byte>, at: nat)
    ensures var f := Stage(cfg, n, kind, payload, at);
            && f.seqno == n.seqno + 1 && f.streamId == cfg.streamId && f.kind == kind && f.payload == payload
            && f.timestamp >= at && f.timestamp >= n.lastTime && (f.timestamp == at || f.timestamp == n.lastTime)
  {
  }

  /** A fence's frame names its epoch, its own seq and the schema. */
  lemma FencePublished<S, I, O, N>(sv: Service<S, I, O, N>, cfg: Config, n: Node<S>, epoch: nat)
    requires DoFence(sv, cfg, n, epoch).Some?
    requires epoch < U64_LIMIT && n.seqno + 1 < U64_LIMIT && sv.schema < U32_LIMIT
    ensures var p := DoFence(sv, cfg, n, epoch).value.published;
            && p != [] && p[0].kind == EpochChange && p[0].seqno == n.seqno + 1 && |p[0].payload| == 20
            && FromLittleEndian(p[0].payload[..8]) == epoch
            && FromLittleEndian(p[0].payload[8..16]) == p[0].seqno
            && FromLittleEndian(p[0].payload[16..]) == sv.schema
  {
    hide AppendAll, MaybeSnapshot, FencePayload, FromLittleEndian;
    FenceNames(epoch, n.seqno + 1, sv.schema);
  }

  // ----- rolling -----

  /** A run of frames joins the open segment, behind what it held. */
  lemma WriteJoins(log: Log, frames: seq<Frame>, sync: bool)
    requires log.segs != []
    ensures var r := if sync then Sync(Write(log, frames)) else Write(log, frames);
            && |r.segs| == |log.segs| && Active(r.segs).first == Active(log.segs).first
            && Active(r.segs).frames == Active(log.segs).frames + frames
            && Active(r.segs).durable == (if sync then |Active(r.segs).frames| else Active(log.segs).durable)
            && r.last == log.last + |frames| && r.count == log.count + |frames|
  {
  }

  lemma RollOpens(log: Log, first: nat)
    ensures var r := Roll(log, first);
            && |r.segs| == |log.segs| + 1 && Active(r.segs) == Seg(first, [], 0) && r.last == log.last && r.count == 0
  {
  }

  predicate MustRoll(log: Log, len: nat, segmentBytes: nat) {
    log.segs == [] || (log.count > 0 && Active(log.segs).Size() + len > segmentBytes)
  }

  /** An append opens a new segment exactly when there is none, or when the open
      one has taken frames and this run would make it longer than allowed; the
      run goes whole into the open segment, behind what it held. */
  lemma RollsIff(log: Log, frames: seq<Frame>, segmentBytes: nat, sync: bool)
    requires frames != [] && AppendAll(log, frames, segmentBytes, sync).Appended?
    ensures var r := AppendAll(log, frames, segmentBytes, sync).log;
            && r.segs != [] && r.last == log.last + |frames|
            && (if MustRoll(log, |EncodeAll(frames)|, segmentBytes)
                then |r.segs| == |log.segs| + 1 && r.count == |frames|
                     && Active(r.segs) == Seg(frames[0].seqno, frames, if sync then |frames| else 0)
                else |r.segs| == |log.segs| && r.count == log.count + |frames|
                     && Active(r.segs).first == Active(log.segs).first
                     && Active(r.segs).frames == Active(log.segs).frames + frames
                     && Active(r.segs).durable == if sync then |Active(r.segs).frames| else Active(log.segs).durable)
  {
    hide EncodeAll, Misplaced, Named, Roll, Write, Sync;
    if MustRoll(log, |EncodeAll(frames)|, segmentBytes) {
      RollOpens(log, frames[0].seqno);
      WriteJoins(Roll(log, frames[0].seqno), frames, sync);
    } else {
      WriteJoins(log, frames, sync);
    }
  }
}
