# Ticktape in Dafny

Ticktape is a sequencer framework: one node puts inputs in a total order,
journals each as a frame before applying it, runs a deterministic service over
the frames, and recovers by replaying them. This project models its core in
Dafny and proves what that core is for.

**The node under power loss.** `Sequencer` is the node as a state machine over
frames (stage, journal, apply, fire timers as frames, snapshot, prune, compact,
lose power, recover from anchor plus tail, reseat). `NodeInvariant`, `Recovery`
and `NodeRuns` prove the crash refinement over unbounded runs, for services that
restore exactly and for those that restore to a state nobody can tell apart;
`NodeWrites`, `NodeProgress`, `Firing`, `LoopTime`, `PeriodicTimers`,
`LaterTimers`, `SequencedTime`, `GroupCommit` and `BatchSafety` prove when
operations can fail, when the firing loop ends, what recovery does to sequenced
time, and when a batch is the same as single submits and survives a crash. Below it, `Log` is the journal as frames, `Disk` and
`Segment` the same journal as bytes in files that lose unsynced bytes,
`SnapshotFile` the snapshot format, `TimerWheel` the timers, `Execution` the
service as a fold. `Journal.Writer`, `TimerWheel.Timers` and `NodeHost.Host` are
the objects, changed in place and proved against those specifications.
`NodeRules`, `RecoveryRules` and `ReplicaRules` state what these operations leave
without naming them: how many snapshots are kept, what compaction removes, which
anchor is chosen among damaged files, what a follower refuses. `BookWire` and `ExchangeWire` are two complete services with their wire formats,
`Witness`, `Wedging` and `BatchDivergence` runs of such nodes written out in
full.

**The cluster.** `Election`, `Persist` and `ElectionProtocol` model promises
that are durable before a grant leaves; `Cluster`, `ClusterSafety` and
`ClusterSim` the whole protocol of submit, deliver, rebuild, elect, promote and
fence; `ClusterLoss` a run in which the code's own rebuild loses a committed
input. `ElectionRules` and `ClusterRules` state votes, verdicts and the history
from the operations alone: whose payload is at which seq, and what is released. `Commit` and `Release` model quorum watermarks and output release.

**The order book and the exchange.** `FlatBook` is the specification, a flat
priority list; `BookLevels`, `BookSnapshots` and `OrderBook` the levels, queues,
index and snapshot that refine it; `BookRules` and `ExchangeRules` the market's
rules in plain integers and who hears of what; `Exchange` and `ExchangeHost` sessions and ownership around it;
`BookOnNode` the book as a node's service.

**Transport and bytes.** `Reassembler` and `ReassemblerRules`, `ShmRing` and
`ShmRules`, `Codec`, `Frame`, `Layouts` for every format byte by byte, and the checksum in
`Crc32c`, `CrcRegister` and `CrcVector` (CRC32C as in section 12.1 of RFC 3720).

## Where the code does not meet its own promise

Each is kept as coded, shown by a lemma, and given its exact condition.

- A rebuilt follower restarts from nothing and may be counted again before it
  has caught up, so tier 2 can lose a released input
  (`ClusterLoss.RebuildFromScratchLoses`); safe exactly under
  `ClusterSafety.RebuildConditionIsExact`.
- A reopened journal counts the whole journal's frames as the open segment's; on
  a header-only segment a frame that does not fit makes it roll onto its own
  name (`Wedging.BookWedges`, `NodeWrites.CrashedRollWedges`, exact in
  `Log.AppendFailsIff`). The refused frame has used up its seq, so the node
  refuses everything from then on (`NodeWrites.RefusedForGood`,
  `NodeWrites.StuckRefuses`).
- Sequenced time can run backwards after a reseat
  (`Witness.BookTimeRunsBackwards`, exact in `SequencedTime.TimeSurvivesIff`).
- A batch is documented as identical to single submits. Under a constant clock
  it is if and only if it is quiet; without a cadence, under any clock, if and
  only if it is quiet and none of its later inputs would have read a later time
  (`GroupCommit.BatchIsSubmitsIff`). One that is not quiet can leave a live
  state that no recovery reproduces, with everything synced
  (`BatchDivergence.BatchBreaksRecovery`), and at tier 2 releases outputs out of
  seq order (`Release.LateRelease`, exact in `Release.LateStallsIff`). Quiet
  batches survive crashes (`BatchSafety.GroupCrashRefinement`).
- The firing loop is documented to terminate because firing does not advance
  time. A handler that re-arms its timer at the time it fires keeps it running
  (`Witness.PulseNeverEnds`). With a snapshot cadence the loop's own marks read
  the clock and do advance time, so a handler that arms strictly later than now
  can too (`Witness.OutrunNeverEnds`): handlers that arm later than now always
  end the loop if and only if that time comes to rest
  (`LaterTimers.LaterEndsIff`), which it does without a cadence or with a bounded
  clock. For timers that re-arm themselves the condition is exact for any
  cadence, clock and wheel (`PeriodicTimers.PeriodicEndsIff`,
  `PeriodicTimers.SingleEndsIff`). What is enough in general is
  `Firing.FiringSettles`.
- A frame a majority holds can stay unreleased (`Release.AheadStalls`): for
  frames taken in seq order, if and only if `committed` was at or above its seq
  when it was applied (`Release.StallsIff`), which needs a follower that acks
  beyond the tip (`Release.RunPrompt`).
- Restoring an exchange drops empty entries of the reverse index, and a stale
  first contact adds an entry of 0; neither can be observed
  (`Exchange.RestoreAlike`, `Exchange.StaleIsNothing`), not even across crashes
  (`ExchangeWire.ExchangeSurvivesCrashes`).

## Hypotheses

- Power loss keeps each file's synced bytes and a prefix of the rest, perhaps
  with one damaged byte, and falls between two sequenced frames (more points
  than between two calls), never inside a segment roll, a reseat or a snapshot
  write. File creation is durable.
- The service is deterministic, keeps states it calls alike alike, restores a
  snapshot to a state alike, and its codec round-trips whatever is within its
  field widths (`Execution.Lawful`). The order book, the exchange and a periodic
  timer service are shown to be such (`BookWire.BookIsLawful`,
  `ExchangeWire.ExchangeIsLawful`, `Witness.PulseIsLawful`). The clock and the
  fsync policy are arbitrary.
- A run goes on while the node is within the integer widths of its formats
  (`Sequencer.Roomy`: the state within its snapshot type, fewer than 2^32 timers
  with 64-bit fields, snapshot payloads below 2^32 bytes). Beyond them the code
  truncates lengths; such runs are not modelled.
- Seqs, stamps, epochs and share counters stay below 2^64; the bounds are stated
  where they matter.
- Votes reach only the candidate that asked. Replica ids are distinct.

## Model

| member | source | states |
|---|---|---|
| NodeRuns.CrashRefinement | crates/ticktape-runtime/src/lib.rs:364-502 | after any run of submits, firings, ticks, fences, syncs and power losses from an empty disk, and any further power loss: reopening succeeds at a `tip` at or above everything synced or snapshotted, the wheel is that of replaying the first `tip` frames of the live history, and the service state is one the application cannot tell from it |
| NodeRuns.CrashRefinementExact | crates/ticktape-runtime/src/lib.rs:364-502 | for a service whose states are alike only when equal, the recovered machine is that replay |
| NodeRuns.SyncedNeverLost | crates/ticktape-runtime/src/lib.rs:841-843 | whatever a sync has covered is still there, unchanged, after every later run, power losses included |
| NodeRuns.RunOk | crates/ticktape-runtime/src/lib.rs:364-790 | over every run that stays within the wire's integer widths the node invariant holds and everything durable at the start is a common prefix of both histories |
| NodeRuns.NextOk | crates/ticktape-runtime/src/lib.rs:364-790 | one action of any kind keeps the node invariant and forgets nothing durable |
| NodeRuns.NextLoss | crates/ticktape-runtime/src/lib.rs:364-502 | a power loss anywhere in a run always reopens, on a prefix of the live history |
| NodeRuns.FreshOpens | crates/ticktape-runtime/src/lib.rs:364-502 | an empty directory opens as a genesis node that satisfies the invariant |
| NodeRuns.FollowerOfLive | crates/ticktape-transport/src/replica.rs:81-145 | a follower fed the live history, with no wheel of its own, ends in a service state alike to the leader's, with the leader's outputs and no error |
| Recovery.PowerLossOk | crates/ticktape-runtime/src/lib.rs:364-502 | recovery step: every disk power loss can leave recovers to the replay of a prefix, no snapshot is purged, no error arises, also when the anchor lies above the journal tail and the journal is reseated |
| Recovery.AnchorIsNewest | crates/ticktape-runtime/src/lib.rs:384-403 | recovery anchors on the newest snapshot and restores a machine like the replay of the frames it covers; only an empty store has no anchor, and then history starts at 1, so uncovered history cannot arise |
| Recovery.AnchorAndTail | crates/ticktape-runtime/src/lib.rs:428-475 | anchor state plus the surviving tail is like replaying the whole surviving history, on both sides of the anchor-above-tail case |
| Recovery.ReplayAboveSkips | crates/ticktape-runtime/src/lib.rs:428-432 | frames at or below the anchor are skipped and the rest replayed in order |
| Recovery.FramesOnDisk | crates/ticktape-journal/src/lib.rs:287-322 | the frames found on disk are the history from the first surviving seq on |
| RecoveryRules.AnchorExact | crates/ticktape-runtime/src/lib.rs:384-403 | for any files, torn or damaged ones among them: the anchor is the newest that parses, is within the journal's reach and decodes, and there is none only if no file will do |
| RecoveryRules.OpensIff | crates/ticktape-runtime/src/lib.rs:364-502 | for any directory: when opening reports uncovered history or a corrupt frame, which seq it reaches otherwise, and that exactly the snapshots at or below it are kept |
| NodeInvariant.SubmitOk | crates/ticktape-runtime/src/lib.rs:525-531 | submit keeps the invariant: live application equals replay of the journaled frame, disk stays covered, durable prefix never shrinks |
| NodeInvariant.FireOk | crates/ticktape-runtime/src/lib.rs:625-637 | a timer firing keeps the invariant, including a handler that re-arms its own id |
| NodeInvariant.ControlOk | crates/ticktape-runtime/src/lib.rs:686-713 | ticks and fences keep the invariant |
| NodeInvariant.SyncLogOk | crates/ticktape-journal/src/lib.rs:559-568 | a sync makes every frame sequenced so far durable and keeps the invariant |
| NodeInvariant.FiringApplied | crates/ticktape-runtime/src/lib.rs:454-472 | popping before the handler live and cancelling before it on replay leave the same service and wheel |
| NodeInvariant.SnapshotOk | crates/ticktape-runtime/src/lib.rs:729-755 | snapshot on cadence: the file is the replay of the frames so far, the mark changes no state, pruning and compaction leave recovery its base |
| NodeInvariant.RetainOk | crates/ticktape-runtime/src/lib.rs:747-753 | prune then compact: the newest snapshot survives, segments stay a gapless run, history stays covered, every snapshot that was usable stays usable |
| NodeInvariant.PruneKeeps | crates/ticktape-journal/src/snapshot.rs:184-206 | pruning keeps the newest snapshot and alters no file it keeps |
| NodeRules.PruneExact | crates/ticktape-journal/src/snapshot.rs:184-206 | pruning keeps the newest snapshots, unchanged: the lesser of how many there are and `keep`, at least one; each kept is newer than each removed |
| NodeRules.RetainedExactly | crates/ticktape-runtime/src/lib.rs:729-755 | the directory after a snapshot: the new file, and with it the newest old ones, as many as are retained |
| NodeRules.CompactExact | crates/ticktape-journal/src/lib.rs:371-408 | compaction removes exactly the leading segments whose successor starts at or below the cutoff plus one, never the open one |
| NodeRules.RetainCompacts | crates/ticktape-runtime/src/lib.rs:747-753 | retention removes a segment exactly when the next one starts at or below the oldest snapshot kept |
| NodeRules.CadenceIff | crates/ticktape-runtime/src/lib.rs:729-735 | snapshots fall on the multiples of the cadence, a cadence of zero counting as one |
| NodeRules.MarkNames | crates/ticktape-runtime/src/lib.rs:738-745 | off the cadence nothing is written; on it exactly one mark follows, at the next seq, naming the snapshot's seq |
| NodeRules.StageCarries | crates/ticktape-runtime/src/lib.rs:766-790 | a frame carries the next seq, the stream's id, what was asked for, and the later of the clock and the last stamp |
| NodeRules.FencePublished | crates/ticktape-runtime/src/lib.rs:703-713 | a fence's frame names its epoch, its own seq and the schema, in that order |
| NodeRules.RollsIff | crates/ticktape-journal/src/lib.rs:500-542 | an append opens a new segment exactly when there is none, or the open one has taken frames and the run would make it too long; the run goes whole behind what the open segment held, durable only if synced |
| NodeProgress.NextSucceeds | crates/ticktape-runtime/src/lib.rs:525-790 | when every frame fits a segment no append, snapshot or recovery ever fails, and an action is taken if and only if the state it leaves is within the wire's widths |
| NodeWrites.SequenceFailsIff | crates/ticktape-journal/src/lib.rs:459-489 | sequencing a frame fails exactly when the open segment is header-only, the reopened writer still counts earlier frames and the frame does not fit beside the header |
| NodeWrites.CrashedRollWedges | crates/ticktape-journal/src/lib.rs:329-341 | a crash right after a roll leaves such a journal, and then exactly the oversized frames are refused because the roll would reuse its own file name |
| Wedging.BookWedges | crates/ticktape-journal/src/lib.rs:329-341 | a run written out in full: two orders in segments too small for both, a power loss that keeps nothing of the second segment, and the node refuses every order there is |
| NodeWrites.RefusedForGood | crates/ticktape-runtime/src/lib.rs:766-790 | a refused frame has used up its seq: from then on the node's next seq is ahead of its journal |
| NodeWrites.StuckRefuses | crates/ticktape-journal/src/lib.rs:459-489 | and every later frame is refused as out of order, naming the journal's next seq and the node's |
| NodeWrites.FireSucceeds | crates/ticktape-runtime/src/lib.rs:625-637 | on a node that can write, with a timer due, a firing is journaled and applied, reading the clock at most once more, for a mark |
| NodeProgress.FinishRoomy | crates/ticktape-runtime/src/lib.rs:729-755 | a frame whose machine and snapshot payload are within the widths leaves the node within them |
| NodeProgress.MidPruneCovered | crates/ticktape-journal/src/snapshot.rs:197-202 | between any two removals of a prune recovery still has its base |
| NodeProgress.MidCompactCovered | crates/ticktape-journal/src/lib.rs:398-406 | between any two removals of a compaction the segments are a gapless run that the kept snapshots cover |
| NodeProgress.UsableUntilReseat | crates/ticktape-runtime/src/lib.rs:384-394 | until a reseat moves the start of history, every retained snapshot is a usable anchor |
| SequencedTime.NextTimed | crates/ticktape-runtime/src/lib.rs:782-790 | no operation of a live node lets sequenced time run backwards, whatever the clock reads |
| SequencedTime.StampAfterLoss | crates/ticktape-runtime/src/lib.rs:425-432 | recovery resumes from the stamp of the last frame left in the journal, or from zero when none is left |
| SequencedTime.TimeSurvivesIff | crates/ticktape-runtime/src/lib.rs:425-432 | after power loss no clock reading can send time backwards if and only if the journal kept a frame stamped as late as the recovered history's last, or that history carries no time |
| SequencedTime.TimeRunsBackwards | crates/ticktape-runtime/src/lib.rs:412-432 | a run in which it does, for every service that restores exactly and whose empty state fits a snapshot: tick at 5, lose power with a snapshot but nothing synced, tick again, and frame 2 is stamped 3 |
| Witness.BookTimeRunsBackwards | crates/ticktape-runtime/src/lib.rs:412-432 | that run on a node hosting the order book under a configuration written out in full, with no hypothesis left |
| GroupCommit.BatchIsSubmits | crates/ticktape-runtime/src/lib.rs:533-564 | with the firing loop run until nothing is due on both sides, under a constant clock or without a cadence: a quiet batch (no cadence and nothing left due before its last input, read off the wheel, the stamp and each input's requests) whose later inputs would have read no later time gives the seqs, frames, outputs, state, wheel and snapshots of submitting one by one, and goes through if and only if that does and the journal takes the run |
| GroupCommit.BatchIsSubmitsIff | crates/ticktape-runtime/src/lib.rs:533-564 | of a batch and single submits that both go through, under a constant clock or, without a cadence, under any clock: they are the same if and only if the batch is quiet and no reading after the first is later than the batch's stamp |
| GroupCommit.SettledSame | crates/ticktape-runtime/src/lib.rs:625-637 | two nodes that differ only in how they wrote their journal: one firing loop ends if and only if the other does, after equally many turns, with the same frames, outputs and state |
| GroupCommit.BatchInOrderIff | crates/ticktape-runtime/src/lib.rs:543-564 | a batch publishes its frames in seq order, the order recovery replays, if and only if it is quiet |
| BatchSafety.QuietBatch | crates/ticktape-runtime/src/lib.rs:543-564 | a quiet batch is its frames journaled and applied in order, the snapshot of its last seq if that is on the cadence, and then the firings of its last input |
| BatchSafety.GroupedOk | crates/ticktape-runtime/src/lib.rs:543-564 | a quiet batch keeps the node invariant and never lowers what is durable |
| BatchSafety.GroupCrashRefinement | crates/ticktape-runtime/src/lib.rs:364-564 | crash refinement over runs that mix every action with quiet batches |
| BatchDivergence.BatchBreaksRecovery | crates/ticktape-runtime/src/lib.rs:533-564 | a batch of two orders on the order book, everything synced: live the first has expired and the second rests, and every recovery finds that they traded |
| BatchDivergence.BatchRuns | crates/ticktape-runtime/src/lib.rs:533-564 | that batch journals bid, ask, expiry and applies bid, expiry, ask |
| BatchDivergence.SinglesRun | crates/ticktape-runtime/src/lib.rs:525-531 | the same two orders submitted singly give the ask seq 3, not 2 |
| GroupCommit.BatchLogSame | crates/ticktape-journal/src/lib.rs:500-542 | one batch append and single appends leave journals that read back the same frames, however the segments fall |
| GroupCommit.FiresSame | crates/ticktape-runtime/src/lib.rs:625-637 | turn by turn: nodes that differ only in how they wrote their journal both succeed, fire the same timers and release the same outputs |
| Execution.FollowerAgrees | crates/ticktape-transport/src/replica.rs:81-145 | over any stretch of a replayable history a follower reaches the same service state, emits the same outputs and raises no error |
| Execution.ReplayAppend | crates/ticktape-runtime/src/lib.rs:269-286 | replaying in two parts is replaying the whole |
| Execution.ReplaySame | crates/ticktape-runtime/src/lib.rs:269-286 | replaying any frames from machines alike fails alike, ends alike and gives rise to the same outputs |
| Execution.ReplayPrefix | crates/ticktape-runtime/src/lib.rs:269-286 | a history that replays, replays to every point before its end, and on from there |
| Execution.EmittedAppend | crates/ticktape-runtime/src/lib.rs:570-590 | outputs of a history split at any point into outputs of its parts |
| Execution.Replica.Apply | crates/ticktape-transport/src/replica.rs:81-145 | one frame: out-of-order, corrupt and schema-mismatch errors and, as coded, a seq that has already advanced when the latter two are reported |
| ReplicaRules.OrderIff | crates/ticktape-transport/src/replica.rs:81-89 | a frame that is not the next changes nothing and is reported with both numbers; the next one always moves the follower on |
| ReplicaRules.AcceptedInOrder | crates/ticktape-transport/src/replica.rs:81-89 | any stream that raises no error was gapless, in order and without repeats |
| ReplicaRules.FenceIff | crates/ticktape-transport/src/replica.rs:123-143 | a fence of another schema is reported with both versions, one of the same passes, a shorter payload is no fence and a longer one is corrupt |
| ReplicaRules.FenceNames | crates/ticktape-runtime/src/lib.rs:703-706 | the fence's first eight bytes decode to its epoch, the next to its first seq, the last four to the schema |
| ReplicaRules.AppliedOrCorrupt | crates/ticktape-transport/src/replica.rs:91-122 | inputs and firings that decode are run on the frame's seq and stamp; those that do not are reported and leave the state |
| Execution.Replica.FromSnapshot | crates/ticktape-transport/src/replica.rs:68-75 | a replica resumed from a snapshot holds the restored state at that seq |
| Execution.IdRoundTrip | crates/ticktape-runtime/src/lib.rs:454-459 | a fired timer's id is read back from its frame |
| NodeHost.Host.Submit | crates/ticktape-runtime/src/lib.rs:525-531 | the object's submit is the machine's submit followed by exactly the firings its time makes due, leaves nothing due, and returns the outputs replaying the published frames gives rise to |
| NodeHost.Host.FireDueTimers | crates/ticktape-runtime/src/lib.rs:625-637 | the firing loop, for any handlers and any clock: if it ends, its effect is that many machine firings, nothing due is left and the outputs are those of the fired frames; otherwise it names the firing that the journal refused, or has used up the 64-bit seqs |
| NodeHost.Host.SubmitFrame | crates/ticktape-runtime/src/lib.rs:525-531 | sequence, journal, apply and snapshot one input, tied to the machine step and to its replay |
| NodeHost.Host.FireFrame | crates/ticktape-runtime/src/lib.rs:627-634 | one firing as a journaled frame stamped at the trigger time |
| NodeHost.Host.TickNow | crates/ticktape-runtime/src/lib.rs:686-694 | a tick, then the firings it makes due, with nothing due left |
| NodeHost.Host.FenceNow | crates/ticktape-runtime/src/lib.rs:703-713 | the fence frame naming epoch, next seq and schema |
| NodeHost.Host.SnapshotOnCadence | crates/ticktape-runtime/src/lib.rs:729-755 | write, mark, prune, compact, or fail without a mark when the name exists |
| NodeHost.Host.PruneSnapshots | crates/ticktape-journal/src/snapshot.rs:184-206 | the removal loop leaves exactly the newest `retain` snapshots, at least one |
| NodeHost.Host.SequenceFrame | crates/ticktape-runtime/src/lib.rs:766-790 | stage (clamped stamp, next seq) and journal; after a refusal the seq and the stamp are spent |
| NodeHost.Host.RunStep | crates/ticktape-runtime/src/lib.rs:570-590 | new service state, and the step's timer requests folded into the wheel in order |
| NodeHost.OpenHost | crates/ticktape-runtime/src/lib.rs:364-502 | opening the bytes power loss left behind is the machine's open on some prefix the disk may have kept: recovered node, uncovered history or corrupt frame alike |
| NodeHost.Restart | crates/ticktape-runtime/src/lib.rs:364-502 | crash refinement down to bytes: whatever power loss leaves of the files of a node that satisfies the invariant, opening them raises no error and gives a node like the replay of a prefix of its history reaching everything durable |
| NodeHost.PickAnchor | crates/ticktape-runtime/src/lib.rs:384-403 | the newest-first loop returns the first snapshot that parses, is not below the journal floor and decodes |
| NodeHost.ReplayTail | crates/ticktape-runtime/src/lib.rs:428-475 | the recovery loop over the frames, for any frames, is the replay above the anchor |
| NodeHost.Rebuild | crates/ticktape-runtime/src/lib.rs:404-425 | reseat when the anchor lies above the tail, purge, replay |
| Firing.FiringEnds | crates/ticktape-runtime/src/lib.rs:618-637 | if no handler run between now and a horizon leaves a timer due by it, and the clock readings this loop can still make stay within it, the loop stops after at most as many turns as timers due by it: with nothing due, or with a frame the journal refused |
| Firing.FiringSettles | crates/ticktape-runtime/src/lib.rs:618-637 | on a node that can write it ends with nothing due |
| Firing.FiringSettlesNow | crates/ticktape-runtime/src/lib.rs:618-637 | without a snapshot cadence it is enough that handlers arm later than now; the clock plays no part |
| Firing.IdleSettles | crates/ticktape-runtime/src/lib.rs:618-637 | with handlers that leave nothing armed it ends under any clock and any cadence, within as many turns as timers are armed |
| Firing.EndsIff | crates/ticktape-runtime/src/lib.rs:618-637 | on any clock and any cadence, for handlers that either keep the loop's bound or leave something due whenever they run from now on: the loop ends if and only if they keep it, or nothing was due |
| LaterTimers.LaterEndsIff | crates/ticktape-runtime/src/lib.rs:618-637 | handlers that arm only for later than now end the loop from a point of a node's run, whatever they arm and whatever is armed, if and only if the time its own marks stamp comes to rest from there: a condition on clock and cadence alone |
| LaterTimers.RestingEnds | crates/ticktape-runtime/src/lib.rs:618-637 | if it comes to rest, for every service whose handlers arm later than now |
| LaterTimers.RestlessOutruns | crates/ticktape-runtime/src/lib.rs:742-744 | if it never does, a service whose handlers arm later than now and a wheel on which every turn succeeds and leaves a timer due |
| LoopTime.FiresMoment | crates/ticktape-runtime/src/lib.rs:625-637 | seq, clock readings and sequenced time after any number of turns are those of the cadence and the clock, whatever fires |
| LoopTime.BoundedRests | crates/ticktape-runtime/src/lib.rs:782-790 | they come to rest if the clock stays below some limit |
| PeriodicTimers.PeriodicEndsIff | crates/ticktape-runtime/src/lib.rs:618-637 | for handlers that re-arm their own timer a fixed delay later, any wheel, any clock and any cadence: the loop ends if and only if after some number of turns no more deadlines have come due, by the wheel, the delay, the clock and the cadence, than turns were taken |
| PeriodicTimers.SingleEndsIff | crates/ticktape-runtime/src/lib.rs:618-637 | with a single timer, due now: if and only if some turn moves time on by less than the delay |
| PeriodicTimers.PlainEndsIff | crates/ticktape-runtime/src/lib.rs:618-637 | on a node without a cadence: if and only if the delay is not zero, or nothing was due |
| Firing.FiringOrder | crates/ticktape-runtime/src/lib.rs:618-637 | every timer the loop fires was armed at its start, none fires twice, and earlier turns fire timers earlier in (deadline, set-at, id) |
| Firing.Endless | crates/ticktape-runtime/src/lib.rs:627-634 | if every handler run from now on leaves a timer already due, every turn succeeds and leaves something due, for ever, on any clock and any cadence |
| Witness.PulseNeverEnds | crates/ticktape-runtime/src/lib.rs:627-634 | such a node written out in full: one input, and every one of its turns succeeds and leaves a timer due |
| Witness.PulseEndsIff | crates/ticktape-runtime/src/lib.rs:618-637 | on that node, which has no cadence, the loop ends if and only if the delay is not zero |
| Witness.OutrunNeverEnds | crates/ticktape-runtime/src/lib.rs:742-744 | a node that snapshots after every frame, with a clock that moves on by one at every reading and a handler that arms one later than now: every turn succeeds and leaves a timer due |
| Witness.OutrunIff | crates/ticktape-runtime/src/lib.rs:742-744 | on that node the loop ends if and only if the delay is more than one |
| Firing.FireShrinks | crates/ticktape-runtime/src/lib.rs:625-637 | one firing removes the earliest timer and adds none due by the horizon |
| TimerWheel.NextDueIsEarliest | crates/ticktape-runtime/src/timer.rs:62-70 | nothing is due if and only if every deadline is in the future; otherwise the timer chosen is due and precedes every other in (deadline, set-at, id) |
| RecoveryRules.NextDuePlain | crates/ticktape-runtime/src/timer.rs:62-70 | the timer fired is due, and no other has an earlier deadline, or the same and an earlier set-at, or both the same and a lower id |
| RecoveryRules.LastRequestDecides | crates/ticktape-runtime/src/timer.rs:35-56 | of a step's requests the last for an id decides: cancelled, or set for its deadline and tagged with the step's seq |
| RecoveryRules.EntriesAscend | crates/ticktape-runtime/src/timer.rs:74-80 | a snapshot lists the armed timers by ascending id, with their deadlines and set-ats |
| TimerWheel.RearmEntries | crates/ticktape-runtime/src/timer.rs:74-88 | restoring a wheel's snapshot gives back every timer with its deadline and set-at |
| TimerWheel.Timers.Set | crates/ticktape-runtime/src/timer.rs:43-49 | arming replaces any earlier deadline of the id, in both indexes |
| TimerWheel.Timers.Cancel | crates/ticktape-runtime/src/timer.rs:52-56 | cancelling removes the id from both indexes |
| TimerWheel.Timers.PopDue | crates/ticktape-runtime/src/timer.rs:62-70 | removes and returns the earliest due timer from both indexes, or nothing |
| TimerWheel.Timers.ApplyAll | crates/ticktape-runtime/src/timer.rs:35-40 | a step's requests in order |
| TimerWheel.Timers.Restore | crates/ticktape-runtime/src/timer.rs:82-88 | the restore loop |
| Log.AppendFailsIff | crates/ticktape-journal/src/lib.rs:459-542 | an in-order append fails if and only if the open segment is header-only, the writer counts earlier frames and the run does not fit |
| Log.AppendOk | crates/ticktape-journal/src/lib.rs:459-542 | a successful append extends the journal by exactly the frames, keeps segments gapless and closed segments synced, and never lowers what is durable |
| Log.CompactOk | crates/ticktape-journal/src/lib.rs:371-408 | compaction keeps a gapless run, what is durable, and never starts history above the cutoff plus one |
| Log.ReseatOk | crates/ticktape-journal/src/lib.rs:418-437 | reseating leaves one header-only segment at the new seq |
| Log.CutOk | crates/ticktape-journal/src/lib.rs:249-361 | a journal cut by power loss reopens to a prefix that reaches every synced frame |
| Log.FramesOfHist | crates/ticktape-journal/src/lib.rs:287-322 | reading all segments yields the history from the first surviving seq |
| Log.SyncOk | crates/ticktape-journal/src/lib.rs:559-568 | sync makes everything appended durable and changes nothing else |
| Disk.CrashedDiskScans | crates/ticktape-journal/src/lib.rs:263-322 | scanning what power loss left of a directory finds every closed segment whole and a prefix of the open one that reaches its synced frames |
| Disk.TrimmedStored | crates/ticktape-sim/src/storage.rs:194-206 | truncating the torn tail leaves a directory that stores exactly the surviving segments, all of it durable |
| Disk.SortedIsFirsts | crates/ticktape-journal/src/lib.rs:256-261 | listing the directory by name lists the segments in seq order |
| Journal.ScanAll | crates/ticktape-journal/src/lib.rs:249-322 | the scan loop, for any files whatever: first bad header, gap, corrupt closed segment, or the segments and the torn offset of the last |
| Journal.Writer.Reopened | crates/ticktape-journal/src/lib.rs:249-361 | any directory power loss leaves of a writer's reopens to a valid writer on a prefix that reaches every synced frame |
| Journal.OpenJournal | crates/ticktape-journal/src/lib.rs:219-229 | open returns that writer and exactly the frames it holds |
| Journal.Writer.AppendBatch | crates/ticktape-journal/src/lib.rs:500-542 | byte-level batch append: whole run accepted or none, with the errors of the frame-level log |
| Journal.Writer.Append | crates/ticktape-journal/src/lib.rs:459-489 | a batch of one |
| Journal.Writer.RollSegment | crates/ticktape-journal/src/lib.rs:570-586 | seal and start a file named by its first seq; fails exactly when the open segment is header-only |
| Journal.Writer.SyncNow | crates/ticktape-journal/src/lib.rs:559-568 | unsynced bytes of the open file become synced, and only if dirty |
| Journal.Writer.CompactBelow | crates/ticktape-journal/src/lib.rs:371-408 | the removal loop deletes exactly the leading segments at or below the cutoff, never the open one |
| Journal.Writer.ReseatTo | crates/ticktape-journal/src/lib.rs:418-437 | a fresh header-only segment and nothing else |
| SnapshotFile.SnapshotRoundTrip | crates/ticktape-journal/src/snapshot.rs:61-243 | a written snapshot file parses back to its seq, epoch and payload |
| SnapshotFile.CutSnapshotSkipped | crates/ticktape-journal/src/snapshot.rs:214-243 | a snapshot cut anywhere is skipped |
| SnapshotFile.DamagedSnapshotSkipped | crates/ticktape-journal/src/snapshot.rs:214-243 | a snapshot with one damaged byte is skipped |
| Segment.CutScan | crates/ticktape-journal/src/lib.rs:287-322 | for every frame list and every byte cut the scan returns exactly the frames wholly before the cut and their total length |
| Segment.DamagedScan | crates/ticktape-journal/src/lib.rs:287-322 | with one damaged byte, cut anywhere after it, the scan returns exactly the frames wholly before the damage |
| Segment.AppendAfterTruncation | crates/ticktape-journal/src/lib.rs:302-307 | after truncation further frames scan back behind the surviving ones |
| Segment.CrashScan | crates/ticktape-sim/src/storage.rs:64-79 | power loss on a segment: synced frames survive, the scan finds a prefix, truncation leaves exactly it |
| Segment.ScanSegment | crates/ticktape-journal/src/lib.rs:287-322 | the cursor loop computes the scan for any bytes |
| Segment.HeaderRoundTrip | crates/ticktape-journal/src/lib.rs:602-636 | a segment header parses back whatever follows it |
| Crc32c.Crc32cSw | crates/ticktape-core/src/crc32c.rs:37-43 | the table-driven loop equals bit-by-bit division for every input |
| Crc32c.BuildTable | crates/ticktape-core/src/crc32c.rs:15-33 | each table entry is its index shifted through the polynomial bit by bit |
| Crc32c.FoldBytes | crates/ticktape-core/src/crc32c.rs:37-43 | folding bytes through the table is feeding their bits |
| CrcVector.OfNothing | crates/ticktape-core/src/crc32c.rs:116-129 | nothing has checksum 0 |
| CrcVector.OfFourOnes | crates/ticktape-core/src/crc32c.rs:37-43 | four bytes of ones cancel the start value: their checksum is all ones |
| CrcVector.OfOnesAndHighBit | crates/ticktape-core/src/crc32c.rs:37-43 | and with a byte of its highest bit behind them it is the complement of the polynomial, which pins start, bit order, polynomial and complement |
| Crc32c.BurstDetected | crates/ticktape-core/src/crc32c.rs:11-43 | inputs that differ only within four consecutive bytes have different checksums |
| Crc32c.OneByteDetected | crates/ticktape-core/src/crc32c.rs:11-43 | inputs that differ in one byte have different checksums |
| CrcRegister.FeedByTable | crates/ticktape-core/src/crc32c.rs:37-43 | one table step of the register is eight single-bit steps |
| Frame.RoundTrip | crates/ticktape-core/src/frame.rs:143-200 | decoding an encoded frame followed by any bytes returns the frame and those bytes |
| Frame.Canonical | crates/ticktape-core/src/frame.rs:165-200 | whatever decodes is the encoding of what it decoded to |
| Frame.CutFails | crates/ticktape-core/src/frame.rs:165-200 | every proper prefix of a frame is reported truncated |
| Frame.DamageFails | crates/ticktape-core/src/frame.rs:165-200 | a frame with one damaged byte never decodes: header or payload checksum, by position |
| Frame.DamageAndCutFails | crates/ticktape-core/src/frame.rs:165-200 | nor does one both damaged and cut |
| Frame.KindCode | crates/ticktape-core/src/frame.rs:60-75 | frame kinds have distinct wire codes that map back |
| Layouts.KindCodes | crates/ticktape-core/src/frame.rs:60-75 | the wire code of every kind |
| Layouts.FrameLayout | crates/ticktape-core/src/frame.rs:143-160 | the bytes of a frame, field by field at their offsets |
| Layouts.BadHeadersRefused | crates/ticktape-core/src/frame.rs:165-200 | an intact header of an unknown kind or an oversized payload is refused with the code or the length |
| Layouts.SegmentLayout | crates/ticktape-journal/src/lib.rs:602-636 | the bytes of a segment header |
| Layouts.SnapshotLayout | crates/ticktape-journal/src/snapshot.rs:61-100 | the bytes of a snapshot file |
| Layouts.RecordLayout | crates/ticktape-cluster/src/persist.rs:121-130 | the bytes of an acceptor's promise |
| Layouts.ByteAt | crates/ticktape-core/src/codec.rs:86-106 | byte i of an encoded integer is its i-th base-256 digit |
| ElectionProtocol.AtMostOneWinner | crates/ticktape-cluster/src/election.rs:132-162 | over all interleavings of requests, lost, repeated or late replies and acceptor crashes at any point inside the state file's rewrite, no two elections for one epoch are both won |
| ElectionProtocol.NeverGrantedTwice | crates/ticktape-cluster/src/persist.rs:69-146 | over the same runs no acceptor has sent two different grants for one epoch |
| ElectionProtocol.GrantSentOnce | crates/ticktape-cluster/src/persist.rs:110-119 | the grant that ends a save is the first its acceptor sends for that epoch, so none is sent twice |
| ElectionProtocol.StepKeeps | crates/ticktape-cluster/src/persist.rs:69-146 | each protocol step, the three inside a save included, keeps file, memory and messages sent in agreement |
| Persist.RecordRoundTrip | crates/ticktape-cluster/src/persist.rs:121-162 | a saved promise is read back |
| Persist.DamagedRecordRefused | crates/ticktape-cluster/src/persist.rs:149-162 | a damaged record is refused |
| Persist.CrashWhileSaving | crates/ticktape-cluster/src/persist.rs:121-146 | power loss during a save leaves the new promise or a file that is refused, never an older promise |
| Persist.PersistentAcceptor.Handle | crates/ticktape-cluster/src/persist.rs:110-119 | a grant is returned only once the file holds its epoch |
| Persist.OpenAcceptor | crates/ticktape-cluster/src/persist.rs:69-91 | opening recovers the promise the file holds, and refuses a file that does not parse |
| Election.Acceptor.Handle | crates/ticktape-cluster/src/election.rs:75-88 | grants raise the promise; anything at or below it is rejected with it |
| Election.Candidate.OnReply | crates/ticktape-cluster/src/election.rs:132-147 | the tally after one reply: stale epochs ignored, granters counted once, loss remembered |
| ElectionRules.VerdictIs | crates/ticktape-cluster/src/election.rs:132-162 | over any replies, in any order and with any repeats: won if and only if a majority of distinct acceptors granted the epoch, with the highest of their high-waters; else lost if and only if one had promised the epoch or a later one, naming the highest promise; else pending |
| ElectionRules.GrantedIff | crates/ticktape-cluster/src/election.rs:75-88 | over any requests: one is granted if and only if its epoch is above the first promise and every epoch asked for since |
| ElectionRules.PromiseIsHighest | crates/ticktape-cluster/src/election.rs:75-88 | after any requests the promise is the highest epoch asked for, or what it was |
| ElectionRules.MajorityIsLeast | crates/ticktape-cluster/src/lib.rs:78-80 | a majority is the least number of which two must meet |
| ClusterSafety.NoCommittedLoss | crates/ticktape-cluster/tests/cluster_sim.rs:182-475 | in every run with fencing on, for any number of nodes: no violation is raised (no seq and epoch get two payloads, no double winner, no fence below a released seq), every unflagged node holds a prefix of the canonical history, and nothing released is lost, provided each rebuild meets the exact condition below |
| ClusterRules.HistoryIsSubmitted | crates/ticktape-cluster/tests/cluster_sim.rs:182-209 | over every run the canonical history is, seq by seq, the submissions that found a leader and were not fenced off, with their payloads and times, and the fences; and exactly the inputs below the cursor are released |
| ClusterRules.HeldIsSubmitted | crates/ticktape-cluster/tests/cluster_sim.rs:182-282 | every seq an unflagged node holds carries the payload of the submission that took it, and what is released was submitted |
| ClusterRules.EveryRunStands | crates/ticktape-cluster/tests/cluster_sim.rs:284-311 | over every run whoever leads can be reached and knows it, exactly the killed are dead and a majority is alive |
| ClusterRules.ElectionSucceeds | crates/ticktape-cluster/tests/cluster_sim.rs:313-373 | a lone candidate whose requests reach a majority is elected in a fresh epoch, whatever else is lost or repeated |
| ClusterRules.ElectRules | crates/ticktape-cluster/tests/cluster_sim.rs:313-373 | whoever wins the tally leads in the new epoch; if nobody does, leader and epoch stay |
| ClusterRules.KillRules | crates/ticktape-cluster/tests/cluster_sim.rs:284-294 | a kill takes the leader down if and only if a majority stays alive |
| ClusterRules.PartitionRules | crates/ticktape-cluster/tests/cluster_sim.rs:296-311 | a live node is cut off or let back, and a leader cut off no longer leads |
| ClusterRules.DeliverRules | crates/ticktape-cluster/tests/cluster_sim.rs:226-264 | a delivery extends the node's prefix by one entry; a fence makes it adopt the epoch and stop leading |
| ClusterRules.ReleaseExact | crates/ticktape-cluster/tests/cluster_sim.rs:147-164 | releasing passes the limit and releases exactly the inputs on the way |
| ClusterRules.CommittedIsGreatest | crates/ticktape-cluster/tests/cluster_sim.rs:131-145 | the tier 2 limit is the greatest seq up to which a majority of journals agree with the canonical history |
| ClusterSafety.NoLossIfRebuildsReach | crates/ticktape-cluster/tests/cluster_sim.rs:182-475 | the plain sufficient form: if every rebuild reaches what its node had vouched for, nothing released is lost |
| ClusterSafety.ReachingRunIsSafe | crates/ticktape-cluster/tests/cluster_sim.rs:182-475 | such rebuilds meet the exact condition throughout the run |
| ClusterSafety.StepKeeps | crates/ticktape-cluster/tests/cluster_sim.rs:166-475 | each operation keeps the cluster invariant and, at tier 2, the coverage of released seqs by every majority |
| ClusterSafety.CoverageIsExact | crates/ticktape-cluster/tests/cluster_sim.rs:375-475 | every possible majority's fence keeps the highest released seq if and only if fewer than a majority of nodes are short of it |
| ClusterSafety.RebuildConditionIsExact | crates/ticktape-cluster/tests/cluster_sim.rs:266-282 | delivering to a flagged node leaves every future fence safe if and only if the rebuild, with the frame after it, reaches the highest released seq or enough others do |
| ClusterLoss.RebuildFromScratchLoses | crates/ticktape-cluster/tests/cluster_sim.rs:266-282 | with the code's own restart point a five-node, fourteen-step run ends in a committed loss |
| ClusterSafety.AsyncLossIsTheTail | crates/ticktape-cluster/tests/cluster_sim.rs:375-475 | at tier 1 a promotion loses exactly the released seqs above the winner's common prefix, and nothing below it |
| ClusterSafety.Converges | crates/ticktape-cluster/tests/cluster_sim.rs:226-282 | enough deliveries bring any follower to exactly the canonical history |
| ClusterSafety.CommittedCovers | crates/ticktape-cluster/tests/cluster_sim.rs:131-145 | the commit computation is held by a majority of journals |
| ClusterSim.Harness.OpSubmit | crates/ticktape-cluster/tests/cluster_sim.rs:182-209 | submit as the harness performs it |
| ClusterSim.Harness.DeliverTo | crates/ticktape-cluster/tests/cluster_sim.rs:226-264 | delivery: epoch adoption, fencing, one frame, acceptor high-water |
| ClusterSim.Harness.Rebuild | crates/ticktape-cluster/tests/cluster_sim.rs:266-282 | rebuild from scratch up to a chosen point |
| ClusterSim.Harness.OpElection | crates/ticktape-cluster/tests/cluster_sim.rs:313-373 | votes in the given order, tallies, promotion of the last winner |
| ClusterSim.Harness.Promote | crates/ticktape-cluster/tests/cluster_sim.rs:375-475 | reconcile, sync, fence, flag, re-release |
| ClusterSim.Harness.RecordAssignment | crates/ticktape-cluster/tests/cluster_sim.rs:109-129 | the split-brain ledger |
| ClusterSim.Harness.ReleaseOutputs | crates/ticktape-cluster/tests/cluster_sim.rs:147-164 | release up to the committed seq, inputs only, in order |
| ClusterSim.Harness.OpKillLeader | crates/ticktape-cluster/tests/cluster_sim.rs:284-294 | kill the leader |
| ClusterSim.Harness.OpPartitionOrHeal | crates/ticktape-cluster/tests/cluster_sim.rs:296-311 | partition or heal a node |
| Quorum.KthHighestIsGreatest | crates/ticktape-cluster/src/commit.rs:38-46 | the sorted k-th entry is the greatest value at least k entries reach |
| Quorum.MajoritiesIntersect | crates/ticktape-cluster/src/election.rs:149-162 | two majorities of one replica set share a member |
| Commit.WatermarkIsMajority | crates/ticktape-runtime/src/lib.rs:226-235 | a seq is at or below the watermark if and only if a majority of high-waters reach it |
| Commit.WatermarkMonotone | crates/ticktape-runtime/src/lib.rs:220-223 | stale and reordered acks never lower the watermark |
| Commit.CommitTracker.RecordAck | crates/ticktape-cluster/src/commit.rs:30-35 | an ack raises one high-water and returns the watermark, never below the last |
| Commit.CommitTracker.Committed | crates/ticktape-cluster/src/commit.rs:38-46 | the greatest seq a majority holds |
| Release.EveryRunSafe | crates/ticktape-runtime/src/lib.rs:202-253 | over every interleaving of submits, ticks, snapshot marks and acks, even acks ahead of the tip: applied frames split into pending and released with outputs intact, releases are in strictly increasing seq order, each held by a majority |
| Release.RunSafe | crates/ticktape-runtime/src/lib.rs:596-654 | the same from any safe state |
| Release.HeldBackIff | crates/ticktape-runtime/src/lib.rs:238-253 | after every such run, whatever followers reported: a pending frame is held by a majority if and only if `committed` is at or above it |
| Release.StallsIff | crates/ticktape-runtime/src/lib.rs:596-616 | a frame a majority holds stays pending after it is applied if and only if `committed` was already at or above its seq |
| Release.ReleasedOnceHeld | crates/ticktape-runtime/src/lib.rs:238-253 | every other pending frame leaves with the first event after which a majority holds it, and with no earlier one |
| Release.RunPrompt | crates/ticktape-runtime/src/lib.rs:238-253 | when followers never report beyond the tip nothing a majority holds is ever pending, for any number of voters and any cadence |
| Release.MarksSkip | crates/ticktape-runtime/src/lib.rs:729-745 | snapshot marks take seqs and change nothing else |
| Release.AheadStalls | crates/ticktape-runtime/src/lib.rs:238-253 | with followers ahead of the tip that fails: a frame a majority reaches is held back |
| Release.LateRelease | crates/ticktape-runtime/src/lib.rs:556-563 | a batch that is not quiet, at tier 2 with one voter: the frame applied after a higher seq is held back although all hold it, and goes out after that higher seq |
| Release.LateStallsIff | crates/ticktape-runtime/src/lib.rs:596-616 | a frame applied at any seq stays pending although a majority holds it if and only if counting it does not take the watermark past `committed` |
| Release.CommitState.DrainCommitted | crates/ticktape-runtime/src/lib.rs:238-253 | advance to the watermark and hand out what crossed it in seq order |
| Release.CommitState.FinishFrame | crates/ticktape-runtime/src/lib.rs:596-616 | hold a frame's outputs, count the leader's own copy, release what that commits, at any seq; seqs skipped since the last frame are marks |
| Release.CommitState.NoteProgress | crates/ticktape-runtime/src/lib.rs:719-724 | a frame without outputs moves only the leader's own high-water |
| Release.CommitState.RecordAck | crates/ticktape-runtime/src/lib.rs:646-654 | an ack releases what it commits |
| Reassembler.RunExact | crates/ticktape-transport/src/reassembler.rs:81-121 | for any stream and any loss, duplication, reordering and repackaging, delivered frames are exactly the stream from the start seq, in order, without duplicates |
| Reassembler.FreshRunExact | crates/ticktape-transport/src/reassembler.rs:81-121 | the same from a fresh reassembler started at any seq |
| Reassembler.GapMeans | crates/ticktape-transport/src/reassembler.rs:127-140 | no gap and nothing to pop if and only if everything announced was delivered; a reported gap starts at the next frame and names only missing frames that exist |
| ReassemblerRules.SessionIff | crates/ticktape-transport/src/reassembler.rs:81-92 | a packet of another session is refused with both ids; every other is taken and locks its session |
| ReassemblerRules.OneSession | crates/ticktape-transport/src/reassembler.rs:81-92 | once locked, a run stays with its session |
| ReassemblerRules.HeartbeatAnnounces | crates/ticktape-transport/src/reassembler.rs:93-97 | a heartbeat announces up to its seq and buffers nothing |
| ReassemblerRules.DataBuffers | crates/ticktape-transport/src/reassembler.rs:97-114 | below the cap a data packet leaves buffered exactly what was and its own undelivered frames, and announces past them |
| ReassemblerRules.TrimExact | crates/ticktape-transport/src/reassembler.rs:105-111 | the cap keeps the nearest 65536 frames |
| ReassemblerRules.GapIsWhole | crates/ticktape-transport/src/reassembler.rs:127-140 | the gap reported ends at the next buffered frame or at what was announced |
| ReassemblerRules.PopIff | crates/ticktape-transport/src/reassembler.rs:117-121 | the next frame is delivered if and only if it has arrived |
| Reassembler.FillAdvances | crates/ticktape-transport/src/reassembler.rs:81-114 | answering a gap makes the next frame deliverable and announces nothing new, even when the cap drops frames |
| Reassembler.Reassembly.FillGaps | crates/ticktape-transport/src/reassembler.rs:81-140 | the gap-fill loop ends and then everything announced has been delivered, in order |
| Reassembler.Reassembly.IngestPacket | crates/ticktape-transport/src/reassembler.rs:81-114 | session lock, duplicate discard, announcement and cap |
| Reassembler.Reassembly.DeliverReady | crates/ticktape-transport/src/reassembler.rs:117-121 | delivers exactly the run that has arrived |
| Reassembler.Reassembly.NextFrame | crates/ticktape-transport/src/reassembler.rs:117-121 | pops the next frame or nothing |
| Reassembler.Reassembly.FindGap | crates/ticktape-transport/src/reassembler.rs:127-140 | the missing range |
| Reassembler.TrimKeeps | crates/ticktape-transport/src/reassembler.rs:105-111 | the cap keeps the nearest frame and alters none |
| ShmRing.RingSafe | crates/ticktape-transport/src/shm.rs:133-177 | under every interleaving of producer and consumer byte steps, with stale views of the other cursor and 64-bit wrap-around: packets received are those published, in order, cut only by the reader's buffer, and the two processes are never in the same slot |
| ShmRing.NeverSameSlot | crates/ticktape-transport/src/shm.rs:133-177 | while one writes and the other reads, their byte ranges in the mapping are disjoint |
| ShmRing.RefusedIffFull | crates/ticktape-transport/src/shm.rs:138-143 | a publish is refused if and only if every slot is taken as far as the producer can see; a receive finds nothing if and only if everything seen was received |
| ShmRing.NeverStuck | crates/ticktape-transport/src/shm.rs:144-177 | a process in mid-packet never indexes outside its slot |
| ShmRing.NextKeeps | crates/ticktape-transport/src/shm.rs:133-177 | each byte-level step keeps the ring invariant |
| ShmRing.MaskIsMod | crates/ticktape-transport/src/shm.rs:124-128 | masking with a power of two less one is the remainder |
| ShmRing.SlotsDisjoint | crates/ticktape-transport/src/shm.rs:124-128 | different slots occupy disjoint bytes inside the mapping |
| ShmRing.WrapKeepsSlot | crates/ticktape-transport/src/shm.rs:124-128 | a cursor that wrapped at 64 bits still selects the same slot |
| ShmRules.PublishIff | crates/ticktape-transport/src/shm.rs:133-160 | a packet is too large exactly when it does not fit its slot behind its length; one that fits is dropped, and counted, exactly when every slot is taken as far as the producer sees |
| ShmRules.ReceiptIs | crates/ticktape-transport/src/shm.rs:162-177 | a receive takes the oldest packet not yet received, cut to the caller's buffer, and moves on by one |
| ShmRules.RecordIs | crates/ticktape-transport/src/shm.rs:144-150 | a slot holds the packet's length and then the packet |
| ClusterRules.FenceFlags | crates/ticktape-cluster/tests/cluster_sim.rs:375-475 | a fence flags exactly the nodes that had gone past it, besides those already flagged, and never the winner |
| Codec.RoundTrip | crates/ticktape-core/src/codec.rs:62-238 | decoding an encoding followed by any bytes returns the value and those bytes, for every type of the grammar |
| Codec.Canonical | crates/ticktape-core/src/codec.rs:62-238 | whenever decoding succeeds the value is well typed and re-encoding reproduces exactly the bytes consumed |
| Codec.LenExact | crates/ticktape-core/src/codec.rs:62-66 | `encoded_len` is exact |
| Codec.DecodeAllIff | crates/ticktape-core/src/codec.rs:69-76 | a buffer decodes in full to a value if and only if it is that value's encoding |
| Codec.PrefixFree | crates/ticktape-core/src/codec.rs:62-76 | no encoding is a proper prefix of another, and distinct values differ |
| Codec.VariantCanonical | crates/ticktape-macros/src/lib.rs:68-172 | enum variants: a discriminant in range selects the fields, and only it re-encodes to those bytes |
| Layouts.CodecLayouts | crates/ticktape-core/src/codec.rs:86-238 | every constructor of the codec, byte by byte: widths, order, tags and length prefixes |
| Layouts.KnownEncoding | crates/ticktape-core/src/codec.rs:296-302 | the byte string the source's own test calls the wire contract |
| Layouts.LengthErrors | crates/ticktape-core/src/codec.rs:69-76 | too few bytes and bytes left over are told apart, with the count of bytes left |
| Layouts.ByteErrors | crates/ticktape-core/src/codec.rs:108-125 | a byte that is no bool or no option is an invalid value |
| Layouts.ValueErrors | crates/ticktape-core/src/codec.rs:149-165 | a tag that is no variant is an invalid value, bytes that are no text are invalid text |
| OrderBook.Book.RunAll | examples/orderbook/src/lib.rs:139-396 | for every command and expiry sequence the level book emits exactly the events and reaches exactly the state of the flat price-then-arrival list |
| OrderBook.Book.Submit | examples/orderbook/src/lib.rs:231-273 | validation, matching, resting and arming refine the flat list's submit |
| OrderBook.Book.MatchAgainst | examples/orderbook/src/lib.rs:278-316 | the outer loop, best price first, is matching the flat list head by head |
| OrderBook.Book.FillLevel | examples/orderbook/src/lib.rs:319-370 | the inner loop is matching one level; filled ids leave the index and are disarmed, an emptied level goes |
| OrderBook.Book.Unlink | examples/orderbook/src/lib.rs:163-180 | removal by index lookup never misses and is removal from the flat list |
| OrderBook.Book.Cancel | examples/orderbook/src/lib.rs:372-396 | cancel, with the unknown-order rejection |
| OrderBook.Book.OnTimer | examples/orderbook/src/lib.rs:163-183 | expiry, with the no-longer-resting case |
| OrderBook.Book.Reopened | examples/orderbook/src/lib.rs:185-220 | a book restored from a book's snapshot is that book, index included |
| OrderBook.Book.Restore | examples/orderbook/src/lib.rs:200-220 | the restore loops for any snapshot |
| OrderBook.SnapshotRestores | examples/orderbook/src/lib.rs:185-220 | levels and index come back from the ascending snapshot unchanged |
| OrderBook.HeldIsIndexed | examples/orderbook/src/lib.rs:421-423 | an id is indexed on a side if and only if the flat list of that side holds it |
| BookLevels.MatchBestLevel | examples/orderbook/src/lib.rs:278-316 | filling the best level and going on is matching the flat list |
| BookLevels.FlattenRest | examples/orderbook/src/lib.rs:261-266 | joining the back of a price's queue is resting in the flat list |
| BookLevels.FlattenRemove | examples/orderbook/src/lib.rs:372-388 | deleting from a queue is removal from the flat list |
| FlatBook.EveryRunSound | examples/orderbook/src/lib.rs:447-503 | over every run the book is never crossed, accepted = 2*traded + canceled + resting, no order is empty, no id rests twice, both sides are in price order |
| FlatBook.StepKeeps | examples/orderbook/src/lib.rs:447-503 | each input keeps those invariants |
| FlatBook.MatchShares | examples/orderbook/src/lib.rs:319-370 | shares the taker gives up equal shares the makers give up |
| FlatBook.MatchLeaves | examples/orderbook/src/lib.rs:319-370 | matching leaves a suffix of the makers, in order, its head perhaps reduced; a remainder means no maker left crosses |
| BookRules.TradesAre | examples/orderbook/src/lib.rs:278-370 | the taker's trades one by one: with the makers in order, at the maker's price, a buyer paying no more and a seller taking no less than the limit, each but the last for all the maker has, together what was traded |
| BookRules.LeftAre | examples/orderbook/src/lib.rs:319-370 | exactly the filled makers leave, each with its timer cancelled; the next is reduced by the last trade |
| BookRules.StopsBeyond | examples/orderbook/src/lib.rs:278-316 | if something is left of the taker, every opposite order left is priced beyond its limit |
| BookRules.AcceptedRules | examples/orderbook/src/lib.rs:231-273 | an accepted order: its acceptance, its trades, its counters, and its remainder resting behind everything at least as good and before everything worse |
| BookRules.AcceptedLeaves | examples/orderbook/src/lib.rs:255-272 | and its timers: the filled makers' cancelled, its own set to its deadline last, exactly if it rests and has one |
| BookRules.RefusedIff | examples/orderbook/src/lib.rs:231-254 | a zero quantity and a resting id are refused, each with its reason, and change nothing |
| BookRules.EveryRunBestFirst | examples/orderbook/src/lib.rs:447-503 | in every run bids rest from the highest price down, asks from the lowest up, every bid below every ask |
| BookRules.CancelRules | examples/orderbook/src/lib.rs:372-396 | a cancel takes exactly that order off and reports what was left of it; an unknown id is refused |
| BookRules.ExpiryRules | examples/orderbook/src/lib.rs:163-183 | an expiry likewise, and says nothing when the order has gone |
| FlatBook.ArmedStaysResting | examples/orderbook/src/lib.rs:255-272 | armed expiry timers always belong to resting orders |
| BookRules.ArmedExactly | examples/orderbook/src/lib.rs:255-272 | every input: an expiry stays armed exactly as long as its order rests, and is armed exactly for a good-till-date order that comes to rest |
| BookOnNode.EveryNodeRunSound | crates/ticktape-runtime/src/lib.rs:570-637 | over every run of a node hosting the book, power losses included, the book is sound and armed ids are resting orders |
| BookOnNode.BookRunsSound | crates/ticktape-runtime/src/lib.rs:570-637 | that with the book's own wire formats, and no hypothesis on the service |
| BookOnNode.BookSurvivesCrashes | crates/ticktape-runtime/src/lib.rs:364-502 | crash refinement for the order book: every recovery is the exact replay of a prefix reaching everything durable, and a sound book |
| BookWire.BookIsLawful | examples/orderbook/src/lib.rs:27-222 | the order book as a service, with the codec its types derive, keeps every promise a node relies on |
| BookWire.CmdRoundTrip | examples/orderbook/src/lib.rs:33-55 | every command within its field widths decodes to itself |
| BookWire.BookRoundTrip | examples/orderbook/src/lib.rs:108-118 | the snapshot payload, book and timers, decodes to itself |
| Layouts.CommandLayout | examples/orderbook/src/lib.rs:27-55 | the bytes of every command |
| Layouts.BookLayout | examples/orderbook/src/lib.rs:108-118 | the bytes of a book's snapshot |
| Layouts.PayloadLayout | crates/ticktape-runtime/src/lib.rs:42-42 | the snapshot payload is the application's snapshot and then id, deadline and set-at of every timer |
| BookSnapshots.UnsnapSnap | examples/orderbook/src/lib.rs:185-220 | grouping a book into levels, ascending on both sides, and restoring gives the book back |
| BookSnapshots.SnapOfLevels | examples/orderbook/src/lib.rs:185-198 | the flat book's snapshot is that of its levels, in ascending price |
| OrderBook.Book.Snapshot | examples/orderbook/src/lib.rs:185-198 | the level book's snapshot is the flat book's |
| BookWire.SnapshotLength | examples/orderbook/src/lib.rs:108-118 | a snapshot payload takes at most 24 bytes an order or timer, and 36 besides |
| Witness.BookCrashRun | crates/ticktape-runtime/src/lib.rs:364-502 | a run written out in full: a bid is sequenced and snapshotted, power fails with nothing synced, and the reopened node has the bid resting and its expiry armed |
| Witness.BookIdsTyped | examples/orderbook/src/lib.rs:139-158 | the book arms only the 64-bit ids of its commands |
| BookOnNode.ExpiriesEnd | crates/ticktape-runtime/src/lib.rs:618-637 | the firing loop of a node hosting the book ends with nothing due, under any clock, within as many turns as timers are armed |
| BookOnNode.BookIsIdle | examples/orderbook/src/lib.rs:163-183 | an expiry never arms a timer |
| Exchange.EveryRunOk | examples/exchange/src/lib.rs:220-252 | in every reachable state the owner map's keys are exactly the resting orders and the reverse index is its inverse |
| Exchange.StepOk | examples/exchange/src/lib.rs:51-207 | each input keeps that |
| Exchange.OnlyOwnerCancels | examples/exchange/src/lib.rs:87-143 | an order is cancelled only by a cancel from its owner's session or by that session closing |
| ExchangeRules.TradeHeard | examples/exchange/src/lib.rs:155-195 | of every trade a command makes, the taker's session is told exactly once, the session that owned the maker before it exactly once more if it is another, and nobody else |
| ExchangeRules.ClientTells | examples/exchange/src/lib.rs:87-122 | everything a command says, in order and by addressee; a stranger's cancel is answered to it alone, a stale command not at all |
| ExchangeRules.SubmitterOwns | examples/exchange/src/lib.rs:155-166 | a new resting order belongs to the session that submitted it; every other order keeps its owner |
| ExchangeRules.CloseTells | examples/exchange/src/lib.rs:126-143 | closing a session cancels each of its orders once, by ascending id, and tells it of each |
| Exchange.CloseOk | examples/exchange/src/lib.rs:126-143 | closing a session cancels exactly the orders it owned, tells it so, and leaves its dedup state |
| Exchange.StaleIsNothing | examples/exchange/src/lib.rs:95-103 | a stale client seq emits nothing, and changes the state if and only if it is its session's first contact |
| Exchange.DedupHarmless | examples/exchange/src/lib.rs:95-103 | deleting stale inputs from any trace changes no output and leaves a state that behaves alike |
| Exchange.DedupExact | examples/exchange/src/lib.rs:95-103 | when clients count from 1 it leaves the very same state |
| Exchange.StepAlike | examples/exchange/src/lib.rs:51-207 | states alike but for empty entries answer every input alike and stay alike |
| Exchange.RestoreAlike | examples/exchange/src/lib.rs:62-83 | a restored exchange behaves like the original, and equals it if and only if no session is left owning nothing |
| Exchange.LastOrderLeavesEntry | examples/exchange/src/lib.rs:62-83 | a session whose last order is cancelled is such a state |
| ExchangeWire.ExchangeIsLawful | examples/exchange/src/lib.rs:31-84 | the exchange as a service, with its wire formats, is lawful although it restores only to a state alike |
| ExchangeWire.VenueRestores | examples/exchange/src/lib.rs:62-83 | through the bytes of its snapshot a venue restores to one alike |
| Layouts.GatewayLayout | crates/ticktape-gateway/src/wire.rs:17-30 | the bytes of what a gateway injects |
| Layouts.VenueLayout | examples/exchange/src/lib.rs:34-68 | the bytes of an exchange's snapshot |
| ExchangeWire.ExchangeSurvivesCrashes | examples/exchange/src/lib.rs:62-83 | crash refinement for the exchange, up to states no later input can tell apart |
| ExchangeWire.ExchangeRunsOk | examples/exchange/src/lib.rs:220-252 | over every run of a node hosting it, power losses included, owners are the resting orders and the reverse index is theirs |
| ExchangeHost.Host.HandleInput | examples/exchange/src/lib.rs:51-60 | the object answers each input as the specification does |
| ExchangeHost.Host.ApplyInput | examples/exchange/src/lib.rs:87-122 | dedup, ownership check, book, routing |
| ExchangeHost.Host.Close | examples/exchange/src/lib.rs:126-143 | the cancel loop in id order |
| ExchangeHost.Host.RouteEvent | examples/exchange/src/lib.rs:155-207 | addressing and ownership per event, with the maker's copy |
| ExchangeHost.Host.DriveBook | examples/exchange/src/lib.rs:145-151 | drive the inner book object and route its events |
| ExchangeHost.RebuildIndex | examples/exchange/src/lib.rs:70-77 | the reverse index is rebuilt from the owners |

## Left out

- Sockets, threads, the server, the gateway and the failure detector: no ordering or durability decision is made there.
- Hardware checksum paths, io_uring and memory mapping set-up: foreign instructions and system calls.
- The Raft wrapper, the SBE codec, counters, key-value example, metrics and command lines: wrappers over other libraries, or easy.
- I/O errors other than power loss: every storage call is taken to succeed, except creating a file whose name exists.
- Crashes inside a segment roll, a reseat or a snapshot write: the code can then leave a directory it refuses to open.
- `FsyncPolicy::Micros` timing: whether an append is followed by a sync is an arbitrary choice per append.
- `verify_replay`: it starts from genesis and is meaningful only while history starts at 1.
- The in-process bus: publication is modelled as the list of frames a step publishes, without subscribers that disconnect.
- UTF-8: which byte strings are text is a parameter of the codec.
- The journal epoch: kept in headers and read back, but nothing in the node ever changes it.
- Expiry inside the exchange: its inner book's timer requests are dropped, as in the code.
- NodeHost.Host.FireDueTimers: stops with an error when the 64-bit seqs run out, where the code's counter overflows.
- NodeHost.Host.Submit: does not model quorum withholding; `Release` models it as its own state machine over the same frames.
- ShmRing.RingSafe: models the ring as interleaved steps over values rather than as a class, because two processes share it; memory is sequentially consistent, which the disjointness of the two processes' slots justifies.
- Release.EveryRunSafe: takes frames in seq order; a batch that is not quiet, which applies a frame after higher seqs, does not meet it (`Release.LateRelease`).
- NodeRuns.CrashRefinement: an append the journal refuses ends the modelled run; what the node does from then on is `NodeWrites.StuckRefuses`.
- GroupCommit.DoBatch: the batch is modelled on values, not as a method of `NodeHost.Host`; its parts (append of a run, step, firing loop) are methods there.
