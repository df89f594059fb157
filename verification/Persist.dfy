/** Durable promises: the acceptor's state file and the steps that rewrite it.

    `promised` is on stable storage before a grant leaves. A crash inside the
    rewrite may leave an empty, cut or damaged file; reopening then refuses,
    which loses a vote but never a promise. */
module Persist {
  import opened Wrappers
  import opened Bytes
  import opened Frame
  import opened Segment
  import opened Election
  import Crc32c

  const ACCEPTOR_MAGIC: seq<byte> := [0x54, 0x4B, 0x41, 0x50]  // "TKAP"
  const RECORD_LEN := 16

  function Record(promised: nat): (r: seq<byte>)
    ensures |r| == RECORD_LEN
  {
    Sealed(ACCEPTOR_MAGIC + LittleEndian(promised, 8))
  }

  function ParseRecord(bytes: seq<byte>): (r: Option<nat>)
    ensures |bytes| != RECORD_LEN ==> r == None
  {
    if |bytes| != RECORD_LEN then None
    else if bytes[..4] != ACCEPTOR_MAGIC then None
    else if Crc32c.Crc(bytes[..12]) != FromLittleEndian(bytes[12..16]) then None
    else Some(FromLittleEndian(bytes[4..12]))
  }

  lemma RecordRoundTrip(promised: nat)
    requires promised < U64_LIMIT
    ensures ParseRecord(Record(promised)) == Some(promised)
  {
    hide Crc32c.Crc, LittleEndian, FromLittleEndian;
    var core := ACCEPTOR_MAGIC + LittleEndian(promised, 8);
    var r := Record(promised);
    Pow256Values();
    LittleEndianRoundTrip(promised, 8);
    StoredCrc(core);
    assert r[..12] == core && r[12..16] == Sealed(core)[12..];
    assert r[..4] == core[..4] == ACCEPTOR_MAGIC;
    assert r[4..12] == core[4..12] == LittleEndian(promised, 8);
  }

  lemma DamagedRecordRefused(promised: nat, d: seq<byte>, p: nat)
    requires DiffersOnlyAt(Record(promised), d, p)
    ensures ParseRecord(d) == None
  {
    hide Crc32c.Crc, LittleEndian, FromLittleEndian;
    var core := ACCEPTOR_MAGIC + LittleEndian(promised, 8);
    SealBroken(core, d, p);
    assert d[..|core|] == d[..12] && d[|core|..] == d[12..16];
  }

  // ----- the rewrite, one disk operation at a time -----

  /** `create_new`, or `truncate(0)` and `open_append`: an empty file. */
  function Emptied(): FileData { FileData([], []) }

  function Written(promised: nat): FileData { Emptied().WriteAll(Record(promised)) }

  function Saved(promised: nat): FileData { Written(promised).SyncData() }

  lemma SavedContent(promised: nat)
    ensures Saved(promised) == FileData(Record(promised), [])
  {
    assert [] + Record(promised) == Record(promised);
  }

  /** Power loss after the write: whatever survives is the new promise or is
      refused. */
  lemma CrashWhileSaving(promised: nat, survived: seq<byte>)
    requires promised < U64_LIMIT
    requires CrashOutcome(Written(promised), survived)
    ensures ParseRecord(survived) == None || ParseRecord(survived) == Some(promised)
  {
    hide Record, ParseRecord;
    var r := Record(promised);
    assert Written(promised).Combined() == r;
    if |survived| == RECORD_LEN {
      assert r[..|survived|] == r;
      if survived == r {
        RecordRoundTrip(promised);
      } else {
        var p :| 0 <= p && DiffersOnlyAt(r, survived, p);
        DamagedRecordRefused(promised, survived, p);
      }
    }
  }

  datatype OpenResult = Opened(promised: nat) | Refused

  function OpenFile(file: Option<FileData>): OpenResult {
    match file
    case None => Opened(0)
    case Some(data) =>
      match ParseRecord(data.Combined())
      case None => Refused
      case Some(promised) => Opened(promised)
  }

  class PersistentAcceptor {
    var inner: Acceptor
    var file: Option<FileData>

    /** The file holds the promise the acceptor acts on. */
    ghost predicate Valid()
      reads this, inner
    {
      && inner.promised < U64_LIMIT
      && file == (if inner.promised == 0 then None else Some(FileData(Record(inner.promised), [])))
    }

    /** Recovers the promise by replaying one request at its epoch. */
    constructor (disk: Option<FileData>)
      requires OpenFile(disk).Opened?
      requires disk.Some? ==> disk.value.unsynced == []
      ensures fresh(inner)
      ensures inner.State() == AcceptorState(OpenFile(disk).promised, 0)
      ensures file == disk
    {
      file := disk;
      inner := new Acceptor();
      new;
      if disk.Some? {
        var promised := OpenFile(disk).promised;
        if promised > 0 {
          var _ := inner.Handle(promised);
        }
      }
    }

    /** A raised promise is durable before the grant is returned. */
    method Handle(epoch: nat) returns (reply: VoteReply)
      requires Valid()
      requires epoch < U64_LIMIT
      modifies this`file, inner
      ensures Valid()
      ensures inner.State() == old(inner.State()).AfterVote(epoch)
      ensures reply == old(inner.State()).Answer(epoch)
      ensures reply.Grant? ==> OpenFile(file) == Opened(reply.epoch)
    {
      hide Record, ParseRecord;
      var before := inner.promised;
      reply := inner.Handle(epoch);
      if inner.promised > before {
        SaveFile(inner.promised);
        RecordRoundTrip(inner.promised);
        assert Record(inner.promised) + [] == Record(inner.promised);
      }
    }

    method SaveFile(promised: nat)
      modifies this`file
      ensures file == Some(FileData(Record(promised), []))
    {
      hide Record;
      file := Some(Emptied());
      file := Some(file.value.WriteAll(Record(promised)));
      file := Some(file.value.SyncData());
      SavedContent(promised);
    }
  }

  /** Open the acceptor on its promise file, or refuse a file that does not
      parse rather than start from zero. */
  method OpenAcceptor(disk: Option<FileData>) returns (a: PersistentAcceptor?)
    requires disk.Some? ==> disk.value.unsynced == []
    ensures a != null <==> OpenFile(disk).Opened?
    ensures a != null ==> fresh(a) && fresh(a.inner) && a.file == disk && a.inner.State() == AcceptorState(OpenFile(disk).promised, 0)
    ensures disk.Some? && ParseRecord(disk.value.synced) == None ==> a == null
  {
    hide ParseRecord;
    assert disk.Some? ==> disk.value.Combined() == disk.value.synced;
    match OpenFile(disk) {
      case Refused => a := null;
      case Opened(_) => a := new PersistentAcceptor(disk);
    }
  }
}
