/** The single-producer single-consumer ring in shared memory, as two processes
    interleaved byte by byte, each with a possibly stale view of the other's
    64-bit wrapping cursor. */
module ShmRing {
  import opened Wrappers
  import opened Bytes

  const U64: nat := 0x1_0000_0000_0000_0000
  const HEADER_BYTES := 64

  // ----- slot arithmetic -----

  /** Bitwise and of two naturals. */
  function BitAnd(a: nat, b: nat): nat
    decreases a
  {
    if a == 0 || b == 0 then 0
    else (a % 2) * (b % 2) + 2 * BitAnd(a / 2, b / 2)
  }

  /** Masking with a power of two less one is the remainder. */
  lemma {:induction false} MaskIsMod(a: nat, k: nat)
    ensures BitAnd(a, Pow2(k) - 1) == a % Pow2(k)
    decreases k
  {
    if k == 0 {
      assert Pow2(0) == 1;
    } else {
      var p := Pow2(k - 1);
      assert Pow2(k) == 2 * p;
      MaskIsMod(a / 2, k - 1);
      assert (2 * p - 1) / 2 == p - 1 && (2 * p - 1) % 2 == 1;
      HalfMod(a, p);
      if a > 0 && 2 * p - 1 > 0 {
        assert BitAnd(a, 2 * p - 1) == a % 2 + 2 * BitAnd(a / 2, p - 1);
      }
    }
  }

  lemma HalfMod(a: nat, p: nat)
    requires p > 0
    ensures a % (2 * p) == a % 2 + 2 * ((a / 2) % p)
  {
    var q, r := (a / 2) / p, (a / 2) % p;
    assert a / 2 == q * p + r;
    assert a == 2 * (q * p + r) + a % 2;
    assert 2 * (q * p + r) == q * (2 * p) + 2 * r;
    assert a == q * (2 * p) + (2 * r + a % 2);
    ModOf(a, 2 * p, q, 2 * r + a % 2);
  }

  lemma UniqueRemainder(x: nat, y: nat, s: nat, r: nat, m: nat)
    requires s < m && r < m && x * m + s == y * m + r
    ensures s == r
  {
    if x < y {
      NextMultiple(x, y, m);
    }
    if y < x {
      NextMultiple(y, x, m);
    }
  }

  lemma ModOf(a: nat, m: nat, q: nat, r: nat)
    requires m > 0 && r < m && a == q * m + r
    ensures a % m == r
  {
    UniqueRemainder(a / m, q, a % m, r, m);
  }

  /** A cursor that wrapped at 64 bits still selects the same slot. */
  lemma WrapKeepsSlot(n: nat, k: nat)
    requires k <= 63
    ensures (n % U64) % Pow2(k) == n % Pow2(k)
  {
    Pow2Add(64 - k, k);
    U64IsPow2();
    ModMod(n, U64, Pow2(k), Pow2(64 - k));
  }

  lemma ModMod(n: nat, m: nat, c: nat, d: nat)
    requires c > 0 && m > 0 && m == d * c
    ensures (n % m) % c == n % c
  {
    var q, r := n / m, n % m;
    var s, t := r / c, r % c;
    Regrouped(n, q, r, s, t, m, c, d);
    ModOf(n, c, q * d + s, t);
  }

  lemma Regrouped(n: nat, q: nat, r: nat, s: nat, t: nat, m: nat, c: nat, d: nat)
    requires n == q * m + r && r == s * c + t && m == d * c
    ensures n == (q * d + s) * c + t
  {
    Spread(q, d, s, c);
  }

  lemma Spread(q: nat, d: nat, s: nat, c: nat)
    ensures (q * d + s) * c == q * (d * c) + s * c
  {
    assert (q * d) * c == q * (d * c);
  }

  lemma U64IsPow2()
    ensures Pow2(64) == U64
  {
    Pow2Values();
    Pow2Add(32, 32);
  }

  /** Where slot `seqno` starts in the mapping. */
  function SlotStart(seqno: nat, capacity: nat, slotBytes: nat): nat
    requires capacity > 0
  {
    HEADER_BYTES + BitAnd(seqno, capacity - 1) * slotBytes
  }

  /** Different slots occupy disjoint bytes, all inside the mapping. */
  lemma SlotsDisjoint(a: nat, b: nat, k: nat, slotBytes: nat)
    requires a % Pow2(k) < b % Pow2(k)
    ensures SlotStart(a, Pow2(k), slotBytes) + slotBytes <= SlotStart(b, Pow2(k), slotBytes)
    ensures SlotStart(b, Pow2(k), slotBytes) + slotBytes <= HEADER_BYTES + Pow2(k) * slotBytes
  {
    MaskIsMod(a, k);
    MaskIsMod(b, k);
    NextMultiple(a % Pow2(k), b % Pow2(k), slotBytes);
    NextMultiple(b % Pow2(k), Pow2(k), slotBytes);
  }

  lemma NextMultiple(i: nat, j: nat, s: nat)
    requires i < j
    ensures i * s + s <= j * s
  {
    assert (i + 1) * s <= j * s;
  }

  /** Cursors less than a ring apart select different slots. */
  lemma DistinctSlots(a: nat, b: nat, c: nat)
    requires a < b < a + c
    ensures a % c != b % c
  {
    var q, r, d := a / c, a % c, b - a;
    if r + d < c {
      ModOf(b, c, q, r + d);
    } else {
      assert (q + 1) * c == q * c + c;
      ModOf(b, c, q + 1, r + d - c);
    }
  }

  // ----- the two processes -----

  /** A ring of 2^k slots of `slotBytes` bytes. */
  datatype Shape = Shape(k: nat, slotBytes: nat) {
    function Capacity(): nat { Pow2(k) }
  }

  datatype Producer = Resting | Writing(packet: seq<byte>, done: nat)

  datatype Consumer = Waiting | Reading(limit: nat, got: seq<byte>)

  /** A packet received into a buffer of `limit` bytes. */
  datatype Receipt = Receipt(limit: nat, bytes: seq<byte>)

  /** `published` and `received` record what the calls returned; `producerSaw`
      and `consumerSaw` are the latest values, before wrapping, of the other
      side's cursor that each process has seen. */
  datatype Ring = Ring(
    slots: seq<seq<byte>>, write: nat, read: nat,
    producer: Producer, consumer: Consumer,
    published: seq<seq<byte>>, received: seq<Receipt>, dropped: nat,
    producerSaw: nat, consumerSaw: nat)

  datatype Action =
    | BeginPublish(packet: seq<byte>, view: nat) | WriteByte | EndPublish
    | BeginReceive(limit: nat, view: nat) | ReadByte | EndReceive

  function Record(packet: seq<byte>): (r: seq<byte>)
    ensures |r| == 4 + |packet|
  {
    LittleEndian(|packet|, 4) + packet
  }

  function Min(a: nat, b: nat): nat { if a < b then a else b }

  /** How many bytes of the slot the consumer still copies: the length prefix,
      then as much of the payload as its buffer takes. */
  function Wanted(got: seq<byte>, limit: nat): nat {
    if |got| < 4 then 4 else 4 + Min(FromLittleEndian(got[..4]), limit)
  }

  function SlotOf(sh: Shape, cursor: nat): nat { BitAnd(cursor, sh.Capacity() - 1) }

  /** One step of either process; None when it is not that process's turn. */
  function Next(sh: Shape, r: Ring, a: Action): Option<Ring> {
    match a
    case BeginPublish(packet, view) =>
      if !r.producer.Resting? || |packet| + 4 > sh.slotBytes || |packet| >= 0x1_0000_0000
         || view < r.producerSaw || view > |r.received| then None
      else if (r.write + U64 - view % U64) % U64 >= sh.Capacity() then
        Some(r.(dropped := r.dropped + 1, producerSaw := view))
      else
        Some(r.(producer := Writing(packet, 0), producerSaw := view))
    case WriteByte =>
      if !r.producer.Writing? || r.producer.done >= 4 + |r.producer.packet| then None
      else
        var i, at := r.producer.done, SlotOf(sh, r.write);
        if at >= |r.slots| || i >= |r.slots[at]| then None
        else
          Some(r.(slots := r.slots[at := r.slots[at][i := Record(r.producer.packet)[i]]],
                  producer := Writing(r.producer.packet, i + 1)))
    case EndPublish =>
      if !r.producer.Writing? || r.producer.done != 4 + |r.producer.packet| then None
      else Some(r.(producer := Resting, write := (r.write + 1) % U64, published := r.published + [r.producer.packet]))
    case BeginReceive(limit, view) =>
      if !r.consumer.Waiting? || view < r.consumerSaw || view > |r.published| then None
      else if r.read == view % U64 then Some(r.(consumerSaw := view))
      else Some(r.(consumer := Reading(limit, []), consumerSaw := view))
    case ReadByte =>
      if !r.consumer.Reading? || |r.consumer.got| >= Wanted(r.consumer.got, r.consumer.limit) then None
      else
        var i, at := |r.consumer.got|, SlotOf(sh, r.read);
        if at >= |r.slots| || i >= |r.slots[at]| then None
        else Some(r.(consumer := Reading(r.consumer.limit, r.consumer.got + [r.slots[at][i]])))
    case EndReceive =>
      if !r.consumer.Reading? || |r.consumer.got| < 4 || |r.consumer.got| < Wanted(r.consumer.got, r.consumer.limit) then None
      else
        Some(r.(consumer := Waiting, read := (r.read + 1) % U64,
                received := r.received + [Receipt(r.consumer.limit, r.consumer.got[4..])]))
  }

  function RunAll(sh: Shape, r: Ring, actions: seq<Action>): Option<Ring>
    decreases |actions|
  {
    if actions == [] then Some(r)
    else
      match Next(sh, r, actions[0])
      case None => None
      case Some(next) => RunAll(sh, next, actions[1..])
  }

  // ----- what every interleaving keeps -----

  ghost predicate ShapeOk(sh: Shape) {
    sh.k <= 63
  }

  ghost predicate Cursors(sh: Shape, r: Ring) {
    var w, n := |r.published|, |r.received|;
    && r.write == w % U64 && r.read == n % U64
    && r.producerSaw <= n <= r.consumerSaw <= w <= r.producerSaw + sh.Capacity()
    && (r.producer.Writing? ==> w < r.producerSaw + sh.Capacity())
    && (r.consumer.Reading? ==> n < r.consumerSaw)
  }

  ghost predicate SlotsSized(sh: Shape, r: Ring) {
    |r.slots| == sh.Capacity() && forall i :: 0 <= i < |r.slots| ==> |r.slots[i]| == sh.slotBytes
  }

  /** The first `n` bytes of a slot are those of the packet's record. */
  ghost predicate Starts(slot: seq<byte>, packet: seq<byte>, n: nat) {
    n <= 4 + |packet| && n <= |slot| && slot[..n] == Record(packet)[..n]
  }

  /** The slot of publication `j`. */
  function SlotAt(sh: Shape, j: nat): nat { j % sh.Capacity() }

  ghost predicate Contents(sh: Shape, r: Ring)
    requires SlotsSized(sh, r)
  {
    && (forall j :: 0 <= j < |r.published| ==> |r.published[j]| < 0x1_0000_0000 && 4 + |r.published[j]| <= sh.slotBytes)
    && (forall j :: |r.received| <= j < |r.published| ==>
          Starts(r.slots[SlotAt(sh, j)], r.published[j], 4 + |r.published[j]|))
    && (r.producer.Writing? ==>
          && |r.producer.packet| < 0x1_0000_0000 && 4 + |r.producer.packet| <= sh.slotBytes
          && Starts(r.slots[SlotAt(sh, |r.published|)], r.producer.packet, r.producer.done))
  }

  /** What the consumer has copied so far is the front of the oldest packet
      not yet received. */
  ghost predicate Copying(r: Ring) {
    r.consumer.Reading? && |r.received| < |r.published| ==>
      var p, got := r.published[|r.received|], r.consumer.got;
      |got| <= 4 + Min(|p|, r.consumer.limit) && got == Record(p)[..|got|]
  }

  /** Received so far: the published packets, in order, each cut only by the
      reader's own buffer. */
  ghost predicate Faithful(r: Ring) {
    && |r.received| <= |r.published|
    && forall j :: 0 <= j < |r.received| ==>
         r.received[j].bytes == r.published[j][..Min(|r.published[j]|, r.received[j].limit)]
  }

  ghost predicate Inv(sh: Shape, r: Ring) {
    Cursors(sh, r) && SlotsSized(sh, r) && Contents(sh, r) && Copying(r) && Faithful(r)
  }

  // ----- each step keeps it -----

  lemma CapacityFits(sh: Shape)
    requires ShapeOk(sh)
    ensures 1 <= sh.Capacity() < U64
  {
    Pow2Add(sh.k, 64 - sh.k);
    U64IsPow2();
    var d := Pow2(64 - sh.k);
    assert d == 2 * Pow2(63 - sh.k);
    assert sh.Capacity() * d == U64;
    Doubled(sh.Capacity(), d);
  }

  lemma Doubled(c: nat, d: nat)
    requires c >= 1 && d >= 2
    ensures c < c * d
  {
    assert c * 2 <= c * d;
  }

  /** The wrapped cursor selects the slot of the unwrapped count. */
  lemma CursorSlot(sh: Shape, cursor: nat, n: nat)
    requires ShapeOk(sh) && cursor == n % U64
    ensures SlotOf(sh, cursor) == SlotAt(sh, n)
  {
    MaskIsMod(cursor, sh.k);
    WrapKeepsSlot(n, sh.k);
  }

  /** Wrapping subtraction of wrapped cursors is the true distance. */
  lemma WrappedDistance(w: nat, v: nat)
    requires v <= w < v + U64
    ensures (w % U64 + U64 - v % U64) % U64 == w - v
  {
  }

  lemma WrappedNext(n: nat)
    ensures (n % U64 + 1) % U64 == (n + 1) % U64
  {
  }

  lemma WrappedEqual(n: nat, v: nat)
    requires n <= v < n + U64
    ensures n % U64 == v % U64 <==> n == v
  {
  }

  lemma RecordLength(packet: seq<byte>)
    requires |packet| < 0x1_0000_0000
    ensures FromLittleEndian(Record(packet)[..4]) == |packet|
  {
    Pow2Values();
    assert Pow256(4) == 0x1_0000_0000 by { Pow256Four(); }
    LittleEndianRoundTrip(|packet|, 4);
    assert Record(packet)[..4] == LittleEndian(|packet|, 4);
  }

  lemma Pow256Four()
    ensures Pow256(4) == 0x1_0000_0000
  {
    assert Pow256(2) == 256 * Pow256(1);
    assert Pow256(4) == 256 * Pow256(3) == 256 * 256 * Pow256(2);
  }

  lemma BeginPublishKeeps(sh: Shape, r: Ring, packet: seq<byte>, view: nat)
    requires ShapeOk(sh) && Inv(sh, r) && Next(sh, r, BeginPublish(packet, view)).Some?
    ensures Inv(sh, Next(sh, r, BeginPublish(packet, view)).value)
  {
    hide Starts, Faithful, Copying, Record;
    CapacityFits(sh);
    WrappedDistance(|r.published|, view);
    NothingWritten(r.slots[SlotAt(sh, |r.published|)], packet);
    KeepsHistory(r, Next(sh, r, BeginPublish(packet, view)).value);
  }

  lemma NothingWritten(slot: seq<byte>, packet: seq<byte>)
    ensures Starts(slot, packet, 0)
  {
  }

  /** Copying and Faithful look only at the consumer and the two histories. */
  lemma KeepsHistory(r: Ring, next: Ring)
    requires Copying(r) && Faithful(r)
    requires next.consumer == r.consumer && next.received == r.received
    requires |next.published| >= |r.published| && next.published[..|r.published|] == r.published
    requires r.consumer.Reading? ==> |r.received| < |r.published|
    ensures Copying(next) && Faithful(next)
  {
    forall j | 0 <= j < |r.published|
      ensures next.published[j] == r.published[j]
    {
      assert next.published[..|r.published|][j] == r.published[j];
    }
  }

  /** The slot being written is not one the consumer may read: the byte stored
      leaves every unread packet alone. */
  lemma WriteByteKeeps(sh: Shape, r: Ring)
    requires ShapeOk(sh) && Inv(sh, r) && Next(sh, r, WriteByte).Some?
    ensures Inv(sh, Next(sh, r, WriteByte).value)
  {
    hide Starts, Faithful, Copying, Record;
    var next := Next(sh, r, WriteByte).value;
    var w := |r.published|;
    CursorSlot(sh, r.write, w);
    var at := SlotAt(sh, w);
    forall j | |r.received| <= j < w
      ensures Starts(next.slots[SlotAt(sh, j)], r.published[j], 4 + |r.published[j]|)
    {
      DistinctSlots(j, w, sh.Capacity());
      assert next.slots[SlotAt(sh, j)] == r.slots[SlotAt(sh, j)];
    }
    OneMore(r.slots[at], r.producer.packet, r.producer.done);
    assert next.published[..|r.published|] == r.published;
    KeepsHistory(r, next);
  }

  lemma OneMore(slot: seq<byte>, packet: seq<byte>, i: nat)
    requires Starts(slot, packet, i) && i < 4 + |packet| && i < |slot|
    ensures Starts(slot[i := Record(packet)[i]], packet, i + 1)
  {
    hide Record;
    var s := slot[i := Record(packet)[i]];
    assert s[..i + 1] == slot[..i] + [Record(packet)[i]];
    assert Record(packet)[..i + 1] == Record(packet)[..i] + [Record(packet)[i]];
  }

  lemma EndPublishKeeps(sh: Shape, r: Ring)
    requires ShapeOk(sh) && Inv(sh, r) && Next(sh, r, EndPublish).Some?
    ensures Inv(sh, Next(sh, r, EndPublish).value)
  {
    hide Starts, Faithful, Copying, Record, SlotAt, SlotOf;
    var next := Next(sh, r, EndPublish).value;
    WrappedNext(|r.published|);
    assert next.published == r.published + [r.producer.packet];
    assert next.published[..|r.published|] == r.published;
    KeepsHistory(r, next);
    forall j | 0 <= j < |next.published|
      ensures next.published[j] == if j < |r.published| then r.published[j] else r.producer.packet
    {
    }
    SlotsFollow(sh, r, next);
  }

  lemma SlotsFollow(sh: Shape, r: Ring, next: Ring)
    requires SlotsSized(sh, r) && Contents(sh, r) && next.slots == r.slots && next.received == r.received
    requires r.producer.Writing? && r.producer.done == 4 + |r.producer.packet|
    requires next.published == r.published + [r.producer.packet] && next.producer == Resting
    ensures SlotsSized(sh, next) && Contents(sh, next)
  {
    hide Starts;
    forall j | 0 <= j < |next.published|
      ensures next.published[j] == if j < |r.published| then r.published[j] else r.producer.packet
    {
    }
  }

  lemma BeginReceiveKeeps(sh: Shape, r: Ring, limit: nat, view: nat)
    requires ShapeOk(sh) && Inv(sh, r) && Next(sh, r, BeginReceive(limit, view)).Some?
    ensures Inv(sh, Next(sh, r, BeginReceive(limit, view)).value)
  {
    hide Starts, Faithful, Record;
    CapacityFits(sh);
    WrappedEqual(|r.received|, view);
    SameReceived(r, Next(sh, r, BeginReceive(limit, view)).value);
  }

  lemma SameReceived(r: Ring, next: Ring)
    requires Faithful(r) && next.received == r.received && next.published == r.published
    ensures Faithful(next)
  {
  }

  lemma ReadByteKeeps(sh: Shape, r: Ring)
    requires ShapeOk(sh) && Inv(sh, r) && Next(sh, r, ReadByte).Some?
    ensures Inv(sh, Next(sh, r, ReadByte).value)
  {
    hide Faithful, Record;
    var next := Next(sh, r, ReadByte).value;
    var n := |r.received|;
    var p, got := r.published[n], r.consumer.got;
    CursorSlot(sh, r.read, n);
    var slot := r.slots[SlotAt(sh, n)];
    assert Starts(slot, p, 4 + |p|);
    RecordLength(p);
    SameReceived(r, next);
    CopyOne(slot, p, got, r.consumer.limit);
  }

  lemma CopyOne(slot: seq<byte>, p: seq<byte>, got: seq<byte>, limit: nat)
    requires |p| < 0x1_0000_0000 && Starts(slot, p, 4 + |p|)
    requires |got| <= 4 + Min(|p|, limit) && got == Record(p)[..|got|]
    requires |got| < Wanted(got, limit)
    ensures |got| < 4 + Min(|p|, limit) && |got| < |slot|
    ensures got + [slot[|got|]] == Record(p)[..|got| + 1]
  {
    hide Record;
    RecordLength(p);
    if |got| >= 4 {
      assert got[..4] == Record(p)[..|got|][..4] == Record(p)[..4];
    }
    assert slot[|got|] == slot[..4 + |p|][|got|] == Record(p)[|got|];
    assert Record(p)[..|got| + 1] == Record(p)[..|got|] + [Record(p)[|got|]];
  }

  lemma EndReceiveKeeps(sh: Shape, r: Ring)
    requires ShapeOk(sh) && Inv(sh, r) && Next(sh, r, EndReceive).Some?
    ensures Inv(sh, Next(sh, r, EndReceive).value)
  {
    hide Starts, Record, Wanted, SlotAt, SlotOf, Faithful;
    var next := Next(sh, r, EndReceive).value;
    var n := |r.received|;
    var p, got := r.published[n], r.consumer.got;
    WrappedNext(n);
    FinishedCopy(p, got, r.consumer.limit);
    ReceivedOne(r, next, Receipt(r.consumer.limit, got[4..]));
  }

  lemma ReceivedOne(r: Ring, next: Ring, last: Receipt)
    requires Faithful(r) && |r.received| < |r.published|
    requires next.published == r.published && next.received == r.received + [last]
    requires var p := r.published[|r.received|]; last.bytes == p[..Min(|p|, last.limit)]
    ensures Faithful(next)
  {
  }

  lemma FinishedCopy(p: seq<byte>, got: seq<byte>, limit: nat)
    requires |p| < 0x1_0000_0000
    requires 4 <= |got| <= 4 + Min(|p|, limit) && got == Record(p)[..|got|]
    requires |got| >= Wanted(got, limit)
    ensures got[4..] == p[..Min(|p|, limit)]
  {
    RecordLength(p);
    assert got[..4] == Record(p)[..|got|][..4] == Record(p)[..4];
    assert |got| == 4 + Min(|p|, limit);
    assert got[4..] == Record(p)[..|got|][4..] == p[..Min(|p|, limit)];
  }

  // ----- theorems -----

  function Created(sh: Shape, memory: seq<seq<byte>>): Ring {
    Ring(memory, 0, 0, Resting, Waiting, [], [], 0, 0, 0)
  }

  lemma NextKeeps(sh: Shape, r: Ring, a: Action)
    requires ShapeOk(sh) && Inv(sh, r) && Next(sh, r, a).Some?
    ensures Inv(sh, Next(sh, r, a).value)
  {
    hide Inv, Next;
    match a {
      case BeginPublish(packet, view) => BeginPublishKeeps(sh, r, packet, view);
      case WriteByte => WriteByteKeeps(sh, r);
      case EndPublish => EndPublishKeeps(sh, r);
      case BeginReceive(limit, view) => BeginReceiveKeeps(sh, r, limit, view);
      case ReadByte => ReadByteKeeps(sh, r);
      case EndReceive => EndReceiveKeeps(sh, r);
    }
  }

  lemma {:induction false} RunKeeps(sh: Shape, r: Ring, actions: seq<Action>)
    requires ShapeOk(sh) && Inv(sh, r) && RunAll(sh, r, actions).Some?
    ensures Inv(sh, RunAll(sh, r, actions).value)
    decreases |actions|
  {
    hide Inv, Next;
    if actions != [] {
      NextKeeps(sh, r, actions[0]);
      RunKeeps(sh, Next(sh, r, actions[0]).value, actions[1..]);
    }
  }

  /** While one process writes and the other reads, they are in different
      slots: disjoint bytes of the mapping. */
  lemma NeverSameSlot(sh: Shape, r: Ring)
    requires ShapeOk(sh) && Inv(sh, r)
    requires r.producer.Writing? && r.consumer.Reading?
    ensures SlotOf(sh, r.write) != SlotOf(sh, r.read)
    ensures var a, b := SlotStart(r.write, sh.Capacity(), sh.slotBytes), SlotStart(r.read, sh.Capacity(), sh.slotBytes);
            a + sh.slotBytes <= b || b + sh.slotBytes <= a
  {
    hide Contents, Copying, Faithful, BitAnd;
    var w, n := |r.published|, |r.received|;
    CursorSlot(sh, r.write, w);
    CursorSlot(sh, r.read, n);
    DistinctSlots(n, w, sh.Capacity());
    MaskIsMod(r.write, sh.k);
    MaskIsMod(r.read, sh.k);
    if r.write % Pow2(sh.k) < r.read % Pow2(sh.k) {
      SlotsDisjoint(r.write, r.read, sh.k, sh.slotBytes);
    } else {
      SlotsDisjoint(r.read, r.write, sh.k, sh.slotBytes);
    }
  }

  /** Under every interleaving, with stale views and wrapped cursors: what was
      received is a prefix of what was published, byte for byte, and the
      processes never touch the same slot. */
  lemma RingSafe(sh: Shape, memory: seq<seq<byte>>, actions: seq<Action>)
    requires ShapeOk(sh)
    requires |memory| == sh.Capacity() && forall i :: 0 <= i < |memory| ==> |memory[i]| == sh.slotBytes
    requires RunAll(sh, Created(sh, memory), actions).Some?
    ensures var r := RunAll(sh, Created(sh, memory), actions).value;
            && Faithful(r)
            && (r.producer.Writing? && r.consumer.Reading? ==> SlotOf(sh, r.write) != SlotOf(sh, r.read))
  {
    hide Next;
    CapacityFits(sh);
    var start := Created(sh, memory);
    assert Inv(sh, start);
    RunKeeps(sh, start, actions);
    var r := RunAll(sh, start, actions).value;
    if r.producer.Writing? && r.consumer.Reading? {
      NeverSameSlot(sh, r);
    }
  }

  /** Neither process ever indexes outside its slot: a step of a process that
      is mid-packet is always possible. */
  lemma NeverStuck(sh: Shape, r: Ring)
    requires ShapeOk(sh) && Inv(sh, r)
    ensures r.producer.Writing? ==> Next(sh, r, WriteByte).Some? || Next(sh, r, EndPublish).Some?
    ensures r.consumer.Reading? ==> Next(sh, r, ReadByte).Some? || Next(sh, r, EndReceive).Some?
  {
    hide Faithful, Record;
    CursorSlot(sh, r.write, |r.published|);
    CursorSlot(sh, r.read, |r.received|);
    CapacityFits(sh);
    if r.consumer.Reading? {
      var p, got := r.published[|r.received|], r.consumer.got;
      assert Starts(r.slots[SlotAt(sh, |r.received|)], p, 4 + |p|);
      if |got| < Wanted(got, r.consumer.limit) {
        CopyOne(r.slots[SlotAt(sh, |r.received|)], p, got, r.consumer.limit);
      }
    }
  }

  /** A publish is refused exactly when, as far as the producer can see, every
      slot is taken; a receive finds nothing exactly when, as far as the
      consumer can see, everything published was received. */
  lemma RefusedIffFull(sh: Shape, r: Ring, packet: seq<byte>, limit: nat, view: nat)
    requires ShapeOk(sh) && Inv(sh, r)
    ensures Next(sh, r, BeginPublish(packet, view)).Some? ==>
              (Next(sh, r, BeginPublish(packet, view)).value.producer.Resting? <==> |r.published| == view + sh.Capacity())
    ensures Next(sh, r, BeginReceive(limit, view)).Some? ==>
              (Next(sh, r, BeginReceive(limit, view)).value.consumer.Waiting? <==> |r.received| == view)
  {
    hide Contents, Copying, Faithful, SlotsSized;
    CapacityFits(sh);
    if Next(sh, r, BeginPublish(packet, view)).Some? {
      WrappedDistance(|r.published|, view);
    }
    if Next(sh, r, BeginReceive(limit, view)).Some? {
      WrappedEqual(|r.received|, view);
    }
  }
}
