/** The bytes on disk and on the wire, position by position. */
module Layouts {
  import opened Wrappers
  import opened Bytes
  import opened TimerWheel
  import opened FlatBook
  import opened BookLevels
  import opened BookSnapshots
  import opened BookWire
  import opened ExchangeWire
  import Crc32c
  import Frame
  import Segment
  import SnapshotFile
  import Persist
  import Codec
  import Exchange

  // ----- integers -----

  /** Byte `i` of a little-endian integer is its `i`-th base-256 digit. */
  lemma {:induction false} ByteAt(n: nat, k: nat, i: nat)
    requires i < k
    ensures LittleEndian(n, k)[i] as int == (n / Pow256(i)) % 256
    decreases k
  {
    if i == 0 {
      assert Pow256(0) == 1;
    } else {
      ByteAt(n / 256, k - 1, i - 1);
      DivDiv(n, Pow256(i - 1));
      assert Pow256(i) == 256 * Pow256(i - 1);
    }
  }

  lemma DivDiv(n: nat, p: nat)
    requires p > 0
    ensures (n / 256) / p == n / (256 * p)
  {
    var a, b := n / 256, n % 256;
    Parts(n, a, b, a / p, a % p, p);
    Quotient(a / p, 256 * p, 256 * (a % p) + b);
  }

  lemma Parts(n: nat, a: nat, b: nat, c: nat, d: nat, p: nat)
    requires n == 256 * a + b && a == p * c + d
    ensures n == (256 * p) * c + (256 * d + b)
  {
    assert 256 * (p * c) == (256 * p) * c;
  }

  lemma Quotient(q: nat, p: nat, r: nat)
    requires r < p
    ensures (p * q + r) / p == q
  {
    var x := p * q + r;
    var d := x / p - q;
    assert x == p * (x / p) + x % p;
    assert p * d == r - x % p;
    Small(p, d, r - x % p);
  }

  lemma Small(p: int, d: int, r: int)
    requires p > 0 && p * d == r && -p < r < p
    ensures d == 0
  {
  }

  // ----- frames -----

  /** The wire code of every kind of frame. */
  lemma KindCodes()
    ensures Frame.KindCode(Frame.Input) == 0x01 && Frame.KindCode(Frame.Output) == 0x02 && Frame.KindCode(Frame.Tick) == 0x10
    ensures Frame.KindCode(Frame.SessionOpen) == 0x11 && Frame.KindCode(Frame.SessionClose) == 0x12
    ensures Frame.KindCode(Frame.TimerFired) == 0x13 && Frame.KindCode(Frame.SnapshotMark) == 0x20
    ensures Frame.KindCode(Frame.EpochChange) == 0x30 && Frame.KindCode(Frame.Heartbeat) == 0xFF
  {
  }

  /** Seq, stamp, stream, kind, length, header checksum, payload, checksum. */
  lemma FrameLayout(f: Frame.Frame)
    ensures var b, n := Frame.Encode(f), |f.payload|;
            && |b| == 32 + n
            && b[0..8] == LittleEndian(f.seqno, 8) && b[8..16] == LittleEndian(f.timestamp, 8)
            && b[16..18] == LittleEndian(f.streamId, 2) && b[18..20] == LittleEndian(Frame.KindCode(f.kind), 2)
            && b[20..24] == LittleEndian(n, 4) && b[24..28] == LittleEndian(Crc32c.Crc(b[..24]), 4)
            && b[28..28 + n] == f.payload && b[28 + n..] == LittleEndian(Crc32c.Crc(f.payload), 4)
  {
    hide Crc32c.Crc, LittleEndian, Frame.KindCode;
    var b, n, h := Frame.Encode(f), |f.payload|, Frame.HeaderOf(f);
    Frame.HeaderFields(f.seqno, f.timestamp, f.streamId, Frame.KindCode(f.kind), n);
    assert b[..24] == h && b[24..28] == LittleEndian(Crc32c.Crc(h), 4);
    assert b[0..8] == h[0..8] && b[8..16] == h[8..16] && b[16..18] == h[16..18] && b[18..20] == h[18..20] && b[20..24] == h[20..24];
    assert b[28..] == Frame.Sealed(f.payload);
    assert b[28..28 + n] == b[28..][..n] && b[28 + n..] == b[28..][n..];
  }

  /** An intact header of an unknown kind, or of a payload over 64 MiB, is refused
      with the code or the length. */
  lemma BadHeadersRefused(seqno: nat, timestamp: nat, streamId: nat, code: nat, len: nat, rest: seq<byte>)
    requires seqno < U64_LIMIT && timestamp < U64_LIMIT && streamId < 0x1_0000 && code < 0x1_0000 && len < U32_LIMIT
    ensures var r := Frame.ReadFrom(Frame.Sealed(Frame.Header(seqno, timestamp, streamId, code, len)) + rest);
            && (len > 64 * 1024 * 1024 ==> r == Frame.Err(Frame.PayloadTooLarge(len)))
            && (len <= 64 * 1024 * 1024 && Frame.KindOfCode(code) == None ==> r == Frame.Err(Frame.UnknownKind(code)))
  {
    hide Crc32c.Crc, LittleEndian, FromLittleEndian, Frame.KindOfCode;
    var h := Frame.Header(seqno, timestamp, streamId, code, len);
    var b := Frame.Sealed(h) + rest;
    Pow256Values();
    Frame.HeaderFields(seqno, timestamp, streamId, code, len);
    LittleEndianRoundTrip(code, 2);
    LittleEndianRoundTrip(len, 4);
    Frame.StoredCrc(h);
    assert b[..24] == h && b[24..28] == Frame.Sealed(h)[24..];
  }

  // ----- files -----

  /** A segment's header: "TKTJ", version 1, first seq, epoch, checksum. */
  lemma SegmentLayout(first: nat, epoch: nat)
    ensures var b := Segment.HeaderBytes(first, epoch);
            && |b| == 28 && b[0..4] == [0x54, 0x4B, 0x54, 0x4A] && b[4..8] == LittleEndian(1, 4)
            && b[8..16] == LittleEndian(first, 8) && b[16..24] == LittleEndian(epoch, 8)
            && b[24..28] == LittleEndian(Crc32c.Crc(b[..24]), 4)
  {
    hide Crc32c.Crc, LittleEndian;
    var core := Segment.MAGIC + LittleEndian(1, 4) + LittleEndian(first, 8) + LittleEndian(epoch, 8);
    var b := Segment.HeaderBytes(first, epoch);
    assert b == core + LittleEndian(Crc32c.Crc(core), 4);
    assert b[..24] == core;
  }

  /** A snapshot: "TKTS", version 1, seq, epoch, length, checksum, payload,
      checksum. */
  lemma SnapshotLayout(seqno: nat, epoch: nat, payload: seq<byte>)
    ensures var b, n := SnapshotFile.Image(seqno, epoch, payload), |payload|;
            && |b| == 36 + n && b[0..4] == [0x54, 0x4B, 0x54, 0x53] && b[4..8] == LittleEndian(1, 4)
            && b[8..16] == LittleEndian(seqno, 8) && b[16..24] == LittleEndian(epoch, 8) && b[24..28] == LittleEndian(n, 4)
            && b[28..32] == LittleEndian(Crc32c.Crc(b[..28]), 4)
            && b[32..32 + n] == payload && b[32 + n..] == LittleEndian(Crc32c.Crc(payload), 4)
  {
    hide Crc32c.Crc, LittleEndian;
    var b, n, h := SnapshotFile.Image(seqno, epoch, payload), |payload|, SnapshotFile.Fields(seqno, epoch, |payload|);
    assert b[..28] == h && b[28..32] == LittleEndian(Crc32c.Crc(h), 4);
    assert b[0..4] == h[0..4] && b[4..8] == h[4..8] && b[8..16] == h[8..16] && b[16..24] == h[16..24] && b[24..28] == h[24..28];
    assert b[32..] == Frame.Sealed(payload);
    assert b[32..32 + n] == b[32..][..n] && b[32 + n..] == b[32..][n..];
  }

  /** An acceptor's promise: "TKAP", the epoch, checksum. */
  lemma RecordLayout(promised: nat)
    ensures var b := Persist.Record(promised);
            && |b| == 16 && b[0..4] == [0x54, 0x4B, 0x41, 0x50] && b[4..12] == LittleEndian(promised, 8)
            && b[12..16] == LittleEndian(Crc32c.Crc(b[..12]), 4)
  {
    hide Crc32c.Crc, LittleEndian;
    var core := Persist.ACCEPTOR_MAGIC + LittleEndian(promised, 8);
    var b := Persist.Record(promised);
    assert b[..12] == core;
  }

  // ----- the codec -----

  /** Integers little-endian in their width, negative ones in two's complement;
      a byte for a bool or an option; 32-bit lengths; 16-bit variant tags. */
  lemma CodecLayouts(t: Codec.Type, ts: Codec.Types, variants: Codec.Variants, v: Codec.Value, vs: seq<Codec.Value>,
                     n: nat, width: nat, text: seq<byte>)
    ensures Codec.Encode(Codec.UInt(width), Codec.VUInt(n)) == LittleEndian(n, width)
    ensures 0 < n <= Pow256(width) ==> Codec.Encode(Codec.SInt(width), Codec.VSInt(-(n as int))) == LittleEndian(Pow256(width) - n, width)
    ensures Codec.Encode(Codec.SInt(width), Codec.VSInt(n)) == LittleEndian(n, width)
    ensures Codec.Encode(Codec.Bool, Codec.VBool(true)) == [1] && Codec.Encode(Codec.Bool, Codec.VBool(false)) == [0]
    ensures Codec.Encode(Codec.Str, Codec.VStr(text)) == LittleEndian(|text|, 4) + text
    ensures Codec.Encode(Codec.Opt(t), Codec.VNone) == [0] && Codec.Encode(Codec.Opt(t), Codec.VSome(v)) == [1] + Codec.Encode(t, v)
    ensures Codec.Encode(Codec.Vec(t), Codec.VVec(vs)) == LittleEndian(|vs|, 4) + Codec.EncodeItems(t, vs)
    ensures Codec.Encode(Codec.Tuple(ts), Codec.VTuple(vs)) == Codec.EncodeFields(ts, vs)
    ensures Codec.Encode(Codec.Enum(variants), Codec.VEnum(n, vs)) == LittleEndian(n, 2) + Codec.EncodeVariant(variants, n, vs)
  {
    hide LittleEndian;
  }

  /** The pair of a 16-bit 0x0102 and the string "ab". */
  lemma KnownEncoding()
    ensures Codec.Encode(Codec.Tuple(Codec.Cons(Codec.UInt(2), Codec.Cons(Codec.Str, Codec.Nil))),
                         Codec.VTuple([Codec.VUInt(0x0102), Codec.VStr([0x61, 0x62])]))
            == [0x02, 0x01, 0x02, 0x00, 0x00, 0x00, 0x61, 0x62]
  {
    hide LittleEndian;
    var vs := [Codec.VUInt(0x0102), Codec.VStr([0x61, 0x62])];
    assert vs[1..] == [Codec.VStr([0x61, 0x62])] && vs[1..][1..] == [];
    TwoFields(Codec.UInt(2), Codec.Str, vs);
    SmallBytes();
  }

  lemma SmallBytes()
    ensures LittleEndian(0x0102, 2) == [0x02, 0x01]
    ensures LittleEndian(2, 4) == [0x02, 0x00, 0x00, 0x00]
  {
    assert LittleEndian(0x0102, 2) == [0x02] + LittleEndian(1, 1);
    assert LittleEndian(1, 1) == [0x01] + LittleEndian(0, 0);
    assert LittleEndian(2, 4) == [0x02, 0x00] + LittleEndian(0, 2);
    assert LittleEndian(0, 2) == [0x00, 0x00] + LittleEndian(0, 0);
  }

  lemma FieldsFrom(t: Codec.Type, ts: Codec.Types, vs: seq<Codec.Value>)
    requires vs != []
    ensures Codec.EncodeFields(Codec.Cons(t, ts), vs) == Codec.Encode(t, vs[0]) + Codec.EncodeFields(ts, vs[1..])
  {
    hide Codec.Encode;
  }

  lemma OneField(t: Codec.Type, vs: seq<Codec.Value>)
    requires |vs| == 1
    ensures Codec.EncodeFields(Codec.Cons(t, Codec.Nil), vs) == Codec.Encode(t, vs[0])
  {
    hide Codec.Encode;
    FieldsFrom(t, Codec.Nil, vs);
    assert Codec.EncodeFields(Codec.Nil, vs[1..]) == [];
  }

  lemma TwoFields(t: Codec.Type, u: Codec.Type, vs: seq<Codec.Value>)
    requires |vs| == 2
    ensures Codec.EncodeFields(Codec.Cons(t, Codec.Cons(u, Codec.Nil)), vs) == Codec.Encode(t, vs[0]) + Codec.Encode(u, vs[1])
  {
    hide Codec.Encode, Codec.EncodeFields;
    FieldsFrom(t, Codec.Cons(u, Codec.Nil), vs);
    OneField(u, vs[1..]);
  }

  lemma ThreeFields(t: Codec.Type, u: Codec.Type, w: Codec.Type, vs: seq<Codec.Value>)
    requires |vs| == 3
    ensures Codec.EncodeFields(Codec.Cons(t, Codec.Cons(u, Codec.Cons(w, Codec.Nil))), vs)
            == Codec.Encode(t, vs[0]) + (Codec.Encode(u, vs[1]) + Codec.Encode(w, vs[2]))
  {
    hide Codec.Encode, Codec.EncodeFields;
    FieldsFrom(t, Codec.Cons(u, Codec.Cons(w, Codec.Nil)), vs);
    TwoFields(u, w, vs[1..]);
  }

  // ----- commands -----

  function SideTag(side: Side): nat { match side case Buy => 0 case Sell => 1 }

  lemma SideLayout(side: Side)
    ensures Codec.Encode(SIDE, SideValue(side)) == LittleEndian(SideTag(side), 2)
  {
    hide LittleEndian;
    assert Codec.EncodeVariant(Codec.Variant(Codec.Nil, Codec.Variant(Codec.Nil, Codec.NoMore)), SideTag(side), []) == [];
  }

  lemma OrderFields(id: nat, side: Side, price: nat, qty: nat, more: seq<Codec.Value>, ts: Codec.Types)
    ensures Codec.EncodeFields(Codec.Cons(U64, Codec.Cons(SIDE, Codec.Cons(U32, Codec.Cons(U32, ts)))),
                               [Codec.VUInt(id), SideValue(side), Codec.VUInt(price), Codec.VUInt(qty)] + more)
            == LittleEndian(id, 8) + (LittleEndian(SideTag(side), 2) + (LittleEndian(price, 4) + (LittleEndian(qty, 4) + Codec.EncodeFields(ts, more))))
  {
    hide LittleEndian, Codec.EncodeFields, SideValue;
    SideLayout(side);
    var vs := [Codec.VUInt(id), SideValue(side), Codec.VUInt(price), Codec.VUInt(qty)] + more;
    assert vs[1..][1..] == vs[2..] && vs[2..][1..] == vs[3..] && vs[3..][1..] == more;
    var last := Codec.Cons(U32, ts);
    FieldsFrom(U64, Codec.Cons(SIDE, Codec.Cons(U32, last)), vs);
    FieldsFrom(SIDE, Codec.Cons(U32, last), vs[1..]);
    FieldsFrom(U32, last, vs[2..]);
    FieldsFrom(U32, ts, vs[3..]);
  }

  /** A command: its tag, then its fields in order. */
  lemma CommandLayout(id: nat, side: Side, price: nat, qty: nat, at: nat)
    ensures EncodeCmd(Cmd.Submit(id, side, price, qty))
            == LittleEndian(0, 2) + (LittleEndian(id, 8) + (LittleEndian(SideTag(side), 2) + (LittleEndian(price, 4) + LittleEndian(qty, 4))))
    ensures EncodeCmd(Cmd.SubmitGtd(id, side, price, qty, at))
            == LittleEndian(1, 2) + (LittleEndian(id, 8) + (LittleEndian(SideTag(side), 2) + (LittleEndian(price, 4) + (LittleEndian(qty, 4) + LittleEndian(at, 8)))))
    ensures EncodeCmd(Cmd.Cancel(id)) == LittleEndian(2, 2) + LittleEndian(id, 8)
  {
    hide LittleEndian, Codec.EncodeFields, SideValue;
    OrderFields(id, side, price, qty, [], Codec.Nil);
    OrderFields(id, side, price, qty, [Codec.VUInt(at)], Codec.Cons(U64, Codec.Nil));
    OneField(U64, [Codec.VUInt(at)]);
    OneField(U64, [Codec.VUInt(id)]);
    NoFields();
    var plain := [Codec.VUInt(id), SideValue(side), Codec.VUInt(price), Codec.VUInt(qty)];
    assert plain + [] == plain && LittleEndian(qty, 4) + [] == LittleEndian(qty, 4);
    var gtd := CmdValue(Cmd.SubmitGtd(id, side, price, qty, at)).fields;
    assert gtd == plain + [Codec.VUInt(at)];
    assert Codec.EncodeVariant(Codec.Variant(PLAIN, GTD), 1, gtd) == Codec.EncodeVariant(GTD, 0, gtd);
  }

  lemma NoFields()
    ensures Codec.EncodeFields(Codec.Nil, []) == []
  {
  }

  /** What a gateway injects: a client's command behind its session and client
      seq, or a session's end. */
  lemma GatewayLayout(session: nat, clientSeq: nat, cmd: Cmd)
    ensures EncodeInput(Exchange.Client(session, clientSeq, cmd))
            == LittleEndian(0, 2) + (LittleEndian(session, 8) + (LittleEndian(clientSeq, 8) + EncodeCmd(cmd)))
    ensures EncodeInput(Exchange.SessionClosed(session)) == LittleEndian(1, 2) + LittleEndian(session, 8)
  {
    hide LittleEndian, Codec.EncodeFields, CmdValue;
    ThreeFields(U64, U64, CMD, [Codec.VUInt(session), Codec.VUInt(clientSeq), CmdValue(cmd)]);
    var closed := [Codec.VUInt(session)];
    OneField(U64, closed);
    assert Codec.EncodeVariant(Codec.Variant(CLIENT, CLOSED), 1, closed) == Codec.EncodeVariant(CLOSED, 0, closed);
  }

  // ----- snapshot payloads -----

  function EntryBytes(e: TimerEntry): seq<byte> { LittleEndian(e.id, 8) + (LittleEndian(e.at, 8) + LittleEndian(e.setAt, 8)) }

  function AllEntryBytes(es: seq<TimerEntry>): seq<byte> {
    if es == [] then [] else EntryBytes(es[0]) + AllEntryBytes(es[1..])
  }

  lemma {:induction false} EntryItems(es: seq<TimerEntry>)
    ensures Codec.EncodeItems(ENTRY, EntriesValue(es).items) == AllEntryBytes(es)
  {
    hide LittleEndian, Codec.EncodeFields;
    if es != [] {
      var items := EntriesValue(es).items;
      ThreeFields(U64, U64, U64, items[0].fields);
      assert items[1..] == EntriesValue(es[1..]).items;
      EntryItems(es[1..]);
    }
  }

  /** The application's snapshot, then the armed timers: their number, and for
      each its id, its deadline and the seq it was set at. */
  lemma PayloadLayout(s: BookSnapshot, es: seq<TimerEntry>)
    ensures EncodeBook(s, es) == Codec.Encode(BOOK, BookValue(s)) + (LittleEndian(|es|, 4) + AllEntryBytes(es))
  {
    hide LittleEndian, Codec.EncodeFields, BookValue;
    EntryItems(es);
    var vs := [BookValue(s), EntriesValue(es)];
    TwoFields(BOOK, Codec.Vec(ENTRY), vs);
    VecLayout(ENTRY, EntriesValue(es).items);
    TupleLayout(Codec.Cons(BOOK, Codec.Cons(Codec.Vec(ENTRY), Codec.Nil)), vs);
  }

  lemma VecLayout(t: Codec.Type, items: seq<Codec.Value>)
    ensures Codec.Encode(Codec.Vec(t), Codec.VVec(items)) == LittleEndian(|items|, 4) + Codec.EncodeItems(t, items)
  {
  }

  lemma TupleLayout(ts: Codec.Types, vs: seq<Codec.Value>)
    ensures Codec.Encode(Codec.Tuple(ts), Codec.VTuple(vs)) == Codec.EncodeFields(ts, vs)
  {
  }

  function QueueBytes(orders: seq<Waiting>): seq<byte> {
    if orders == [] then [] else LittleEndian(orders[0].id, 8) + LittleEndian(orders[0].qty, 4) + QueueBytes(orders[1..])
  }

  function LevelBytes(levels: seq<LevelSnap>): seq<byte> {
    if levels == [] then []
    else LittleEndian(levels[0].price, 4) + (LittleEndian(|levels[0].orders|, 4) + QueueBytes(levels[0].orders)) + LevelBytes(levels[1..])
  }

  lemma {:induction false} QueueItems(orders: seq<Waiting>, items: seq<Codec.Value>)
    requires |items| == |orders| && forall i :: 0 <= i < |orders| ==> items[i] == WaitingValue(orders[i])
    ensures Codec.EncodeItems(PAIR, items) == QueueBytes(orders)
  {
    hide LittleEndian, Codec.EncodeFields;
    if orders != [] {
      TwoFields(U64, U32, items[0].fields);
      QueueItems(orders[1..], items[1..]);
    }
  }

  lemma OneLevel(l: LevelSnap)
    ensures Codec.Encode(LEVEL, LevelValue(l)) == LittleEndian(l.price, 4) + (LittleEndian(|l.orders|, 4) + QueueBytes(l.orders))
  {
    hide LittleEndian, Codec.EncodeFields, WaitingValue;
    var vs := LevelValue(l).fields;
    QueueItems(l.orders, vs[1].items);
    VecLayout(PAIR, vs[1].items);
    TwoFields(U32, Codec.Vec(PAIR), vs);
  }

  lemma {:induction false} LevelItems(levels: seq<LevelSnap>)
    ensures Codec.EncodeItems(LEVEL, LevelsValue(levels).items) == LevelBytes(levels)
  {
    hide LittleEndian, Codec.Encode, LevelValue;
    if levels != [] {
      OneLevel(levels[0]);
      LevelItems(levels[1..]);
      assert LevelsValue(levels).items[1..] == LevelsValue(levels[1..]).items;
    }
  }

  /** A book: its bid levels, its ask levels, each a price and its queue of ids
      and quantities, and the three counters. */
  lemma BookLayout(s: BookSnapshot)
    ensures Codec.Encode(BOOK, BookValue(s))
            == (LittleEndian(|s.bids|, 4) + LevelBytes(s.bids)) + ((LittleEndian(|s.asks|, 4) + LevelBytes(s.asks))
               + (LittleEndian(s.accepted, 8) + (LittleEndian(s.traded, 8) + LittleEndian(s.canceled, 8))))
  {
    hide LittleEndian, Codec.EncodeFields, Codec.EncodeItems, LevelBytes;
    var vs := BookValue(s).fields;
    var counts := Codec.Cons(U64, Codec.Cons(U64, Codec.Cons(U64, Codec.Nil)));
    LevelItems(s.bids);
    LevelItems(s.asks);
    VecLayout(LEVEL, LevelsValue(s.bids).items);
    VecLayout(LEVEL, LevelsValue(s.asks).items);
    assert vs[1..][1..] == [Codec.VUInt(s.accepted), Codec.VUInt(s.traded), Codec.VUInt(s.canceled)];
    FieldsFrom(Codec.Vec(LEVEL), Codec.Cons(Codec.Vec(LEVEL), counts), vs);
    FieldsFrom(Codec.Vec(LEVEL), counts, vs[1..]);
    ThreeFields(U64, U64, U64, vs[1..][1..]);
    TupleLayout(Codec.Cons(Codec.Vec(LEVEL), Codec.Cons(Codec.Vec(LEVEL), counts)), vs);
  }

  function LongBytes(ps: seq<(nat, nat)>): seq<byte> {
    if ps == [] then [] else LittleEndian(ps[0].0, 8) + LittleEndian(ps[0].1, 8) + LongBytes(ps[1..])
  }

  lemma {:induction false} LongItems(ps: seq<(nat, nat)>)
    ensures Codec.EncodeItems(LONGS, LongsValue(ps).items) == LongBytes(ps)
  {
    hide LittleEndian, Codec.EncodeFields;
    if ps != [] {
      var items := LongsValue(ps).items;
      TwoFields(U64, U64, items[0].fields);
      assert items[1..] == LongsValue(ps[1..]).items;
      LongItems(ps[1..]);
    }
  }

  /** An exchange: the book's bytes behind their length, then order and owner,
      then session and last client seq. */
  lemma VenueLayout(s: VenueSnapshot)
    ensures Codec.Encode(Codec.Tuple(PARTS), PartsValue(s))
            == (LittleEndian(|s.book|, 4) + s.book)
               + ((LittleEndian(|s.owners|, 4) + LongBytes(s.owners)) + (LittleEndian(|s.last|, 4) + LongBytes(s.last)))
  {
    hide LittleEndian, Codec.EncodeFields, Codec.EncodeItems, LongBytes;
    var vs := PartsValue(s).fields;
    LongItems(s.owners);
    LongItems(s.last);
    VecLayout(LONGS, LongsValue(s.owners).items);
    VecLayout(LONGS, LongsValue(s.last).items);
    ThreeFields(Codec.Str, Codec.Vec(LONGS), Codec.Vec(LONGS), vs);
    TupleLayout(PARTS, vs);
  }

  /** The pairs of a map by ascending key. */
  ghost predicate Lists(ps: seq<(nat, nat)>, m: map<nat, nat>) {
    && (forall i, j :: 0 <= i < j < |ps| ==> ps[i].0 < ps[j].0)
    && (forall i :: 0 <= i < |ps| ==> ps[i].0 in m && m[ps[i].0] == ps[i].1)
  }

  lemma ListsLast(ps: seq<(nat, nat)>, m: map<nat, nat>, k: nat)
    requires k in m && (forall x :: x in m ==> x <= k) && Lists(ps, m - {k})
    ensures Lists(ps + [(k, m[k])], m)
  {
    forall i | 0 <= i < |ps|
      ensures ps[i].0 < k && ps[i].0 in m && m[ps[i].0] == ps[i].1
    {
      assert ps[i].0 in m - {k};
    }
  }

  /** Owners and client seqs are listed by ascending key. */
  lemma {:induction false} PairsAscend(m: map<nat, nat>)
    ensures Lists(Pairs(m), m)
    decreases |m|
  {
    hide Greatest, Lists;
    if m.Keys == {} {
      NothingListed(m);
    } else {
      var k := Greatest(m.Keys);
      Without(m, k);
      PairsAscend(m - {k});
      assert forall x :: x in m ==> x in m.Keys;
      ListsLast(Pairs(m - {k}), m, k);
    }
  }

  lemma NothingListed(m: map<nat, nat>)
    ensures Lists([], m)
  {
  }

  // ----- what the decoder refuses, and how -----

  /** Too few bytes, or bytes left over. */
  lemma LengthErrors(utf8: seq<byte> -> bool, buf: seq<byte>, width: nat)
    ensures |buf| < width ==> Codec.DecodeAll(utf8, Codec.UInt(width), buf) == Codec.Bad(Codec.UnexpectedEof)
    ensures |buf| > width ==> Codec.DecodeAll(utf8, Codec.UInt(width), buf) == Codec.Bad(Codec.TrailingBytes(|buf| - width))
  {
    hide FromLittleEndian;
  }

  /** A byte that is no bool and no option. */
  lemma ByteErrors(utf8: seq<byte> -> bool, first: byte, rest: seq<byte>, t: Codec.Type)
    requires first > 1
    ensures Codec.Decode(utf8, Codec.Bool, [first] + rest) == Codec.Bad(Codec.InvalidValue)
    ensures Codec.Decode(utf8, Codec.Opt(t), [first] + rest) == Codec.Bad(Codec.InvalidValue)
  {
    hide FromLittleEndian, Codec.DecodeNat;
    Codec.ByteRoundTrip(first, rest);
  }

  /** A tag that is no variant, and bytes that are no text. */
  lemma ValueErrors(utf8: seq<byte> -> bool, tag: nat, text: seq<byte>, rest: seq<byte>)
    requires 2 <= tag < 0x1_0000 && |text| < U32_LIMIT && !utf8(text)
    ensures Codec.Decode(utf8, SIDE, LittleEndian(tag, 2) + rest) == Codec.Bad(Codec.InvalidValue)
    ensures Codec.Decode(utf8, Codec.Str, LittleEndian(|text|, 4) + text + rest) == Codec.Bad(Codec.InvalidUtf8)
  {
    hide LittleEndian, Codec.DecodeNat;
    Pow256Values();
    Codec.NatRoundTrip(tag, 2, rest);
    assert Codec.DecodeVariant(utf8, Codec.Variant(Codec.Nil, Codec.Variant(Codec.Nil, Codec.NoMore)), tag, rest)
           == Codec.DecodeVariant(utf8, Codec.NoMore, tag - 2, rest);
    Codec.Regroup(LittleEndian(|text|, 4), text, rest);
    Codec.NatRoundTrip(|text|, 4, text + rest);
    assert (text + rest)[..|text|] == text;
  }
}
