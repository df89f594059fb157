/** The order book's wire types, and the book as a complete service: steps,
    snapshot and codec. */
module BookWire {
  import opened Wrappers
  import opened Bytes
  import opened TimerWheel
  import opened FlatBook
  import opened BookLevels
  import opened BookSnapshots
  import opened Codec
  import opened Execution

  // ----- the wire types -----

  const U64 := UInt(8)
  const U32 := UInt(4)
  const SIDE := Enum(Variant(Nil, Variant(Nil, NoMore)))
  const CANCEL := Variant(Cons(U64, Nil), NoMore)
  const GTD := Variant(Cons(U64, Cons(SIDE, Cons(U32, Cons(U32, Cons(U64, Nil))))), CANCEL)
  const PLAIN := Cons(U64, Cons(SIDE, Cons(U32, Cons(U32, Nil))))
  const CMD := Enum(Variant(PLAIN, GTD))
  const PAIR := Tuple(Cons(U64, Cons(U32, Nil)))
  const LEVEL := Tuple(Cons(U32, Cons(Vec(PAIR), Nil)))
  const BOOK := Tuple(Cons(Vec(LEVEL), Cons(Vec(LEVEL), Cons(U64, Cons(U64, Cons(U64, Nil))))))
  const ENTRY := Tuple(Cons(U64, Cons(U64, Cons(U64, Nil))))
  const SNAPSHOT := Tuple(Cons(BOOK, Cons(Vec(ENTRY), Nil)))

  function AnyText(): seq<byte> -> bool { (b: seq<byte>) => true }

  function SideValue(side: Side): Value { VEnum(if side == Buy then 0 else 1, []) }

  function CmdValue(c: Cmd): Value {
    match c
    case Submit(id, side, price, qty) => VEnum(0, [VUInt(id), SideValue(side), VUInt(price), VUInt(qty)])
    case SubmitGtd(id, side, price, qty, at) => VEnum(1, [VUInt(id), SideValue(side), VUInt(price), VUInt(qty), VUInt(at)])
    case Cancel(id) => VEnum(2, [VUInt(id)])
  }

  function NatOf(v: Value): nat { if v.VUInt? then v.n else 0 }

  function SideOf(v: Value): Side { if v.VEnum? && v.tag == 0 then Buy else Sell }

  /** The inverse of `CmdValue`, on values of the command type. */
  function CmdOf(v: Value): Option<Cmd> {
    if !v.VEnum? then None
    else
      var fs := v.fields;
      if v.tag == 0 && |fs| == 4 then Some(Cmd.Submit(NatOf(fs[0]), SideOf(fs[1]), NatOf(fs[2]), NatOf(fs[3])))
      else if v.tag == 1 && |fs| == 5 then Some(SubmitGtd(NatOf(fs[0]), SideOf(fs[1]), NatOf(fs[2]), NatOf(fs[3]), NatOf(fs[4])))
      else if v.tag == 2 && |fs| == 1 then Some(Cancel(NatOf(fs[0])))
      else None
  }

  function EncodeCmd(c: Cmd): seq<byte> { Encode(CMD, CmdValue(c)) }

  function DecodeCmd(bytes: seq<byte>): Option<Cmd> {
    match DecodeAll(AnyText(), CMD, bytes)
    case Bad(_) => None
    case Got(v, _) => CmdOf(v)
  }

  function PairValue(p: (nat, nat)): Value { VTuple([VUInt(p.0), VUInt(p.1)]) }

  function PairOf(v: Value): (nat, nat) {
    if v.VTuple? && |v.fields| == 2 then (NatOf(v.fields[0]), NatOf(v.fields[1])) else (0, 0)
  }

  function WaitingValue(o: Waiting): Value { PairValue((o.id, o.qty)) }

  function WaitingOf(v: Value): Waiting { Waiting(PairOf(v).0, PairOf(v).1) }

  function LevelValue(l: LevelSnap): Value {
    VTuple([VUInt(l.price), VVec(seq(|l.orders|, i requires 0 <= i < |l.orders| => WaitingValue(l.orders[i])))])
  }

  function LevelOf(v: Value): LevelSnap {
    if v.VTuple? && |v.fields| == 2 && v.fields[1].VVec?
    then var items := v.fields[1].items;
         LevelSnap(NatOf(v.fields[0]), seq(|items|, i requires 0 <= i < |items| => WaitingOf(items[i])))
    else LevelSnap(0, [])
  }

  function LevelsValue(levels: seq<LevelSnap>): Value {
    VVec(seq(|levels|, i requires 0 <= i < |levels| => LevelValue(levels[i])))
  }

  function LevelsOf(v: Value): seq<LevelSnap> {
    if v.VVec? then seq(|v.items|, i requires 0 <= i < |v.items| => LevelOf(v.items[i])) else []
  }

  function EntryValue(e: TimerEntry): Value { VTuple([VUInt(e.id), VUInt(e.at), VUInt(e.setAt)]) }

  function EntryOf(v: Value): TimerEntry {
    if v.VTuple? && |v.fields| == 3 then TimerEntry(NatOf(v.fields[0]), NatOf(v.fields[1]), NatOf(v.fields[2]))
    else TimerEntry(0, 0, 0)
  }

  function EntriesValue(es: seq<TimerEntry>): Value {
    VVec(seq(|es|, i requires 0 <= i < |es| => EntryValue(es[i])))
  }

  function EntriesOf(v: Value): seq<TimerEntry> {
    if v.VVec? then seq(|v.items|, i requires 0 <= i < |v.items| => EntryOf(v.items[i])) else []
  }

  function BookValue(s: BookSnapshot): Value {
    VTuple([LevelsValue(s.bids), LevelsValue(s.asks), VUInt(s.accepted), VUInt(s.traded), VUInt(s.canceled)])
  }

  function BookOf(v: Value): BookSnapshot {
    if v.VTuple? && |v.fields| == 5
    then BookSnapshot(LevelsOf(v.fields[0]), LevelsOf(v.fields[1]), NatOf(v.fields[2]), NatOf(v.fields[3]), NatOf(v.fields[4]))
    else BookSnapshot([], [], 0, 0, 0)
  }

  function EncodeBook(s: BookSnapshot, es: seq<TimerEntry>): seq<byte> {
    Encode(SNAPSHOT, VTuple([BookValue(s), EntriesValue(es)]))
  }

  function DecodeBook(bytes: seq<byte>): Option<(BookSnapshot, seq<TimerEntry>)> {
    match DecodeAll(AnyText(), SNAPSHOT, bytes)
    case Bad(_) => None
    case Got(v, _) => if v.VTuple? && |v.fields| == 2 then Some((BookOf(v.fields[0]), EntriesOf(v.fields[1]))) else None
  }

  // ----- what has the types -----

  predicate CmdFits(c: Cmd) {
    match c
    case Submit(id, _, price, qty) => id < U64_LIMIT && price < U32_LIMIT && qty < U32_LIMIT
    case SubmitGtd(id, _, price, qty, at) => id < U64_LIMIT && price < U32_LIMIT && qty < U32_LIMIT && at < U64_LIMIT
    case Cancel(id) => id < U64_LIMIT
  }

  predicate OrdersFit(orders: seq<Order>) {
    && |orders| < U32_LIMIT
    && forall i :: 0 <= i < |orders| ==> orders[i].id < U64_LIMIT && orders[i].price < U32_LIMIT && orders[i].qty < U32_LIMIT
  }

  /** The book is within the widths of its snapshot type. */
  predicate BookFits(book: Flat) {
    && OrdersFit(book.bids) && OrdersFit(book.asks)
    && book.accepted < U64_LIMIT && book.traded < U64_LIMIT && book.canceled < U64_LIMIT
  }

  function BookService(): Service<Flat, Cmd, Evt, BookSnapshot> {
    Service(
      EMPTY,
      (s: Flat, q: nat, t: nat, c: Cmd) => Outcome(Apply(s, c).0, Apply(s, c).1.events, Apply(s, c).1.timers),
      (s: Flat, q: nat, t: nat, id: nat) => Outcome(TimerStep(s, id).0, TimerStep(s, id).1.events, TimerStep(s, id).1.timers),
      (s: Flat) => Snap(s),
      (n: BookSnapshot) => Unsnap(n),
      (c: Cmd) => EncodeCmd(c),
      (b: seq<byte>) => DecodeCmd(b),
      (n: BookSnapshot, es: seq<TimerEntry>) => EncodeBook(n, es),
      (b: seq<byte>) => DecodeBook(b),
      1,
      (c: Cmd) => CmdFits(c),
      (s: Flat) => BookFits(s),
      (a: Flat, b: Flat) => a == b)
  }

  lemma Widths()
    ensures Pow256(8) == U64_LIMIT && Pow256(4) == U32_LIMIT
  {
    Pow256Values();
  }

  lemma FieldsTyped(t: Type, ts: Types, vs: seq<Value>)
    requires vs != [] && HasType(AnyText(), t, vs[0]) && FieldsHaveType(AnyText(), ts, vs[1..])
    ensures FieldsHaveType(AnyText(), Cons(t, ts), vs)
  {
    hide HasType;
  }

  lemma {:induction false} AllTyped(t: Type, items: seq<Value>)
    requires forall i :: 0 <= i < |items| ==> HasType(AnyText(), t, items[i])
    ensures AllHaveType(AnyText(), t, items)
  {
    hide HasType;
    if items != [] {
      AllTyped(t, items[1..]);
    }
  }

  lemma TwoTyped(t: Type, u: Type, vs: seq<Value>)
    requires |vs| == 2 && HasType(AnyText(), t, vs[0]) && HasType(AnyText(), u, vs[1])
    ensures FieldsHaveType(AnyText(), Cons(t, Cons(u, Nil)), vs)
  {
    hide HasType;
    assert vs[1..][1..] == [];
    FieldsTyped(u, Nil, vs[1..]);
    FieldsTyped(t, Cons(u, Nil), vs);
  }

  lemma SideTyped(side: Side)
    ensures HasType(AnyText(), SIDE, SideValue(side))
  {
  }

  lemma PlainTyped(vs: seq<Value>, more: Types)
    requires |vs| >= 4 && FieldsHaveType(AnyText(), more, vs[4..])
    requires HasType(AnyText(), U64, vs[0]) && HasType(AnyText(), SIDE, vs[1]) && HasType(AnyText(), U32, vs[2]) && HasType(AnyText(), U32, vs[3])
    ensures FieldsHaveType(AnyText(), Cons(U64, Cons(SIDE, Cons(U32, Cons(U32, more)))), vs)
  {
    hide HasType, FieldsHaveType;
    assert vs[1..][1..] == vs[2..] && vs[2..][1..] == vs[3..] && vs[3..][1..] == vs[4..];
    FieldsTyped(U32, more, vs[3..]);
    FieldsTyped(U32, Cons(U32, more), vs[2..]);
    FieldsTyped(SIDE, Cons(U32, Cons(U32, more)), vs[1..]);
    FieldsTyped(U64, Cons(SIDE, Cons(U32, Cons(U32, more))), vs);
  }

  lemma CmdTyped(c: Cmd)
    requires CmdFits(c)
    ensures HasType(AnyText(), CMD, CmdValue(c))
  {
    Widths();
    var vs := CmdValue(c).fields;
    match c {
      case Submit(id, side, price, qty) =>
        SideTyped(side);
        assert vs[4..] == [];
        PlainTyped(vs, Nil);
      case SubmitGtd(id, side, price, qty, at) =>
        SideTyped(side);
        assert vs[4..] == [VUInt(at)];
        assert vs[4..][1..] == [];
        FieldsTyped(U64, Nil, vs[4..]);
        PlainTyped(vs, Cons(U64, Nil));
      case Cancel(id) =>
        assert vs[1..] == [];
        FieldsTyped(U64, Nil, vs);
    }
  }

  lemma CmdRoundTrip(c: Cmd)
    requires CmdFits(c)
    ensures DecodeCmd(EncodeCmd(c)) == Some(c)
  {
    hide HasType, Encode, Decode;
    CmdTyped(c);
    DecodeAllIff(AnyText(), CMD, CmdValue(c), EncodeCmd(c));
  }

  // ----- the snapshot round-trips -----

  ghost predicate LevelFits(l: LevelSnap, most: nat) {
    && l.price < U32_LIMIT && |l.orders| <= most
    && forall j :: 0 <= j < |l.orders| ==> l.orders[j].id < U64_LIMIT && l.orders[j].qty < U32_LIMIT
  }

  lemma {:induction false} LevelsFit(orders: seq<Order>)
    requires OrdersFit(orders)
    ensures |Grouped(orders)| <= |orders|
    ensures forall i :: 0 <= i < |Grouped(orders)| ==> LevelFits(Grouped(orders)[i], |orders|)
  {
    if orders != [] {
      LevelsFit(orders[1..]);
      var o, rest := orders[0], Grouped(orders[1..]);
      assert forall i :: 0 <= i < |rest| ==> LevelFits(rest[i], |orders|);
      if rest != [] && rest[0].price == o.price {
        assert LevelFits(LevelSnap(o.price, [Waiting(o.id, o.qty)] + rest[0].orders), |orders|);
      } else {
        assert LevelFits(LevelSnap(o.price, [Waiting(o.id, o.qty)]), |orders|);
      }
    }
  }

  lemma PairTyped(p: (nat, nat))
    requires p.0 < U64_LIMIT && p.1 < U32_LIMIT
    ensures HasType(AnyText(), PAIR, PairValue(p))
  {
    Widths();
    TwoTyped(U64, U32, PairValue(p).fields);
  }

  lemma LevelTyped(l: LevelSnap, most: nat)
    requires LevelFits(l, most) && most < U32_LIMIT
    ensures HasType(AnyText(), LEVEL, LevelValue(l))
  {
    hide PairValue;
    Widths();
    var vs := LevelValue(l).fields;
    forall i | 0 <= i < |vs[1].items|
      ensures HasType(AnyText(), PAIR, vs[1].items[i])
    {
      PairTyped((l.orders[i].id, l.orders[i].qty));
    }
    AllTyped(PAIR, vs[1].items);
    assert HasType(AnyText(), Vec(PAIR), vs[1]);
    TwoTyped(U32, Vec(PAIR), vs);
  }

  lemma LevelsTyped(levels: seq<LevelSnap>, most: nat)
    requires |levels| < U32_LIMIT && most < U32_LIMIT && forall i :: 0 <= i < |levels| ==> LevelFits(levels[i], most)
    ensures HasType(AnyText(), Vec(LEVEL), LevelsValue(levels))
  {
    hide LevelFits, LevelValue;
    var items := LevelsValue(levels).items;
    forall i | 0 <= i < |items|
      ensures HasType(AnyText(), LEVEL, items[i])
    {
      LevelTyped(levels[i], most);
    }
    AllTyped(LEVEL, items);
  }

  lemma ThreeTyped(a: nat, b: nat, c: nat, vs: seq<Value>)
    requires vs == [VUInt(a), VUInt(b), VUInt(c)] && a < U64_LIMIT && b < U64_LIMIT && c < U64_LIMIT
    ensures FieldsHaveType(AnyText(), Cons(U64, Cons(U64, Cons(U64, Nil))), vs)
  {
    Widths();
    assert vs[1..] == [VUInt(b), VUInt(c)];
    TwoTyped(U64, U64, vs[1..]);
    FieldsTyped(U64, Cons(U64, Cons(U64, Nil)), vs);
  }

  lemma EntriesTyped(es: seq<TimerEntry>)
    requires EntriesFit(es)
    ensures HasType(AnyText(), Vec(ENTRY), EntriesValue(es))
  {
    var items := EntriesValue(es).items;
    forall i | 0 <= i < |items|
      ensures HasType(AnyText(), ENTRY, items[i])
    {
      ThreeTyped(es[i].id, es[i].at, es[i].setAt, items[i].fields);
    }
    AllTyped(ENTRY, items);
  }

  lemma BookTyped(book: Flat)
    requires BookFits(book)
    ensures HasType(AnyText(), BOOK, BookValue(Snap(book)))
  {
    hide LevelsValue, LevelFits, Grouped;
    LevelsFit(book.bids);
    LevelsFit(book.asks);
    var s := Snap(book);
    LevelsTyped(s.bids, |book.bids|);
    LevelsTyped(s.asks, |book.asks|);
    var vs := BookValue(s).fields;
    var counts := [VUInt(s.accepted), VUInt(s.traded), VUInt(s.canceled)];
    var three := Cons(U64, Cons(U64, Cons(U64, Nil)));
    assert vs[1..][1..] == counts;
    ThreeTyped(s.accepted, s.traded, s.canceled, counts);
    hide HasType, FieldsHaveType;
    FieldsTyped(Vec(LEVEL), three, vs[1..]);
    FieldsTyped(Vec(LEVEL), Cons(Vec(LEVEL), three), vs);
    TupleTyped(Cons(Vec(LEVEL), Cons(Vec(LEVEL), three)), vs);
  }

  lemma TupleTyped(ts: Types, vs: seq<Value>)
    requires FieldsHaveType(AnyText(), ts, vs)
    ensures HasType(AnyText(), Tuple(ts), VTuple(vs))
  {
  }

  lemma LevelsInverse(levels: seq<LevelSnap>)
    ensures LevelsOf(LevelsValue(levels)) == levels
  {
    forall i | 0 <= i < |levels|
      ensures LevelOf(LevelValue(levels[i])) == levels[i]
    {
      var l := levels[i];
      assert LevelOf(LevelValue(l)).orders == l.orders;
    }
  }

  lemma BookInverse(s: BookSnapshot, es: seq<TimerEntry>)
    ensures BookOf(BookValue(s)) == s
    ensures EntriesOf(EntriesValue(es)) == es
  {
    hide LevelsOf, LevelsValue;
    LevelsInverse(s.bids);
    LevelsInverse(s.asks);
    assert EntriesOf(EntriesValue(es)) == es;
  }

  lemma BookRoundTrip(book: Flat, es: seq<TimerEntry>)
    requires BookFits(book) && EntriesFit(es)
    ensures DecodeBook(EncodeBook(Snap(book), es)) == Some((Snap(book), es))
  {
    hide HasType, FieldsHaveType, Encode, Decode, BookValue, EntriesValue, BookOf, EntriesOf, BookFits, EntriesFit, Snap;
    BookTyped(book);
    EntriesTyped(es);
    var s := Snap(book);
    var vs := [BookValue(s), EntriesValue(es)];
    TwoTyped(BOOK, Vec(ENTRY), vs);
    TupleTyped(Cons(BOOK, Cons(Vec(ENTRY), Nil)), vs);
    DecodeAllIff(AnyText(), SNAPSHOT, VTuple(vs), EncodeBook(s, es));
    BookInverse(s, es);
  }

  /** The order book, with the wire formats the original derives, keeps every
      promise a node relies on, and restores exactly. */
  lemma BookIsLawful()
    ensures Lawful(BookService()) && Exact(BookService())
  {
    hide Apply, TimerStep, Snap, Unsnap, EncodeCmd, DecodeCmd, EncodeBook, DecodeBook, CmdFits, BookFits, EntriesFit;
    var sv := BookService();
    forall s | sv.storable(s)
      ensures sv.alike(s, sv.restore(sv.snapshot(s)))
    {
      UnsnapSnap(s);
    }
    forall c | sv.encodable(c)
      ensures sv.decodeInput(sv.encodeInput(c)) == Some(c)
    {
      CmdRoundTrip(c);
    }
    forall s, es | sv.storable(s) && EntriesFit(es)
      ensures sv.decodeSnapshot(sv.encodeSnapshot(sv.snapshot(s), es)) == Some((sv.snapshot(s), es))
    {
      BookRoundTrip(s, es);
    }
  }

  // ----- how long its encodings are -----

  lemma CmdLength(c: Cmd)
    ensures |EncodeCmd(c)| <= 28
  {
    LenExact(CMD, CmdValue(c));
    hide Encode, FieldsLen;
    var vs := CmdValue(c).fields;
    match c {
      case Submit(id, side, price, qty) =>
        PlainLength(id, side, price, qty, [], Nil);
        assert vs + [] == vs;
        NoFields();
      case SubmitGtd(id, side, price, qty, at) =>
        PlainLength(id, side, price, qty, [VUInt(at)], Cons(U64, Nil));
        assert vs == [VUInt(id), SideValue(side), VUInt(price), VUInt(qty)] + [VUInt(at)];
        ConsLength(U64, Nil, [VUInt(at)]);
        assert [VUInt(at)][1..] == [];
        NoFields();
      case Cancel(id) =>
        ConsLength(U64, Nil, vs);
        assert vs[1..] == [];
        NoFields();
    }
  }

  lemma NoFields()
    ensures FieldsLen(Nil, []) == 0
  {
  }

  lemma PlainLength(id: nat, side: Side, price: nat, qty: nat, more: seq<Value>, ts: Types)
    ensures FieldsLen(Cons(U64, Cons(SIDE, Cons(U32, Cons(U32, ts)))), [VUInt(id), SideValue(side), VUInt(price), VUInt(qty)] + more)
            == 18 + FieldsLen(ts, more)
  {
    var vs := [VUInt(id), SideValue(side), VUInt(price), VUInt(qty)] + more;
    assert vs[1..][1..] == vs[2..] && vs[2..][1..] == vs[3..] && vs[3..][1..] == more;
    assert EncodedLen(SIDE, SideValue(side)) == 2;
    assert FieldsLen(Cons(U32, ts), vs[3..]) == 4 + FieldsLen(ts, more);
    assert FieldsLen(Cons(U32, Cons(U32, ts)), vs[2..]) == 8 + FieldsLen(ts, more);
    assert FieldsLen(Cons(SIDE, Cons(U32, Cons(U32, ts))), vs[1..]) == 10 + FieldsLen(ts, more);
  }

  /** What the levels take on the wire. */
  function Bulk(levels: seq<LevelSnap>): nat {
    if levels == [] then 0 else 8 + 12 * |levels[0].orders| + Bulk(levels[1..])
  }

  lemma {:induction false} BulkAppend(a: seq<LevelSnap>, b: seq<LevelSnap>)
    ensures Bulk(a + b) == Bulk(a) + Bulk(b)
  {
    if a == [] {
      assert a + b == b;
    } else {
      assert (a + b)[1..] == a[1..] + b;
      BulkAppend(a[1..], b);
    }
  }

  lemma {:induction false} BulkBackwards(levels: seq<LevelSnap>)
    ensures Bulk(Backwards(levels)) == Bulk(levels)
  {
    if levels != [] {
      BulkBackwards(levels[1..]);
      assert Backwards(levels) == Backwards(levels[1..]) + [levels[0]];
      BulkAppend(Backwards(levels[1..]), [levels[0]]);
      BulkAppend([levels[0]], levels[1..]);
      assert [levels[0]] + levels[1..] == levels;
    }
  }

  lemma {:induction false} BulkOfOrders(orders: seq<Order>)
    ensures Bulk(Grouped(orders)) <= 20 * |orders|
  {
    if orders != [] {
      BulkOfOrders(orders[1..]);
      var o, rest := orders[0], Grouped(orders[1..]);
      if rest != [] && rest[0].price == o.price {
        assert ([LevelSnap(o.price, [Waiting(o.id, o.qty)] + rest[0].orders)] + rest[1..])[1..] == rest[1..];
      } else {
        assert ([LevelSnap(o.price, [Waiting(o.id, o.qty)])] + rest)[1..] == rest;
      }
    }
  }

  lemma {:induction false} EqualItems(t: Type, items: seq<Value>, each: nat)
    requires forall i :: 0 <= i < |items| ==> EncodedLen(t, items[i]) == each
    ensures ItemsLen(t, items) == each * |items|
  {
    hide EncodedLen;
    if items == [] {
      assert each * |items| == 0;
    } else {
      var rest := items[1..];
      EqualItems(t, rest, each);
      ItemsFrom(t, items);
      OneMore(each, |rest|);
    }
  }

  lemma ItemsFrom(t: Type, items: seq<Value>)
    requires items != []
    ensures ItemsLen(t, items) == EncodedLen(t, items[0]) + ItemsLen(t, items[1..])
  {
    hide EncodedLen;
  }

  lemma OneMore(each: nat, n: nat)
    ensures each * (n + 1) == each + each * n
  {
  }

  lemma TwoLength(t: Type, u: Type, vs: seq<Value>)
    requires |vs| == 2
    ensures FieldsLen(Cons(t, Cons(u, Nil)), vs) == EncodedLen(t, vs[0]) + EncodedLen(u, vs[1])
  {
    hide EncodedLen;
    assert FieldsLen(Cons(u, Nil), vs[1..]) == EncodedLen(u, vs[1]) + FieldsLen(Nil, vs[1..][1..]);
  }

  lemma LevelLength(l: LevelSnap)
    ensures EncodedLen(LEVEL, LevelValue(l)) == 8 + 12 * |l.orders|
  {
    hide FieldsLen;
    var vs := LevelValue(l).fields;
    forall i | 0 <= i < |vs[1].items|
      ensures EncodedLen(PAIR, vs[1].items[i]) == 12
    {
      TwoLength(U64, U32, vs[1].items[i].fields);
    }
    EqualItems(PAIR, vs[1].items, 12);
    TwoLength(U32, Vec(PAIR), vs);
  }

  lemma {:induction false} LevelsLength(levels: seq<LevelSnap>)
    ensures ItemsLen(LEVEL, LevelsValue(levels).items) == Bulk(levels)
  {
    hide LevelValue, EncodedLen;
    if levels != [] {
      LevelLength(levels[0]);
      LevelsLength(levels[1..]);
      assert LevelsValue(levels).items[1..] == LevelsValue(levels[1..]).items;
    }
  }

  lemma ThreeLength(a: nat, b: nat, c: nat, vs: seq<Value>)
    requires vs == [VUInt(a), VUInt(b), VUInt(c)]
    ensures FieldsLen(Cons(U64, Cons(U64, Cons(U64, Nil))), vs) == 24
  {
    assert vs[1..] == [VUInt(b), VUInt(c)];
    TwoLength(U64, U64, vs[1..]);
  }

  lemma BookLength(book: Flat)
    ensures EncodedLen(BOOK, BookValue(Snap(book))) <= 32 + 20 * (|book.bids| + |book.asks|)
  {
    hide LevelsValue, Grouped, Backwards;
    var s := Snap(book);
    BulkBackwards(Grouped(book.bids));
    BulkOfOrders(book.bids);
    BulkOfOrders(book.asks);
    LevelsLength(s.bids);
    LevelsLength(s.asks);
    var vs := BookValue(s).fields;
    var counts := [VUInt(s.accepted), VUInt(s.traded), VUInt(s.canceled)];
    assert vs[1..][1..] == counts;
    ThreeLength(s.accepted, s.traded, s.canceled, counts);
    VecLength(s.bids);
    VecLength(s.asks);
    hide EncodedLen, FieldsLen;
    var three := Cons(U64, Cons(U64, Cons(U64, Nil)));
    ConsLength(Vec(LEVEL), three, vs[1..]);
    ConsLength(Vec(LEVEL), Cons(Vec(LEVEL), three), vs);
    TupleLength(Cons(Vec(LEVEL), Cons(Vec(LEVEL), three)), vs);
  }

  lemma VecLength(levels: seq<LevelSnap>)
    ensures EncodedLen(Vec(LEVEL), LevelsValue(levels)) == 4 + ItemsLen(LEVEL, LevelsValue(levels).items)
  {
  }

  lemma ConsLength(t: Type, ts: Types, vs: seq<Value>)
    requires vs != []
    ensures FieldsLen(Cons(t, ts), vs) == EncodedLen(t, vs[0]) + FieldsLen(ts, vs[1..])
  {
  }

  lemma TupleLength(ts: Types, vs: seq<Value>)
    ensures EncodedLen(Tuple(ts), VTuple(vs)) == FieldsLen(ts, vs)
  {
  }

  lemma EntriesLength(es: seq<TimerEntry>)
    ensures EncodedLen(Vec(ENTRY), EntriesValue(es)) == 4 + 24 * |es|
  {
    var items := EntriesValue(es).items;
    forall i | 0 <= i < |items|
      ensures EncodedLen(ENTRY, items[i]) == 24
    {
      ThreeLength(es[i].id, es[i].at, es[i].setAt, items[i].fields);
      TupleLength(Cons(U64, Cons(U64, Cons(U64, Nil))), items[i].fields);
    }
    EqualItems(ENTRY, items, 24);
  }

  /** A snapshot takes at most 24 bytes an order or timer, and 36 besides. */
  lemma SnapshotLength(book: Flat, es: seq<TimerEntry>)
    ensures |EncodeBook(Snap(book), es)| <= 36 + 24 * (|book.bids| + |book.asks| + |es|)
  {
    hide Encode, EncodedLen, FieldsLen, BookValue, EntriesValue, Snap;
    var vs := [BookValue(Snap(book)), EntriesValue(es)];
    LenExact(SNAPSHOT, VTuple(vs));
    TupleLength(Cons(BOOK, Cons(Vec(ENTRY), Nil)), vs);
    TwoLength(BOOK, Vec(ENTRY), vs);
    BookLength(book);
    EntriesLength(es);
  }
}
