/** The exchange as a complete service. Its snapshot drops the reverse index, so
    it restores only to a state nobody can tell from the original. */
module ExchangeWire {
  import opened Wrappers
  import opened Bytes
  import opened Frame
  import opened TimerWheel
  import opened FlatBook
  import opened Exchange
  import opened Execution
  import opened Sequencer
  import opened BookSnapshots
  import opened BookWire
  import Runs = NodeRuns
  import Codec

  // ----- maps as pair lists, in key order -----

  function Pairs(m: map<nat, nat>): seq<(nat, nat)>
    decreases |m|
  {
    if m.Keys == {} then []
    else
      var k := Greatest(m.Keys);
      Without(m, k);
      Pairs(m - {k}) + [(k, m[k])]
  }

  /** Collecting a list: a later pair replaces an earlier one. */
  function Collected(ps: seq<(nat, nat)>): map<nat, nat> {
    if ps == [] then map[]
    else
      var last := ps[|ps| - 1];
      Collected(ps[..|ps| - 1])[last.0 := last.1]
  }

  lemma {:induction false} CollectedPairs(m: map<nat, nat>)
    ensures Collected(Pairs(m)) == m
    decreases |m|
  {
    hide Greatest;
    if m.Keys != {} {
      var k := Greatest(m.Keys);
      Without(m, k);
      CollectedPairs(m - {k});
      var ps := Pairs(m - {k});
      assert (ps + [(k, m[k])])[..|ps|] == ps;
      assert (m - {k})[k := m[k]] == m;
    }
  }

  predicate MapFits(m: map<nat, nat>) {
    |m| < U32_LIMIT && forall k :: k in m ==> k < U64_LIMIT && m[k] < U64_LIMIT
  }

  lemma {:induction false} PairsFit(m: map<nat, nat>)
    requires forall k :: k in m ==> k < U64_LIMIT && m[k] < U64_LIMIT
    ensures |Pairs(m)| == |m|
    ensures forall i :: 0 <= i < |Pairs(m)| ==> Pairs(m)[i].0 < U64_LIMIT && Pairs(m)[i].1 < U64_LIMIT
    decreases |m|
  {
    hide Greatest;
    assert |m.Keys| == |m|;
    if m.Keys != {} {
      var k := Greatest(m.Keys);
      Without(m, k);
      assert (m - {k}).Keys == m.Keys - {k} && |(m - {k}).Keys| == |m - {k}|;
      PairsFit(m - {k});
    }
  }

  // ----- the wire types -----

  const LONGS := Codec.Tuple(Codec.Cons(U64, Codec.Cons(U64, Codec.Nil)))
  const CLIENT := Codec.Cons(U64, Codec.Cons(U64, Codec.Cons(CMD, Codec.Nil)))
  const CLOSED := Codec.Variant(Codec.Cons(U64, Codec.Nil), Codec.NoMore)
  const INPUT := Codec.Enum(Codec.Variant(CLIENT, CLOSED))
  /** A vector of bytes has the layout of a string. */
  const PARTS := Codec.Cons(Codec.Str, Codec.Cons(Codec.Vec(LONGS), Codec.Cons(Codec.Vec(LONGS), Codec.Nil)))
  const IMAGE := Codec.Cons(Codec.Tuple(PARTS), Codec.Cons(Codec.Vec(ENTRY), Codec.Nil))

  /** The book as bytes, the owners, and each session's last client seq. */
  datatype VenueSnapshot = VenueSnapshot(book: seq<byte>, owners: seq<(nat, nat)>, last: seq<(nat, nat)>)

  function BookBytes(book: Flat): seq<byte> { Codec.Encode(BOOK, BookValue(Snap(book))) }

  function BookFrom(bytes: seq<byte>): Flat {
    match Codec.DecodeAll(AnyText(), BOOK, bytes)
    case Bad(_) => EMPTY
    case Got(v, _) => Unsnap(BookOf(v))
  }

  function SnapVenue(x: Venue): VenueSnapshot {
    VenueSnapshot(BookBytes(x.book), Pairs(x.owners), Pairs(x.last))
  }

  function UnsnapVenue(s: VenueSnapshot): Venue {
    var owners := Collected(s.owners);
    Venue(BookFrom(s.book), owners, Rebuilt(owners), Collected(s.last))
  }

  lemma BookBytesRoundTrip(book: Flat)
    requires BookFits(book)
    ensures BookFrom(BookBytes(book)) == book
  {
    hide Codec.HasType, Codec.Encode, Codec.Decode, BookValue, BookOf, Snap, Unsnap, BookFits;
    BookTyped(book);
    Codec.DecodeAllIff(AnyText(), BOOK, BookValue(Snap(book)), BookBytes(book));
    BookInverse(Snap(book), []);
    UnsnapSnap(book);
  }

  lemma UnsnapVenueIs(x: Venue)
    requires BookFits(x.book)
    ensures UnsnapVenue(SnapVenue(x)) == Restored(x)
  {
    hide BookBytes, BookFrom, BookFits, Rebuilt, Pairs, Collected;
    BookBytesRoundTrip(x.book);
    CollectedPairs(x.owners);
    CollectedPairs(x.last);
  }

  function InputValue(i: ClientInput): Codec.Value {
    match i
    case Client(session, clientSeq, cmd) => Codec.VEnum(0, [Codec.VUInt(session), Codec.VUInt(clientSeq), CmdValue(cmd)])
    case SessionClosed(session) => Codec.VEnum(1, [Codec.VUInt(session)])
  }

  function InputOf(v: Codec.Value): Option<ClientInput> {
    if !v.VEnum? then None
    else if v.tag == 0 && |v.fields| == 3 && CmdOf(v.fields[2]).Some?
    then Some(Client(NatOf(v.fields[0]), NatOf(v.fields[1]), CmdOf(v.fields[2]).value))
    else if v.tag == 1 && |v.fields| == 1 then Some(SessionClosed(NatOf(v.fields[0])))
    else None
  }

  function EncodeInput(i: ClientInput): seq<byte> { Codec.Encode(INPUT, InputValue(i)) }

  function DecodeInput(bytes: seq<byte>): Option<ClientInput> {
    match Codec.DecodeAll(AnyText(), INPUT, bytes)
    case Bad(_) => None
    case Got(v, _) => InputOf(v)
  }

  predicate InputFits(i: ClientInput) {
    match i
    case Client(session, clientSeq, cmd) => session < U64_LIMIT && clientSeq < U64_LIMIT && CmdFits(cmd)
    case SessionClosed(session) => session < U64_LIMIT
  }

  lemma InputTyped(i: ClientInput)
    requires InputFits(i)
    ensures Codec.HasType(AnyText(), INPUT, InputValue(i))
  {
    Widths();
    var vs := InputValue(i).fields;
    match i {
      case Client(session, clientSeq, cmd) =>
        CmdTyped(cmd);
        assert vs[1..] == [Codec.VUInt(clientSeq), CmdValue(cmd)];
        TwoTyped(U64, CMD, vs[1..]);
        FieldsTyped(U64, Codec.Cons(U64, Codec.Cons(CMD, Codec.Nil)), vs);
      case SessionClosed(session) =>
        assert vs[1..] == [];
        FieldsTyped(U64, Codec.Nil, vs);
    }
  }

  lemma InputRoundTrip(i: ClientInput)
    requires InputFits(i)
    ensures DecodeInput(EncodeInput(i)) == Some(i)
  {
    hide Codec.HasType, Codec.Encode, Codec.Decode;
    InputTyped(i);
    Codec.DecodeAllIff(AnyText(), INPUT, InputValue(i), EncodeInput(i));
  }

  function LongsValue(ps: seq<(nat, nat)>): Codec.Value {
    Codec.VVec(seq(|ps|, i requires 0 <= i < |ps| => PairValue(ps[i])))
  }

  function LongsOf(v: Codec.Value): seq<(nat, nat)> {
    if v.VVec? then seq(|v.items|, i requires 0 <= i < |v.items| => PairOf(v.items[i])) else []
  }

  function PartsValue(s: VenueSnapshot): Codec.Value {
    Codec.VTuple([Codec.VStr(s.book), LongsValue(s.owners), LongsValue(s.last)])
  }

  function PartsOf(v: Codec.Value): VenueSnapshot {
    if v.VTuple? && |v.fields| == 3 && v.fields[0].VStr?
    then VenueSnapshot(v.fields[0].bytes, LongsOf(v.fields[1]), LongsOf(v.fields[2]))
    else VenueSnapshot([], [], [])
  }

  function EncodeVenue(s: VenueSnapshot, es: seq<TimerEntry>): seq<byte> {
    Codec.Encode(Codec.Tuple(IMAGE), Codec.VTuple([PartsValue(s), EntriesValue(es)]))
  }

  function DecodeVenue(bytes: seq<byte>): Option<(VenueSnapshot, seq<TimerEntry>)> {
    match Codec.DecodeAll(AnyText(), Codec.Tuple(IMAGE), bytes)
    case Bad(_) => None
    case Got(v, _) => if v.VTuple? && |v.fields| == 2 then Some((PartsOf(v.fields[0]), EntriesOf(v.fields[1]))) else None
  }

  /** Within the widths of the snapshot type, with its indexes in step. */
  ghost predicate VenueFits(x: Venue) {
    Inverse(x) && BookFits(x.book) && MapFits(x.owners) && MapFits(x.last) && |BookBytes(x.book)| < U32_LIMIT
  }

  lemma LongTyped(p: (nat, nat))
    requires p.0 < U64_LIMIT && p.1 < U64_LIMIT
    ensures Codec.HasType(AnyText(), LONGS, PairValue(p))
  {
    Widths();
    TwoTyped(U64, U64, PairValue(p).fields);
  }

  lemma LongsTyped(m: map<nat, nat>)
    requires MapFits(m)
    ensures Codec.HasType(AnyText(), Codec.Vec(LONGS), LongsValue(Pairs(m)))
    ensures LongsOf(LongsValue(Pairs(m))) == Pairs(m)
  {
    PairsFit(m);
    hide Pairs;
    var ps := Pairs(m);
    var items := LongsValue(ps).items;
    forall i | 0 <= i < |items|
      ensures Codec.HasType(AnyText(), LONGS, items[i])
    {
      LongTyped(ps[i]);
    }
    AllTyped(LONGS, items);
  }

  lemma PartsTyped(x: Venue)
    requires VenueFits(x)
    ensures Codec.HasType(AnyText(), Codec.Tuple(PARTS), PartsValue(SnapVenue(x)))
    ensures PartsOf(PartsValue(SnapVenue(x))) == SnapVenue(x)
  {
    hide BookBytes, Pairs, LongsValue, LongsOf, Inverse, BookFits, MapFits;
    LongsTyped(x.owners);
    LongsTyped(x.last);
    var s := SnapVenue(x);
    var vs := PartsValue(s).fields;
    assert Codec.HasType(AnyText(), Codec.Str, vs[0]);
    assert vs[1..] == [LongsValue(s.owners), LongsValue(s.last)];
    hide Codec.HasType, Codec.FieldsHaveType;
    TwoTyped(Codec.Vec(LONGS), Codec.Vec(LONGS), vs[1..]);
    FieldsTyped(Codec.Str, Codec.Cons(Codec.Vec(LONGS), Codec.Cons(Codec.Vec(LONGS), Codec.Nil)), vs);
    TupleTyped(PARTS, vs);
  }

  lemma VenueRoundTrip(x: Venue, es: seq<TimerEntry>)
    requires VenueFits(x) && EntriesFit(es)
    ensures DecodeVenue(EncodeVenue(SnapVenue(x), es)) == Some((SnapVenue(x), es))
  {
    hide Codec.HasType, Codec.FieldsHaveType, Codec.Encode, Codec.Decode, PartsValue, PartsOf, EntriesValue, EntriesOf, VenueFits, EntriesFit, SnapVenue;
    PartsTyped(x);
    EntriesTyped(es);
    var s := SnapVenue(x);
    var vs := [PartsValue(s), EntriesValue(es)];
    TwoTyped(Codec.Tuple(PARTS), Codec.Vec(ENTRY), vs);
    TupleTyped(IMAGE, vs);
    Codec.DecodeAllIff(AnyText(), Codec.Tuple(IMAGE), Codec.VTuple(vs), EncodeVenue(s, es));
    BookInverse(BookSnapshot([], [], 0, 0, 0), es);
  }

  // ----- the service -----

  /** The book's timer requests stop at the exchange, which ignores timers. */
  ghost function ExchangeService(): Service<Venue, ClientInput, Addressed, VenueSnapshot> {
    Service(
      GENESIS,
      (x: Venue, q: nat, t: nat, i: ClientInput) => Outcome(Exchange.Step(x, i).0, Exchange.Step(x, i).1, []),
      (x: Venue, q: nat, t: nat, id: nat) => Outcome(x, [], []),
      (x: Venue) => SnapVenue(x),
      (s: VenueSnapshot) => UnsnapVenue(s),
      (i: ClientInput) => EncodeInput(i),
      (b: seq<byte>) => DecodeInput(b),
      (s: VenueSnapshot, es: seq<TimerEntry>) => EncodeVenue(s, es),
      (b: seq<byte>) => DecodeVenue(b),
      1,
      (i: ClientInput) => InputFits(i),
      (x: Venue) => VenueFits(x),
      (x: Venue, y: Venue) => Alike(x, y))
  }

  lemma AlikeSelf(x: Venue)
    ensures Alike(x, x)
  {
  }

  lemma AlikeBack(x: Venue, y: Venue)
    requires Alike(x, y)
    ensures Alike(y, x)
  {
    forall s: nat
      ensures OwnedBy(y.owned, s) == OwnedBy(x.owned, s) && LastOf(y, s) == LastOf(x, s)
    {
      assert OwnedBy(x.owned, s) == OwnedBy(y.owned, s) && LastOf(x, s) == LastOf(y, s);
    }
  }

  lemma VenueRestores(x: Venue)
    requires VenueFits(x)
    ensures Alike(x, UnsnapVenue(SnapVenue(x)))
  {
    hide Alike, UnsnapVenue, SnapVenue, Restored, BookFits, MapFits;
    UnsnapVenueIs(x);
    RestoreAlike(x);
    AlikeBack(Restored(x), x);
  }

  lemma ExchangeIsLawful()
    ensures Lawful(ExchangeService())
  {
    hide Exchange.Step, SnapVenue, UnsnapVenue, EncodeInput, DecodeInput, EncodeVenue, DecodeVenue, InputFits, VenueFits, EntriesFit, Alike;
    var sv := ExchangeService();
    forall x
      ensures sv.alike(x, x)
    {
      AlikeSelf(x);
    }
    forall x, y, z | sv.alike(x, y) && sv.alike(y, z)
      ensures sv.alike(x, z)
    {
      AlikeChain(x, y, z);
    }
    forall x, y, q: nat, t: nat, i | sv.alike(x, y)
      ensures Agree(sv, sv.apply(x, q, t, i), sv.apply(y, q, t, i))
    {
      StepAlike(x, y, i);
    }
    forall x | sv.storable(x)
      ensures sv.alike(x, sv.restore(sv.snapshot(x)))
    {
      VenueRestores(x);
    }
    forall i | sv.encodable(i)
      ensures sv.decodeInput(sv.encodeInput(i)) == Some(i)
    {
      InputRoundTrip(i);
    }
    forall x, es | sv.storable(x) && EntriesFit(es)
      ensures sv.decodeSnapshot(sv.encodeSnapshot(sv.snapshot(x), es)) == Some((sv.snapshot(x), es))
    {
      VenueRoundTrip(x, es);
    }
  }

  /** Crash refinement for the exchange: after any run and any power loss the
      recovered exchange is alike to the replay of the recovered history, and
      no later input brings out a difference. */
  lemma ExchangeSurvivesCrashes(cfg: Config, actions: seq<Action<ClientInput>>, kept: nat, more: seq<Frame>)
    requires Runs.RunAll(ExchangeService(), cfg, Runs.Fresh(ExchangeService()), actions).Some?
    requires MayKeep(Runs.RunAll(ExchangeService(), cfg, Runs.Fresh(ExchangeService()), actions).value.node.log, kept)
    ensures var sv := ExchangeService();
            var w := Runs.RunAll(sv, cfg, Runs.Fresh(sv), actions).value;
            var r := DoPowerLoss(sv, w.node, kept);
            && r.Opened? && Durable(w.node) <= r.node.seqno <= |w.hist|
            && var m := Replay(sv, Genesis(sv), w.hist[..r.node.seqno]);
               && m.Some? && Alike(m.value.service, r.node.machine.service) && m.value.wheel == r.node.machine.wheel
               && EmittedAll(sv, m.value, more) == EmittedAll(sv, r.node.machine, more)
  {
    hide Lawful, Runs.RunAll, Replay, DoPowerLoss, MayKeep, Durable, EmittedAll, Alike;
    var sv := ExchangeService();
    ExchangeIsLawful();
    Runs.CrashRefinement(sv, cfg, actions, kept);
    var w := Runs.RunAll(sv, cfg, Runs.Fresh(sv), actions).value;
    var r := DoPowerLoss(sv, w.node, kept).node;
    ReplaySame(sv, Replay(sv, Genesis(sv), w.hist[..r.seqno]).value, r.machine, more);
  }

  // ----- the widths are all that a run can outgrow -----

  lemma OkAlike(x: Venue, y: Venue)
    requires Exchange.Ok(x) && Alike(x, y)
    ensures Exchange.Ok(y)
  {
    hide Inv;
    forall s: nat, id | id in OwnedBy(y.owned, s)
      ensures id in y.owners && y.owners[id] == s
    {
      assert OwnedBy(x.owned, s) == OwnedBy(y.owned, s);
    }
    forall id | id in y.owners
      ensures id in OwnedBy(y.owned, y.owners[id])
    {
      assert id in OwnedBy(x.owned, x.owners[id]);
    }
  }

  lemma {:induction false} ReplayKeepsOk(m: Machine<Venue>, frames: seq<Frame>)
    requires Exchange.Ok(m.service) && Replay(ExchangeService(), m, frames).Some?
    ensures Exchange.Ok(Replay(ExchangeService(), m, frames).value.service)
    decreases |frames|
  {
    hide Exchange.Ok, Exchange.Step, DecodeInput, DecodeId, Requests;
    if frames != [] {
      var f := frames[0];
      if f.kind == FrameKind.Input {
        StepOk(m.service, DecodeInput(f.payload).value);
      }
      ReplayKeepsOk(ReplayStep(ExchangeService(), m, f).value, frames[1..]);
    }
  }

  /** In every run of a node that hosts the exchange, power losses included, the
      owners are exactly the resting orders and the reverse index is theirs. */
  lemma ExchangeRunsOk(cfg: Config, actions: seq<Action<ClientInput>>)
    requires Runs.RunAll(ExchangeService(), cfg, Runs.Fresh(ExchangeService()), actions).Some?
    ensures Exchange.Ok(Runs.RunAll(ExchangeService(), cfg, Runs.Fresh(ExchangeService()), actions).value.node.machine.service)
  {
    hide Lawful, Runs.RunAll, Replay, DiskOk, WheelsFit, Alike, Exchange.Ok;
    var sv := ExchangeService();
    ExchangeIsLawful();
    Runs.FreshOpens(sv);
    Runs.RunOk(sv, cfg, Runs.Fresh(sv), actions);
    var w := Runs.RunAll(sv, cfg, Runs.Fresh(sv), actions).value;
    EmptyOk(GENESIS);
    ReplayKeepsOk(Genesis(sv), w.hist);
    OkAlike(Replay(sv, Genesis(sv), w.hist).value.service, w.node.machine.service);
  }
}
