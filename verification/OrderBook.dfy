/** The book as it is run: two maps of price levels, an index from order id to
    its level, and three share counters, changed in place. Every operation is
    proved to emit the events, ask for the timers and reach the state of the
    flat priority list. */
module OrderBook {
  import opened Wrappers
  import opened TimerWheel
  import opened FlatBook
  import opened BookLevels
  import opened BookSnapshots

  datatype Ladders = Ladders(bids: Levels, asks: Levels) {
    function On(side: Side): Levels {
      match side case Buy => bids case Sell => asks
    }
    function With(side: Side, levels: Levels): Ladders {
      match side case Buy => this.(bids := levels) case Sell => this.(asks := levels)
    }
    function Flat(side: Side): seq<Order> {
      Flatten(side, On(side))
    }
  }

  type Index = map<nat, Place>

  ghost predicate NoTwice(queue: seq<Waiting>) {
    forall i, j :: 0 <= i < j < |queue| ==> queue[i].id != queue[j].id
  }

  /** Every queued order is indexed at its own level, which is not empty. */
  ghost predicate Placed(side: Side, levels: Levels, index: Index) {
    forall p :: p in levels ==>
      && levels[p] != []
      && NoTwice(levels[p])
      && forall id :: InQueue(levels[p], id) ==> id in index && index[id] == Place(side, p)
  }

  /** Every indexed order is queued where the index says. */
  ghost predicate Found(book: Ladders, index: Index) {
    forall id :: id in index ==>
      index[id].price in book.On(index[id].side) && InQueue(book.On(index[id].side)[index[id].price], id)
  }

  ghost predicate Agrees(book: Ladders, index: Index) {
    Placed(Buy, book.bids, index) && Placed(Sell, book.asks, index) && Found(book, index)
  }

  lemma PlacedOn(book: Ladders, index: Index, side: Side)
    requires Agrees(book, index)
    ensures Placed(side, book.On(side), index)
  {
  }

  /** An id is resting in the flat book exactly when it is indexed. */
  lemma HeldIsIndexed(book: Ladders, index: Index, id: nat, side: Side)
    requires Agrees(book, index)
    ensures Listed(book.Flat(side), id) <==> id in index && index[id].side == side
  {
    hide Flatten, InQueue, NoTwice;
    PlacedOn(book, index, side);
    ListedInLevels(side, book.On(side), id);
  }

  lemma EmptyAgrees(book: Ladders, index: Index)
    requires book.bids == map[] && book.asks == map[] && index == map[]
    ensures Agrees(book, index)
  {
  }

  lemma EmptyInv(flat: Flat)
    requires flat.bids == [] && flat.asks == []
    requires flat.accepted == 0 && flat.traded == 0 && flat.canceled == 0
    ensures flat == EMPTY && Inv(flat)
  {
  }

  /** Taking the ids `gone` out of one queue and out of the index. */
  lemma ShrinkAgrees(book: Ladders, index: Index, side: Side, price: nat, queue: seq<Waiting>, gone: set<nat>)
    requires Agrees(book, index)
    requires price in book.On(side)
    requires NoTwice(queue)
    requires forall id :: InQueue(queue, id) <==> InQueue(book.On(side)[price], id) && id !in gone
    requires forall id :: id in gone ==> InQueue(book.On(side)[price], id)
    ensures Agrees(book.With(side, Replace(book.On(side), price, queue)), index - gone)
  {
    hide InQueue, NoTwice;
    var levels := book.On(side);
    PlacedOn(book, index, side);
    PlacedOn(book, index, Opposite(side));
    var next := book.With(side, Replace(levels, price, queue));
    assert Placed(side, next.On(side), index - gone);
    assert Placed(Opposite(side), next.On(Opposite(side)), index - gone);
    forall id | id in index - gone
      ensures var p := index[id]; p.price in next.On(p.side) && InQueue(next.On(p.side)[p.price], id)
    {
      if index[id] == Place(side, price) {
        EmptyHoldsNone(queue, id);
      }
    }
  }

  lemma EmptyHoldsNone(queue: seq<Waiting>, id: nat)
    ensures InQueue(queue, id) ==> queue != []
  {
  }

  lemma JoinQueue(queue: seq<Waiting>, w: Waiting)
    requires NoTwice(queue) && !InQueue(queue, w.id)
    ensures NoTwice(queue + [w])
    ensures forall id :: InQueue(queue + [w], id) <==> InQueue(queue, id) || id == w.id
  {
    forall id
      ensures InQueue(queue + [w], id) <==> InQueue(queue, id) || id == w.id
    {
      if InQueue(queue, id) {
        var i :| 0 <= i < |queue| && queue[i].id == id;
        assert (queue + [w])[i].id == id;
      }
      assert (queue + [w])[|queue|].id == w.id;
    }
  }

  /** The side a new order joins. */
  lemma GrowPlaced(side: Side, levels: Levels, index: Index, price: nat, w: Waiting)
    requires Placed(side, levels, index) && w.id !in index
    ensures Placed(side, levels[price := QueueAt(levels, price) + [w]], index[w.id := Place(side, price)])
  {
    var queue := QueueAt(levels, price);
    assert NoTwice(queue) && !InQueue(queue, w.id);
    JoinQueue(queue, w);
    hide InQueue, NoTwice;
    var next, added := levels[price := queue + [w]], index[w.id := Place(side, price)];
    forall p | p in next
      ensures next[p] != [] && NoTwice(next[p])
      ensures forall id :: InQueue(next[p], id) ==> id in added && added[id] == Place(side, p)
    {
      if p != price {
        assert next[p] == levels[p];
      }
    }
  }

  /** The other side does not notice. */
  lemma OtherPlaced(side: Side, levels: Levels, index: Index, id: nat, place: Place)
    requires Placed(side, levels, index) && id !in index
    ensures Placed(side, levels, index[id := place])
  {
    hide InQueue, NoTwice;
  }

  lemma GrowFound(book: Ladders, index: Index, side: Side, price: nat, w: Waiting)
    requires Found(book, index) && w.id !in index
    ensures Found(book.With(side, book.On(side)[price := QueueAt(book.On(side), price) + [w]]), index[w.id := Place(side, price)])
  {
    var queue := QueueAt(book.On(side), price);
    JoinedQueue(queue, w);
    hide InQueue;
    var next, added := book.With(side, book.On(side)[price := queue + [w]]), index[w.id := Place(side, price)];
    forall id | id in added
      ensures added[id].price in next.On(added[id].side) && InQueue(next.On(added[id].side)[added[id].price], id)
    {
      if id != w.id {
        assert added[id] == index[id];
      }
    }
  }

  lemma JoinedQueue(queue: seq<Waiting>, w: Waiting)
    ensures InQueue(queue + [w], w.id) && forall id :: InQueue(queue, id) ==> InQueue(queue + [w], id)
  {
    var all := queue + [w];
    assert all[|queue|] == w;
    forall id | InQueue(queue, id)
      ensures InQueue(all, id)
    {
      var i :| 0 <= i < |queue| && queue[i].id == id;
      assert all[i] == queue[i];
    }
  }

  /** A new order joins a queue and the index. */
  lemma GrowAgrees(book: Ladders, index: Index, side: Side, price: nat, w: Waiting)
    requires Agrees(book, index)
    requires w.id !in index
    ensures Agrees(book.With(side, book.On(side)[price := QueueAt(book.On(side), price) + [w]]), index[w.id := Place(side, price)])
  {
    hide Placed, Found, QueueAt;
    PlacedOn(book, index, side);
    PlacedOn(book, index, Opposite(side));
    GrowPlaced(side, book.On(side), index, price, w);
    OtherPlaced(Opposite(side), book.On(Opposite(side)), index, w.id, Place(side, price));
    GrowFound(book, index, side, price, w);
  }

  function Cancels(ids: seq<nat>): (r: seq<TimerReq>) {
    if ids == [] then [] else [CancelTimer(ids[0])] + Cancels(ids[1..])
  }

  lemma {:induction false} CancelsSnoc(ids: seq<nat>, id: nat)
    ensures Cancels(ids + [id]) == Cancels(ids) + [CancelTimer(id)]
  {
    if ids == [] {
      assert ids + [id] == [id];
    } else {
      assert (ids + [id])[1..] == ids[1..] + [id];
      CancelsSnoc(ids[1..], id);
    }
  }

  lemma AfterSnoc(t: MatchResult, events: seq<Evt>, timers: seq<TimerReq>, traded: nat, e: seq<Evt>, c: seq<TimerReq>, fill: nat)
    ensures t.After(e, c, fill).After(events, timers, traded) == t.After(events + e, timers + c, traded + fill)
  {
    assert events + (e + t.events) == (events + e) + t.events;
    assert timers + (c + t.timers) == (timers + c) + t.timers;
  }

  /** `level` is what remains of `queue` after the ids `filled` left its front. */
  ghost predicate Drained(queue: seq<Waiting>, filled: seq<nat>, level: seq<Waiting>) {
    && |filled| + |level| == |queue|
    && (forall i :: 0 <= i < |filled| ==> filled[i] == queue[i].id)
    && (forall i :: 0 <= i < |level| ==> level[i].id == queue[|filled| + i].id)
  }

  function IdSet(ids: seq<nat>): set<nat> {
    set i | 0 <= i < |ids| :: ids[i]
  }

  lemma DrainStep(queue: seq<Waiting>, filled: seq<nat>, level: seq<Waiting>, left: nat)
    requires level != [] && Drained(queue, filled, level)
    ensures Drained(queue, filled + [level[0].id], level[1..])
    ensures forall q: nat :: Drained(queue, filled, [Waiting(level[0].id, q)] + level[1..])
  {
  }

  lemma FillStart(queue: seq<Waiting>, t: MatchResult)
    ensures Drained(queue, [], queue)
    ensures t == t.After([], Cancels([]), 0)
  {
  }

  lemma DrainedIds(queue: seq<Waiting>, filled: seq<nat>, level: seq<Waiting>)
    requires NoTwice(queue)
    requires Drained(queue, filled, level)
    ensures NoTwice(level)
    ensures forall id :: InQueue(level, id) <==> InQueue(queue, id) && id !in IdSet(filled)
    ensures forall id :: id in IdSet(filled) ==> InQueue(queue, id)
  {
    forall id
      ensures InQueue(level, id) <==> InQueue(queue, id) && id !in IdSet(filled)
    {
      if InQueue(level, id) {
        var i :| 0 <= i < |level| && level[i].id == id;
        assert queue[|filled| + i].id == id;
      }
      if InQueue(queue, id) && id !in IdSet(filled) {
        var i :| 0 <= i < |queue| && queue[i].id == id;
        assert forall k :: 0 <= k < |filled| ==> filled[k] in IdSet(filled);
        assert level[i - |filled|].id == id;
      }
    }
  }

  // ----- snapshots -----

  /** Levels from the lowest price up, each with its queue. */
  function Ascending(levels: Levels): seq<LevelSnap> { FromBest(Sell, levels) }

  function Collected(snaps: seq<LevelSnap>, levels: Levels): Levels
    decreases |snaps|
  {
    if snaps == [] then levels else Collected(snaps[1..], levels[snaps[0].price := snaps[0].orders])
  }

  function IndexQueue(side: Side, price: nat, orders: seq<Waiting>, index: Index): Index
    decreases |orders|
  {
    if orders == [] then index else IndexQueue(side, price, orders[1..], index[orders[0].id := Place(side, price)])
  }

  function Indexed(side: Side, snaps: seq<LevelSnap>, index: Index): Index
    decreases |snaps|
  {
    if snaps == [] then index
    else Indexed(side, snaps[1..], IndexQueue(side, snaps[0].price, snaps[0].orders, index))
  }

  lemma LoadNothing(side: Side, levels: Levels, acc: Levels, index: Index)
    requires levels == map[]
    ensures Ascending(levels) == []
    ensures Collected([], acc) == acc && acc + levels == acc
    ensures Indexed(side, [], index) == index
  {
  }

  lemma AscendingFrom(levels: Levels)
    requires levels != map[]
    ensures var p := Best(Sell, levels);
            Ascending(levels) == [LevelSnap(p, levels[p])] + Ascending(levels - {p})
  {
  }

  lemma LoadFirst(side: Side, l: LevelSnap, rest: seq<LevelSnap>, levels: Levels, index: Index)
    ensures Collected([l] + rest, levels) == Collected(rest, levels[l.price := l.orders])
    ensures Indexed(side, [l] + rest, index) == Indexed(side, rest, IndexQueue(side, l.price, l.orders, index))
  {
    assert ([l] + rest)[1..] == rest;
  }

  lemma {:induction false} CollectAscending(levels: Levels, acc: Levels)
    ensures Collected(Ascending(levels), acc) == acc + levels
    decreases |levels|
  {
    hide Collected, Ascending, Best, Indexed;
    if levels == map[] {
      LoadNothing(Sell, levels, acc, map[]);
    } else {
      var p := Best(Sell, levels);
      Without(levels, p);
      AscendingFrom(levels);
      LoadFirst(Sell, LevelSnap(p, levels[p]), Ascending(levels - {p}), acc, map[]);
      CollectAscending(levels - {p}, acc[p := levels[p]]);
      MergeOne(acc, levels, p);
    }
  }

  /** `after` adds to `before` exactly the ids satisfying `added`, seated as
      `index` seats them. */
  ghost predicate Extends(before: Index, after: Index, index: Index, added: set<nat>) {
    && after.Keys == before.Keys + added
    && added <= index.Keys
    && forall id :: id in after ==> after[id] == if id in added then index[id] else before[id]
  }

  ghost function QueueIds(queue: seq<Waiting>): set<nat> {
    set i | 0 <= i < |queue| :: queue[i].id
  }

  ghost function LevelIds(levels: Levels): set<nat> {
    set p, i | p in levels && 0 <= i < |levels[p]| :: levels[p][i].id
  }

  lemma {:induction false} IndexQueueExtends(side: Side, price: nat, queue: seq<Waiting>, acc: Index, index: Index)
    requires forall i :: 0 <= i < |queue| ==> queue[i].id in index && index[queue[i].id] == Place(side, price)
    ensures Extends(acc, IndexQueue(side, price, queue, acc), index, QueueIds(queue))
    decreases |queue|
  {
    if queue != [] {
      var w := queue[0];
      IndexQueueExtends(side, price, queue[1..], acc[w.id := Place(side, price)], index);
      assert QueueIds(queue) == {w.id} + QueueIds(queue[1..]);
    }
  }

  lemma QueuedAreIndexed(side: Side, levels: Levels, index: Index, p: nat)
    requires Placed(side, levels, index) && p in levels
    ensures forall i :: 0 <= i < |levels[p]| ==> levels[p][i].id in index && index[levels[p][i].id] == Place(side, p)
  {
    forall i | 0 <= i < |levels[p]|
      ensures levels[p][i].id in index && index[levels[p][i].id] == Place(side, p)
    {
      assert InQueue(levels[p], levels[p][i].id);
    }
  }

  lemma LevelIdsSplit(levels: Levels, p: nat)
    requires p in levels
    ensures LevelIds(levels) == QueueIds(levels[p]) + LevelIds(levels - {p})
  {
    forall id | id in LevelIds(levels)
      ensures id in QueueIds(levels[p]) + LevelIds(levels - {p})
    {
      var q, i :| q in levels && 0 <= i < |levels[q]| && levels[q][i].id == id;
      if q != p {
        assert q in levels - {p} && (levels - {p})[q][i].id == id;
      }
    }
    forall id | id in LevelIds(levels - {p})
      ensures id in LevelIds(levels)
    {
      var q, i :| q in levels - {p} && 0 <= i < |(levels - {p})[q]| && (levels - {p})[q][i].id == id;
      assert levels[q][i].id == id;
    }
  }

  lemma {:induction false} IndexAscending(side: Side, levels: Levels, acc: Index, index: Index)
    requires Placed(side, levels, index)
    ensures Extends(acc, Indexed(side, Ascending(levels), acc), index, LevelIds(levels))
    decreases |levels|
  {
    hide IndexQueue, InQueue, NoTwice, LevelIds, QueueIds, Indexed, Ascending, Best, Collected;
    if levels == map[] {
      LoadNothing(side, levels, map[], acc);
      NoLevelIds(levels);
    } else {
      var p := Best(Sell, levels);
      Without(levels, p);
      AscendingFrom(levels);
      LoadFirst(side, LevelSnap(p, levels[p]), Ascending(levels - {p}), map[], acc);
      QueuedAreIndexed(side, levels, index, p);
      IndexQueueExtends(side, p, levels[p], acc, index);
      IndexAscending(side, levels - {p}, IndexQueue(side, p, levels[p], acc), index);
      LevelIdsSplit(levels, p);
    }
  }

  lemma NoLevelIds(levels: Levels)
    requires levels == map[]
    ensures LevelIds(levels) == {}
  {
  }

  lemma EveryIdOnALevel(book: Ladders, index: Index)
    requires Found(book, index)
    ensures index.Keys <= LevelIds(book.bids) + LevelIds(book.asks)
  {
    forall id | id in index
      ensures id in LevelIds(book.bids) + LevelIds(book.asks)
    {
      var levels := book.On(index[id].side);
      assert InQueue(levels[index[id].price], id);
    }
  }

  /** Levels and index come back from a snapshot unchanged. */
  lemma SnapshotRestores(book: Ladders, index: Index)
    requires Agrees(book, index)
    ensures Collected(Ascending(book.bids), map[]) == book.bids
    ensures Collected(Ascending(book.asks), map[]) == book.asks
    ensures Indexed(Sell, Ascending(book.asks), Indexed(Buy, Ascending(book.bids), map[])) == index
  {
    hide Indexed, Ascending, Collected, NoTwice, Placed, Found, LevelIds;
    CollectAscending(book.bids, map[]);
    CollectAscending(book.asks, map[]);
    assert map[] + book.bids == book.bids && map[] + book.asks == book.asks;
    IndexAscending(Buy, book.bids, map[], index);
    IndexAscending(Sell, book.asks, Indexed(Buy, Ascending(book.bids), map[]), index);
    EveryIdOnALevel(book, index);
  }

  class Book {
    var bids: Levels
    var asks: Levels
    var index: Index
    var accepted: nat
    var traded: nat
    var canceled: nat

    ghost function Sides(): Ladders
      reads this
    {
      Ladders(bids, asks)
    }

    /** The book's meaning. */
    ghost function Meaning(): Flat
      reads this
    {
      Flat(Flatten(Buy, bids), Flatten(Sell, asks), accepted, traded, canceled)
    }

    /** Index and levels agree, no level is empty, no order is empty, the book
        is not crossed and every accepted share is accounted for. */
    ghost predicate Valid()
      reads this
    {
      Agrees(Sides(), index) && Inv(Meaning())
    }

    constructor ()
      ensures Valid() && Meaning() == EMPTY
    {
      bids, asks, index, accepted, traded, canceled := map[], map[], map[], 0, 0, 0;
      new;
      hide Agrees, Inv, Run, Step, Match;
      EmptyAgrees(Sides(), index);
      EmptyInv(Meaning());
    }

    /** Rebuild a book from a snapshot, whatever it holds. */
    constructor Restore(snap: BookSnapshot)
      ensures bids == Collected(snap.bids, map[]) && asks == Collected(snap.asks, map[])
      ensures index == Indexed(Sell, snap.asks, Indexed(Buy, snap.bids, map[]))
      ensures accepted == snap.accepted && traded == snap.traded && canceled == snap.canceled
    {
      bids, asks, index := map[], map[], map[];
      accepted, traded, canceled := snap.accepted, snap.traded, snap.canceled;
      new;
      LoadSide(Buy, snap.bids);
      LoadSide(Sell, snap.asks);
    }

    method LoadSide(side: Side, snaps: seq<LevelSnap>)
      modifies this`bids, this`asks, this`index
      ensures Sides() == old(Sides()).With(side, Collected(snaps, old(Sides()).On(side)))
      ensures index == Indexed(side, snaps, old(index))
    {
      for k := 0 to |snaps|
        invariant Sides() == old(Sides()).With(side, Sides().On(side))
        invariant Collected(snaps, old(Sides()).On(side)) == Collected(snaps[k..], Sides().On(side))
        invariant Indexed(side, snaps, old(index)) == Indexed(side, snaps[k..], index)
      {
        var price, orders := snaps[k].price, snaps[k].orders;
        assert snaps[k..][0] == snaps[k] && snaps[k..][1..] == snaps[k + 1..];
        var level := [];
        ghost var before := index;
        for j := 0 to |orders|
          invariant Sides() == old(Sides()).With(side, Sides().On(side))
          invariant Collected(snaps, old(Sides()).On(side)) == Collected(snaps[k..], Sides().On(side))
          invariant level == orders[..j]
          invariant IndexQueue(side, price, orders, before) == IndexQueue(side, price, orders[j..], index)
        {
          assert orders[j..][1..] == orders[j + 1..];
          index := index[orders[j].id := Place(side, price)];
          level := level + [orders[j]];
        }
        assert level == orders && orders[|orders|..] == [];
        var levels: Levels := if side == Buy then bids else asks;
        SetSide(side, levels[price := level]);
      }
      assert snaps[|snaps|..] == [];
    }

    /** The levels as they stand; of a valid book, the flat book's snapshot. */
    function Snapshot(): (s: BookSnapshot)
      reads this
      ensures Valid() ==> s == Snap(Meaning())
    {
      assert Valid() ==> BookSnapshot(Ascending(bids), Ascending(asks), accepted, traded, canceled) == Snap(Meaning()) by {
        hide Snap, FromBest, Flatten, Inv;
        if Valid() {
          SnapOfLevels(bids, asks, accepted, traded, canceled);
        }
      }
      BookSnapshot(Ascending(bids), Ascending(asks), accepted, traded, canceled)
    }

    /** A book restored from another's snapshot is that book. */
    method Reopened() returns (b: Book)
      requires Valid()
      ensures fresh(b) && b.Valid()
      ensures b.bids == bids && b.asks == asks && b.index == index
      ensures b.accepted == accepted && b.traded == traded && b.canceled == canceled
    {
      hide Agrees, Inv, Flatten, Collected, Indexed, Ascending;
      b := new Book.Restore(Snapshot());
      SnapshotRestores(Sides(), index);
    }

    method SetSide(side: Side, levels: Levels)
      modifies this`bids, this`asks
      ensures Sides() == old(Sides()).With(side, levels)
    {
      match side {
        case Buy => bids := levels;
        case Sell => asks := levels;
      }
    }

    /** Fill first-in first-out against one level; an emptied level goes. */
    method FillLevel(side: Side, price: nat, taker: nat, want: nat)
        returns (qty: nat, events: seq<Evt>, timers: seq<TimerReq>)
      requires price in Sides().On(side)
      requires Agrees(Sides(), index)
      modifies this`bids, this`asks, this`index, this`traded
      ensures Agrees(Sides(), index)
      ensures traded >= old(traded)
      ensures var r := Match(side, Tag(price, old(Sides()).On(side)[price]), taker, price, want);
              && Sides() == old(Sides()).With(side, Replace(old(Sides()).On(side), price, Untag(r.makers)))
              && r == MatchResult(Tag(price, Untag(r.makers)), qty, events, timers, traded - old(traded))
      ensures index.Keys <= old(index).Keys
    {
      hide Match, Tag, Untag, Agrees, Flatten, Cancels, Drained;
      var levels: Levels := if side == Buy then bids else asks;
      var queue := levels[price];
      var level, filled: seq<nat>, tradedHere: nat := queue, [], 0;
      FillStart(queue, Match(side, Tag(price, queue), taker, price, want));
      qty, events := want, [];
      timers := [];
      while qty > 0 && level != []
        invariant Sides() == old(Sides()) && index == old(index) && traded == old(traded)
        invariant Drained(queue, filled, level)
        invariant Match(side, Tag(price, queue), taker, price, want)
                  == Match(side, Tag(price, level), taker, price, qty).After(events, Cancels(filled), tradedHere)
        decreases |level|, qty
      {
        var maker := level[0];
        DrainStep(queue, filled, level, maker.qty);
        var fill := if qty < maker.qty then qty else maker.qty;
        FillStep(side, price, level, taker, qty, events, filled, tradedHere);
        events := events + [Trade(taker, maker.id, price, fill)];
        tradedHere := tradedHere + fill;
        qty := qty - fill;
        if maker.qty == fill {
          filled := filled + [maker.id];
          level := level[1..];
        } else {
          level := [Waiting(maker.id, maker.qty - fill)] + level[1..];
        }
      }
      MatchDone(side, price, level, taker, qty);
      assert Untag(Tag(price, level)) == level;
      ghost var done := MatchResult(Tag(price, level), qty, [], [], 0);
      assert done.After(events, Cancels(filled), tradedHere)
             == MatchResult(Tag(price, level), qty, events, Cancels(filled), tradedHere) by {
        assert events + [] == events && Cancels(filled) + [] == Cancels(filled);
      }

      traded := traded + tradedHere;
      assert IdSet(filled[..0]) == {} && filled[..0] == [];
      assert index == old(index) - {};
      for k := 0 to |filled|
        invariant Sides() == old(Sides()) && traded == old(traded) + tradedHere
        invariant index == old(index) - IdSet(filled[..k])
        invariant timers == Cancels(filled[..k])
      {
        assert filled[..k + 1] == filled[..k] + [filled[k]];
        CancelsSnoc(filled[..k], filled[k]);
        assert IdSet(filled[..k + 1]) == IdSet(filled[..k]) + {filled[k]};
        index := index - {filled[k]};
        timers := timers + [CancelTimer(filled[k])];
      }
      assert filled[..|filled|] == filled;
      PlacedOn(old(Sides()), old(index), side);
      DrainedIds(queue, filled, level);
      ShrinkAgrees(old(Sides()), old(index), side, price, level, IdSet(filled));
      SetSide(side, if level == [] then levels - {price} else levels[price := level]);
      assert Sides() == old(Sides()).With(side, Replace(levels, price, level));
    }

    /** Match best price first, until quantity, makers or limit run out. */
    method MatchAgainst(side: Side, taker: nat, limit: nat, want: nat)
        returns (qty: nat, events: seq<Evt>, timers: seq<TimerReq>)
      requires Agrees(Sides(), index)
      modifies this`bids, this`asks, this`index, this`traded
      ensures Agrees(Sides(), index)
      ensures Sides() == old(Sides()).With(side, Sides().On(side))
      ensures traded >= old(traded)
      ensures Match(side, old(Sides()).Flat(side), taker, limit, want)
              == MatchResult(Sides().Flat(side), qty, events, timers, traded - old(traded))
      ensures index.Keys <= old(index).Keys
    {
      hide Match, Tag, Untag, Agrees, Flatten, Crosses, Best;
      qty, events, timers := want, [], [];
      AfterNothing(Match(side, Sides().Flat(side), taker, limit, want));
      var levels: Levels := if side == Buy then bids else asks;
      while qty > 0 && levels != map[] && Crosses(side, Best(side, levels), limit)
        invariant levels == Sides().On(side)
        invariant Agrees(Sides(), index)
        invariant Sides() == old(Sides()).With(side, levels)
        invariant traded >= old(traded)
        invariant index.Keys <= old(index).Keys
        invariant Match(side, old(Sides()).Flat(side), taker, limit, want)
                  == Match(side, Flatten(side, levels), taker, limit, qty).After(events, timers, traded - old(traded))
        decreases |levels|, qty
      {
        var best := Best(side, levels);
        ghost var before, had, was, evts, reqs := traded, levels, qty, events, timers;
        var left, es, ts := FillLevel(side, best, taker, qty);
        ghost var r := Match(side, Tag(best, had[best]), taker, best, was);
        ghost var queue := Untag(r.makers);
        levels := if side == Buy then bids else asks;
        assert levels == Replace(had, best, queue);
        MatchBestLevel(side, had, taker, limit, was, queue);
        AfterSnoc(Match(side, Flatten(side, levels), taker, limit, left), evts, reqs, before - old(traded), es, ts, traded - before);
        ReplaceShrinks(had, best, queue);
        qty, events, timers := left, events + es, timers + ts;
      }
      MatchStops(side, levels, taker, limit, qty);
      assert events + [] == events && timers + [] == timers;
    }

    method Submit(id: nat, side: Side, price: nat, want: nat, expireAt: Option<nat>)
        returns (events: seq<Evt>, timers: seq<TimerReq>)
      requires Valid()
      modifies this
      ensures Valid()
      ensures (Meaning(), Effect(events, timers)) == SubmitStep(old(Meaning()), id, side, price, want, expireAt)
    {
      hide Match, Flatten, Rest, Agrees, Inv, Listed;
      HeldIsIndexed(Sides(), index, id, Buy);
      HeldIsIndexed(Sides(), index, id, Sell);
      SubmitKeeps(Meaning(), id, side, price, want, expireAt);
      timers := [];
      if want == 0 {
        events := [Rejected(id, ZeroQty)];
        return;
      }
      if id in index {
        events := [Rejected(id, DuplicateId)];
        return;
      }
      accepted := accepted + want;
      var remaining, es, ts := MatchAgainst(Opposite(side), id, price, want);
      events, timers := [Accepted(id)] + es, ts;
      if remaining > 0 {
        var levels: Levels := if side == Buy then bids else asks;
        var w := Waiting(id, remaining);
        FlattenRest(side, levels, price, w);
        GrowAgrees(Sides(), index, side, price, w);
        index := index[id := Place(side, price)];
        SetSide(side, levels[price := QueueAt(levels, price) + [w]]);
        if expireAt.Some? {
          timers := timers + [SetTimer(id, expireAt.value)];
        }
        assert ts + [] == ts;
      }
    }

    /** Unlink an indexed order from its level and from the index; neither
        lookup can miss. */
    method Unlink(id: nat) returns (qty: nat)
      requires Valid() && id in index
      modifies this`bids, this`asks, this`index, this`canceled
      ensures Valid()
      ensures Meaning() == Withdraw(old(Meaning()), id)
      ensures qty == Resting(old(Meaning()), id)
    {
      hide Match, Flatten, Remove, QtyOf, Agrees, Inv, Listed;
      HeldIsIndexed(Sides(), index, id, Buy);
      HeldIsIndexed(Sides(), index, id, Sell);
      WithdrawKeeps(Meaning(), id);
      var side, price: nat := index[id].side, index[id].price;
      var levels: Levels := if side == Buy then bids else asks;
      IndexedIsQueued(Sides(), index, id);
      var pos: nat := 0;
      while levels[price][pos].id != id
        invariant pos < |levels[price]|
        invariant forall j :: 0 <= j < pos ==> levels[price][j].id != id
        invariant InQueue(levels[price], id)
        decreases |levels[price]| - pos
      {
        pos := pos + 1;
      }
      var queue := levels[price][..pos] + levels[price][pos + 1..];
      UnlinkAgrees(Sides(), index, id, pos);
      FlattenRemove(side, levels, price, pos, id);
      qty := levels[price][pos].qty;
      index := index - {id};
      SetSide(side, if queue == [] then levels - {price} else levels[price := queue]);
      canceled := canceled + qty;
    }

    method Cancel(id: nat) returns (events: seq<Evt>, timers: seq<TimerReq>)
      requires Valid()
      modifies this
      ensures Valid()
      ensures (Meaning(), Effect(events, timers)) == CancelStep(old(Meaning()), id)
    {
      hide Agrees, Inv, Flatten, Withdraw, Resting, Listed;
      HeldIsIndexed(Sides(), index, id, Buy);
      HeldIsIndexed(Sides(), index, id, Sell);
      if id !in index {
        return [Rejected(id, UnknownOrder)], [];
      }
      var qty := Unlink(id);
      return [Canceled(id, qty)], [CancelTimer(id)];
    }

    method OnTimer(id: nat) returns (events: seq<Evt>, timers: seq<TimerReq>)
      requires Valid()
      modifies this
      ensures Valid()
      ensures (Meaning(), Effect(events, timers)) == TimerStep(old(Meaning()), id)
    {
      hide Agrees, Inv, Flatten, Withdraw, Resting, Listed;
      HeldIsIndexed(Sides(), index, id, Buy);
      HeldIsIndexed(Sides(), index, id, Sell);
      if id !in index {
        return [], [];
      }
      var qty := Unlink(id);
      return [Expired(id, qty)], [];
    }

    method Handle(input: Input) returns (events: seq<Evt>, timers: seq<TimerReq>)
      requires Valid()
      modifies this
      ensures Valid()
      ensures (Meaning(), Effect(events, timers)) == Step(old(Meaning()), input)
    {
      hide Agrees, Inv, Flatten, SubmitStep, CancelStep, TimerStep;
      match input {
        case Command(Submit(id, side, price, qty)) => events, timers := Submit(id, side, price, qty, None);
        case Command(SubmitGtd(id, side, price, qty, at)) => events, timers := Submit(id, side, price, qty, Some(at));
        case Command(Cancel(id)) => events, timers := Cancel(id);
        case Fired(id) => events, timers := OnTimer(id);
      }
    }

    /** Any sequence of commands and expiries emits exactly the flat list's
        events and ends in exactly its state. */
    method RunAll(inputs: seq<Input>) returns (events: seq<Evt>)
      requires Valid()
      modifies this
      ensures Valid()
      ensures (Meaning(), events) == Run(old(Meaning()), inputs)
    {
      hide Agrees, Inv, Flatten, Step;
      events := [];
      for k := 0 to |inputs|
        invariant Valid()
        invariant Run(old(Meaning()), inputs).0 == Run(Meaning(), inputs[k..]).0
        invariant Run(old(Meaning()), inputs).1 == events + Run(Meaning(), inputs[k..]).1
      {
        assert inputs[k..][1..] == inputs[k + 1..];
        var es, ts := Handle(inputs[k]);
        events := events + es;
      }
      assert inputs[|inputs|..] == [] && events + [] == events;
    }
  }

  /** One turn of the filling loop, seen from the flat list. */
  lemma FillStep(side: Side, price: nat, level: seq<Waiting>, taker: nat, qty: nat,
                 events: seq<Evt>, filled: seq<nat>, traded: nat)
    requires level != [] && qty > 0
    ensures var maker := level[0];
            var fill := if qty < maker.qty then qty else maker.qty;
            var evts := events + [Trade(taker, maker.id, price, fill)];
            Match(side, Tag(price, level), taker, price, qty).After(events, Cancels(filled), traded)
            == if maker.qty == fill
               then Match(side, Tag(price, level[1..]), taker, price, qty - fill).After(evts, Cancels(filled + [maker.id]), traded + fill)
               else Match(side, Tag(price, [Waiting(maker.id, maker.qty - fill)] + level[1..]), taker, price, qty - fill).After(evts, Cancels(filled), traded + fill)
  {
    hide Match, Tag;
    var m, rest := level[0], Tag(price, level[1..]);
    var o := Order(m.id, price, m.qty);
    assert Tag(price, level) == [o] + rest;
    if m.qty <= qty {
      MatchWhole(side, o, rest, taker, price, qty);
      CancelsSnoc(filled, m.id);
      AfterSnoc(Match(side, rest, taker, price, qty - m.qty), events, Cancels(filled), traded,
                [Trade(taker, m.id, price, m.qty)], [CancelTimer(m.id)], m.qty);
    } else {
      MatchPart(side, o, rest, taker, price, qty);
      var left := [Waiting(m.id, m.qty - qty)] + level[1..];
      assert Tag(price, left) == [o.(qty := m.qty - qty)] + rest;
      MatchDone(side, price, left, taker, 0);
      AfterSnoc(Match(side, Tag(price, left), taker, price, 0), events, Cancels(filled), traded,
                [Trade(taker, m.id, price, qty)], [], qty);
      assert Cancels(filled) + [] == Cancels(filled);
    }
  }

  lemma MatchDone(side: Side, price: nat, level: seq<Waiting>, taker: nat, qty: nat)
    requires qty == 0 || level == []
    ensures Match(side, Tag(price, level), taker, price, qty) == MatchResult(Tag(price, level), qty, [], [], 0)
  {
  }

  lemma AfterNothing(t: MatchResult)
    ensures t == t.After([], [], 0)
  {
  }

  lemma ReplaceShrinks(levels: Levels, p: nat, queue: seq<Waiting>)
    requires p in levels
    ensures queue == [] ==> |Replace(levels, p, queue)| < |levels|
    ensures queue != [] ==> |Replace(levels, p, queue)| == |levels|
  {
    Without(levels, p);
    if queue != [] {
      assert levels[p := queue].Keys == levels.Keys;
      assert |levels[p := queue].Keys| == |levels[p := queue]| && |levels.Keys| == |levels|;
    }
  }

  /** Where the matching loop stops, the flat list has nothing left to trade. */
  lemma MatchStops(side: Side, levels: Levels, taker: nat, limit: nat, qty: nat)
    requires qty == 0 || levels == map[] || !Crosses(side, Best(side, levels), limit)
    ensures Match(side, Flatten(side, levels), taker, limit, qty) == MatchResult(Flatten(side, levels), qty, [], [], 0)
  {
    hide Best;
    var flat := Flatten(side, levels);
    if flat != [] {
      FlattenHolds(side, levels, flat[0]);
    }
  }

  lemma IndexedIsQueued(book: Ladders, index: Index, id: nat)
    requires Agrees(book, index) && id in index
    ensures var p := index[id];
            && p.price in book.On(p.side)
            && InQueue(book.On(p.side)[p.price], id)
            && (forall q :: q in book.On(p.side) && q != p.price ==> !InQueue(book.On(p.side)[q], id))
  {
    PlacedOn(book, index, index[id].side);
  }

  lemma UnlinkAgrees(book: Ladders, index: Index, id: nat, pos: nat)
    requires Agrees(book, index) && id in index
    requires index[id].price in book.On(index[id].side)
    requires FirstAt(book.On(index[id].side)[index[id].price], id, pos)
    ensures var p := index[id];
            var queue := book.On(p.side)[p.price];
            Agrees(book.With(p.side, Replace(book.On(p.side), p.price, queue[..pos] + queue[pos + 1..])), index - {id})
  {
    var p := index[id];
    var queue := book.On(p.side)[p.price];
    PlacedOn(book, index, p.side);
    hide Agrees, Placed;
    DropIds(queue, id, pos);
    ShrinkAgrees(book, index, p.side, p.price, queue[..pos] + queue[pos + 1..], {id});
  }

  lemma DropIds(queue: seq<Waiting>, id: nat, pos: nat)
    requires NoTwice(queue) && FirstAt(queue, id, pos)
    ensures var rest := queue[..pos] + queue[pos + 1..];
            && NoTwice(rest)
            && (forall x :: InQueue(rest, x) <==> InQueue(queue, x) && x != id)
            && InQueue(queue, id)
  {
    var rest := queue[..pos] + queue[pos + 1..];
    forall i | 0 <= i < |rest|
      ensures rest[i] == queue[if i < pos then i else i + 1]
    {
    }
    forall x
      ensures InQueue(rest, x) <==> InQueue(queue, x) && x != id
    {
      if InQueue(rest, x) {
        var i :| 0 <= i < |rest| && rest[i].id == x;
        assert queue[if i < pos then i else i + 1].id == x;
      }
      if InQueue(queue, x) && x != id {
        var i :| 0 <= i < |queue| && queue[i].id == x;
        assert rest[if i < pos then i else i - 1].id == x;
      }
    }
  }
}
