/** The book's snapshot: its levels in ascending price, each with its queue, and
    the share counters. */
module BookSnapshots {
  import opened Wrappers
  import opened FlatBook
  import opened BookLevels

  datatype LevelSnap = LevelSnap(price: nat, orders: seq<Waiting>)

  datatype BookSnapshot = BookSnapshot(
    bids: seq<LevelSnap>, asks: seq<LevelSnap>, accepted: nat, traded: nat, canceled: nat)

  /** Neighbouring orders of one price form a level. */
  function Grouped(orders: seq<Order>): seq<LevelSnap> {
    if orders == [] then []
    else
      var o, rest := orders[0], Grouped(orders[1..]);
      if rest != [] && rest[0].price == o.price
      then [LevelSnap(o.price, [Waiting(o.id, o.qty)] + rest[0].orders)] + rest[1..]
      else [LevelSnap(o.price, [Waiting(o.id, o.qty)])] + rest
  }

  function Queue(l: LevelSnap): seq<Order> { Tag(l.price, l.orders) }

  function Orders(levels: seq<LevelSnap>): seq<Order> {
    if levels == [] then [] else Queue(levels[0]) + Orders(levels[1..])
  }

  lemma OrdersFirst(l: LevelSnap, rest: seq<LevelSnap>)
    ensures Orders([l] + rest) == Queue(l) + Orders(rest)
  {
    assert ([l] + rest)[1..] == rest;
  }

  lemma QueueFirst(o: Order, orders: seq<Waiting>)
    ensures Queue(LevelSnap(o.price, [Waiting(o.id, o.qty)] + orders)) == [o] + Queue(LevelSnap(o.price, orders))
    ensures Queue(LevelSnap(o.price, [Waiting(o.id, o.qty)])) == [o]
  {
  }

  lemma {:induction false} OrdersOfGrouped(orders: seq<Order>)
    ensures Orders(Grouped(orders)) == orders
  {
    hide Orders, Queue;
    if orders == [] {
      NoOrders();
    } else {
      OrdersOfGrouped(orders[1..]);
      var o, rest := orders[0], Grouped(orders[1..]);
      assert orders == [o] + orders[1..];
      if rest != [] && rest[0].price == o.price {
        var l := LevelSnap(o.price, [Waiting(o.id, o.qty)] + rest[0].orders);
        QueueFirst(o, rest[0].orders);
        OrdersFirst(l, rest[1..]);
        OrdersFirst(rest[0], rest[1..]);
        assert [rest[0]] + rest[1..] == rest && LevelSnap(o.price, rest[0].orders) == rest[0];
        assert ([o] + Queue(rest[0])) + Orders(rest[1..]) == [o] + (Queue(rest[0]) + Orders(rest[1..]));
      } else {
        QueueFirst(o, []);
        OrdersFirst(LevelSnap(o.price, [Waiting(o.id, o.qty)]), rest);
      }
    }
  }

  lemma NoOrders()
    ensures Orders([]) == []
  {
  }

  function Backwards(levels: seq<LevelSnap>): (r: seq<LevelSnap>)
    ensures |r| == |levels|
  {
    seq(|levels|, i requires 0 <= i < |levels| => levels[|levels| - 1 - i])
  }

  /** Bids are listed best first, so from the highest price down. */
  function Snap(book: Flat): BookSnapshot {
    BookSnapshot(Backwards(Grouped(book.bids)), Grouped(book.asks), book.accepted, book.traded, book.canceled)
  }

  function Unsnap(s: BookSnapshot): Flat {
    Flat(Orders(Backwards(s.bids)), Orders(s.asks), s.accepted, s.traded, s.canceled)
  }

  lemma UnsnapSnap(book: Flat)
    ensures Unsnap(Snap(book)) == book
  {
    assert Backwards(Backwards(Grouped(book.bids))) == Grouped(book.bids);
    OrdersOfGrouped(book.bids);
    OrdersOfGrouped(book.asks);
  }

  // ----- grouping a flattened side gives its levels back -----

  /** A whole level in front of orders at other prices. */
  lemma {:induction false} GroupedLevel(price: nat, queue: seq<Waiting>, rest: seq<Order>)
    requires queue != [] && (Grouped(rest) != [] ==> Grouped(rest)[0].price != price)
    ensures Grouped(Tag(price, queue) + rest) == [LevelSnap(price, queue)] + Grouped(rest)
    decreases |queue|
  {
    var all := Tag(price, queue) + rest;
    if |queue| == 1 {
      assert queue == [queue[0]] && all[1..] == rest;
    } else {
      assert all[1..] == Tag(price, queue[1..]) + rest;
      GroupedLevel(price, queue[1..], rest);
      var tail := Grouped(all[1..]);
      assert tail[0] == LevelSnap(price, queue[1..]) && tail[1..] == Grouped(rest);
      assert [queue[0]] + queue[1..] == queue;
    }
  }

  /** The levels from the best price on. */
  function FromBest(side: Side, levels: Levels): (r: seq<LevelSnap>)
    ensures forall i :: 0 <= i < |r| ==> r[i].price in levels
    decreases |levels|
  {
    if levels == map[] then []
    else
      var p := Best(side, levels);
      Without(levels, p);
      [LevelSnap(p, levels[p])] + FromBest(side, levels - {p})
  }

  lemma {:induction false} GroupedFlatten(side: Side, levels: Levels)
    requires forall p :: p in levels ==> levels[p] != []
    ensures Grouped(Flatten(side, levels)) == FromBest(side, levels)
    decreases |levels|
  {
    hide Best, Grouped, Tag;
    if levels == map[] {
      NoLevels();
    } else {
      var p := Best(side, levels);
      Without(levels, p);
      GroupedFlatten(side, levels - {p});
      GroupedLevel(p, levels[p], Flatten(side, levels - {p}));
    }
  }

  lemma NoLevels()
    ensures Grouped([]) == []
  {
  }

  /** Taking the highest level off the end of the ascending ones. */
  lemma {:induction false} AscendingLast(levels: Levels)
    requires levels != map[]
    ensures var g := Best(Buy, levels);
            FromBest(Sell, levels) == FromBest(Sell, levels - {g}) + [LevelSnap(g, levels[g])]
    decreases |levels|
  {
    hide FromBest, Best;
    var p, g := Best(Sell, levels), Best(Buy, levels);
    Without(levels, p);
    Without(levels, g);
    FromBestFirst(Sell, levels, p);
    if p == g {
      OnlyLevel(levels, p);
      FromBestNone(Sell);
    } else {
      var rest := levels - {p};
      assert g in rest;
      BestOfRest(Buy, levels, g, p);
      AscendingLast(rest);
      assert rest - {g} == (levels - {g}) - {p};
      BestOfRest(Sell, levels, p, g);
      FromBestFirst(Sell, levels - {g}, p);
    }
  }

  lemma FromBestFirst(side: Side, levels: Levels, p: nat)
    requires IsBest(side, levels.Keys, p)
    ensures FromBest(side, levels) == [LevelSnap(p, levels[p])] + FromBest(side, levels - {p})
  {
    BestUnique(side, levels, p);
  }

  lemma FromBestNone(side: Side)
    ensures FromBest(side, map[]) == []
  {
  }

  lemma OnlyLevel(levels: Levels, p: nat)
    requires IsBest(Sell, levels.Keys, p) && IsBest(Buy, levels.Keys, p)
    ensures levels - {p} == map[]
  {
  }

  lemma BestOfRest(side: Side, levels: Levels, p: nat, q: nat)
    requires IsBest(side, levels.Keys, p) && q != p
    ensures levels - {q} != map[] && Best(side, levels - {q}) == p
  {
    assert p in levels - {q};
    BestUnique(side, levels - {q}, p);
  }

  lemma {:induction false} DescendingIsBackwards(levels: Levels)
    ensures Backwards(FromBest(Buy, levels)) == FromBest(Sell, levels)
    decreases |levels|
  {
    if levels != map[] {
      var g := Best(Buy, levels);
      Without(levels, g);
      hide Best, FromBest;
      DescendingIsBackwards(levels - {g});
      FromBestFirst(Buy, levels, g);
      AscendingLast(levels);
      var rest := FromBest(Buy, levels - {g});
      assert Backwards([LevelSnap(g, levels[g])] + rest) == Backwards(rest) + [LevelSnap(g, levels[g])];
    }
  }

  /** The snapshot of the flat book is the levels' own, in ascending price. */
  lemma SnapOfLevels(bids: Levels, asks: Levels, accepted: nat, traded: nat, canceled: nat)
    requires forall p :: p in bids ==> bids[p] != []
    requires forall p :: p in asks ==> asks[p] != []
    ensures Snap(Flat(Flatten(Buy, bids), Flatten(Sell, asks), accepted, traded, canceled))
            == BookSnapshot(FromBest(Sell, bids), FromBest(Sell, asks), accepted, traded, canceled)
  {
    hide Flatten, FromBest, Grouped, Backwards;
    GroupedFlatten(Buy, bids);
    GroupedFlatten(Sell, asks);
    DescendingIsBackwards(bids);
  }
}
