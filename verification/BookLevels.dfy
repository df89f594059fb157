/** Price levels with FIFO queues, and how they flatten to the priority list
    of FlatBook: matching a level, resting behind a level and removing from a
    level each commute with flattening. */
module BookLevels {
  import opened Wrappers
  import opened TimerWheel
  import opened FlatBook

  datatype Waiting = Waiting(id: nat, qty: nat)

  type Levels = map<nat, seq<Waiting>>

  datatype Place = Place(side: Side, price: nat)

  // ----- the best price of a side -----

  ghost predicate IsBest(side: Side, prices: set<nat>, p: nat) {
    p in prices && forall q :: q in prices ==> !Better(side, q, p)
  }

  /** The first price a taker meets: highest bid, lowest ask. */
  function Best(side: Side, levels: Levels): (p: nat)
    requires levels != map[]
    ensures IsBest(side, levels.Keys, p)
  {
    assert levels.Keys == {} ==> levels == map[];
    match side
    case Buy => Greatest(levels.Keys)
    case Sell => Least(levels.Keys)
  }

  lemma BestUnique(side: Side, levels: Levels, p: nat)
    requires IsBest(side, levels.Keys, p)
    ensures levels != map[] && Best(side, levels) == p
  {
  }

  // ----- flattening -----

  function Tag(price: nat, queue: seq<Waiting>): (r: seq<Order>)
    ensures |r| == |queue|
    ensures forall i :: 0 <= i < |queue| ==> r[i] == Order(queue[i].id, price, queue[i].qty)
  {
    if queue == [] then []
    else [Order(queue[0].id, price, queue[0].qty)] + Tag(price, queue[1..])
  }

  function Untag(orders: seq<Order>): (r: seq<Waiting>)
    ensures |r| == |orders|
    ensures forall i :: 0 <= i < |orders| ==> r[i] == Waiting(orders[i].id, orders[i].qty)
  {
    if orders == [] then []
    else [Waiting(orders[0].id, orders[0].qty)] + Untag(orders[1..])
  }

  function Flatten(side: Side, levels: Levels): (r: seq<Order>)
    decreases |levels|
  {
    if levels == map[] then []
    else
      var p := Best(side, levels);
      Without(levels, p);
      Tag(p, levels[p]) + Flatten(side, levels - {p})
  }

  lemma FlattenFrom(side: Side, levels: Levels, p: nat)
    requires IsBest(side, levels.Keys, p)
    ensures Flatten(side, levels) == Tag(p, levels[p]) + Flatten(side, levels - {p})
  {
    BestUnique(side, levels, p);
  }

  /** The flat list holds exactly the orders of the levels. */
  lemma {:induction false} FlattenHolds(side: Side, levels: Levels, o: Order)
    ensures o in Flatten(side, levels) <==> o.price in levels && Waiting(o.id, o.qty) in levels[o.price]
    decreases |levels|
  {
    if levels != map[] {
      var p := Best(side, levels);
      Without(levels, p);
      FlattenFrom(side, levels, p);
      FlattenHolds(side, levels - {p}, o);
      TagHolds(p, levels[p], o);
    }
  }

  lemma TagHolds(price: nat, queue: seq<Waiting>, o: Order)
    ensures o in Tag(price, queue) <==> o.price == price && Waiting(o.id, o.qty) in queue
  {
    if o.price == price && Waiting(o.id, o.qty) in queue {
      var i :| 0 <= i < |queue| && queue[i] == Waiting(o.id, o.qty);
      assert Tag(price, queue)[i] == o;
    }
  }

  predicate InQueue(queue: seq<Waiting>, id: nat) {
    exists i :: 0 <= i < |queue| && queue[i].id == id
  }

  lemma ListedInLevels(side: Side, levels: Levels, id: nat)
    ensures Listed(Flatten(side, levels), id) <==> exists p :: p in levels && InQueue(levels[p], id)
  {
    var flat := Flatten(side, levels);
    if Listed(flat, id) {
      var i :| 0 <= i < |flat| && flat[i].id == id;
      FlattenHolds(side, levels, flat[i]);
      assert InQueue(levels[flat[i].price], id);
    }
    if p :| p in levels && InQueue(levels[p], id) {
      var i :| 0 <= i < |levels[p]| && levels[p][i].id == id;
      var o := Order(id, p, levels[p][i].qty);
      FlattenHolds(side, levels, o);
      var j :| 0 <= j < |flat| && flat[j] == o;
      assert flat[j].id == id;
    }
  }

  // ----- matching one level, then the rest -----

  ghost predicate AllCross(side: Side, makers: seq<Order>, limit: nat) {
    forall i :: 0 <= i < |makers| ==> Crosses(side, makers[i].price, limit)
  }

  lemma MatchWhole(side: Side, m: Order, rest: seq<Order>, taker: nat, limit: nat, qty: nat)
    requires 0 < qty && m.qty <= qty && Crosses(side, m.price, limit)
    ensures Match(side, [m] + rest, taker, limit, qty)
            == Match(side, rest, taker, limit, qty - m.qty)
                 .After([Trade(taker, m.id, m.price, m.qty)], [CancelTimer(m.id)], m.qty)
  {
    assert ([m] + rest)[1..] == rest;
  }

  lemma MatchPart(side: Side, m: Order, rest: seq<Order>, taker: nat, limit: nat, qty: nat)
    requires 0 < qty < m.qty && Crosses(side, m.price, limit)
    ensures Match(side, [m] + rest, taker, limit, qty)
            == MatchResult([m.(qty := m.qty - qty)] + rest, 0, [Trade(taker, m.id, m.price, qty)], [], qty)
  {
    assert ([m] + rest)[1..] == rest;
  }

  /** Matching a list whose front all crosses: first the front, then, with
      what is left, the back. */
  lemma {:induction false} MatchAppend(side: Side, a: seq<Order>, b: seq<Order>, taker: nat, limit: nat, own: nat, qty: nat)
    requires AllCross(side, a, limit) && AllCross(side, a, own)
    ensures var r := Match(side, a, taker, own, qty);
            && (r.makers != [] ==> r.remaining == 0)
            && Match(side, a + b, taker, limit, qty) ==
               if r.makers == [] then Match(side, b, taker, limit, r.remaining).After(r.events, r.timers, r.traded)
               else r.(makers := r.makers + b)
    decreases |a|
  {
    if a == [] {
      assert a + b == b;
      var t := Match(side, b, taker, limit, qty);
      assert [] + t.events == t.events && [] + t.timers == t.timers;
    } else if qty > 0 {
      MatchAppendStep(side, a, b, taker, limit, own, qty);
    }
  }

  lemma {:induction false} MatchAppendStep(side: Side, a: seq<Order>, b: seq<Order>, taker: nat, limit: nat, own: nat, qty: nat)
    requires AllCross(side, a, limit) && AllCross(side, a, own)
    requires a != [] && qty > 0
    ensures var r := Match(side, a, taker, own, qty);
            && (r.makers != [] ==> r.remaining == 0)
            && Match(side, a + b, taker, limit, qty) ==
               if r.makers == [] then Match(side, b, taker, limit, r.remaining).After(r.events, r.timers, r.traded)
               else r.(makers := r.makers + b)
    decreases |a|, 0
  {
    hide Match, Crosses;
    var m, tail := a[0], a[1..];
    assert a == [m] + tail;
    assert a + b == [m] + (tail + b);
    if m.qty <= qty {
      MatchWhole(side, m, tail, taker, own, qty);
      MatchWhole(side, m, tail + b, taker, limit, qty);
      MatchAppend(side, tail, b, taker, limit, own, qty - m.qty);
      AfterTwice(side, a, b, taker, limit, own, qty);
    } else {
      MatchPart(side, m, tail, taker, own, qty);
      MatchPart(side, m, tail + b, taker, limit, qty);
      assert [m.(qty := m.qty - qty)] + (tail + b) == ([m.(qty := m.qty - qty)] + tail) + b;
    }
  }

  lemma AfterTwice(side: Side, a: seq<Order>, b: seq<Order>, taker: nat, limit: nat, own: nat, qty: nat)
    requires a != [] && a[0].qty <= qty
    ensures var m, r, e := a[0], Match(side, a[1..], taker, own, qty - a[0].qty), [Trade(taker, a[0].id, a[0].price, a[0].qty)];
            var t := Match(side, b, taker, limit, r.remaining);
            t.After(r.events, r.timers, r.traded).After(e, [CancelTimer(m.id)], m.qty)
            == t.After(e + r.events, [CancelTimer(m.id)] + r.timers, m.qty + r.traded)
  {
    hide Match;
    var m, r, e := a[0], Match(side, a[1..], taker, own, qty - a[0].qty), [Trade(taker, a[0].id, a[0].price, a[0].qty)];
    var t := Match(side, b, taker, limit, r.remaining);
    assert e + (r.events + t.events) == (e + r.events) + t.events;
    assert [CancelTimer(m.id)] + (r.timers + t.timers) == ([CancelTimer(m.id)] + r.timers) + t.timers;
  }

  /** The levels once the best one, `p`, has been left with `queue`. */
  function Replace(levels: Levels, p: nat, queue: seq<Waiting>): Levels {
    if queue == [] then levels - {p} else levels[p := queue]
  }

  /** Filling the best level and going on is matching the flat list. */
  lemma MatchBestLevel(side: Side, levels: Levels, taker: nat, limit: nat, qty: nat, queue: seq<Waiting>)
    requires levels != map[]
    requires Crosses(side, Best(side, levels), limit)
    requires var p := Best(side, levels);
             Match(side, Tag(p, levels[p]), taker, p, qty).makers == Tag(p, queue)
    ensures var p := Best(side, levels);
            var r := Match(side, Tag(p, levels[p]), taker, p, qty);
            && (queue != [] ==> r.remaining == 0)
            && Match(side, Flatten(side, levels), taker, limit, qty) ==
               Match(side, Flatten(side, Replace(levels, p, queue)), taker, limit, r.remaining).After(r.events, r.timers, r.traded)
  {
    var p := Best(side, levels);
    var r := Match(side, Tag(p, levels[p]), taker, p, qty);
    FlattenFrom(side, levels, p);
    MatchAppend(side, Tag(p, levels[p]), Flatten(side, levels - {p}), taker, limit, p, qty);
    if queue != [] {
      var next := levels[p := queue];
      assert next.Keys == levels.Keys;
      assert next - {p} == levels - {p};
      FlattenFrom(side, next, p);
      assert r.events + [] == r.events && r.timers + [] == r.timers;
      assert Match(side, Flatten(side, next), taker, limit, 0) == MatchResult(Flatten(side, next), 0, [], [], 0);
    } else {
      assert Replace(levels, p, queue) == levels - {p};
    }
  }

  // ----- resting -----

  function QueueAt(levels: Levels, price: nat): seq<Waiting> {
    if price in levels then levels[price] else []
  }

  lemma {:induction false} RestSkip(side: Side, a: seq<Order>, b: seq<Order>, o: Order)
    requires forall i :: 0 <= i < |a| ==> !Better(side, o.price, a[i].price)
    ensures Rest(side, a + b, o) == a + Rest(side, b, o)
    decreases |a|
  {
    hide Better;
    if a == [] {
      assert a + b == b;
    } else {
      assert (a + b)[1..] == a[1..] + b;
      RestSkip(side, a[1..], b, o);
      assert [a[0]] + (a[1..] + Rest(side, b, o)) == a + Rest(side, b, o);
    }
  }

  lemma RestFront(side: Side, levels: Levels, o: Order)
    requires forall p :: p in levels ==> Better(side, o.price, p)
    ensures Rest(side, Flatten(side, levels), o) == [o] + Flatten(side, levels)
  {
    var flat := Flatten(side, levels);
    if flat != [] {
      FlattenHolds(side, levels, flat[0]);
    }
  }

  lemma {:induction false} TagAppend(price: nat, a: seq<Waiting>, b: seq<Waiting>)
    ensures Tag(price, a + b) == Tag(price, a) + Tag(price, b)
  {
  }

  /** Joining the back of a price's queue rests the order in the flat list. */
  lemma {:induction false} FlattenRest(side: Side, levels: Levels, price: nat, w: Waiting)
    ensures Flatten(side, levels[price := QueueAt(levels, price) + [w]])
            == Rest(side, Flatten(side, levels), Order(w.id, price, w.qty))
    decreases |levels|
  {
    hide Rest, Flatten, Tag, Best;
    var next := levels[price := QueueAt(levels, price) + [w]];
    var o := Order(w.id, price, w.qty);
    assert next.Keys == levels.Keys + {price};
    if forall p :: p in levels ==> Better(side, price, p) {
      assert next - {price} == levels;
      FlattenFrom(side, next, price);
      assert next[price] == [w];
      assert Tag(price, next[price]) == [o];
      RestFront(side, levels, o);
    } else {
      assert levels != map[];
      var p := Best(side, levels);
      var below := levels - {p};
      Without(levels, p);
      FlattenFrom(side, levels, p);
      FlattenFrom(side, next, p);
      RestSkip(side, Tag(p, levels[p]), Flatten(side, below), o);
      if p == price {
        assert next - {p} == below;
        TagAppend(p, levels[p], [w]);
        assert Tag(p, [w]) == [o];
        RestFront(side, below, o);
        assert (Tag(p, levels[p]) + [o]) + Flatten(side, below) == Tag(p, levels[p]) + ([o] + Flatten(side, below));
      } else {
        assert QueueAt(below, price) == QueueAt(levels, price);
        assert next - {p} == below[price := QueueAt(below, price) + [w]];
        FlattenRest(side, below, price, w);
      }
    }
  }

  // ----- removing -----

  lemma {:induction false} RemoveSkip(a: seq<Order>, b: seq<Order>, id: nat)
    requires !Listed(a, id)
    ensures Remove(a + b, id) == a + Remove(b, id)
    ensures QtyOf(a + b, id) == QtyOf(b, id)
    decreases |a|
  {
    if a == [] {
      assert a + b == b;
    } else {
      assert (a + b)[1..] == a[1..] + b;
      assert a[0].id != id;
      forall i | 0 <= i < |a[1..]|
        ensures a[1..][i].id != id
      {
        assert a[1..][i] == a[i + 1];
      }
      RemoveSkip(a[1..], b, id);
      assert [a[0]] + (a[1..] + Remove(b, id)) == a + Remove(b, id);
    }
  }

  lemma RemoveHead(o: Order, b: seq<Order>)
    ensures Remove([o] + b, o.id) == b
    ensures QtyOf([o] + b, o.id) == o.qty
  {
    assert ([o] + b)[1..] == b;
  }

  /** `i` is where `id` first stands in the queue. */
  ghost predicate FirstAt(queue: seq<Waiting>, id: nat, i: nat) {
    i < |queue| && queue[i].id == id && forall j :: 0 <= j < i ==> queue[j].id != id
  }

  lemma RemoveWithin(price: nat, queue: seq<Waiting>, i: nat, b: seq<Order>)
    requires i < |queue| && FirstAt(queue, queue[i].id, i)
    ensures Remove(Tag(price, queue) + b, queue[i].id) == Tag(price, queue[..i] + queue[i + 1..]) + b
    ensures QtyOf(Tag(price, queue) + b, queue[i].id) == queue[i].qty
  {
    hide Remove, QtyOf, Tag;
    var o := Order(queue[i].id, price, queue[i].qty);
    var front, back := Tag(price, queue[..i]), Tag(price, queue[i + 1..]);
    assert Tag(price, queue) + b == front + ([o] + (back + b)) by {
      assert Tag(price, queue) == front + [o] + back;
    }
    RemoveSkip(front, [o] + (back + b), queue[i].id);
    RemoveHead(o, back + b);
    TagAppend(price, queue[..i], queue[i + 1..]);
    assert front + (back + b) == (front + back) + b;
  }

  /** Deleting from a queue deletes from the flat list, provided no better
      level lists the same id. */
  lemma {:induction false} FlattenRemove(side: Side, levels: Levels, price: nat, i: nat, id: nat)
    requires price in levels && FirstAt(levels[price], id, i)
    requires forall p :: p in levels && p != price ==> !InQueue(levels[p], id)
    ensures Flatten(side, Replace(levels, price, levels[price][..i] + levels[price][i + 1..]))
            == Remove(Flatten(side, levels), id)
    ensures QtyOf(Flatten(side, levels), id) == levels[price][i].qty
    decreases |levels|
  {
    hide Remove, QtyOf, Flatten, Tag, Best;
    var queue := levels[price][..i] + levels[price][i + 1..];
    var next := Replace(levels, price, queue);
    var p := Best(side, levels);
    var below := levels - {p};
    Without(levels, p);
    FlattenFrom(side, levels, p);
    if p == price {
      RemoveWithin(p, levels[p], i, Flatten(side, below));
      if queue == [] {
        assert next == below;
        assert Tag(p, queue) + Flatten(side, below) == Flatten(side, below);
      } else {
        assert next - {p} == below;
        assert next.Keys == levels.Keys;
        FlattenFrom(side, next, p);
      }
    } else {
      assert !Listed(Tag(p, levels[p]), id);
      RemoveSkip(Tag(p, levels[p]), Flatten(side, below), id);
      FlattenRemove(side, below, price, i, id);
      assert next - {p} == Replace(below, price, queue);
      assert next[p] == levels[p];
      FlattenFrom(side, next, p);
    }
  }
}
