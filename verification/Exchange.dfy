/** The order book wrapped in sessions: who owns which resting order, which
    client seqs have been applied, and who hears about what. */
module Exchange {
  import opened Wrappers
  import opened TimerWheel
  import opened FlatBook

  datatype Addressed = Addressed(session: nat, event: Evt)

  datatype ClientInput = Client(session: nat, clientSeq: nat, cmd: Cmd) | SessionClosed(session: nat)

  /** `owned` is the reverse of `owners`; `last` the highest client seq applied
      per session. */
  datatype Venue = Venue(book: Flat, owners: map<nat, nat>, owned: map<nat, set<nat>>, last: map<nat, nat>)

  const GENESIS := Venue(EMPTY, map[], map[], map[])

  function OwnedBy(owned: map<nat, set<nat>>, session: nat): set<nat> {
    if session in owned then owned[session] else {}
  }

  /** An order has left the book: forget its owner. */
  function Disown(x: Venue, id: nat): Venue {
    if id !in x.owners then x
    else
      var owner := x.owners[id];
      x.(owners := x.owners - {id},
         owned := if owner in x.owned then x.owned[owner := x.owned[owner] - {id}] else x.owned)
  }

  /** Address one book event and keep ownership in step with residency. */
  function Route(x: Venue, origin: nat, event: Evt): (Venue, seq<Addressed>) {
    match event
    case Accepted(id) =>
      var held := if x.book.Holds(id)
                  then x.(owners := x.owners[id := origin], owned := x.owned[origin := OwnedBy(x.owned, origin) + {id}])
                  else x;
      (held, [Addressed(origin, event)])
    case Trade(_, maker, _, _) =>
      var copy := if maker in x.owners && x.owners[maker] != origin then [Addressed(x.owners[maker], event)] else [];
      (if x.book.Holds(maker) then x else Disown(x, maker), [Addressed(origin, event)] + copy)
    case Canceled(id, _) => (Disown(x, id), [Addressed(origin, event)])
    case Expired(id, _) => (Disown(x, id), [Addressed(origin, event)])
    case Rejected(_, _) => (x, [Addressed(origin, event)])
  }

  function RouteAll(x: Venue, origin: nat, events: seq<Evt>): (Venue, seq<Addressed>)
    decreases |events|
  {
    if events == [] then (x, [])
    else
      var (next, out) := Route(x, origin, events[0]);
      var (end, rest) := RouteAll(next, origin, events[1..]);
      (end, out + rest)
  }

  /** Run one command through the book and route what it says. */
  function RunBook(x: Venue, origin: nat, cmd: Cmd): (Venue, seq<Addressed>) {
    var (book, effect) := Apply(x.book, cmd);
    RouteAll(x.(book := book), origin, effect.events)
  }

  function LastOf(x: Venue, session: nat): nat {
    if session in x.last then x.last[session] else 0
  }

  /** Only the owner of a resting order may cancel it. */
  function Allowed(x: Venue, session: nat, cmd: Cmd): bool {
    cmd.Cancel? ==> cmd.id in x.owners && x.owners[cmd.id] == session
  }

  function ApplyClient(x: Venue, session: nat, clientSeq: nat, cmd: Cmd): (Venue, seq<Addressed>) {
    var last := LastOf(x, session);
    if clientSeq <= last then (x.(last := x.last[session := last]), [])
    else
      var seen := x.(last := x.last[session := clientSeq]);
      if !Allowed(seen, session, cmd) then (seen, [Addressed(session, Rejected(cmd.id, UnknownOrder))])
      else RunBook(seen, session, cmd)
  }

  function SortedIds(ids: set<nat>): seq<nat>
    decreases |ids|
  {
    if ids == {} then [] else [Least(ids)] + SortedIds(ids - {Least(ids)})
  }

  function CancelAll(x: Venue, session: nat, ids: seq<nat>): (Venue, seq<Addressed>)
    decreases |ids|
  {
    if ids == [] then (x, [])
    else
      var (next, out) := RunBook(x, session, Cancel(ids[0]));
      var (end, rest) := CancelAll(next, session, ids[1..]);
      (end, out + rest)
  }

  /** Cancel-on-disconnect, in id order; the dedup state survives. */
  function CloseSession(x: Venue, session: nat): (Venue, seq<Addressed>) {
    var (end, out) := CancelAll(x, session, SortedIds(OwnedBy(x.owned, session)));
    (end.(owned := end.owned - {session}), out)
  }

  function Step(x: Venue, input: ClientInput): (Venue, seq<Addressed>) {
    match input
    case Client(session, clientSeq, cmd) => ApplyClient(x, session, clientSeq, cmd)
    case SessionClosed(session) => CloseSession(x, session)
  }

  function RunAll(x: Venue, inputs: seq<ClientInput>): (Venue, seq<Addressed>)
    decreases |inputs|
  {
    if inputs == [] then (x, [])
    else
      var (next, out) := Step(x, inputs[0]);
      var (end, rest) := RunAll(next, inputs[1..]);
      (end, out + rest)
  }

  // ----- what every run keeps -----

  /** `owned` is exactly the inverse of `owners`. */
  ghost predicate Inverse(x: Venue) {
    && (forall id :: id in x.owners ==> id in OwnedBy(x.owned, x.owners[id]))
    && (forall s, id :: id in OwnedBy(x.owned, s) ==> id in x.owners && x.owners[id] == s)
  }

  /** The owner map's keys are exactly the resting orders. */
  ghost predicate Resident(x: Venue) {
    forall id: nat :: id in x.owners <==> x.book.Holds(id)
  }

  ghost predicate Ok(x: Venue) {
    Inv(x.book) && Inverse(x) && Resident(x)
  }

  lemma DisownKeeps(x: Venue, id: nat)
    requires Inverse(x)
    ensures Inverse(Disown(x, id))
    ensures Disown(x, id).owners == x.owners - {id}
    ensures Disown(x, id).book == x.book && Disown(x, id).last == x.last
    ensures forall s: nat :: OwnedBy(Disown(x, id).owned, s) == OwnedBy(x.owned, s) - {id}
  {
    var y := Disown(x, id);
    if id in x.owners {
      assert x.owners[id] in x.owned;
      forall s: nat
        ensures OwnedBy(y.owned, s) == OwnedBy(x.owned, s) - {id}
      {
        if s != x.owners[id] {
          assert id !in OwnedBy(x.owned, s);
        }
      }
    } else {
      assert x.owners - {id} == x.owners;
      forall s: nat
        ensures OwnedBy(y.owned, s) == OwnedBy(x.owned, s) - {id}
      {
        assert id !in OwnedBy(x.owned, s);
      }
    }
  }

  // ----- submits -----

  /** The makers named by a list of trades. */
  ghost predicate Makes(events: seq<Evt>, id: nat) {
    exists i :: 0 <= i < |events| && events[i].Trade? && events[i].maker == id
  }

  ghost predicate AllTrades(events: seq<Evt>) {
    forall i :: 0 <= i < |events| ==> events[i].Trade?
  }

  /** Matching reports a trade for every maker it removes, and only for makers
      that were there. */
  lemma {:induction false} MatchMakers(side: Side, makers: seq<Order>, taker: nat, limit: nat, qty: nat, id: nat)
    ensures var r := Match(side, makers, taker, limit, qty);
            && AllTrades(r.events)
            && (Listed(makers, id) ==> Listed(r.makers, id) || Makes(r.events, id))
            && (Makes(r.events, id) ==> Listed(makers, id))
            && (Listed(r.makers, id) ==> Listed(makers, id))
    decreases |makers|
  {
    hide Crosses;
    var r := Match(side, makers, taker, limit, qty);
    if qty > 0 && makers != [] && Crosses(side, makers[0].price, limit) {
      var m := makers[0];
      if m.qty <= qty {
        MatchMakers(side, makers[1..], taker, limit, qty - m.qty, id);
        var t := Match(side, makers[1..], taker, limit, qty - m.qty);
        MakersCons(m, makers, t, r, id);
      } else {
        ReducedHead(makers, r.makers, id);
        assert r.events[0].maker == m.id;
      }
    }
  }

  lemma MakersCons(m: Order, makers: seq<Order>, t: MatchResult, r: MatchResult, id: nat)
    requires makers != [] && makers[0] == m
    requires r.makers == t.makers && |r.events| == |t.events| + 1 && r.events[1..] == t.events
    requires r.events[0].Trade? && r.events[0].maker == m.id
    ensures Listed(makers, id) <==> m.id == id || Listed(makers[1..], id)
    ensures Makes(r.events, id) <==> m.id == id || Makes(t.events, id)
    ensures AllTrades(t.events) ==> AllTrades(r.events)
  {
    if Listed(makers[1..], id) {
      var i :| 0 <= i < |makers[1..]| && makers[1..][i].id == id;
      assert makers[i + 1].id == id;
    }
    if Listed(makers, id) && m.id != id {
      var i :| 0 <= i < |makers| && makers[i].id == id;
      assert makers[1..][i - 1].id == id;
    }
    if Makes(t.events, id) {
      var i :| 0 <= i < |t.events| && t.events[i].Trade? && t.events[i].maker == id;
      assert r.events[i + 1] == t.events[i];
    }
    if Makes(r.events, id) && m.id != id {
      var i :| 0 <= i < |r.events| && r.events[i].Trade? && r.events[i].maker == id;
      assert t.events[i - 1] == r.events[i];
    }
    if AllTrades(t.events) {
      forall i | 0 <= i < |r.events|
        ensures r.events[i].Trade?
      {
        assert i > 0 ==> r.events[i] == t.events[i - 1];
      }
    }
  }

  lemma ReducedHead(a: seq<Order>, b: seq<Order>, id: nat)
    requires a != [] && b != [] && a[0].id == b[0].id && a[1..] == b[1..]
    ensures Listed(a, id) <==> Listed(b, id)
  {
    if Listed(a, id) {
      var i :| 0 <= i < |a| && a[i].id == id;
      assert i > 0 ==> b[i] == b[1..][i - 1] == a[1..][i - 1] == a[i];
      assert b[i].id == id;
    }
    if Listed(b, id) {
      var i :| 0 <= i < |b| && b[i].id == id;
      assert i > 0 ==> b[i] == b[1..][i - 1] == a[1..][i - 1] == a[i];
      assert a[i].id == id;
    }
  }

  lemma RestedOnly(side: Side, orders: seq<Order>, o: Order, id: nat)
    requires Sorted(side, orders)
    ensures Listed(Rest(side, orders, o), id) <==> Listed(orders, id) || id == o.id
  {
    hide Rest;
    RestLists(side, orders, o, id);
    if Listed(Rest(side, orders, o), id) {
      var i :| 0 <= i < |Rest(side, orders, o)| && Rest(side, orders, o)[i].id == id;
      RestMembers(side, orders, o, i);
      if Rest(side, orders, o)[i] in orders {
        var j :| 0 <= j < |orders| && orders[j] == Rest(side, orders, o)[i];
        assert orders[j].id == id;
      }
    }
  }

  /** What an accepted submit does to the set of resting orders. */
  lemma SubmitResidents(book: Flat, id: nat, side: Side, price: nat, qty: nat, expireAt: Option<nat>, x: nat)
    requires Inv(book) && qty > 0 && !book.Holds(id)
    ensures var (next, effect) := SubmitStep(book, id, side, price, qty, expireAt);
            && effect.events != [] && effect.events[0] == Accepted(id)
            && AllTrades(effect.events[1..])
            && (book.Holds(x) ==> next.Holds(x) || Makes(effect.events[1..], x))
            && (Makes(effect.events[1..], x) ==> book.Holds(x))
            && (next.Holds(x) ==> book.Holds(x) || x == id)
  {
    hide Match, Rest, Listed, Conserved, Uncrossed, Disjoint, Live, Distinct, Sorted, Makes, AllTrades;
    var opp := Opposite(side);
    var m := Match(opp, book.On(opp), id, price, qty);
    MatchMakers(opp, book.On(opp), id, price, qty, x);
    var (next, effect) := SubmitStep(book, id, side, price, qty, expireAt);
    assert effect.events == [Accepted(id)] + m.events;
    assert effect.events[1..] == m.events;
    RestedOnly(side, book.On(side), Order(id, price, m.remaining), x);
  }

  /** Routing trades disowns exactly the makers that left. */
  lemma {:induction false} RouteTrades(x: Venue, origin: nat, events: seq<Evt>)
    requires Inverse(x) && AllTrades(events)
    ensures var y := RouteAll(x, origin, events).0;
            && Inverse(y) && y.book == x.book && y.last == x.last
            && (forall id :: id in y.owners <==> id in x.owners && !(Makes(events, id) && !x.book.Holds(id)))
            && (forall id :: id in y.owners ==> y.owners[id] == x.owners[id])
    decreases |events|
  {
    hide Inverse, Disown;
    if events != [] {
      var e := events[0];
      var next := Route(x, origin, e).0;
      DisownKeeps(x, e.maker);
      RouteTrades(next, origin, events[1..]);
      forall id: nat
        ensures Makes(events, id) <==> e.maker == id || Makes(events[1..], id)
      {
        TradesCons(events, id);
      }
    }
  }

  lemma TradesCons(events: seq<Evt>, id: nat)
    requires events != [] && events[0].Trade?
    ensures Makes(events, id) <==> events[0].maker == id || Makes(events[1..], id)
  {
    if Makes(events[1..], id) {
      var i :| 0 <= i < |events[1..]| && events[1..][i].Trade? && events[1..][i].maker == id;
      assert events[i + 1].Trade? && events[i + 1].maker == id;
    }
    if Makes(events, id) && events[0].maker != id {
      var i :| 0 <= i < |events| && events[i].Trade? && events[i].maker == id;
      assert events[1..][i - 1] == events[i];
    }
  }

  /** Taking ownership of a newly resting order. */
  lemma AcceptedKeeps(x: Venue, origin: nat, id: nat)
    requires Inverse(x) && id !in x.owners
    ensures var y := Route(x, origin, Accepted(id)).0;
            && Inverse(y) && y.book == x.book && y.last == x.last
            && y.owners == if x.book.Holds(id) then x.owners[id := origin] else x.owners
  {
    var y := Route(x, origin, Accepted(id)).0;
    if x.book.Holds(id) {
      forall s: nat
        ensures OwnedBy(y.owned, s) == if s == origin then OwnedBy(x.owned, s) + {id} else OwnedBy(x.owned, s)
      {
      }
      forall s: nat
        ensures id !in OwnedBy(x.owned, s)
      {
      }
    }
  }

  lemma SubmitOk(x: Venue, origin: nat, id: nat, side: Side, price: nat, qty: nat, expireAt: Option<nat>)
    requires Ok(x)
    ensures var (book, effect) := SubmitStep(x.book, id, side, price, qty, expireAt);
            var y := RouteAll(x.(book := book), origin, effect.events).0;
            Ok(y) && y.book == book && y.last == x.last
  {
    hide Inverse, SubmitStep, Inv, Makes, AllTrades, Route;
    var (book, effect) := SubmitStep(x.book, id, side, price, qty, expireAt);
    SubmitKeeps(x.book, id, side, price, qty, expireAt);
    var z := x.(book := book);
    InverseApart(x, z);
    if qty == 0 || x.book.Holds(id) {
      SubmitRefused(x.book, id, side, price, qty, expireAt);
      RouteOne(z, origin, effect.events[0]);
      RejectedKeeps(z, origin, effect.events[0]);
    } else {
      SubmitResidents(x.book, id, side, price, qty, expireAt, id);
      var trades := effect.events[1..];
      AcceptedKeeps(z, origin, id);
      var w := Route(z, origin, Accepted(id)).0;
      RouteTrades(w, origin, trades);
      var y := RouteAll(z, origin, effect.events).0;
      assert y == RouteAll(w, origin, trades).0;
      forall k: nat
        ensures k in y.owners <==> y.book.Holds(k)
      {
        SubmitResidents(x.book, id, side, price, qty, expireAt, k);
      }
    }
  }

  lemma InverseApart(x: Venue, y: Venue)
    requires y.owners == x.owners && y.owned == x.owned
    ensures Inverse(x) == Inverse(y)
  {
  }

  lemma SubmitRefused(book: Flat, id: nat, side: Side, price: nat, qty: nat, expireAt: Option<nat>)
    requires qty == 0 || book.Holds(id)
    ensures var (next, effect) := SubmitStep(book, id, side, price, qty, expireAt);
            next == book && |effect.events| == 1 && effect.events[0].Rejected?
  {
  }

  lemma RouteOne(x: Venue, origin: nat, e: Evt)
    ensures RouteAll(x, origin, [e]) == (Route(x, origin, e).0, Route(x, origin, e).1 + [])
  {
    hide Route;
    assert [e][1..] == [];
    var next := Route(x, origin, e).0;
    assert RouteAll(next, origin, []) == (next, []);
  }

  lemma RejectedKeeps(x: Venue, origin: nat, e: Evt)
    requires e.Rejected?
    ensures Route(x, origin, e).0 == x
  {
  }

  // ----- cancels -----

  /** Withdrawing removes exactly that order. */
  lemma WithdrawResidents(book: Flat, id: nat, x: nat)
    requires Inv(book) && book.Holds(id)
    ensures Withdraw(book, id).Holds(x) <==> book.Holds(x) && x != id
  {
    WithdrawKeeps(book, id);
    var side := if Listed(book.bids, id) then Buy else Sell;
    RemovedOnly(book.On(side), id, x);
    hide Inv, Remove, Listed, QtyOf;
  }

  lemma RemovedOnly(orders: seq<Order>, id: nat, x: nat)
    requires Listed(orders, id)
    ensures x != id ==> (Listed(Remove(orders, id), x) <==> Listed(orders, x))
  {
    var k := RemovePosition(orders, id);
    var rest := Remove(orders, id);
    hide Remove, QtyOf;
    if x != id && Listed(orders, x) {
      var i :| 0 <= i < |orders| && orders[i].id == x;
      assert rest[if i < k then i else i - 1].id == x;
    }
    if Listed(rest, x) {
      var i :| 0 <= i < |rest| && rest[i].id == x;
      assert orders[if i < k then i else i + 1].id == x;
    }
  }

  /** Cancelling a resting order withdraws it and disowns it. */
  lemma CancelOk(x: Venue, origin: nat, id: nat)
    requires Ok(x) && id in x.owners
    ensures var (y, out) := RunBook(x, origin, Cancel(id));
            && Ok(y) && y.book == Withdraw(x.book, id) && y.last == x.last
            && y.owners == x.owners - {id}
            && (forall s: nat :: OwnedBy(y.owned, s) == OwnedBy(x.owned, s) - {id})
            && out == [Addressed(origin, Canceled(id, Resting(x.book, id)))]
  {
    hide Inverse, Inv, Disown, Withdraw, Resting, Route;
    WithdrawKeeps(x.book, id);
    var z := x.(book := Withdraw(x.book, id));
    InverseApart(x, z);
    DisownKeeps(z, id);
    var e := Canceled(id, Resting(x.book, id));
    RouteOne(z, origin, e);
    CanceledRoute(z, origin, e);
    var y := RunBook(x, origin, Cancel(id)).0;
    forall k: nat
      ensures k in y.owners <==> y.book.Holds(k)
    {
      WithdrawResidents(x.book, id, k);
    }
  }

  lemma CanceledRoute(x: Venue, origin: nat, e: Evt)
    requires e.Canceled?
    ensures Route(x, origin, e) == (Disown(x, e.id), [Addressed(origin, e)])
  {
  }

  ghost predicate Unique(ids: seq<nat>) {
    forall i, j :: 0 <= i < j < |ids| ==> ids[i] != ids[j]
  }

  lemma {:induction false} SortedIdsList(ids: set<nat>)
    ensures Unique(SortedIds(ids))
    ensures forall x :: x in SortedIds(ids) <==> x in ids
    ensures IdSet(SortedIds(ids)) == ids
    decreases |ids|
  {
    hide Least;
    if ids != {} {
      var l := Least(ids);
      SortedIdsList(ids - {l});
      var rest := SortedIds(ids - {l});
      assert SortedIds(ids) == [l] + rest;
      forall j | 0 <= j < |rest|
        ensures rest[j] != l
      {
        assert rest[j] in rest;
      }
    }
  }

  /** Every event is a cancellation, addressed to `session`, of an order that
      `x` says it owned. */
  ghost predicate OwnCancels(x: Venue, session: nat, out: seq<Addressed>) {
    forall i :: 0 <= i < |out| ==>
      && out[i].session == session && out[i].event.Canceled?
      && out[i].event.id in x.owners && x.owners[out[i].event.id] == session
  }

  function IdSet(ids: seq<nat>): set<nat> {
    if ids == [] then {} else {ids[0]} + IdSet(ids[1..])
  }

  /** Both indexes lost exactly `ids`. */
  ghost predicate Lost(x: Venue, y: Venue, ids: set<nat>) {
    && y.owners == x.owners - ids
    && (forall s: nat :: OwnedBy(y.owned, s) == OwnedBy(x.owned, s) - ids)
  }

  lemma LostOneThenRest(x: Venue, next: Venue, y: Venue, ids: seq<nat>)
    requires ids != [] && Lost(x, next, {ids[0]}) && Lost(next, y, IdSet(ids[1..]))
    ensures Lost(x, y, IdSet(ids))
  {
    forall s: nat
      ensures OwnedBy(y.owned, s) == OwnedBy(x.owned, s) - IdSet(ids)
    {
      assert OwnedBy(next.owned, s) == OwnedBy(x.owned, s) - {ids[0]};
    }
  }

  lemma LostIs(x: Venue, y: Venue, id: nat)
    requires y.owners == x.owners - {id}
    requires forall s: nat :: OwnedBy(y.owned, s) == OwnedBy(x.owned, s) - {id}
    ensures Lost(x, y, {id})
  {
  }

  lemma LostNone(x: Venue)
    ensures Lost(x, x, IdSet([]))
  {
    assert x.owners - {} == x.owners;
  }

  lemma {:induction false} CancelAllOk(x: Venue, session: nat, ids: seq<nat>)
    requires Ok(x) && Unique(ids)
    requires forall i :: 0 <= i < |ids| ==> ids[i] in OwnedBy(x.owned, session)
    ensures var (y, out) := CancelAll(x, session, ids);
            && Ok(y) && y.last == x.last
            && Lost(x, y, IdSet(ids))
            && OwnCancels(x, session, out) && |out| == |ids|
    decreases |ids|
  {
    hide Inv, Resident, RunBook, Lost, OwnedBy, Withdraw, Resting;
    if ids == [] {
      LostNone(x);
    } else {
      var id := ids[0];
      assert id in x.owners && x.owners[id] == session;
      CancelOk(x, session, id);
      var (next, out) := RunBook(x, session, Cancel(id));
      assert Lost(x, next, {id}) by { LostIs(x, next, id); }
      hide Inverse;
      CancelAllOk(next, session, ids[1..]);
      var (y, rest) := CancelAll(next, session, ids[1..]);
      LostOneThenRest(x, next, y, ids);
      assert forall k :: k in next.owners ==> k in x.owners && next.owners[k] == x.owners[k];
    }
  }

  lemma LostOwned(x: Venue, y: Venue, session: nat)
    requires Inverse(x) && Lost(x, y, OwnedBy(x.owned, session))
    ensures OwnedBy(y.owned, session) == {}
    ensures forall id :: id in y.owners <==> id in x.owners && x.owners[id] != session
  {
  }

  lemma CloseOk(x: Venue, session: nat)
    requires Ok(x)
    ensures var (y, out) := CloseSession(x, session);
            && Ok(y) && y.last == x.last
            && (forall id :: id in y.owners <==> id in x.owners && x.owners[id] != session)
            && OwnCancels(x, session, out)
  {
    hide Inv, CancelAll, SortedIds, Resident, Unique, Lost, Inverse, OwnCancels;
    var ids := SortedIds(OwnedBy(x.owned, session));
    SortedIdsList(OwnedBy(x.owned, session));
    CancelAllOk(x, session, ids);
    var (end, out) := CancelAll(x, session, ids);
    LostOwned(x, end, session);
    var y := CloseSession(x, session).0;
    forall s: nat
      ensures OwnedBy(y.owned, s) == OwnedBy(end.owned, s)
    {
    }
    InverseSame(end, y);
    ResidentSame(end, y);
  }

  lemma InverseSame(x: Venue, y: Venue)
    requires Inverse(x) && y.owners == x.owners
    requires forall s: nat :: OwnedBy(y.owned, s) == OwnedBy(x.owned, s)
    ensures Inverse(y)
  {
  }

  lemma ResidentSame(x: Venue, y: Venue)
    requires Resident(x) && y.owners == x.owners && y.book == x.book
    ensures Resident(y)
  {
  }

  lemma LastApart(x: Venue, last: map<nat, nat>)
    requires Ok(x)
    ensures Ok(x.(last := last))
  {
    InverseApart(x, x.(last := last));
  }

  /** Owner map, reverse index and book agree after every input. */
  lemma StepOk(x: Venue, input: ClientInput)
    requires Ok(x)
    ensures Ok(Step(x, input).0)
  {
    hide Ok, SubmitStep, RouteAll, CloseSession, CancelStep;
    match input {
      case SessionClosed(session) => CloseOk(x, session);
      case Client(session, clientSeq, cmd) =>
        LastApart(x, x.last[session := LastOf(x, session)]);
        LastApart(x, x.last[session := clientSeq]);
        var seen := x.(last := x.last[session := clientSeq]);
        match cmd {
          case Submit(id, side, price, qty) => SubmitOk(seen, session, id, side, price, qty, None);
          case SubmitGtd(id, side, price, qty, at) => SubmitOk(seen, session, id, side, price, qty, Some(at));
          case Cancel(id) => if id in seen.owners { CancelOk(seen, session, id); }
        }
    }
  }

  lemma {:induction false} RunOk(x: Venue, inputs: seq<ClientInput>)
    requires Ok(x)
    ensures Ok(RunAll(x, inputs).0)
    decreases |inputs|
  {
    hide Ok, Step;
    if inputs != [] {
      StepOk(x, inputs[0]);
      RunOk(Step(x, inputs[0]).0, inputs[1..]);
    }
  }

  lemma EveryRunOk(inputs: seq<ClientInput>)
    ensures Ok(RunAll(GENESIS, inputs).0)
  {
    hide RunAll, Ok;
    var x := GENESIS;
    EmptyOk(x);
    RunOk(x, inputs);
  }

  lemma EmptyOk(x: Venue)
    requires x.book.bids == [] && x.book.asks == [] && x.owners == map[] && x.owned == map[]
    requires x.book.accepted == 0 && x.book.traded == 0 && x.book.canceled == 0
    ensures Ok(x)
  {
  }

  // ----- only the owner cancels -----

  lemma {:induction false} RoutedEvents(x: Venue, origin: nat, events: seq<Evt>, i: nat)
    requires i < |RouteAll(x, origin, events).1|
    ensures RouteAll(x, origin, events).1[i].event in events
    decreases |events|
  {
    if events != [] {
      var (next, out) := Route(x, origin, events[0]);
      if i < |out| {
        assert out[i].event == events[0];
      } else {
        RoutedEvents(next, origin, events[1..], i - |out|);
      }
    }
  }

  lemma {:induction false} MatchTrades(side: Side, makers: seq<Order>, taker: nat, limit: nat, qty: nat)
    ensures AllTrades(Match(side, makers, taker, limit, qty).events)
  {
    MatchMakers(side, makers, taker, limit, qty, 0);
  }

  lemma SubmitNeverCancels(book: Flat, id: nat, side: Side, price: nat, qty: nat, expireAt: Option<nat>, e: Evt)
    requires e in SubmitStep(book, id, side, price, qty, expireAt).1.events
    ensures !e.Canceled?
  {
    MatchTrades(Opposite(side), book.On(Opposite(side)), id, price, qty);
  }

  /** In every reachable state: an order is cancelled only by a cancel from its
      owner's session or by its owner's session closing. */
  lemma OnlyOwnerCancels(x: Venue, input: ClientInput, i: nat)
    requires Ok(x) && i < |Step(x, input).1| && Step(x, input).1[i].event.Canceled?
    ensures var id := Step(x, input).1[i].event.id;
            && id in x.owners && x.owners[id] == input.session
            && (input.SessionClosed? || input.cmd == Cancel(id))
  {
    hide Ok, SubmitStep, CloseSession, CancelStep, RouteAll, Inv;
    match input {
      case SessionClosed(session) => CloseOk(x, session);
      case Client(session, clientSeq, cmd) =>
        LastApart(x, x.last[session := clientSeq]);
        var seen := x.(last := x.last[session := clientSeq]);
        match cmd {
          case Submit(id, side, price, qty) => SubmitOutputs(seen, session, id, side, price, qty, None, i);
          case SubmitGtd(id, side, price, qty, at) => SubmitOutputs(seen, session, id, side, price, qty, Some(at), i);
          case Cancel(id) => if id in seen.owners { CancelOk(seen, session, id); }
        }
    }
  }

  lemma SubmitOutputs(x: Venue, origin: nat, id: nat, side: Side, price: nat, qty: nat, expireAt: Option<nat>, i: nat)
    requires var (book, effect) := SubmitStep(x.book, id, side, price, qty, expireAt);
             i < |RouteAll(x.(book := book), origin, effect.events).1|
    ensures var (book, effect) := SubmitStep(x.book, id, side, price, qty, expireAt);
            !RouteAll(x.(book := book), origin, effect.events).1[i].event.Canceled?
  {
    hide SubmitStep, RouteAll;
    var (book, effect) := SubmitStep(x.book, id, side, price, qty, expireAt);
    RoutedEvents(x.(book := book), origin, effect.events, i);
    SubmitNeverCancels(x.book, id, side, price, qty, expireAt, RouteAll(x.(book := book), origin, effect.events).1[i].event);
  }

  // ----- states that behave alike -----

  /** Equal but for bookkeeping nobody can observe: sessions that own nothing,
      and sessions whose last client seq is 0. */
  ghost predicate Alike(x: Venue, y: Venue) {
    && x.book == y.book && x.owners == y.owners
    && (forall s: nat :: OwnedBy(x.owned, s) == OwnedBy(y.owned, s))
    && (forall s: nat :: LastOf(x, s) == LastOf(y, s))
  }

  lemma DisownAlike(x: Venue, y: Venue, id: nat)
    requires Alike(x, y)
    ensures Alike(Disown(x, id), Disown(y, id))
  {
    var a, b := Disown(x, id), Disown(y, id);
    forall s: nat
      ensures OwnedBy(a.owned, s) == OwnedBy(b.owned, s) && LastOf(a, s) == LastOf(b, s)
    {
      assert OwnedBy(x.owned, s) == OwnedBy(y.owned, s) && LastOf(x, s) == LastOf(y, s);
    }
  }

  lemma RouteAlike(x: Venue, y: Venue, origin: nat, e: Evt)
    requires Alike(x, y)
    ensures Alike(Route(x, origin, e).0, Route(y, origin, e).0)
    ensures Route(x, origin, e).1 == Route(y, origin, e).1
  {
    match e {
      case Trade(_, maker, _, _) => DisownAlike(x, y, maker);
      case Canceled(id, _) => DisownAlike(x, y, id);
      case Expired(id, _) => DisownAlike(x, y, id);
      case Rejected(_, _) =>
      case Accepted(id) =>
        var a, b := Route(x, origin, e).0, Route(y, origin, e).0;
        forall s: nat
          ensures OwnedBy(a.owned, s) == OwnedBy(b.owned, s) && LastOf(a, s) == LastOf(b, s)
        {
          assert OwnedBy(x.owned, s) == OwnedBy(y.owned, s) && LastOf(x, s) == LastOf(y, s);
        }
    }
  }

  lemma {:induction false} RouteAllAlike(x: Venue, y: Venue, origin: nat, events: seq<Evt>)
    requires Alike(x, y)
    ensures Alike(RouteAll(x, origin, events).0, RouteAll(y, origin, events).0)
    ensures RouteAll(x, origin, events).1 == RouteAll(y, origin, events).1
    decreases |events|
  {
    hide Alike, Route;
    if events != [] {
      RouteAlike(x, y, origin, events[0]);
      RouteAllAlike(Route(x, origin, events[0]).0, Route(y, origin, events[0]).0, origin, events[1..]);
    }
  }

  lemma RunBookAlike(x: Venue, y: Venue, origin: nat, cmd: Cmd)
    requires Alike(x, y)
    ensures Alike(RunBook(x, origin, cmd).0, RunBook(y, origin, cmd).0)
    ensures RunBook(x, origin, cmd).1 == RunBook(y, origin, cmd).1
  {
    var (book, effect) := Apply(x.book, cmd);
    BookAlike(x, y, book);
    hide Alike, Apply, RouteAll;
    RouteAllAlike(x.(book := book), y.(book := book), origin, effect.events);
    SameBook(x, y);
  }

  lemma SameBook(x: Venue, y: Venue)
    requires Alike(x, y)
    ensures x.book == y.book && x.owners == y.owners
  {
  }

  lemma BookAlike(x: Venue, y: Venue, book: Flat)
    requires Alike(x, y)
    ensures Alike(x.(book := book), y.(book := book))
  {
    forall s: nat
      ensures LastOf(x.(book := book), s) == LastOf(y.(book := book), s)
    {
      assert LastOf(x, s) == LastOf(y, s);
    }
  }

  lemma {:induction false} CancelAllAlike(x: Venue, y: Venue, session: nat, ids: seq<nat>)
    requires Alike(x, y)
    ensures Alike(CancelAll(x, session, ids).0, CancelAll(y, session, ids).0)
    ensures CancelAll(x, session, ids).1 == CancelAll(y, session, ids).1
    decreases |ids|
  {
    hide Alike, RunBook;
    if ids != [] {
      var cmd := Cancel(ids[0]);
      RunBookAlike(x, y, session, cmd);
      CancelAllAlike(RunBook(x, session, cmd).0, RunBook(y, session, cmd).0, session, ids[1..]);
    }
  }

  lemma SeenAlike(x: Venue, y: Venue, session: nat, n: nat)
    requires Alike(x, y)
    ensures Alike(x.(last := x.last[session := n]), y.(last := y.last[session := n]))
  {
    var a, b := x.(last := x.last[session := n]), y.(last := y.last[session := n]);
    forall s: nat
      ensures LastOf(a, s) == LastOf(b, s)
    {
      assert LastOf(x, s) == LastOf(y, s);
    }
  }

  lemma ClosedAlike(x: Venue, y: Venue, session: nat)
    requires Alike(x, y)
    ensures Alike(x.(owned := x.owned - {session}), y.(owned := y.owned - {session}))
  {
    var a, b := x.(owned := x.owned - {session}), y.(owned := y.owned - {session});
    forall s: nat
      ensures OwnedBy(a.owned, s) == OwnedBy(b.owned, s) && LastOf(a, s) == LastOf(b, s)
    {
      assert OwnedBy(x.owned, s) == OwnedBy(y.owned, s) && LastOf(x, s) == LastOf(y, s);
    }
  }

  /** Alike states answer every input with the same outputs and stay alike. */
  lemma StepAlike(x: Venue, y: Venue, input: ClientInput)
    requires Alike(x, y)
    ensures Alike(Step(x, input).0, Step(y, input).0)
    ensures Step(x, input).1 == Step(y, input).1
  {
    match input {
      case SessionClosed(session) =>
        assert OwnedBy(x.owned, session) == OwnedBy(y.owned, session);
        hide Alike, CancelAll, SortedIds;
        var ids := SortedIds(OwnedBy(x.owned, session));
        CancelAllAlike(x, y, session, ids);
        ClosedAlike(CancelAll(x, session, ids).0, CancelAll(y, session, ids).0, session);
      case Client(session, clientSeq, cmd) =>
        assert LastOf(x, session) == LastOf(y, session);
        SameBook(x, y);
        hide Alike, RunBook;
        SeenAlike(x, y, session, LastOf(x, session));
        SeenAlike(x, y, session, clientSeq);
        RunBookAlike(x.(last := x.last[session := clientSeq]), y.(last := y.last[session := clientSeq]), session, cmd);
    }
  }

  // ----- duplicates are harmless -----

  predicate Stale(x: Venue, input: ClientInput) {
    input.Client? && input.clientSeq <= LastOf(x, input.session)
  }

  /** A stale input says nothing, and changes the state exactly when it is the
      first contact of its session, which then gets an entry of 0. */
  lemma StaleIsNothing(x: Venue, input: ClientInput)
    requires Stale(x, input)
    ensures Step(x, input).1 == []
    ensures Alike(Step(x, input).0, x)
    ensures Step(x, input).0 == x <==> input.session in x.last
  {
    var y := Step(x, input).0;
    if input.session in x.last {
      assert y.last == x.last;
    } else {
      assert input.session in y.last;
    }
    forall s: nat
      ensures LastOf(y, s) == LastOf(x, s)
    {
    }
  }

  /** The inputs that are not stale when they arrive. */
  function Deduped(x: Venue, inputs: seq<ClientInput>): seq<ClientInput>
    decreases |inputs|
  {
    if inputs == [] then []
    else (if Stale(x, inputs[0]) then [] else [inputs[0]]) + Deduped(Step(x, inputs[0]).0, inputs[1..])
  }

  lemma RunFirst(x: Venue, input: ClientInput, rest: seq<ClientInput>)
    ensures var (next, out) := Step(x, input);
            var (end, more) := RunAll(next, rest);
            RunAll(x, [input] + rest) == (end, out + more)
  {
    hide Step;
    assert ([input] + rest)[1..] == rest;
  }

  /** Deleting the stale inputs of any trace changes no output, and no state
      that anyone can observe. */
  lemma {:induction false} DedupHarmless(x: Venue, y: Venue, inputs: seq<ClientInput>)
    requires Alike(x, y)
    ensures RunAll(y, Deduped(x, inputs)).1 == RunAll(x, inputs).1
    ensures Alike(RunAll(x, inputs).0, RunAll(y, Deduped(x, inputs)).0)
    decreases |inputs|
  {
    hide Alike, Step, Stale;
    if inputs != [] {
      var next := Step(x, inputs[0]).0;
      var rest := Deduped(next, inputs[1..]);
      if Stale(x, inputs[0]) {
        StaleIsNothing(x, inputs[0]);
        AlikeChain(next, x, y);
        DedupHarmless(next, y, inputs[1..]);
        assert [] + rest == rest;
        assert [] + RunAll(next, inputs[1..]).1 == RunAll(next, inputs[1..]).1;
      } else {
        StepAlike(x, y, inputs[0]);
        DedupHarmless(next, Step(y, inputs[0]).0, inputs[1..]);
        RunFirst(y, inputs[0], rest);
      }
    }
  }

  lemma AlikeChain(x: Venue, y: Venue, z: Venue)
    requires Alike(x, y) && Alike(y, z)
    ensures Alike(x, z)
  {
    forall s: nat
      ensures OwnedBy(x.owned, s) == OwnedBy(z.owned, s) && LastOf(x, s) == LastOf(z, s)
    {
      assert OwnedBy(y.owned, s) == OwnedBy(z.owned, s) && LastOf(y, s) == LastOf(z, s);
    }
  }

  /** When clients count from 1 the state is the same to the last entry. */
  lemma {:induction false} DedupExact(x: Venue, inputs: seq<ClientInput>)
    requires forall i :: 0 <= i < |inputs| && inputs[i].Client? ==> inputs[i].clientSeq >= 1
    ensures RunAll(x, Deduped(x, inputs)) == RunAll(x, inputs)
    decreases |inputs|
  {
    hide Step;
    if inputs != [] {
      var next := Step(x, inputs[0]).0;
      var rest := Deduped(next, inputs[1..]);
      DedupExact(next, inputs[1..]);
      if Stale(x, inputs[0]) {
        StaleIsNothing(x, inputs[0]);
        assert [] + rest == rest;
        assert [] + RunAll(next, inputs[1..]).1 == RunAll(next, inputs[1..]).1;
      } else {
        RunFirst(x, inputs[0], rest);
      }
    }
  }

  // ----- snapshots -----

  /** The reverse index as restoring rebuilds it, owner by owner. */
  function Rebuilt(owners: map<nat, nat>): map<nat, set<nat>>
    decreases |owners|
  {
    if owners.Keys == {} then map[]
    else
      var id := Greatest(owners.Keys);
      Without(owners, id);
      var below := Rebuilt(owners - {id});
      below[owners[id] := OwnedBy(below, owners[id]) + {id}]
  }

  lemma {:induction false} RebuiltInverse(owners: map<nat, nat>)
    ensures forall s: nat, id: nat :: id in OwnedBy(Rebuilt(owners), s) <==> id in owners && owners[id] == s
    ensures forall s :: s in Rebuilt(owners) ==> Rebuilt(owners)[s] != {}
    decreases |owners|
  {
    if owners.Keys != {} {
      hide Greatest;
      var id := Greatest(owners.Keys);
      Without(owners, id);
      RebuiltInverse(owners - {id});
      var below := Rebuilt(owners - {id});
      var all := Rebuilt(owners);
      assert all == below[owners[id] := OwnedBy(below, owners[id]) + {id}];
      forall s: nat, k: nat
        ensures k in OwnedBy(all, s) <==> k in owners && owners[k] == s
      {
        assert k in OwnedBy(below, s) <==> k in owners - {id} && (owners - {id})[k] == s;
      }
    }
  }

  function Restored(x: Venue): Venue {
    Venue(x.book, x.owners, Rebuilt(x.owners), x.last)
  }

  /** A restored venue behaves like the one that was snapshotted, and is the
      very same state exactly when no session is left owning nothing. */
  lemma RestoreAlike(x: Venue)
    requires Inverse(x)
    ensures Alike(Restored(x), x)
    ensures Restored(x) == x <==> forall s :: s in x.owned ==> x.owned[s] != {}
  {
    hide Rebuilt;
    RebuiltInverse(x.owners);
    var b := Rebuilt(x.owners);
    forall s: nat
      ensures OwnedBy(b, s) == OwnedBy(x.owned, s)
    {
      forall id: nat
        ensures id in OwnedBy(b, s) <==> id in OwnedBy(x.owned, s)
      {
        assert id in OwnedBy(b, s) <==> id in x.owners && x.owners[id] == s;
      }
    }
    if forall s :: s in x.owned ==> x.owned[s] != {} {
      SameMaps(b, x.owned);
    }
  }

  lemma SameMaps(a: map<nat, set<nat>>, b: map<nat, set<nat>>)
    requires forall s: nat :: OwnedBy(a, s) == OwnedBy(b, s)
    requires forall s :: s in a ==> a[s] != {}
    requires forall s :: s in b ==> b[s] != {}
    ensures a == b
  {
    forall s: nat
      ensures s in a <==> s in b
      ensures s in a ==> a[s] == b[s]
    {
      assert OwnedBy(a, s) == OwnedBy(b, s);
    }
  }


  lemma CancelKeepsEntry(x: Venue, session: nat, id: nat)
    requires Ok(x) && id in x.owners && x.owners[id] == session
    ensures session in RunBook(x, session, Cancel(id)).0.owned
  {
    assert id in OwnedBy(x.owned, session);
    hide Inverse, Inv, Withdraw, Resting;
    var z := x.(book := Withdraw(x.book, id));
    var e := Canceled(id, Resting(x.book, id));
    RouteOne(z, session, e);
  }

  /** Not every reachable state restores to itself: a session whose last order
      is cancelled keeps an empty entry, which the snapshot does not hold. */
  lemma LastOrderLeavesEntry(x: Venue, session: nat, clientSeq: nat, id: nat)
    requires Ok(x) && id in x.owners && x.owners[id] == session
    requires OwnedBy(x.owned, session) == {id} && clientSeq > LastOf(x, session)
    ensures var y := Step(x, Client(session, clientSeq, Cancel(id))).0;
            session in y.owned && y.owned[session] == {} && Restored(y) != y
  {
    var seen := x.(last := x.last[session := clientSeq]);
    LastApart(x, seen.last);
    CancelOk(seen, session, id);
    CancelKeepsEntry(seen, session, id);
    hide RunBook, Rebuilt, Inv, Resident, Withdraw;
    var y := Step(x, Client(session, clientSeq, Cancel(id))).0;
    assert OwnedBy(y.owned, session) == {};
    RestoreAlike(y);
  }
}
