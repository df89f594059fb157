/** The market's rules in plain integers: who trades with whom, at what price and
    up to which limit, what rests where, what is refused, and which expiries are
    armed. */
module BookRules {
  import opened Wrappers
  import opened TimerWheel
  import opened FlatBook

  // ----- trades -----

  /** The taker's limit: a buyer pays no more, a seller takes no less. */
  ghost predicate WithinLimit(taker: Side, price: nat, limit: nat) {
    (taker == Buy ==> price <= limit) && (taker == Sell ==> price >= limit)
  }

  ghost predicate BeyondLimit(taker: Side, price: nat, limit: nat) {
    (taker == Buy ==> price > limit) && (taker == Sell ==> price < limit)
  }

  /** Bids from the highest price down, asks from the lowest up. */
  ghost predicate BestFirst(side: Side, orders: seq<Order>) {
    forall i, j :: 0 <= i < j < |orders| ==>
      (side == Buy ==> orders[i].price >= orders[j].price) && (side == Sell ==> orders[i].price <= orders[j].price)
  }

  /** Event `i` is the taker's trade with the `i`-th maker, at the maker's price
      and within the limit; only the last trade may leave the maker something. */
  ghost predicate TradeAt(taker: Side, id: nat, limit: nat, makers: seq<Order>, events: seq<Evt>, i: nat) {
    && i < |events| <= |makers|
    && events[i].Trade?
    && events[i].taker == id && events[i].maker == makers[i].id && events[i].price == makers[i].price
    && WithinLimit(taker, events[i].price, limit)
    && 0 < events[i].qty <= makers[i].qty
    && (i < |events| - 1 ==> events[i].qty == makers[i].qty)
  }

  function Bought(events: seq<Evt>): nat {
    if events == [] then 0 else (if events[0].Trade? then events[0].qty else 0) + Bought(events[1..])
  }

  lemma TradesShift(taker: Side, id: nat, limit: nat, makers: seq<Order>, rest: seq<Evt>, first: Evt)
    requires makers != []
    requires forall i :: 0 <= i < |rest| ==> TradeAt(taker, id, limit, makers[1..], rest, i)
    requires |rest| <= |makers| - 1
    requires first == Trade(id, makers[0].id, makers[0].price, makers[0].qty) && makers[0].qty > 0
    requires WithinLimit(taker, makers[0].price, limit)
    ensures forall i :: 0 <= i < |rest| + 1 ==> TradeAt(taker, id, limit, makers, [first] + rest, i)
  {
    hide WithinLimit;
    var all := [first] + rest;
    forall i | 0 <= i < |all|
      ensures TradeAt(taker, id, limit, makers, all, i)
    {
      if i > 0 {
        assert TradeAt(taker, id, limit, makers[1..], rest, i - 1);
      }
    }
  }

  lemma CrossesWithin(taker: Side, price: nat, limit: nat)
    ensures Crosses(Opposite(taker), price, limit) <==> WithinLimit(taker, price, limit)
    ensures !Crosses(Opposite(taker), price, limit) <==> BeyondLimit(taker, price, limit)
  {
  }

  /** The trades of a taker, one by one, for any makers. */
  lemma {:induction false} TradesAre(taker: Side, makers: seq<Order>, id: nat, limit: nat, qty: nat)
    requires Live(makers)
    ensures var r := Match(Opposite(taker), makers, id, limit, qty);
            && |r.events| <= |makers|
            && (forall i :: 0 <= i < |r.events| ==> TradeAt(taker, id, limit, makers, r.events, i))
            && Bought(r.events) == r.traded && r.remaining + r.traded == qty
    decreases |makers|
  {
    hide Crosses, WithinLimit;
    if qty > 0 && makers != [] {
      CrossesWithin(taker, makers[0].price, limit);
      if Crosses(Opposite(taker), makers[0].price, limit) {
        var m := makers[0];
        if m.qty <= qty {
          TradesAre(taker, makers[1..], id, limit, qty - m.qty);
          var rest := Match(Opposite(taker), makers[1..], id, limit, qty - m.qty).events;
          TradesShift(taker, id, limit, makers, rest, Trade(id, m.id, m.price, m.qty));
          assert ([Trade(id, m.id, m.price, m.qty)] + rest)[1..] == rest;
        } else {
          assert [Trade(id, m.id, m.price, qty)][1..] == [];
        }
      }
    }
  }

  /** What is left of `makers` when the first `filled` are gone: the rest, or
      the rest with its head reduced by the last trade. */
  ghost predicate Left(makers: seq<Order>, r: MatchResult) {
    var filled := |r.timers|;
    && filled <= |r.events| <= filled + 1 && |r.events| <= |makers|
    && (forall i :: 0 <= i < filled ==> r.timers[i] == CancelTimer(makers[i].id) && r.events[i].Trade? && r.events[i].qty == makers[i].qty)
    && (|r.events| == filled ==> r.makers == makers[filled..])
    && (|r.events| > filled ==>
          var last := r.events[filled];
          && last.Trade? && last.qty < makers[filled].qty && r.remaining == 0
          && r.makers == [makers[filled].(qty := makers[filled].qty - last.qty)] + makers[filled + 1..])
  }

  lemma LeftShift(makers: seq<Order>, rest: MatchResult, first: Evt)
    requires makers != [] && Left(makers[1..], rest)
    requires first.Trade? && first.qty == makers[0].qty
    ensures Left(makers, rest.After([first], [CancelTimer(makers[0].id)], first.qty))
  {
    var r := rest.After([first], [CancelTimer(makers[0].id)], first.qty);
    var filled := |rest.timers|;
    assert makers[1..][filled..] == makers[filled + 1..];
    if |rest.events| > filled {
      assert makers[1..][filled + 1..] == makers[filled + 2..];
      assert r.events[filled + 1] == rest.events[filled];
    }
  }

  /** Who is left: the makers after those filled, the first of them perhaps
      reduced. Every maker filled has its timer cancelled, and no other has. */
  lemma {:induction false} LeftAre(taker: Side, makers: seq<Order>, id: nat, limit: nat, qty: nat)
    requires Live(makers)
    ensures Left(makers, Match(Opposite(taker), makers, id, limit, qty))
    decreases |makers|
  {
    hide Crosses;
    if qty > 0 && makers != [] && Crosses(Opposite(taker), makers[0].price, limit) {
      var m := makers[0];
      if m.qty <= qty {
        LeftAre(taker, makers[1..], id, limit, qty - m.qty);
        LeftShift(makers, Match(Opposite(taker), makers[1..], id, limit, qty - m.qty), Trade(id, m.id, m.price, m.qty));
      }
    }
  }

  /** A taker stops only when it is filled, the side is empty, or everything left
      is beyond its limit. */
  lemma StopsBeyond(taker: Side, makers: seq<Order>, id: nat, limit: nat, qty: nat)
    requires Live(makers) && BestFirst(Opposite(taker), makers)
    ensures var r := Match(Opposite(taker), makers, id, limit, qty);
            r.remaining > 0 ==> forall i :: 0 <= i < |r.makers| ==> BeyondLimit(taker, r.makers[i].price, limit)
  {
    hide Match;
    MatchLeaves(Opposite(taker), makers, id, limit, qty);
    var r := Match(Opposite(taker), makers, id, limit, qty);
    if r.remaining > 0 && r.makers != [] {
      CrossesWithin(taker, r.makers[0].price, limit);
    }
  }

  // ----- where orders rest -----

  lemma SortedIsBestFirst(side: Side, orders: seq<Order>)
    requires Sorted(side, orders)
    ensures BestFirst(side, orders)
  {
    forall i, j | 0 <= i < j < |orders|
      ensures (side == Buy ==> orders[i].price >= orders[j].price) && (side == Sell ==> orders[i].price <= orders[j].price)
    {
      assert !Better(side, orders[j].price, orders[i].price);
    }
  }

  /** In every run bids rest from the highest price down and asks from the lowest
      up, and every bid is below every ask. */
  lemma EveryRunBestFirst(inputs: seq<Input>)
    ensures var book := Run(EMPTY, inputs).0;
            && BestFirst(Buy, book.bids) && BestFirst(Sell, book.asks)
            && forall i, j :: 0 <= i < |book.bids| && 0 <= j < |book.asks| ==> book.bids[i].price < book.asks[j].price
  {
    hide Run, Conserved, Live, Distinct, Disjoint, BestFirst;
    EveryRunSound(inputs);
    var book := Run(EMPTY, inputs).0;
    SortedIsBestFirst(Buy, book.bids);
    SortedIsBestFirst(Sell, book.asks);
  }

  /** `next` is `orders` with `o` put behind every order at least as good and
      before every worse one. */
  ghost predicate RestsAt(side: Side, orders: seq<Order>, o: Order, next: seq<Order>, k: nat) {
    && k <= |orders| && next == orders[..k] + [o] + orders[k..]
    && (forall i :: 0 <= i < k ==>
          (side == Buy ==> orders[i].price >= o.price) && (side == Sell ==> orders[i].price <= o.price))
    && (forall i :: k <= i < |orders| ==>
          (side == Buy ==> orders[i].price < o.price) && (side == Sell ==> orders[i].price > o.price))
  }

  ghost predicate RestsIn(side: Side, orders: seq<Order>, o: Order, next: seq<Order>) {
    exists k: nat :: RestsAt(side, orders, o, next, k)
  }

  lemma RestPlace(side: Side, orders: seq<Order>, o: Order)
    requires Sorted(side, orders)
    ensures RestsIn(side, orders, o, Rest(side, orders, o))
  {
    hide Rest;
    var k := RestPosition(side, orders, o);
    assert RestsAt(side, orders, o, Rest(side, orders, o), k);
  }

  // ----- a submission, from its refusal to its last share -----

  /** A refused submission says why and changes nothing. */
  lemma RefusedIff(book: Flat, id: nat, side: Side, price: nat, qty: nat, expireAt: Option<nat>)
    ensures var (next, effect) := SubmitStep(book, id, side, price, qty, expireAt);
            && (qty == 0 ==> next == book && effect == Effect([Rejected(id, ZeroQty)], []))
            && (qty > 0 && book.Holds(id) ==> next == book && effect == Effect([Rejected(id, DuplicateId)], []))
            && (qty > 0 && !book.Holds(id) ==> |effect.events| > 0 && effect.events[0] == Accepted(id))
  {
    hide Match, Rest;
  }

  /** An accepted one: its acceptance, then its trades in order, each at the
      maker's price and within its limit. What is not traded rests behind
      everything at least as good, once everything left opposite is beyond the
      limit, and arms its expiry if it has one. */
  lemma AcceptedRules(book: Flat, id: nat, side: Side, price: nat, qty: nat, expireAt: Option<nat>)
    requires Inv(book) && qty > 0 && !book.Holds(id)
    ensures var (next, effect) := SubmitStep(book, id, side, price, qty, expireAt);
            var makers := book.On(Opposite(side));
            var trades := effect.events[1..];
            var left := qty - Bought(trades);
            && effect.events[0] == Accepted(id)
            && |trades| <= |makers| && (forall i :: 0 <= i < |trades| ==> TradeAt(side, id, price, makers, trades, i))
            && left >= 0
            && next.accepted == book.accepted + qty && next.traded == book.traded + Bought(trades) && next.canceled == book.canceled
            && (left == 0 ==> next.On(side) == book.On(side))
            && (left > 0 ==>
                  && RestsIn(side, book.On(side), Order(id, price, left), next.On(side))
                  && (forall i :: 0 <= i < |next.On(Opposite(side))| ==> BeyondLimit(side, next.On(Opposite(side))[i].price, price)))
  {
    hide Match, Rest, Sorted, RestsIn, BestFirst, WithinLimit, BeyondLimit, Uncrossed, Disjoint, Conserved, TradeAt;
    var makers := book.On(Opposite(side));
    var m := Match(Opposite(side), makers, id, price, qty);
    TradesAre(side, makers, id, price, qty);
    SortedIsBestFirst(Opposite(side), makers);
    StopsBeyond(side, makers, id, price, qty);
    var (next, effect) := SubmitStep(book, id, side, price, qty, expireAt);
    assert effect.events == [Accepted(id)] + m.events;
    assert effect.events[1..] == m.events;
    if m.remaining > 0 {
      var o := Order(id, price, m.remaining);
      RestPlace(side, book.On(side), o);
      assert next.On(side) == Rest(side, book.On(side), o) && next.On(Opposite(side)) == m.makers;
    }
  }

  /** Its makers and its timers: exactly the makers filled leave, each with its
      timer; its own expiry is armed last, if it rests and has one. */
  lemma AcceptedLeaves(book: Flat, id: nat, side: Side, price: nat, qty: nat, expireAt: Option<nat>)
    requires Inv(book) && qty > 0 && !book.Holds(id)
    ensures var (next, effect) := SubmitStep(book, id, side, price, qty, expireAt);
            var makers := book.On(Opposite(side));
            var trades := effect.events[1..];
            var left: nat := qty - (if Bought(trades) <= qty then Bought(trades) else qty);
            exists r: MatchResult ::
              && Left(makers, r) && r.events == trades && r.makers == next.On(Opposite(side)) && r.remaining == left
              && effect.timers == r.timers + if left > 0 && expireAt.Some? then [SetTimer(id, expireAt.value)] else []
  {
    hide Match, Rest, Left, Sorted, Uncrossed, Disjoint, Conserved;
    var makers := book.On(Opposite(side));
    var m := Match(Opposite(side), makers, id, price, qty);
    TradesAre(side, makers, id, price, qty);
    LeftAre(side, makers, id, price, qty);
    var (next, effect) := SubmitStep(book, id, side, price, qty, expireAt);
    assert effect.events == [Accepted(id)] + m.events;
    assert effect.events[1..] == m.events;
    assert m.timers + [] == m.timers;
  }

  // ----- cancels and expiries -----

  /** `next` is `book` without its `k`-th order on `side`, whose shares have
      become canceled. */
  ghost predicate TakenOff(book: Flat, next: Flat, side: Side, k: nat) {
    && k < |book.On(side)|
    && next == book.With(side, book.On(side)[..k] + book.On(side)[k + 1..]).(canceled := book.canceled + book.On(side)[k].qty)
  }

  lemma WithdrawTakes(book: Flat, id: nat) returns (side: Side, k: nat)
    requires book.Holds(id)
    ensures TakenOff(book, Withdraw(book, id), side, k)
    ensures book.On(side)[k].id == id && book.On(side)[k].qty == Resting(book, id)
  {
    hide Remove, QtyOf, Listed;
    side := if Listed(book.bids, id) then Buy else Sell;
    k := RemovePosition(book.On(side), id);
  }

  /** A cancel takes exactly that order off and reports what was left of it; an
      unknown id is refused and nothing changes. */
  lemma CancelRules(book: Flat, id: nat)
    ensures var (next, effect) := Apply(book, Cancel(id));
            && (!book.Holds(id) ==> next == book && effect == Effect([Rejected(id, UnknownOrder)], []))
            && (book.Holds(id) ==> exists side, k: nat ::
                  && TakenOff(book, next, side, k) && book.On(side)[k].id == id
                  && effect == Effect([Canceled(id, book.On(side)[k].qty)], [CancelTimer(id)]))
  {
    hide Withdraw, Resting;
    if book.Holds(id) {
      var side, k := WithdrawTakes(book, id);
    }
  }

  /** An expiry likewise, and it is silent when the order has gone. */
  lemma ExpiryRules(book: Flat, id: nat)
    ensures var (next, effect) := TimerStep(book, id);
            && (!book.Holds(id) ==> next == book && effect == Effect([], []))
            && (book.Holds(id) ==> exists side, k: nat ::
                  && TakenOff(book, next, side, k) && book.On(side)[k].id == id
                  && effect == Effect([Expired(id, book.On(side)[k].qty)], []))
  {
    hide Withdraw, Resting;
    if book.Holds(id) {
      var side, k := WithdrawTakes(book, id);
    }
  }

  // ----- which expiries are armed -----

  lemma {:induction false} ArmedCancels(ids: set<nat>, reqs: seq<TimerReq>, x: nat)
    requires forall i :: 0 <= i < |reqs| ==> reqs[i].CancelTimer?
    ensures x in Armed(ids, reqs) <==> x in ids && forall i :: 0 <= i < |reqs| ==> reqs[i].id != x
    decreases |reqs|
  {
    if reqs != [] {
      ArmedCancels(ids - {reqs[0].id}, reqs[1..], x);
      if x in ids && reqs[0].id != x && forall i :: 0 <= i < |reqs[1..]| ==> reqs[1..][i].id != x {
        forall i | 0 <= i < |reqs|
          ensures reqs[i].id != x
        {
          if i > 0 {
            assert reqs[1..][i - 1].id != x;
          }
        }
      }
    }
  }

  /** A filled maker is nowhere on the book afterwards. */
  lemma FilledGone(book: Flat, side: Side, r: MatchResult, i: nat, rested: seq<Order>)
    requires Inv(book) && Left(book.On(Opposite(side)), r) && i < |r.timers|
    requires forall j :: 0 <= j < |rested| ==> rested[j] in book.On(side) || rested[j].id != book.On(Opposite(side))[i].id
    ensures var x := book.On(Opposite(side))[i].id; !Listed(r.makers, x) && !Listed(rested, x)
  {
    hide Conserved, Uncrossed, Sorted, Live;
    var makers := book.On(Opposite(side));
    var x, filled := makers[i].id, |r.timers|;
    forall j | 0 <= j < |r.makers|
      ensures r.makers[j].id != x
    {
      assert r.makers[j].id == makers[filled + j].id;
    }
    forall j | 0 <= j < |rested|
      ensures rested[j].id != x
    {
      if rested[j] in book.On(side) {
        var k :| 0 <= k < |book.On(side)| && book.On(side)[k] == rested[j];
      }
    }
  }

  /** The book after an accepted submission, side by side. */
  lemma SubmitSides(book: Flat, id: nat, side: Side, price: nat, qty: nat, expireAt: Option<nat>)
    requires qty > 0 && !book.Holds(id)
    ensures var (next, effect) := SubmitStep(book, id, side, price, qty, expireAt);
            var m := Match(Opposite(side), book.On(Opposite(side)), id, price, qty);
            && next.On(Opposite(side)) == m.makers
            && next.On(side) == (if m.remaining == 0 then book.On(side) else Rest(side, book.On(side), Order(id, price, m.remaining)))
            && effect.timers == m.timers + (if m.remaining > 0 && expireAt.Some? then [SetTimer(id, expireAt.value)] else [])
            && (forall x :: next.Holds(x) <==> Listed(next.On(side), x) || Listed(next.On(Opposite(side)), x))
  {
    hide Match, Rest, Listed;
    var m := Match(Opposite(side), book.On(Opposite(side)), id, price, qty);
    assert m.timers + [] == m.timers;
  }

  /** It rests exactly when something is left of it. */
  lemma RestsIffLeft(book: Flat, id: nat, side: Side, price: nat, qty: nat, expireAt: Option<nat>)
    requires Inv(book) && qty > 0 && !book.Holds(id)
    ensures SubmitStep(book, id, side, price, qty, expireAt).0.Holds(id)
            <==> Match(Opposite(side), book.On(Opposite(side)), id, price, qty).remaining > 0
  {
    hide SubmitStep, Match, Rest, Sorted, Uncrossed, Disjoint, Conserved;
    var makers := book.On(Opposite(side));
    var m := Match(Opposite(side), makers, id, price, qty);
    SubmitSides(book, id, side, price, qty, expireAt);
    MatchLeaves(Opposite(side), makers, id, price, qty);
    if m.remaining > 0 {
      RestLists(side, book.On(side), Order(id, price, m.remaining), id);
    }
  }

  lemma RestedFrom(book: Flat, id: nat, side: Side, price: nat, left: nat, j: nat)
    requires Inv(book) && j < |Rest(side, book.On(side), Order(id, price, left))|
    ensures var o := Rest(side, book.On(side), Order(id, price, left))[j]; o in book.On(side) || o.id == id
  {
    hide Rest;
    RestMembers(side, book.On(side), Order(id, price, left), j);
  }

  /** The timers cancelled are those of orders that have left. */
  lemma CancelledLeft(book: Flat, id: nat, side: Side, price: nat, qty: nat, expireAt: Option<nat>, i: nat)
    requires Inv(book) && qty > 0 && !book.Holds(id)
    requires i < |Match(Opposite(side), book.On(Opposite(side)), id, price, qty).timers|
    ensures var t := Match(Opposite(side), book.On(Opposite(side)), id, price, qty).timers[i];
            t.CancelTimer? && !SubmitStep(book, id, side, price, qty, expireAt).0.Holds(t.id)
  {
    hide SubmitStep, Match, Rest, Sorted, Uncrossed, Disjoint, Conserved;
    var makers := book.On(Opposite(side));
    var m := Match(Opposite(side), makers, id, price, qty);
    var next := SubmitStep(book, id, side, price, qty, expireAt).0;
    SubmitSides(book, id, side, price, qty, expireAt);
    LeftAre(side, makers, id, price, qty);
    assert makers[i].id != id;
    forall j | 0 <= j < |next.On(side)|
      ensures next.On(side)[j] in book.On(side) || next.On(side)[j].id != makers[i].id
    {
      if m.remaining > 0 {
        RestedFrom(book, id, side, price, m.remaining, j);
      }
    }
    FilledGone(book, side, m, i, next.On(side));
  }

  /** The ids an accepted submission arms anew. */
  function NewlyArmed(next: Flat, id: nat, expireAt: Option<nat>): set<nat> {
    if expireAt.Some? && next.Holds(id) then {id} else {}
  }

  /** After an accepted submission the armed ids are those that were armed and
      still rest, and its own if it rests and expires. */
  lemma SubmitArmsExactly(book: Flat, ids: set<nat>, id: nat, side: Side, price: nat, qty: nat, expireAt: Option<nat>)
    requires Inv(book) && ArmedRest(book, ids) && qty > 0 && !book.Holds(id)
    ensures var (next, effect) := SubmitStep(book, id, side, price, qty, expireAt);
            Armed(ids, effect.timers) == (set x | x in ids && next.Holds(x)) + NewlyArmed(next, id, expireAt)
  {
    hide Inv, Match, SubmitStep, Rest, Listed;
    var m := Match(Opposite(side), book.On(Opposite(side)), id, price, qty);
    var (next, effect) := SubmitStep(book, id, side, price, qty, expireAt);
    var own := if m.remaining > 0 && expireAt.Some? then [SetTimer(id, expireAt.value)] else [];
    SubmitSides(book, id, side, price, qty, expireAt);
    RestsIffLeft(book, id, side, price, qty, expireAt);
    SubmitArms(book, ids, id, side, price, qty, expireAt);
    ArmedAppend(ids, m.timers, own);
    assert own != [] ==> own[1..] == [];
    assert Armed(ids, effect.timers) == Armed(ids, m.timers) + NewlyArmed(next, id, expireAt);
    forall i | 0 <= i < |m.timers|
      ensures m.timers[i].CancelTimer? && !next.Holds(m.timers[i].id)
    {
      CancelledLeft(book, id, side, price, qty, expireAt, i);
    }
    forall x
      ensures x in Armed(ids, m.timers) <==> x in ids && forall i :: 0 <= i < |m.timers| ==> m.timers[i].id != x
    {
      ArmedCancels(ids, m.timers, x);
    }
  }

  /** What an input arms anew: a good-till-date order that is accepted and rests. */
  function ArmsNew(book: Flat, input: Input): set<nat> {
    if input.Command? && input.cmd.SubmitGtd? && input.cmd.qty > 0 && !book.Holds(input.cmd.id)
       && Step(book, input).0.Holds(input.cmd.id)
    then {input.cmd.id} else {}
  }

  /** Every input, a firing included: an expiry stays armed exactly as long as
      its order rests, and is armed exactly for a good-till-date order that
      comes to rest. */
  lemma ArmedExactly(book: Flat, ids: set<nat>, input: Input)
    requires Inv(book) && ArmedRest(book, ids)
    ensures ArmedAfter(ids, book, input) == (set x | x in ids && Step(book, input).0.Holds(x)) + ArmsNew(book, input)
  {
    hide Inv, SubmitStep, Withdraw;
    ArmedStaysResting(book, ids, input);
    match input {
      case Command(Submit(id, side, price, qty)) =>
        RefusedIff(book, id, side, price, qty, None);
        if qty > 0 && !book.Holds(id) {
          SubmitArmsExactly(book, ids, id, side, price, qty, None);
        }
      case Command(SubmitGtd(id, side, price, qty, at)) =>
        RefusedIff(book, id, side, price, qty, Some(at));
        if qty > 0 && !book.Holds(id) {
          SubmitArmsExactly(book, ids, id, side, price, qty, Some(at));
        }
      case Command(Cancel(id)) =>
        WithdrawArms(book, ids, id);
        if book.Holds(id) { WithdrawKeeps(book, id); }
      case Fired(id) =>
        if book.Holds(id) { WithdrawKeeps(book, id); }
    }
  }
}
