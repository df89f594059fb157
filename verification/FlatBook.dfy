/** The order book as a reader would specify it: one flat list per side, best
    price first and earliest arrival first within a price. A taker trades
    with the head, at the head's price, until its limit or quantity stops it;
    the remainder rests behind everything at least as good. */
module FlatBook {
  import opened Wrappers
  import opened TimerWheel

  datatype Side = Buy | Sell

  datatype Cmd =
    | Submit(id: nat, side: Side, price: nat, qty: nat)
    | SubmitGtd(id: nat, side: Side, price: nat, qty: nat, expireAt: nat)
    | Cancel(id: nat)

  datatype Reject = ZeroQty | DuplicateId | UnknownOrder

  datatype Evt =
    | Accepted(id: nat)
    | Trade(taker: nat, maker: nat, price: nat, qty: nat)
    | Canceled(id: nat, remaining: nat)
    | Expired(id: nat, remaining: nat)
    | Rejected(id: nat, reason: Reject)

  datatype Order = Order(id: nat, price: nat, qty: nat)

  datatype Flat = Flat(bids: seq<Order>, asks: seq<Order>, accepted: nat, traded: nat, canceled: nat) {
    function On(side: Side): seq<Order> {
      match side case Buy => bids case Sell => asks
    }
    function With(side: Side, orders: seq<Order>): Flat {
      match side case Buy => this.(bids := orders) case Sell => this.(asks := orders)
    }
    predicate Holds(id: nat) {
      Listed(bids, id) || Listed(asks, id)
    }
  }

  datatype Effect = Effect(events: seq<Evt>, timers: seq<TimerReq>)

  function Opposite(side: Side): Side {
    match side case Buy => Sell case Sell => Buy
  }

  /** `p` has strictly higher priority than `q` on `side`. */
  predicate Better(side: Side, p: nat, q: nat) {
    match side case Buy => p > q case Sell => p < q
  }

  /** A taker limited at `limit` may trade with a maker at `price`. */
  predicate Crosses(makers: Side, price: nat, limit: nat) {
    match makers case Buy => price >= limit case Sell => price <= limit
  }

  predicate Listed(orders: seq<Order>, id: nat) {
    exists i :: 0 <= i < |orders| && orders[i].id == id
  }

  datatype MatchResult = MatchResult(
    makers: seq<Order>, remaining: nat, events: seq<Evt>, timers: seq<TimerReq>, traded: nat)
  {
    /** The same result, preceded by what already happened. */
    function After(evts: seq<Evt>, reqs: seq<TimerReq>, shares: nat): MatchResult {
      MatchResult(makers, remaining, evts + events, reqs + timers, shares + traded)
    }
  }

  function Match(side: Side, makers: seq<Order>, taker: nat, limit: nat, qty: nat): (r: MatchResult)
    decreases |makers|
  {
    if qty == 0 || makers == [] || !Crosses(side, makers[0].price, limit)
    then MatchResult(makers, qty, [], [], 0)
    else
      var m := makers[0];
      if m.qty <= qty then
        Match(side, makers[1..], taker, limit, qty - m.qty)
          .After([Trade(taker, m.id, m.price, m.qty)], [CancelTimer(m.id)], m.qty)
      else
        MatchResult([m.(qty := m.qty - qty)] + makers[1..], 0, [Trade(taker, m.id, m.price, qty)], [], qty)
  }

  /** Rest behind every order at least as good. */
  function Rest(side: Side, orders: seq<Order>, o: Order): (r: seq<Order>) {
    if orders == [] || Better(side, o.price, orders[0].price) then [o] + orders
    else [orders[0]] + Rest(side, orders[1..], o)
  }

  function Remove(orders: seq<Order>, id: nat): (r: seq<Order>) {
    if orders == [] then []
    else if orders[0].id == id then orders[1..]
    else [orders[0]] + Remove(orders[1..], id)
  }

  function QtyOf(orders: seq<Order>, id: nat): nat {
    if orders == [] then 0
    else if orders[0].id == id then orders[0].qty
    else QtyOf(orders[1..], id)
  }

  function SubmitStep(book: Flat, id: nat, side: Side, price: nat, qty: nat, expireAt: Option<nat>): (r: (Flat, Effect)) {
    if qty == 0 then (book, Effect([Rejected(id, ZeroQty)], []))
    else if book.Holds(id) then (book, Effect([Rejected(id, DuplicateId)], []))
    else
      var m := Match(Opposite(side), book.On(Opposite(side)), id, price, qty);
      var matched := book.With(Opposite(side), m.makers).(accepted := book.accepted + qty, traded := book.traded + m.traded);
      if m.remaining == 0 then (matched, Effect([Accepted(id)] + m.events, m.timers))
      else
        var rested := matched.With(side, Rest(side, matched.On(side), Order(id, price, m.remaining)));
        (rested, Effect([Accepted(id)] + m.events,
                        m.timers + if expireAt.Some? then [SetTimer(id, expireAt.value)] else []))
  }

  /** Take a resting order off the book; its shares become canceled. */
  function Withdraw(book: Flat, id: nat): Flat {
    var side := if Listed(book.bids, id) then Buy else Sell;
    book.With(side, Remove(book.On(side), id)).(canceled := book.canceled + Resting(book, id))
  }

  function Resting(book: Flat, id: nat): nat {
    if Listed(book.bids, id) then QtyOf(book.bids, id) else QtyOf(book.asks, id)
  }

  function CancelStep(book: Flat, id: nat): (r: (Flat, Effect)) {
    if !book.Holds(id) then (book, Effect([Rejected(id, UnknownOrder)], []))
    else (Withdraw(book, id), Effect([Canceled(id, Resting(book, id))], [CancelTimer(id)]))
  }

  /** A good-till-date order's expiry fired. */
  function TimerStep(book: Flat, id: nat): (r: (Flat, Effect)) {
    if !book.Holds(id) then (book, Effect([], []))
    else (Withdraw(book, id), Effect([Expired(id, Resting(book, id))], []))
  }

  function Apply(book: Flat, cmd: Cmd): (r: (Flat, Effect)) {
    match cmd
    case Submit(id, side, price, qty) => SubmitStep(book, id, side, price, qty, None)
    case SubmitGtd(id, side, price, qty, expireAt) => SubmitStep(book, id, side, price, qty, Some(expireAt))
    case Cancel(id) => CancelStep(book, id)
  }

  const EMPTY := Flat([], [], 0, 0, 0)

  /** A book input: a command, or a timer that fired. */
  datatype Input = Command(cmd: Cmd) | Fired(id: nat)

  function Step(book: Flat, input: Input): (r: (Flat, Effect)) {
    match input
    case Command(cmd) => Apply(book, cmd)
    case Fired(id) => TimerStep(book, id)
  }

  function Run(book: Flat, inputs: seq<Input>): (r: (Flat, seq<Evt>))
    decreases |inputs|
  {
    if inputs == [] then (book, [])
    else
      var (next, effect) := Step(book, inputs[0]);
      var (end, events) := Run(next, inputs[1..]);
      (end, effect.events + events)
  }

  // ----- invariants of every run -----

  ghost predicate Sorted(side: Side, orders: seq<Order>) {
    forall i, j :: 0 <= i < j < |orders| ==> !Better(side, orders[j].price, orders[i].price)
  }

  ghost predicate Distinct(orders: seq<Order>) {
    forall i, j :: 0 <= i < j < |orders| ==> orders[i].id != orders[j].id
  }

  ghost predicate Live(orders: seq<Order>) {
    forall i :: 0 <= i < |orders| ==> orders[i].qty > 0
  }

  ghost predicate SideOk(side: Side, orders: seq<Order>) {
    Sorted(side, orders) && Distinct(orders) && Live(orders)
  }

  /** No bid reaches any ask. */
  ghost predicate Uncrossed(bids: seq<Order>, asks: seq<Order>) {
    forall i, j :: 0 <= i < |bids| && 0 <= j < |asks| ==> bids[i].price < asks[j].price
  }

  ghost predicate Disjoint(bids: seq<Order>, asks: seq<Order>) {
    forall i, j :: 0 <= i < |bids| && 0 <= j < |asks| ==> bids[i].id != asks[j].id
  }

  function Shares(orders: seq<Order>): nat {
    if orders == [] then 0 else orders[0].qty + Shares(orders[1..])
  }

  /** Every accepted share is traded (counted for both sides), canceled or
      still resting. */
  ghost predicate Conserved(book: Flat) {
    book.accepted == 2 * book.traded + book.canceled + Shares(book.bids) + Shares(book.asks)
  }

  ghost predicate Inv(book: Flat) {
    && SideOk(Buy, book.bids)
    && SideOk(Sell, book.asks)
    && Uncrossed(book.bids, book.asks)
    && Disjoint(book.bids, book.asks)
    && Conserved(book)
  }

  // ----- matching -----

  /** Every share the taker gives up, the makers give up too. */
  lemma {:induction false} MatchShares(side: Side, makers: seq<Order>, taker: nat, limit: nat, qty: nat)
    ensures var r := Match(side, makers, taker, limit, qty);
            && r.remaining + r.traded == qty
            && Shares(r.makers) + r.traded == Shares(makers)
    decreases |makers|
  {
    hide Crosses;
    if qty > 0 && makers != [] && Crosses(side, makers[0].price, limit) {
      var m := makers[0];
      if m.qty <= qty {
        MatchShares(side, makers[1..], taker, limit, qty - m.qty);
      } else {
        assert ([m.(qty := m.qty - qty)] + makers[1..])[1..] == makers[1..];
      }
    }
  }

  /** `rest` keeps the ids and prices of the last |rest| of `makers`. */
  ghost predicate SuffixOf(rest: seq<Order>, makers: seq<Order>) {
    && |rest| <= |makers|
    && (forall i :: 0 <= i < |rest| ==>
          && rest[i].id == makers[|makers| - |rest| + i].id
          && rest[i].price == makers[|makers| - |rest| + i].price)
  }

  lemma SuffixOfTail(rest: seq<Order>, makers: seq<Order>)
    requires makers != [] && SuffixOf(rest, makers[1..])
    ensures SuffixOf(rest, makers)
  {
    forall i | 0 <= i < |rest|
      ensures rest[i].id == makers[|makers| - |rest| + i].id
      ensures rest[i].price == makers[|makers| - |rest| + i].price
    {
      assert makers[|makers| - |rest| + i] == makers[1..][|makers| - 1 - |rest| + i];
    }
  }

  lemma SuffixReduced(makers: seq<Order>, q: nat)
    ensures SuffixOf(makers, makers)
    ensures makers != [] ==> SuffixOf([makers[0].(qty := q)] + makers[1..], makers)
  {
  }

  /** What matching leaves: a suffix of the makers, its head perhaps reduced. */
  lemma {:induction false} MatchLeaves(side: Side, makers: seq<Order>, taker: nat, limit: nat, qty: nat)
    requires Live(makers)
    ensures var r := Match(side, makers, taker, limit, qty);
            && SuffixOf(r.makers, makers)
            && Live(r.makers)
            && (r.remaining > 0 && r.makers != [] ==> !Crosses(side, r.makers[0].price, limit))
    decreases |makers|
  {
    hide Crosses, SuffixOf;
    if qty > 0 && makers != [] && Crosses(side, makers[0].price, limit) {
      var m := makers[0];
      if m.qty <= qty {
        MatchLeaves(side, makers[1..], taker, limit, qty - m.qty);
        SuffixOfTail(Match(side, makers[1..], taker, limit, qty - m.qty).makers, makers);
      } else {
        SuffixReduced(makers, m.qty - qty);
      }
    } else {
      SuffixReduced(makers, 0);
    }
  }

  lemma MatchKeepsSide(side: Side, makers: seq<Order>, taker: nat, limit: nat, qty: nat)
    requires SideOk(side, makers)
    ensures SideOk(side, Match(side, makers, taker, limit, qty).makers)
  {
    MatchLeaves(side, makers, taker, limit, qty);
    hide Match;
  }

  // ----- resting -----

  /** Resting inserts one order and moves nothing else. */
  lemma {:induction false} RestPosition(side: Side, orders: seq<Order>, o: Order) returns (k: nat)
    requires Sorted(side, orders)
    ensures k <= |orders|
    ensures Rest(side, orders, o) == orders[..k] + [o] + orders[k..]
    ensures forall i :: 0 <= i < k ==> !Better(side, o.price, orders[i].price)
    ensures forall i :: k <= i < |orders| ==> Better(side, o.price, orders[i].price)
  {
    if orders == [] || Better(side, o.price, orders[0].price) {
      k := 0;
      assert orders[..0] + [o] + orders[0..] == [o] + orders;
    } else {
      var j := RestPosition(side, orders[1..], o);
      k := j + 1;
      assert orders[..k] + [o] + orders[k..] == [orders[0]] + (orders[1..][..j] + [o] + orders[1..][j..]);
    }
  }

  lemma RestKeepsSide(side: Side, orders: seq<Order>, o: Order)
    requires SideOk(side, orders)
    requires o.qty > 0
    requires !Listed(orders, o.id)
    ensures SideOk(side, Rest(side, orders, o))
  {
    var k := RestPosition(side, orders, o);
    hide Rest;
  }

  lemma {:induction false} SharesAppend(a: seq<Order>, b: seq<Order>)
    ensures Shares(a + b) == Shares(a) + Shares(b)
  {
    if a == [] {
      assert a + b == b;
    } else {
      assert (a + b)[1..] == a[1..] + b;
      SharesAppend(a[1..], b);
    }
  }

  lemma RestShares(side: Side, orders: seq<Order>, o: Order)
    requires Sorted(side, orders)
    ensures Shares(Rest(side, orders, o)) == Shares(orders) + o.qty
  {
    var k := RestPosition(side, orders, o);
    SharesAppend(orders[..k] + [o], orders[k..]);
    SharesAppend(orders[..k], [o]);
    SharesAppend(orders[..k], orders[k..]);
    assert orders[..k] + orders[k..] == orders;
  }

  // ----- removing -----

  lemma {:induction false} RemovePosition(orders: seq<Order>, id: nat) returns (k: nat)
    requires Listed(orders, id)
    ensures k < |orders| && orders[k].id == id
    ensures Remove(orders, id) == orders[..k] + orders[k + 1..]
    ensures QtyOf(orders, id) == orders[k].qty
  {
    if orders[0].id == id {
      k := 0;
    } else {
      var i :| 0 <= i < |orders| && orders[i].id == id;
      assert orders[1..][i - 1].id == id;
      var j := RemovePosition(orders[1..], id);
      k := j + 1;
      assert orders[..k] + orders[k + 1..] == [orders[0]] + (orders[1..][..j] + orders[1..][j + 1..]);
    }
  }

  lemma RemoveKeepsSide(side: Side, orders: seq<Order>, id: nat)
    requires SideOk(side, orders)
    requires Listed(orders, id)
    ensures SideOk(side, Remove(orders, id))
    ensures !Listed(Remove(orders, id), id)
  {
    hide Better;
    var k := RemovePosition(orders, id);
    hide Remove, QtyOf;
    var rest := Remove(orders, id);
    forall i | 0 <= i < |rest|
      ensures rest[i] == orders[if i < k then i else i + 1]
    {
    }
    forall i, j | 0 <= i < j < |rest|
      ensures !Better(side, rest[j].price, rest[i].price)
      ensures rest[i].id != rest[j].id
    {
      var from, to := if i < k then i else i + 1, if j < k then j else j + 1;
      assert orders[from] == rest[i] && orders[to] == rest[j];
    }
  }

  lemma RemoveShares(orders: seq<Order>, id: nat)
    requires Listed(orders, id)
    ensures Shares(Remove(orders, id)) + QtyOf(orders, id) == Shares(orders)
  {
    var k := RemovePosition(orders, id);
    hide Remove, QtyOf;
    SharesAppend(orders[..k], orders[k + 1..]);
    SharesAppend(orders[..k], orders[k..]);
    assert orders[..k] + orders[k..] == orders;
    assert orders[k..][1..] == orders[k + 1..];
  }

  // ----- every step keeps the invariant -----

  lemma SubmitKeeps(book: Flat, id: nat, side: Side, price: nat, qty: nat, expireAt: Option<nat>)
    requires Inv(book)
    ensures Inv(SubmitStep(book, id, side, price, qty, expireAt).0)
  {
    if qty > 0 && !book.Holds(id) {
      var opp := Opposite(side);
      var m := Match(opp, book.On(opp), id, price, qty);
      MatchLeaves(opp, book.On(opp), id, price, qty);
      MatchKeepsSide(opp, book.On(opp), id, price, qty);
      MatchShares(opp, book.On(opp), id, price, qty);
      if m.remaining > 0 {
        RestKeepsSide(side, book.On(side), Order(id, price, m.remaining));
        RestShares(side, book.On(side), Order(id, price, m.remaining));
        RestedUncrossed(book, id, side, price, qty);
      } else {
        MatchedUncrossed(book, id, side, price, qty);
      }
    }
  }

  lemma MatchedUncrossed(book: Flat, id: nat, side: Side, price: nat, qty: nat)
    requires Inv(book)
    ensures var makers := Match(Opposite(side), book.On(Opposite(side)), id, price, qty).makers;
            match side
            case Buy => Uncrossed(book.bids, makers) && Disjoint(book.bids, makers)
            case Sell => Uncrossed(makers, book.asks) && Disjoint(makers, book.asks)
  {
    MatchLeaves(Opposite(side), book.On(Opposite(side)), id, price, qty);
  }

  /** Resting keeps a predicate of each order that the new order meets. */
  lemma RestMembers(side: Side, orders: seq<Order>, o: Order, i: nat)
    requires Sorted(side, orders)
    requires i < |Rest(side, orders, o)|
    ensures Rest(side, orders, o)[i] == o || Rest(side, orders, o)[i] in orders
  {
    var k := RestPosition(side, orders, o);
  }

  /** The remainder rests only once every crossing maker is gone. */
  lemma NoMakerCrosses(opp: Side, makers: seq<Order>, id: nat, price: nat, qty: nat, j: nat)
    requires SideOk(opp, makers)
    requires !Listed(makers, id)
    requires var m := Match(opp, makers, id, price, qty);
             m.remaining > 0 && j < |m.makers|
    ensures var m := Match(opp, makers, id, price, qty);
            !Crosses(opp, m.makers[j].price, price) && m.makers[j].id != id
  {
    var m := Match(opp, makers, id, price, qty);
    MatchLeaves(opp, makers, id, price, qty);
    MatchKeepsSide(opp, makers, id, price, qty);
    hide Match, Distinct, Live;
    assert j > 0 ==> !Better(opp, m.makers[j].price, m.makers[0].price);
    assert m.makers[j].id == makers[|makers| - |m.makers| + j].id;
  }

  ghost predicate Apart(side: Side, own: Order, opposite: Order) {
    && own.id != opposite.id
    && (match side case Buy => own.price < opposite.price case Sell => opposite.price < own.price)
  }

  ghost predicate AllApart(side: Side, own: seq<Order>, opposite: seq<Order>) {
    forall i, j :: 0 <= i < |own| && 0 <= j < |opposite| ==> Apart(side, own[i], opposite[j])
  }

  lemma ApartIsUncrossed(side: Side, own: seq<Order>, opposite: seq<Order>)
    ensures AllApart(side, own, opposite) ==
            match side
            case Buy => Uncrossed(own, opposite) && Disjoint(own, opposite)
            case Sell => Uncrossed(opposite, own) && Disjoint(opposite, own)
  {
    if side == Buy && Uncrossed(own, opposite) && Disjoint(own, opposite) {
      assert AllApart(side, own, opposite);
    }
    if side == Sell && Uncrossed(opposite, own) && Disjoint(opposite, own) {
      assert AllApart(side, own, opposite);
    }
  }

  lemma RestedUncrossed(book: Flat, id: nat, side: Side, price: nat, qty: nat)
    requires Inv(book)
    requires !book.Holds(id)
    requires Match(Opposite(side), book.On(Opposite(side)), id, price, qty).remaining > 0
    ensures var m := Match(Opposite(side), book.On(Opposite(side)), id, price, qty);
            var rested := Rest(side, book.On(side), Order(id, price, m.remaining));
            match side
            case Buy => Uncrossed(rested, m.makers) && Disjoint(rested, m.makers)
            case Sell => Uncrossed(m.makers, rested) && Disjoint(m.makers, rested)
  {
    hide Match, Rest, Conserved, Uncrossed, Disjoint, Live, Distinct, Sorted;
    var opp := Opposite(side);
    var m := Match(opp, book.On(opp), id, price, qty);
    var o := Order(id, price, m.remaining);
    var rested := Rest(side, book.On(side), o);
    MatchedUncrossed(book, id, side, price, qty);
    ApartIsUncrossed(side, book.On(side), m.makers);
    forall i: nat, j: nat | i < |rested| && j < |m.makers|
      ensures Apart(side, rested[i], m.makers[j])
    {
      RestMembers(side, book.On(side), o, i);
      NoMakerCrosses(opp, book.On(opp), id, price, qty, j);
    }
    ApartIsUncrossed(side, rested, m.makers);
  }

  lemma RemovedStaysApart(side: Side, orders: seq<Order>, id: nat, opposite: seq<Order>)
    requires Listed(orders, id)
    requires AllApart(side, orders, opposite)
    ensures AllApart(side, Remove(orders, id), opposite)
    ensures !Listed(opposite, id)
  {
    hide Apart;
    var k := RemovePosition(orders, id);
    hide Remove, QtyOf;
    var rest := Remove(orders, id);
    forall i, j | 0 <= i < |rest| && 0 <= j < |opposite|
      ensures Apart(side, rest[i], opposite[j])
    {
      assert rest[i] == orders[if i < k then i else i + 1];
    }
    forall j | 0 <= j < |opposite|
      ensures opposite[j].id != id
    {
      ApartIds(side, orders[k], opposite[j]);
    }
  }

  lemma ApartIds(side: Side, own: Order, opposite: Order)
    requires Apart(side, own, opposite)
    ensures own.id != opposite.id
  {
  }

  lemma WithdrawKeeps(book: Flat, id: nat)
    requires Inv(book)
    requires book.Holds(id)
    ensures Inv(Withdraw(book, id))
    ensures !Withdraw(book, id).Holds(id)
  {
    hide Remove, QtyOf, Shares, SideOk, Uncrossed, Disjoint, Listed, AllApart;
    var side := if Listed(book.bids, id) then Buy else Sell;
    RemoveKeepsSide(side, book.On(side), id);
    RemoveShares(book.On(side), id);
    ApartIsUncrossed(side, book.On(side), book.On(Opposite(side)));
    RemovedStaysApart(side, book.On(side), id, book.On(Opposite(side)));
    ApartIsUncrossed(side, Remove(book.On(side), id), book.On(Opposite(side)));
  }

  lemma StepKeeps(book: Flat, input: Input)
    requires Inv(book)
    ensures Inv(Step(book, input).0)
  {
    hide Inv, Withdraw, SubmitStep;
    match input {
      case Command(Submit(id, side, price, qty)) => SubmitKeeps(book, id, side, price, qty, None);
      case Command(SubmitGtd(id, side, price, qty, at)) => SubmitKeeps(book, id, side, price, qty, Some(at));
      case Command(Cancel(id)) => if book.Holds(id) { WithdrawKeeps(book, id); }
      case Fired(id) => if book.Holds(id) { WithdrawKeeps(book, id); }
    }
  }

  /** Over every run from the empty book: never crossed, shares conserved,
      no zero-qty order, no id twice. */
  lemma {:induction false} RunKeeps(book: Flat, inputs: seq<Input>)
    requires Inv(book)
    ensures Inv(Run(book, inputs).0)
    decreases |inputs|
  {
    hide Inv, Step;
    if inputs != [] {
      StepKeeps(book, inputs[0]);
      RunKeeps(Step(book, inputs[0]).0, inputs[1..]);
    }
  }

  lemma EveryRunSound(inputs: seq<Input>)
    ensures Inv(Run(EMPTY, inputs).0)
  {
    assert Inv(EMPTY);
    RunKeeps(EMPTY, inputs);
  }

  // ----- armed timers are resting orders -----

  /** The ids armed in the sequencer's wheel after some requests. */
  function Armed(ids: set<nat>, reqs: seq<TimerReq>): set<nat>
    decreases |reqs|
  {
    if reqs == [] then ids
    else
      match reqs[0]
      case SetTimer(id, _) => Armed(ids + {id}, reqs[1..])
      case CancelTimer(id) => Armed(ids - {id}, reqs[1..])
  }

  ghost predicate ArmedRest(book: Flat, ids: set<nat>) {
    forall id :: id in ids ==> book.Holds(id)
  }

  lemma {:induction false} ArmedAppend(ids: set<nat>, a: seq<TimerReq>, b: seq<TimerReq>)
    ensures Armed(ids, a + b) == Armed(Armed(ids, a), b)
    decreases |a|
  {
    if a == [] {
      assert a + b == b;
    } else {
      assert (a + b)[1..] == a[1..] + b;
      match a[0] {
        case SetTimer(id, at) => ArmedAppend(ids + {id}, a[1..], b);
        case CancelTimer(id) => ArmedAppend(ids - {id}, a[1..], b);
      }
    }
  }

  /** Matching only disarms, and disarms exactly the makers it consumes. */
  lemma {:induction false} MatchDisarms(side: Side, makers: seq<Order>, taker: nat, limit: nat, qty: nat, ids: set<nat>, x: nat)
    requires x in Armed(ids, Match(side, makers, taker, limit, qty).timers)
    ensures x in ids
    ensures Listed(makers, x) ==> Listed(Match(side, makers, taker, limit, qty).makers, x)
    decreases |makers|
  {
    var r := Match(side, makers, taker, limit, qty);
    if qty > 0 && makers != [] && Crosses(side, makers[0].price, limit) {
      var m := makers[0];
      if m.qty <= qty {
        var t := Match(side, makers[1..], taker, limit, qty - m.qty);
        assert r.timers == [CancelTimer(m.id)] + t.timers;
        assert r.timers[1..] == t.timers;
        MatchDisarms(side, makers[1..], taker, limit, qty - m.qty, ids - {m.id}, x);
        if Listed(makers, x) {
          var i :| 0 <= i < |makers| && makers[i].id == x;
          assert makers[1..][i - 1].id == x;
        }
      } else if Listed(makers, x) {
        var i :| 0 <= i < |makers| && makers[i].id == x;
        assert r.makers[i].id == x;
      }
    }
  }

  /** Requests of a step plus, for a firing, the timer that was popped. */
  function ArmedAfter(ids: set<nat>, book: Flat, input: Input): set<nat> {
    var popped := if input.Fired? then ids - {input.id} else ids;
    Armed(popped, Step(book, input).1.timers)
  }

  /** With the book as the service, every armed timer belongs to an order
      that is still resting. */
  lemma ArmedStaysResting(book: Flat, ids: set<nat>, input: Input)
    requires Inv(book)
    requires ArmedRest(book, ids)
    ensures ArmedRest(Step(book, input).0, ArmedAfter(ids, book, input))
  {
    hide Inv, SubmitStep, Withdraw;
    match input {
      case Command(Submit(id, side, price, qty)) => SubmitArms(book, ids, id, side, price, qty, None);
      case Command(SubmitGtd(id, side, price, qty, at)) => SubmitArms(book, ids, id, side, price, qty, Some(at));
      case Command(Cancel(id)) => WithdrawArms(book, ids, id);
      case Fired(id) => WithdrawArms(book, ids, id);
    }
  }

  lemma WithdrawArms(book: Flat, ids: set<nat>, id: nat)
    requires Inv(book)
    requires ArmedRest(book, ids)
    ensures Armed(ids, [CancelTimer(id)]) == ids - {id}
    ensures book.Holds(id) ==> ArmedRest(Withdraw(book, id), ids - {id})
  {
    assert [CancelTimer(id)][1..] == [];
    if book.Holds(id) {
      var side := if Listed(book.bids, id) then Buy else Sell;
      var orders := book.On(side);
      var k := RemovePosition(orders, id);
      var rest := Remove(orders, id);
      forall x | x in ids - {id}
        ensures Withdraw(book, id).Holds(x)
      {
        if Listed(orders, x) {
          var i :| 0 <= i < |orders| && orders[i].id == x;
          assert rest[if i < k then i else i - 1].id == x;
        }
      }
    }
  }

  lemma SubmitArms(book: Flat, ids: set<nat>, id: nat, side: Side, price: nat, qty: nat, expireAt: Option<nat>)
    requires Inv(book)
    requires ArmedRest(book, ids)
    ensures var (next, effect) := SubmitStep(book, id, side, price, qty, expireAt);
            ArmedRest(next, Armed(ids, effect.timers))
  {
    var (next, effect) := SubmitStep(book, id, side, price, qty, expireAt);
    if qty > 0 && !book.Holds(id) {
      var opp := Opposite(side);
      var m := Match(opp, book.On(opp), id, price, qty);
      var set_ := if m.remaining > 0 && expireAt.Some? then [SetTimer(id, expireAt.value)] else [];
      assert effect.timers == m.timers + set_;
      ArmedAppend(ids, m.timers, set_);
      assert Armed(ids, effect.timers) <= Armed(ids, m.timers) + (if set_ == [] then {} else {id}) by {
        if set_ != [] {
          assert set_[1..] == [];
        }
      }
      forall x | x in Armed(ids, effect.timers)
        ensures next.Holds(x)
      {
        if x in Armed(ids, m.timers) {
          MatchDisarms(opp, book.On(opp), id, price, qty, ids, x);
          StillHeld(book, id, side, price, qty, expireAt, x);
        } else {
          RestedHeld(book, id, side, price, qty, expireAt);
        }
      }
    }
  }

  lemma RestLists(side: Side, orders: seq<Order>, o: Order, x: nat)
    requires Sorted(side, orders)
    ensures Listed(Rest(side, orders, o), o.id)
    ensures Listed(orders, x) ==> Listed(Rest(side, orders, o), x)
  {
    var k := RestPosition(side, orders, o);
    var r := Rest(side, orders, o);
    assert r[k].id == o.id;
    if Listed(orders, x) {
      var i :| 0 <= i < |orders| && orders[i].id == x;
      assert r[if i < k then i else i + 1].id == x;
    }
  }

  lemma StillHeld(book: Flat, id: nat, side: Side, price: nat, qty: nat, expireAt: Option<nat>, x: nat)
    requires Inv(book)
    requires qty > 0 && !book.Holds(id)
    requires var opp := Opposite(side);
             || Listed(book.On(side), x)
             || Listed(Match(opp, book.On(opp), id, price, qty).makers, x)
    ensures SubmitStep(book, id, side, price, qty, expireAt).0.Holds(x)
  {
    hide Match;
    var m := Match(Opposite(side), book.On(Opposite(side)), id, price, qty);
    RestLists(side, book.On(side), Order(id, price, m.remaining), x);
  }

  lemma RestedHeld(book: Flat, id: nat, side: Side, price: nat, qty: nat, expireAt: Option<nat>)
    requires Inv(book)
    requires qty > 0 && !book.Holds(id)
    requires Match(Opposite(side), book.On(Opposite(side)), id, price, qty).remaining > 0
    ensures SubmitStep(book, id, side, price, qty, expireAt).0.Holds(id)
  {
    hide Match;
    var m := Match(Opposite(side), book.On(Opposite(side)), id, price, qty);
    RestLists(side, book.On(side), Order(id, price, m.remaining), id);
  }
}
