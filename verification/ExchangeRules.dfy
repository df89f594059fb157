/** Who hears what: every event of the book goes to the session whose command
    caused it, and a trade also to the owner of the order it traded with. */
module ExchangeRules {
  import opened Wrappers
  import opened FlatBook
  import opened BookRules
  import opened Exchange

  /** Everyone told of an event, in order, given who owned what beforehand. */
  function Told(owners: map<nat, nat>, origin: nat, e: Evt): seq<Addressed> {
    [Addressed(origin, e)]
    + if e.Trade? && e.maker in owners && owners[e.maker] != origin then [Addressed(owners[e.maker], e)] else []
  }

  function ToldAll(owners: map<nat, nat>, origin: nat, events: seq<Evt>): seq<Addressed> {
    if events == [] then [] else Told(owners, origin, events[0]) + ToldAll(owners, origin, events[1..])
  }

  /** The id whose owner an event may change. */
  function Touched(e: Evt): nat {
    match e
    case Accepted(id) => id
    case Trade(_, maker, _, _) => maker
    case Canceled(id, _) => id
    case Expired(id, _) => id
    case Rejected(id, _) => id
  }

  /** No trade's maker is touched by an earlier event. */
  ghost predicate Separate(events: seq<Evt>) {
    forall i, j :: 0 <= i < j < |events| && events[j].Trade? ==> Touched(events[i]) != events[j].maker
  }

  /** The same owners of every maker traded with. */
  ghost predicate SameMakers(a: map<nat, nat>, b: map<nat, nat>, events: seq<Evt>) {
    forall i :: 0 <= i < |events| && events[i].Trade? ==>
      (events[i].maker in a <==> events[i].maker in b) && (events[i].maker in a ==> a[events[i].maker] == b[events[i].maker])
  }

  lemma {:induction false} ToldSame(a: map<nat, nat>, b: map<nat, nat>, origin: nat, events: seq<Evt>)
    requires SameMakers(a, b, events)
    ensures ToldAll(a, origin, events) == ToldAll(b, origin, events)
  {
    if events != [] {
      assert SameMakers(a, b, events[1..]);
      ToldSame(a, b, origin, events[1..]);
    }
  }

  lemma RouteTouches(x: Venue, origin: nat, e: Evt, id: nat)
    requires id != Touched(e)
    ensures var y := Route(x, origin, e).0;
            (id in y.owners <==> id in x.owners) && (id in x.owners ==> y.owners[id] == x.owners[id])
  {
  }

  lemma {:induction false} RouteTells(x: Venue, origin: nat, events: seq<Evt>)
    requires Separate(events)
    ensures RouteAll(x, origin, events).1 == ToldAll(x.owners, origin, events)
    decreases |events|
  {
    hide Route;
    if events != [] {
      var next := Route(x, origin, events[0]).0;
      RouteOneTells(x, origin, events[0]);
      RouteTells(next, origin, events[1..]);
      forall i | 0 <= i < |events[1..]| && events[1..][i].Trade?
        ensures events[1..][i].maker in next.owners <==> events[1..][i].maker in x.owners
        ensures events[1..][i].maker in next.owners ==> next.owners[events[1..][i].maker] == x.owners[events[1..][i].maker]
      {
        assert events[i + 1].Trade?;
        RouteTouches(x, origin, events[0], events[i + 1].maker);
      }
      ToldSame(next.owners, x.owners, origin, events[1..]);
    }
  }

  lemma RouteOneTells(x: Venue, origin: nat, e: Evt)
    ensures Route(x, origin, e).1 == Told(x.owners, origin, e)
  {
  }

  /** A submission's trades are with different makers, none of them itself. */
  lemma SubmitSeparate(book: Flat, id: nat, side: Side, price: nat, qty: nat, expireAt: Option<nat>)
    requires Inv(book)
    ensures Separate(SubmitStep(book, id, side, price, qty, expireAt).1.events)
  {
    hide SubmitStep, Uncrossed, Conserved, Sorted, Disjoint;
    var events := SubmitStep(book, id, side, price, qty, expireAt).1.events;
    RefusedIff(book, id, side, price, qty, expireAt);
    if qty > 0 && !book.Holds(id) {
      AcceptedRules(book, id, side, price, qty, expireAt);
      var makers, trades := book.On(Opposite(side)), events[1..];
      forall i, j | 0 <= i < j < |events| && events[j].Trade?
        ensures Touched(events[i]) != events[j].maker
      {
        assert TradeAt(side, id, price, makers, trades, j - 1) && events[j] == trades[j - 1];
        if i > 0 {
          assert TradeAt(side, id, price, makers, trades, i - 1) && events[i] == trades[i - 1];
        }
      }
    }
  }

  lemma ApplySeparate(book: Flat, cmd: Cmd)
    requires Inv(book)
    ensures Separate(Apply(book, cmd).1.events)
  {
    hide SubmitStep, Inv, Withdraw;
    match cmd {
      case Submit(id, side, price, qty) => SubmitSeparate(book, id, side, price, qty, None);
      case SubmitGtd(id, side, price, qty, at) => SubmitSeparate(book, id, side, price, qty, Some(at));
      case Cancel(id) =>
    }
  }

  /** A fresh command that its session may give: everyone who is told, in order,
      by who owned the makers before it. Any other is answered to its session
      alone, or not at all when it is stale. */
  lemma ClientTells(x: Venue, session: nat, clientSeq: nat, cmd: Cmd)
    requires Ok(x)
    ensures var out := Exchange.Step(x, Client(session, clientSeq, cmd)).1;
            if clientSeq <= LastOf(x, session) then out == []
            else if cmd.Cancel? && !(cmd.id in x.owners && x.owners[cmd.id] == session)
            then out == [Addressed(session, Rejected(cmd.id, UnknownOrder))]
            else out == ToldAll(x.owners, session, Apply(x.book, cmd).1.events)
  {
    hide Apply, RouteAll, Inv, Inverse, Resident;
    ApplySeparate(x.book, cmd);
    var seen := x.(last := x.last[session := clientSeq], book := Apply(x.book, cmd).0);
    RouteTells(seen, session, Apply(x.book, cmd).1.events);
  }

  // ----- counting who is told of a trade -----

  lemma {:induction false} ToldCount(owners: map<nat, nat>, origin: nat, events: seq<Evt>, e: Evt, s: nat)
    requires Separate(events) && e.Trade?
    ensures multiset(ToldAll(owners, origin, events))[Addressed(s, e)]
            == if e in events && (s == origin || (e.maker in owners && owners[e.maker] == s)) then 1 else 0
  {
    hide Told, Separate;
    if events != [] {
      var first, rest := Told(owners, origin, events[0]), ToldAll(owners, origin, events[1..]);
      SeparateTail(events, e);
      ToldCount(owners, origin, events[1..], e, s);
      FirstCount(owners, origin, events[0], e, s);
      assert multiset(first + rest)[Addressed(s, e)] == multiset(first)[Addressed(s, e)] + multiset(rest)[Addressed(s, e)];
    }
  }

  lemma SeparateTail(events: seq<Evt>, e: Evt)
    requires Separate(events) && events != [] && e.Trade?
    ensures Separate(events[1..])
    ensures e in events <==> e == events[0] || e in events[1..]
    ensures e in events[1..] ==> e != events[0]
  {
    assert events == [events[0]] + events[1..];
    if e in events[1..] {
      var j :| 0 <= j < |events[1..]| && events[1..][j] == e;
      assert events[j + 1] == e;
    }
  }

  lemma FirstCount(owners: map<nat, nat>, origin: nat, first: Evt, e: Evt, s: nat)
    requires e.Trade?
    ensures multiset(Told(owners, origin, first))[Addressed(s, e)]
            == if first == e && (s == origin || (e.maker in owners && owners[e.maker] == s)) then 1 else 0
  {
    var own := [Addressed(origin, first)];
    if first.Trade? && first.maker in owners && owners[first.maker] != origin {
      var copy := [Addressed(owners[first.maker], first)];
      assert Told(owners, origin, first) == own + copy;
      assert multiset(own + copy) == multiset(own) + multiset(copy);
    } else {
      assert Told(owners, origin, first) == own;
    }
  }

  /** Of every trade the book makes on a command, the taker's session is told
      exactly once, the session that owned the maker exactly once more if it is
      another, and nobody else. */
  lemma TradeHeard(x: Venue, session: nat, clientSeq: nat, cmd: Cmd, e: Evt, s: nat)
    requires Ok(x) && clientSeq > LastOf(x, session) && !cmd.Cancel?
    requires e.Trade? && e in Apply(x.book, cmd).1.events
    ensures e.maker in x.owners
    ensures multiset(Exchange.Step(x, Client(session, clientSeq, cmd)).1)[Addressed(s, e)]
            == if s == session || s == x.owners[e.maker] then 1 else 0
  {
    hide Inv, Inverse, Exchange.Step, ToldAll, Apply;
    ClientTells(x, session, clientSeq, cmd);
    ApplySeparate(x.book, cmd);
    ToldCount(x.owners, session, Apply(x.book, cmd).1.events, e, s);
    MakerOwned(x, cmd, e);
  }

  lemma MakerOwned(x: Venue, cmd: Cmd, e: Evt)
    requires Ok(x) && e.Trade? && e in Apply(x.book, cmd).1.events
    ensures e.maker in x.owners
  {
    hide SubmitStep, Withdraw, Conserved, Uncrossed, Sorted, Inverse;
    match cmd {
      case Submit(id, side, price, qty) => MakerHeld(x.book, id, side, price, qty, None, e);
      case SubmitGtd(id, side, price, qty, at) => MakerHeld(x.book, id, side, price, qty, Some(at), e);
      case Cancel(id) =>
    }
  }

  lemma MakerHeld(book: Flat, id: nat, side: Side, price: nat, qty: nat, expireAt: Option<nat>, e: Evt)
    requires Inv(book) && e.Trade? && e in SubmitStep(book, id, side, price, qty, expireAt).1.events
    ensures book.Holds(e.maker)
  {
    hide SubmitStep, Conserved, Uncrossed, Sorted;
    var events := SubmitStep(book, id, side, price, qty, expireAt).1.events;
    RefusedIff(book, id, side, price, qty, expireAt);
    AcceptedRules(book, id, side, price, qty, expireAt);
    var j :| 0 <= j < |events| && events[j] == e;
    assert TradeAt(side, id, price, book.On(Opposite(side)), events[1..], j - 1);
    assert Listed(book.On(Opposite(side)), e.maker);
  }

  // ----- who owns what -----

  /** Routing gives an owner only to an accepted order, and then its submitter;
      every other owner left is who it was. */
  lemma {:induction false} RouteOwners(x: Venue, origin: nat, events: seq<Evt>, id: nat)
    requires id in RouteAll(x, origin, events).0.owners
    ensures var owner := RouteAll(x, origin, events).0.owners[id];
            (Accepted(id) in events && owner == origin) || (id in x.owners && owner == x.owners[id])
    decreases |events|
  {
    hide Route;
    if events != [] {
      var next := Route(x, origin, events[0]).0;
      RouteOwners(next, origin, events[1..], id);
      if !(Accepted(id) in events[1..] && RouteAll(x, origin, events).0.owners[id] == origin) {
        RouteOwner(x, origin, events[0], id);
      }
    }
  }

  lemma RouteOwner(x: Venue, origin: nat, e: Evt, id: nat)
    requires id in Route(x, origin, e).0.owners
    ensures var owner := Route(x, origin, e).0.owners[id];
            (e == Accepted(id) && owner == origin) || (id in x.owners && owner == x.owners[id])
  {
  }

  /** After a fresh submission: orders that were owned and still rest keep their
      owner, and the new order belongs to the session that submitted it. */
  lemma SubmitterOwns(x: Venue, session: nat, clientSeq: nat, cmd: Cmd, id: nat)
    requires Ok(x) && clientSeq > LastOf(x, session) && !cmd.Cancel?
    ensures var y := Exchange.Step(x, Client(session, clientSeq, cmd)).0;
            && (id in y.owners <==> y.book.Holds(id))
            && (id in y.owners && id in x.owners ==> y.owners[id] == x.owners[id])
            && (id in y.owners && id !in x.owners ==> y.owners[id] == session && cmd.id == id)
  {
    hide Inv, Inverse, RouteAll, Apply;
    StepOk(x, Client(session, clientSeq, cmd));
    var events := Apply(x.book, cmd).1.events;
    var seen := x.(last := x.last[session := clientSeq], book := Apply(x.book, cmd).0);
    if id in RouteAll(seen, session, events).0.owners {
      RouteOwners(seen, session, events, id);
      if Accepted(id) in events {
        OnlyItsOwn(x.book, cmd, id);
      }
    }
  }

  /** A command accepts no order but its own, and only one that did not rest. */
  lemma OnlyItsOwn(book: Flat, cmd: Cmd, id: nat)
    requires Inv(book) && !cmd.Cancel? && Accepted(id) in Apply(book, cmd).1.events
    ensures cmd.id == id && !book.Holds(id)
  {
    hide SubmitStep, Inv;
    match cmd {
      case Submit(own, side, price, qty) => AcceptedOnce(book, own, side, price, qty, None, id);
      case SubmitGtd(own, side, price, qty, at) => AcceptedOnce(book, own, side, price, qty, Some(at), id);
    }
  }

  lemma AcceptedOnce(book: Flat, own: nat, side: Side, price: nat, qty: nat, expireAt: Option<nat>, id: nat)
    requires Inv(book) && Accepted(id) in SubmitStep(book, own, side, price, qty, expireAt).1.events
    ensures own == id && !book.Holds(id)
  {
    hide SubmitStep, Conserved, Uncrossed, Sorted;
    var events := SubmitStep(book, own, side, price, qty, expireAt).1.events;
    RefusedIff(book, own, side, price, qty, expireAt);
    AcceptedRules(book, own, side, price, qty, expireAt);
    forall j | 0 < j < |events|
      ensures events[j].Trade?
    {
      assert TradeAt(side, own, price, book.On(Opposite(side)), events[1..], j - 1);
    }
  }

  // ----- closing a session -----

  ghost predicate Ascending(s: seq<nat>, ids: set<nat>) {
    && (forall i, j :: 0 <= i < j < |s| ==> s[i] < s[j])
    && (forall id :: id in s <==> id in ids)
  }

  lemma AscendingFirst(first: nat, rest: seq<nat>, ids: set<nat>)
    requires IsLeast(ids, first) && Ascending(rest, ids - {first})
    ensures Ascending([first] + rest, ids)
  {
    forall j | 0 <= j < |rest|
      ensures first < rest[j]
    {
      assert rest[j] in rest;
    }
    assert forall id :: id in [first] + rest <==> id == first || id in rest;
  }

  /** A session's orders by ascending id. */
  lemma {:induction false} SortedAscend(ids: set<nat>)
    ensures Ascending(SortedIds(ids), ids)
    decreases |ids|
  {
    hide Least, Ascending;
    if ids == {} {
      NoIds(ids);
    } else {
      var first := Least(ids);
      SortedAscend(ids - {first});
      AscendingFirst(first, SortedIds(ids - {first}), ids);
    }
  }

  lemma NoIds(ids: set<nat>)
    requires ids == {}
    ensures Ascending([], ids)
  {
  }

  /** Cancelling orders one by one tells of each, in that order. */
  lemma {:induction false} CancelAllTells(x: Venue, session: nat, ids: seq<nat>)
    requires Ok(x) && (forall i :: 0 <= i < |ids| ==> ids[i] in x.owners) && forall i, j :: 0 <= i < j < |ids| ==> ids[i] != ids[j]
    ensures var out := CancelAll(x, session, ids).1;
            |out| == |ids| && forall i :: 0 <= i < |ids| ==>
              out[i].session == session && out[i].event.Canceled? && out[i].event.id == ids[i]
    decreases |ids|
  {
    hide RunBook, Ok;
    if ids != [] {
      CancelOk(x, session, ids[0]);
      var next := RunBook(x, session, Cancel(ids[0])).0;
      forall i | 0 <= i < |ids[1..]|
        ensures ids[1..][i] in next.owners
      {
        assert ids[i + 1] != ids[0];
      }
      CancelAllTells(next, session, ids[1..]);
    }
  }

  /** Closing a session cancels each of its orders once, by ascending id, and
      tells that session of each. */
  lemma CloseTells(x: Venue, session: nat)
    requires Ok(x)
    ensures var out := Exchange.Step(x, SessionClosed(session)).1;
            && (forall i :: 0 <= i < |out| ==> out[i].session == session && out[i].event.Canceled?)
            && (forall i, j :: 0 <= i < j < |out| ==> out[i].event.id < out[j].event.id)
            && (forall id :: (id in x.owners && x.owners[id] == session) <==> exists i :: 0 <= i < |out| && out[i].event.id == id)
  {
    hide Inv, Resident, CancelAll;
    var ids := SortedIds(OwnedBy(x.owned, session));
    SortedAscend(OwnedBy(x.owned, session));
    hide SortedIds;
    CancelAllTells(x, session, ids);
    var out := CancelAll(x, session, ids).1;
    forall id
      ensures (id in x.owners && x.owners[id] == session) <==> exists i :: 0 <= i < |out| && out[i].event.id == id
    {
      if id in ids {
        var i :| 0 <= i < |ids| && ids[i] == id;
        assert out[i].event.id == id;
      }
    }
  }
}
