/** The exchange as it is run: an order book object and three maps, changed in
    place by each sequenced input. */
module ExchangeHost {
  import opened Wrappers
  import opened TimerWheel
  import opened FlatBook
  import opened BookLevels
  import opened OrderBook
  import opened Exchange

  /** An order rests exactly when the book's index has it. */
  lemma HeldIffIndexed(b: Book, id: nat)
    requires b.Valid()
    ensures b.Meaning().Holds(id) <==> id in b.index
  {
    hide Agrees, Inv, Flatten, Listed;
    HeldIsIndexed(b.Sides(), b.index, id, Buy);
    HeldIsIndexed(b.Sides(), b.index, id, Sell);
  }

  /** The reverse index, one owner at a time in id order. */
  method RebuildIndex(owners: map<nat, nat>) returns (owned: map<nat, set<nat>>)
    ensures owned == Rebuilt(owners)
  {
    hide Least, Greatest, Rebuilt, Divides;
    owned := map[];
    var left := owners;
    ghost var done: map<nat, nat> := map[];
    DoneNone(owners, done, left);
    while left.Keys != {}
      invariant Divides(owners, done, left)
      invariant owned == Rebuilt(done)
      decreases |left|
    {
      var id := Least(left.Keys);
      Without(left, id);
      DivideIn(owners, done, left, id);
      RebuiltNext(owners, done, left, id);
      owned := owned[owners[id] := OwnedBy(owned, owners[id]) + {id}];
      done := done[id := owners[id]];
      left := left - {id};
    }
    AllDone(owners, done, left);
  }

  lemma DivideIn(owners: map<nat, nat>, done: map<nat, nat>, left: map<nat, nat>, id: nat)
    requires Divides(owners, done, left) && id in left
    ensures id in owners
  {
  }

  class Host {
    const book: Book
    var owners: map<nat, nat>
    var owned: map<nat, set<nat>>
    var last: map<nat, nat>

    ghost predicate Valid()
      reads this, book
    {
      book.Valid()
    }

    ghost function Abs(): Venue
      reads this, book
    {
      Venue(book.Meaning(), owners, owned, last)
    }

    constructor ()
      ensures Valid() && fresh(book) && Abs() == GENESIS
    {
      hide Book.Valid, Book.Meaning, Inv, RunAll, Exchange.Step, RouteAll, CancelAll, Match;
      book := new Book();
      owners, owned, last := map[], map[], map[];
    }

    /** Rebuild around a restored book; the reverse index comes from `owners`. */
    constructor Restore(book: Book, owners: map<nat, nat>, last: map<nat, nat>)
      requires book.Valid()
      ensures this.book == book && Valid()
      ensures Abs() == Restored(Venue(book.Meaning(), owners, map[], last))
    {
      var reverse := RebuildIndex(owners);
      this.book, this.owners, this.last, this.owned := book, owners, last, reverse;
    }

    method Forget(id: nat)
      requires Valid()
      modifies this`owners, this`owned
      ensures Valid() && Abs() == Disown(old(Abs()), id)
    {
      if id in owners {
        var owner := owners[id];
        owners := owners - {id};
        if owner in owned {
          owned := owned[owner := owned[owner] - {id}];
        }
      }
    }

    /** Address one book event and keep the ownership indexes in step. */
    method RouteEvent(origin: nat, e: Evt) returns (out: seq<Addressed>)
      requires Valid()
      modifies this`owners, this`owned
      ensures Valid() && (Abs(), out) == Route(old(Abs()), origin, e)
    {
      hide Book.Valid, Book.Meaning, Disown, Listed;
      match e {
        case Accepted(id) =>
          HeldIffIndexed(book, id);
          if id in book.index {
            owners := owners[id := origin];
            owned := owned[origin := OwnedBy(owned, origin) + {id}];
          }
          return [Addressed(origin, e)];
        case Trade(_, maker, _, _) =>
          HeldIffIndexed(book, maker);
          var copy := if maker in owners && owners[maker] != origin then [Addressed(owners[maker], e)] else [];
          if maker !in book.index {
            Forget(maker);
          }
          return [Addressed(origin, e)] + copy;
        case Canceled(id, _) =>
          Forget(id);
          return [Addressed(origin, e)];
        case Expired(id, _) =>
          Forget(id);
          return [Addressed(origin, e)];
        case Rejected(_, _) =>
          return [Addressed(origin, e)];
      }
    }

    method DriveBook(origin: nat, cmd: Cmd) returns (out: seq<Addressed>)
      requires Valid()
      modifies this`owners, this`owned, book
      ensures Valid() && (Abs(), out) == RunBook(old(Abs()), origin, cmd)
    {
      hide Book.Valid, Book.Meaning, Route, Apply;
      var events, _ := book.Handle(Command(cmd));
      ghost var x := Abs();
      out := [];
      for k := 0 to |events|
        invariant Valid()
        invariant RouteAll(x, origin, events).0 == RouteAll(Abs(), origin, events[k..]).0
        invariant RouteAll(x, origin, events).1 == out + RouteAll(Abs(), origin, events[k..]).1
      {
        assert events[k..][0] == events[k] && events[k..][1..] == events[k + 1..];
        var more := RouteEvent(origin, events[k]);
        out := out + more;
      }
      assert events[|events|..] == [];
      assert out + [] == out;
    }

    method ApplyInput(session: nat, clientSeq: nat, cmd: Cmd) returns (out: seq<Addressed>)
      requires Valid()
      modifies this, book
      ensures Valid() && (Abs(), out) == ApplyClient(old(Abs()), session, clientSeq, cmd)
    {
      hide Book.Valid, Book.Meaning, RunBook;
      if session !in last {
        last := last[session := 0];
      }
      if clientSeq <= last[session] {
        assert old(last)[session := LastOf(old(Abs()), session)] == last;
        return [];
      }
      last := last[session := clientSeq];
      assert last == old(last)[session := clientSeq];
      if cmd.Cancel? && !(cmd.id in owners && owners[cmd.id] == session) {
        return [Addressed(session, Rejected(cmd.id, UnknownOrder))];
      }
      out := DriveBook(session, cmd);
    }

    /** Cancel-on-disconnect, in id order. */
    method Close(session: nat) returns (out: seq<Addressed>)
      requires Valid()
      modifies this, book
      ensures Valid() && (Abs(), out) == CloseSession(old(Abs()), session)
    {
      hide Book.Valid, Book.Meaning, RunBook, SortedIds;
      var ids := SortedIds(OwnedBy(owned, session));
      out := [];
      for k := 0 to |ids|
        invariant Valid()
        invariant CancelAll(old(Abs()), session, ids).0 == CancelAll(Abs(), session, ids[k..]).0
        invariant CancelAll(old(Abs()), session, ids).1 == out + CancelAll(Abs(), session, ids[k..]).1
      {
        assert ids[k..][0] == ids[k] && ids[k..][1..] == ids[k + 1..];
        var more := DriveBook(session, Cmd.Cancel(ids[k]));
        out := out + more;
      }
      assert ids[|ids|..] == [];
      assert out + [] == out;
      owned := owned - {session};
    }

    method HandleInput(input: ClientInput) returns (out: seq<Addressed>)
      requires Valid()
      modifies this, book
      ensures Valid() && (Abs(), out) == Exchange.Step(old(Abs()), input)
    {
      hide Book.Valid, Book.Meaning, ApplyClient, CloseSession;
      match input {
        case Client(session, clientSeq, cmd) => out := ApplyInput(session, clientSeq, cmd);
        case SessionClosed(session) => out := Close(session);
      }
    }
  }

  /** `done` and `left` split `owners` at an id. */
  ghost predicate Divides(owners: map<nat, nat>, done: map<nat, nat>, left: map<nat, nat>) {
    && (forall id :: id in owners <==> id in done || id in left)
    && (forall id :: id in done ==> id in owners && done[id] == owners[id])
    && (forall id :: id in left ==> id in owners && left[id] == owners[id])
    && (forall a, b :: a in done && b in left ==> a < b)
  }

  lemma DoneNone(owners: map<nat, nat>, done: map<nat, nat>, left: map<nat, nat>)
    requires done == map[] && left == owners
    ensures Divides(owners, done, left) && Rebuilt(done) == map[]
  {
  }

  lemma AllDone(owners: map<nat, nat>, done: map<nat, nat>, left: map<nat, nat>)
    requires Divides(owners, done, left) && left.Keys == {}
    ensures done == owners
  {
  }

  lemma RebuiltNext(owners: map<nat, nat>, done: map<nat, nat>, left: map<nat, nat>, id: nat)
    requires Divides(owners, done, left) && IsLeast(left.Keys, id)
    ensures Divides(owners, done[id := owners[id]], left - {id})
    ensures Rebuilt(done[id := owners[id]]) == Rebuilt(done)[owners[id] := OwnedBy(Rebuilt(done), owners[id]) + {id}]
  {
    hide Greatest;
    var next := done[id := owners[id]];
    assert id in next.Keys && id !in done;
    assert IsGreatest(next.Keys, id);
    assert Greatest(next.Keys) == id;
    assert next - {id} == done;
  }
}
