/** The sequencer's timers: an id-keyed map and the firing order, kept in
    step. Due timers leave in (deadline, set-at, id) order. */
module TimerWheel {
  import opened Wrappers

  /** What a service step asks of the wheel. */
  datatype TimerReq = SetTimer(id: nat, at: nat) | CancelTimer(id: nat)

  datatype Due = Due(at: nat, setAt: nat)

  /** The timers that are armed, whatever order they fire in. */
  type Wheel = map<nat, Due>

  datatype Slot = Slot(at: nat, setAt: nat, id: nat)

  datatype TimerEntry = TimerEntry(id: nat, at: nat, setAt: nat)

  function Request(w: Wheel, req: TimerReq, setAt: nat): Wheel {
    match req
    case SetTimer(id, at) => w[id := Due(at, setAt)]
    case CancelTimer(id) => w - {id}
  }

  function Requests(w: Wheel, reqs: seq<TimerReq>, setAt: nat): Wheel
    decreases |reqs|
  {
    if reqs == [] then w else Requests(Request(w, reqs[0], setAt), reqs[1..], setAt)
  }

  predicate Earlier(a: Slot, b: Slot) {
    || a.at < b.at
    || (a.at == b.at && a.setAt < b.setAt)
    || (a.at == b.at && a.setAt == b.setAt && a.id < b.id)
  }

  function Slots(w: Wheel): set<Slot> {
    set id | id in w :: Slot(w[id].at, w[id].setAt, id)
  }

  ghost predicate IsEarliest(slots: set<Slot>, s: Slot) {
    s in slots && forall t :: t in slots && t != s ==> Earlier(s, t)
  }

  lemma {:induction false} EarliestExists(slots: set<Slot>)
    requires slots != {}
    ensures exists s :: IsEarliest(slots, s)
    decreases slots
  {
    var x :| x in slots;
    if slots == {x} {
      assert IsEarliest(slots, x);
    } else {
      assert slots == {x} + (slots - {x});
      EarliestExists(slots - {x});
      var b :| IsEarliest(slots - {x}, b);
      if Earlier(x, b) {
        forall t | t in slots && t != x
          ensures Earlier(x, t)
        {
          assert t == b || Earlier(b, t);
        }
        assert IsEarliest(slots, x);
      } else {
        assert IsEarliest(slots, b);
      }
    }
  }

  /** The front of the firing order. */
  function Earliest(slots: set<Slot>): (s: Slot)
    requires slots != {}
    ensures IsEarliest(slots, s)
  {
    EarliestExists(slots);
    var s :| s in slots && forall t :: t in slots && t != s ==> Earlier(s, t);
    s
  }

  /** The timer to fire at `now`, if any. */
  function NextDue(w: Wheel, now: nat): (r: Option<nat>)
    ensures r.Some? ==> r.value in w
  {
    if Slots(w) == {} then None
    else
      var s := Earliest(Slots(w));
      if s.at > now then None else Some(s.id)
  }

  /** Nothing is due exactly when every deadline is in the future; otherwise
      the timer chosen is due and every other armed timer is later in
      (deadline, set-at, id). */
  lemma NextDueIsEarliest(w: Wheel, now: nat)
    ensures NextDue(w, now) == None <==> forall id :: id in w ==> w[id].at > now
    ensures var r := NextDue(w, now);
            r.Some? ==>
              && w[r.value].at <= now
              && forall id :: id in w && id != r.value ==>
                   Earlier(Slot(w[r.value].at, w[r.value].setAt, r.value), Slot(w[id].at, w[id].setAt, id))
  {
    forall id | id in w
      ensures Slot(w[id].at, w[id].setAt, id) in Slots(w)
    {
    }
    if Slots(w) != {} {
      var s := Earliest(Slots(w));
      assert s.id in w && s == Slot(w[s.id].at, w[s.id].setAt, s.id);
    }
  }

  /** The ids due at `now`: what the firing loop has to get through. */
  function DueIds(w: Wheel, now: nat): set<nat> {
    set id | id in w && w[id].at <= now
  }

  // ----- snapshots -----

  /** The armed timers in id order. */
  function Entries(w: Wheel): (r: seq<TimerEntry>)
    decreases |w|
  {
    if w.Keys == {} then []
    else
      var id := Least(w.Keys);
      Without(w, id);
      [TimerEntry(id, w[id].at, w[id].setAt)] + Entries(w - {id})
  }

  function Rearm(entries: seq<TimerEntry>, w: Wheel): Wheel
    decreases |entries|
  {
    if entries == [] then w
    else Rearm(entries[1..], w[entries[0].id := Due(entries[0].at, entries[0].setAt)])
  }

  lemma EntriesFrom(w: Wheel)
    ensures w.Keys == {} ==> Entries(w) == []
    ensures w.Keys != {} ==>
              var id := Least(w.Keys);
              Entries(w) == [TimerEntry(id, w[id].at, w[id].setAt)] + Entries(w - {id})
  {
  }

  lemma RearmFirst(e: TimerEntry, rest: seq<TimerEntry>, w: Wheel)
    ensures Rearm([e] + rest, w) == Rearm(rest, w[e.id := Due(e.at, e.setAt)])
    ensures Rearm([], w) == w
  {
    assert ([e] + rest)[1..] == rest;
  }

  /** A snapshot restores every timer with its deadline and set-at. */
  lemma {:induction false} RearmEntries(w: Wheel, acc: Wheel)
    ensures Rearm(Entries(w), acc) == acc + w
    decreases |w|
  {
    hide Least, Rearm, Entries;
    EntriesFrom(w);
    if w.Keys == {} {
      RearmFirst(TimerEntry(0, 0, 0), [], acc);
      MergeNone(acc, w);
    } else {
      var id := Least(w.Keys);
      var rest := w - {id};
      Without(w, id);
      RearmFirst(TimerEntry(id, w[id].at, w[id].setAt), Entries(rest), acc);
      RearmEntries(rest, acc[id := w[id]]);
      MergeOne(acc, w, id);
    }
  }

  lemma SlotsWithout(w: Wheel, id: nat)
    requires id in w
    ensures Slots(w - {id}) == Slots(w) - {Slot(w[id].at, w[id].setAt, id)}
  {
    forall s | s in Slots(w) && s.id != id
      ensures s in Slots(w - {id})
    {
      assert s.id in w - {id};
    }
  }

  lemma SlotsWith(w: Wheel, id: nat, due: Due)
    requires id !in w
    ensures Slots(w[id := due]) == Slots(w) + {Slot(due.at, due.setAt, id)}
  {
    var v := w[id := due];
    forall s | s in Slots(w)
      ensures s in Slots(v)
    {
      assert s.id in v && v[s.id] == w[s.id];
    }
    assert Slot(v[id].at, v[id].setAt, id) in Slots(v);
  }

  class Timers {
    var byId: Wheel
    var order: set<Slot>

    /** Both indexes describe the same timers. */
    ghost predicate Valid()
      reads this
    {
      order == Slots(byId)
    }

    constructor ()
      ensures Valid() && byId == map[]
    {
      byId, order := map[], {};
    }

    method Set(id: nat, at: nat, setAt: nat)
      requires Valid()
      modifies this
      ensures Valid()
      ensures byId == old(byId)[id := Due(at, setAt)]
    {
      Cancel(id);
      SlotsWith(byId, id, Due(at, setAt));
      byId := byId[id := Due(at, setAt)];
      order := order + {Slot(at, setAt, id)};
      assert byId == old(byId)[id := Due(at, setAt)];
    }

    method Cancel(id: nat)
      requires Valid()
      modifies this
      ensures Valid()
      ensures byId == old(byId) - {id}
    {
      if id in byId {
        var due := byId[id];
        SlotsWithout(byId, id);
        byId := byId - {id};
        order := order - {Slot(due.at, due.setAt, id)};
      }
    }

    method Apply(req: TimerReq, setAt: nat)
      requires Valid()
      modifies this
      ensures Valid()
      ensures byId == Request(old(byId), req, setAt)
    {
      match req {
        case SetTimer(id, at) => Set(id, at, setAt);
        case CancelTimer(id) => Cancel(id);
      }
    }

    method ApplyAll(reqs: seq<TimerReq>, setAt: nat)
      requires Valid()
      modifies this
      ensures Valid()
      ensures byId == Requests(old(byId), reqs, setAt)
    {
      for k := 0 to |reqs|
        invariant Valid()
        invariant Requests(old(byId), reqs, setAt) == Requests(byId, reqs[k..], setAt)
      {
        assert reqs[k..][0] == reqs[k] && reqs[k..][1..] == reqs[k + 1..];
        Apply(reqs[k], setAt);
      }
    }

    /** Remove and return the earliest timer due at `now`. */
    method PopDue(now: nat) returns (r: Option<nat>)
      requires Valid()
      modifies this
      ensures Valid()
      ensures r == NextDue(old(byId), now)
      ensures byId == if r.Some? then old(byId) - {r.value} else old(byId)
    {
      if order == {} {
        return None;
      }
      var front := Earliest(order);
      if front.at > now {
        return None;
      }
      assert front == Slot(byId[front.id].at, byId[front.id].setAt, front.id);
      SlotsWithout(byId, front.id);
      order := order - {front};
      byId := byId - {front.id};
      return Some(front.id);
    }

    /** Rebuild from the snapshot's entries. */
    constructor Restore(entries: seq<TimerEntry>)
      ensures Valid() && byId == Rearm(entries, map[])
    {
      byId, order := map[], {};
      new;
      for k := 0 to |entries|
        invariant Valid()
        invariant Rearm(entries, map[]) == Rearm(entries[k..], byId)
      {
        var e := entries[k];
        assert entries[k..][0] == e && entries[k..][1..] == entries[k + 1..];
        Set(e.id, e.at, e.setAt);
      }
    }
  }
}
