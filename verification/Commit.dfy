/** Quorum release: outputs are withheld until a majority of the replica set
    has journaled the frame they came from. */
module Commit {
  import opened Wrappers
  import opened Quorum

  type Waters = map<nat, nat>

  /** Acks only ever raise a replica's high-water. */
  function Recorded(waters: Waters, replica: nat, upTo: nat): Waters {
    var had := if replica in waters then waters[replica] else 0;
    waters[replica := if had < upTo then upTo else had]
  }

  /** The high-waters in replica order. */
  function Values(waters: Waters): (r: seq<nat>)
    ensures |r| == |waters|
    decreases |waters|
  {
    if waters.Keys == {} then
      assert |waters.Keys| == |waters|;
      []
    else
      var id := Least(waters.Keys);
      Without(waters, id);
      assert |waters - {id}| == |waters| - 1 by { OneFewer(waters, id); }
      [waters[id]] + Values(waters - {id})
  }

  lemma OneFewer<V>(m: map<nat, V>, k: nat)
    requires k in m
    ensures |m - {k}| == |m| - 1
  {
    assert (m - {k}).Keys == m.Keys - {k};
    assert |m.Keys - {k}| == |m.Keys| - 1;
    assert |m.Keys| == |m| && |(m - {k}).Keys| == |m - {k}|;
  }

  /** The majority-th highest high-water; 0 while fewer have reported. */
  function Watermark(waters: Waters, voters: nat): nat {
    if |waters| < Majority(voters) then 0 else KthHighest(Values(waters), Majority(voters))
  }

  /** The replicas known to hold everything up to `v`. */
  function Holders(waters: Waters, v: nat): set<nat> {
    set id | id in waters && waters[id] >= v
  }

  lemma {:induction false} CountIsHolders(waters: Waters, v: nat)
    ensures CountAtLeast(Values(waters), v) == |Holders(waters, v)|
    decreases |waters|
  {
    hide Least;
    if waters.Keys == {} {
      assert Holders(waters, v) == {};
      assert |waters.Keys| == |waters|;
    } else {
      var id := Least(waters.Keys);
      var rest := waters - {id};
      OneFewer(waters, id);
      CountIsHolders(rest, v);
      assert Values(waters) == [waters[id]] + Values(rest);
      assert ([waters[id]] + Values(rest))[1..] == Values(rest);
      assert Holders(rest, v) == Holders(waters, v) - {id};
    }
  }

  /** The watermark is exactly the greatest seq a majority holds. */
  lemma WatermarkIsMajority(waters: Waters, voters: nat, v: nat)
    requires v > 0
    ensures |Holders(waters, v)| >= Majority(voters) <==> v <= Watermark(waters, voters)
  {
    hide CountAtLeast, Values, KthHighest;
    CountIsHolders(waters, v);
    var k := Majority(voters);
    if |waters| < k {
      SubsetSmaller(Holders(waters, v), waters.Keys);
      assert |waters.Keys| == |waters|;
    } else {
      KthHighestIsGreatest(Values(waters), k);
      var w := KthHighest(Values(waters), k);
      if v <= w {
        CountIsHolders(waters, w);
        assert Holders(waters, w) <= Holders(waters, v);
        SubsetSmaller(Holders(waters, w), Holders(waters, v));
      }
    }
  }

  /** Stale and reordered acks never lower the watermark. */
  lemma WatermarkMonotone(waters: Waters, replica: nat, upTo: nat, voters: nat)
    ensures Watermark(waters, voters) <= Watermark(Recorded(waters, replica, upTo), voters)
  {
    hide Watermark;
    var w, next := Watermark(waters, voters), Recorded(waters, replica, upTo);
    if w > 0 {
      WatermarkIsMajority(waters, voters, w);
      HoldersGrow(waters, replica, upTo, w);
      WatermarkIsMajority(next, voters, w);
    }
  }

  lemma HoldersGrow(waters: Waters, replica: nat, upTo: nat, v: nat)
    ensures |Holders(waters, v)| <= |Holders(Recorded(waters, replica, upTo), v)|
  {
    assert Holders(waters, v) <= Holders(Recorded(waters, replica, upTo), v);
    SubsetSmaller(Holders(waters, v), Holders(Recorded(waters, replica, upTo), v));
  }

  class CommitTracker {
    const voters: nat
    var waters: Waters

    constructor (voters: nat)
      ensures this.voters == voters && waters == map[]
    {
      this.voters, waters := voters, map[];
    }

    /** Report an ack; the answer is the greatest seq a majority holds. */
    method RecordAck(replica: nat, upTo: nat) returns (mark: nat)
      modifies this
      ensures waters == Recorded(old(waters), replica, upTo)
      ensures mark == Watermark(waters, voters)
      ensures mark >= Watermark(old(waters), voters)
    {
      WatermarkMonotone(waters, replica, upTo, voters);
      var had := if replica in waters then waters[replica] else 0;
      waters := waters[replica := if had < upTo then upTo else had];
      mark := Committed();
    }

    method Committed() returns (mark: nat)
      ensures mark == Watermark(waters, voters)
      ensures forall v: nat :: v > 0 ==> (|Holders(waters, v)| >= Majority(voters) <==> v <= mark)
    {
      var needed := Majority(voters);
      if |waters| < needed {
        mark := 0;
      } else {
        var sorted := SortDescending(Values(waters));
        mark := sorted[needed - 1];
      }
      forall v: nat | v > 0
        ensures |Holders(waters, v)| >= Majority(voters) <==> v <= mark
      {
        WatermarkIsMajority(waters, voters, v);
      }
    }
  }
}
