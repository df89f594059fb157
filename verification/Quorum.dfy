/** Majorities and the majority-th highest value of a list: the arithmetic
    shared by elections and by both copies of the commit watermark. */
module Quorum {

  function Majority(voters: nat): (m: nat) {
    voters / 2 + 1
  }

  /** How many entries reach `v`. */
  function CountAtLeast(waters: seq<nat>, v: nat): (n: nat)
    ensures n <= |waters|
  {
    if waters == [] then 0
    else (if waters[0] >= v then 1 else 0) + CountAtLeast(waters[1..], v)
  }

  predicate Descending(waters: seq<nat>) {
    forall i, j :: 0 <= i < j < |waters| ==> waters[i] >= waters[j]
  }

  function Insert(x: nat, sorted: seq<nat>): (r: seq<nat>)
    ensures |r| == |sorted| + 1
  {
    if sorted == [] || x >= sorted[0] then [x] + sorted
    else [sorted[0]] + Insert(x, sorted[1..])
  }

  /** Highest first. */
  function SortDescending(waters: seq<nat>): (r: seq<nat>)
    ensures |r| == |waters|
  {
    if waters == [] then [] else Insert(waters[0], SortDescending(waters[1..]))
  }

  /** The `k`-th highest entry, as the code computes it: sort, then index. */
  function KthHighest(waters: seq<nat>, k: nat): nat
    requires 1 <= k <= |waters|
  {
    SortDescending(waters)[k - 1]
  }

  lemma {:induction false} InsertCounts(x: nat, sorted: seq<nat>, v: nat)
    ensures CountAtLeast(Insert(x, sorted), v) == CountAtLeast([x] + sorted, v)
  {
    assert ([x] + sorted)[1..] == sorted;
    if sorted != [] && x < sorted[0] {
      InsertCounts(x, sorted[1..], v);
      assert ([x] + sorted[1..])[1..] == sorted[1..];
      assert ([sorted[0]] + Insert(x, sorted[1..]))[1..] == Insert(x, sorted[1..]);
    }
  }

  lemma {:induction false} InsertDescending(x: nat, sorted: seq<nat>)
    requires Descending(sorted)
    ensures Descending(Insert(x, sorted))
    ensures forall y: nat :: y in Insert(x, sorted) <==> y == x || y in sorted
  {
    if sorted != [] && x < sorted[0] {
      InsertDescending(x, sorted[1..]);
      var r, t := Insert(x, sorted), Insert(x, sorted[1..]);
      assert r == [sorted[0]] + t;
      assert sorted == [sorted[0]] + sorted[1..];
      forall j | 0 <= j < |t|
        ensures t[j] <= sorted[0]
      {
        assert t[j] in t;
        assert t[j] == x || t[j] in sorted[1..];
      }
    }
  }

  lemma {:induction false} SortSorts(waters: seq<nat>)
    ensures Descending(SortDescending(waters))
    ensures forall v: nat :: CountAtLeast(SortDescending(waters), v) == CountAtLeast(waters, v)
  {
    if waters != [] {
      var t := SortDescending(waters[1..]);
      SortSorts(waters[1..]);
      InsertDescending(waters[0], t);
      forall v: nat
        ensures CountAtLeast(SortDescending(waters), v) == CountAtLeast(waters, v)
      {
        InsertCounts(waters[0], t, v);
        assert ([waters[0]] + t)[1..] == t;
      }
    }
  }

  lemma {:induction false} DescendingCounts(sorted: seq<nat>, k: nat, v: nat)
    requires Descending(sorted)
    requires 1 <= k <= |sorted|
    ensures CountAtLeast(sorted, v) >= k <==> sorted[k - 1] >= v
  {
    if sorted[0] < v {
      NoneReach(sorted, v);
    } else if k > 1 {
      DescendingCounts(sorted[1..], k - 1, v);
    }
  }

  lemma {:induction false} NoneReach(waters: seq<nat>, v: nat)
    requires forall i :: 0 <= i < |waters| ==> waters[i] < v
    ensures CountAtLeast(waters, v) == 0
  {
    if waters != [] {
      NoneReach(waters[1..], v);
    }
  }

  /** The sorted list's `k`-th entry is the greatest value that at least `k`
      entries reach. */
  lemma KthHighestIsGreatest(waters: seq<nat>, k: nat)
    requires 1 <= k <= |waters|
    ensures CountAtLeast(waters, KthHighest(waters, k)) >= k
    ensures forall v: nat :: CountAtLeast(waters, v) >= k ==> v <= KthHighest(waters, k)
  {
    var s := SortDescending(waters);
    SortSorts(waters);
    forall v: nat
      ensures CountAtLeast(waters, v) >= k <==> s[k - 1] >= v
    {
      DescendingCounts(s, k, v);
    }
  }

  lemma {:induction false} KthHighestBounded(waters: seq<nat>, k: nat, bound: nat)
    requires 1 <= k <= |waters|
    requires forall i :: 0 <= i < |waters| ==> waters[i] <= bound
    ensures KthHighest(waters, k) <= bound
  {
    KthHighestIsGreatest(waters, k);
    if KthHighest(waters, k) > bound {
      NoneReach(waters, KthHighest(waters, k));
    }
  }

  // ----- counting voters as sets of indices -----

  function Range(n: nat): (s: set<nat>)
    ensures forall i: nat :: i in s <==> i < n
    ensures |s| == n
  {
    if n == 0 then {} else Range(n - 1) + {n - 1}
  }

  lemma SubsetSmaller(a: set<nat>, b: set<nat>)
    requires a <= b
    ensures |a| <= |b|
  {
    assert b == a + (b - a);
  }

  /** Two disjoint sets of voters cannot both be majorities. */
  lemma MajoritiesIntersect(a: set<nat>, b: set<nat>, voters: nat)
    requires a <= Range(voters) && b <= Range(voters)
    requires |a| >= Majority(voters) && |b| >= Majority(voters)
    ensures exists i: nat :: i in a && i in b
  {
    SubsetSmaller(a + b, Range(voters));
    assert |a + b| + |a * b| == |a| + |b|;
    var i: nat :| i in a * b;
    assert i in a && i in b;
  }

  /** A majority always contains a voter outside any smaller-than-majority set. */
  lemma MajorityEscapes(a: set<nat>, short: set<nat>, voters: nat)
    requires |short| < Majority(voters) <= |a|
    ensures exists i: nat :: i in a && i !in short
  {
    SubsetSmaller(a * short, short);
    assert a == (a - short) + (a * short);
    var i: nat :| i in a - short;
    assert i in a && i !in short;
  }

  /** The indices whose entry reaches `v`. */
  ghost function Reaching(waters: seq<nat>, v: nat): set<nat> {
    set i: nat | i < |waters| && waters[i] >= v
  }

  lemma {:induction false} CountAppend(waters: seq<nat>, x: nat, v: nat)
    ensures CountAtLeast(waters + [x], v) == CountAtLeast(waters, v) + (if x >= v then 1 else 0)
  {
    if waters != [] {
      assert (waters + [x])[1..] == waters[1..] + [x];
      CountAppend(waters[1..], x, v);
    }
  }

  lemma {:induction false} CountIsCardinality(waters: seq<nat>, v: nat)
    ensures |Reaching(waters, v)| == CountAtLeast(waters, v)
  {
    if waters == [] {
      assert Reaching(waters, v) == {};
    } else {
      var n := |waters| - 1;
      var init := waters[..n];
      CountIsCardinality(init, v);
      CountAppend(init, waters[n], v);
      assert waters == init + [waters[n]];
      assert Reaching(waters, v) == Reaching(init, v) + (if waters[n] >= v then {n} else {});
    }
  }
}
