/** Shared small types, and the least and greatest element of a finite set. */
module Wrappers {

  datatype Option<+T> = None | Some(value: T)

  ghost predicate IsGreatest(s: set<nat>, m: nat) {
    m in s && forall x :: x in s ==> x <= m
  }

  ghost predicate IsLeast(s: set<nat>, m: nat) {
    m in s && forall x :: x in s ==> m <= x
  }

  lemma {:induction false} GreatestExists(s: set<nat>)
    requires s != {}
    ensures exists m :: IsGreatest(s, m)
    decreases s
  {
    var y :| y in s;
    if s == {y} {
      assert IsGreatest(s, y);
    } else {
      var rest := s - {y};
      assert s == {y} + rest;
      GreatestExists(rest);
      var m :| IsGreatest(rest, m);
      assert IsGreatest(s, if y > m then y else m);
    }
  }

  lemma {:induction false} LeastExists(s: set<nat>)
    requires s != {}
    ensures exists m :: IsLeast(s, m)
    decreases s
  {
    var y :| y in s;
    if s == {y} {
      assert IsLeast(s, y);
    } else {
      var rest := s - {y};
      assert s == {y} + rest;
      LeastExists(rest);
      var m :| IsLeast(rest, m);
      assert IsLeast(s, if y < m then y else m);
    }
  }

  function Greatest(s: set<nat>): (m: nat)
    requires s != {}
    ensures IsGreatest(s, m)
  {
    GreatestExists(s);
    var m: nat :| m in s && forall x :: x in s ==> x <= m;
    m
  }

  function Least(s: set<nat>): (m: nat)
    requires s != {}
    ensures IsLeast(s, m)
  {
    LeastExists(s);
    var m: nat :| m in s && forall x :: x in s ==> m <= x;
    m
  }

  // ----- maps -----

  lemma Without<V>(m: map<nat, V>, k: nat)
    requires k in m
    ensures |m - {k}| < |m|
  {
    assert (m - {k}).Keys == m.Keys - {k};
    assert |m.Keys - {k}| < |m.Keys|;
    assert |m.Keys| == |m| && |(m - {k}).Keys| == |m - {k}|;
  }

  lemma MergeOne<V>(acc: map<nat, V>, m: map<nat, V>, k: nat)
    requires k in m
    ensures acc[k := m[k]] + (m - {k}) == acc + m
  {
  }

  lemma MergeNone<V>(acc: map<nat, V>, m: map<nat, V>)
    requires m.Keys == {}
    ensures acc + m == acc
  {
  }
}
