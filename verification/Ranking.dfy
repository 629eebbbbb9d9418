/** The meaning of `ORDER BY id LIMIT n`: the n smallest elements of a finite set. */
module Ranking {

  function Below(s: set<nat>, x: nat): set<nat> {
    set y | y in s && y < x
  }

  /** The elements with fewer than n smaller ones. */
  function FirstN(s: set<nat>, n: nat): set<nat> {
    set x | x in s && |Below(s, x)| < n
  }

  lemma SubsetSize<T>(a: set<T>, b: set<T>)
    requires a <= b
    ensures |a| <= |b|
    ensures |a| == |b| ==> a == b
  {
    assert b == a + (b - a);
  }

  lemma Maximum(s: set<nat>) returns (m: nat)
    requires s != {}
    ensures m in s && forall x | x in s :: x <= m
    decreases |s|
  {
    var x :| x in s;
    var r := s - {x};
    if r == {} {
      assert s == {x};
      m := x;
    } else {
      var k := Maximum(r);
      m := if k > x then k else x;
      assert s == r + {x};
    }
  }

  /** LIMIT is exact: as many as there are, up to n. */
  lemma {:induction false} FirstNSize(s: set<nat>, n: nat)
    ensures FirstN(s, n) <= s
    ensures |FirstN(s, n)| == if |s| <= n then |s| else n
    decreases |s|
  {
    if s == {} {
      assert FirstN(s, n) == {};
    } else {
      var m := Maximum(s);
      var r := s - {m};
      FirstNSize(r, n);
      assert Below(s, m) == r;
      assert forall x | x in r :: Below(s, x) == Below(r, x);
      assert FirstN(s, n) == FirstN(r, n) + if |r| < n then {m} else {};
    }
  }

  /** ORDER BY is respected: nothing smaller than a chosen element is left behind. */
  lemma FirstNIsInitial(s: set<nat>, n: nat, x: nat, y: nat)
    requires x in s && y in FirstN(s, n) && x < y
    ensures x in FirstN(s, n)
  {
    SubsetSize(Below(s, x), Below(s, y));
  }
}
