/** GROUP BY with one aggregate, over any commutative way of adding up. */
module Grouping {

  datatype Monoid<!S> = Monoid(plus: (S, S) -> S, zero: S)

  ghost predicate Lawful<S(!new)>(m: Monoid<S>) {
    && (forall a, b, c :: m.plus(m.plus(a, b), c) == m.plus(a, m.plus(b, c)))
    && (forall a, b :: m.plus(a, b) == m.plus(b, a))
    && (forall a :: m.plus(a, m.zero) == a)
  }

  /** Adds to the entry of its key, or starts one. */
  function AddTo<K(==), S>(m: Monoid<S>, groups: seq<(K, S)>, key: K, s: S): seq<(K, S)> {
    if groups == [] then [(key, s)]
    else
      var init, last := groups[..|groups| - 1], groups[|groups| - 1];
      if last.0 == key then init + [(key, m.plus(last.1, s))] else AddTo(m, init, key, s) + [last]
  }

  function GroupBy<R, K(==), S>(m: Monoid<S>, rows: seq<R>, key: R -> K, value: R -> S): seq<(K, S)> {
    if rows == [] then []
    else
      var last := rows[|rows| - 1];
      AddTo(m, GroupBy(m, rows[..|rows| - 1], key, value), key(last), value(last))
  }

  lemma GroupOneMore<R, K, S>(m: Monoid<S>, rows: seq<R>, last: R, key: R -> K, value: R -> S)
    ensures GroupBy(m, rows + [last], key, value) == AddTo(m, GroupBy(m, rows, key, value), key(last), value(last))
  {
    assert (rows + [last])[..|rows|] == rows;
  }

  /** What the chosen rows add up to, without any grouping. */
  function SumWhere<R, S>(m: Monoid<S>, rows: seq<R>, chosen: R -> bool, value: R -> S): S {
    if rows == [] then m.zero
    else
      var last := rows[|rows| - 1];
      m.plus(SumWhere(m, rows[..|rows| - 1], chosen, value), if chosen(last) then value(last) else m.zero)
  }

  function Value<K, S>(entry: (K, S)): S {
    entry.1
  }

  function TotalWhere<K, S>(m: Monoid<S>, groups: seq<(K, S)>, p: K -> bool): S {
    if groups == [] then m.zero
    else
      var last := groups[|groups| - 1];
      m.plus(TotalWhere(m, groups[..|groups| - 1], p), if p(last.0) then last.1 else m.zero)
  }

  lemma {:induction false} AddToTotal<K, S(!new)>(m: Monoid<S>, groups: seq<(K, S)>, key: K, s: S, p: K -> bool)
    requires Lawful(m)
    ensures TotalWhere(m, AddTo(m, groups, key, s), p) == m.plus(TotalWhere(m, groups, p), if p(key) then s else m.zero)
    decreases |groups|
  {
    var after := AddTo(m, groups, key, s);
    var more := if p(key) then s else m.zero;
    if groups == [] {
      assert after[..0] == [];
    } else {
      var init, last := groups[..|groups| - 1], groups[|groups| - 1];
      var share := if p(last.0) then last.1 else m.zero;
      var before := TotalWhere(m, init, p);
      if last.0 == key {
        assert after[..|after| - 1] == init;
        assert m.plus(m.plus(before, share), more) == m.plus(before, m.plus(share, more));
      } else {
        AddToTotal(m, init, key, s, p);
        assert after[..|after| - 1] == AddTo(m, init, key, s);
        assert m.plus(m.plus(before, more), share) == m.plus(before, m.plus(more, share));
        assert m.plus(m.plus(before, share), more) == m.plus(before, m.plus(share, more));
      }
    }
  }

  /** Grouping moves nothing: any choice of keys adds up to the rows with those keys. */
  lemma {:induction false} GroupingPreservesTotals<R(!new), K, S(!new)>(
    m: Monoid<S>, rows: seq<R>, key: R -> K, value: R -> S, p: K -> bool, chosen: R -> bool)
    requires Lawful(m) && forall r :: chosen(r) == p(key(r))
    ensures TotalWhere(m, GroupBy(m, rows, key, value), p) == SumWhere(m, rows, chosen, value)
    decreases |rows|
  {
    if rows != [] {
      var init, last := rows[..|rows| - 1], rows[|rows| - 1];
      GroupingPreservesTotals(m, init, key, value, p, chosen);
      AddToTotal(m, GroupBy(m, init, key, value), key(last), value(last), p);
    }
  }

  ghost predicate KeysDistinct<K(!new), S(!new)>(groups: seq<(K, S)>) {
    forall i, j | 0 <= i < j < |groups| :: groups[i].0 != groups[j].0
  }

  predicate HasKey<K(==), S>(groups: seq<(K, S)>, key: K) {
    exists i | 0 <= i < |groups| :: groups[i].0 == key
  }

  lemma HasKeySplit<K(!new), S(!new)>(init: seq<(K, S)>, last: (K, S))
    ensures forall x :: HasKey(init + [last], x) <==> HasKey(init, x) || last.0 == x
  {
    assert (init + [last])[|init|] == last;
    assert forall i | 0 <= i < |init| :: (init + [last])[i] == init[i];
  }

  lemma {:induction false} AddToKeys<K(!new), S(!new)>(m: Monoid<S>, groups: seq<(K, S)>, key: K, s: S)
    requires KeysDistinct(groups)
    ensures KeysDistinct(AddTo(m, groups, key, s))
    ensures forall x :: HasKey(AddTo(m, groups, key, s), x) <==> HasKey(groups, x) || x == key
    decreases |groups|
  {
    if groups == [] {
      assert AddTo(m, groups, key, s)[0].0 == key;
    } else {
      var init, last := groups[..|groups| - 1], groups[|groups| - 1];
      assert groups == init + [last];
      HasKeySplit(init, last);
      assert !HasKey(init, last.0);
      if last.0 == key {
        HasKeySplit(init, (key, m.plus(last.1, s)));
      } else {
        AddToKeys(m, init, key, s);
        HasKeySplit(AddTo(m, init, key, s), last);
        assert !HasKey(AddTo(m, init, key, s), last.0);
      }
    }
  }

  /** One entry for each key that occurs, and no other. */
  lemma {:induction false} GroupKeys<R(!new), K(!new), S(!new)>(m: Monoid<S>, rows: seq<R>, key: R -> K, value: R -> S)
    ensures KeysDistinct(GroupBy(m, rows, key, value))
    ensures forall x :: HasKey(GroupBy(m, rows, key, value), x) <==> exists i | 0 <= i < |rows| :: key(rows[i]) == x
    decreases |rows|
  {
    if rows != [] {
      var n := |rows| - 1;
      GroupKeys(m, rows[..n], key, value);
      AddToKeys(m, GroupBy(m, rows[..n], key, value), key(rows[n]), value(rows[n]));
      assert forall i | 0 <= i < n :: rows[..n][i] == rows[i];
    }
  }

  lemma {:induction false} NoEntryNoTotal<K, S(!new)>(m: Monoid<S>, groups: seq<(K, S)>, p: K -> bool)
    requires Lawful(m) && forall i | 0 <= i < |groups| :: !p(groups[i].0)
    ensures TotalWhere(m, groups, p) == m.zero
    decreases |groups|
  {
    if groups != [] {
      NoEntryNoTotal(m, groups[..|groups| - 1], p);
    }
  }

  lemma {:induction false} EntryIsTotal<K(!new), S(!new)>(m: Monoid<S>, groups: seq<(K, S)>, i: nat, p: K -> bool)
    requires Lawful(m) && KeysDistinct(groups) && i < |groups|
    requires forall key :: p(key) <==> key == groups[i].0
    ensures TotalWhere(m, groups, p) == groups[i].1
    decreases |groups|
  {
    var k := |groups| - 1;
    if i < k {
      EntryIsTotal(m, groups[..k], i, p);
    } else {
      NoEntryNoTotal(m, groups[..k], p);
      assert m.plus(m.zero, groups[i].1) == m.plus(groups[i].1, m.zero);
    }
  }

  /** Each entry of a grouping adds up exactly the rows of its key. */
  lemma EntryIsDirect<R(!new), K(!new), S(!new)>(m: Monoid<S>, rows: seq<R>, key: R -> K, value: R -> S, i: nat, chosen: R -> bool)
    requires Lawful(m) && i < |GroupBy(m, rows, key, value)|
    requires forall r :: chosen(r) <==> key(r) == GroupBy(m, rows, key, value)[i].0
    ensures GroupBy(m, rows, key, value)[i].1 == SumWhere(m, rows, chosen, value)
  {
    var groups := GroupBy(m, rows, key, value);
    var p := x => x == groups[i].0;
    GroupKeys(m, rows, key, value);
    EntryIsTotal(m, groups, i, p);
    GroupingPreservesTotals(m, rows, key, value, p, chosen);
  }

  lemma {:induction false} TotalsAreSums<K, S>(m: Monoid<S>, groups: seq<(K, S)>, p: K -> bool, chosen: ((K, S)) -> bool)
    requires forall i | 0 <= i < |groups| :: chosen(groups[i]) == p(groups[i].0)
    ensures TotalWhere(m, groups, p) == SumWhere(m, groups, chosen, Value)
    decreases |groups|
  {
    if groups != [] {
      TotalsAreSums(m, groups[..|groups| - 1], p, chosen);
    }
  }

  /** Grouping a grouping by coarser keys is grouping the rows by the coarser keys. */
  lemma RollUpIsDirect<R(!new), K(!new), L(!new), S(!new)>(
    m: Monoid<S>, rows: seq<R>, key: R -> K, value: R -> S, coarse: ((K, S)) -> L, up: K -> L, i: nat, chosen: R -> bool)
    requires Lawful(m) && forall e :: coarse(e) == up(e.0)
    requires i < |GroupBy(m, GroupBy(m, rows, key, value), coarse, Value)|
    requires forall r :: chosen(r) <==> up(key(r)) == GroupBy(m, GroupBy(m, rows, key, value), coarse, Value)[i].0
    ensures GroupBy(m, GroupBy(m, rows, key, value), coarse, Value)[i].1 == SumWhere(m, rows, chosen, value)
  {
    var fine := GroupBy(m, rows, key, value);
    var target := GroupBy(m, fine, coarse, Value)[i].0;
    var inTarget := (e: (K, S)) => coarse(e) == target;
    var p := (k: K) => up(k) == target;
    EntryIsDirect(m, fine, coarse, Value, i, inTarget);
    TotalsAreSums(m, fine, p, inTarget);
    GroupingPreservesTotals(m, rows, key, value, p, chosen);
  }
}
