/** Retention deletes expired rows in bounded transactions until a pass comes back short. */
module Retention {
  import opened Wrappers
  import opened Ranking
  import OutboxTable
  import Relay

  type Time = int

  /** A table as its rows' ids and the timestamp column retention looks at; None is NULL. */
  type View = map<nat, Option<Time>>

  function Expired(rows: View, cutoff: Time): set<nat> {
    set id | id in rows && rows[id].Some? && rows[id].value < cutoff
  }

  ghost predicate Shrunk(start: View, rows: View) {
    rows.Keys <= start.Keys && forall id | id in rows :: rows[id] == start[id]
  }

  /** One DELETE ... LIMIT: only expired rows go, and as many of them as the limit allows. */
  ghost predicate Pass(before: View, after: View, cutoff: Time, batch: nat) {
    && Shrunk(before, after)
    && before.Keys - after.Keys <= Expired(before, cutoff)
    && |before.Keys - after.Keys| == if |Expired(before, cutoff)| < batch then |Expired(before, cutoff)| else batch
  }

  class Table {
    var rows: View

    constructor (rows: View)
      ensures this.rows == rows
    {
      this.rows := rows;
    }

    method DeleteSome(cutoff: Time, limit: nat) returns (deleted: nat)
      modifies this
      ensures Pass(old(rows), rows, cutoff, limit)
      ensures deleted == |old(rows).Keys - rows.Keys|
    {
      var gone := FirstN(Expired(rows, cutoff), limit);
      FirstNSize(Expired(rows, cutoff), limit);
      deleted := |gone|;
      rows := rows - gone;
      assert old(rows).Keys - rows.Keys == gone;
    }
  }

  ghost predicate NonDecreasing(cutoffs: nat -> Time) {
    forall i: nat, j: nat :: i <= j ==> cutoffs(i) <= cutoffs(j)
  }

  ghost predicate PassAt(views: seq<View>, cutoffs: nat -> Time, batch: nat, i: nat)
    requires i + 1 < |views|
  {
    Pass(views[i], views[i + 1], cutoffs(i), batch)
  }

  /** The table before the first pass and after each one. */
  ghost predicate Passes(views: seq<View>, cutoffs: nat -> Time, batch: nat) {
    views != [] && forall i: nat | i + 1 < |views| :: PassAt(views, cutoffs, batch, i)
  }

  /** The rows gone so far were all expired at the latest cutoff. */
  ghost predicate Progress(start: View, rows: View, cutoff: Time, total: nat) {
    && Shrunk(start, rows)
    && start.Keys - rows.Keys <= Expired(start, cutoff)
    && total == |start.Keys - rows.Keys|
  }

  ghost predicate Trail(views: seq<View>, start: View, rows: View, passes: nat) {
    |views| == passes + 1 && views[0] == start && views[passes] == rows
  }

  /** All passes but the last deleted a full batch. */
  ghost predicate Counted(total: nat, passes: nat, deleted: nat, batch: nat) {
    total == (passes - 1) * batch + deleted
  }

  /**
   Each pass is its own transaction, so the cutoff may move on between passes. When it ends exactly the
   rows expired at the last cutoff are gone, and it took one pass more than full batches.
   */
  method DeleteInBatches(t: Table, cutoffs: nat -> Time, batch: nat) returns (total: nat, passes: nat, ghost views: seq<View>)
    requires batch >= 1 && NonDecreasing(cutoffs)
    modifies t
    ensures passes == total / batch + 1
    ensures Shrunk(old(t.rows), t.rows)
    ensures forall id | id in old(t.rows) ::
      id !in t.rows <==> old(t.rows)[id].Some? && old(t.rows)[id].value < cutoffs(passes - 1)
    ensures total == |old(t.rows).Keys - t.rows.Keys|
    ensures Trail(views, old(t.rows), t.rows, passes) && Passes(views, cutoffs, batch)
  {
    total, passes := 0, 0;
    ghost var start, last := t.rows, cutoffs(0);
    views := [t.rows];
    var deleted: nat := batch;
    while deleted >= batch
      invariant last == if passes == 0 then cutoffs(0) else cutoffs(passes - 1)
      invariant Progress(start, t.rows, last, total)
      invariant deleted <= batch && Counted(total, passes, deleted, batch)
      invariant deleted < batch ==> passes > 0 && Expired(t.rows, last) == {}
      invariant Trail(views, start, t.rows, passes) && Passes(views, cutoffs, batch)
      decreases |t.rows|, deleted
    {
      ghost var before := t.rows;
      deleted := t.DeleteSome(cutoffs(passes), batch);
      PassEffect(start, before, t.rows, last, cutoffs(passes), total, batch);
      CountPass(total, passes, deleted, batch);
      PassesGrow(views, t.rows, cutoffs, batch);
      last, views := cutoffs(passes), views + [t.rows];
      total, passes := total + deleted, passes + 1;
    }
    AllExpiredGone(start, t.rows, last);
    CountedIsQuotient(total, passes, deleted, batch);
  }

  lemma PassesGrow(views: seq<View>, after: View, cutoffs: nat -> Time, batch: nat)
    requires Passes(views, cutoffs, batch) && Pass(views[|views| - 1], after, cutoffs(|views| - 1), batch)
    ensures Passes(views + [after], cutoffs, batch)
  {
    forall i: nat | i + 1 < |views + [after]| ensures PassAt(views + [after], cutoffs, batch, i) {
      assert i + 1 < |views| ==> PassAt(views, cutoffs, batch, i);
    }
  }

  /** All passes but the last. */
  lemma PassesBefore(views: seq<View>, cutoffs: nat -> Time, batch: nat)
    requires Passes(views, cutoffs, batch) && |views| > 1
    ensures Passes(views[..|views| - 1], cutoffs, batch)
    ensures Pass(views[|views| - 2], views[|views| - 1], cutoffs(|views| - 2), batch)
  {
    assert PassAt(views, cutoffs, batch, |views| - 2);
    var init := views[..|views| - 1];
    forall i: nat | i + 1 < |init| ensures PassAt(init, cutoffs, batch, i) {
      assert PassAt(views, cutoffs, batch, i);
    }
  }

  lemma CountPass(total: nat, passes: nat, deleted: nat, batch: nat)
    requires Counted(total, passes, batch, batch)
    ensures Counted(total + deleted, passes + 1, deleted, batch)
  {
    assert (passes - 1) * batch + batch == passes * batch;
  }

  lemma ProductIsNotNegative(a: nat, b: nat)
    ensures 0 <= a * b
  {
  }

  lemma MultipleIsFar(x: int, batch: int)
    requires x != 0 && batch >= 1
    ensures x * batch >= batch || x * batch <= -batch
  {
    if x > 0 {
      ProductIsNotNegative(x - 1, batch);
      assert x * batch == (x - 1) * batch + batch;
    } else {
      ProductIsNotNegative(-x - 1, batch);
      assert x * batch == -((-x - 1) * batch) - batch;
    }
  }

  lemma CountedIsQuotient(total: nat, passes: nat, deleted: nat, batch: nat)
    requires deleted < batch && Counted(total, passes, deleted, batch)
    ensures passes == total / batch + 1
  {
    var q := passes - 1;
    var k := total / batch;
    assert (q - k) * batch == q * batch - k * batch;
    if q != k {
      MultipleIsFar(q - k, batch);
    }
  }

  lemma AllExpiredGone(start: View, rows: View, cutoff: Time)
    requires Shrunk(start, rows) && start.Keys - rows.Keys <= Expired(start, cutoff) && Expired(rows, cutoff) == {}
    ensures forall id | id in start :: id !in rows <==> start[id].Some? && start[id].value < cutoff
  {
    forall id | id in start ensures id !in rows <==> start[id].Some? && start[id].value < cutoff {
      assert id !in rows ==> id in start.Keys - rows.Keys;
      assert id in rows ==> (id in Expired(rows, cutoff) <==> id in Expired(start, cutoff));
    }
  }

  lemma PassEffect(start: View, before: View, after: View, earlier: Time, cutoff: Time, total: nat, batch: nat)
    requires Progress(start, before, earlier, total) && earlier <= cutoff && Pass(before, after, cutoff, batch)
    ensures var deleted := |before.Keys - after.Keys|;
      && deleted <= batch && |after| + deleted == |before|
      && Progress(start, after, cutoff, total + deleted)
      && (deleted < batch ==> Expired(after, cutoff) == {})
  {
    SizesAdd(start.Keys, before.Keys, after.Keys);
    StillExpired(start, before, after, earlier, cutoff);
    if |before.Keys - after.Keys| < batch {
      NoneLeft(before, after, cutoff);
    }
  }

  lemma SizesAdd(start: set<nat>, before: set<nat>, after: set<nat>)
    requires after <= before <= start
    ensures |start - after| == |start - before| + |before - after|
    ensures |before| == |after| + |before - after|
  {
    assert start - after == (start - before) + (before - after);
    assert before == after + (before - after);
  }

  lemma StillExpired(start: View, before: View, after: View, earlier: Time, cutoff: Time)
    requires Shrunk(start, before) && after.Keys <= before.Keys
    requires start.Keys - before.Keys <= Expired(start, earlier) && earlier <= cutoff
    requires before.Keys - after.Keys <= Expired(before, cutoff)
    ensures start.Keys - after.Keys <= Expired(start, cutoff)
  {
    forall id | id in start && id !in after ensures id in Expired(start, cutoff) {
      if id in before {
        assert id in before.Keys - after.Keys;
      } else {
        assert id in start.Keys - before.Keys;
      }
    }
  }

  /** A short pass took everything that was expired. */
  lemma NoneLeft(before: View, after: View, cutoff: Time)
    requires Shrunk(before, after) && before.Keys - after.Keys <= Expired(before, cutoff)
    requires |before.Keys - after.Keys| == |Expired(before, cutoff)|
    ensures Expired(after, cutoff) == {}
  {
    SubsetSize(before.Keys - after.Keys, Expired(before, cutoff));
    assert before.Keys - after.Keys == Expired(before, cutoff);
    assert Expired(after, cutoff) <= Expired(before, cutoff);
    assert Expired(after, cutoff) <= after.Keys;
  }

  // -------------------------------------------------- retention of the outbox

  /** What retention sees of kafka_outbox. */
  function PublishedAt(t: OutboxTable.Table): View {
    map id | id in t.rows :: t.rows[id].publishedAt
  }

  /** A retention of some age that begins less than that age after a row was published leaves the row. */
  lemma YoungRowIsKept(rows: View, left: View, cutoff: Time, id: nat, now: Time, age: int)
    requires id in rows && rows[id].Some? && cutoff == now - age && now <= rows[id].value + age
    requires forall id | id in rows :: id !in left <==> rows[id].Some? && rows[id].value < cutoff
    ensures id in left
  {
  }

  /** A pass over kafka_outbox is a purge step of the publishing half. */
  lemma PassIsPurge(limit: nat, s: Relay.State, after: View, cutoff: Time, batch: nat, age: int)
    requires Pass(PublishedAt(s.table), after, cutoff, batch) && cutoff == s.now - age
    ensures var step := Relay.Purge(s.table.rows.Keys - after.Keys, age);
      Relay.Enabled(limit, s, step) && PublishedAt(Relay.Apply(limit, s, step).table) == after
  {
    var gone := s.table.rows.Keys - after.Keys;
    var view := PublishedAt(s.table);
    assert view.Keys == s.table.rows.Keys;
    forall id | id in gone ensures OutboxTable.Expired(s.table.rows[id], cutoff) {
      assert id in Expired(view, cutoff);
    }
    var rest := PublishedAt(OutboxTable.Delete(s.table, gone));
    assert rest.Keys == after.Keys;
  }

  lemma PassReaches(limit: nat, s0: Relay.State, s: Relay.State, after: View, cutoff: Time, batch: nat, age: int)
    returns (s': Relay.State)
    requires Relay.Reaches(limit, s0, s) && Pass(PublishedAt(s.table), after, cutoff, batch) && cutoff == s.now - age
    ensures Relay.Reaches(limit, s0, s') && PublishedAt(s'.table) == after && s'.now == s.now && s'.history == s.history
  {
    PassIsPurge(limit, s, after, cutoff, batch, age);
    var purge := Relay.Purge(s.table.rows.Keys - after.Keys, age);
    Relay.ReachesStep(limit, s0, s, purge);
    s' := Relay.Apply(limit, s, purge);
  }

  /** Waiting for a cutoff, then one pass. */
  lemma LaterPassReaches(limit: nat, s0: Relay.State, s: Relay.State, after: View, cutoff: Time, batch: nat, age: int)
    returns (s': Relay.State)
    requires Relay.Reaches(limit, s0, s) && s.now - age <= cutoff && Pass(PublishedAt(s.table), after, cutoff, batch)
    ensures Relay.Reaches(limit, s0, s') && PublishedAt(s'.table) == after && s'.now - age == cutoff && s'.history == s.history
  {
    var mid := s.(now := cutoff + age);
    Relay.ReachesLater(limit, s0, s, cutoff + age);
    s' := PassReaches(limit, s0, mid, after, cutoff, batch, age);
  }

  /** Retention of the outbox, from start to end, is a run of the publishing half: time passes and rows are purged. */
  lemma {:induction false} RetentionIsARun(limit: nat, s0: Relay.State, views: seq<View>, cutoffs: nat -> Time, batch: nat, age: int)
    returns (s: Relay.State)
    requires Passes(views, cutoffs, batch) && NonDecreasing(cutoffs)
    requires views[0] == PublishedAt(s0.table) && s0.now - age <= cutoffs(0)
    ensures Relay.Reaches(limit, s0, s) && PublishedAt(s.table) == views[|views| - 1] && s.history == s0.history
    ensures s.now - age == if |views| == 1 then s0.now - age else cutoffs(|views| - 2)
    decreases |views|
  {
    var k := |views| - 1;
    if k == 0 {
      s := s0;
      Relay.ReachesSelf(limit, s0);
    } else {
      PassesBefore(views, cutoffs, batch);
      s := RetentionIsARun(limit, s0, views[..k], cutoffs, batch, age);
      s := LaterPassReaches(limit, s0, s, views[k], cutoffs(k - 1), batch, age);
    }
  }

  /**
   From any reachable state, retention keeps every row not yet published, and each row it removes has a
   copy in the broker's log.
   */
  lemma RetentionLosesNothing(limit: nat, s0: Relay.State, steps: seq<Relay.Step>, s: Relay.State,
                              views: seq<View>, cutoffs: nat -> Time, batch: nat, age: int, id: nat)
    requires Relay.Init(s0) && Relay.Run(limit, s0, steps, s)
    requires Passes(views, cutoffs, batch) && NonDecreasing(cutoffs)
    requires views[0] == PublishedAt(s.table) && s.now - age <= cutoffs(0)
    requires id in s.table.rows
    ensures s.table.rows[id].publishedAt.None? ==> id in views[|views| - 1]
    ensures id !in views[|views| - 1] ==> exists t :: t in s.broker && t.id == id && t.record == s.table.rows[id].record
  {
    Relay.RunKeeps(limit, s0, steps, s);
    PurgedWerePublished(views, cutoffs, batch, id);
    if id !in views[|views| - 1] {
      assert Relay.Delivered(s.broker, id);
      var t :| t in s.broker && t.id == id;
      assert Relay.TicketInv(s.history, t) && Relay.RowInv(s.now, s.table.rows[id], s.history[id]);
    }
  }

  lemma {:induction false} PurgedWerePublished(views: seq<View>, cutoffs: nat -> Time, batch: nat, id: nat)
    requires Passes(views, cutoffs, batch) && id in views[0]
    ensures views[0][id].None? ==> id in views[|views| - 1]
    ensures id in views[|views| - 1] ==> views[|views| - 1][id] == views[0][id]
    decreases |views|
  {
    var k := |views| - 1;
    if k > 0 {
      PassesBefore(views, cutoffs, batch);
      PurgedWerePublished(views[..k], cutoffs, batch, id);
      if id in views[k - 1] && id !in views[k] {
        assert id in Expired(views[k - 1], cutoffs(k - 1));
      }
    }
  }
}
