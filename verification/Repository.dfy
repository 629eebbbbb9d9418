/** The pooled PostgreSQL repository: each method is one transaction. */
module Repository {
  import opened Wrappers
  import opened Events
  import opened OutboxTable
  import Intake
  import Relay

  datatype Tag = Text(name: string, text: string) | Number(name: string, number: int)

  /** Each of these metrics has one label, `tag`. */
  datatype Metric = Metric(name: string, value: int, tag: Tag)

  datatype WriteBatch = WriteBatch(
    scores: seq<(Event, Score)>,
    rejections: seq<Summary>,
    metrics: seq<Metric>,
    outbox: seq<Record>)

  function BatchSize(batch: WriteBatch): nat {
    |batch.scores| + |batch.rejections|
  }

  function UpsertScores(scored: map<string, Intake.ScoredRow>, scores: seq<(Event, Score)>, now: Time)
    : map<string, Intake.ScoredRow>
  {
    if scores == [] then scored
    else
      var k := |scores| - 1;
      Intake.Upsert(UpsertScores(scored, scores[..k], now), ScoredItem(scores[k].0, scores[k].1), now)
  }

  /** RETURNING gives no order. */
  method AnyOrder(ids: set<RowId>) returns (order: seq<RowId>)
    ensures Relay.Enumerates(order, ids)
  {
    var todo := ids;
    order := [];
    while todo != {}
      invariant todo <= ids && Relay.Enumerates(order, ids - todo)
      decreases |todo|
    {
      var id :| id in todo;
      assert ids - (todo - {id}) == (ids - todo) + {id};
      order, todo := order + [id], todo - {id};
    }
    assert ids - todo == ids;
  }

  class TransactionRepository {
    var clock: Time
    var scored: map<string, Intake.ScoredRow>
    var rejected: seq<Summary>
    var metrics: seq<Metric>
    var outbox: Table

    constructor (now: Time)
      ensures clock == now && scored == map[] && rejected == [] && metrics == [] && outbox == Table(map[], 0)
    {
      clock, scored, rejected, metrics, outbox := now, map[], [], [], Table(map[], 0);
    }

    /** Time passes between transactions. */
    method Advance(elapsed: nat)
      modifies this`clock
      ensures clock == old(clock) + elapsed
    {
      clock := clock + elapsed;
    }

    /** All four tables change together, or, when the database fails, none does. */
    method SaveBatch(batch: WriteBatch, available: bool) returns (saved: bool)
      modifies this`scored, this`rejected, this`metrics, this`outbox
      ensures saved == available
      ensures saved ==>
        && scored == UpsertScores(old(scored), batch.scores, clock)
        && rejected == old(rejected) + batch.rejections
        && metrics == old(metrics) + batch.metrics
        && outbox == InsertAll(old(outbox), batch.outbox, clock)
      ensures !saved ==>
        scored == old(scored) && rejected == old(rejected) && metrics == old(metrics) && outbox == old(outbox)
    {
      if !available {
        return false;
      }
      for i := 0 to |batch.scores|
        invariant scored == UpsertScores(old(scored), batch.scores[..i], clock)
        invariant rejected == old(rejected) && metrics == old(metrics) && outbox == old(outbox)
      {
        assert batch.scores[..i + 1][..i] == batch.scores[..i];
        scored := Intake.Upsert(scored, ScoredItem(batch.scores[i].0, batch.scores[i].1), clock);
      }
      assert batch.scores[..|batch.scores|] == batch.scores;
      rejected := rejected + batch.rejections;
      metrics := metrics + batch.metrics;
      for i := 0 to |batch.outbox|
        invariant InsertAll(outbox, batch.outbox[i..], clock) == InsertAll(old(outbox), batch.outbox, clock)
        invariant scored == UpsertScores(old(scored), batch.scores, clock)
        invariant rejected == old(rejected) + batch.rejections && metrics == old(metrics) + batch.metrics
      {
        outbox := Insert(outbox, batch.outbox[i], clock);
        assert batch.outbox[i..][1..] == batch.outbox[i + 1..];
      }
      return true;
    }

    /** The claimed rows come back in no particular order. */
    method ClaimOutbox(limit: nat, token: Token, locked: set<RowId>) returns (rows: seq<Relay.Ticket>, order: seq<RowId>)
      modifies this`outbox
      ensures outbox == ClaimIds(old(outbox), Candidates(old(outbox), clock, limit, locked), token, clock)
      ensures Relay.Enumerates(order, Candidates(old(outbox), clock, limit, locked))
      ensures forall i | 0 <= i < |order| :: order[i] in old(outbox).rows
      ensures |rows| == |order| && outbox.rows.Keys == old(outbox).rows.Keys
      ensures forall i | 0 <= i < |order| :: rows[i] == Relay.Ticket(order[i], token, old(outbox).rows[order[i]].record)
      ensures forall i | 0 <= i < |order| :: var row := old(outbox).rows[order[i]];
        outbox.rows[order[i]] == Row(row.record, row.availableAt, row.attempts + 1, Some(clock), Some(token), row.publishedAt, row.lastError)
      ensures rows == Relay.Tickets(old(outbox), token, order)
    {
      var ids := Candidates(outbox, clock, limit, locked);
      CandidatesEffect(outbox, clock, limit, locked);
      order := AnyOrder(ids);
      rows := Relay.Tickets(outbox, token, order);
      outbox := ClaimIds(outbox, ids, token, clock);
    }

    method MarkOutboxPublished(id: RowId, token: Token)
      modifies this`outbox
      ensures outbox == MarkPublished(old(outbox), id, token, clock)
    {
      if id in outbox.rows && outbox.rows[id].claimToken == Some(token) {
        var row := outbox.rows[id];
        row := row.(publishedAt := Some(clock), claimedAt := None, claimToken := None, lastError := None);
        outbox := outbox.(rows := outbox.rows[id := row]);
      }
    }

    method ReleaseOutbox(id: RowId, token: Token, error: string)
      modifies this`outbox
      ensures outbox == Release(old(outbox), id, token, error, clock)
    {
      if id in outbox.rows && outbox.rows[id].claimToken == Some(token) {
        var row := outbox.rows[id];
        var delay := 5_000_000 * row.attempts;
        if delay > 300_000_000 {
          delay := 300_000_000;
        }
        row := row.(claimedAt := None, claimToken := None, availableAt := clock + delay,
                    lastError := Some(if |error| > 500 then error[..500] else error));
        outbox := outbox.(rows := outbox.rows[id := row]);
      }
    }
  }
}
