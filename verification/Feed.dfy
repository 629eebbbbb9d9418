/** What a sequence of polls brings to the consumer, and what it leaves in the tables when all of it is written. */
module Feed {
  import opened Wrappers
  import opened Events
  import Intake
  import OutboxTable
  import Pipeline

  /** What one poll meets; `scoring` is the result of score_with_retry for a valid event. */
  datatype PollTurn = Nothing(flushDue: bool) | BrokerError | Incoming(partition: nat, scoring: Option<Score>)

  /** How many polls returned a message of this partition. */
  function Arrivals(turns: seq<PollTurn>, p: nat): nat {
    if turns == [] then 0
    else
      var k := |turns| - 1;
      Arrivals(turns[..k], p) + if turns[k].Incoming? && turns[k].partition == p then 1 else 0
  }

  ghost predicate Within(c: Intake.Config, position: seq<nat>) {
    |position| == |c.logs| && forall p: nat | p < |c.logs| :: position[p] <= |c.logs[p]|
  }

  /** The fetch position after some polls: one further for each message, up to the end of the log. */
  function Reached(c: Intake.Config, start: seq<nat>, turns: seq<PollTurn>): seq<nat>
    requires |start| == |c.logs|
  {
    seq(|start|, p requires 0 <= p < |start| =>
      var n := start[p] + Arrivals(turns, p); if n <= |c.logs[p]| then n else |c.logs[p]|)
  }

  predicate Fetches(c: Intake.Config, position: seq<nat>, turn: PollTurn)
    requires |position| == |c.logs|
  {
    turn.Incoming? && turn.partition < |c.logs| && position[turn.partition] < |c.logs[turn.partition]|
  }

  function Moved(c: Intake.Config, position: seq<nat>, turn: PollTurn): seq<nat>
    requires |position| == |c.logs|
  {
    if Fetches(c, position, turn) then position[turn.partition := position[turn.partition] + 1] else position
  }

  lemma ReachedStart(c: Intake.Config, start: seq<nat>)
    requires Within(c, start)
    ensures Reached(c, start, []) == start
  {
  }

  lemma ReachedStep(c: Intake.Config, start: seq<nat>, turns: seq<PollTurn>, turn: PollTurn)
    requires Within(c, start)
    ensures Reached(c, start, turns + [turn]) == Moved(c, Reached(c, start, turns), turn)
  {
    assert (turns + [turn])[..|turns|] == turns;
  }

  /** What becomes of a message; nothing when a valid event comes without a permitted score. */
  function ItemOf(c: Intake.Config, message: Message, scoring: Option<Score>): Option<Item> {
    match message
    case Malformed(summary) => Some(RejectedItem(summary))
    case Valid(event) =>
      if scoring.Some? && c.may(event, scoring.value) then Some(ScoredItem(event, scoring.value)) else None
  }

  /** The turn is not one whose event cannot be scored. */
  predicate Acceptable(c: Intake.Config, position: seq<nat>, turn: PollTurn)
    requires |position| == |c.logs|
  {
    Fetches(c, position, turn) ==>
      ItemOf(c, c.logs[turn.partition][position[turn.partition]], turn.scoring).Some?
  }

  predicate AcceptableAt(c: Intake.Config, start: seq<nat>, turns: seq<PollTurn>, i: nat)
    requires |start| == |c.logs| && i < |turns|
  {
    Acceptable(c, Reached(c, start, turns[..i]), turns[i])
  }

  function NewEntries(c: Intake.Config, position: seq<nat>, turn: PollTurn): seq<Intake.Entry>
    requires |position| == |c.logs|
  {
    if Fetches(c, position, turn) && Acceptable(c, position, turn) then
      var p, o := turn.partition, position[turn.partition];
      [Intake.Entry(p, o, ItemOf(c, c.logs[p][o], turn.scoring).value)]
    else []
  }

  /** Everything the turns bring, in order. */
  function Brought(c: Intake.Config, start: seq<nat>, turns: seq<PollTurn>): seq<Intake.Entry>
    requires |start| == |c.logs|
  {
    if turns == [] then []
    else
      var k := |turns| - 1;
      Brought(c, start, turns[..k]) + NewEntries(c, Reached(c, start, turns[..k]), turns[k])
  }

  /** Entries made of the log's messages before a position. */
  ghost predicate ReadBefore(c: Intake.Config, entries: seq<Intake.Entry>, position: seq<nat>)
    requires |position| == |c.logs|
  {
    forall i | 0 <= i < |entries| :: Intake.FromLog(c, entries[i]) && entries[i].offset < position[entries[i].partition]
  }

  /** Without a failing score the turns bring each message from the start to the position reached once, and no other. */
  lemma {:induction false} BroughtIsTheLog(c: Intake.Config, start: seq<nat>, turns: seq<PollTurn>, p: nat, o: nat)
    requires Within(c, start) && p < |c.logs|
    requires forall i: nat | i < |turns| :: AcceptableAt(c, start, turns, i)
    ensures Intake.Buffered(Brought(c, start, turns), p, o) <==> start[p] <= o < Reached(c, start, turns)[p]
    ensures Intake.InOrder(Brought(c, start, turns))
    ensures ReadBefore(c, Brought(c, start, turns), Reached(c, start, turns))
    decreases |turns|
  {
    if turns == [] {
      ReachedStart(c, start);
    } else {
      var k := |turns| - 1;
      var init, last := turns[..k], turns[k];
      assert turns == init + [last];
      forall i: nat | i < |init| ensures AcceptableAt(c, start, init, i) {
        assert init[..i] == turns[..i] && AcceptableAt(c, start, turns, i);
      }
      BroughtIsTheLog(c, start, init, p, o);
      ReachedStep(c, start, init, last);
      assert AcceptableAt(c, start, turns, k);
      BroughtStep(c, Brought(c, start, init), Reached(c, start, init), last, p, o);
    }
  }

  lemma BroughtStep(c: Intake.Config, before: seq<Intake.Entry>, position: seq<nat>, turn: PollTurn, p: nat, o: nat)
    requires |position| == |c.logs| && p < |c.logs| && Acceptable(c, position, turn)
    requires Intake.InOrder(before)
    requires ReadBefore(c, before, position)
    ensures var after, q := before + NewEntries(c, position, turn), Moved(c, position, turn);
      && (Intake.Buffered(after, p, o) <==> Intake.Buffered(before, p, o) || position[p] <= o < q[p])
      && Intake.InOrder(after) && ReadBefore(c, after, q)
  {
    var after := before + NewEntries(c, position, turn);
    assert forall i | 0 <= i < |before| :: after[i] == before[i];
    if Fetches(c, position, turn) {
      assert after[|before|] == NewEntries(c, position, turn)[0];
    }
  }

  // ----------------------------------------------------------------- tables

  function RejectionsOf(buffer: seq<Intake.Entry>): seq<Summary> {
    if buffer == [] then []
    else
      var init, item := RejectionsOf(buffer[..|buffer| - 1]), buffer[|buffer| - 1].item;
      if item.RejectedItem? then init + [item.summary] else init
  }

  /** The three tables a message ends up in. */
  datatype Tables = Tables(scored: map<string, Intake.ScoredRow>, outbox: OutboxTable.Table, rejected: seq<Summary>)

  /** The tables after entries were written in order. */
  function Written(t: Tables, entries: seq<Intake.Entry>, now: int): Tables {
    Tables(Intake.UpsertAll(t.scored, entries, now),
           OutboxTable.InsertAll(t.outbox, Pipeline.Records(entries), now),
           t.rejected + RejectionsOf(entries))
  }

  lemma {:induction false} UpsertsAdd(scored: map<string, Intake.ScoredRow>, a: seq<Intake.Entry>, b: seq<Intake.Entry>, now: int)
    ensures Intake.UpsertAll(scored, a + b, now) == Intake.UpsertAll(Intake.UpsertAll(scored, a, now), b, now)
    decreases |b|
  {
    if b == [] {
      assert a + b == a;
    } else {
      var k := |b| - 1;
      assert (a + b)[..|a + b| - 1] == a + b[..k];
      UpsertsAdd(scored, a, b[..k], now);
    }
  }

  lemma {:induction false} RejectionsAdd(a: seq<Intake.Entry>, b: seq<Intake.Entry>)
    ensures RejectionsOf(a + b) == RejectionsOf(a) + RejectionsOf(b)
    decreases |b|
  {
    if b == [] {
      assert a + b == a;
    } else {
      var k := |b| - 1;
      assert (a + b)[..|a + b| - 1] == a + b[..k];
      RejectionsAdd(a, b[..k]);
    }
  }

  lemma {:induction false} InsertsAdd(t: OutboxTable.Table, a: seq<Record>, b: seq<Record>, now: int)
    ensures OutboxTable.InsertAll(t, a + b, now) == OutboxTable.InsertAll(OutboxTable.InsertAll(t, a, now), b, now)
    decreases |a|
  {
    if a == [] {
      assert a + b == b;
    } else {
      assert (a + b)[0] == a[0] && (a + b)[1..] == a[1..] + b;
      InsertsAdd(OutboxTable.Insert(t, a[0], now), a[1..], b, now);
    }
  }

  lemma RecordsAdd(a: seq<Intake.Entry>, b: seq<Intake.Entry>)
    ensures Pipeline.Records(a + b) == Pipeline.Records(a) + Pipeline.Records(b)
  {
  }

  /** How the entries are cut into batches makes no difference. */
  lemma BatchingIsInvisible(t: Tables, a: seq<Intake.Entry>, b: seq<Intake.Entry>, now: int)
    ensures Written(Written(t, a, now), b, now) == Written(t, a + b, now)
  {
    var once, twice := Written(t, a + b, now), Written(Written(t, a, now), b, now);
    assert twice.scored == once.scored by {
      UpsertsAdd(t.scored, a, b, now);
    }
    assert twice.outbox == once.outbox by {
      RecordsAdd(a, b);
      InsertsAdd(t.outbox, Pipeline.Records(a), Pipeline.Records(b), now);
    }
    assert twice.rejected == once.rejected by {
      RejectionsAdd(a, b);
    }
  }
}
