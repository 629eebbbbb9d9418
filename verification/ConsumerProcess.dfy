/** The consumer: score_with_retry, the buffer it fills, flush, and the loop with its final flush. */
module ConsumerProcess {
  import opened Wrappers
  import opened Events
  import opened Feed
  import opened Repository
  import Intake
  import OutboxTable
  import Pipeline
  import Relay

  // ---------------------------------------------------------- score_with_retry

  datatype Response = Scored(score: Score) | BadContract | Status(code: nat) | TransportFailure

  datatype ScoreError = NoAttempts | InvalidContract | HttpStatus(code: nat) | Transport | MetricNotRecorded

  predicate Retryable(response: Response) {
    response.TransportFailure? || (response.Status? && (response.code == 429 || response.code >= 500))
  }

  /** The service was not reached, was overloaded, or failed: it may answer next time. */
  ghost predicate Temporary(response: Response) {
    match response
    case TransportFailure => true
    case Status(code) => code == 429 || code >= 500
    case _ => false
  }

  function Outcome(response: Response): Result<Score, ScoreError> {
    match response
    case Scored(score) => Ok(score)
    case BadContract => Err(InvalidContract)
    case Status(code) => Err(HttpStatus(code))
    case TransportFailure => Err(Transport)
  }

  /** After request k the loop goes on: it may be repeated, there are attempts left, and the retry is recorded. */
  predicate GoesOn(responses: nat -> Response, recorded: nat -> bool, attempts: nat, k: nat) {
    Retryable(responses(k)) && k < attempts && recorded(k)
  }

  /** What leaves the loop at request k: the response, or the metric of the next attempt that could not be written. */
  function Leaves(responses: nat -> Response, attempts: nat, k: nat): Result<Score, ScoreError> {
    if Retryable(responses(k)) && k < attempts then Err(MetricNotRecorded) else Outcome(responses(k))
  }

  /**
   `calls` requests were sent, one metric was recorded for each repeated one, and `slept` back-off units
   were waited: 1 + 2 + ... + (calls - 1).
   */
  method ScoreWithRetry(responses: nat -> Response, recorded: nat -> bool, attempts: nat)
    returns (r: Result<Score, ScoreError>, calls: nat, slept: nat, metrics: seq<Metric>)
    ensures attempts == 0 ==> r == Err(NoAttempts) && calls == 0 && metrics == []
    ensures attempts > 0 ==>
      && 1 <= calls <= attempts && !GoesOn(responses, recorded, attempts, calls)
      && (forall k | 1 <= k < calls :: GoesOn(responses, recorded, attempts, k))
      && r == Leaves(responses, attempts, calls)
    ensures forall k | 1 <= k < calls :: Temporary(responses(k))
    ensures r.Err? && r.error.HttpStatus? && calls < attempts ==> r.error.code != 429 && r.error.code < 500
    ensures r.Err? && r.error.Transport? ==> calls == attempts
    ensures |metrics| == (if calls == 0 then 0 else calls - 1)
    ensures forall k | 0 <= k < |metrics| :: metrics[k] == Metric("scoring_api_retries", 1, Number("attempt", k + 2))
    ensures attempts > 0 ==> 2 * slept == calls * (calls - 1)
  {
    calls, slept, metrics := 0, 0, [];
    if attempts < 1 {
      return Err(NoAttempts), calls, slept, metrics;
    }
    while true
      invariant calls < attempts
      invariant forall k | 1 <= k <= calls :: GoesOn(responses, recorded, attempts, k)
      invariant forall k | 1 <= k <= calls :: Temporary(responses(k))
      invariant |metrics| == calls && 2 * slept == (calls + 1) * calls
      invariant forall k | 0 <= k < |metrics| :: metrics[k] == Metric("scoring_api_retries", 1, Number("attempt", k + 2))
      decreases attempts - calls
    {
      calls := calls + 1;
      var response := responses(calls);
      match response {
        case Scored(score) => return Ok(score), calls, slept, metrics;
        case BadContract => return Err(InvalidContract), calls, slept, metrics;
        case Status(code) =>
          var retryable := code == 429 || code >= 500;
          if !retryable || calls == attempts {
            return Err(HttpStatus(code)), calls, slept, metrics;
          }
        case TransportFailure =>
          if calls == attempts {
            return Err(Transport), calls, slept, metrics;
          }
      }
      if !recorded(calls) {
        return Err(MetricNotRecorded), calls, slept, metrics;
      }
      metrics := metrics + [Metric("scoring_api_retries", 1, Number("attempt", calls + 1))];
      slept := slept + calls;
    }
  }

  // ----------------------------------------------- the lists behind the buffer

  function ScoresOf(buffer: seq<Intake.Entry>): seq<(Event, Score)> {
    if buffer == [] then []
    else
      var init, item := ScoresOf(buffer[..|buffer| - 1]), buffer[|buffer| - 1].item;
      if item.ScoredItem? then init + [(item.event, item.score)] else init
  }

  function MetricOf(item: Item): Metric {
    match item
    case ScoredItem(_, score) => Metric("transactions_scored", 1, Text("decision", score.decision))
    case RejectedItem(summary) => Metric("transactions_rejected", 1, Text("error", summary.errorType))
  }

  function MetricsOf(buffer: seq<Intake.Entry>): seq<Metric> {
    seq(|buffer|, i requires 0 <= i < |buffer| => MetricOf(buffer[i].item))
  }

  function MessagesOf(buffer: seq<Intake.Entry>): seq<(nat, nat)> {
    seq(|buffer|, i requires 0 <= i < |buffer| => (buffer[i].partition, buffer[i].offset))
  }

  lemma {:induction false} EveryEntryCounts(buffer: seq<Intake.Entry>)
    ensures |ScoresOf(buffer)| + |RejectionsOf(buffer)| == |buffer|
    decreases |buffer|
  {
    if buffer != [] {
      EveryEntryCounts(buffer[..|buffer| - 1]);
    }
  }

  /** Writing the score list is writing the buffer. */
  lemma {:induction false} ScoresAreUpserts(scored: map<string, Intake.ScoredRow>, buffer: seq<Intake.Entry>, now: int)
    ensures UpsertScores(scored, ScoresOf(buffer), now) == Intake.UpsertAll(scored, buffer, now)
    decreases |buffer|
  {
    if buffer != [] {
      var k := |buffer| - 1;
      ScoresAreUpserts(scored, buffer[..k], now);
      if buffer[k].item.ScoredItem? {
        var all := ScoresOf(buffer);
        assert all[..|all| - 1] == ScoresOf(buffer[..k]);
      }
    }
  }

  /** The offset to commit for each partition: one past its last message in the list. */
  function LatestOffsets(messages: seq<(nat, nat)>): map<nat, nat> {
    if messages == [] then map[]
    else
      var k := |messages| - 1;
      LatestOffsets(messages[..k])[messages[k].0 := messages[k].1 + 1]
  }

  lemma {:induction false} LatestIsLast(buffer: seq<Intake.Entry>, p: nat)
    requires Intake.InOrder(buffer)
    ensures var m := LatestOffsets(MessagesOf(buffer));
      if exists i :: 0 <= i < |buffer| && buffer[i].partition == p then
        && p in m
        && (exists i :: 0 <= i < |buffer| && buffer[i].partition == p && m[p] == buffer[i].offset + 1)
        && (forall i | 0 <= i < |buffer| && buffer[i].partition == p :: buffer[i].offset < m[p])
      else p !in m
    decreases |buffer|
  {
    if buffer != [] {
      var k := |buffer| - 1;
      var init := buffer[..k];
      assert MessagesOf(buffer)[..k] == MessagesOf(init);
      LatestIsLast(init, p);
      assert forall i | 0 <= i < k :: buffer[i] == init[i];
    }
  }

  /** Flush commits exactly the end of the buffered window. */
  lemma LatestIsNext(c: Intake.Config, s: Intake.State, p: nat)
    requires Intake.WindowInv(c, s)
    ensures var m := LatestOffsets(MessagesOf(s.buffer));
      && (p in m <==> p < |c.logs| && s.base[p] < s.next[p])
      && (p in m ==> m[p] == s.next[p])
  {
    LatestIsLast(s.buffer, p);
    if p < |c.logs| && s.base[p] < s.next[p] {
      assert Intake.Buffered(s.buffer, p, s.next[p] - 1);
    }
    forall i | 0 <= i < |s.buffer| && s.buffer[i].partition == p ensures p < |c.logs| && s.base[p] < s.next[p]
      && s.buffer[i].offset < s.next[p]
    {
      assert Intake.EntryInv(c, s.base, s.next, s.buffer[i]);
    }
  }

  lemma AppendMatches(buffer: seq<Intake.Entry>, e: Intake.Entry)
    ensures MessagesOf(buffer + [e]) == MessagesOf(buffer) + [(e.partition, e.offset)]
    ensures MetricsOf(buffer + [e]) == MetricsOf(buffer) + [MetricOf(e.item)]
    ensures Pipeline.Records(buffer + [e]) == Pipeline.Records(buffer) + [RecordOf(e.partition, e.offset, e.item)]
    ensures ScoresOf(buffer + [e]) == ScoresOf(buffer) + if e.item.ScoredItem? then [(e.item.event, e.item.score)] else []
    ensures RejectionsOf(buffer + [e]) == RejectionsOf(buffer) + if e.item.RejectedItem? then [e.item.summary] else []
  {
    assert (buffer + [e])[..|buffer|] == buffer;
  }

  lemma Regroup(a: seq<Intake.Entry>, b: seq<Intake.Entry>, d: seq<Intake.Entry>)
    ensures a + b + d == a + (b + d)
  {
  }

  // ------------------------------------------------------------------- commits

  /** The offsets of these partitions are committed, all others as before. */
  ghost predicate Committed(before: seq<nat>, after: seq<nat>, offsets: map<nat, nat>, partitions: set<nat>)
    requires partitions <= offsets.Keys
  {
    && |after| == |before|
    && forall p | 0 <= p < |after| :: after[p] == if p in partitions then offsets[p] else before[p]
  }

  lemma CommittedOneMore(before: seq<nat>, mid: seq<nat>, offsets: map<nat, nat>, done: set<nat>, p: nat)
    requires done <= offsets.Keys && p in offsets && Committed(before, mid, offsets, done)
    ensures p < |mid| ==> Committed(before, mid[p := offsets[p]], offsets, done + {p})
  {
  }

  // -------------------------------------------------------------------- alerts

  /** What becomes of one pending alert; a sent one is recorded as a metric, which may fail. */
  datatype AlertTurn = NotSent | Sent | NotRecorded | Raised

  predicate AlertFails(turn: AlertTurn) {
    turn.NotRecorded? || turn.Raised?
  }

  function AlertMetrics(alerts: seq<(Event, Score)>, turns: nat -> AlertTurn): seq<Metric> {
    if alerts == [] then []
    else
      var k := |alerts| - 1;
      AlertMetrics(alerts[..k], turns)
      + if turns(k).Sent? then [Metric("high_risk_alerts_sent", 1, Text("decision", alerts[k].1.decision))] else []
  }

  function SentOf(alerts: seq<(Event, Score)>, turns: nat -> AlertTurn): set<nat> {
    set i: nat | i < |alerts| && turns(i) == Sent
  }

  /** One metric for each alert sent. */
  lemma {:induction false} AlertMetricsAreSent(alerts: seq<(Event, Score)>, turns: nat -> AlertTurn)
    ensures |AlertMetrics(alerts, turns)| == |SentOf(alerts, turns)|
    ensures forall m | m in AlertMetrics(alerts, turns) ::
      m.name == "high_risk_alerts_sent" && m.value == 1 && m.tag.Text? && m.tag.name == "decision"
    decreases |alerts|
  {
    if alerts == [] {
      assert SentOf(alerts, turns) == {};
    } else {
      var k := |alerts| - 1;
      AlertMetricsAreSent(alerts[..k], turns);
      assert SentOf(alerts, turns) == SentOf(alerts[..k], turns) + if turns(k) == Sent then {k} else {};
    }
  }

  /** How many of n alerts are dealt with before one fails. */
  function Handled(turns: nat -> AlertTurn, n: nat): (k: nat)
    ensures k <= n && forall i | 0 <= i < k :: !AlertFails(turns(i))
    ensures k < n ==> AlertFails(turns(k))
  {
    if n == 0 then 0
    else
      var k := Handled(turns, n - 1);
      if k == n - 1 && !AlertFails(turns(k)) then n else k
  }

  /** Every alert in turn; the first failure ends it and leaves the metrics of those before. */
  method SendAlerts(repo: TransactionRepository, alerts: seq<(Event, Score)>, turns: nat -> AlertTurn) returns (ok: bool)
    modifies repo`metrics
    ensures ok <==> forall i | 0 <= i < |alerts| :: !AlertFails(turns(i))
    ensures repo.metrics == old(repo.metrics) + AlertMetrics(alerts[..Handled(turns, |alerts|)], turns)
  {
    for i := 0 to |alerts|
      invariant repo.metrics == old(repo.metrics) + AlertMetrics(alerts[..i], turns)
      invariant forall j | 0 <= j < i :: !AlertFails(turns(j))
    {
      assert alerts[..i + 1][..i] == alerts[..i];
      match turns(i) {
        case NotSent =>
        case Sent =>
          repo.metrics := repo.metrics + [Metric("high_risk_alerts_sent", 1, Text("decision", alerts[i].1.decision))];
        case _ =>
          assert Handled(turns, |alerts|) == i;
          return false;
      }
    }
    return true;
  }

  // -------------------------------------------------------------- the process

  /**
   What one flush meets: is the database up, for which partitions the broker refuses the offset, does the
   commit as a whole raise, how the alerts go.
   */
  datatype FlushTurn = FlushTurn(databaseUp: bool, refused: set<nat>, commitRaises: bool, alerts: nat -> AlertTurn)

  predicate FlushSucceeds(env: FlushTurn, alerts: nat) {
    env.databaseUp && !env.commitRaises && forall i | 0 <= i < alerts :: !AlertFails(env.alerts(i))
  }

  /** Nothing goes wrong in this flush, however many alerts there are; refused offsets go unnoticed. */
  ghost predicate Smooth(env: FlushTurn) {
    env.databaseUp && !env.commitRaises && forall i: nat :: !AlertFails(env.alerts(i))
  }

  ghost predicate AllSmooth(flushes: nat -> FlushTurn, n: nat) {
    forall i: nat | i < n :: Smooth(flushes(i))
  }

  /** The metrics a flush of this batch and these alerts writes. */
  function FlushMetrics(env: FlushTurn, batch: WriteBatch, alerts: seq<(Event, Score)>): seq<Metric> {
    if !env.databaseUp then []
    else if env.commitRaises then batch.metrics
    else batch.metrics + AlertMetrics(alerts[..Handled(env.alerts, |alerts|)], env.alerts)
  }

  /** How many messages are buffered after a turn: a due flush or a full batch leaves none. */
  function HeadAfter(limit: nat, head: nat, turn: PollTurn, arrived: nat): nat {
    if turn.Nothing? && turn.flushDue then 0
    else if arrived > 0 && head + arrived >= limit then 0
    else head + arrived
  }

  ghost predicate HeadFollows(c: Intake.Config, start: seq<nat>, turns: seq<PollTurn>, heads: seq<nat>, i: nat)
    requires |start| == |c.logs| && i + 1 < |heads| <= |turns| + 1
  {
    heads[i + 1] == HeadAfter(c.batch, heads[i], turns[i], |NewEntries(c, Reached(c, start, turns[..i]), turns[i])|)
  }

  /**
   How many messages were buffered at each loop head: none at first, always fewer than a batch, and each
   number follows from the one before by what the turn between them is and brings.
   */
  ghost predicate HeadsFollow(c: Intake.Config, start: seq<nat>, turns: seq<PollTurn>, heads: seq<nat>)
    requires |start| == |c.logs|
  {
    && 1 <= |heads| <= |turns| + 1 && heads[0] == 0
    && (forall i | 0 <= i < |heads| :: heads[i] < c.batch)
    && forall i: nat | i + 1 < |heads| :: HeadFollows(c, start, turns, heads, i)
  }

  lemma HeadsStep(c: Intake.Config, start: seq<nat>, turns: seq<PollTurn>, heads: seq<nat>, head: nat)
    requires |start| == |c.logs| && HeadsFollow(c, start, turns, heads) && |heads| <= |turns| && head < c.batch
    requires HeadFollows(c, start, turns, heads + [head], |heads| - 1)
    ensures HeadsFollow(c, start, turns, heads + [head])
  {
    forall i: nat | i + 1 < |heads + [head]| ensures HeadFollows(c, start, turns, heads + [head], i) {
      assert i + 1 < |heads| ==> HeadFollows(c, start, turns, heads, i);
    }
  }

  /**
   How the loop ends: every turn but a failing last one went well, and when no flush failed the failing one
   brought an event that cannot be scored.
   */
  ghost predicate Ended(c: Intake.Config, start: seq<nat>, turns: seq<PollTurn>, flushes: nat -> FlushTurn, ok: bool, taken: nat)
    requires |start| == |c.logs| && taken <= |turns|
  {
    && (forall i: nat | i < taken - (if ok then 0 else 1) :: AcceptableAt(c, start, turns, i))
    && (!ok ==> taken > 0 && (AllSmooth(flushes, taken) ==> !AcceptableAt(c, start, turns, taken - 1)))
  }

  lemma EndedStep(c: Intake.Config, start: seq<nat>, turns: seq<PollTurn>, flushes: nat -> FlushTurn, ok: bool, i: nat)
    requires |start| == |c.logs| && i < |turns| && Ended(c, start, turns, flushes, true, i)
    requires ok ==> AcceptableAt(c, start, turns, i)
    requires Smooth(flushes(i)) && AcceptableAt(c, start, turns, i) ==> ok
    ensures Ended(c, start, turns, flushes, ok, i + 1)
  {
  }

  /** Every offset refused in one of the first n flushes is of one of these partitions. */
  ghost predicate RefusedWithin(flushes: nat -> FlushTurn, n: nat, refused: set<nat>) {
    forall i: nat | i < n :: flushes(i).refused <= refused
  }

  const EMPTY: WriteBatch := WriteBatch([], [], [], [])

  class Consumer {
    const c: Intake.Config
    const limit: nat
    const repo: TransactionRepository
    var committed: seq<nat>
    var position: seq<nat>
    var batch: WriteBatch
    var messages: seq<(nat, nat)>
    var alerts: seq<(Event, Score)>

    /** This consumer's world, reached from `origin` by a run of the pipeline. */
    ghost var origin: Pipeline.World
    ghost var world: Pipeline.World

    ghost predicate Traced()
      reads this
    {
      && Pipeline.Init(c, origin)
      && Intake.Sized(c, world.intake)
      && Pipeline.Reaches(c, limit, origin, world)
    }

    ghost predicate Matches()
      reads this, repo
    {
      && messages == MessagesOf(world.intake.buffer)
      && batch.scores == ScoresOf(world.intake.buffer)
      && batch.rejections == RejectionsOf(world.intake.buffer)
      && batch.metrics == MetricsOf(world.intake.buffer)
      && batch.outbox == Pipeline.Records(world.intake.buffer)
      && alerts == ScoresOf(world.intake.buffer)
      && committed == world.intake.committed
      && position == world.intake.position
      && repo.scored == world.intake.scored
      && repo.outbox == world.relay.table
      && repo.clock == world.relay.now
    }

    ghost predicate Valid()
      reads this, repo
    {
      Traced() && Matches()
    }

    ghost predicate Only(phase: Intake.Phase)
      reads this
    {
      world.intake.phase == phase
    }

    constructor (c: Intake.Config, limit: nat, repo: TransactionRepository)
      requires repo.scored == map[] && repo.outbox.rows == map[]
      ensures this.c == c && this.limit == limit && this.repo == repo
      ensures Valid() && Only(Intake.Down) && messages == []
    {
      this.c, this.limit, this.repo := c, limit, repo;
      var zeros := seq(|c.logs|, i => 0);
      committed, position := zeros, zeros;
      batch, messages, alerts := EMPTY, [], [];
      ghost var intake := Intake.State(Intake.Down, [], zeros, zeros, zeros, zeros, zeros, {}, map[], {});
      ghost var relay := Relay.State(repo.clock, repo.outbox, map[], {}, [], multiset{}, []);
      origin, world := Pipeline.World(intake, relay), Pipeline.World(intake, relay);
      new;
      assert Pipeline.Run(c, limit, origin, [], world);
    }

    /** Takes one step of the pipeline on the ghost side. */
    ghost method Follow(step: Pipeline.Step)
      requires Traced() && Pipeline.Enabled(c, limit, world, step)
      modifies this`world
      ensures Traced() && world == Pipeline.Apply(c, limit, old(world), step)
    {
      Pipeline.ReachesStep(c, limit, origin, world, step);
      world := Pipeline.Apply(c, limit, world, step);
    }

    /** Every world reached keeps the window invariant. */
    lemma Window()
      requires Traced()
      ensures Intake.WindowInv(c, world.intake)
    {
      Pipeline.ReachesInv(c, limit, origin, world);
    }

    ghost predicate Room()
      reads this
    {
      Only(Intake.Polling) && BatchSize(batch) < c.batch
    }

    predicate Fetchable(p: nat)
      reads this
    {
      p < |c.logs| && p < |position| && position[p] < |c.logs[p]|
    }

    lemma CanFetch(p: nat)
      requires Valid() && Room() && Fetchable(p)
      ensures Intake.Fetchable(c, world.intake, p)
    {
      EveryEntryCounts(world.intake.buffer);
    }

    /** The write batch's share of a message, and the alert it may call for. */
    method AddToBatch(item: Item, record: Record)
      modifies this`batch, this`alerts
      ensures batch.outbox == old(batch).outbox + [record]
      ensures batch.scores == old(batch).scores + if item.ScoredItem? then [(item.event, item.score)] else []
      ensures batch.rejections == old(batch).rejections + if item.RejectedItem? then [item.summary] else []
      ensures batch.metrics == old(batch).metrics + [MetricOf(item)]
      ensures alerts == old(alerts) + if item.ScoredItem? then [(item.event, item.score)] else []
    {
      match item {
        case ScoredItem(event, score) =>
          batch := batch.(scores := batch.scores + [(event, score)],
            metrics := batch.metrics + [Metric("transactions_scored", 1, Text("decision", score.decision))]);
          alerts := alerts + [(event, score)];
        case RejectedItem(summary) =>
          batch := batch.(rejections := batch.rejections + [summary],
            metrics := batch.metrics + [Metric("transactions_rejected", 1, Text("error", summary.errorType))]);
      }
      batch := batch.(outbox := batch.outbox + [record]);
    }

    /** The step of the pipeline behind Accept. */
    ghost method FollowPoll(p: nat, item: Item)
      requires Traced() && Intake.Fetchable(c, world.intake, p)
      requires Intake.ItemFor(c, c.logs[p][world.intake.position[p]], item)
      modifies this`world
      ensures Traced() && world.relay == old(world).relay
      ensures world.intake == Intake.AfterPoll(old(world).intake, p, item)
    {
      Follow(Pipeline.Consumer(Intake.Poll(p, item)));
    }

    /** Every list that concerns a message, and the position. */
    method AppendToLists(p: nat, item: Item)
      requires p < |position|
      modifies this`batch, this`alerts, this`messages, this`position
      ensures messages == old(messages) + [(p, old(position)[p])]
      ensures position == old(position)[p := old(position)[p] + 1]
      ensures batch.outbox == old(batch).outbox + [RecordOf(p, old(position)[p], item)]
      ensures batch.scores == old(batch).scores + if item.ScoredItem? then [(item.event, item.score)] else []
      ensures batch.rejections == old(batch).rejections + if item.RejectedItem? then [item.summary] else []
      ensures batch.metrics == old(batch).metrics + [MetricOf(item)]
      ensures alerts == old(alerts) + if item.ScoredItem? then [(item.event, item.score)] else []
    {
      AddToBatch(item, RecordOf(p, position[p], item));
      messages := messages + [(p, position[p])];
      position := position[p := position[p] + 1];
    }

    /** Appends a message to every list that concerns it. */
    method Accept(p: nat, item: Item)
      requires Valid() && Room() && Fetchable(p)
      requires Intake.ItemFor(c, c.logs[p][position[p]], item)
      modifies this`batch, this`alerts, this`messages, this`position, this`world
      ensures Valid() && Only(Intake.Polling) && BatchSize(batch) == old(BatchSize(batch)) + 1
      ensures world.intake.buffer == old(world.intake.buffer) + [Intake.Entry(p, old(position)[p], item)]
      ensures world.intake.behind == old(world.intake.behind)
      ensures committed == old(committed) && messages == old(messages) + [(p, old(position)[p])]
      ensures position == old(position)[p := old(position)[p] + 1]
      ensures batch.outbox == old(batch).outbox + [RecordOf(p, old(position)[p], item)]
      ensures batch.metrics == old(batch).metrics + [
        if item.ScoredItem? then Metric("transactions_scored", 1, Text("decision", item.score.decision))
        else Metric("transactions_rejected", 1, Text("error", item.summary.errorType))]
      ensures alerts == old(alerts) + if item.ScoredItem? then [(item.event, item.score)] else []
    {
      CanFetch(p);
      AppendMatches(world.intake.buffer, Intake.Entry(p, position[p], item));
      FollowPoll(p, item);
      AppendToLists(p, item);
    }

    /** A new process: nothing buffered, fetching from the committed offsets. */
    method Connect()
      requires Valid() && Only(Intake.Down) && messages == []
      modifies this`batch, this`alerts, this`position, this`world
      ensures Valid() && Only(Intake.Polling)
      ensures batch == EMPTY && alerts == [] && position == committed && world.intake.behind == old(world.intake.behind)
    {
      batch, alerts, position := EMPTY, [], committed;
      Follow(Pipeline.Consumer(Intake.Start));
    }

    /** An exception reaches the `finally` clause. */
    ghost method Unwind()
      requires Traced() && (Only(Intake.Polling) || Only(Intake.Saved(false)))
      modifies this`world
      ensures Traced() && world == old(world).(intake := old(world.intake).(phase := Intake.Closing))
    {
      Follow(Pipeline.Consumer(Intake.Fail));
    }

    /** The dictionary of the last offset per partition, plus one. */
    method OffsetsToCommit() returns (offsets: map<nat, nat>)
      ensures offsets == LatestOffsets(messages)
    {
      offsets := map[];
      for i := 0 to |messages|
        invariant offsets == LatestOffsets(messages[..i])
      {
        assert messages[..i + 1][..i] == messages[..i];
        offsets := offsets[messages[i].0 := messages[i].1 + 1];
      }
      assert messages[..|messages|] == messages;
    }

    /** The world but for the committed offsets and what they make up for. */
    ghost predicate OnlyCommits(before: Pipeline.World)
      reads this
    {
      && world.relay == before.relay
      && world.intake == before.intake.(committed := committed, behind := world.intake.behind)
      && world.intake.behind <= before.intake.behind
    }

    method CommitOne(p: nat)
      requires Valid() && world.intake.phase.Saved? && p in LatestOffsets(messages)
      modifies this`committed, this`world
      ensures Valid() && p < |old(committed)| && committed == old(committed)[p := LatestOffsets(messages)[p]]
      ensures OnlyCommits(old(world))
    {
      Window();
      LatestIsNext(c, world.intake, p);
      committed := committed[p := LatestOffsets(messages)[p]];
      Follow(Pipeline.Consumer(Intake.CommitOffset(p)));
    }

    /** The broker takes each partition's offset on its own and may refuse some; its answers are not looked at. */
    method Commit(offsets: map<nat, nat>, refused: set<nat>)
      requires Valid() && world.intake.phase.Saved? && offsets == LatestOffsets(messages)
      modifies this`committed, this`world
      ensures Valid() && OnlyCommits(old(world))
      ensures Committed(old(committed), committed, offsets, offsets.Keys - refused)
    {
      ghost var before, done: set<nat> := committed, {};
      var todo := offsets.Keys;
      while todo != {}
        invariant Valid() && todo <= offsets.Keys && done <= offsets.Keys
        invariant OnlyCommits(old(world))
        invariant Committed(before, committed, offsets, done)
        invariant forall p :: p in done <==> p in offsets && p !in todo && p !in refused
        decreases |todo|
      {
        var p :| p in todo;
        todo := todo - {p};
        if p !in refused {
          CommittedOneMore(before, committed, offsets, done, p);
          done := done + {p};
          CommitOne(p);
        }
      }
      assert done == offsets.Keys - refused;
    }

    ghost function TablesNow(): Tables
      reads repo
    {
      Tables(repo.scored, repo.outbox, repo.rejected)
    }

    /** The batch's scores, outbox records and rejections were added to what the tables held before. */
    ghost predicate BatchSaved(before: Tables, saved: WriteBatch)
      reads repo
    {
      && repo.scored == UpsertScores(before.scored, saved.scores, repo.clock)
      && repo.outbox == OutboxTable.InsertAll(before.outbox, saved.outbox, repo.clock)
      && repo.rejected == before.rejected + saved.rejections
    }

    method Save(databaseUp: bool) returns (saved: bool)
      requires Valid() && (Only(Intake.Polling) || Only(Intake.Closing)) && messages != []
      modifies this`world
      modifies repo`scored, repo`rejected, repo`metrics, repo`outbox
      ensures Valid() && saved == databaseUp
      ensures !saved ==> world == old(world) && TablesNow() == old(TablesNow()) && repo.metrics == old(repo.metrics)
      ensures saved ==>
        && world.intake == Intake.AfterSave(old(world.intake), repo.clock)
        && world.relay == Relay.AfterSave(old(world.relay), batch.outbox)
        && BatchSaved(old(TablesNow()), batch) && repo.metrics == old(repo.metrics) + batch.metrics
    {
      ScoresAreUpserts(repo.scored, world.intake.buffer, repo.clock);
      saved := repo.SaveBatch(batch, databaseUp);
      if saved {
        Follow(Pipeline.SaveBatch);
      }
    }

    /** The buffer is done with: the lists are emptied. */
    method Clear()
      requires Valid() && world.intake.phase.Saved?
      modifies this`batch, this`alerts, this`messages, this`world
      ensures Valid() && messages == [] && batch == EMPTY && alerts == []
      ensures world.intake == Intake.AfterFlush(old(world.intake))
    {
      batch, messages, alerts := EMPTY, [], [];
      Follow(Pipeline.Consumer(Intake.Flushed));
    }

    /** A partition can only be left behind by a refusal. */
    lemma LaggingIsRefused(before: seq<nat>, refused: set<nat>)
      requires Valid() && world.intake.phase.Saved?
      requires Committed(before, committed, LatestOffsets(messages), LatestOffsets(messages).Keys - refused)
      ensures Intake.Lagging(world.intake) <= world.intake.behind + refused
    {
      Window();
      forall p | p in Intake.Lagging(world.intake) && p !in world.intake.behind ensures p in refused {
        assert Intake.OffsetInv(c, world.intake, p);
        LatestIsNext(c, world.intake, p);
      }
    }

    /** The part of a flush after the database transaction: commit, alerts, and the lists emptied. */
    method CommitAndClear(env: FlushTurn) returns (ok: bool)
      requires Valid() && world.intake.phase.Saved?
      modifies this`committed, this`batch, this`alerts, this`messages, this`world, repo`metrics
      ensures Valid() && world.intake.behind <= old(world.intake.behind) + env.refused
      ensures Committed(old(committed), committed, LatestOffsets(old(messages)), LatestOffsets(old(messages)).Keys - env.refused)
      ensures ok <==> !env.commitRaises && forall i | 0 <= i < |old(alerts)| :: !AlertFails(env.alerts(i))
      ensures repo.metrics == old(repo.metrics) + if env.commitRaises then [] else
        AlertMetrics(old(alerts)[..Handled(env.alerts, |old(alerts)|)], env.alerts)
      ensures ok ==>
        && messages == [] && batch == EMPTY && alerts == [] && world.intake.next == old(world.intake.next)
        && world.intake.phase == if old(world.intake.phase.closing) then Intake.Down else Intake.Polling
      ensures !ok ==> messages == old(messages) && batch == old(batch) && world.intake.phase == old(world.intake.phase)
    {
      var offsets := OffsetsToCommit();
      Commit(offsets, env.refused);
      ok := !env.commitRaises;
      if ok {
        ok := SendAlerts(repo, alerts, env.alerts);
      }
      if ok {
        LaggingIsRefused(old(committed), env.refused);
        Clear();
      }
    }

    method FlushMessages(env: FlushTurn) returns (ok: bool)
      requires Valid() && (Only(Intake.Polling) || Only(Intake.Closing)) && messages != []
      modifies this`committed, this`batch, this`alerts, this`messages, this`world
      modifies repo`scored, repo`rejected, repo`metrics, repo`outbox
      ensures Valid() && world.intake.behind <= old(world.intake.behind) + env.refused
      ensures !env.databaseUp ==> committed == old(committed) && TablesNow() == old(TablesNow())
      ensures env.databaseUp ==>
        && Committed(old(committed), committed, LatestOffsets(old(messages)), LatestOffsets(old(messages)).Keys - env.refused)
        && BatchSaved(old(TablesNow()), old(batch))
      ensures repo.metrics == old(repo.metrics) + FlushMetrics(env, old(batch), old(alerts))
      ensures ok <==> FlushSucceeds(env, |old(alerts)|)
      ensures ok ==> messages == [] && batch == EMPTY && alerts == [] && world.intake.next == old(world.intake.next)
      ensures ok ==> Only(if old(Only(Intake.Polling)) then Intake.Polling else Intake.Down)
      ensures !ok ==> messages == old(messages) && batch == old(batch)
      ensures !ok && old(Only(Intake.Polling)) ==> Only(Intake.Closing)
    {
      ghost var polling := Only(Intake.Polling);
      ok := Save(env.databaseUp);
      if ok {
        ok := CommitSaved(env, old(repo.metrics));
      }
      if !ok && polling {
        Unwind();
      }
    }

    /** The metrics of the batch and of the alerts add up. */
    method CommitSaved(env: FlushTurn, ghost metrics: seq<Metric>) returns (ok: bool)
      requires Valid() && world.intake.phase.Saved? && env.databaseUp && repo.metrics == metrics + batch.metrics
      modifies this`committed, this`batch, this`alerts, this`messages, this`world, repo`metrics
      ensures Valid() && world.intake.behind <= old(world.intake.behind) + env.refused
      ensures Committed(old(committed), committed, LatestOffsets(old(messages)), LatestOffsets(old(messages)).Keys - env.refused)
      ensures ok <==> FlushSucceeds(env, |old(alerts)|)
      ensures repo.metrics == metrics + FlushMetrics(env, old(batch), old(alerts))
      ensures ok ==>
        && messages == [] && batch == EMPTY && alerts == [] && world.intake.next == old(world.intake.next)
        && world.intake.phase == if old(world.intake.phase.closing) then Intake.Down else Intake.Polling
      ensures !ok ==> messages == old(messages) && batch == old(batch) && world.intake.phase == old(world.intake.phase)
    {
      ok := CommitAndClear(env);
    }

    /**
     Saves the buffer in one transaction and only then commits offsets, each unless the broker refuses it.
     On success the buffer is empty, whatever was refused; on failure it is kept for the final flush.
     */
    method Flush(env: FlushTurn) returns (ok: bool)
      requires Valid() && (Only(Intake.Polling) || Only(Intake.Closing))
      modifies this`committed, this`batch, this`alerts, this`messages, this`world
      modifies repo`scored, repo`rejected, repo`metrics, repo`outbox
      ensures Valid() && world.intake.behind <= old(world.intake.behind) + env.refused
      ensures old(messages) == [] || !env.databaseUp ==> committed == old(committed) && TablesNow() == old(TablesNow())
      ensures old(messages) != [] && env.databaseUp ==>
        && Committed(old(committed), committed, LatestOffsets(old(messages)), LatestOffsets(old(messages)).Keys - env.refused)
        && BatchSaved(old(TablesNow()), old(batch))
      ensures repo.metrics == old(repo.metrics) + if old(messages) == [] then [] else FlushMetrics(env, old(batch), old(alerts))
      ensures ok <==> old(messages) == [] || FlushSucceeds(env, |old(alerts)|)
      ensures ok ==> messages == [] && (old(messages) != [] ==> batch == EMPTY && alerts == [])
      ensures ok ==> world.intake.next == old(world.intake.next)
      ensures ok && old(Only(Intake.Polling)) ==> Only(Intake.Polling)
      ensures ok && old(messages) != [] && old(Only(Intake.Closing)) ==> Only(Intake.Down)
      ensures !ok ==> messages == old(messages) && batch == old(batch) && messages != []
      ensures !ok && old(Only(Intake.Polling)) ==> Only(Intake.Closing)
    {
      if messages == [] {
        return true;
      }
      ok := FlushMessages(env);
    }

    /** The tables hold what they held at some time, and these entries written since. */
    ghost predicate Holds(before: Tables, done: seq<Intake.Entry>)
      reads repo
    {
      TablesNow() == Written(before, done, repo.clock)
    }

    /** What was written and what is buffered make up these entries. */
    ghost predicate Accounted(before: Tables, done: seq<Intake.Entry>, entries: seq<Intake.Entry>)
      reads this, repo
    {
      Holds(before, done) && done + world.intake.buffer == entries
    }

    /** Saving the buffer on top of what was written. */
    lemma SavedOnTop(before: Tables, done: seq<Intake.Entry>, now: Tables, buffer: seq<Intake.Entry>, saved: WriteBatch)
      requires BatchSaved(now, saved) && now == Written(before, done, repo.clock)
      requires saved.scores == ScoresOf(buffer) && saved.outbox == Pipeline.Records(buffer)
      requires saved.rejections == RejectionsOf(buffer)
      ensures Holds(before, done + buffer)
    {
      ScoresAreUpserts(now.scored, buffer, repo.clock);
      BatchingIsInvisible(before, done, buffer, repo.clock);
    }

    /** A flush from the loop. */
    method FlushOnto(env: FlushTurn, ghost before: Tables, ghost done: seq<Intake.Entry>) returns (ok: bool, ghost done': seq<Intake.Entry>)
      requires Valid() && Only(Intake.Polling) && messages != [] && Holds(before, done)
      modifies this`committed, this`batch, this`alerts, this`messages, this`world
      modifies repo`scored, repo`rejected, repo`metrics, repo`outbox
      ensures Valid() && world.intake.behind <= old(world.intake.behind) + env.refused
      ensures if ok then Only(Intake.Polling) && messages == [] && batch == EMPTY else Only(Intake.Closing)
      ensures Smooth(env) ==> ok
      ensures ok ==> Accounted(before, done', done + old(world.intake.buffer))
    {
      ghost var now, buffer, saved := TablesNow(), world.intake.buffer, batch;
      done' := done + buffer;
      ok := Flush(env);
      if ok {
        SavedOnTop(before, done, now, buffer, saved);
        assert world.intake.buffer == [];
      }
    }

    /** Scoring failed for good: the offset is not buffered, and the exception leaves the loop. */
    method ScoringFailed(p: nat)
      requires Valid() && Room() && Fetchable(p) && c.logs[p][position[p]].Valid?
      modifies this`position, this`world
      ensures Valid() && Only(Intake.Closing) && position == old(position)[p := old(position)[p] + 1]
      ensures world.intake.buffer == old(world.intake.buffer) && world.intake.behind == old(world.intake.behind)
    {
      CanFetch(p);
      position := position[p := position[p] + 1];
      Follow(Pipeline.Consumer(Intake.ScoringFails(p)));
    }

    method FlushIfFull(env: FlushTurn, ghost before: Tables, ghost done: seq<Intake.Entry>)
      returns (ok: bool, ghost done': seq<Intake.Entry>)
      requires Valid() && Only(Intake.Polling) && messages != [] && c.batch >= 1 && Holds(before, done)
      modifies this`committed, this`batch, this`alerts, this`messages, this`world
      modifies repo`scored, repo`rejected, repo`metrics, repo`outbox
      ensures Valid() && world.intake.behind <= old(world.intake.behind) + env.refused
      ensures if ok then Room() else Only(Intake.Closing)
      ensures Smooth(env) ==> ok
      ensures ok ==> Accounted(before, done', done + old(world.intake.buffer))
      ensures ok ==> |messages| == if |old(messages)| >= c.batch then 0 else |old(messages)|
    {
      ok, done' := true, done;
      BufferedIsBatched();
      if BatchSize(batch) >= c.batch {
        ok, done' := FlushOnto(env, before, done);
      }
    }

    /** One message from poll to the lists; false when its event cannot be scored. */
    method Take(p: nat, scoring: Option<Score>) returns (accepted: bool)
      requires Valid() && Room() && Fetchable(p) && |position| == |c.logs|
      modifies this`position, this`batch, this`alerts, this`messages, this`world
      ensures Valid() && world.intake.behind == old(world.intake.behind)
      ensures Only(if accepted then Intake.Polling else Intake.Closing)
      ensures position == old(position)[p := old(position)[p] + 1]
      ensures accepted <==> Acceptable(c, old(position), Incoming(p, scoring))
      ensures world.intake.buffer == old(world.intake.buffer) + NewEntries(c, old(position), Incoming(p, scoring))
      ensures accepted ==> |messages| == |old(messages)| + 1
    {
      match c.logs[p][position[p]] {
        case Malformed(summary) =>
          Accept(p, RejectedItem(summary));
        case Valid(event) =>
          if scoring.None? || !c.may(event, scoring.value) {
            ScoringFailed(p);
            return false;
          }
          Accept(p, ScoredItem(event, scoring.value));
      }
      return true;
    }

    /** One message from poll to the end of the loop body; false when an exception leaves the loop. */
    method Handle(p: nat, scoring: Option<Score>, env: FlushTurn, ghost before: Tables, ghost done: seq<Intake.Entry>)
      returns (ok: bool, ghost done': seq<Intake.Entry>)
      requires Valid() && Room() && Fetchable(p) && |position| == |c.logs| && Holds(before, done)
      modifies this`committed, this`position, this`batch, this`alerts, this`messages, this`world
      modifies repo`scored, repo`rejected, repo`metrics, repo`outbox
      ensures Valid() && world.intake.behind <= old(world.intake.behind) + env.refused
      ensures if ok then Room() else Only(Intake.Closing)
      ensures position == old(position)[p := old(position)[p] + 1]
      ensures ok ==> Acceptable(c, old(position), Incoming(p, scoring))
      ensures Smooth(env) && Acceptable(c, old(position), Incoming(p, scoring)) ==> ok
      ensures ok || Smooth(env) ==>
        Accounted(before, done', done + old(world.intake.buffer) + NewEntries(c, old(position), Incoming(p, scoring)))
      ensures ok ==> |messages| == if |old(messages)| + 1 >= c.batch then 0 else |old(messages)| + 1
    {
      ghost var buffer, added := world.intake.buffer, NewEntries(c, position, Incoming(p, scoring));
      done' := done;
      ok := Take(p, scoring);
      Regroup(done, buffer, added);
      if ok {
        ok, done' := FlushIfFull(env, before, done);
      }
    }

    /**
     One turn of the loop. Unless a flush fails, what was written and what is buffered together grow by what
     the turn brings; the loop goes on unless an event cannot be scored or a flush fails.
     */
    method Turn(turn: PollTurn, env: FlushTurn, ghost before: Tables, ghost done: seq<Intake.Entry>)
      returns (ok: bool, ghost done': seq<Intake.Entry>)
      requires Valid() && Room() && |position| == |c.logs| && Holds(before, done)
      modifies this`committed, this`position, this`batch, this`alerts, this`messages, this`world
      modifies repo`scored, repo`rejected, repo`metrics, repo`outbox
      ensures Valid() && world.intake.behind <= old(world.intake.behind) + env.refused
      ensures if ok then Room() else Only(Intake.Closing)
      ensures position == Moved(c, old(position), turn)
      ensures ok ==> Acceptable(c, old(position), turn)
      ensures Smooth(env) && Acceptable(c, old(position), turn) ==> ok
      ensures ok || Smooth(env) ==>
        Accounted(before, done', done + old(world.intake.buffer) + NewEntries(c, old(position), turn))
      ensures ok ==> |messages| == HeadAfter(c.batch, |old(messages)|, turn, |NewEntries(c, old(position), turn)|)
    {
      ok, done' := true, done;
      match turn {
        case Nothing(flushDue) =>
          if messages != [] && flushDue {
            ok, done' := FlushOnto(env, before, done);
          }
        case BrokerError =>
        case Incoming(p, scoring) =>
          if Fetchable(p) {
            ok, done' := Handle(p, scoring, env, before, done);
          }
      }
    }

    /** The process ends, or crashes: its lists are gone, what it committed is not. */
    method Exit()
      requires Valid()
      modifies this`batch, this`alerts, this`messages, this`world
      ensures Valid() && Only(Intake.Down) && messages == [] && committed == old(committed) && position == old(position)
      ensures world.intake.behind == old(world.intake.behind) && world.intake.savedUpTo == old(world.intake.savedUpTo)
    {
      batch, messages, alerts := EMPTY, [], [];
      Follow(Pipeline.Consumer(Intake.Stop));
    }

    /** Everything fetched is saved, and committed in every partition that is not behind. */
    ghost predicate Settled()
      reads this
    {
      && |position| == |committed| == |world.intake.savedUpTo|
      && forall p | 0 <= p < |committed| ::
           position[p] <= world.intake.savedUpTo[p] && (p !in world.intake.behind ==> committed[p] == position[p])
    }

    /** While polling with an empty buffer. */
    lemma EmptyIsSettled()
      requires Valid() && Only(Intake.Polling) && messages == []
      ensures Settled()
    {
      Window();
      forall p | 0 <= p < |committed|
        ensures position[p] <= world.intake.savedUpTo[p] && (p !in world.intake.behind ==> committed[p] == position[p])
      {
        assert Intake.OffsetInv(c, world.intake, p);
        assert position[p] == world.intake.next[p] <= world.intake.base[p] by {
          EmptyWindow(p);
        }
      }
    }

    lemma EmptyWindow(p: nat)
      requires Valid() && messages == [] && p < |c.logs|
      ensures world.intake.next[p] <= world.intake.base[p]
    {
      Window();
      assert Intake.OffsetInv(c, world.intake, p);
    }

    /** The `finally` clause after the loop ended: flush what is buffered, and go. */
    method Shutdown(env: FlushTurn) returns (flushed: bool)
      requires Valid() && (Only(Intake.Polling) || Only(Intake.Closing))
      modifies this`committed, this`batch, this`alerts, this`messages, this`world
      modifies repo`scored, repo`rejected, repo`metrics, repo`outbox
      ensures Valid() && Only(Intake.Down) && messages == []
      ensures world.intake.behind <= old(world.intake.behind) + env.refused
      ensures flushed && old(Only(Intake.Polling)) ==> Settled()
      ensures flushed <==> old(messages) == [] || FlushSucceeds(env, |old(alerts)|)
      ensures old(messages) == [] || !env.databaseUp ==> committed == old(committed) && TablesNow() == old(TablesNow())
      ensures old(messages) != [] && env.databaseUp ==>
        && Committed(old(committed), committed, LatestOffsets(old(messages)), LatestOffsets(old(messages)).Keys - env.refused)
        && BatchSaved(old(TablesNow()), old(batch))
      ensures repo.metrics == old(repo.metrics) + if old(messages) == [] then [] else FlushMetrics(env, old(batch), old(alerts))
    {
      flushed := FinalFlush(env);
      ghost var settled := Settled();
      Exit();
      assert settled ==> Settled();
    }

    method FinalFlush(env: FlushTurn) returns (flushed: bool)
      requires Valid() && (Only(Intake.Polling) || Only(Intake.Closing))
      modifies this`committed, this`batch, this`alerts, this`messages, this`world
      modifies repo`scored, repo`rejected, repo`metrics, repo`outbox
      ensures Valid() && world.intake.behind <= old(world.intake.behind) + env.refused
      ensures flushed && old(Only(Intake.Polling)) ==> Settled()
      ensures flushed <==> old(messages) == [] || FlushSucceeds(env, |old(alerts)|)
      ensures old(messages) == [] || !env.databaseUp ==> committed == old(committed) && TablesNow() == old(TablesNow())
      ensures old(messages) != [] && env.databaseUp ==>
        && Committed(old(committed), committed, LatestOffsets(old(messages)), LatestOffsets(old(messages)).Keys - env.refused)
        && BatchSaved(old(TablesNow()), old(batch))
      ensures repo.metrics == old(repo.metrics) + if old(messages) == [] then [] else FlushMetrics(env, old(batch), old(alerts))
    {
      flushed := true;
      if messages == [] {
        if Only(Intake.Polling) {
          EmptyIsSettled();
        }
      } else {
        ghost var polling := Only(Intake.Polling);
        if polling {
          NextIsPosition();
          Unwind();
        }
        flushed := Flush(env);
        if flushed && polling {
          DownIsSettled();
        }
      }
    }

    /** After a successful final flush, if the buffer reached up to the fetch position. */
    lemma DownIsSettled()
      requires Valid() && Only(Intake.Down) && position == world.intake.next && messages == []
      ensures Settled()
    {
      Window();
      forall p | 0 <= p < |committed|
        ensures position[p] <= world.intake.savedUpTo[p] && (p !in world.intake.behind ==> committed[p] == position[p])
      {
        assert Intake.OffsetInv(c, world.intake, p);
        EmptyWindow(p);
      }
    }

    lemma NextIsPosition()
      requires Valid() && Only(Intake.Polling)
      ensures world.intake.next == position
    {
      Window();
      forall p: nat | p < |c.logs| ensures world.intake.next[p] == position[p] {
        assert Intake.OffsetInv(c, world.intake, p);
      }
    }

    /** One turn among the others: what the turns up to it bring, and whether it ends the loop. */
    method TurnAt(turns: seq<PollTurn>, i: nat, env: FlushTurn, ghost start: seq<nat>, ghost before: Tables, ghost done: seq<Intake.Entry>)
      returns (ok: bool, ghost done': seq<Intake.Entry>)
      requires Valid() && Room() && i < |turns| && Within(c, start) && position == Reached(c, start, turns[..i])
      requires Accounted(before, done, Brought(c, start, turns[..i]))
      modifies this`committed, this`position, this`batch, this`alerts, this`messages, this`world
      modifies repo`scored, repo`rejected, repo`metrics, repo`outbox
      ensures Valid() && world.intake.behind <= old(world.intake.behind) + env.refused
      ensures if ok then Room() else Only(Intake.Closing)
      ensures position == Reached(c, start, turns[..i + 1])
      ensures ok ==> AcceptableAt(c, start, turns, i)
      ensures Smooth(env) && AcceptableAt(c, start, turns, i) ==> ok
      ensures ok || Smooth(env) ==> Accounted(before, done', Brought(c, start, turns[..i + 1]))
      ensures ok ==>
        |messages| == HeadAfter(c.batch, |old(messages)|, turns[i], |NewEntries(c, Reached(c, start, turns[..i]), turns[i])|)
    {
      assert turns[..i + 1] == turns[..i] + [turns[i]] && turns[..i + 1][..i] == turns[..i];
      ReachedStep(c, start, turns[..i], turns[i]);
      ok, done' := Turn(turns[i], env, before, done);
    }

    /** How far the loop is: what was reached, written and buffered after so many turns, and how it stands. */
    ghost predicate LoopAt(start: seq<nat>, before: Tables, turns: seq<PollTurn>, flushes: nat -> FlushTurn,
                           ok: bool, taken: nat, heads: seq<nat>, done: seq<Intake.Entry>)
      reads this, repo
    {
      && |start| == |c.logs| && taken <= |turns|
      && (if ok then Room() else Only(Intake.Closing))
      && position == Reached(c, start, turns[..taken])
      && Ended(c, start, turns, flushes, ok, taken)
      && (ok || AllSmooth(flushes, taken) ==> Accounted(before, done, Brought(c, start, turns[..taken])))
      && HeadsFollow(c, start, turns, heads) && |heads| == taken + (if ok then 1 else 0)
      && (ok ==> heads[taken] == |messages|)
    }

    /** One turn of the loop, with what it adds to the account. */
    method LoopTurn(turns: seq<PollTurn>, taken: nat, flushes: nat -> FlushTurn, ghost start: seq<nat>, ghost before: Tables,
                    ghost heads: seq<nat>, ghost done: seq<Intake.Entry>)
      returns (ok: bool, ghost heads': seq<nat>, ghost done': seq<Intake.Entry>)
      requires Valid() && taken < |turns| && Within(c, start)
      requires LoopAt(start, before, turns, flushes, true, taken, heads, done)
      modifies this`committed, this`position, this`batch, this`alerts, this`messages, this`world
      modifies repo`scored, repo`rejected, repo`metrics, repo`outbox
      ensures Valid() && world.intake.behind <= old(world.intake.behind) + flushes(taken).refused
      ensures LoopAt(start, before, turns, flushes, ok, taken + 1, heads', done')
    {
      heads' := heads;
      ok, done' := TurnAt(turns, taken, flushes(taken), start, before, done);
      EndedStep(c, start, turns, flushes, ok, taken);
      if ok {
        BufferedIsBatched();
        HeadsStep(c, start, turns, heads, |messages|);
        heads' := heads + [|messages|];
      }
    }

    /**
     The loop: it takes turns until one fails. `heads` holds how many messages were buffered each time its
     head was reached, `done` what was written.
     */
    method Loop(turns: seq<PollTurn>, flushes: nat -> FlushTurn, ghost refused: set<nat>)
      returns (ok: bool, taken: nat, ghost heads: seq<nat>, ghost done: seq<Intake.Entry>)
      requires Valid() && Room() && messages == [] && Within(c, position) && RefusedWithin(flushes, |turns|, refused)
      modifies this`committed, this`position, this`batch, this`alerts, this`messages, this`world
      modifies repo`scored, repo`rejected, repo`metrics, repo`outbox
      ensures Valid() && (ok ==> taken == |turns|)
      ensures LoopAt(old(position), old(TablesNow()), turns, flushes, ok, taken, heads, done)
      ensures world.intake.behind <= old(world.intake.behind) + refused
    {
      ghost var start, before := position, TablesNow();
      ok, taken, done := true, 0, [];
      ReachedStart(c, start);
      BufferedIsBatched();
      heads := [|messages|];
      while taken < |turns| && ok
        invariant Valid() && LoopAt(start, before, turns, flushes, ok, taken, heads, done)
        invariant world.intake.behind <= old(world.intake.behind) + refused
      {
        ok, heads, done := LoopTurn(turns, taken, flushes, start, before, heads, done);
        taken := taken + 1;
      }
    }

    /**
     From start to shutdown. The position moves by what the turns bring; at each loop head fewer than a
     batch of messages is buffered, as many as the turn before leaves. A clean end has taken every turn; it
     leaves everything brought in the tables, as if written message by message, and everything committed
     but in partitions left behind, which were so before or had an offset refused since. When no flush
     fails, only an event that cannot be scored ends the loop, and what was brought before is written too.
     */
    method RunLoop(turns: seq<PollTurn>, flushes: nat -> FlushTurn, ghost refused: set<nat>)
      returns (clean: bool, taken: nat, ghost heads: seq<nat>)
      requires Valid() && Only(Intake.Down) && messages == [] && c.batch >= 1
      requires RefusedWithin(flushes, |turns| + 1, refused)
      modifies this`committed, this`position, this`batch, this`alerts, this`messages, this`world
      modifies repo`scored, repo`rejected, repo`metrics, repo`outbox
      ensures Valid() && Only(Intake.Down) && messages == [] && taken <= |turns|
      ensures |old(committed)| == |c.logs| && position == Reached(c, old(committed), turns[..taken])
      ensures clean ==> Settled() && taken == |turns| && |heads| == |turns| + 1
      ensures clean ==> forall i: nat | i < |turns| :: AcceptableAt(c, old(committed), turns, i)
      ensures clean || AllSmooth(flushes, |turns| + 1) ==> Holds(old(TablesNow()), Brought(c, old(committed), turns[..taken]))
      ensures AllSmooth(flushes, |turns| + 1) && !clean ==> taken > 0 && !AcceptableAt(c, old(committed), turns, taken - 1)
      ensures world.intake.behind <= old(world.intake.behind) + refused
      ensures HeadsFollow(c, old(committed), turns, heads)
    {
      CommittedIsWithin();
      Connect();
      ghost var before := TablesNow();
      var ok;
      ghost var done;
      ok, taken, heads, done := Loop(turns, flushes, refused);
      clean := ShutdownOnto(flushes(taken), before, done);
      clean := clean && ok;
      assert turns[..|turns|] == turns;
    }

    /** The end of the process, with what was written so far. */
    method ShutdownOnto(env: FlushTurn, ghost before: Tables, ghost done: seq<Intake.Entry>) returns (flushed: bool)
      requires Valid() && (Only(Intake.Polling) || Only(Intake.Closing))
      modifies this`committed, this`batch, this`alerts, this`messages, this`world
      modifies repo`scored, repo`rejected, repo`metrics, repo`outbox
      ensures Valid() && Only(Intake.Down) && messages == []
      ensures world.intake.behind <= old(world.intake.behind) + env.refused
      ensures flushed && old(Only(Intake.Polling)) ==> Settled()
      ensures Smooth(env) ==> flushed
      ensures flushed && old(Holds(before, done)) ==> Holds(before, done + old(world.intake.buffer))
    {
      ghost var now, buffer, saved := TablesNow(), world.intake.buffer, batch;
      ghost var held, empty := Holds(before, done), messages == [];
      flushed := Shutdown(env);
      if flushed && held {
        if empty {
          assert done + buffer == done;
        } else {
          SavedOnTop(before, done, now, buffer, saved);
        }
      }
    }

    lemma CommittedIsWithin()
      requires Valid()
      ensures Within(c, committed)
    {
      Window();
      forall p: nat | p < |c.logs| ensures committed[p] <= |c.logs[p]| {
        assert Intake.OffsetInv(c, world.intake, p);
      }
    }

    lemma BufferedIsBatched()
      requires Valid()
      ensures |messages| == BatchSize(batch)
    {
      EveryEntryCounts(world.intake.buffer);
    }
  }

  /** Whatever the process went through, every message it committed has its key safe in the outbox or at the broker. */
  lemma NothingCommittedIsLost(k: Consumer, p: nat, o: nat)
    requires k.Valid() && p < |k.c.logs| && p < |k.committed| && o < k.committed[p]
    ensures o < |k.c.logs[p]|
    ensures exists id :: Pipeline.Safe(k.world.relay, id) && Pipeline.HasKeyOf(k.c, k.world.relay.history[id].record, p, o)
  {
    var steps :| Pipeline.Run(k.c, k.limit, k.origin, steps, k.world);
    Pipeline.NoLoss(k.c, k.limit, k.origin, steps, k.world, p, o);
  }
}
