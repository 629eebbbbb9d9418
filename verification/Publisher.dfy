/** The outbox publisher: one record at a time through the Kafka client, then the row's fate in the table. */
module Publisher {
  import opened Wrappers
  import opened Events
  import opened OutboxTable
  import opened Repository
  import Relay
  import Ranking
  import RelayProperties

  datatype Report = Acknowledged | Refused(error: string)

  /** What comes of handing a record over: it is enqueued, BufferError, or a KafkaException. */
  datatype Handover = Enqueued | BufferFull | Rejected(error: string)

  /** What the client library does in one call: take a record or not, spend time, report a delivery. */
  datatype Turn = Turn(handover: Handover, elapsed: nat, report: Option<Report>)

  /** The last two are both a KafkaException; only the first of them leaves nothing enqueued. */
  datatype PublishError = QueueFull | DeliveryTimeout | ProduceError(error: string) | DeliveryError(error: string)

  /** The client library, driven by an arbitrary script; every poll takes at least one tick. */
  class Producer {
    const script: nat -> Turn
    const tick: nat
    var turn: nat
    var clock: int
    var queued: seq<Record>
    var reported: Option<Report>

    /** When each poll began, and how long it was allowed to wait. */
    var polls: seq<(int, int)>

    ghost predicate Valid() reads this {
      tick >= 1
    }

    /** The broker is up: the queue takes every record and its first poll brings the acknowledgement. */
    ghost predicate Prompt() {
      forall i: nat :: script(i).handover.Enqueued? && script(i).report == Some(Acknowledged)
    }

    constructor (script: nat -> Turn, tick: nat, clock: int)
      requires tick >= 1
      ensures Valid() && this.script == script && this.tick == tick && this.clock == clock
      ensures turn == 0 && polls == [] && queued == [] && reported.None?
    {
      this.script, this.tick, this.clock := script, tick, clock;
      turn, polls, queued, reported := 0, [], [], None;
    }

    /** Only a record that was taken is enqueued. */
    method Produce(record: Record) returns (handover: Handover)
      modifies this`turn, this`queued, this`reported
      ensures handover == script(old(turn)).handover && turn == old(turn) + 1
      ensures queued == if handover.Enqueued? then old(queued) + [record] else old(queued)
      ensures reported.None?
    {
      handover := script(turn).handover;
      turn, reported := turn + 1, None;
      if handover.Enqueued? {
        queued := queued + [record];
      }
    }

    /** May run the delivery callback of the record last enqueued. */
    method Poll(timeout: int)
      modifies this`turn, this`clock, this`polls, this`reported
      ensures turn == old(turn) + 1 && clock == old(clock) + tick + script(old(turn)).elapsed
      ensures polls == old(polls) + [(old(clock), timeout)]
      ensures reported == if old(reported).Some? then old(reported) else script(old(turn)).report
    {
      polls := polls + [(clock, timeout)];
      clock := clock + tick + script(turn).elapsed;
      if reported.None? {
        reported := script(turn).report;
      }
      turn := turn + 1;
    }
  }

  // ------------------------------------------ what the script makes of a call

  /** What a call comes to from this turn of the script on, with this much time left: the record is offered. */
  function OfferResult(script: nat -> Turn, tick: nat, turn: nat, left: int): Result<(), PublishError>
    requires tick >= 1
    decreases left, 1
  {
    match script(turn).handover
    case Rejected(error) => Err(ProduceError(error))
    case Enqueued => AwaitResult(script, tick, turn + 1, left)
    case BufferFull =>
      if left <= 0 then Err(QueueFull)
      else OfferResult(script, tick, turn + 2, left - tick - script(turn + 1).elapsed)
  }

  /** The same once the record was taken: its report is awaited. */
  function AwaitResult(script: nat -> Turn, tick: nat, turn: nat, left: int): Result<(), PublishError>
    requires tick >= 1
    decreases left, 0
  {
    if left <= 0 then Err(DeliveryTimeout)
    else
      match script(turn).report
      case None => AwaitResult(script, tick, turn + 1, left - tick - script(turn).elapsed)
      case Some(Refused(error)) => Err(DeliveryError(error))
      case Some(Acknowledged) => Ok(())
  }

  /** The time n polls take, the first at this turn of the script and the others `stride` turns apart. */
  function Spent(script: nat -> Turn, tick: nat, turn: nat, stride: nat, n: nat): nat {
    if n == 0 then 0 else Spent(script, tick, turn, stride, n - 1) + tick + script(turn + stride * (n - 1)).elapsed
  }

  /** The time of a call after the queue was full k times and m polls for the report. */
  function CallTime(script: nat -> Turn, tick: nat, turn: nat, k: nat, m: nat): nat {
    Spent(script, tick, turn + 1, 2, k) + Spent(script, tick, turn + 2 * k + 1, 1, m)
  }

  /** What comes of offering the record for the time after i offers in vain. */
  function OfferAt(script: nat -> Turn, turn: nat, i: nat): Handover {
    script(turn + 2 * i).handover
  }

  /** What the poll after i others reports, once the record was taken after k offers in vain. */
  function ReportAt(script: nat -> Turn, turn: nat, k: nat, i: nat): Option<Report> {
    script(turn + 2 * k + 1 + i).report
  }

  /** The queue was full k times, each but the last time with some of the timeout left. */
  ghost predicate FullTimes(script: nat -> Turn, tick: nat, turn: nat, timeout: nat, k: nat) {
    && (forall i: nat | i < k :: OfferAt(script, turn, i).BufferFull?)
    && (k > 0 ==> CallTime(script, tick, turn, k - 1, 0) < timeout)
  }

  /** The record was taken after that, and m polls brought no report, each begun before the deadline. */
  ghost predicate Unreported(script: nat -> Turn, tick: nat, turn: nat, timeout: nat, k: nat, m: nat) {
    && OfferAt(script, turn, k).Enqueued?
    && (forall i: nat | i < m :: ReportAt(script, turn, k, i).None?)
    && (m > 0 ==> CallTime(script, tick, turn, k, m - 1) < timeout)
  }

  /** How a call comes out when the queue is full k times and m polls bring no report. */
  ghost predicate Outcome(script: nat -> Turn, tick: nat, turn: nat, timeout: nat, r: Result<(), PublishError>, k: nat, m: nat) {
    && FullTimes(script, tick, turn, timeout, k)
    && match r
       case Err(QueueFull) => OfferAt(script, turn, k).BufferFull? && CallTime(script, tick, turn, k, 0) >= timeout
       case Err(ProduceError(error)) => OfferAt(script, turn, k) == Rejected(error)
       case Err(DeliveryTimeout) =>
         Unreported(script, tick, turn, timeout, k, m) && CallTime(script, tick, turn, k, m) >= timeout
       case Err(DeliveryError(error)) => Reported(script, tick, turn, timeout, k, m, Refused(error))
       case Ok(_) => Reported(script, tick, turn, timeout, k, m, Acknowledged)
  }

  ghost predicate Reported(script: nat -> Turn, tick: nat, turn: nat, timeout: nat, k: nat, m: nat, report: Report) {
    && Unreported(script, tick, turn, timeout, k, m)
    && CallTime(script, tick, turn, k, m) < timeout && ReportAt(script, turn, k, m) == Some(report)
  }

  lemma FullOnceMore(script: nat -> Turn, tick: nat, turn: nat, timeout: nat, k: nat)
    requires FullTimes(script, tick, turn, timeout, k) && OfferAt(script, turn, k).BufferFull?
    requires CallTime(script, tick, turn, k, 0) < timeout
    ensures FullTimes(script, tick, turn, timeout, k + 1)
    ensures CallTime(script, tick, turn, k + 1, 0) == CallTime(script, tick, turn, k, 0) + tick + script(turn + 2 * k + 1).elapsed
  {
  }

  lemma UnreportedOnceMore(script: nat -> Turn, tick: nat, turn: nat, timeout: nat, k: nat, m: nat)
    requires Unreported(script, tick, turn, timeout, k, m) && ReportAt(script, turn, k, m).None?
    requires CallTime(script, tick, turn, k, m) < timeout
    ensures Unreported(script, tick, turn, timeout, k, m + 1)
    ensures CallTime(script, tick, turn, k, m + 1) == CallTime(script, tick, turn, k, m) + tick + script(turn + 2 * k + 1 + m).elapsed
  {
  }

  lemma {:induction false} SpentGrows(script: nat -> Turn, tick: nat, turn: nat, stride: nat, m: nat, n: nat)
    requires m <= n
    ensures Spent(script, tick, turn, stride, m) <= Spent(script, tick, turn, stride, n)
    decreases n
  {
    if m < n {
      SpentGrows(script, tick, turn, stride, m, n - 1);
    }
  }

  lemma SameFullTimes(script: nat -> Turn, tick: nat, turn: nat, timeout: nat,
                      r: Result<(), PublishError>, k: nat, m: nat, s: Result<(), PublishError>, k': nat, m': nat)
    requires Outcome(script, tick, turn, timeout, r, k, m) && Outcome(script, tick, turn, timeout, s, k', m')
    ensures k <= k'
  {
    if k' < k {
      assert OfferAt(script, turn, k').BufferFull?;
      SpentGrows(script, tick, turn + 1, 2, k', k - 1);
    }
  }

  lemma SameUnreported(script: nat -> Turn, tick: nat, turn: nat, timeout: nat,
                       r: Result<(), PublishError>, k: nat, m: nat, s: Result<(), PublishError>, m': nat)
    requires Outcome(script, tick, turn, timeout, r, k, m) && Outcome(script, tick, turn, timeout, s, k, m')
    requires OfferAt(script, turn, k).Enqueued?
    ensures m <= m'
  {
    if m' < m {
      assert ReportAt(script, turn, k, m').None?;
      SpentGrows(script, tick, turn + 2 * k + 1, 1, m', m - 1);
    }
  }

  /** The script decides the outcome: there is no other. */
  lemma OneOutcome(script: nat -> Turn, tick: nat, turn: nat, timeout: nat,
                   r: Result<(), PublishError>, k: nat, m: nat, s: Result<(), PublishError>, k': nat, m': nat)
    requires Outcome(script, tick, turn, timeout, r, k, m) && Outcome(script, tick, turn, timeout, s, k', m')
    ensures r == s
  {
    SameFullTimes(script, tick, turn, timeout, r, k, m, s, k', m');
    SameFullTimes(script, tick, turn, timeout, s, k', m', r, k, m);
    if OfferAt(script, turn, k).Enqueued? {
      SameUnreported(script, tick, turn, timeout, r, k, m, s, m');
      SameUnreported(script, tick, turn, timeout, s, k, m', r, m);
    }
    assert r.Ok? && s.Ok? ==> r.value == s.value == ();
  }

  ghost predicate ComesOut(script: nat -> Turn, tick: nat, turn: nat, timeout: nat, r: Result<(), PublishError>) {
    exists k: nat, m: nat :: Outcome(script, tick, turn, timeout, r, k, m)
  }

  lemma {:induction false} AwaitComesOut(script: nat -> Turn, tick: nat, turn: nat, timeout: nat, k: nat, m: nat)
    requires tick >= 1 && FullTimes(script, tick, turn, timeout, k) && Unreported(script, tick, turn, timeout, k, m)
    ensures var left := timeout - CallTime(script, tick, turn, k, m);
      ComesOut(script, tick, turn, timeout, AwaitResult(script, tick, turn + 2 * k + 1 + m, left))
    decreases timeout - CallTime(script, tick, turn, k, m)
  {
    var left := timeout - CallTime(script, tick, turn, k, m);
    if left > 0 && ReportAt(script, turn, k, m).None? {
      UnreportedOnceMore(script, tick, turn, timeout, k, m);
      AwaitComesOut(script, tick, turn, timeout, k, m + 1);
    } else {
      assert Outcome(script, tick, turn, timeout, AwaitResult(script, tick, turn + 2 * k + 1 + m, left), k, m);
    }
  }

  lemma {:induction false} OfferComesOut(script: nat -> Turn, tick: nat, turn: nat, timeout: nat, k: nat)
    requires tick >= 1 && FullTimes(script, tick, turn, timeout, k)
    ensures var left := timeout - CallTime(script, tick, turn, k, 0);
      ComesOut(script, tick, turn, timeout, OfferResult(script, tick, turn + 2 * k, left))
    decreases timeout - CallTime(script, tick, turn, k, 0)
  {
    var left := timeout - CallTime(script, tick, turn, k, 0);
    match OfferAt(script, turn, k)
    case Enqueued =>
      AwaitComesOut(script, tick, turn, timeout, k, 0);
    case BufferFull =>
      if left > 0 {
        FullOnceMore(script, tick, turn, timeout, k);
        OfferComesOut(script, tick, turn, timeout, k + 1);
      } else {
        assert Outcome(script, tick, turn, timeout, Err(QueueFull), k, 0);
      }
    case Rejected(error) =>
      assert Outcome(script, tick, turn, timeout, Err(ProduceError(error)), k, 0);
  }

  /**
   What a call comes to, in terms of the script alone: it is r exactly when the queue is full some k times,
   m polls bring no report, and what follows is what r says, all within the timeout.
   */
  lemma ResultIff(script: nat -> Turn, tick: nat, turn: nat, timeout: nat, r: Result<(), PublishError>)
    requires tick >= 1
    ensures r == OfferResult(script, tick, turn, timeout) <==> ComesOut(script, tick, turn, timeout, r)
  {
    OfferComesOut(script, tick, turn, timeout, 0);
    var s := OfferResult(script, tick, turn, timeout);
    if ComesOut(script, tick, turn, timeout, r) {
      var k: nat, m: nat :| Outcome(script, tick, turn, timeout, r, k, m);
      var k': nat, m': nat :| Outcome(script, tick, turn, timeout, s, k', m');
      OneOutcome(script, tick, turn, timeout, r, k, m, s, k', m');
    }
  }

  /** With time on its clock and the broker up a call succeeds. */
  lemma PromptIsOk(producer: Producer, turn: nat, timeout: nat)
    requires producer.Valid() && producer.Prompt() && timeout > 0
    ensures OfferResult(producer.script, producer.tick, turn, timeout).Ok?
  {
    assert producer.script(turn).handover.Enqueued?;
    assert producer.script(turn + 1).report == Some(Acknowledged);
  }

  const POLL_SLICE: int := 200_000

  function Shorter(a: int, b: int): int {
    if a < b then a else b
  }

  /** Polls made before a deadline wait for a fifth of a second, or for what is left until then. */
  ghost predicate PollsBefore(deadline: int, polls: seq<(int, int)>) {
    forall i | 0 <= i < |polls| ::
      var (at, wait) := polls[i];
      at < deadline && wait == if at + 200_000 < deadline then 200_000 else deadline - at
  }

  /** The polls of this call: how they waited, and that each took a tick at least. */
  ghost predicate Polled(polls: seq<(int, int)>, start: int, clock: int, deadline: int, tick: nat) {
    && PollsBefore(deadline, polls) && start <= clock
    && (forall i | 0 <= i < |polls| :: start <= polls[i].0 && polls[i].0 + tick <= clock)
    && (forall i, j | 0 <= i < j < |polls| :: polls[i].0 + tick <= polls[j].0)
  }

  lemma PollAdds(polls: seq<(int, int)>, start: int, clock: int, deadline: int, tick: nat, later: int)
    requires Polled(polls, start, clock, deadline, tick) && clock < deadline && later >= clock + tick
    ensures Polled(polls + [(clock, Shorter(POLL_SLICE, deadline - clock))], start, later, deadline, tick)
  {
  }

  lemma {:induction false} FewPolls(polls: seq<(int, int)>, start: int, clock: int, deadline: int, tick: nat)
    requires Polled(polls, start, clock, deadline, tick)
    ensures polls != [] ==> (|polls| - 1) * tick <= polls[|polls| - 1].0 - start < deadline - start
    decreases |polls|
  {
    var n := |polls| - 1;
    if n > 0 {
      FewPolls(polls[..n], start, polls[n].0, deadline, tick);
      assert n * tick == (n - 1) * tick + tick;
    }
  }

  lemma CountPolls(polls: seq<(int, int)>, start: int, clock: int, timeout: nat, tick: nat)
    requires Polled(polls, start, clock, start + timeout, tick) && tick >= 1
    ensures |polls| * tick < timeout + tick
  {
    FewPolls(polls, start, clock, start + timeout, tick);
    assert |polls| * tick == (|polls| - 1) * tick + tick;
  }

  /** The first loop: the record is offered until the queue takes it, between polls that make room. */
  method Offer(producer: Producer, record: Record, timeout: nat)
    returns (r: Result<(), PublishError>, ghost polls: seq<(int, int)>)
    requires producer.Valid()
    modifies producer
    ensures producer.Valid() && producer.reported.None?
    ensures OfferResult(producer.script, producer.tick, old(producer.turn), timeout) ==
      if r.Ok? then AwaitResult(producer.script, producer.tick, producer.turn, old(producer.clock) + timeout - producer.clock) else r
    ensures r.Err? ==> r.error.QueueFull? || r.error.ProduceError?
    ensures r.Err? && r.error.QueueFull? ==> producer.clock >= old(producer.clock) + timeout
    ensures producer.queued == old(producer.queued) + if r.Ok? then [record] else []
    ensures producer.polls == old(producer.polls) + polls
    ensures Polled(polls, old(producer.clock), producer.clock, old(producer.clock) + timeout, producer.tick)
  {
    ghost var start, turn := producer.clock, producer.turn;
    var deadline := producer.clock + timeout;
    polls := [];
    var handover := producer.Produce(record);
    while !handover.Enqueued?
      invariant producer.Valid() && producer.reported.None?
      invariant producer.turn >= 1 && handover == producer.script(producer.turn - 1).handover
      invariant OfferResult(producer.script, producer.tick, turn, timeout)
        == OfferResult(producer.script, producer.tick, producer.turn - 1, deadline - producer.clock)
      invariant producer.queued == old(producer.queued) + if handover.Enqueued? then [record] else []
      invariant producer.polls == old(producer.polls) + polls
      invariant Polled(polls, start, producer.clock, deadline, producer.tick)
      decreases deadline - producer.clock, !handover.Enqueued?
    {
      if handover.Rejected? {
        return Err(ProduceError(handover.error)), polls;
      }
      var remaining := deadline - producer.clock;
      if remaining <= 0 {
        return Err(QueueFull), polls;
      }
      ghost var at := producer.clock;
      producer.Poll(Shorter(POLL_SLICE, remaining));
      PollAdds(polls, start, at, deadline, producer.tick, producer.clock);
      polls := polls + [(at, Shorter(POLL_SLICE, remaining))];
      handover := producer.Produce(record);
    }
    return Ok(()), polls;
  }

  /** The second loop: the client is polled until it reports. */
  method AwaitReport(producer: Producer, deadline: int, ghost start: int, ghost sofar: seq<(int, int)>)
    returns (r: Result<(), PublishError>, ghost more: seq<(int, int)>)
    requires producer.Valid() && producer.reported.None?
    requires Polled(sofar, start, producer.clock, deadline, producer.tick)
    modifies producer
    ensures producer.Valid() && producer.queued == old(producer.queued)
    ensures r == AwaitResult(producer.script, producer.tick, old(producer.turn), deadline - old(producer.clock))
    ensures r.Err? ==> r.error.DeliveryTimeout? || r.error.DeliveryError?
    ensures r.Ok? ==> producer.reported == Some(Acknowledged)
    ensures r.Err? && r.error.DeliveryTimeout? ==> producer.clock >= deadline
    ensures producer.polls == old(producer.polls) + more
    ensures Polled(sofar + more, start, producer.clock, deadline, producer.tick)
  {
    ghost var result := AwaitResult(producer.script, producer.tick, producer.turn, deadline - producer.clock);
    ghost var all := sofar;
    more := [];
    while producer.reported.None?
      invariant producer.Valid() && producer.queued == old(producer.queued)
      invariant match producer.reported
        case None => result == AwaitResult(producer.script, producer.tick, producer.turn, deadline - producer.clock)
        case Some(Acknowledged) => result == Ok(())
        case Some(Refused(error)) => result == Err(DeliveryError(error))
      invariant producer.polls == old(producer.polls) + more && all == sofar + more
      invariant Polled(all, start, producer.clock, deadline, producer.tick)
      decreases deadline - producer.clock
    {
      var remaining := deadline - producer.clock;
      if remaining <= 0 {
        return Err(DeliveryTimeout), more;
      }
      ghost var at := producer.clock;
      producer.Poll(Shorter(POLL_SLICE, remaining));
      PollAdds(all, start, at, deadline, producer.tick, producer.clock);
      all, more := all + [(at, Shorter(POLL_SLICE, remaining))], more + [(at, Shorter(POLL_SLICE, remaining))];
    }
    match producer.reported.value
    case Acknowledged => return Ok(()), more;
    case Refused(error) => return Err(DeliveryError(error)), more;
  }

  /**
   The record is offered again while the queue is full, then its report is awaited, all before one
   deadline; the result is what the client's script makes of that. Ok means that exactly this record was
   enqueued, once, and acknowledged without an error.
   */
  method PublishJson(producer: Producer, record: Record, timeout: nat)
    returns (r: Result<(), PublishError>, ghost polls: seq<(int, int)>)
    requires producer.Valid()
    modifies producer
    ensures producer.Valid() && producer.clock >= old(producer.clock)
    ensures r == OfferResult(producer.script, producer.tick, old(producer.turn), timeout)
    ensures producer.queued ==
      old(producer.queued) + if r.Err? && (r.error.QueueFull? || r.error.ProduceError?) then [] else [record]
    ensures r.Ok? ==> producer.reported == Some(Acknowledged)
    ensures r.Err? && (r.error.QueueFull? || r.error.DeliveryTimeout?) ==> producer.clock >= old(producer.clock) + timeout
    ensures producer.polls == old(producer.polls) + polls && PollsBefore(old(producer.clock) + timeout, polls)
    ensures |polls| * producer.tick < timeout + producer.tick
  {
    ghost var start, more := producer.clock, [];
    var deadline := producer.clock + timeout;
    r, polls := Offer(producer, record, timeout);
    if r.Ok? {
      r, more := AwaitReport(producer, deadline, start, polls);
      polls := polls + more;
    }
    CountPolls(polls, start, producer.clock, timeout, producer.tick);
  }

  // ------------------------------------------------------------ publish_once

  /** The table while a publisher works through its rows: the first i published, the others claimed. */
  ghost predicate Progress(before: Table, t: Table, order: seq<RowId>, i: nat, token: Token, claimedAt: Time) {
    && t.rows.Keys == before.rows.Keys
    && (forall id | id in before.rows && id !in order :: t.rows[id] == before.rows[id])
    && (forall j | 0 <= j < |order| :: order[j] in before.rows)
    && (forall j | 0 <= j < i && j < |order| ::
          t.rows[order[j]].publishedAt.Some? && t.rows[order[j]].claimToken.None?)
    && (forall j | i <= j < |order| :: t.rows[order[j]] == ClaimedRow(before.rows[order[j]], token, claimedAt))
  }

  /** As Progress, but row i was given back with its back-off. */
  ghost predicate Interrupted(before: Table, t: Table, order: seq<RowId>, i: nat, token: Token, claimedAt: Time, now: Time) {
    && i < |order|
    && t.rows.Keys == before.rows.Keys
    && (forall id | id in before.rows && id !in order :: t.rows[id] == before.rows[id])
    && (forall j | 0 <= j < |order| :: order[j] in before.rows)
    && (forall j | 0 <= j < i :: t.rows[order[j]].publishedAt.Some? && t.rows[order[j]].claimToken.None?)
    && (forall j | i < j < |order| :: t.rows[order[j]] == ClaimedRow(before.rows[order[j]], token, claimedAt))
    && var row := t.rows[order[i]];
       && row.publishedAt.None? && row.claimedAt.None? && row.claimToken.None?
       && row.attempts == before.rows[order[i]].attempts + 1
       && row.availableAt == now + Backoff(row.attempts)
  }

  lemma ClaimBegins(t: Table, ids: set<RowId>, order: seq<RowId>, token: Token, now: Time)
    requires Relay.Enumerates(order, ids) && ids <= t.rows.Keys
    ensures Progress(t, ClaimIds(t, ids, token, now), order, 0, token, now)
    ensures forall id :: id in order <==> id in ids
  {
    var listed := set j | 0 <= j < |order| :: order[j];
    DistinctSize(order);
    assert listed <= ids;
    Ranking.SubsetSize(listed, ids);
  }

  lemma {:induction false} DistinctSize(order: seq<RowId>)
    requires forall i, j | 0 <= i < j < |order| :: order[i] != order[j]
    ensures |set j | 0 <= j < |order| :: order[j]| == |order|
    decreases |order|
  {
    if order != [] {
      var n := |order| - 1;
      var rest := order[..n];
      DistinctSize(rest);
      assert (set j | 0 <= j < |order| :: order[j]) == (set j | 0 <= j < |rest| :: rest[j]) + {order[n]};
    }
  }

  lemma MarkProgress(before: Table, t: Table, order: seq<RowId>, ids: set<RowId>, i: nat, token: Token, claimedAt: Time, now: Time)
    requires Relay.Enumerates(order, ids) && Progress(before, t, order, i, token, claimedAt) && i < |order|
    ensures Progress(before, MarkPublished(t, order[i], token, now), order, i + 1, token, claimedAt)
  {
  }

  lemma ReleaseProgress(before: Table, t: Table, order: seq<RowId>, ids: set<RowId>, i: nat, token: Token, claimedAt: Time,
                        error: string, now: Time)
    requires Relay.Enumerates(order, ids) && Progress(before, t, order, i, token, claimedAt) && i < |order|
    requires before.rows[order[i]].publishedAt.None?
    ensures Interrupted(before, Release(t, order[i], token, error, now), order, i, token, claimedAt, now)
  {
  }

  /** What a step of one publisher leaves alone. */
  ghost predicate SameButHands(s: Relay.State, s': Relay.State, w: nat, p: Relay.Publisher)
    requires w < |s.publishers|
  {
    s'.now == s.now && s'.used == s.used && s'.publishers == s.publishers[w := p]
  }

  /** The current record is handed over, arrives at the broker and is acknowledged. */
  lemma AcknowledgedReach(limit: nat, g: Relay.State, s: Relay.State, w: nat) returns (s': Relay.State)
    requires Relay.Reaches(limit, g, s) && Relay.At(s, w, Relay.Next)
    ensures Relay.Reaches(limit, g, s') && Relay.At(s', w, Relay.Acked)
    ensures s'.table == s.table && SameButHands(s, s', w, s.publishers[w].(stage := Relay.Acked))
  {
    var t := s.publishers[w].rest[0];
    Relay.ReachesStep(limit, g, s, Relay.Enqueue(w));
    var s1 := Relay.AfterEnqueue(s, w);
    Relay.ReachesStep(limit, g, s1, Relay.Deliver(t));
    var s2 := Relay.AfterDeliver(s1, t);
    Relay.ReachesStep(limit, g, s2, Relay.Ack(w));
    s' := Relay.WithStage(s2, w, Relay.Acked);
  }

  /** The publisher gives up on the current record, before or after it was handed over. */
  lemma GivenUpReach(limit: nat, g: Relay.State, s: Relay.State, w: nat, enqueued: bool) returns (s': Relay.State)
    requires Relay.Reaches(limit, g, s) && Relay.At(s, w, Relay.Next)
    ensures Relay.Reaches(limit, g, s') && Relay.At(s', w, Relay.Failing)
    ensures s'.table == s.table && SameButHands(s, s', w, s.publishers[w].(stage := Relay.Failing))
  {
    var s1 := s;
    if enqueued {
      Relay.ReachesStep(limit, g, s, Relay.Enqueue(w));
      s1 := Relay.AfterEnqueue(s, w);
    }
    Relay.ReachesStep(limit, g, s1, Relay.GiveUp(w));
    s' := Relay.WithStage(s1, w, Relay.Failing);
  }

  lemma PublishedReach(limit: nat, g: Relay.State, s: Relay.State, w: nat) returns (s': Relay.State)
    requires Relay.Reaches(limit, g, s) && Relay.At(s, w, Relay.Next)
    ensures Relay.Reaches(limit, g, s')
    ensures var p := s.publishers[w];
      && s'.table == MarkPublished(s.table, p.rest[0].id, p.token, s.now)
      && SameButHands(s, s', w, Relay.Working(p.token, p.rest[1..], Relay.Next))
  {
    var acked := AcknowledgedReach(limit, g, s, w);
    Relay.ReachesStep(limit, g, acked, Relay.Mark(w));
    s' := Relay.AfterMark(acked, w);
  }

  lemma ReleasedReach(limit: nat, g: Relay.State, s: Relay.State, w: nat, enqueued: bool, error: string) returns (s': Relay.State)
    requires Relay.Reaches(limit, g, s) && Relay.At(s, w, Relay.Next)
    ensures Relay.Reaches(limit, g, s')
    ensures var p := s.publishers[w];
      && s'.table == Release(s.table, p.rest[0].id, p.token, error, s.now)
      && SameButHands(s, s', w, Relay.Idle)
  {
    var failing := GivenUpReach(limit, g, s, w, enqueued);
    Relay.ReachesStep(limit, g, failing, Relay.ReleaseRow(w, error));
    s' := Relay.AfterRelease(failing, w, error);
  }

  /** After some time the current record is published, or given back. */
  lemma RowReach(limit: nat, g: Relay.State, s: Relay.State, w: nat, delay: nat, r: Result<(), PublishError>) returns (s': Relay.State)
    requires Relay.Reaches(limit, g, s) && Relay.At(s, w, Relay.Next)
    ensures Relay.Reaches(limit, g, s') && s'.now == s.now + delay && s'.used == s.used && |s'.publishers| == |s.publishers|
    ensures var p, now := s.publishers[w], s.now + delay;
      if r.Ok? then
        && s'.table == MarkPublished(s.table, p.rest[0].id, p.token, now)
        && s'.publishers[w] == Relay.Working(p.token, p.rest[1..], Relay.Next)
      else s'.table == Release(s.table, p.rest[0].id, p.token, ErrorName(r.error), now) && s'.publishers[w].Idle?
  {
    Relay.ReachesLater(limit, g, s, s.now + delay);
    s' := s.(now := s.now + delay);
    if r.Ok? {
      s' := PublishedReach(limit, g, s', w);
    } else {
      s' := ReleasedReach(limit, g, s', w, r.error.DeliveryTimeout? || r.error.DeliveryError?, ErrorName(r.error));
    }
  }

  /** The ghost state is reached from g and matches the real table and clock. */
  ghost predicate Follows(limit: nat, g: Relay.State, s: Relay.State, table: Table, now: Time)
  {
    Relay.Reaches(limit, g, s) && s.table == table && s.now == now && |s.publishers| == |g.publishers|
  }

  function ErrorName(e: PublishError): string {
    if e.ProduceError? || e.DeliveryError? then "KafkaException" else "TimeoutError"
  }

  function TotalDelay(delays: nat -> nat, n: nat): nat {
    if n == 0 then 0 else TotalDelay(delays, n - 1) + delays(n - 1)
  }

  /** One turn of the loop: deliver, then mark, or on failure release. */
  method PublishRow(repo: TransactionRepository, producer: Producer, row: Relay.Ticket, delay: nat,
                    limit: nat, w: nat, ghost g: Relay.State, ghost s: Relay.State)
    returns (r: Result<(), PublishError>, ghost s': Relay.State)
    requires producer.Valid()
    requires Follows(limit, g, s, repo.outbox, repo.clock)
    requires Relay.At(s, w, Relay.Next) && s.publishers[w].rest[0] == row && s.publishers[w].token == row.token
    modifies producer, repo`outbox, repo`clock
    ensures producer.Valid()
    ensures Follows(limit, g, s', repo.outbox, repo.clock) && s'.used == s.used
    ensures repo.clock == old(repo.clock) + delay
    ensures r.Ok? ==>
      && repo.outbox == MarkPublished(old(repo.outbox), row.id, row.token, repo.clock)
      && s'.publishers[w] == Relay.Working(row.token, s.publishers[w].rest[1..], Relay.Next)
      && producer.queued == old(producer.queued) + [row.record] && producer.reported == Some(Acknowledged)
    ensures r.Err? ==>
      && repo.outbox == Release(old(repo.outbox), row.id, row.token,
           if r.error.QueueFull? || r.error.DeliveryTimeout? then "TimeoutError" else "KafkaException", repo.clock)
      && s'.publishers[w].Idle?
    ensures r == OfferResult(producer.script, producer.tick, old(producer.turn), 10_000_000)
    ensures producer.Prompt() ==> r.Ok?
  {
    if producer.Prompt() {
      PromptIsOk(producer, producer.turn, 10_000_000);
    }
    ghost var polls;
    r, polls := PublishJson(producer, row.record, 10_000_000);
    repo.Advance(delay);
    s' := RowReach(limit, g, s, w, delay, r);
    if r.Ok? {
      repo.MarkOutboxPublished(row.id, row.token);
    } else {
      repo.ReleaseOutbox(row.id, row.token, ErrorName(r.error));
    }
  }

  /** PublishRow within a batch: row i of the order is published, or given back. */
  method PublishNext(repo: TransactionRepository, producer: Producer, row: Relay.Ticket, delay: nat,
                     limit: nat, w: nat, ghost g: Relay.State, ghost s: Relay.State,
                     ghost before: Table, ghost order: seq<RowId>, ghost ids: set<RowId>, ghost i: nat, ghost claimedAt: Time)
    returns (r: Result<(), PublishError>, ghost s': Relay.State)
    requires producer.Valid()
    requires Follows(limit, g, s, repo.outbox, repo.clock)
    requires Relay.At(s, w, Relay.Next) && s.publishers[w].rest[0] == row && s.publishers[w].token == row.token
    requires Relay.Enumerates(order, ids) && Progress(before, repo.outbox, order, i, row.token, claimedAt)
    requires i < |order| && row.id == order[i] && before.rows[order[i]].publishedAt.None?
    modifies producer, repo`outbox, repo`clock
    ensures producer.Valid()
    ensures Follows(limit, g, s', repo.outbox, repo.clock) && s'.used == s.used
    ensures repo.clock == old(repo.clock) + delay
    ensures r.Ok? ==>
      && Progress(before, repo.outbox, order, i + 1, row.token, claimedAt)
      && s'.publishers[w] == Relay.Working(row.token, s.publishers[w].rest[1..], Relay.Next)
    ensures r.Err? ==>
      && Interrupted(before, repo.outbox, order, i, row.token, claimedAt, repo.clock)
      && s'.publishers[w].Idle?
    ensures producer.Prompt() ==> r.Ok?
  {
    ghost var table := repo.outbox;
    r, s' := PublishRow(repo, producer, row, delay, limit, w, g, s);
    if r.Ok? {
      MarkProgress(before, table, order, ids, i, row.token, claimedAt, repo.clock);
    } else {
      ReleaseProgress(before, table, order, ids, i, row.token, claimedAt, ErrorName(r.error), repo.clock);
    }
  }

  /** The rows of a batch in turn, until one fails. */
  method PublishRows(repo: TransactionRepository, producer: Producer, rows: seq<Relay.Ticket>, delays: nat -> nat,
                     limit: nat, token: Token, w: nat, ghost g: Relay.State, ghost s: Relay.State,
                     ghost before: Table, ghost order: seq<RowId>, ghost ids: set<RowId>)
    returns (r: Result<nat, PublishError>, ghost s': Relay.State)
    requires producer.Valid()
    requires Follows(limit, g, s, repo.outbox, repo.clock)
    requires w < |s.publishers| && s.publishers[w] == Relay.Working(token, rows, Relay.Next)
    requires Relay.Enumerates(order, ids) && Progress(before, repo.outbox, order, 0, token, repo.clock)
    requires |rows| == |order| && forall i | 0 <= i < |rows| :: rows[i].id == order[i] && rows[i].token == token
    requires forall i | 0 <= i < |order| :: before.rows[order[i]].publishedAt.None?
    modifies producer, repo`outbox, repo`clock
    ensures producer.Valid() && repo.clock >= old(repo.clock)
    ensures Follows(limit, g, s', repo.outbox, repo.clock) && s'.publishers[w].Idle? && s'.used == s.used
    ensures r.Ok? ==>
      && r.value == |order|
      && Progress(before, repo.outbox, order, |order|, token, old(repo.clock))
      && repo.clock == old(repo.clock) + TotalDelay(delays, |order|)
    ensures r.Err? ==> exists i :: Interrupted(before, repo.outbox, order, i, token, old(repo.clock), repo.clock)
    ensures producer.Prompt() ==> r.Ok?
  {
    ghost var start := repo.clock;
    s' := s;
    for i := 0 to |rows|
      invariant producer.Valid() && repo.clock == start + TotalDelay(delays, i)
      invariant Follows(limit, g, s', repo.outbox, repo.clock) && s'.used == s.used
      invariant s'.publishers[w] == Relay.Working(token, rows[i..], Relay.Next)
      invariant Progress(before, repo.outbox, order, i, token, start)
    {
      assert rows[i..][0] == rows[i] && rows[i..][1..] == rows[i + 1..];
      var published;
      published, s' := PublishNext(repo, producer, rows[i], delays(i), limit, w, g, s', before, order, ids, i, start);
      if published.Err? {
        return Err(published.error), s';
      }
    }
    Relay.ReachesStep(limit, g, s', Relay.Finish(w));
    s' := s'.(publishers := s'.publishers[w := Relay.Idle]);
    return Ok(|rows|), s';
  }

  /** The claim that opens a call, and the publisher's state after it. */
  method ClaimBatch(repo: TransactionRepository, limit: nat, token: Token, locked: set<RowId>, w: nat, ghost g: Relay.State)
    returns (rows: seq<Relay.Ticket>, order: seq<RowId>, ghost g': Relay.State)
    requires g.table == repo.outbox && g.now == repo.clock
    requires w < |g.publishers| && g.publishers[w].Idle? && token !in g.used
    modifies repo`outbox
    ensures Follows(limit, g, g', repo.outbox, repo.clock) && g'.used == g.used + {token}
    ensures g'.publishers[w] == Relay.Working(token, rows, Relay.Next)
    ensures Progress(old(repo.outbox), repo.outbox, order, 0, token, repo.clock)
    ensures Relay.Enumerates(order, Candidates(old(repo.outbox), repo.clock, limit, locked))
    ensures forall id :: id in order <==> id in Candidates(old(repo.outbox), repo.clock, limit, locked)
    ensures |rows| == |order| && forall i | 0 <= i < |rows| :: rows[i].id == order[i] && rows[i].token == token
    ensures forall i | 0 <= i < |order| :: old(repo.outbox).rows[order[i]].publishedAt.None?
  {
    ghost var ids := Candidates(repo.outbox, repo.clock, limit, locked);
    CandidatesEffect(repo.outbox, repo.clock, limit, locked);
    rows, order := repo.ClaimOutbox(limit, token, locked);
    ClaimBegins(g.table, ids, order, token, g.now);
    Relay.ReachesSelf(limit, g);
    Relay.ReachesStep(limit, g, g, Relay.ClaimRows(w, token, locked, order));
    g' := Relay.AfterClaim(g, w, ids, token, order);
  }

  /**
   Claims a batch and publishes it row by row; the first failure gives that row back and stops, and the
   rows not yet tried stay claimed until the lease ends. Whatever happens is a run of the transition
   system: g is its state at the call, as this publisher sees it, and g' its state at the return.
   */
  method PublishOnce(repo: TransactionRepository, producer: Producer, limit: nat, token: Token, locked: set<RowId>,
                     delays: nat -> nat, w: nat, ghost g: Relay.State)
    returns (r: Result<nat, PublishError>, order: seq<RowId>, ghost g': Relay.State)
    requires producer.Valid()
    requires g.table == repo.outbox && g.now == repo.clock
    requires w < |g.publishers| && g.publishers[w].Idle? && token !in g.used
    modifies producer, repo`outbox, repo`clock
    ensures producer.Valid() && repo.clock >= old(repo.clock)
    ensures Follows(limit, g, g', repo.outbox, repo.clock) && g'.publishers[w].Idle? && g'.used == g.used + {token}
    ensures forall id :: id in order <==> id in Candidates(old(repo.outbox), old(repo.clock), limit, locked)
    ensures r.Ok? ==>
      && r.value == |order|
      && Progress(old(repo.outbox), repo.outbox, order, |order|, token, old(repo.clock))
      && repo.clock == old(repo.clock) + TotalDelay(delays, |order|)
    ensures r.Err? ==> exists i :: Interrupted(old(repo.outbox), repo.outbox, order, i, token, old(repo.clock), repo.clock)
    ensures producer.Prompt() ==> r.Ok?
  {
    ghost var before := repo.outbox;
    ghost var ids := Candidates(before, repo.clock, limit, locked);
    var rows;
    rows, order, g' := ClaimBatch(repo, limit, token, locked, w, g);
    r, g' := PublishRows(repo, producer, rows, delays, limit, token, w, g, g', before, order, ids);
  }

  /** A call without failures, alone on the table, is one round of the drain argument. */
  lemma SuccessIsARound(limit: nat, before: Table, after: Table, order: seq<RowId>, token: Token, now: Time)
    requires Progress(before, after, order, |order|, token, now)
    requires forall id :: id in order <==> id in Candidates(before, now, limit, {})
    ensures RelayProperties.Round(limit, before, now, after)
  {
  }

  // ------------------------------------------------------ the publisher loop

  ghost predicate Fresh(tokens: nat -> Token, used: set<Token>, from: nat) {
    && (forall i: nat | from <= i :: tokens(i) !in used)
    && (forall i: nat, j: nat | i < j :: tokens(i) != tokens(j))
  }

  /** One turn of the loop: a batch is published, and a pause made when there was none. */
  method PublishTurn(repo: TransactionRepository, producer: Producer, limit: nat, token: Token, delays: nat -> nat, pause: nat,
                     w: nat, ghost g: Relay.State, ghost s: Relay.State)
    returns (ok: bool, published: nat, ghost s': Relay.State)
    requires producer.Valid() && Follows(limit, g, s, repo.outbox, repo.clock)
    requires w < |s.publishers| && s.publishers[w].Idle? && token !in s.used
    modifies producer, repo`outbox, repo`clock
    ensures producer.Valid() && repo.clock >= old(repo.clock)
    ensures Follows(limit, g, s', repo.outbox, repo.clock) && s'.publishers[w].Idle? && s'.used == s.used + {token}
    ensures ok ==> RelayProperties.Round(limit, old(repo.outbox), old(repo.clock), repo.outbox)
    ensures ok ==> repo.clock == old(repo.clock) + TotalDelay(delays, published) + (if published == 0 then pause else 0)
    ensures ok ==> (published == 0 <==> Candidates(old(repo.outbox), old(repo.clock), limit, {}) == {})
    ensures producer.Prompt() ==> ok
  {
    var r, order;
    ghost var before, now := repo.outbox, repo.clock;
    r, order, s' := PublishOnce(repo, producer, limit, token, {}, delays, w, s);
    Relay.ReachesOn(limit, g, s, s');
    ok, published := r.Ok?, 0;
    if ok {
      published := r.value;
      assert order != [] ==> order[0] in order;
      SuccessIsARound(limit, before, repo.outbox, order, token, now);
      if published == 0 {
        repo.Advance(pause);
        Relay.ReachesLater(limit, g, s', s'.now + pause);
        s' := s'.(now := s'.now + pause);
      }
    }
  }

  /**
   The publisher's loop for a number of turns, alone on the table: publish a batch, pause when there was
   none, and stop at the first failure. Without one, its turns are rounds of the drain argument; when the
   broker is up there is none.
   */
  method RunPublisher(repo: TransactionRepository, producer: Producer, limit: nat, turns: nat, tokens: nat -> Token,
                      delays: (nat, nat) -> nat, pause: nat, w: nat, ghost g: Relay.State)
    returns (ok: bool, ghost g': Relay.State, ghost tables: seq<Table>, ghost times: seq<Time>)
    requires producer.Valid()
    requires g.table == repo.outbox && g.now == repo.clock
    requires w < |g.publishers| && g.publishers[w].Idle? && Fresh(tokens, g.used, 0)
    modifies producer, repo`outbox, repo`clock
    ensures Follows(limit, g, g', repo.outbox, repo.clock) && g'.publishers[w].Idle?
    ensures RelayProperties.Rounds(limit, tables, times) && tables[0] == old(repo.outbox)
    ensures times != [] ==> times[0] == old(repo.clock)
    ensures ok ==> |times| == turns && tables[turns] == repo.outbox
    ensures producer.Prompt() ==> ok
  {
    ok, g', tables, times := true, g, [repo.outbox], [];
    Relay.ReachesSelf(limit, g);
    var i := 0;
    while i < turns
      invariant i <= turns && producer.Valid()
      invariant Follows(limit, g, g', repo.outbox, repo.clock) && g'.publishers[w].Idle? && Fresh(tokens, g'.used, i)
      invariant RelayProperties.Rounds(limit, tables, times) && tables[0] == old(repo.outbox)
      invariant |times| == i && tables[i] == repo.outbox
      invariant if times == [] then repo.clock == old(repo.clock) else times[0] == old(repo.clock) && times[i - 1] <= repo.clock
    {
      ghost var now := repo.clock;
      var published;
      ok, published, g' := PublishTurn(repo, producer, limit, tokens(i), (k: nat) => delays(i, k), pause, w, g, g');
      if !ok {
        return false, g', tables, times;
      }
      RelayProperties.RoundsGrow(limit, tables, times, repo.outbox, now);
      tables, times := tables + [repo.outbox], times + [now];
      i := i + 1;
    }
  }
}
