/**
 The publishing half of the pipeline as a transition system: the outbox table, any number of
 publishers with volatile claimed rows, the broker's output log and the database clock. A publisher
 may crash between any two of its actions, and a record handed to the client library may reach
 the broker late, after the publisher gave up on it, or never.
 */
module Relay {
  import opened Wrappers
  import opened Events
  import opened Ranking
  import opened OutboxTable

  datatype Claim = Claim(token: Token, at: Time)

  /** Everything that ever happened to a row id; it outlives the row. */
  datatype History = History(record: Record, claims: seq<Claim>)

  /** One claimed row in a publisher's hands; also one copy of it on its way to the broker. */
  datatype Ticket = Ticket(id: RowId, token: Token, record: Record)

  datatype Stage = Next | Waiting | Acked | Failing

  datatype Publisher = Idle | Working(token: Token, rest: seq<Ticket>, stage: Stage)

  datatype State = State(
    now: Time,
    table: Table,
    history: map<RowId, History>,
    used: set<Token>,
    publishers: seq<Publisher>,
    inflight: multiset<Ticket>,
    broker: seq<Ticket>)

  datatype Step =
    | Tick(elapsed: nat)
    | Save(records: seq<Record>)
    | ClaimRows(w: nat, token: Token, locked: set<RowId>, order: seq<RowId>)
    | Enqueue(w: nat)
    | Deliver(ticket: Ticket)
    | Lose(ticket: Ticket)
    | Ack(w: nat)
    | GiveUp(w: nat)
    | Mark(w: nat)
    | ReleaseRow(w: nat, error: string)
    | Finish(w: nat)
    | Crash(w: nat)
    | Purge(ids: set<RowId>, age: int)

  // ---------------------------------------------------------------- steps

  predicate At(s: State, w: nat, stage: Stage) {
    && w < |s.publishers|
    && s.publishers[w].Working?
    && s.publishers[w].rest != []
    && s.publishers[w].stage == stage
  }

  predicate Enumerates(order: seq<RowId>, ids: set<RowId>) {
    && (forall i, j | 0 <= i < j < |order| :: order[i] != order[j])
    && (forall i | 0 <= i < |order| :: order[i] in ids)
    && |order| == |ids|
  }

  ghost predicate Enabled(limit: nat, s: State, step: Step) {
    match step
    case Tick(_) => true
    case Save(_) => true
    case ClaimRows(w, token, locked, order) =>
      && w < |s.publishers| && s.publishers[w].Idle?
      && token !in s.used
      && Enumerates(order, Candidates(s.table, s.now, limit, locked))
    case Enqueue(w) => At(s, w, Next)
    case Deliver(ticket) => ticket in s.inflight
    case Lose(ticket) => ticket in s.inflight
    case Ack(w) => At(s, w, Waiting) && s.publishers[w].rest[0] in s.broker
    case GiveUp(w) => At(s, w, Next) || At(s, w, Waiting)
    case Mark(w) => At(s, w, Acked)
    case ReleaseRow(w, _) => At(s, w, Failing)
    case Finish(w) => w < |s.publishers| && s.publishers[w].Working? && s.publishers[w].rest == []
    case Crash(w) => w < |s.publishers|
    case Purge(ids, age) =>
      forall id | id in ids :: id in s.table.rows && Expired(s.table.rows[id], s.now - age)
  }

  function WithStage(s: State, w: nat, stage: Stage): State
    requires w < |s.publishers| && s.publishers[w].Working?
  {
    s.(publishers := s.publishers[w := s.publishers[w].(stage := stage)])
  }

  /** A row id enters the history when its row is inserted. */
  function Archive(history: map<RowId, History>, t: Table): map<RowId, History> {
    map id | id in history.Keys + t.rows.Keys ::
      if id in history then history[id] else History(t.rows[id].record, [])
  }

  function AfterSave(s: State, records: seq<Record>): State {
    var t := InsertAll(s.table, records, s.now);
    s.(table := t, history := Archive(s.history, t))
  }

  function Extended(h: History, c: Claim): History {
    h.(claims := h.claims + [c])
  }

  function Recorded(history: map<RowId, History>, ids: set<RowId>, c: Claim): map<RowId, History> {
    map id | id in history :: if id in ids then Extended(history[id], c) else history[id]
  }

  function Tickets(t: Table, token: Token, order: seq<RowId>): seq<Ticket>
    requires forall i | 0 <= i < |order| :: order[i] in t.rows
  {
    seq(|order|, i requires 0 <= i < |order| => Ticket(order[i], token, t.rows[order[i]].record))
  }

  function AfterClaim(s: State, w: nat, ids: set<RowId>, token: Token, order: seq<RowId>): State
    requires w < |s.publishers|
    requires forall i | 0 <= i < |order| :: order[i] in s.table.rows
  {
    s.(table := ClaimIds(s.table, ids, token, s.now),
       history := Recorded(s.history, ids, Claim(token, s.now)),
       used := s.used + {token},
       publishers := s.publishers[w := Working(token, Tickets(s.table, token, order), Next)])
  }

  function AfterEnqueue(s: State, w: nat): State
    requires At(s, w, Next)
  {
    WithStage(s, w, Waiting).(inflight := s.inflight + multiset{s.publishers[w].rest[0]})
  }

  function AfterDeliver(s: State, ticket: Ticket): State {
    s.(inflight := s.inflight - multiset{ticket}, broker := s.broker + [ticket])
  }

  function AfterLose(s: State, ticket: Ticket): State {
    s.(inflight := s.inflight - multiset{ticket})
  }

  function AfterMark(s: State, w: nat): State
    requires At(s, w, Acked)
  {
    var p := s.publishers[w];
    s.(table := MarkPublished(s.table, p.rest[0].id, p.token, s.now),
       publishers := s.publishers[w := Working(p.token, p.rest[1..], Next)])
  }

  function AfterRelease(s: State, w: nat, error: string): State
    requires At(s, w, Failing)
  {
    var p := s.publishers[w];
    s.(table := Release(s.table, p.rest[0].id, p.token, error, s.now),
       publishers := s.publishers[w := Idle])
  }

  ghost function Apply(limit: nat, s: State, step: Step): State
    requires Enabled(limit, s, step)
  {
    match step
    case Tick(elapsed) => s.(now := s.now + elapsed)
    case Save(records) => AfterSave(s, records)
    case ClaimRows(w, token, locked, order) =>
      CandidatesEffect(s.table, s.now, limit, locked);
      AfterClaim(s, w, Candidates(s.table, s.now, limit, locked), token, order)
    case Enqueue(w) => AfterEnqueue(s, w)
    case Deliver(ticket) => AfterDeliver(s, ticket)
    case Lose(ticket) => AfterLose(s, ticket)
    case Ack(w) => WithStage(s, w, Acked)
    case GiveUp(w) => WithStage(s, w, Failing)
    case Mark(w) => AfterMark(s, w)
    case ReleaseRow(w, error) => AfterRelease(s, w, error)
    case Finish(w) => s.(publishers := s.publishers[w := Idle])
    case Crash(w) => s.(publishers := s.publishers[w := Idle])
    case Purge(ids, age) => s.(table := Delete(s.table, ids))
  }

  ghost predicate Init(s: State) {
    && s.table.rows == map[] && s.history == map[]
    && s.inflight == multiset{} && s.broker == []
    && (forall w | 0 <= w < |s.publishers| :: s.publishers[w].Idle?)
  }

  ghost predicate Run(limit: nat, s: State, steps: seq<Step>, s': State)
    decreases |steps|
  {
    if steps == [] then s' == s
    else Enabled(limit, s, steps[0]) && Run(limit, Apply(limit, s, steps[0]), steps[1..], s')
  }

  // ------------------------------------------------------------ invariant

  ghost predicate Delivered(broker: seq<Ticket>, id: RowId) {
    exists t :: t in broker && t.id == id
  }

  /** Consecutive claims of a row are at least the back-off of the earlier one apart. */
  ghost predicate Spaced(claims: seq<Claim>) {
    forall k | 1 <= k < |claims| :: claims[k].at >= claims[k - 1].at + Backoff(k)
  }

  ghost predicate HistoryInv(now: Time, used: set<Token>, h: History) {
    && Spaced(h.claims)
    && (forall i | 0 <= i < |h.claims| :: h.claims[i].at <= now && h.claims[i].token in used)
    && (forall i, j | 0 <= i < j < |h.claims| :: h.claims[i].token != h.claims[j].token)
  }

  ghost predicate RowInv(now: Time, row: Row, h: History) {
    && h.record == row.record
    && row.attempts == |h.claims|
    && row.availableAt <= now + MAX_BACKOFF
    && (row.claimedAt.None? <==> row.claimToken.None?)
    && (row.publishedAt.Some? ==> row.claimedAt.None?)
    && (row.publishedAt.Some? ==> |h.claims| > 0 && h.claims[|h.claims| - 1].at <= row.publishedAt.value <= now)
    && (row.claimedAt.Some? ==>
          |h.claims| > 0 && h.claims[|h.claims| - 1] == Claim(row.claimToken.value, row.claimedAt.value))
    && (row.claimedAt.None? && row.publishedAt.None? && |h.claims| > 0 ==>
          row.availableAt >= h.claims[|h.claims| - 1].at + Backoff(|h.claims|))
  }

  ghost predicate TableInv(now: Time, t: Table, history: map<RowId, History>, used: set<Token>) {
    && KeysUnique(t)
    && (forall id | id in t.rows :: id in history && RowInv(now, t.rows[id], history[id]))
    && (forall id | id in history :: id < t.nextId && HistoryInv(now, used, history[id]))
  }

  /** A row leaves the pending set only once a copy of it is in the broker's log. */
  ghost predicate DurableInv(t: Table, history: map<RowId, History>, broker: seq<Ticket>) {
    forall id | id in history && (id !in t.rows || t.rows[id].publishedAt.Some?) :: Delivered(broker, id)
  }

  ghost predicate HasClaim(h: History, token: Token) {
    exists i :: 0 <= i < |h.claims| && h.claims[i].token == token
  }

  ghost predicate TicketInv(history: map<RowId, History>, t: Ticket) {
    t.id in history && history[t.id].record == t.record && HasClaim(history[t.id], t.token)
  }

  /** Each claim of a row is handed to the broker at most once. */
  ghost predicate BrokerInv(history: map<RowId, History>, inflight: multiset<Ticket>, broker: seq<Ticket>) {
    && (forall t | t in inflight :: TicketInv(history, t) && inflight[t] == 1 && t !in broker)
    && (forall t | t in broker :: TicketInv(history, t))
    && (forall i, j | 0 <= i < j < |broker| :: broker[i] != broker[j])
  }

  ghost predicate Unsent(inflight: multiset<Ticket>, broker: seq<Ticket>, t: Ticket) {
    t !in inflight && t !in broker
  }

  ghost predicate HandsInv(history: map<RowId, History>, p: Publisher)
    requires p.Working?
  {
    && (forall i | 0 <= i < |p.rest| :: p.rest[i].token == p.token && TicketInv(history, p.rest[i]))
    && (forall i, j | 0 <= i < j < |p.rest| :: p.rest[i] != p.rest[j])
    && (p.rest == [] ==> p.stage == Next)
  }

  ghost predicate SendInv(inflight: multiset<Ticket>, broker: seq<Ticket>, p: Publisher)
    requires p.Working?
  {
    && (forall i | 0 <= i < |p.rest| && (i > 0 || p.stage == Next) :: Unsent(inflight, broker, p.rest[i]))
    && (p.stage == Acked && p.rest != [] ==> p.rest[0] in broker)
  }

  ghost predicate WorkersInv(history: map<RowId, History>, used: set<Token>, publishers: seq<Publisher>) {
    && (forall w | 0 <= w < |publishers| && publishers[w].Working? ::
          publishers[w].token in used && HandsInv(history, publishers[w]))
    && (forall v, w | 0 <= v < w < |publishers| && publishers[v].Working? && publishers[w].Working? ::
          publishers[v].token != publishers[w].token)
  }

  ghost predicate SendsInv(inflight: multiset<Ticket>, broker: seq<Ticket>, publishers: seq<Publisher>) {
    forall w | 0 <= w < |publishers| && publishers[w].Working? :: SendInv(inflight, broker, publishers[w])
  }

  ghost predicate Inv(s: State) {
    && TableInv(s.now, s.table, s.history, s.used)
    && DurableInv(s.table, s.history, s.broker)
    && BrokerInv(s.history, s.inflight, s.broker)
    && WorkersInv(s.history, s.used, s.publishers)
    && SendsInv(s.inflight, s.broker, s.publishers)
  }

  lemma InitInv(s: State)
    requires Init(s)
    ensures Inv(s)
  {
  }

  // ------------------------------------------------- the history only grows

  ghost predicate HistoryGrows(h: map<RowId, History>, h': map<RowId, History>) {
    forall id | id in h :: id in h' && h'[id].record == h[id].record && h[id].claims <= h'[id].claims
  }

  ghost predicate Grows(s: State, s': State) {
    && s.now <= s'.now
    && s.used <= s'.used
    && HistoryGrows(s.history, s'.history)
    && s.broker <= s'.broker
    && |s.publishers| == |s'.publishers|
  }

  lemma TicketStays(h: map<RowId, History>, h': map<RowId, History>, t: Ticket)
    requires HistoryGrows(h, h') && TicketInv(h, t)
    ensures TicketInv(h', t)
  {
    var i :| 0 <= i < |h[t.id].claims| && h[t.id].claims[i].token == t.token;
    assert h'[t.id].claims[i].token == t.token;
  }

  lemma HistoryGrowthKeeps(s: State, h': map<RowId, History>, used': set<Token>)
    requires HistoryGrows(s.history, h') && s.used <= used'
    requires BrokerInv(s.history, s.inflight, s.broker) && WorkersInv(s.history, s.used, s.publishers)
    ensures BrokerInv(h', s.inflight, s.broker) && WorkersInv(h', used', s.publishers)
  {
    forall t | TicketInv(s.history, t) ensures TicketInv(h', t) {
      TicketStays(s.history, h', t);
    }
  }

  /** Changing one publisher's hands, keeping its token or taking a fresh one. */
  lemma WorkerChange(h: map<RowId, History>, used: set<Token>, ps: seq<Publisher>, w: nat, p: Publisher)
    requires WorkersInv(h, used, ps) && w < |ps|
    requires p.Working? ==> p.token in used && HandsInv(h, p)
    requires p.Working? ==> forall v | 0 <= v < |ps| && v != w && ps[v].Working? :: ps[v].token != p.token
    ensures WorkersInv(h, used, ps[w := p])
  {
  }

  lemma SavedRow(s: State, records: seq<Record>, id: RowId)
    requires TableInv(s.now, s.table, s.history, s.used)
    requires id in InsertAll(s.table, records, s.now).rows
    ensures var t := InsertAll(s.table, records, s.now); var h := Archive(s.history, t);
      RowInv(s.now, t.rows[id], h[id]) && HistoryInv(s.now, s.used, h[id]) && id < t.nextId
    ensures id !in s.history ==> InsertAll(s.table, records, s.now).rows[id].record in records
  {
    InsertAllEffect(s.table, records, s.now);
    if id in s.table.rows {
      assert RowInv(s.now, s.table.rows[id], s.history[id]) && HistoryInv(s.now, s.used, s.history[id]);
    } else {
      assert id !in s.history;
    }
  }

  lemma SaveKeepsTable(s: State, records: seq<Record>)
    requires TableInv(s.now, s.table, s.history, s.used)
    ensures var t := InsertAll(s.table, records, s.now); var h := Archive(s.history, t);
      TableInv(s.now, t, h, s.used) && HistoryGrows(s.history, h)
  {
    var t := InsertAll(s.table, records, s.now);
    var h := Archive(s.history, t);
    forall id | id in t.rows
      ensures RowInv(s.now, t.rows[id], h[id]) && HistoryInv(s.now, s.used, h[id]) && id < t.nextId
    {
      SavedRow(s, records, id);
    }
    InsertAllEffect(s.table, records, s.now);
  }

  lemma SaveKeepsDurable(s: State, records: seq<Record>)
    requires TableInv(s.now, s.table, s.history, s.used) && DurableInv(s.table, s.history, s.broker)
    ensures var t := InsertAll(s.table, records, s.now); DurableInv(t, Archive(s.history, t), s.broker)
  {
    InsertAllEffect(s.table, records, s.now);
  }

  lemma SaveKeeps(s: State, records: seq<Record>)
    requires Inv(s)
    ensures Inv(AfterSave(s, records)) && Grows(s, AfterSave(s, records))
  {
    SaveKeepsTable(s, records);
    SaveKeepsDurable(s, records);
    HistoryGrowthKeeps(s, AfterSave(s, records).history, s.used);
  }

  lemma ClaimSpacing(now: Time, used: set<Token>, row: Row, h: History, token: Token)
    requires RowInv(now, row, h) && HistoryInv(now, used, h) && Eligible(row, now) && token !in used
    ensures var h' := Extended(h, Claim(token, now));
      HistoryInv(now, used + {token}, h') && RowInv(now, ClaimedRow(row, token, now), h')
  {
    assert |h.claims| > 0 ==> now >= h.claims[|h.claims| - 1].at + Backoff(|h.claims|);
  }

  lemma ClaimKeepsRow(s: State, ids: set<RowId>, token: Token, id: RowId)
    requires TableInv(s.now, s.table, s.history, s.used)
    requires forall id | id in ids :: id in s.table.rows && Eligible(s.table.rows[id], s.now)
    requires token !in s.used && id in s.history
    ensures var h := Recorded(s.history, ids, Claim(token, s.now));
      && id < s.table.nextId && HistoryInv(s.now, s.used + {token}, h[id])
      && (id in s.table.rows ==> RowInv(s.now, ClaimIds(s.table, ids, token, s.now).rows[id], h[id]))
  {
    var row := if id in s.table.rows then Some(s.table.rows[id]) else None;
    assert HistoryInv(s.now, s.used, s.history[id]);
    assert row.Some? ==> RowInv(s.now, row.value, s.history[id]);
    if id in ids {
      ClaimSpacing(s.now, s.used, row.value, s.history[id], token);
    }
  }

  lemma ClaimKeepsTable(s: State, ids: set<RowId>, token: Token)
    requires TableInv(s.now, s.table, s.history, s.used)
    requires forall id | id in ids :: id in s.table.rows && Eligible(s.table.rows[id], s.now)
    requires token !in s.used
    ensures var t := ClaimIds(s.table, ids, token, s.now); var h := Recorded(s.history, ids, Claim(token, s.now));
      TableInv(s.now, t, h, s.used + {token}) && HistoryGrows(s.history, h)
  {
    forall id | id in s.history
      ensures var h := Recorded(s.history, ids, Claim(token, s.now));
        && id < s.table.nextId && HistoryInv(s.now, s.used + {token}, h[id])
        && (id in s.table.rows ==> RowInv(s.now, ClaimIds(s.table, ids, token, s.now).rows[id], h[id]))
    {
      ClaimKeepsRow(s, ids, token, id);
    }
  }

  lemma ClaimKeepsDurable(s: State, ids: set<RowId>, token: Token)
    requires DurableInv(s.table, s.history, s.broker)
    ensures DurableInv(ClaimIds(s.table, ids, token, s.now), Recorded(s.history, ids, Claim(token, s.now)), s.broker)
  {
  }

  /** A freshly claimed row's ticket is in its history, and nowhere on its way to the broker. */
  lemma ClaimedTicket(s: State, ids: set<RowId>, token: Token, id: RowId)
    requires TableInv(s.now, s.table, s.history, s.used) && BrokerInv(s.history, s.inflight, s.broker)
    requires token !in s.used && id in ids && id in s.table.rows
    ensures var t := Ticket(id, token, s.table.rows[id].record);
      TicketInv(Recorded(s.history, ids, Claim(token, s.now)), t) && Unsent(s.inflight, s.broker, t)
  {
    var h := Recorded(s.history, ids, Claim(token, s.now));
    var t := Ticket(id, token, s.table.rows[id].record);
    assert RowInv(s.now, s.table.rows[id], s.history[id]) && HistoryInv(s.now, s.used, s.history[id]);
    assert h[id].claims[|h[id].claims| - 1].token == token;
    assert !TicketInv(s.history, t);
  }

  lemma ClaimKeepsHands(s: State, ids: set<RowId>, token: Token, order: seq<RowId>)
    requires TableInv(s.now, s.table, s.history, s.used) && BrokerInv(s.history, s.inflight, s.broker)
    requires token !in s.used && ids <= s.table.rows.Keys && Enumerates(order, ids)
    ensures var p := Working(token, Tickets(s.table, token, order), Next);
      HandsInv(Recorded(s.history, ids, Claim(token, s.now)), p) && SendInv(s.inflight, s.broker, p)
  {
    var rest := Tickets(s.table, token, order);
    forall i | 0 <= i < |rest|
      ensures TicketInv(Recorded(s.history, ids, Claim(token, s.now)), rest[i]) && Unsent(s.inflight, s.broker, rest[i])
    {
      ClaimedTicket(s, ids, token, order[i]);
    }
  }

  lemma ClaimKeepsWorkers(s: State, w: nat, ids: set<RowId>, token: Token, order: seq<RowId>)
    requires Inv(s) && w < |s.publishers| && token !in s.used
    requires ids <= s.table.rows.Keys && Enumerates(order, ids)
    ensures var s' := AfterClaim(s, w, ids, token, order); WorkersInv(s'.history, s'.used, s'.publishers)
  {
    var h, used := Recorded(s.history, ids, Claim(token, s.now)), s.used + {token};
    ClaimKeepsHands(s, ids, token, order);
    assert HistoryGrows(s.history, h);
    HistoryGrowthKeeps(s, h, used);
    WorkerChange(h, used, s.publishers, w, Working(token, Tickets(s.table, token, order), Next));
  }

  lemma ClaimKeepsSends(s: State, w: nat, ids: set<RowId>, token: Token, order: seq<RowId>)
    requires Inv(s) && w < |s.publishers| && token !in s.used
    requires ids <= s.table.rows.Keys && Enumerates(order, ids)
    ensures var s' := AfterClaim(s, w, ids, token, order); SendsInv(s'.inflight, s'.broker, s'.publishers)
  {
    ClaimKeepsHands(s, ids, token, order);
  }

  lemma ClaimKeeps(s: State, w: nat, ids: set<RowId>, token: Token, order: seq<RowId>)
    requires Inv(s) && w < |s.publishers| && token !in s.used && Enumerates(order, ids)
    requires forall id | id in ids :: id in s.table.rows && Eligible(s.table.rows[id], s.now)
    ensures Inv(AfterClaim(s, w, ids, token, order)) && Grows(s, AfterClaim(s, w, ids, token, order))
  {
    var s' := AfterClaim(s, w, ids, token, order);
    ClaimKeepsTable(s, ids, token);
    ClaimKeepsDurable(s, ids, token);
    assert BrokerInv(s'.history, s'.inflight, s'.broker) by {
      HistoryGrowthKeeps(s, s'.history, s'.used);
    }
    ClaimKeepsWorkers(s, w, ids, token, order);
    ClaimKeepsSends(s, w, ids, token, order);
  }

  lemma EnqueueKeepsBroker(h: map<RowId, History>, inflight: multiset<Ticket>, broker: seq<Ticket>, t: Ticket)
    requires BrokerInv(h, inflight, broker) && TicketInv(h, t) && Unsent(inflight, broker, t)
    ensures BrokerInv(h, inflight + multiset{t}, broker)
  {
    assert forall u | u in inflight + multiset{t} :: u == t || u in inflight;
  }

  lemma EnqueueKeepsSends(s: State, w: nat)
    requires Inv(s) && At(s, w, Next)
    ensures var s' := AfterEnqueue(s, w); SendsInv(s'.inflight, s'.broker, s'.publishers)
  {
    var s' := AfterEnqueue(s, w);
    forall v | 0 <= v < |s.publishers| && s.publishers[v].Working?
      ensures SendInv(s'.inflight, s'.broker, s'.publishers[v])
    {
      assert HandsInv(s.history, s.publishers[v]) && SendInv(s.inflight, s.broker, s.publishers[v]);
    }
  }

  lemma EnqueueKeeps(s: State, w: nat)
    requires Inv(s) && At(s, w, Next)
    ensures Inv(AfterEnqueue(s, w)) && Grows(s, AfterEnqueue(s, w))
  {
    var p := s.publishers[w];
    assert HandsInv(s.history, p) && SendInv(s.inflight, s.broker, p);
    WorkerChange(s.history, s.used, s.publishers, w, p.(stage := Waiting));
    EnqueueKeepsBroker(s.history, s.inflight, s.broker, p.rest[0]);
    EnqueueKeepsSends(s, w);
  }

  lemma DeliverKeepsBroker(h: map<RowId, History>, inflight: multiset<Ticket>, broker: seq<Ticket>, t: Ticket)
    requires BrokerInv(h, inflight, broker) && t in inflight
    ensures BrokerInv(h, inflight - multiset{t}, broker + [t])
  {
    assert TicketInv(h, t) && t !in broker;
    assert forall u | u in broker + [t] :: u == t || u in broker;
  }

  lemma DeliverKeepsDurable(s: State, t: Ticket)
    requires DurableInv(s.table, s.history, s.broker)
    ensures DurableInv(s.table, s.history, s.broker + [t])
  {
    forall id | Delivered(s.broker, id) ensures Delivered(s.broker + [t], id) {
      var u :| u in s.broker && u.id == id;
      assert u in s.broker + [t];
    }
  }

  lemma DeliverKeeps(s: State, t: Ticket)
    requires Inv(s) && t in s.inflight
    ensures Inv(AfterDeliver(s, t)) && Grows(s, AfterDeliver(s, t))
  {
    DeliverKeepsDurable(s, t);
    DeliverKeepsBroker(s.history, s.inflight, s.broker, t);
    SendsKept(s, s.inflight - multiset{t}, s.broker + [t]);
  }

  lemma LoseKeeps(s: State, t: Ticket)
    requires Inv(s) && t in s.inflight
    ensures Inv(AfterLose(s, t)) && Grows(s, AfterLose(s, t))
  {
    SendsKept(s, AfterLose(s, t).inflight, s.broker);
  }

  lemma SendsKept(s: State, inflight': multiset<Ticket>, broker': seq<Ticket>)
    requires SendsInv(s.inflight, s.broker, s.publishers) && s.broker <= broker'
    requires forall t | Unsent(s.inflight, s.broker, t) :: Unsent(inflight', broker', t)
    ensures SendsInv(inflight', broker', s.publishers)
  {
    forall v | 0 <= v < |s.publishers| && s.publishers[v].Working?
      ensures SendInv(inflight', broker', s.publishers[v])
    {
      assert SendInv(s.inflight, s.broker, s.publishers[v]);
    }
  }

  lemma MarkKeepsTable(s: State, t: Ticket)
    requires TableInv(s.now, s.table, s.history, s.used) && DurableInv(s.table, s.history, s.broker) && t in s.broker
    ensures var table := MarkPublished(s.table, t.id, t.token, s.now);
      TableInv(s.now, table, s.history, s.used) && DurableInv(table, s.history, s.broker)
  {
    assert Delivered(s.broker, t.id);
  }

  lemma MarkKeeps(s: State, w: nat)
    requires Inv(s) && At(s, w, Acked)
    ensures Inv(AfterMark(s, w)) && Grows(s, AfterMark(s, w))
  {
    var p := s.publishers[w];
    assert HandsInv(s.history, p) && SendInv(s.inflight, s.broker, p);
    MarkKeepsTable(s, p.rest[0]);
    WorkerChange(s.history, s.used, s.publishers, w, Working(p.token, p.rest[1..], Next));
  }

  lemma ReleaseKeepsTable(s: State, id: RowId, token: Token, error: string)
    requires TableInv(s.now, s.table, s.history, s.used) && DurableInv(s.table, s.history, s.broker)
    ensures var table := Release(s.table, id, token, error, s.now);
      TableInv(s.now, table, s.history, s.used) && DurableInv(table, s.history, s.broker)
  {
    if Holds(s.table, id, token) {
      assert RowInv(s.now, s.table.rows[id], s.history[id]) && HistoryInv(s.now, s.used, s.history[id]);
    }
  }

  lemma ReleaseKeeps(s: State, w: nat, error: string)
    requires Inv(s) && At(s, w, Failing)
    ensures Inv(AfterRelease(s, w, error)) && Grows(s, AfterRelease(s, w, error))
  {
    var p := s.publishers[w];
    ReleaseKeepsTable(s, p.rest[0].id, p.token, error);
    WorkerChange(s.history, s.used, s.publishers, w, Idle);
  }

  lemma StageKeeps(s: State, w: nat, p: Publisher)
    requires Inv(s) && w < |s.publishers|
    requires p.Working? ==>
      && s.publishers[w].Working? && p == s.publishers[w].(stage := p.stage)
      && p.rest != [] && p.stage != Next && (p.stage == Acked ==> p.rest[0] in s.broker)
    ensures var s' := s.(publishers := s.publishers[w := p]); Inv(s') && Grows(s, s')
  {
    assert s.publishers[w].Working? ==>
      HandsInv(s.history, s.publishers[w]) && SendInv(s.inflight, s.broker, s.publishers[w]);
    WorkerChange(s.history, s.used, s.publishers, w, p);
  }

  lemma TimeKeeps(s: State, now: Time)
    requires Inv(s) && s.now <= now
    ensures Inv(s.(now := now)) && Grows(s, s.(now := now))
  {
  }

  lemma PurgeKeeps(s: State, ids: set<RowId>)
    requires Inv(s) && forall id | id in ids :: id in s.table.rows && s.table.rows[id].publishedAt.Some?
    ensures var s' := s.(table := Delete(s.table, ids)); Inv(s') && Grows(s, s')
  {
  }

  predicate OwnStep(step: Step) {
    step.Ack? || step.GiveUp? || step.Finish? || step.Crash?
  }

  /** Steps that change nothing but one publisher's stage. */
  lemma OwnStepKeeps(limit: nat, s: State, step: Step)
    requires Inv(s) && OwnStep(step) && Enabled(limit, s, step)
    ensures Inv(Apply(limit, s, step)) && Grows(s, Apply(limit, s, step))
  {
    match step
    case Ack(w) => StageKeeps(s, w, s.publishers[w].(stage := Acked));
    case GiveUp(w) => StageKeeps(s, w, s.publishers[w].(stage := Failing));
    case Finish(w) => StageKeeps(s, w, Idle);
    case Crash(w) => StageKeeps(s, w, Idle);
  }

  predicate BrokerStep(step: Step) {
    step.Enqueue? || step.Deliver? || step.Lose?
  }

  lemma BrokerStepKeeps(limit: nat, s: State, step: Step)
    requires Inv(s) && BrokerStep(step) && Enabled(limit, s, step)
    ensures Inv(Apply(limit, s, step)) && Grows(s, Apply(limit, s, step))
  {
    match step
    case Enqueue(w) => EnqueueKeeps(s, w);
    case Deliver(ticket) => DeliverKeeps(s, ticket);
    case Lose(ticket) => LoseKeeps(s, ticket);
  }

  lemma TableStepKeeps(limit: nat, s: State, step: Step)
    requires Inv(s) && !OwnStep(step) && !BrokerStep(step) && Enabled(limit, s, step)
    ensures Inv(Apply(limit, s, step)) && Grows(s, Apply(limit, s, step))
  {
    match step
    case Tick(elapsed) => TimeKeeps(s, s.now + elapsed);
    case Save(records) => SaveKeeps(s, records);
    case ClaimRows(w, token, locked, order) =>
      CandidatesEffect(s.table, s.now, limit, locked);
      ClaimKeeps(s, w, Candidates(s.table, s.now, limit, locked), token, order);
    case Mark(w) => MarkKeeps(s, w);
    case ReleaseRow(w, error) => ReleaseKeeps(s, w, error);
    case Purge(ids, _) => PurgeKeeps(s, ids);
  }

  lemma StepKeeps(limit: nat, s: State, step: Step)
    requires Inv(s) && Enabled(limit, s, step)
    ensures Inv(Apply(limit, s, step)) && Grows(s, Apply(limit, s, step))
  {
    if OwnStep(step) {
      OwnStepKeeps(limit, s, step);
    } else if BrokerStep(step) {
      BrokerStepKeeps(limit, s, step);
    } else {
      TableStepKeeps(limit, s, step);
    }
  }

  lemma {:induction false} RunKeeps(limit: nat, s: State, steps: seq<Step>, s': State)
    requires Inv(s) && Run(limit, s, steps, s')
    ensures Inv(s') && Grows(s, s')
    decreases |steps|
  {
    if steps != [] {
      StepKeeps(limit, s, steps[0]);
      RunKeeps(limit, Apply(limit, s, steps[0]), steps[1..], s');
    }
  }

  lemma {:induction false} RunAppend(limit: nat, s: State, steps: seq<Step>, mid: State, step: Step)
    requires Run(limit, s, steps, mid) && Enabled(limit, mid, step)
    ensures Run(limit, s, steps + [step], Apply(limit, mid, step))
    decreases |steps|
  {
    var all := steps + [step];
    if steps == [] {
      assert all[1..] == [];
    } else {
      RunAppend(limit, Apply(limit, s, steps[0]), steps[1..], mid, step);
      assert all[0] == steps[0] && all[1..] == steps[1..] + [step];
    }
  }

  /** Some run leads from one state to the other. */
  ghost predicate Reaches(limit: nat, s: State, s': State) {
    exists steps :: Run(limit, s, steps, s')
  }

  lemma ReachesSelf(limit: nat, s: State)
    ensures Reaches(limit, s, s)
  {
    assert Run(limit, s, [], s);
  }

  lemma ReachesStep(limit: nat, s0: State, s: State, step: Step)
    requires Reaches(limit, s0, s) && Enabled(limit, s, step)
    ensures Reaches(limit, s0, Apply(limit, s, step))
  {
    var steps :| Run(limit, s0, steps, s);
    RunAppend(limit, s0, steps, s, step);
  }

  lemma ReachesLater(limit: nat, s0: State, s: State, now: Time)
    requires Reaches(limit, s0, s) && s.now <= now
    ensures Reaches(limit, s0, s.(now := now))
  {
    ReachesStep(limit, s0, s, Tick(now - s.now));
  }

  lemma {:induction false} RunConcat(limit: nat, s: State, steps: seq<Step>, mid: State, more: seq<Step>, s': State)
    requires Run(limit, s, steps, mid) && Run(limit, mid, more, s')
    ensures Run(limit, s, steps + more, s')
    decreases |steps|
  {
    var all := steps + more;
    if steps == [] {
      assert all == more;
    } else {
      RunConcat(limit, Apply(limit, s, steps[0]), steps[1..], mid, more, s');
      assert all[0] == steps[0] && all[1..] == steps[1..] + more;
    }
  }

  lemma ReachesOn(limit: nat, s: State, mid: State, s': State)
    requires Reaches(limit, s, mid) && Reaches(limit, mid, s')
    ensures Reaches(limit, s, s')
  {
    var steps :| Run(limit, s, steps, mid);
    var more :| Run(limit, mid, more, s');
    RunConcat(limit, s, steps, mid, more, s');
  }
}
