/**
 The kafka_outbox table and the four statements that change it, as functions on values.
 Times are whole microseconds, the resolution of the database's timestamps.
 */
module OutboxTable {
  import opened Wrappers
  import opened Events
  import opened Ranking

  type Time = int
  type Token = nat
  type RowId = nat

  const LEASE: int := 300_000_000
  const MAX_BACKOFF: int := 300_000_000

  datatype Row = Row(
    record: Record,
    availableAt: Time,
    attempts: nat,
    claimedAt: Option<Time>,
    claimToken: Option<Token>,
    publishedAt: Option<Time>,
    lastError: Option<string>)

  /** `nextId` is the next value of the table's id sequence; ids are never used twice. */
  datatype Table = Table(rows: map<RowId, Row>, nextId: RowId)

  predicate HasKey(t: Table, key: string) {
    exists id | id in t.rows :: t.rows[id].record.dedupeKey == key
  }

  function FreshRow(record: Record, now: Time): Row {
    Row(record, now, 0, None, None, None, None)
  }

  /** INSERT ... ON CONFLICT (dedupe_key) DO NOTHING; a conflict still consumes an id. */
  function Insert(t: Table, record: Record, now: Time): Table {
    if HasKey(t, record.dedupeKey) then t.(nextId := t.nextId + 1)
    else Table(t.rows[t.nextId := FreshRow(record, now)], t.nextId + 1)
  }

  function InsertAll(t: Table, records: seq<Record>, now: Time): Table
    decreases |records|
  {
    if records == [] then t
    else InsertAll(Insert(t, records[0], now), records[1..], now)
  }

  predicate Eligible(row: Row, now: Time) {
    && row.publishedAt.None?
    && row.availableAt <= now
    && (row.claimedAt.None? || row.claimedAt.value < now - LEASE)
  }

  /** Rows locked by a concurrent transaction are skipped. */
  function EligibleIds(t: Table, now: Time, locked: set<RowId>): set<RowId> {
    set id | id in t.rows && id !in locked && Eligible(t.rows[id], now)
  }

  function Candidates(t: Table, now: Time, limit: nat, locked: set<RowId>): set<RowId> {
    FirstN(EligibleIds(t, now, locked), limit)
  }

  function ClaimedRow(row: Row, token: Token, now: Time): Row {
    row.(claimedAt := Some(now), claimToken := Some(token), attempts := row.attempts + 1)
  }

  function ClaimIds(t: Table, ids: set<RowId>, token: Token, now: Time): Table {
    t.(rows := map id | id in t.rows ::
      if id in ids then ClaimedRow(t.rows[id], token, now) else t.rows[id])
  }

  predicate Holds(t: Table, id: RowId, token: Token) {
    id in t.rows && t.rows[id].claimToken == Some(token)
  }

  function PublishedRow(row: Row, now: Time): Row {
    row.(publishedAt := Some(now), claimedAt := None, claimToken := None, lastError := None)
  }

  function MarkPublished(t: Table, id: RowId, token: Token, now: Time): Table {
    if Holds(t, id, token) then t.(rows := t.rows[id := PublishedRow(t.rows[id], now)]) else t
  }

  /** Five seconds for every attempt so far, five minutes at most. */
  function Backoff(attempts: nat): int {
    if 5_000_000 * attempts < MAX_BACKOFF then 5_000_000 * attempts else MAX_BACKOFF
  }

  function ReleasedRow(row: Row, error: string, now: Time): Row {
    row.(claimedAt := None, claimToken := None,
         lastError := Some(if |error| > 500 then error[..500] else error),
         availableAt := now + Backoff(row.attempts))
  }

  function Release(t: Table, id: RowId, token: Token, error: string, now: Time): Table {
    if Holds(t, id, token) then t.(rows := t.rows[id := ReleasedRow(t.rows[id], error, now)]) else t
  }

  /** `published_at < cutoff`, which a NULL never satisfies. */
  predicate Expired(row: Row, cutoff: Time) {
    row.publishedAt.Some? && row.publishedAt.value < cutoff
  }

  function Delete(t: Table, ids: set<RowId>): Table {
    t.(rows := t.rows - ids)
  }

  ghost predicate KeysUnique(t: Table) {
    forall i, j | i in t.rows && j in t.rows && i != j ::
      t.rows[i].record.dedupeKey != t.rows[j].record.dedupeKey
  }

  ghost predicate IdsBelowNext(t: Table) {
    forall id | id in t.rows :: id < t.nextId
  }

  /** What inserting records does: old rows stay, new rows are fresh and have new ids. */
  ghost predicate Grown(t: Table, u: Table, records: seq<Record>, now: Time) {
    && KeysUnique(u) && IdsBelowNext(u) && t.nextId <= u.nextId
    && (forall id | id in t.rows :: id in u.rows && u.rows[id] == t.rows[id])
    && (forall id | id in u.rows && id !in t.rows ::
          t.nextId <= id && u.rows[id].record in records && IsFresh(u.rows[id], now))
  }

  /** Pending, never tried and ready to be claimed at once. */
  ghost predicate IsFresh(row: Row, now: Time) {
    && row.publishedAt.None? && row.claimedAt.None? && row.claimToken.None? && row.lastError.None?
    && row.attempts == 0 && row.availableAt == now && Eligible(row, now)
  }

  lemma InsertGrows(t: Table, record: Record, now: Time)
    requires KeysUnique(t) && IdsBelowNext(t)
    ensures Grown(t, Insert(t, record, now), [record], now)
    ensures HasKey(Insert(t, record, now), record.dedupeKey)
  {
    if !HasKey(t, record.dedupeKey) {
      assert Insert(t, record, now).rows[t.nextId].record.dedupeKey == record.dedupeKey;
    }
  }

  lemma GrownTwice(t: Table, mid: Table, u: Table, records: seq<Record>, now: Time)
    requires records != [] && Grown(t, mid, [records[0]], now) && Grown(mid, u, records[1..], now)
    ensures Grown(t, u, records, now)
    ensures forall key | HasKey(mid, key) :: HasKey(u, key)
  {
    forall key | HasKey(mid, key) ensures HasKey(u, key) {
      var id :| id in mid.rows && mid.rows[id].record.dedupeKey == key;
      assert u.rows[id].record.dedupeKey == key;
    }
  }

  /** Inserting a batch keeps every old row, adds only fresh rows, and leaves every key present. */
  lemma {:induction false} InsertAllEffect(t: Table, records: seq<Record>, now: Time)
    requires KeysUnique(t) && IdsBelowNext(t)
    ensures Grown(t, InsertAll(t, records, now), records, now)
    ensures forall r | r in records :: HasKey(InsertAll(t, records, now), r.dedupeKey)
    ensures InsertAll(t, records, now).nextId == t.nextId + |records|
    decreases |records|
  {
    if records != [] {
      var mid := Insert(t, records[0], now);
      InsertGrows(t, records[0], now);
      InsertAllEffect(mid, records[1..], now);
      GrownTwice(t, mid, InsertAll(mid, records[1..], now), records, now);
    }
  }

  predicate Keeps(t: Table, record: Record) {
    exists id | id in t.rows :: t.rows[id].record == record
  }

  /** The first record of a batch with this key; the batch's length if there is none. */
  function FirstWith(records: seq<Record>, key: string): (i: nat)
    ensures i <= |records|
    ensures i < |records| ==> records[i].dedupeKey == key
    ensures forall j | 0 <= j < i :: records[j].dedupeKey != key
    decreases |records|
  {
    if records == [] || records[0].dedupeKey == key then 0 else 1 + FirstWith(records[1..], key)
  }

  lemma InsertKeepsIff(t: Table, added: Record, now: Time, record: Record)
    requires IdsBelowNext(t)
    ensures var u := Insert(t, added, now);
      && IdsBelowNext(u)
      && (Keeps(u, record) <==> Keeps(t, record) || (!HasKey(t, added.dedupeKey) && record == added))
      && (HasKey(u, record.dedupeKey) <==> HasKey(t, record.dedupeKey) || record.dedupeKey == added.dedupeKey)
  {
    var u := Insert(t, added, now);
    assert forall id | id in t.rows :: id in u.rows && u.rows[id] == t.rows[id];
    if !HasKey(t, added.dedupeKey) {
      assert u.rows[t.nextId].record == added;
    }
  }

  /** What a batch leaves in the table: the old records, and of each new key the first record only. */
  lemma {:induction false} InsertAllKeepsIff(t: Table, records: seq<Record>, now: Time, record: Record)
    requires IdsBelowNext(t)
    ensures var i := FirstWith(records, record.dedupeKey);
      Keeps(InsertAll(t, records, now), record) <==>
        Keeps(t, record) || (!HasKey(t, record.dedupeKey) && i < |records| && records[i] == record)
    decreases |records|
  {
    if records != [] {
      InsertKeepsIff(t, records[0], now, record);
      InsertAllKeepsIff(Insert(t, records[0], now), records[1..], now, record);
    }
  }

  /**
   A record reaches the table unchanged exactly when the first holder of its key, an older row or the
   first record of the batch with that key, is the same record.
   */
  lemma OwnRecordIsKeptIff(t: Table, records: seq<Record>, now: Time, i: nat)
    requires KeysUnique(t) && IdsBelowNext(t) && i < |records|
    ensures var u, key := InsertAll(t, records, now), records[i].dedupeKey;
      && HasKey(u, key)
      && (Keeps(u, records[i]) <==> forall id | id in u.rows && u.rows[id].record.dedupeKey == key :: u.rows[id].record == records[i])
      && (Keeps(u, records[i]) <==>
            if HasKey(t, key) then Keeps(t, records[i]) else records[FirstWith(records, key)] == records[i])
  {
    InsertAllEffect(t, records, now);
    assert records[i] in records;
    InsertAllKeepsIff(t, records, now, records[i]);
  }

  /** The rows a claim takes are eligible, at most `limit`, and the lowest ids come first. */
  lemma CandidatesEffect(t: Table, now: Time, limit: nat, locked: set<RowId>)
    ensures var ids := Candidates(t, now, limit, locked);
      var all := EligibleIds(t, now, locked);
      && ids <= all
      && |ids| == (if |all| <= limit then |all| else limit)
      && (forall i, j | i in all && j in ids && i < j :: i in ids)
  {
    var all := EligibleIds(t, now, locked);
    FirstNSize(all, limit);
    forall i, j | i in all && j in FirstN(all, limit) && i < j ensures i in FirstN(all, limit) {
      FirstNIsInitial(all, limit, i, j);
    }
  }
}
