/** What every run of the publishing half guarantees. */
module RelayProperties {
  import opened Wrappers
  import opened Ranking
  import opened OutboxTable
  import opened Relay

  // ---------------------------------------------------- bounded duplication

  /** How many copies of a row the broker holds. */
  function Copies(broker: seq<Ticket>, id: RowId): nat {
    if broker == [] then 0
    else Copies(broker[..|broker| - 1], id) + if broker[|broker| - 1].id == id then 1 else 0
  }

  function CopyTokens(broker: seq<Ticket>, id: RowId): set<Token> {
    set t | t in broker && t.id == id :: t.token
  }

  function ClaimTokens(claims: seq<Claim>): set<Token> {
    set c | c in claims :: c.token
  }

  lemma {:induction false} CopiesAreTokens(history: map<RowId, History>, broker: seq<Ticket>, id: RowId)
    requires forall t | t in broker :: TicketInv(history, t)
    requires forall i, j | 0 <= i < j < |broker| :: broker[i] != broker[j]
    ensures Copies(broker, id) == |CopyTokens(broker, id)|
    decreases |broker|
  {
    if broker != [] {
      var k := |broker| - 1;
      var init, last := broker[..k], broker[k];
      CopiesAreTokens(history, init, id);
      assert broker == init + [last];
      if last.id == id {
        assert CopyTokens(broker, id) == CopyTokens(init, id) + {last.token};
        assert last.token !in CopyTokens(init, id) by {
          assert last !in init;
          assert forall t | t in init && t.id == id :: t.record == last.record;
        }
      } else {
        assert CopyTokens(broker, id) == CopyTokens(init, id);
      }
    }
  }

  lemma {:induction false} TokensAtMostClaims(claims: seq<Claim>)
    ensures |ClaimTokens(claims)| <= |claims|
    decreases |claims|
  {
    if claims != [] {
      var k := |claims| - 1;
      TokensAtMostClaims(claims[..k]);
      assert claims == claims[..k] + [claims[k]];
      assert ClaimTokens(claims) == ClaimTokens(claims[..k]) + {claims[k].token};
    }
  }

  /** Over every run: never more copies of a row than claims of it, late deliveries included. */
  lemma BoundedDuplication(limit: nat, s0: State, steps: seq<Step>, s: State, id: RowId)
    requires Init(s0) && Run(limit, s0, steps, s) && id in s.history
    ensures Copies(s.broker, id) <= |s.history[id].claims|
    ensures id in s.table.rows ==> Copies(s.broker, id) <= s.table.rows[id].attempts
    ensures id in s.table.rows && s.table.rows[id].publishedAt.Some? ==>
      exists t :: t in s.broker && t.id == id && t.record == s.table.rows[id].record
  {
    RunKeeps(limit, s0, steps, s);
    var claims := s.history[id].claims;
    CopiesAreTokens(s.history, s.broker, id);
    assert CopyTokens(s.broker, id) <= ClaimTokens(claims) by {
      forall t | t in s.broker && t.id == id ensures t.token in ClaimTokens(claims) {
        assert TicketInv(s.history, t);
        var i :| 0 <= i < |claims| && claims[i].token == t.token;
        assert claims[i] in claims;
      }
    }
    SubsetSize(CopyTokens(s.broker, id), ClaimTokens(claims));
    TokensAtMostClaims(claims);
    if id in s.table.rows {
      assert RowInv(s.now, s.table.rows[id], s.history[id]);
      if s.table.rows[id].publishedAt.Some? {
        var t :| t in s.broker && t.id == id;
        assert TicketInv(s.history, t);
      }
    }
  }

  // ---------------------------------------------------------- claim spacing

  function Triangle(n: nat): nat {
    n * (n - 1) / 2
  }

  /** The shortest time in which a row can be claimed n times. */
  function MinimumSpan(n: nat): int {
    if n <= 61 then 5_000_000 * Triangle(n) else 9_150_000_000 + 300_000_000 * (n - 61)
  }

  lemma TriangleStep(n: nat)
    ensures Triangle(n + 1) == Triangle(n) + n
  {
    assert (n + 1) * n == n * (n - 1) + 2 * n;
  }

  lemma SpanGrowth(n: nat)
    requires n >= 1
    ensures MinimumSpan(n + 1) == MinimumSpan(n) + Backoff(n)
  {
    TriangleStep(n);
    assert Triangle(61) == 1830;
  }

  lemma {:induction false} SpacedClaimsTakeTime(claims: seq<Claim>)
    requires Spaced(claims) && claims != []
    ensures claims[|claims| - 1].at - claims[0].at >= MinimumSpan(|claims|)
    decreases |claims|
  {
    var n := |claims|;
    if n > 1 {
      SpacedClaimsTakeTime(claims[..n - 1]);
      SpanGrowth(n - 1);
    }
  }

  /** A row is never claimed faster than the back-off allows, and its attempts count its claims. */
  ghost predicate WellSpaced(s: State, id: RowId)
    requires id in s.history
  {
    var c := s.history[id].claims;
    && (forall k | 1 <= k < |c| :: c[k].at - c[k - 1].at >= Backoff(k))
    && (c != [] ==> c[|c| - 1].at - c[0].at >= MinimumSpan(|c|))
    && (id in s.table.rows ==> s.table.rows[id].attempts == |c|)
  }

  lemma HistoryIsWellSpaced(s: State, id: RowId)
    requires TableInv(s.now, s.table, s.history, s.used) && id in s.history
    ensures WellSpaced(s, id)
  {
    assert HistoryInv(s.now, s.used, s.history[id]);
    if s.history[id].claims != [] {
      SpacedClaimsTakeTime(s.history[id].claims);
    }
  }

  /** Over every run: claims are spaced, and n claims of a row need the summed minimum time. */
  lemma ClaimsAreSpaced(limit: nat, s0: State, steps: seq<Step>, s: State, id: RowId)
    requires Init(s0) && Run(limit, s0, steps, s) && id in s.history
    ensures WellSpaced(s, id)
  {
    RunKeeps(limit, s0, steps, s);
    HistoryIsWellSpaced(s, id);
  }

  // ---------------------------------------------------------------- fencing

  /** The outbox table after a step. */
  ghost function NextTable(limit: nat, s: State, step: Step): Table
    requires Enabled(limit, s, step)
  {
    match step
    case Save(records) => InsertAll(s.table, records, s.now)
    case ClaimRows(_, token, locked, _) => ClaimIds(s.table, Candidates(s.table, s.now, limit, locked), token, s.now)
    case Mark(w) => MarkPublished(s.table, s.publishers[w].rest[0].id, s.publishers[w].token, s.now)
    case ReleaseRow(w, error) =>
      Release(s.table, s.publishers[w].rest[0].id, s.publishers[w].token, error, s.now)
    case Purge(ids, _) => Delete(s.table, ids)
    case _ => s.table
  }

  lemma ApplyTable(limit: nat, s: State, step: Step)
    requires Enabled(limit, s, step)
    ensures Apply(limit, s, step).table == NextTable(limit, s, step)
  {
  }

  /** What a step can do to one row. */
  lemma RowStep(limit: nat, s: State, step: Step, id: RowId)
    requires Enabled(limit, s, step) && KeysUnique(s.table) && IdsBelowNext(s.table) && id in s.table.rows
    ensures var row, t' := s.table.rows[id], NextTable(limit, s, step);
      || (id in t'.rows && t'.rows[id] == row)
      || (step.Purge? && row.publishedAt.Some? && row.publishedAt.value < s.now - step.age)
      || (step.ClaimRows? && Eligible(row, s.now) && id in t'.rows && t'.rows[id] == ClaimedRow(row, step.token, s.now))
      || ((step.Mark? || step.ReleaseRow?) && row.claimToken == Some(s.publishers[step.w].token) && id in t'.rows
          && t'.rows[id].claimToken.None?)
  {
    if step.ClaimRows? {
      CandidatesEffect(s.table, s.now, limit, step.locked);
    } else if step.Save? {
      InsertAllEffect(s.table, step.records, s.now);
    }
  }

  /** A published row is final; a claim that has not expired is ended only by the publisher that holds it. */
  lemma Fencing(limit: nat, s0: State, steps: seq<Step>, s: State, step: Step, id: RowId)
    requires Init(s0) && Run(limit, s0, steps, s) && Enabled(limit, s, step) && id in s.table.rows
    ensures var row := s.table.rows[id]; var t' := Apply(limit, s, step).table;
      && (row.claimedAt.None? <==> row.claimToken.None?)
      && (row.publishedAt.Some? ==> row.claimToken.None? && (id in t'.rows ==> t'.rows[id] == row))
      && (row.publishedAt.None? ==> id in t'.rows)
      && (row.claimToken.Some? && s.now <= row.claimedAt.value + 300_000_000
          && t'.rows[id].claimToken != row.claimToken ==>
            (step.Mark? || step.ReleaseRow?) && s.publishers[step.w].token == row.claimToken.value)
  {
    RunKeeps(limit, s0, steps, s);
    assert RowInv(s.now, s.table.rows[id], s.history[id]);
    ApplyTable(limit, s, step);
    RowStep(limit, s, step, id);
  }

  /** Nobody claimed the row after the holder of this token did. */
  ghost predicate LastClaimBy(h: History, token: Token) {
    h.claims != [] && h.claims[|h.claims| - 1].token == token
  }

  ghost predicate Live(t: Table, history: map<RowId, History>, x: Ticket) {
    x.id in history && LastClaimBy(history[x.id], x.token) ==> Holds(t, x.id, x.token)
  }

  /** While a publisher still has a row in hand and nobody claimed it since, it holds the row. */
  ghost predicate LiveInv(s: State) {
    forall w, x | 0 <= w < |s.publishers| && s.publishers[w].Working? && x in s.publishers[w].rest ::
      Live(s.table, s.history, x)
  }

  /** Every ticket in hand after a step was there before, unless the step claimed it. */
  lemma TicketOrigin(limit: nat, s: State, step: Step, w: nat, x: Ticket)
    requires Enabled(limit, s, step)
    requires var s' := Apply(limit, s, step); w < |s'.publishers| && s'.publishers[w].Working? && x in s'.publishers[w].rest
    ensures |Apply(limit, s, step).publishers| == |s.publishers|
    ensures (step.ClaimRows? && step.token == x.token && x.id in Candidates(s.table, s.now, limit, step.locked))
      || (s.publishers[w].Working? && x in s.publishers[w].rest && (step.Mark? && step.w == w ==> x in s.publishers[w].rest[1..])
          && (step.ReleaseRow? ==> step.w != w))
  {
  }

  /** What a publisher has in hand carries its token, and a row only once. */
  lemma TicketInHand(s: State, w: nat, x: Ticket)
    requires WorkersInv(s.history, s.used, s.publishers)
    requires w < |s.publishers| && s.publishers[w].Working? && x in s.publishers[w].rest
    ensures x.token == s.publishers[w].token && x.token in s.used && TicketInv(s.history, x)
    ensures forall y | y in s.publishers[w].rest[1..] :: y.id != s.publishers[w].rest[0].id
    ensures forall v | 0 <= v < |s.publishers| && v != w && s.publishers[v].Working? :: s.publishers[v].token != x.token
  {
    var p := s.publishers[w];
    assert HandsInv(s.history, p);
    forall i | 1 <= i < |p.rest| ensures p.rest[i].id != p.rest[0].id {
      assert p.rest[i] != p.rest[0] && TicketInv(s.history, p.rest[i]) && TicketInv(s.history, p.rest[0]);
    }
  }

  /** Claiming under a fresh token ends every earlier last claim. */
  lemma LastClaimStep(limit: nat, s: State, step: Step, x: Ticket)
    requires Enabled(limit, s, step) && x.id in s.history && x.token in s.used
    requires var h := Apply(limit, s, step).history; x.id in h && LastClaimBy(h[x.id], x.token)
    ensures LastClaimBy(s.history[x.id], x.token)
    ensures step.ClaimRows? ==> x.id !in Candidates(s.table, s.now, limit, step.locked)
  {
  }

  /** A mark or release concerns the first row in its publisher's hands only. */
  lemma MarkingOthers(limit: nat, s: State, step: Step, w: nat, x: Ticket)
    requires WorkersInv(s.history, s.used, s.publishers)
    requires Enabled(limit, s, step) && (step.Mark? || step.ReleaseRow?)
    requires w < |s.publishers| && s.publishers[w].Working? && x in s.publishers[w].rest
    requires step.w == w ==> x in s.publishers[w].rest[1..]
    requires Holds(s.table, x.id, x.token)
    ensures Holds(NextTable(limit, s, step), x.id, x.token)
  {
    TicketInHand(s, w, x);
  }

  lemma LiveStep(limit: nat, s: State, step: Step, w: nat, x: Ticket)
    requires Inv(s) && LiveInv(s) && Enabled(limit, s, step)
    requires var s' := Apply(limit, s, step); w < |s'.publishers| && s'.publishers[w].Working? && x in s'.publishers[w].rest
    requires var h := Apply(limit, s, step).history; x.id in h && LastClaimBy(h[x.id], x.token)
    ensures Holds(Apply(limit, s, step).table, x.id, x.token)
  {
    ApplyTable(limit, s, step);
    TicketOrigin(limit, s, step, w, x);
    if s.publishers[w].Working? && x in s.publishers[w].rest {
      TicketInHand(s, w, x);
      LastClaimStep(limit, s, step, x);
      assert Live(s.table, s.history, x);
      assert RowInv(s.now, s.table.rows[x.id], s.history[x.id]);
      if step.Mark? || step.ReleaseRow? {
        MarkingOthers(limit, s, step, w, x);
      } else {
        RowStep(limit, s, step, x.id);
      }
    } else {
      CandidatesEffect(s.table, s.now, limit, step.locked);
    }
  }

  lemma {:induction false} RunLive(limit: nat, s: State, steps: seq<Step>, s': State)
    requires Inv(s) && LiveInv(s) && Run(limit, s, steps, s')
    ensures LiveInv(s')
    decreases |steps|
  {
    if steps != [] {
      var mid := Apply(limit, s, steps[0]);
      forall w, x | 0 <= w < |mid.publishers| && mid.publishers[w].Working? && x in mid.publishers[w].rest
        ensures Live(mid.table, mid.history, x)
      {
        if x.id in mid.history && LastClaimBy(mid.history[x.id], x.token) {
          LiveStep(limit, s, steps[0], w, x);
        }
      }
      StepKeeps(limit, s, steps[0]);
      RunLive(limit, mid, steps[1..], s');
    }
  }

  /** What a mark or release that takes effect does: the row it is about is unclaimed, and by a mark published now. */
  ghost predicate TookEffect(t: Table, t': Table, id: RowId, step: Step, now: Time) {
    && id in t.rows && id in t'.rows && t' == t.(rows := t.rows[id := t'.rows[id]])
    && t.rows[id].claimToken.Some? && t'.rows[id].claimToken.None? && t'.rows[id].claimedAt.None?
    && t'.rows[id].record == t.rows[id].record && t'.rows[id].attempts == t.rows[id].attempts
    && t'.rows[id].publishedAt == (if step.Mark? then Some(now) else None)
    && t'.rows[id].availableAt == (if step.Mark? then t.rows[id].availableAt else now + Backoff(t.rows[id].attempts))
    && match t'.rows[id].lastError
       case None => step.Mark?
       case Some(text) => step.ReleaseRow? && text <= step.error && |text| == if |step.error| < 500 then |step.error| else 500
  }

  lemma MarkOrRelease(limit: nat, s: State, step: Step)
    requires TableInv(s.now, s.table, s.history, s.used) && WorkersInv(s.history, s.used, s.publishers) && LiveInv(s)
    requires (step.Mark? || step.ReleaseRow?) && Enabled(limit, s, step)
    ensures var p, t' := s.publishers[step.w], NextTable(limit, s, step); var id := p.rest[0].id;
      && id in s.history && s.history[id].claims != []
      && if LastClaimBy(s.history[id], p.token) then TookEffect(s.table, t', id, step, s.now) else t' == s.table
  {
    var x := s.publishers[step.w].rest[0];
    TicketInHand(s, step.w, x);
    assert Live(s.table, s.history, x);
    if x.id in s.table.rows {
      assert RowInv(s.now, s.table.rows[x.id], s.history[x.id]);
    }
  }

  /**
   Over every run: once a row was claimed again, the mark or release of the publisher that had it before
   changes nothing; as long as nobody claimed it again, however late, mark and release take effect.
   */
  lemma StaleTokenIsHarmless(limit: nat, s0: State, steps: seq<Step>, s: State, step: Step)
    requires Init(s0) && Run(limit, s0, steps, s)
    requires (step.Mark? || step.ReleaseRow?) && Enabled(limit, s, step)
    ensures var p, t' := s.publishers[step.w], Apply(limit, s, step).table; var id := p.rest[0].id;
      && id in s.history && s.history[id].claims != []
      && if LastClaimBy(s.history[id], p.token) then TookEffect(s.table, t', id, step, s.now) else t' == s.table
  {
    RunKeeps(limit, s0, steps, s);
    RunLive(limit, s0, steps, s);
    MarkOrRelease(limit, s, step);
    ApplyTable(limit, s, step);
  }

  /** When a row was published: over every run, after it was last claimed and not in the future. */
  lemma PublishedBetweenClaimAndNow(limit: nat, s0: State, steps: seq<Step>, s: State, id: RowId)
    requires Init(s0) && Run(limit, s0, steps, s) && id in s.table.rows && s.table.rows[id].publishedAt.Some?
    ensures id in s.history && s.history[id].claims != []
    ensures var c := s.history[id].claims; c[|c| - 1].at <= s.table.rows[id].publishedAt.value <= s.now
  {
    RunKeeps(limit, s0, steps, s);
    assert RowInv(s.now, s.table.rows[id], s.history[id]);
  }

  predicate PurgesFrom(steps: seq<Step>, age: int) {
    steps == [] || ((steps[0].Purge? ==> steps[0].age >= age) && PurgesFrom(steps[1..], age))
  }

  lemma YoungRowStep(limit: nat, s: State, step: Step, id: RowId, age: int)
    requires TableInv(s.now, s.table, s.history, s.used) && Enabled(limit, s, step) && (step.Purge? ==> step.age >= age)
    requires id in s.table.rows && s.table.rows[id].publishedAt.Some? && s.now <= s.table.rows[id].publishedAt.value + age
    ensures var t' := Apply(limit, s, step).table; id in t'.rows && t'.rows[id] == s.table.rows[id]
  {
    assert RowInv(s.now, s.table.rows[id], s.history[id]);
    ApplyTable(limit, s, step);
    RowStep(limit, s, step, id);
  }

  /** A published row stays as it is for as long as purges want it older than it can be. */
  lemma {:induction false} YoungRowStays(limit: nat, s: State, steps: seq<Step>, s': State, id: RowId, age: int)
    requires Inv(s) && Run(limit, s, steps, s') && PurgesFrom(steps, age)
    requires id in s.table.rows && s.table.rows[id].publishedAt.Some? && s'.now <= s.table.rows[id].publishedAt.value + age
    ensures id in s'.table.rows && s'.table.rows[id] == s.table.rows[id]
    decreases |steps|
  {
    if steps != [] {
      var mid := Apply(limit, s, steps[0]);
      RunKeeps(limit, s, steps, s');
      YoungRowStep(limit, s, steps[0], id, age);
      StepKeeps(limit, s, steps[0]);
      YoungRowStays(limit, mid, steps[1..], s', id, age);
    }
  }

  /** Whatever happens after a mark that took effect, retention of that age leaves the row alone until the age is past. */
  lemma MarkedRowIsKept(limit: nat, s0: State, before: seq<Step>, s: State, w: nat, after: seq<Step>, s': State, age: int)
    requires Init(s0) && Run(limit, s0, before, s) && Enabled(limit, s, Mark(w))
    requires Run(limit, Apply(limit, s, Mark(w)), after, s') && PurgesFrom(after, age) && s'.now <= s.now + age
    ensures var p := s.publishers[w]; var id := p.rest[0].id;
      && id in s.history
      && (LastClaimBy(s.history[id], p.token) ==> id in s'.table.rows && s'.table.rows[id].publishedAt == Some(s.now))
  {
    RunKeeps(limit, s0, before, s);
    StaleTokenIsHarmless(limit, s0, before, s, Mark(w));
    var id := s.publishers[w].rest[0].id;
    if LastClaimBy(s.history[id], s.publishers[w].token) {
      StepKeeps(limit, s, Mark(w));
      YoungRowStays(limit, Apply(limit, s, Mark(w)), after, s', id, age);
    }
  }

  function HeldBy(t: Table, token: Token): set<RowId> {
    set id | id in t.rows && t.rows[id].claimToken == Some(token)
  }

  ghost predicate HoldsAtMost(limit: nat, t: Table) {
    forall token :: |HeldBy(t, token)| <= limit
  }

  lemma HeldByStep(limit: nat, s: State, step: Step, token: Token)
    requires Inv(s) && Enabled(limit, s, step) && HoldsAtMost(limit, s.table)
    ensures |HeldBy(NextTable(limit, s, step), token)| <= limit
  {
    var t' := NextTable(limit, s, step);
    var bound := HeldBy(s.table, token);
    if step.ClaimRows? && step.token == token {
      bound := Candidates(s.table, s.now, limit, step.locked);
      CandidatesEffect(s.table, s.now, limit, step.locked);
    }
    forall id | id in HeldBy(t', token) ensures id in bound {
      HeldRowStep(limit, s, step, token, id);
    }
    SubsetSize(HeldBy(t', token), bound);
  }

  lemma HeldRowStep(limit: nat, s: State, step: Step, token: Token, id: RowId)
    requires Inv(s) && Enabled(limit, s, step) && id in HeldBy(NextTable(limit, s, step), token)
    ensures if step.ClaimRows? && step.token == token then id in Candidates(s.table, s.now, limit, step.locked)
      else id in HeldBy(s.table, token)
  {
    if id in s.table.rows {
      assert RowInv(s.now, s.table.rows[id], s.history[id]) && HistoryInv(s.now, s.used, s.history[id]);
      RowStep(limit, s, step, id);
    } else if step.Save? {
      InsertAllEffect(s.table, step.records, s.now);
    }
  }

  lemma {:induction false} RunHoldsAtMost(limit: nat, s: State, steps: seq<Step>, s': State)
    requires Inv(s) && HoldsAtMost(limit, s.table) && Run(limit, s, steps, s')
    ensures HoldsAtMost(limit, s'.table)
    decreases |steps|
  {
    if steps != [] {
      var mid := Apply(limit, s, steps[0]);
      ApplyTable(limit, s, steps[0]);
      forall token ensures |HeldBy(mid.table, token)| <= limit {
        HeldByStep(limit, s, steps[0], token);
      }
      StepKeeps(limit, s, steps[0]);
      RunHoldsAtMost(limit, mid, steps[1..], s');
    }
  }

  /** Over every run: one token never holds more rows than one batch. */
  lemma TokenHoldsAtMostABatch(limit: nat, s0: State, steps: seq<Step>, s: State, token: Token)
    requires Init(s0) && Run(limit, s0, steps, s)
    ensures |HeldBy(s.table, token)| <= limit
  {
    assert forall t :: HeldBy(s0.table, t) == {};
    RunHoldsAtMost(limit, s0, steps, s);
  }

  // ------------------------------------------------------------------ drain

  function Pending(t: Table): set<RowId> {
    set id | id in t.rows && t.rows[id].publishedAt.None?
  }

  /** A call of publish_once without failures, alone on the table: what it claims it publishes. */
  ghost predicate Round(limit: nat, t: Table, now: Time, t': Table) {
    && t'.rows.Keys == t.rows.Keys
    && forall id | id in t.rows ::
         if id in Candidates(t, now, limit, {}) then t'.rows[id].publishedAt.Some? else t'.rows[id] == t.rows[id]
  }

  ghost predicate Rounds(limit: nat, tables: seq<Table>, times: seq<Time>) {
    && |tables| == |times| + 1
    && (forall i | 0 <= i < |times| :: Round(limit, tables[i], times[i], tables[i + 1]))
    && (forall i | 1 <= i < |times| :: times[i - 1] <= times[i])
  }

  lemma RoundsGrow(limit: nat, tables: seq<Table>, times: seq<Time>, next: Table, now: Time)
    requires Rounds(limit, tables, times) && Round(limit, tables[|times|], now, next)
    requires times != [] ==> times[|times| - 1] <= now
    ensures Rounds(limit, tables + [next], times + [now])
  {
    var all, at := tables + [next], times + [now];
    forall i | 0 <= i < |at| ensures Round(limit, all[i], at[i], all[i + 1]) {
      assert i < |times| ==> Round(limit, tables[i], times[i], tables[i + 1]);
    }
  }

  /** What is left of n rows after k rounds of at most `limit`. */
  function Left(n: nat, limit: nat, k: nat): nat {
    if n <= k * limit then 0 else n - k * limit
  }

  lemma LeftStep(n: nat, limit: nat, k: nat)
    ensures Left(n, limit, k + 1) == Left(Left(n, limit, k), limit, 1)
  {
    assert (k + 1) * limit == k * limit + limit;
  }

  ghost predicate AllEligible(t: Table, now: Time) {
    forall id | id in Pending(t) :: Eligible(t.rows[id], now)
  }

  lemma RoundPublishes(limit: nat, t: Table, now: Time, t': Table)
    requires Round(limit, t, now, t') && AllEligible(t, now)
    ensures |Pending(t')| == Left(|Pending(t)|, limit, 1)
    ensures AllEligible(t', now)
  {
    var ids := Candidates(t, now, limit, {});
    CandidatesEffect(t, now, limit, {});
    assert EligibleIds(t, now, {}) == Pending(t);
    assert Pending(t') == Pending(t) - ids;
  }

  lemma {:induction false} RoundsPublish(limit: nat, tables: seq<Table>, times: seq<Time>)
    requires Rounds(limit, tables, times) && (times != [] ==> AllEligible(tables[0], times[0]))
    ensures |Pending(tables[|times|])| == Left(|Pending(tables[0])|, limit, |times|)
    ensures times != [] ==> AllEligible(tables[|times|], times[|times| - 1])
    decreases |times|
  {
    if times != [] {
      var k := |times| - 1;
      assert Round(limit, tables[k], times[k], tables[k + 1]);
      RoundsPublish(limit, tables[..k + 1], times[..k]);
      assert AllEligible(tables[k], times[k]) by {
        assert k > 0 ==> AllEligible(tables[k], times[k - 1]);
      }
      RoundPublishes(limit, tables[k], times[k], tables[k + 1]);
      LeftStep(|Pending(tables[0])|, limit, k);
    }
  }

  lemma QuietTableIsEligible(s: State, now: Time)
    requires Inv(s) && now > s.now + 300_000_000
    ensures AllEligible(s.table, now)
  {
    forall id | id in Pending(s.table) ensures Eligible(s.table.rows[id], now) {
      assert RowInv(s.now, s.table.rows[id], s.history[id]) && HistoryInv(s.now, s.used, s.history[id]);
    }
  }

  /**
   From any reachable state, once the clock is more than a lease past the last step, k calls of
   publish_once leave exactly N - k * limit of the N pending rows: all are gone after ceil(N / limit).
   */
  lemma Drain(limit: nat, s0: State, steps: seq<Step>, s: State, tables: seq<Table>, times: seq<Time>)
    requires Init(s0) && Run(limit, s0, steps, s)
    requires Rounds(limit, tables, times) && tables[0] == s.table
    requires times != [] ==> times[0] > s.now + 300_000_000
    ensures var n := |Pending(s.table)|;
      |Pending(tables[|times|])| == if n <= |times| * limit then 0 else n - |times| * limit
  {
    RunKeeps(limit, s0, steps, s);
    if times != [] {
      QuietTableIsEligible(s, times[0]);
    }
    RoundsPublish(limit, tables, times);
  }

  lemma {:induction false} RoundsKeepRows(limit: nat, tables: seq<Table>, times: seq<Time>)
    requires Rounds(limit, tables, times)
    ensures tables[|times|].rows.Keys == tables[0].rows.Keys
    decreases |times|
  {
    if times != [] {
      var k := |times| - 1;
      assert Round(limit, tables[k], times[k], tables[k + 1]);
      RoundsKeepRows(limit, tables[..k + 1], times[..k]);
    }
  }
}
