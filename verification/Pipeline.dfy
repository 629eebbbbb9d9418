/**
 Consumer and publishers together. The two halves meet in one step only: the database transaction
 that saves a buffer writes its scores and its outbox records at once.
 */
module Pipeline {
  import opened Wrappers
  import opened Events
  import OutboxTable
  import Intake
  import Relay
  import RelayProperties

  datatype World = World(intake: Intake.State, relay: Relay.State)

  datatype Step =
    | Consumer(source: Intake.Step)
    | Publisher(outbox: Relay.Step)
    | SaveBatch

  function Records(buffer: seq<Intake.Entry>): seq<Record> {
    seq(|buffer|, i requires 0 <= i < |buffer| =>
      RecordOf(buffer[i].partition, buffer[i].offset, buffer[i].item))
  }

  ghost predicate Enabled(c: Intake.Config, limit: nat, w: World, step: Step)
    requires Intake.Sized(c, w.intake)
  {
    match step
    case Consumer(source) => !source.SaveBuffer? && Intake.Enabled(c, w.intake, source)
    case Publisher(outbox) => !outbox.Save? && Relay.Enabled(limit, w.relay, outbox)
    case SaveBatch => Intake.Enabled(c, w.intake, Intake.SaveBuffer(w.relay.now))
  }

  ghost function Apply(c: Intake.Config, limit: nat, w: World, step: Step): World
    requires Intake.Sized(c, w.intake) && Enabled(c, limit, w, step)
  {
    match step
    case Consumer(source) => w.(intake := Intake.Apply(c, w.intake, source))
    case Publisher(outbox) => w.(relay := Relay.Apply(limit, w.relay, outbox))
    case SaveBatch => World(Intake.AfterSave(w.intake, w.relay.now), Relay.AfterSave(w.relay, Records(w.intake.buffer)))
  }

  ghost predicate Init(c: Intake.Config, w: World) {
    Intake.Init(c, w.intake) && Relay.Init(w.relay)
  }

  ghost predicate Run(c: Intake.Config, limit: nat, w: World, steps: seq<Step>, w': World)
    requires Intake.Sized(c, w.intake)
    decreases |steps|
  {
    if steps == [] then w' == w
    else
      && Enabled(c, limit, w, steps[0])
      && Intake.Sized(c, Apply(c, limit, w, steps[0]).intake)
      && Run(c, limit, Apply(c, limit, w, steps[0]), steps[1..], w')
  }

  // --------------------------------------------------------------- invariant

  /** The record of a row stems from a source message. */
  ghost predicate Sourced(c: Intake.Config, record: Record) {
    exists p: nat, o: nat, item: Item ::
      p < |c.logs| && o < |c.logs[p]| && Intake.ItemFor(c, c.logs[p][o], item) && record == RecordOf(p, o, item)
  }

  /** A row was once inserted under the key of this source message. */
  ghost predicate Recorded(c: Intake.Config, history: map<nat, Relay.History>, p: nat, o: nat)
    requires p < |c.logs| && o < |c.logs[p]|
  {
    exists id, item: Item ::
      id in history && Intake.ItemFor(c, c.logs[p][o], item) && history[id].record.dedupeKey == RecordOf(p, o, item).dedupeKey
  }

  ghost predicate RecordsInv(c: Intake.Config, intake: Intake.State, history: map<nat, Relay.History>)
    requires Intake.Sized(c, intake)
  {
    && (forall id | id in history :: Sourced(c, history[id].record))
    && (forall p: nat, o: nat | p < |c.logs| && o < |c.logs[p]| && o < Intake.Bound(intake)[p] :: Recorded(c, history, p, o))
  }

  ghost predicate Inv(c: Intake.Config, w: World) {
    && Intake.WindowInv(c, w.intake)
    && Relay.Inv(w.relay)
    && RecordsInv(c, w.intake, w.relay.history)
  }

  lemma HistoryKeepsRecorded(c: Intake.Config, h: map<nat, Relay.History>, h': map<nat, Relay.History>, p: nat, o: nat)
    requires Relay.HistoryGrows(h, h') && p < |c.logs| && o < |c.logs[p]| && Recorded(c, h, p, o)
    ensures Recorded(c, h', p, o)
  {
    var id, item: Item :| id in h && Intake.ItemFor(c, c.logs[p][o], item) && h[id].record.dedupeKey == RecordOf(p, o, item).dedupeKey;
    assert id in h' && h'[id].record.dedupeKey == RecordOf(p, o, item).dedupeKey;
  }

  lemma SavedRecordIsRecorded(c: Intake.Config, w: World, p: nat, o: nat)
    requires Inv(c, w) && Intake.Buffered(w.intake.buffer, p, o)
    ensures p < |c.logs| && o < |c.logs[p]|
    ensures Recorded(c, Relay.AfterSave(w.relay, Records(w.intake.buffer)).history, p, o)
  {
    var records := Records(w.intake.buffer);
    var relay' := Relay.AfterSave(w.relay, records);
    var i :| 0 <= i < |w.intake.buffer| && w.intake.buffer[i].partition == p && w.intake.buffer[i].offset == o;
    assert Intake.EntryInv(c, w.intake.base, w.intake.next, w.intake.buffer[i]);
    OutboxTable.InsertAllEffect(w.relay.table, records, w.relay.now);
    assert records[i] in records;
    var id :| id in relay'.table.rows && relay'.table.rows[id].record.dedupeKey == records[i].dedupeKey;
    Relay.SaveKeeps(w.relay, records);
    assert Relay.RowInv(relay'.now, relay'.table.rows[id], relay'.history[id]);
    assert id in relay'.history && relay'.history[id].record.dedupeKey == RecordOf(p, o, w.intake.buffer[i].item).dedupeKey;
  }

  lemma SavedRowIsSourced(c: Intake.Config, w: World, id: nat)
    requires Inv(c, w)
    requires var h := Relay.AfterSave(w.relay, Records(w.intake.buffer)).history; id in h
    ensures Sourced(c, Relay.AfterSave(w.relay, Records(w.intake.buffer)).history[id].record)
  {
    var records := Records(w.intake.buffer);
    var rows := OutboxTable.InsertAll(w.relay.table, records, w.relay.now).rows;
    if id !in w.relay.history {
      Relay.SavedRow(w.relay, records, id);
      SavedRecordIsSourced(c, w.intake, rows[id].record);
    }
  }

  lemma SavedRecordIsSourced(c: Intake.Config, intake: Intake.State, record: Record)
    requires Intake.WindowInv(c, intake) && record in Records(intake.buffer)
    ensures Sourced(c, record)
  {
    var i :| 0 <= i < |intake.buffer| && Records(intake.buffer)[i] == record;
    var e := intake.buffer[i];
    assert Intake.EntryInv(c, intake.base, intake.next, e);
    assert record == RecordOf(e.partition, e.offset, e.item);
  }

  lemma SaveKeepsRecords(c: Intake.Config, w: World)
    requires Inv(c, w) && (w.intake.phase == Intake.Polling || w.intake.phase == Intake.Closing)
    ensures RecordsInv(c, Intake.AfterSave(w.intake, w.relay.now), Relay.AfterSave(w.relay, Records(w.intake.buffer)).history)
  {
    var h := Relay.AfterSave(w.relay, Records(w.intake.buffer)).history;
    Relay.SaveKeeps(w.relay, Records(w.intake.buffer));
    forall id | id in h ensures Sourced(c, h[id].record) {
      SavedRowIsSourced(c, w, id);
    }
    forall p: nat, o: nat | p < |c.logs| && o < |c.logs[p]| && o < w.intake.next[p] ensures Recorded(c, h, p, o) {
      assert Intake.OffsetInv(c, w.intake, p);
      if o < w.intake.base[p] {
        HistoryKeepsRecorded(c, w.relay.history, h, p, o);
      } else {
        SavedRecordIsRecorded(c, w, p, o);
      }
    }
  }

  lemma RecordsWeaken(c: Intake.Config, s: Intake.State, h: map<nat, Relay.History>, s': Intake.State, h': map<nat, Relay.History>)
    requires Intake.Sized(c, s) && Intake.Sized(c, s') && RecordsInv(c, s, h)
    requires Relay.HistoryGrows(h, h') && h'.Keys == h.Keys
    requires forall p: nat | p < |c.logs| :: Intake.Bound(s')[p] <= Intake.Bound(s)[p]
    ensures RecordsInv(c, s', h')
  {
    forall id | id in h' ensures Sourced(c, h'[id].record) {
      assert id in h && h'[id].record == h[id].record;
    }
    forall p: nat, o: nat | p < |c.logs| && o < |c.logs[p]| && o < Intake.Bound(s')[p] ensures Recorded(c, h', p, o) {
      HistoryKeepsRecorded(c, h, h', p, o);
    }
  }

  lemma ConsumerStep(c: Intake.Config, s: Intake.State, step: Intake.Step, p: nat)
    requires Intake.WindowInv(c, s) && Intake.Enabled(c, s, step) && !step.SaveBuffer? && p < |c.logs|
    ensures Intake.Sized(c, Intake.Apply(c, s, step))
    ensures Intake.Bound(Intake.Apply(c, s, step))[p] <= Intake.Bound(s)[p]
  {
    Intake.WindowStep(c, s, step);
    assert Intake.OffsetInv(c, s, p);
  }

  lemma PublisherStep(limit: nat, s: Relay.State, step: Relay.Step)
    requires Relay.Inv(s) && Relay.Enabled(limit, s, step) && !step.Save?
    ensures Relay.Apply(limit, s, step).history.Keys == s.history.Keys
  {
  }

  lemma StepKeeps(c: Intake.Config, limit: nat, w: World, step: Step)
    requires Inv(c, w) && Enabled(c, limit, w, step)
    ensures Inv(c, Apply(c, limit, w, step))
  {
    match step
    case Consumer(source) =>
      Intake.WindowStep(c, w.intake, source);
      var s' := Intake.Apply(c, w.intake, source);
      forall p: nat | p < |c.logs| ensures Intake.Bound(s')[p] <= Intake.Bound(w.intake)[p] {
        ConsumerStep(c, w.intake, source, p);
      }
      RecordsWeaken(c, w.intake, w.relay.history, s', w.relay.history);
    case Publisher(outbox) =>
      Relay.StepKeeps(limit, w.relay, outbox);
      PublisherStep(limit, w.relay, outbox);
      RecordsWeaken(c, w.intake, w.relay.history, w.intake, Relay.Apply(limit, w.relay, outbox).history);
    case SaveBatch =>
      Intake.WindowStep(c, w.intake, Intake.SaveBuffer(w.relay.now));
      Relay.SaveKeeps(w.relay, Records(w.intake.buffer));
      SaveKeepsRecords(c, w);
  }

  lemma {:induction false} RunKeeps(c: Intake.Config, limit: nat, w: World, steps: seq<Step>, w': World)
    requires Inv(c, w) && Run(c, limit, w, steps, w')
    ensures Inv(c, w')
    decreases |steps|
  {
    if steps != [] {
      StepKeeps(c, limit, w, steps[0]);
      RunKeeps(c, limit, Apply(c, limit, w, steps[0]), steps[1..], w');
    }
  }

  lemma InitInv(c: Intake.Config, w: World)
    requires Init(c, w)
    ensures Inv(c, w)
  {
    Relay.InitInv(w.relay);
    Intake.InitInv(c, w.intake);
  }

  // ------------------------------------------------------------------ no loss

  /** The record has the dedupe key under which the consumer may store this source message. */
  ghost predicate HasKeyOf(c: Intake.Config, record: Record, p: nat, o: nat)
    requires p < |c.logs| && o < |c.logs[p]|
  {
    exists item: Item :: Intake.ItemFor(c, c.logs[p][o], item) && record.dedupeKey == RecordOf(p, o, item).dedupeKey
  }

  /** Still to be published, or in the broker's log already. */
  ghost predicate Safe(relay: Relay.State, id: nat) {
    && id in relay.history
    && ( || (id in relay.table.rows && relay.table.rows[id].publishedAt.None?
            && relay.table.rows[id].record == relay.history[id].record)
         || Copied(relay, id))
  }

  ghost predicate Copied(relay: Relay.State, id: nat) {
    id in relay.history && exists t :: t in relay.broker && t.id == id && t.record == relay.history[id].record
  }

  lemma EveryRowIsSafe(relay: Relay.State, id: nat)
    requires Relay.Inv(relay) && id in relay.history
    ensures Safe(relay, id)
  {
    if id in relay.table.rows && relay.table.rows[id].publishedAt.None? {
      assert Relay.RowInv(relay.now, relay.table.rows[id], relay.history[id]);
    } else {
      assert Relay.Delivered(relay.broker, id);
      var t :| t in relay.broker && t.id == id;
      assert Relay.TicketInv(relay.history, t);
    }
  }

  /**
   No loss, over every run of the whole pipeline and for any model versions: the dedupe key of every
   source message below the committed offset belongs to a record that is pending in the outbox or in
   the broker's log, and that record was made from a source message. Crashes, failed and repeated
   flushes, lapsed leases and retention do not change that.
   */
  lemma NoLoss(c: Intake.Config, limit: nat, w0: World, steps: seq<Step>, w: World, p: nat, o: nat)
    requires Init(c, w0) && Run(c, limit, w0, steps, w)
    requires Intake.Sized(c, w.intake) && p < |c.logs| && o < w.intake.committed[p]
    ensures o < |c.logs[p]|
    ensures exists id ::
      Safe(w.relay, id) && HasKeyOf(c, w.relay.history[id].record, p, o) && Sourced(c, w.relay.history[id].record)
  {
    InitInv(c, w0);
    RunKeeps(c, limit, w0, steps, w);
    assert Intake.OffsetInv(c, w.intake, p);
    assert Recorded(c, w.relay.history, p, o);
    var id, item: Item :| id in w.relay.history && Intake.ItemFor(c, c.logs[p][o], item)
      && w.relay.history[id].record.dedupeKey == RecordOf(p, o, item).dedupeKey;
    EveryRowIsSafe(w.relay, id);
  }

  /** Nothing is made up: over every run each record in the broker's log was made from a source message. */
  lemma EveryCopyIsSourced(c: Intake.Config, limit: nat, w0: World, steps: seq<Step>, w: World, copy: Relay.Ticket)
    requires Init(c, w0) && Run(c, limit, w0, steps, w) && copy in w.relay.broker
    ensures Sourced(c, copy.record)
  {
    InitInv(c, w0);
    RunKeeps(c, limit, w0, steps, w);
    assert Relay.TicketInv(w.relay.history, copy);
  }

  /** Where a record goes: scores and rejections each to their topic, under the transaction's id when it is known. */
  ghost predicate Routed(record: Record) {
    match record.payload
    case ScoredItem(event, _) => record.topic == "txns.scored" && record.messageKey == event.transactionId
    case RejectedItem(summary) =>
      && record.topic == "txns.rejected"
      && (summary.transactionId.Some? ==> record.messageKey == summary.transactionId.value)
      && (summary.transactionId.None? ==> exists p: nat, o: nat ::
            && record.dedupeKey == "rejected:txns.raw:" + Decimal(p) + ":" + Decimal(o)
            && record.messageKey == "rejected-" + Decimal(p) + "-" + Decimal(o))
  }

  lemma RecordsAreRouted(p: nat, o: nat, item: Item)
    ensures Routed(RecordOf(p, o, item))
  {
    if item.RejectedItem? && item.summary.transactionId.None? {
      var key := "rejected:" + RAW_TOPIC + ":" + Decimal(p) + ":" + Decimal(o);
      assert RecordOf(p, o, item).dedupeKey == key;
      assert "rejected:" + RAW_TOPIC + ":" == "rejected:txns.raw:";
      assert key == "rejected:txns.raw:" + Decimal(p) + ":" + Decimal(o);
    }
  }

  /** Over every run each record in the broker's log is in the topic of its kind under the key it should have. */
  lemma EveryCopyIsRouted(c: Intake.Config, limit: nat, w0: World, steps: seq<Step>, w: World, copy: Relay.Ticket)
    requires Init(c, w0) && Run(c, limit, w0, steps, w) && copy in w.relay.broker
    ensures Routed(copy.record)
  {
    EveryCopyIsSourced(c, limit, w0, steps, w, copy);
    var p: nat, o: nat, item: Item :| p < |c.logs| && o < |c.logs[p]|
      && Intake.ItemFor(c, c.logs[p][o], item) && copy.record == RecordOf(p, o, item);
    RecordsAreRouted(p, o, item);
  }

  /** Nothing is pending once every row is published. */
  lemma NothingPendingIsCopied(relay: Relay.State, id: nat)
    requires Relay.Inv(relay) && RelayProperties.Pending(relay.table) == {} && id in relay.history
    ensures Copied(relay, id)
  {
    EveryRowIsSafe(relay, id);
    assert id !in RelayProperties.Pending(relay.table);
  }

  /**
   End to end: however the outbox is emptied after a run of the pipeline, every source message committed
   in that run then has a record under its key in the broker's log.
   */
  lemma CommittedIsDelivered(c: Intake.Config, limit: nat, w0: World, steps: seq<Step>, w: World,
                             outboxes: seq<Relay.Step>, relay: Relay.State, p: nat, o: nat)
    requires Init(c, w0) && Run(c, limit, w0, steps, w)
    requires Intake.Sized(c, w.intake) && p < |c.logs| && o < w.intake.committed[p]
    requires Relay.Run(limit, w.relay, outboxes, relay) && RelayProperties.Pending(relay.table) == {}
    ensures o < |c.logs[p]|
    ensures exists id :: Copied(relay, id) && HasKeyOf(c, relay.history[id].record, p, o)
  {
    NoLoss(c, limit, w0, steps, w, p, o);
    var id :| Safe(w.relay, id) && HasKeyOf(c, w.relay.history[id].record, p, o);
    InitInv(c, w0);
    RunKeeps(c, limit, w0, steps, w);
    Relay.RunKeeps(limit, w.relay, outboxes, relay);
    NothingPendingIsCopied(relay, id);
  }

  // ------------------------------------------------------ whose record it is

  /** The item may come of the message at (p, o). */
  ghost predicate MayBe(c: Intake.Config, p: nat, o: nat, item: Item) {
    p < |c.logs| && o < |c.logs[p]| && Intake.ItemFor(c, c.logs[p][o], item)
  }

  /** One scored key read two ways: the longer version takes a colon and more from the end of the other id. */
  predicate Shifted(a: Item, b: Item) {
    && a.ScoredItem? && b.ScoredItem? && Extends(a.score.modelVersion, b.score.modelVersion)
    && b.event.transactionId == a.event.transactionId + ":" + Prefix(a.score.modelVersion, b.score.modelVersion)
  }

  ghost predicate KeysApart(c: Intake.Config) {
    forall p: nat, o: nat, a: Item, p': nat, o': nat, b: Item :: MayBe(c, p, o, a) && MayBe(c, p', o', b) ==> !Shifted(a, b)
  }

  lemma ColonFreeVersionsKeepKeysApart(c: Intake.Config)
    requires forall e, sc :: c.may(e, sc) ==> ColonFree(sc.modelVersion)
    ensures KeysApart(c)
  {
    forall p: nat, o: nat, a: Item, p': nat, o': nat, b: Item | MayBe(c, p, o, a) && MayBe(c, p', o', b)
      ensures !Shifted(a, b)
    {
      if a.ScoredItem? && b.ScoredItem? {
        ExtendedHasColon(a.score.modelVersion, b.score.modelVersion);
      }
    }
  }

  /**
   For a valid message: a record of the same transaction, scored by a permitted model version, under the
   key of that version; its payload may be another event of the transaction. For a malformed one: its own.
   */
  ghost predicate SameTransaction(c: Intake.Config, record: Record, p: nat, o: nat)
    requires p < |c.logs| && o < |c.logs[p]|
  {
    match c.logs[p][o]
    case Valid(event) =>
      && record.topic == SCORED_TOPIC && record.messageKey == event.transactionId
      && record.payload.ScoredItem? && record.payload.event.transactionId == event.transactionId
      && record.dedupeKey == ScoredKey(event.transactionId, record.payload.score.modelVersion)
      && exists score :: c.may(event, score) && score.modelVersion == record.payload.score.modelVersion
    case Malformed(summary) => record == RecordOf(p, o, RejectedItem(summary))
  }

  /** A record with the key of a message is of the same transaction, when keys are apart; a rejection's always is its own. */
  lemma SharedKeyIsSameTransaction(c: Intake.Config, record: Record, p: nat, o: nat)
    requires p < |c.logs| && o < |c.logs[p]| && (c.logs[p][o].Valid? ==> KeysApart(c))
    requires Sourced(c, record) && HasKeyOf(c, record, p, o)
    ensures SameTransaction(c, record, p, o)
  {
    var a: Item :| Intake.ItemFor(c, c.logs[p][o], a) && record.dedupeKey == RecordOf(p, o, a).dedupeKey;
    var p': nat, o': nat, b: Item :|
      p' < |c.logs| && o' < |c.logs[p']| && Intake.ItemFor(c, c.logs[p'][o'], b) && record == RecordOf(p', o', b);
    assert MayBe(c, p, o, a) && MayBe(c, p', o', b);
    match (a, b)
    case (ScoredItem(e, sc), ScoredItem(e', sc')) =>
      ScoredKeysEqualIff(e.transactionId, sc.modelVersion, e'.transactionId, sc'.modelVersion);
      assert !Shifted(a, b) && !Shifted(b, a);
    case (RejectedItem(_), RejectedItem(_)) =>
      RejectedKeyInjective(p, o, p', o');
    case (ScoredItem(e, sc), RejectedItem(_)) =>
      KeyFamiliesDisjoint(e.transactionId, sc.modelVersion, p', o');
    case (RejectedItem(_), ScoredItem(e', sc')) =>
      KeyFamiliesDisjoint(e'.transactionId, sc'.modelVersion, p, o);
  }

  ghost predicate KeysIdentify(c: Intake.Config) {
    forall record, p: nat, o: nat | p < |c.logs| && o < |c.logs[p]| && Sourced(c, record) && HasKeyOf(c, record, p, o) ::
      SameTransaction(c, record, p, o)
  }

  /** The dedupe key tells transactions apart exactly when no id and version of the source can be read two ways. */
  lemma KeysIdentifyIff(c: Intake.Config)
    ensures KeysIdentify(c) <==> KeysApart(c)
  {
    if KeysApart(c) {
      forall record, p: nat, o: nat | p < |c.logs| && o < |c.logs[p]| && Sourced(c, record) && HasKeyOf(c, record, p, o)
        ensures SameTransaction(c, record, p, o)
      {
        SharedKeyIsSameTransaction(c, record, p, o);
      }
    }
    if !KeysApart(c) {
      var p: nat, o: nat, a: Item, p': nat, o': nat, b: Item :| MayBe(c, p, o, a) && MayBe(c, p', o', b) && Shifted(a, b);
      ShiftedItemsMislead(c, p, o, a, p', o', b);
    }
  }

  /** The record of one message then has the key of another transaction's. */
  lemma ShiftedItemsMislead(c: Intake.Config, p: nat, o: nat, a: Item, p': nat, o': nat, b: Item)
    requires MayBe(c, p, o, a) && MayBe(c, p', o', b) && Shifted(a, b)
    ensures var record := RecordOf(p, o, a);
      Sourced(c, record) && HasKeyOf(c, record, p', o') && !SameTransaction(c, record, p', o')
  {
    ShiftedKey(a.event.transactionId, a.score.modelVersion, b.score.modelVersion);
    assert RecordOf(p, o, a).dedupeKey == RecordOf(p', o', b).dedupeKey;
    assert |a.event.transactionId| < |b.event.transactionId|;
  }

  /** No other source message makes another record under a key of this one. */
  ghost predicate KeyIsItsOwn(c: Intake.Config, p: nat, o: nat) {
    forall a: Item, p': nat, o': nat, b: Item | MayBe(c, p, o, a) && MayBe(c, p', o', b)
      && RecordOf(p', o', b).dedupeKey == RecordOf(p, o, a).dedupeKey :: RecordOf(p', o', b) == RecordOf(p, o, a)
  }

  ghost predicate IsOwnRecord(c: Intake.Config, record: Record, p: nat, o: nat) {
    exists item: Item :: MayBe(c, p, o, item) && record == RecordOf(p, o, item)
  }

  lemma OwnKeyIsOwnRecord(c: Intake.Config, record: Record, p: nat, o: nat)
    requires p < |c.logs| && o < |c.logs[p]| && KeyIsItsOwn(c, p, o)
    requires Sourced(c, record) && HasKeyOf(c, record, p, o)
    ensures IsOwnRecord(c, record, p, o)
  {
    var a: Item :| Intake.ItemFor(c, c.logs[p][o], a) && record.dedupeKey == RecordOf(p, o, a).dedupeKey;
    var p': nat, o': nat, b: Item :|
      p' < |c.logs| && o' < |c.logs[p']| && Intake.ItemFor(c, c.logs[p'][o'], b) && record == RecordOf(p', o', b);
    assert MayBe(c, p, o, a) && MayBe(c, p', o', b);
  }

  /** A rejection shares its key with no other message, whatever the versions. */
  lemma RejectionKeyIsItsOwn(c: Intake.Config, p: nat, o: nat)
    requires p < |c.logs| && o < |c.logs[p]| && c.logs[p][o].Malformed?
    ensures KeyIsItsOwn(c, p, o)
  {
    forall a: Item, p': nat, o': nat, b: Item | MayBe(c, p, o, a) && MayBe(c, p', o', b)
      && RecordOf(p', o', b).dedupeKey == RecordOf(p, o, a).dedupeKey
      ensures RecordOf(p', o', b) == RecordOf(p, o, a)
    {
      match b
      case ScoredItem(e, sc) => KeyFamiliesDisjoint(e.transactionId, sc.modelVersion, p, o);
      case RejectedItem(_) => RejectedKeyInjective(p, o, p', o');
    }
  }

  /**
   What the safe record of a committed message holds: a record of the same transaction when keys are
   apart, and the message's own content when no other message shares its key.
   */
  lemma NoLossOfContent(c: Intake.Config, limit: nat, w0: World, steps: seq<Step>, w: World, p: nat, o: nat)
    requires Init(c, w0) && Run(c, limit, w0, steps, w)
    requires Intake.Sized(c, w.intake) && p < |c.logs| && o < w.intake.committed[p]
    ensures o < |c.logs[p]|
    ensures KeysApart(c) ==> exists id :: Safe(w.relay, id) && SameTransaction(c, w.relay.history[id].record, p, o)
    ensures KeyIsItsOwn(c, p, o) ==> exists id :: Safe(w.relay, id) && IsOwnRecord(c, w.relay.history[id].record, p, o)
  {
    NoLoss(c, limit, w0, steps, w, p, o);
    var id :| Safe(w.relay, id) && HasKeyOf(c, w.relay.history[id].record, p, o) && Sourced(c, w.relay.history[id].record);
    if KeysApart(c) {
      SharedKeyIsSameTransaction(c, w.relay.history[id].record, p, o);
    }
    if KeyIsItsOwn(c, p, o) {
      OwnKeyIsOwnRecord(c, w.relay.history[id].record, p, o);
    }
  }

  // --------------------------------------------------------- composed runs

  /** A run of the pipeline is a run of each half, so what holds of either half's runs holds here. */
  lemma {:induction false} RunProjects(c: Intake.Config, limit: nat, w: World, steps: seq<Step>, w': World)
    returns (sources: seq<Intake.Step>, outboxes: seq<Relay.Step>)
    requires Intake.Sized(c, w.intake) && Run(c, limit, w, steps, w')
    ensures Intake.Run(c, w.intake, sources, w'.intake)
    ensures Relay.Run(limit, w.relay, outboxes, w'.relay)
    decreases |steps|
  {
    if steps == [] {
      sources, outboxes := [], [];
    } else {
      var mid := Apply(c, limit, w, steps[0]);
      sources, outboxes := RunProjects(c, limit, mid, steps[1..], w');
      match steps[0]
      case Consumer(source) =>
        sources := [source] + sources;
      case Publisher(outbox) =>
        outboxes := [outbox] + outboxes;
      case SaveBatch =>
        sources := [Intake.SaveBuffer(w.relay.now)] + sources;
        outboxes := [Relay.Save(Records(w.intake.buffer))] + outboxes;
    }
  }

  lemma {:induction false} RunAppend(c: Intake.Config, limit: nat, w: World, steps: seq<Step>, mid: World, step: Step)
    requires Intake.Sized(c, w.intake) && Intake.Sized(c, mid.intake)
    requires Run(c, limit, w, steps, mid) && Enabled(c, limit, mid, step)
    requires Intake.Sized(c, Apply(c, limit, mid, step).intake)
    ensures Run(c, limit, w, steps + [step], Apply(c, limit, mid, step))
    decreases |steps|
  {
    var all := steps + [step];
    if steps == [] {
      assert all[1..] == [];
    } else {
      RunAppend(c, limit, Apply(c, limit, w, steps[0]), steps[1..], mid, step);
      assert all[0] == steps[0] && all[1..] == steps[1..] + [step];
    }
  }

  /** Some run leads from one world to the other. */
  ghost predicate Reaches(c: Intake.Config, limit: nat, w: World, w': World)
    requires Intake.Sized(c, w.intake)
  {
    exists steps :: Run(c, limit, w, steps, w')
  }

  /** A world reached from the start keeps the invariant, and so does one step more. */
  lemma ReachesInv(c: Intake.Config, limit: nat, w0: World, w: World)
    requires Init(c, w0) && Reaches(c, limit, w0, w)
    ensures Inv(c, w)
  {
    var steps :| Run(c, limit, w0, steps, w);
    InitInv(c, w0);
    RunKeeps(c, limit, w0, steps, w);
  }

  lemma ReachesStep(c: Intake.Config, limit: nat, w0: World, w: World, step: Step)
    requires Init(c, w0) && Reaches(c, limit, w0, w)
    requires Intake.Sized(c, w.intake) && Enabled(c, limit, w, step)
    ensures Intake.Sized(c, Apply(c, limit, w, step).intake) && Reaches(c, limit, w0, Apply(c, limit, w, step))
  {
    ReachesInv(c, limit, w0, w);
    StepKeeps(c, limit, w, step);
    var steps :| Run(c, limit, w0, steps, w);
    RunAppend(c, limit, w0, steps, w, step);
  }

  // ---------------------------------------------- one save, table and outbox

  /**
   What a save leaves of the last occurrence of a transaction in the buffer: the scored table always has
   its event, and the outbox has its record exactly when the first holder of its key, an older row or the
   first buffered record with that key, is the same record.
   */
  lemma LastOccurrenceIsPublishedIff(t: OutboxTable.Table, scored: map<string, Intake.ScoredRow>,
                                     buffer: seq<Intake.Entry>, now: int, id: string)
    requires OutboxTable.KeysUnique(t) && OutboxTable.IdsBelowNext(t) && Intake.LastOf(buffer, id) >= 0
    ensures var j, records := Intake.LastOf(buffer, id), Records(buffer);
      var key, scored' := records[j].dedupeKey, Intake.UpsertAll(scored, buffer, now);
      && id in scored' && scored'[id].event == buffer[j].item.event && scored'[id].score == buffer[j].item.score
      && (OutboxTable.Keeps(OutboxTable.InsertAll(t, records, now), records[j]) <==>
            if OutboxTable.HasKey(t, key) then OutboxTable.Keeps(t, records[j])
            else records[OutboxTable.FirstWith(records, key)] == records[j])
  {
    Intake.UpsertAllEffect(scored, buffer, now, id);
    OutboxTable.OwnRecordIsKeptIff(t, Records(buffer), now, Intake.LastOf(buffer, id));
  }

  /** Two entries of a buffer that score one transaction by one model version. */
  predicate Resent(buffer: seq<Intake.Entry>, i: nat, j: nat, id: string) {
    && i < j < |buffer|
    && Intake.IsScored(buffer[i].item, id) && Intake.IsScored(buffer[j].item, id)
    && buffer[i].item.score.modelVersion == buffer[j].item.score.modelVersion
  }

  /**
   A transaction sent again under the same model version with other content is not published again,
   whatever else is in the batch: the table takes the later event, the outbox keeps the earlier one.
   */
  lemma ResentEventIsNotRepublished(t: OutboxTable.Table, scored: map<string, Intake.ScoredRow>,
                                    buffer: seq<Intake.Entry>, now: int, i: nat, j: nat, id: string)
    requires OutboxTable.KeysUnique(t) && OutboxTable.IdsBelowNext(t)
    requires Resent(buffer, i, j, id) && buffer[i].item != buffer[j].item && j == Intake.LastOf(buffer, id)
    requires !OutboxTable.HasKey(t, Records(buffer)[i].dedupeKey)
    requires i == OutboxTable.FirstWith(Records(buffer), Records(buffer)[i].dedupeKey)
    ensures var u, scored' := OutboxTable.InsertAll(t, Records(buffer), now), Intake.UpsertAll(scored, buffer, now);
      && id in scored' && scored'[id].event == buffer[j].item.event
      && OutboxTable.Keeps(u, Records(buffer)[i]) && !OutboxTable.Keeps(u, Records(buffer)[j])
  {
    LastOccurrenceIsPublishedIff(t, scored, buffer, now, id);
    OutboxTable.OwnRecordIsKeptIff(t, Records(buffer), now, i);
  }
}
