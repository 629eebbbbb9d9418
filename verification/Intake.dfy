/**
 The consuming half of the pipeline as a transition system: source partitions, the group's committed
 offsets, the one active consumer with its volatile buffer, and the scored_transactions table.
 A flush saves the buffer in one database transaction and only then commits offsets, partition by
 partition. The transaction or the commit may raise, and the buffer is then flushed once more while the
 consumer shuts down; a commit that is merely refused for some partitions goes unnoticed.
 */
module Intake {
  import opened Wrappers
  import opened Events
  import opened OutboxTable

  /** `explanation` is written by the dashboard; it survives an upsert only under the same model version. */
  datatype ScoredRow = ScoredRow(event: Event, score: Score, processedAt: Time, explanation: Option<string>)

  datatype Entry = Entry(partition: nat, offset: nat, item: Item)

  /** Saved: the buffer as it stands is in the database. Closing: the final flush of a consumer going down. */
  datatype Phase = Polling | Saved(closing: bool) | Closing | Down

  /**
   `logs` is everything ever written to the source partitions; `may` relates an event to the scores
   the scoring service may return for it; `batch` is the write batch size.
   */
  datatype Config = Config(logs: seq<seq<Message>>, may: (Event, Score) -> bool, batch: nat)

  /**
   Per partition: the buffer covers the offsets from `base` up to but excluding `next`; `position` is
   the fetch position. `savedUpTo` records how far offsets were ever saved, `behind` the partitions of
   which a flush passed over a refused commit that no commit has made up for since, `purged` which
   transactions retention removed from the scored table.
   */
  datatype State = State(
    phase: Phase,
    buffer: seq<Entry>,
    base: seq<nat>,
    next: seq<nat>,
    position: seq<nat>,
    committed: seq<nat>,
    savedUpTo: seq<nat>,
    behind: set<nat>,
    scored: map<string, ScoredRow>,
    purged: set<string>)

  datatype Step =
    | Poll(partition: nat, item: Item)
    | ScoringFails(partition: nat)
    | Fail
    | SaveBuffer(now: Time)
    | CommitOffset(partition: nat)
    | Flushed
    | Stop
    | Start
    | PurgeScored(ids: set<string>, age: int, now: Time)
    | Explain(id: string, text: string)

  // -------------------------------------------------------- the score upsert

  function Upsert(scored: map<string, ScoredRow>, item: Item, now: Time): map<string, ScoredRow> {
    match item
    case RejectedItem(_) => scored
    case ScoredItem(event, score) =>
      var id := event.transactionId;
      var kept := if id in scored && scored[id].score.modelVersion == score.modelVersion
                  then scored[id].explanation else None;
      scored[id := ScoredRow(event, score, now, kept)]
  }

  function UpsertAll(scored: map<string, ScoredRow>, buffer: seq<Entry>, now: Time): map<string, ScoredRow> {
    if buffer == [] then scored
    else Upsert(UpsertAll(scored, buffer[..|buffer| - 1], now), buffer[|buffer| - 1].item, now)
  }

  predicate IsScored(item: Item, id: string) {
    item.ScoredItem? && item.event.transactionId == id
  }

  /** The index of the last occurrence of a transaction in a batch, or -1. */
  function LastOf(buffer: seq<Entry>, id: string): (i: int)
    ensures -1 <= i < |buffer|
    ensures i >= 0 ==> IsScored(buffer[i].item, id)
    ensures forall j | i < j < |buffer| :: !IsScored(buffer[j].item, id)
  {
    if buffer == [] then -1
    else if IsScored(buffer[|buffer| - 1].item, id) then |buffer| - 1
    else LastOf(buffer[..|buffer| - 1], id)
  }

  /** A batch leaves each transaction as its last occurrence in the batch, or untouched. */
  lemma {:induction false} UpsertAllEffect(scored: map<string, ScoredRow>, buffer: seq<Entry>, now: Time, id: string)
    ensures var u, i := UpsertAll(scored, buffer, now), LastOf(buffer, id);
      if i >= 0 then
        && id in u && u[id].event == buffer[i].item.event && u[id].score == buffer[i].item.score
        && u[id].processedAt == now
      else (id in u <==> id in scored) && (id in scored ==> u[id] == scored[id])
    decreases |buffer|
  {
    if buffer != [] {
      UpsertAllEffect(scored, buffer[..|buffer| - 1], now, id);
    }
  }

  predicate SameVersion(item: Item, id: string, version: string) {
    IsScored(item, id) ==> item.score.modelVersion == version
  }

  /** An explanation outlives a batch exactly when every rescoring in it is by the same model version. */
  lemma {:induction false} ExplanationSurvival(scored: map<string, ScoredRow>, buffer: seq<Entry>, now: Time, id: string)
    requires id in scored
    ensures var u, version := UpsertAll(scored, buffer, now), scored[id].score.modelVersion;
      && id in u
      && ((forall i | 0 <= i < |buffer| :: SameVersion(buffer[i].item, id, version)) ==>
            u[id].score.modelVersion == version && u[id].explanation == scored[id].explanation)
      && ((exists i | 0 <= i < |buffer| :: !SameVersion(buffer[i].item, id, version)) ==> u[id].explanation.None?)
    decreases |buffer|
  {
    if buffer != [] {
      var k := |buffer| - 1;
      ExplanationSurvival(scored, buffer[..k], now, id);
      UpsertAllEffect(scored, buffer[..k], now, id);
      assert forall i | 0 <= i < k :: buffer[..k][i] == buffer[i];
    }
  }

  // ------------------------------------------------------------------- steps

  ghost predicate ItemFor(c: Config, message: Message, item: Item) {
    match message
    case Valid(event) => item.ScoredItem? && item.event == event && c.may(event, item.score)
    case Malformed(summary) => item == RejectedItem(summary)
  }

  ghost predicate Fetchable(c: Config, s: State, p: nat)
    requires Sized(c, s)
  {
    s.phase == Polling && |s.buffer| < c.batch && p < |c.logs| && s.position[p] < |c.logs[p]|
  }

  ghost predicate Sized(c: Config, s: State) {
    |s.base| == |s.next| == |s.position| == |s.committed| == |s.savedUpTo| == |c.logs|
  }

  ghost predicate Enabled(c: Config, s: State, step: Step)
    requires Sized(c, s)
  {
    match step
    case Poll(p, item) => Fetchable(c, s, p) && ItemFor(c, c.logs[p][s.position[p]], item)
    case ScoringFails(p) => Fetchable(c, s, p) && c.logs[p][s.position[p]].Valid?
    case Fail => s.phase == Polling || s.phase == Saved(false)
    case SaveBuffer(_) => (s.phase == Polling || s.phase == Closing) && s.buffer != []
    case CommitOffset(p) => s.phase.Saved? && p < |c.logs| && s.base[p] < s.next[p]
    case Flushed => s.phase.Saved?
    case Stop => true
    case Start => s.phase == Down
    case PurgeScored(ids, age, now) =>
      forall id | id in ids :: id in s.scored && s.scored[id].processedAt < now - age
    case Explain(id, _) => id in s.scored
  }

  function Furthest(a: seq<nat>, b: seq<nat>): seq<nat>
    requires |a| == |b|
  {
    seq(|a|, i requires 0 <= i < |a| => if a[i] < b[i] then b[i] else a[i])
  }

  function AfterPoll(s: State, p: nat, item: Item): State
    requires p < |s.position| && p < |s.next|
  {
    s.(buffer := s.buffer + [Entry(p, s.position[p], item)],
       next := s.next[p := s.position[p] + 1],
       position := s.position[p := s.position[p] + 1])
  }

  function AfterSave(s: State, now: Time): State
    requires |s.savedUpTo| == |s.next|
  {
    s.(phase := Saved(s.phase == Closing),
       scored := UpsertAll(s.scored, s.buffer, now),
       savedUpTo := Furthest(s.savedUpTo, s.next))
  }

  function AfterCommit(s: State, p: nat): State
    requires p < |s.committed| && p < |s.next| && p < |s.savedUpTo|
  {
    s.(committed := s.committed[p := s.next[p]],
       behind := if s.savedUpTo[p] == s.next[p] then s.behind - {p} else s.behind)
  }

  /** Partitions whose offset the broker has not taken although the buffer is done with. */
  function Lagging(s: State): set<nat>
    requires |s.committed| == |s.next|
  {
    set p: nat | p < |s.next| && s.committed[p] < s.next[p]
  }

  /** The end of a flush does not look at what the broker answered for each partition. */
  function AfterFlush(s: State): State
    requires s.phase.Saved? && |s.committed| == |s.next|
  {
    s.(phase := if s.phase.closing then Down else Polling, buffer := [], base := s.next, behind := s.behind + Lagging(s))
  }

  ghost function Apply(c: Config, s: State, step: Step): State
    requires Sized(c, s) && Enabled(c, s, step)
  {
    match step
    case Poll(p, item) => AfterPoll(s, p, item)
    case ScoringFails(p) => s.(phase := Closing, position := s.position[p := s.position[p] + 1])
    case Fail => s.(phase := Closing)
    case SaveBuffer(now) => AfterSave(s, now)
    case CommitOffset(p) => AfterCommit(s, p)
    case Flushed => AfterFlush(s)
    case Stop => s.(phase := Down, buffer := [], base := s.committed, next := s.committed)
    case Start => s.(phase := Polling, position := s.committed, base := s.committed, next := s.committed)
    case PurgeScored(ids, _, _) => s.(scored := s.scored - ids, purged := s.purged + ids)
    case Explain(id, text) => s.(scored := s.scored[id := s.scored[id].(explanation := Some(text))])
  }

  ghost predicate Init(c: Config, s: State) {
    && Sized(c, s)
    && s.phase == Down && s.buffer == [] && s.scored == map[] && s.behind == {}
    && forall p: nat | p < |c.logs| :: s.committed[p] == s.base[p] == s.next[p] == s.savedUpTo[p] == s.position[p] == 0
  }

  // --------------------------------------------------------------- invariant

  /** Where the offsets of a partition stand, and how the window around them is bounded unless it is behind. */
  ghost predicate OffsetInv(c: Config, s: State, p: nat)
    requires Sized(c, s) && p < |c.logs|
  {
    && s.base[p] <= s.next[p] <= s.position[p] && s.committed[p] <= s.next[p] <= |c.logs[p]|
    && s.next[p] - s.base[p] <= |s.buffer|
    && s.base[p] <= s.savedUpTo[p] && s.committed[p] <= s.savedUpTo[p]
    && (s.phase.Saved? ==> s.next[p] <= s.savedUpTo[p])
    && (s.phase == Polling || s.phase == Saved(false) ==> s.position[p] == s.next[p])
    && (p !in s.behind ==> CaughtUp(c, s, p))
  }

  ghost predicate CaughtUp(c: Config, s: State, p: nat)
    requires Sized(c, s) && p < |c.logs|
  {
    && s.base[p] <= s.committed[p] && s.savedUpTo[p] <= s.committed[p] + c.batch
    && (s.phase == Polling ==> s.committed[p] == s.base[p])
  }

  ghost predicate FromLog(c: Config, e: Entry) {
    && e.partition < |c.logs|
    && e.offset < |c.logs[e.partition]|
    && ItemFor(c, c.logs[e.partition][e.offset], e.item)
  }

  ghost predicate EntryInv(c: Config, base: seq<nat>, next: seq<nat>, e: Entry)
    requires |base| == |next| == |c.logs|
  {
    FromLog(c, e) && base[e.partition] <= e.offset < next[e.partition]
  }

  ghost predicate Buffered(buffer: seq<Entry>, p: nat, o: nat) {
    exists i :: 0 <= i < |buffer| && buffer[i].partition == p && buffer[i].offset == o
  }

  ghost predicate InOrder(buffer: seq<Entry>) {
    forall i, j | 0 <= i < j < |buffer| && buffer[i].partition == buffer[j].partition ::
      buffer[i].offset < buffer[j].offset
  }

  /** Per partition the buffer is exactly the offsets from base to next, in order. */
  ghost predicate BufferInv(c: Config, buffer: seq<Entry>, base: seq<nat>, next: seq<nat>)
    requires |base| == |next| == |c.logs|
  {
    && (forall i | 0 <= i < |buffer| :: EntryInv(c, base, next, buffer[i]))
    && InOrder(buffer)
    && (forall p: nat, o: nat | p < |c.logs| && base[p] <= o < next[p] :: Buffered(buffer, p, o))
  }

  ghost predicate WindowInv(c: Config, s: State) {
    && Sized(c, s)
    && |s.buffer| <= c.batch
    && (s.phase == Down ==> s.buffer == [])
    && (forall p: nat | p < |c.logs| :: OffsetInv(c, s, p))
    && BufferInv(c, s.buffer, s.base, s.next)
  }

  lemma PollKeepsBuffer(c: Config, s: State, p: nat, item: Item)
    requires WindowInv(c, s) && Enabled(c, s, Poll(p, item))
    ensures var s' := AfterPoll(s, p, item); BufferInv(c, s'.buffer, s'.base, s'.next)
  {
    var s' := AfterPoll(s, p, item);
    var n := |s.buffer|;
    assert OffsetInv(c, s, p);
    forall i | 0 <= i < n ensures EntryInv(c, s'.base, s'.next, s'.buffer[i]) {
      assert EntryInv(c, s.base, s.next, s.buffer[i]);
    }
    forall q: nat, o: nat | q < |c.logs| && s'.base[q] <= o < s'.next[q] ensures Buffered(s'.buffer, q, o) {
      if q == p && o == s.position[p] {
        assert s'.buffer[n].partition == q && s'.buffer[n].offset == o;
      } else {
        assert Buffered(s.buffer, q, o);
        var i :| 0 <= i < n && s.buffer[i].partition == q && s.buffer[i].offset == o;
        assert s'.buffer[i] == s.buffer[i];
      }
    }
  }

  lemma OffsetStep(c: Config, s: State, step: Step, p: nat)
    requires WindowInv(c, s) && Enabled(c, s, step) && p < |c.logs|
    ensures var s' := Apply(c, s, step); Sized(c, s') && OffsetInv(c, s', p) && s.committed[p] <= s'.committed[p]
  {
    assert OffsetInv(c, s, p);
  }

  lemma WindowStep(c: Config, s: State, step: Step)
    requires WindowInv(c, s) && Enabled(c, s, step)
    ensures WindowInv(c, Apply(c, s, step))
    ensures forall p: nat | p < |c.logs| :: s.committed[p] <= Apply(c, s, step).committed[p]
  {
    var s' := Apply(c, s, step);
    forall p: nat | p < |c.logs| ensures OffsetInv(c, s', p) && s.committed[p] <= s'.committed[p] {
      OffsetStep(c, s, step, p);
    }
    if step.Poll? {
      PollKeepsBuffer(c, s, step.partition, step.item);
    }
  }

  ghost predicate Run(c: Config, s: State, steps: seq<Step>, s': State)
    requires Sized(c, s)
    decreases |steps|
  {
    if steps == [] then s' == s
    else Enabled(c, s, steps[0]) && Sized(c, Apply(c, s, steps[0])) && Run(c, Apply(c, s, steps[0]), steps[1..], s')
  }

  // --------------------------------------------------------- what the rows are

  predicate Occurs(c: Config, p: nat, o: nat, id: string) {
    p < |c.logs| && o < |c.logs[p]| && c.logs[p][o].Valid? && c.logs[p][o].event.transactionId == id
  }

  /** All events of this transaction id are written to one partition. */
  ghost predicate OneHome(c: Config, id: string) {
    forall p: nat, o: nat, p': nat, o': nat :: Occurs(c, p, o, id) && Occurs(c, p', o', id) ==> p == p'
  }

  /** How far the scored table can be relied on: to the end of a saved buffer, else to where the buffer begins. */
  function Bound(s: State): seq<nat>
    requires |s.base| == |s.committed|
  {
    if s.phase.Saved? then s.next else Furthest(s.base, s.committed)
  }

  ghost predicate RowFrom(c: Config, bound: seq<nat>, row: ScoredRow, id: string, p: nat, o: nat)
    requires |bound| == |c.logs|
  {
    && Occurs(c, p, o, id)
    && row.event == c.logs[p][o].event
    && c.may(row.event, row.score)
    && forall o': nat | o' < bound[p] && Occurs(c, p, o', id) :: o' <= o
  }

  ghost predicate RowInv(c: Config, bound: seq<nat>, row: ScoredRow, id: string)
    requires |bound| == |c.logs|
  {
    exists p: nat, o: nat :: RowFrom(c, bound, row, id, p, o)
  }

  ghost predicate ScoredInv(c: Config, s: State)
    requires Sized(c, s)
  {
    && (forall id | id in s.scored :: RowInv(c, Bound(s), s.scored[id], id))
    && (forall p: nat, o: nat, id | Occurs(c, p, o, id) && o < Bound(s)[p] :: id in s.scored || id in s.purged)
  }

  lemma SaveRow(c: Config, s: State, now: Time, id: string)
    requires WindowInv(c, s) && ScoredInv(c, s)
    requires s.phase == Polling || s.phase == Closing
    ensures var u := UpsertAll(s.scored, s.buffer, now); id in u ==> RowInv(c, s.next, u[id], id)
  {
    var u := UpsertAll(s.scored, s.buffer, now);
    var i := LastOf(s.buffer, id);
    UpsertAllEffect(s.scored, s.buffer, now, id);
    if i >= 0 {
      var e := s.buffer[i];
      var p, o := e.partition, e.offset;
      assert EntryInv(c, s.base, s.next, e);
      forall o': nat | o' < s.next[p] && Occurs(c, p, o', id) ensures o' <= o {
        if o < o' {
          BufferedIsScored(c, s, p, o', id, i);
        }
      }
      assert RowFrom(c, s.next, u[id], id, p, o);
    } else if id in u {
      var p: nat, o: nat :| RowFrom(c, Bound(s), s.scored[id], id, p, o);
      assert OffsetInv(c, s, p);
      forall o': nat | o' < s.next[p] && Occurs(c, p, o', id) ensures o' <= o {
        if s.base[p] <= o' {
          BufferedIsScored(c, s, p, o', id, i);
        }
      }
      assert RowFrom(c, s.next, u[id], id, p, o);
    }
  }

  /** An occurrence inside the buffered window sits in the buffer, no later than the last one. */
  lemma BufferedIsScored(c: Config, s: State, p: nat, o: nat, id: string, i: int)
    requires WindowInv(c, s) && Occurs(c, p, o, id) && s.base[p] <= o < s.next[p]
    requires i == LastOf(s.buffer, id)
    ensures 0 <= i && (s.buffer[i].partition == p ==> o <= s.buffer[i].offset)
  {
    assert Buffered(s.buffer, p, o);
    var j :| 0 <= j < |s.buffer| && s.buffer[j].partition == p && s.buffer[j].offset == o;
    assert EntryInv(c, s.base, s.next, s.buffer[j]);
    assert IsScored(s.buffer[j].item, id);
  }

  lemma SaveKeepsScored(c: Config, s: State, now: Time)
    requires WindowInv(c, s) && ScoredInv(c, s)
    requires s.phase == Polling || s.phase == Closing
    ensures ScoredInv(c, AfterSave(s, now))
  {
    var s' := AfterSave(s, now);
    forall id | id in s'.scored ensures RowInv(c, s.next, s'.scored[id], id) {
      SaveRow(c, s, now, id);
    }
    forall p: nat, o: nat, id | Occurs(c, p, o, id) && o < s.next[p] ensures id in s'.scored || id in s'.purged {
      UpsertAllEffect(s.scored, s.buffer, now, id);
      assert OffsetInv(c, s, p);
      if s.base[p] <= o {
        BufferedIsScored(c, s, p, o, id, LastOf(s.buffer, id));
      }
    }
  }

  /** The table stays right when less is claimed of it, when rows go, and when explanations come. */
  lemma ScoredWeakens(c: Config, s: State, s': State)
    requires Sized(c, s) && Sized(c, s') && ScoredInv(c, s)
    requires forall p: nat | p < |c.logs| :: Bound(s')[p] <= Bound(s)[p]
    requires forall id | id in s'.scored ::
      id in s.scored && s'.scored[id].event == s.scored[id].event && s'.scored[id].score == s.scored[id].score
    requires s.scored.Keys + s.purged <= s'.scored.Keys + s'.purged
    ensures ScoredInv(c, s')
  {
    forall id | id in s'.scored ensures RowInv(c, Bound(s'), s'.scored[id], id) {
      var p: nat, o: nat :| RowFrom(c, Bound(s), s.scored[id], id, p, o);
      assert RowFrom(c, Bound(s'), s'.scored[id], id, p, o);
    }
  }

  lemma ScoredStep(c: Config, s: State, step: Step)
    requires WindowInv(c, s) && ScoredInv(c, s) && Enabled(c, s, step)
    ensures var s' := Apply(c, s, step); Sized(c, s') && ScoredInv(c, s')
  {
    WindowStep(c, s, step);
    if step.SaveBuffer? {
      SaveKeepsScored(c, s, step.now);
    } else {
      forall p: nat | p < |c.logs| ensures Bound(Apply(c, s, step))[p] <= Bound(s)[p] {
        assert OffsetInv(c, s, p);
      }
      ScoredWeakens(c, s, Apply(c, s, step));
    }
  }

  lemma {:induction false} RunKeeps(c: Config, s: State, steps: seq<Step>, s': State)
    requires WindowInv(c, s) && ScoredInv(c, s) && Run(c, s, steps, s')
    ensures WindowInv(c, s') && ScoredInv(c, s')
    ensures forall p: nat | p < |c.logs| :: s.committed[p] <= s'.committed[p]
    decreases |steps|
  {
    if steps != [] {
      WindowStep(c, s, steps[0]);
      ScoredStep(c, s, steps[0]);
      RunKeeps(c, Apply(c, s, steps[0]), steps[1..], s');
    }
  }

  lemma InitInv(c: Config, s: State)
    requires Init(c, s)
    ensures WindowInv(c, s) && ScoredInv(c, s)
  {
  }

  // ------------------------------------------------------ main results

  /** The buffer is exactly the offsets from the committed one to the fetch position. */
  ghost predicate Aligned(s: State, p: nat)
    requires p < |s.committed| && p < |s.position|
  {
    forall o: nat :: Buffered(s.buffer, p, o) <==> s.committed[p] <= o < s.position[p]
  }

  lemma AlignedIff(s: State, p: nat)
    requires p < |s.committed| && p < |s.position| && p < |s.base|
    requires s.base[p] <= s.position[p] && s.committed[p] <= s.position[p]
    requires forall o: nat :: Buffered(s.buffer, p, o) <==> s.base[p] <= o < s.position[p]
    ensures Aligned(s, p) <==> s.committed[p] == s.base[p]
  {
    if s.committed[p] != s.base[p] {
      var first := if s.committed[p] < s.base[p] then s.committed[p] else s.base[p];
      assert Buffered(s.buffer, p, first) <==> s.base[p] <= first < s.position[p];
    }
  }

  /**
   Over every run: while the consumer polls, the buffer is, per partition, exactly the offsets from where
   it begins to the fetch position; nothing before that, and nothing committed, is unsaved. It begins at
   the committed offset, and what is saved but not committed never spans more than one write batch, unless
   a flush passed over a refused commit of the partition that was not made up for since.
   */
  lemma CommitSafety(c: Config, s0: State, steps: seq<Step>, s: State, p: nat)
    requires Init(c, s0) && Run(c, s0, steps, s) && p < |c.logs|
    ensures Sized(c, s) && |s.buffer| <= c.batch
    ensures s.committed[p] <= s.savedUpTo[p] && s.base[p] <= s.savedUpTo[p]
    ensures s.phase == Polling ==> forall o: nat :: Buffered(s.buffer, p, o) <==> s.base[p] <= o < s.position[p]
    ensures p !in s.behind ==> s.savedUpTo[p] <= s.committed[p] + c.batch && (s.phase == Polling ==> Aligned(s, p))
    ensures s.phase == Polling ==> (Aligned(s, p) <==> s.committed[p] == s.base[p])
    ensures InOrder(s.buffer)
    ensures forall i | 0 <= i < |s.buffer| :: FromLog(c, s.buffer[i])
  {
    InitInv(c, s0);
    RunKeeps(c, s0, steps, s);
    assert OffsetInv(c, s, p);
    assert forall i | 0 <= i < |s.buffer| :: EntryInv(c, s.base, s.next, s.buffer[i]);
    if s.phase == Polling {
      assert forall o: nat :: Buffered(s.buffer, p, o) <==> s.base[p] <= o < s.position[p];
      AlignedIff(s, p);
    }
  }

  /** A partition falls behind at the end of a flush that passed over a refusal, and a commit of all that is saved makes up for it. */
  lemma BehindStep(c: Config, s: State, step: Step, p: nat)
    requires WindowInv(c, s) && Enabled(c, s, step) && p < |c.logs|
    ensures var s' := Apply(c, s, step);
      && (p in s'.behind && p !in s.behind <==> p !in s.behind && step.Flushed? && s.committed[p] != s.next[p])
      && (p !in s'.behind && p in s.behind <==> p in s.behind && step == CommitOffset(p) && s.next[p] == s.savedUpTo[p])
  {
    assert OffsetInv(c, s, p);
  }

  lemma {:induction false} RunAppend(c: Config, s: State, steps: seq<Step>, mid: State, step: Step)
    requires Sized(c, s) && Sized(c, mid) && Run(c, s, steps, mid)
    requires Enabled(c, mid, step) && Sized(c, Apply(c, mid, step))
    ensures Run(c, s, steps + [step], Apply(c, mid, step))
    decreases |steps|
  {
    var all := steps + [step];
    if steps == [] {
      assert all[1..] == [];
    } else {
      RunAppend(c, Apply(c, s, steps[0]), steps[1..], mid, step);
      assert all[0] == steps[0] && all[1..] == steps[1..] + [step];
    }
  }

  /** Polling with an empty buffer, n messages of the partition saved and none committed. */
  ghost predicate Ahead(c: Config, s: State, p: nat, n: nat)
    requires p < |c.logs|
  {
    && Sized(c, s) && s.phase == Polling && s.buffer == []
    && s.committed[p] == 0 && s.base[p] == s.next[p] == s.position[p] == s.savedUpTo[p] == n
  }

  lemma OneMoreAhead(c: Config, s: State, p: nat, n: nat) returns (a: State, b: State, d: State)
    requires p < |c.logs| && c.batch >= 1 && n < |c.logs[p]| && c.logs[p][n].Malformed? && Ahead(c, s, p, n)
    ensures var poll := Poll(p, RejectedItem(c.logs[p][n].summary));
      && Enabled(c, s, poll) && a == Apply(c, s, poll) && Sized(c, a)
      && Enabled(c, a, SaveBuffer(0)) && b == Apply(c, a, SaveBuffer(0)) && Sized(c, b)
      && Enabled(c, b, Flushed) && d == Apply(c, b, Flushed) && Ahead(c, d, p, n + 1)
  {
    a := AfterPoll(s, p, RejectedItem(c.logs[p][n].summary));
    b := AfterSave(a, 0);
    d := AfterFlush(b);
  }

  /** When every commit of a partition is refused and passed over, what is saved gets ahead of it without bound. */
  lemma {:induction false} RefusedCommitsPileUp(c: Config, s0: State, p: nat, n: nat) returns (steps: seq<Step>, s: State)
    requires Init(c, s0) && p < |c.logs| && c.batch >= 1
    requires n <= |c.logs[p]| && forall o: nat | o < |c.logs[p]| :: c.logs[p][o].Malformed?
    ensures Run(c, s0, steps, s) && Ahead(c, s, p, n)
    decreases n
  {
    if n == 0 {
      steps, s := [Start], Apply(c, s0, Start);
      RunAppend(c, s0, [], s0, Start);
    } else {
      steps, s := RefusedCommitsPileUp(c, s0, p, n - 1);
      var a, b, d := OneMoreAhead(c, s, p, n - 1);
      var poll := Poll(p, RejectedItem(c.logs[p][n - 1].summary));
      RunAppend(c, s0, steps, s, poll);
      RunAppend(c, s0, steps + [poll], a, SaveBuffer(0));
      RunAppend(c, s0, steps + [poll] + [SaveBuffer(0)], b, Flushed);
      steps, s := steps + [poll] + [SaveBuffer(0)] + [Flushed], d;
    }
  }

  /** The row is the one of the occurrence at (p, o), and no committed occurrence comes after that one. */
  ghost predicate Recent(c: Config, committed: seq<nat>, row: ScoredRow, id: string, p: nat, o: nat)
    requires |committed| == |c.logs|
  {
    && RowFrom(c, committed, row, id, p, o)
    && (OneHome(c, id) ==> forall p': nat, o': nat | Occurs(c, p', o', id) && o' < committed[p'] :: p' == p && o' <= o)
  }

  /**
   Over every run: each row of the scored table stems from an occurrence of its id no earlier than any
   committed one of that partition, or of any partition when an id keeps to one; and a committed id has
   a row unless retention removed it.
   */
  lemma RowsAreRecent(c: Config, s0: State, steps: seq<Step>, s: State, id: string)
    requires Init(c, s0) && Run(c, s0, steps, s)
    ensures Sized(c, s)
    ensures id in s.scored ==> exists p: nat, o: nat :: Recent(c, s.committed, s.scored[id], id, p, o)
    ensures (exists p: nat, o: nat :: Occurs(c, p, o, id) && o < s.committed[p]) ==> id in s.scored || id in s.purged
  {
    InitInv(c, s0);
    RunKeeps(c, s0, steps, s);
    forall p: nat | p < |c.logs| ensures s.committed[p] <= Bound(s)[p] {
      assert OffsetInv(c, s, p);
    }
    if id in s.scored {
      var p: nat, o: nat :| RowFrom(c, Bound(s), s.scored[id], id, p, o);
      assert Recent(c, s.committed, s.scored[id], id, p, o);
    }
  }

  /** The table one partition would leave, read once from start to end without failures. */
  function FoldLog(log: seq<Message>, f: Event -> Score): map<string, (Event, Score)> {
    if log == [] then map[]
    else
      var before := FoldLog(log[..|log| - 1], f);
      match log[|log| - 1]
      case Valid(event) => before[event.transactionId := (event, f(event))]
      case Malformed(_) => before
  }

  function FoldAll(logs: seq<seq<Message>>, f: Event -> Score): map<string, (Event, Score)> {
    if logs == [] then map[] else FoldAll(logs[..|logs| - 1], f) + FoldLog(logs[|logs| - 1], f)
  }

  predicate InLog(log: seq<Message>, o: nat, id: string) {
    o < |log| && log[o].Valid? && log[o].event.transactionId == id
  }

  lemma {:induction false} FoldLogAt(log: seq<Message>, f: Event -> Score, id: string, o: nat)
    requires InLog(log, o, id) && forall o': nat | InLog(log, o', id) :: o' <= o
    ensures id in FoldLog(log, f) && FoldLog(log, f)[id] == (log[o].event, f(log[o].event))
    decreases |log|
  {
    var n := |log| - 1;
    if o < n {
      assert !InLog(log, n, id);
      assert forall o': nat | InLog(log[..n], o', id) :: InLog(log, o', id);
      FoldLogAt(log[..n], f, id, o);
    }
  }

  lemma {:induction false} FoldLogOnly(log: seq<Message>, f: Event -> Score, id: string) returns (o: nat)
    requires id in FoldLog(log, f)
    ensures InLog(log, o, id)
    decreases |log|
  {
    o := |log| - 1;
    if !InLog(log, o, id) {
      o := FoldLogOnly(log[..o], f, id);
    }
  }

  lemma {:induction false} FoldAllAt(logs: seq<seq<Message>>, f: Event -> Score, id: string)
    ensures id in FoldAll(logs, f) <==> exists p | 0 <= p < |logs| :: id in FoldLog(logs[p], f)
    ensures forall p | 0 <= p < |logs| && id in FoldLog(logs[p], f)
      && (forall q | 0 <= q < |logs| && id in FoldLog(logs[q], f) :: q == p) ::
        FoldAll(logs, f)[id] == FoldLog(logs[p], f)[id]
    decreases |logs|
  {
    if logs != [] {
      var n := |logs| - 1;
      FoldAllAt(logs[..n], f, id);
      assert forall p | 0 <= p < n :: logs[..n][p] == logs[p];
    }
  }

  lemma FoldIsLastOccurrence(c: Config, f: Event -> Score, p: nat, o: nat, id: string)
    requires OneHome(c, id) && Occurs(c, p, o, id)
    requires forall o': nat | Occurs(c, p, o', id) :: o' <= o
    ensures id in FoldAll(c.logs, f) && FoldAll(c.logs, f)[id] == (c.logs[p][o].event, f(c.logs[p][o].event))
  {
    assert InLog(c.logs[p], o, id);
    assert forall o': nat | InLog(c.logs[p], o', id) :: Occurs(c, p, o', id);
    FoldLogAt(c.logs[p], f, id, o);
    forall q: nat | q < |c.logs| && id in FoldLog(c.logs[q], f) ensures q == p {
      var o' := FoldLogOnly(c.logs[q], f, id);
      assert Occurs(c, q, o', id);
    }
    FoldAllAt(c.logs, f, id);
  }

  lemma FoldedOccurs(c: Config, f: Event -> Score, id: string) returns (p: nat, o: nat)
    requires id in FoldAll(c.logs, f)
    ensures Occurs(c, p, o, id)
  {
    FoldAllAt(c.logs, f, id);
    p :| p < |c.logs| && id in FoldLog(c.logs[p], f);
    o := FoldLogOnly(c.logs[p], f, id);
  }

  /**
   Over every run, however often batches were replayed: once every offset is committed, each row left
   in the table is the one a single failure-free pass would leave, and only retention removes any.
   */
  lemma ReplayConverges(c: Config, s0: State, steps: seq<Step>, s: State, f: Event -> Score, id: string)
    requires Init(c, s0) && OneHome(c, id) && Run(c, s0, steps, s)
    requires forall e, sc | c.may(e, sc) :: sc == f(e)
    requires Sized(c, s) && forall p: nat | p < |c.logs| :: s.committed[p] == |c.logs[p]|
    ensures id in s.scored ==>
      id in FoldAll(c.logs, f) && (s.scored[id].event, s.scored[id].score) == FoldAll(c.logs, f)[id]
    ensures id in FoldAll(c.logs, f) ==> id in s.scored || id in s.purged
  {
    InitInv(c, s0);
    RunKeeps(c, s0, steps, s);
    forall p: nat | p < |c.logs| ensures Bound(s)[p] >= |c.logs[p]| {
      assert OffsetInv(c, s, p);
    }
    if id in s.scored {
      var p: nat, o: nat :| RowFrom(c, Bound(s), s.scored[id], id, p, o);
      FoldIsLastOccurrence(c, f, p, o, id);
    }
    if id in FoldAll(c.logs, f) {
      var p, o := FoldedOccurs(c, f, id);
    }
  }
}
