# LossGuard: a verified model

A Dafny model of three parts of LossGuard, with proofs about every run or every input.

1. **The pipeline** from the consumer through the PostgreSQL outbox to the publishers. `Intake` is the
   consuming half and `Relay` the publishing half, each a transition system with crashes between any two
   steps, failing and partial commits, repeated flushes, lapsed leases, late deliveries and retention.
   `Pipeline` joins them: they meet in the one database transaction that saves scores and outbox records
   together. `Repository`, `Publisher` and `ConsumerProcess` are the imperative programs (claim, mark,
   release, save, publish_json, publish_once and its loop, flush, the consumer loop); their methods are
   proved to be runs of those transition systems, so the results about runs apply to them. `Delivery`
   puts a run of the pipeline and the publisher's loop together: what was committed reaches the broker.
   `Retention` is the deletion loop, on the outbox again a run of the publishing half.
2. **The decision-cost model**: `Costs` (scalar costs), `ThresholdSearch` (grid search, category
   thresholds, policy evaluation), `Simulator` (what-if view), `Grouping` and `Analytics` (the SQL
   breakdown and the two marts). Arithmetic is over exact reals.
3. **The `.env` reader and rewriter**: `EnvFile`.

`Feed` says what a sequence of polls brings and what it leaves in the tables, `Events` holds messages and
dedupe keys, `OutboxTable` the outbox rows and statements, `Ranking` the meaning of `ORDER BY ... LIMIT`.

## Assumptions

- One active member of the consumer group; offsets of a partition are contiguous. That the events of one
  transaction id are in one partition (`Intake.OneHome`) is assumed, for that id, only where the order of
  two partitions would matter: in `Intake.ReplayConverges`.
- Each repository method is one atomic transaction, and the database clock never goes back. Times are
  whole microseconds. Rows locked by a concurrent claim are skipped: a claim may overlook any set of rows.
- Claim tokens are fresh, the lease is its default of 300 s, and the client library puts a record it
  accepted into the topic at most once (`enable.idempotence`), possibly after the publisher gave up on it.
- A synchronous commit of offsets may raise as a whole, having committed any of them, or return with some
  partitions refused; a refused partition does not by itself raise.
- Scoring is any relation between events and scores, and a model version any string; where a result needs
  a fixed scoring function or keys that cannot be read two ways, its lemma says so.
- The source logs are fixed but arbitrary: they stand for everything ever written to the partitions.

## Results that are not promises of the code

- `Analytics.DailyReconcilesIff`: the dbt test that policy cost equals missed fraud plus friction passes
  for a daily entry, in exact arithmetic, exactly when none of its rows is unlabelled and decided `verify`
  (rounding stored amounts and costs to cents can add up to more than the test allows). Such a row adds the
  3.0 operation cost to friction, while its stored policy cost is NULL and counts as zero.
- `OutboxTable.OwnRecordIsKeptIff`, `Pipeline.LastOccurrenceIsPublishedIff`: a saved message's own record
  is in the outbox exactly when the first holder of its dedupe key, an older row or else the first record
  of the batch with that key, is the same record. So an event sent again under the same transaction id and
  model version replaces the table row while the topic keeps the earlier content
  (`Pipeline.ResentEventIsNotRepublished`).
- `Events.VersionsCollideIff`: among legal transaction ids two model versions give colliding dedupe keys
  exactly when one is at most 55 characters, a colon and the other; `blue:v2` and `v2` do
  (`Events.ScoredKeyCollision`). `Pipeline.KeysIdentifyIff` is the same over the events of a source.
- `Analytics.FalseDeclineRateIsDirectIff`: the rolled-up false decline rate leaves the transactions of days
  without any label out of its denominator, while it counts unlabelled transactions of other days as not
  fraudulent. It is the rate of the added-up columns exactly when the category has no label, or one on each
  of its days, or no false decline and a denominator that is not zero; `UnlabelledDayDoublesTheRate` is a
  case where it is twice that.
- `Intake.CommitSafety`, `Intake.RefusedCommitsPileUp`: `flush` does not look at what the broker answered for
  each partition. A partition whose commit is refused that way stays behind while its messages leave the
  buffer, and what is saved but not committed is then bounded no more. Nothing is lost by it
  (`Pipeline.NoLoss`), and a later commit of the partition makes up for it.
- `Simulator.RowCostMoves`: raising the decline threshold lowers the cost of every legitimate row whose
  action changes and raises that of every fraud whose action changes, except a fraud of at most 3 / 0.85
  that is no longer verified; so the total may go either way (`Simulator.TotalCostIsNotMonotone`).

## Model

| member | source | states |
|---|---|---|
| Pipeline.NoLoss | apps/consumer/main.py:138-164 | In every reachable state of the whole pipeline, for any model versions, the dedupe key of each message below the committed offset belongs to a record, made from a source message, that is pending in the outbox or in the broker's log |
| Pipeline.EveryCopyIsSourced | apps/consumer/main.py:182-241 | Over every run each record in the broker's log was made from a source message |
| Pipeline.EveryCopyIsRouted | apps/consumer/main.py:186-231 | Over every run each record in the broker's log is in the topic of its kind, under the transaction's id when it is known |
| Pipeline.CommittedIsDelivered | apps/outbox_publisher/main.py:23-32 | Once a further run of the publishing half has left nothing pending, every message committed before has a record under its key in the broker's log |
| Pipeline.SharedKeyIsSameTransaction | apps/consumer/main.py:196-231 | A stored record with the dedupe key of a valid message is of the same transaction, scored by a permitted version, when no key can be read two ways; with the key of a malformed message it is that message's own record |
| Pipeline.KeysIdentifyIff | apps/consumer/main.py:230-230 | The dedupe keys of a source tell transactions apart exactly when no two of its events have such ids and versions that one key can be read both ways |
| Pipeline.ColonFreeVersionsKeepKeysApart | apps/consumer/main.py:230-230 | Versions without a colon are enough for that |
| Pipeline.NoLossOfContent | apps/consumer/main.py:138-164 | The safe record of a committed message is of the same transaction when keys are apart, and is its own record when no other message shares its key |
| Pipeline.RejectionKeyIsItsOwn | apps/consumer/main.py:196-200 | A rejection shares its key with no other message, whatever the versions |
| Pipeline.RunProjects | src/lossguard/database.py:139-189 | Every run of the pipeline is a run of the consuming half and of the publishing half, which share only the save transaction |
| Pipeline.ResentEventIsNotRepublished | src/lossguard/database.py:178-189 | Any table, any batch: same id and version twice with other content, and the key new: the table takes the last event, the outbox keeps the first and not the last |
| Pipeline.LastOccurrenceIsPublishedIff | src/lossguard/database.py:144-189 | After a save the table has the last occurrence of a transaction, and the outbox has its record exactly when the first holder of the key is the same record |
| Intake.CommitSafety | apps/consumer/main.py:166-260 | Over every run: while polling the buffer is exactly the offsets from where it begins to the position; nothing committed or before the buffer is unsaved; unless a refused commit of the partition was passed over and not made up for, the buffer begins at the committed offset and what is saved but not committed spans at most one batch |
| Intake.RefusedCommitsPileUp | apps/consumer/main.py:148-148 | When each commit of a partition is refused and passed over, any number of its messages can be saved and dropped from the buffer with none committed |
| Intake.BehindStep | apps/consumer/main.py:148-148 | A partition falls behind only when a flush passes over a refusal, and a commit of everything saved makes up for it |
| Intake.WindowStep | apps/consumer/main.py:138-164 | Every consumer step keeps the window invariant and never moves a committed offset back |
| Intake.ReplayConverges | src/lossguard/database.py:37-86 | With everything committed, each row of the scored table is what one failure-free in-order pass leaves, however batches were replayed, and only retention removes rows |
| Intake.RowsAreRecent | src/lossguard/database.py:55-86 | In every reachable state each scored row is that of an occurrence of its id no earlier than the last committed one, and a committed id has a row unless retention removed it |
| Intake.SaveRow | src/lossguard/database.py:144-148 | A saved batch leaves a transaction's row at its last occurrence up to the end of the batch |
| Intake.UpsertAllEffect | src/lossguard/database.py:37-70 | A batch of upserts leaves each transaction as its last occurrence in the batch, or untouched |
| Intake.ExplanationSurvival | src/lossguard/database.py:71-82 | A stored explanation survives a batch exactly when every rescoring is by the same model version |
| Relay.StepKeeps | src/lossguard/database.py:200-248 | Every publishing step keeps the table, durability, broker and publisher invariants, and history only grows |
| Relay.ClaimSpacing | src/lossguard/database.py:206-212 | A claim the filter allows comes at least the back-off after the previous claim of the row |
| RelayProperties.BoundedDuplication | apps/outbox_publisher/main.py:23-32 | Broker copies of a row never exceed its attempts, late ones included; a published row has a copy in the broker's log |
| RelayProperties.ClaimsAreSpaced | src/lossguard/database.py:206-247 | Claims k and k+1 of a row are min(300, 5k) s apart at least, and n claims take the summed minimum |
| RelayProperties.SpanGrowth | src/lossguard/database.py:242-244 | The closed form of the minimum time for n claims grows by exactly the back-off of claim n |
| RelayProperties.Fencing | src/lossguard/database.py:204-248 | Claim time and token are null together, published rows are unclaimed and final, an unexpired claim is ended only by its holder |
| RelayProperties.StaleTokenIsHarmless | src/lossguard/database.py:224-248 | Over every run: once another claim of the row came after the publisher's own, its mark or release changes nothing; as long as none did, however late, it takes effect on exactly that row: a mark publishes it now, a release gives it back with its back-off |
| RelayProperties.PublishedBetweenClaimAndNow | src/lossguard/database.py:224-234 | Over every run a published row's time lies between its last claim and now |
| RelayProperties.MarkedRowIsKept | maintenance/retention.py:67-72 | A row whose mark took effect survives every later run with retention of some age until that age is past |
| RelayProperties.TokenHoldsAtMostABatch | src/lossguard/database.py:206-219 | Over every run one token holds at most one batch of rows |
| RelayProperties.Drain | apps/outbox_publisher/main.py:23-32 | From any reachable state, after more than a lease of quiet, k rounds leave exactly N - k * batch of N pending rows, none after ceil(N / batch); Publisher.RunPublisher produces the rounds |
| OutboxTable.InsertAllEffect | src/lossguard/database.py:178-189 | Inserting with ON CONFLICT DO NOTHING keeps old rows, adds only pending, unclaimed ones that can be claimed at once, keeps keys unique and leaves every key present; each record uses up one id, stored or not |
| OutboxTable.OwnRecordIsKeptIff | src/lossguard/database.py:178-189 | Any table, any batch: a record reaches the table unchanged exactly when the first holder of its key is the same record |
| OutboxTable.CandidatesEffect | src/lossguard/database.py:206-212 | A claim takes eligible rows only, as many as the limit allows, lowest ids first |
| Repository.TransactionRepository.SaveBatch | src/lossguard/database.py:139-189 | All four tables change as the batch says, or none does |
| Repository.TransactionRepository.ClaimOutbox | src/lossguard/database.py:200-222 | Claims the candidates under the token and returns each of them once, in any order |
| Repository.TransactionRepository.MarkOutboxPublished | src/lossguard/database.py:224-234 | Publishes the row at the current time and unclaims it if the token holds it, else changes nothing |
| Repository.TransactionRepository.ReleaseOutbox | src/lossguard/database.py:236-248 | Unclaims the row with its back-off and truncated error if the token holds it, else changes nothing |
| Publisher.PublishJson | src/lossguard/kafka.py:36-71 | The result is what the client's script makes of a call; one record enqueued at most, exactly one if taken; Ok only when it was acknowledged; every poll begins before the deadline and waits for a fifth of a second or what is left |
| Publisher.ResultIff | src/lossguard/kafka.py:54-71 | A call comes to a result exactly when the queue is full some k times, m polls bring no report, and what follows is what the result says, all before the deadline |
| Publisher.PublishOnce | apps/outbox_publisher/main.py:23-32 | Success publishes exactly the claimed rows; a failure publishes a prefix, gives one row back with its back-off and leaves the rest claimed; every outcome is a run of the publishing half |
| Publisher.PublishRow | apps/outbox_publisher/main.py:25-31 | One record is given ten seconds, then its row is marked or released under its own token, as steps of the publishing half |
| Publisher.SuccessIsARound | apps/outbox_publisher/main.py:23-32 | A successful call alone on the table is one round of the drain result |
| Publisher.RunPublisher | apps/outbox_publisher/main.py:47-50 | The publisher's loop: its successful turns are rounds of the drain result and a run of the publishing half; with the broker up every turn succeeds |
| Delivery.DrainOutbox | apps/outbox_publisher/main.py:23-50 | After any run of the pipeline and more than a lease of quiet, enough turns of the loop fail or leave every row in place, nothing pending and every committed message in the broker's log; with the broker up they do not fail |
| Delivery.EmptyOutboxDelivers | apps/consumer/main.py:138-148 | From a run of the pipeline to an emptied outbox: every committed message is in the broker's log under its key |
| ConsumerProcess.ScoreWithRetry | apps/consumer/main.py:90-119 | Goes on exactly while the response is retryable (unreachable, 429 or 500 and up), attempts are left and the retry metric could be written; returns what ended it, with the number of calls, the metrics written and the back-off units |
| ConsumerProcess.LatestIsNext | apps/consumer/main.py:143-148 | The offsets a flush commits are exactly one past the last buffered offset of each partition in the buffer |
| ConsumerProcess.ScoresAreUpserts | src/lossguard/database.py:144-148 | Writing the batch's score list is writing the buffered messages in order |
| ConsumerProcess.Consumer.Accept | apps/consumer/main.py:182-241 | A fetched message is appended to the messages, scores or rejections, metrics, outbox records and, if scored, pending alerts; the position moves by one |
| ConsumerProcess.Consumer.Commit | apps/consumer/main.py:143-148 | Exactly the offsets the broker does not refuse are committed; the refusals are not looked at |
| ConsumerProcess.SendAlerts | apps/consumer/main.py:149-160 | Alerts go in order; each sent one is recorded as a metric; the first failure ends it and keeps exactly the metrics of those before |
| ConsumerProcess.AlertMetricsAreSent | apps/consumer/main.py:149-160 | One metric of its own name, value and tag for each alert that is sent |
| ConsumerProcess.Consumer.Flush | apps/consumer/main.py:138-164 | Saves before it commits, and alerts after; states what is added to all four tables, among it rejections and metrics, and which offsets are committed; succeeds exactly when the database is up, the commit does not raise and no alert fails, whatever single partitions refused; then the lists are empty, otherwise they are kept |
| ConsumerProcess.Consumer.RunLoop | apps/consumer/main.py:166-260 | The position moves by what the polls bring; each loop head has as many messages buffered as the turn before leaves, fewer than a batch. A clean end has taken every turn and leaves the three tables as if everything brought had been written message by message, and nothing uncommitted but in partitions left behind; when no flush fails the end is clean unless an event cannot be scored, and then what was brought before is written |
| Feed.BatchingIsInvisible | src/lossguard/database.py:139-189 | Writing entries in two batches is writing them in one |
| Feed.BroughtIsTheLog | apps/consumer/main.py:168-241 | Without a failing score the polls bring each message from the starting to the reached position exactly once, in order |
| ConsumerProcess.NothingCommittedIsLost | apps/consumer/main.py:122-260 | Whatever a consumer process went through, the key of each message it committed belongs to a record pending in the outbox or in the broker's log |
| Retention.DeleteInBatches | maintenance/retention.py:21-38 | A row goes exactly if its timestamp is before the last cutoff, never with a null timestamp; the number is returned, in total / batch + 1 passes |
| Retention.PassIsPurge | maintenance/retention.py:67-72 | A pass over the outbox is a purge step of the publishing half |
| Retention.RetentionIsARun | maintenance/retention.py:67-72 | The whole loop over the outbox is a run of the publishing half |
| Retention.RetentionLosesNothing | maintenance/retention.py:21-38 | From any reachable state, retention keeps every unpublished row, and each row it removes has a copy in the broker's log |
| Retention.YoungRowIsKept | maintenance/retention.py:21-38 | A deletion that begins less than its age after a row was published leaves the row |
| Events.ScoredKeyInjective | apps/consumer/main.py:230-230 | For colon-free versions the scored key determines transaction id and version, even when ids contain colons |
| Events.ScoredKeysEqualIff | apps/consumer/main.py:230-230 | Two scored keys are equal exactly when id and version are, or when one version is some x, a colon and the other version, and the other id is the first id, a colon and x |
| Events.VersionsCollideIff | src/lossguard/schemas.py:14-57 | Over ids of 8 to 64 characters, keys of two versions collide exactly when one is at most 55 characters, a colon and the other |
| Events.RejectedKeyInjective | apps/consumer/main.py:198-200 | The rejected key determines partition and offset |
| Events.KeyFamiliesDisjoint | apps/consumer/main.py:198-230 | No scored key is a rejected key |
| Events.ScoredKeyCollision | src/lossguard/schemas.py:14-14 | Two ids of legal length and the versions blue:v2 and v2 with one key |
| Costs.ExpectedIsMixOfRealized | src/lossguard/costs.py:19-58 | Every expected action cost is the probability-weighted mix of the two realized costs |
| Costs.TwoThresholdsSuffice | src/lossguard/costs.py:19-41 | For every amount, margin and band there are thresholds at which the policy picks a cheapest action at every probability |
| Costs.VerifyBand | src/lossguard/costs.py:19-31 | Verify is a cheapest action at p exactly when p lies between its two crossings |
| ThresholdSearch.OptimizeThresholds | src/lossguard/costs.py:61-98 | Returns the first pair in search order of least total cost with that total, the default when no pair qualifies, an error on empty input |
| ThresholdSearch.SearchIsOptimal | src/lossguard/costs.py:76-98 | The returned total is the scalar total of the returned pair and no qualifying pair costs less |
| ThresholdSearch.VectorIsScalar | src/lossguard/costs.py:83-95 | The array formula equals the sum of realized costs of the chosen actions |
| ThresholdSearch.GridsAreOrderedAndPaired | src/lossguard/costs.py:77-78 | In exact arithmetic both grids increase within (0, 1) and hold a pair with verify below decline |
| ThresholdSearch.GridPoints | src/lossguard/costs.py:77-78 | The 17 and 34 points of the two grids |
| ThresholdSearch.LearnThresholds | ml/train.py:182-216 | The global optimum, and for each category that occurs its own optimum or, with fewer than five frauds, the global thresholds |
| ThresholdSearch.LearnedThresholds | ml/train.py:182-216 | For each category that occurs: with fewer than five frauds the global thresholds, otherwise a pair of the grids that no other pair undercuts on its segment |
| ThresholdSearch.CategoryPolicyNeverWorse | ml/train.py:182-216 | Decisions by the learned thresholds cost on the validation window what the segments cost, each under the thresholds learned for it, and never more than the global optimum |
| ThresholdSearch.PolicyMetrics | ml/train.py:85-121 | Each row is decided by its category's thresholds, or the overall ones when it has none; cost of these decisions, approve-all baseline, savings, the shares of frauds and of other rows intervened on, and the number of each decision |
| Simulator.RaisingDeclineIsLaxer | apps/dashboard/simulation.py:28-82 | Raising the decline threshold never raises declines, false declines or fraud intervened and caught, and never lowers approvals, missed fraud or normal approval value |
| Simulator.SimulationReconciles | apps/dashboard/simulation.py:40-82 | Simulated total equals the scalar model's and missed plus friction; caught plus missed is the exposure; counts add up |
| Simulator.SimulatedCounts | apps/dashboard/simulation.py:40-82 | Each count of a simulation is the number of rows with that label and simulated action |
| Simulator.SimulatedValues | apps/dashboard/simulation.py:40-82 | Caught, missed and normal value are sums over the rows of what each action saves or loses |
| Simulator.VerifyThresholdIsLargest | apps/dashboard/simulation.py:28-28 | The verify threshold is the largest one at most 0.55 of the decline threshold and 0.01 below it, but not under 0.01 |
| Simulator.TotalCostIsNotMonotone | apps/dashboard/simulation.py:47-49 | In any frame, a legitimate row whose action changes pulls the total down, and a fraud above 3 / 0.85 whose action changes pushes it up |
| Simulator.RowCostMoves | apps/dashboard/simulation.py:28-49 | The exact change of a row's cost when the decline threshold is raised, and exactly which rows cost more and which less |
| Simulator.TotalCostMoves | apps/dashboard/simulation.py:28-69 | The change of a frame's total is what its frauds cost more less what its other rows save |
| Simulator.OneSidedFramesAreMonotone | apps/dashboard/simulation.py:28-69 | Without a row that gets dearer the total never rises and falls exactly when some row gets cheaper, and the other way round |
| Analytics.RowBalances | analytics/dbt/models/staging/stg_scored_transactions.sql:29-63 | For a labelled row missed plus friction in SQL is the stored realized cost, and caught plus missed is the exposure |
| Analytics.ThreeFormulasAgree | apps/dashboard/simulation.py:40-69 | Scalar model, simulator and SQL agree on every labelled row, in total and column by column |
| Analytics.DailyMartIsDirect | analytics/dbt/models/marts/mart_daily_segment_kpis.sql:1-23 | One entry per date and category, adding up exactly those rows, of which there is at least one |
| Analytics.DecisionColumns | analytics/dbt/models/marts/mart_daily_segment_kpis.sql:4-11 | Transactions and decisions are counted as numbers of rows |
| Analytics.LabelColumns | analytics/dbt/models/marts/mart_daily_segment_kpis.sql:5-8 | Frauds, interventions, false declines and verified legitimate rows are counted as numbers of labelled rows |
| Analytics.MoneyColumns | analytics/dbt/models/marts/mart_daily_segment_kpis.sql:12-20 | Every money column is the sum of its amount over the rows, a NULL cost counting as zero |
| Analytics.FreshnessIsLatest | analytics/dbt/models/marts/mart_daily_segment_kpis.sql:21-21 | The freshness is the latest processing time of the rows |
| Analytics.DailyFraudsAreNullIff | analytics/dbt/models/marts/mart_daily_segment_kpis.sql:5-5 | The fraud count of a daily entry is NULL exactly when none of its rows is labelled |
| Analytics.DailyAverageIsProbability | analytics/dbt/models/marts/mart_daily_segment_kpis.sql:20-20 | The average probability of an entry exists and lies between 0 and 1 |
| Analytics.SegmentMartIsDirect | analytics/dbt/models/marts/mart_segment_kpis.sql:1-25 | Rolling up daily entries equals adding up the category's rows directly, for every additive column and for freshness |
| Analytics.FalseDeclineRateSkipsUnlabelledDays | analytics/dbt/models/marts/mart_segment_kpis.sql:21-22 | The denominator of the false decline rate is the category's transactions less its frauds less those on days without a label; it equals the difference of the added-up columns exactly when the category has no label or one on each day |
| Analytics.FalseDeclineRateIsDirectIff | analytics/dbt/models/marts/mart_segment_kpis.sql:21-22 | The false decline rate is the rate of the added-up columns exactly when the category has no label, or one on each of its days, or no false decline and a denominator that is not zero |
| Analytics.UnlabelledDayDoublesTheRate | analytics/dbt/models/marts/mart_segment_kpis.sql:21-22 | A declined legitimate payment on one day and an unlabelled one on another: a rate of 1 where the added-up columns make one half |
| Analytics.RatesAreFractions | analytics/dbt/models/marts/mart_segment_kpis.sql:19-22 | Both rates, where they exist, lie between 0 and 1 |
| Analytics.DailyReconcilesIff | analytics/dbt/tests/assert_policy_cost_breakdown_reconciles.sql:1-7 | A daily entry passes the reconciliation test exactly when no row of it is unlabelled and decided verify |
| Analytics.SegmentReconcilesIff | analytics/dbt/models/marts/mart_segment_kpis.sql:12-18 | The same balance and condition after the roll-up |
| Analytics.OneUnlabelledRowFails | analytics/dbt/models/staging/stg_scored_transactions.sql:39-50 | One unlabelled row decided verify makes the test fail |
| EnvFile.ParseEnv | scripts/bootstrap_env.py:17-24 | The lines of the text and the dictionary of its entries, later ones overriding |
| EnvFile.LastDefinitionCounts | scripts/bootstrap_env.py:17-24 | A key has the value of the last line that defines it, and no key is there that no line defines |
| EnvFile.ReplaceValues | scripts/bootstrap_env.py:27-38 | Lines replaced in place, replacements no line mentions appended in their order |
| EnvFile.RewriteOverrides | scripts/bootstrap_env.py:17-38 | Parsing the rewritten text gives the old values overridden by the replacements; each line that sets a replaced key becomes its new entry, and all other lines stay where they were |
| EnvFile.RewriteIsIdempotent | scripts/bootstrap_env.py:27-38 | Rewriting again with the same replacements changes nothing |
| EnvFile.SplitJoin | scripts/bootstrap_env.py:18-38 | Printing and splitting gives the lines back exactly when there is at least one and none contains a line break |
| EnvFile.LinesEndAtBreaks | scripts/bootstrap_env.py:18-18 | Any one break ends a line, CR LF counts as one, and a last line needs none |
| EnvFile.IsCommentIff | scripts/bootstrap_env.py:21-21 | A comment is white space, if any, and then a # |

## Left out

- Publisher.PublishOnce: like Publisher.RunPublisher and Delivery.DrainOutbox, models calls with no other process touching the table during it; interleavings of several publishers, the consumer and retention are covered by `Relay` and `Pipeline`, whose steps are single transactions.
- ConsumerProcess.Consumer.RunLoop: models the consumer with no publisher step between its own; those interleavings are in `Pipeline`. A score outside the configured relation is handled as an invalid contract of the scoring service.
- Intake.ReplayConverges: leaves `processed_at` and explanation columns out of the comparison, as they record when and by whom a row was last touched.
- HTTP, Kafka and database clients, pools, signals and logging: only their outcomes appear.
- The rejected and metrics tables have no conflict key and repeat on a second flush, so only their part in one transaction is modelled; what an alert says is not, only whether it is sent and recorded.
- Retention of the rejected, metrics and drift tables beyond the generic deletion loop, and of report files.
- Model training, calibration, explanations and drift detection: scoring is a relation, probabilities are inputs.
- Floating point and NUMERIC rounding: exact arithmetic throughout; the search takes the two grids as parameters.
- The order of records in the output topics, and any bound on flush latency: the code promises neither. The flush timer appears only as whether a flush is due at a turn.
- Two live members of the consumer group.
- Generating secrets and writing the `.env` file: `EnvFile` covers the text transformation.
