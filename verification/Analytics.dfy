/**
 The dbt models: the per-row cost breakdown re-derived in SQL, the daily mart, and its roll-up.
 A NULL label is None; SQL's CASE takes a branch only when its condition is true, not when it is NULL.
 */
module Analytics {
  import opened Wrappers
  import opened Costs
  import opened Grouping
  import Simulator
  import opened ThresholdSearch

  /** A row of scored_transactions. */
  datatype Row = Row(
    date: int, category: string, amount: real, margin: real, band: Band, fraudLabel: Option<bool>, probability: real,
    decision: Action, realizedCost: Option<real>, baselineCost: Option<real>, savings: Option<real>, processedAt: int)

  predicate Fraud(fraudLabel: Option<bool>) {
    fraudLabel == Some(true)
  }

  /** `not fraud_label` is NULL, hence not true, for an unlabelled row. */
  predicate Legitimate(fraudLabel: Option<bool>) {
    fraudLabel == Some(false)
  }

  /** The scoring service stores costs for labelled rows only. */
  predicate StoredBy(r: Row, baselineAction: Action) {
    if r.fraudLabel.None? then r.realizedCost.None? && r.baselineCost.None? && r.savings.None?
    else
      var realized := RealizedActionCost(r.decision, r.fraudLabel.value, r.amount, r.margin, r.band);
      var baseline := RealizedActionCost(baselineAction, r.fraudLabel.value, r.amount, r.margin, r.band);
      r.realizedCost == Some(realized) && r.baselineCost == Some(baseline) && r.savings == Some(baseline - realized)
  }

  ghost predicate Stored(r: Row) {
    exists a :: StoredBy(r, a)
  }

  function Coalesce(x: Option<real>): real {
    if x.Some? then x.value else 0.0
  }

  function BandCost(band: Band): real {
    match band
    case Low => 15.0
    case Medium => 45.0
    case High => 120.0
  }

  function Caught(r: Row): real {
    if Fraud(r.fraudLabel) && r.decision == Decline then r.amount
    else if Fraud(r.fraudLabel) && r.decision == Verify then r.amount * 0.85
    else 0.0
  }

  function Missed(r: Row): real {
    if Fraud(r.fraudLabel) && r.decision == Approve then r.amount
    else if Fraud(r.fraudLabel) && r.decision == Verify then r.amount * 0.15
    else 0.0
  }

  function Friction(r: Row): real {
    if r.decision == Verify then
      3.0 + if Legitimate(r.fraudLabel) then (r.amount * r.margin + BandCost(r.band)) * 0.08 else 0.0
    else if Legitimate(r.fraudLabel) && r.decision == Decline then r.amount * r.margin + BandCost(r.band)
    else 0.0
  }

  function NormalApproval(r: Row): real {
    if Legitimate(r.fraudLabel) && r.decision == Approve then r.amount else 0.0
  }

  // ------------------------------------------------------------- aggregates

  /**
   The additive columns of the marts, and the freshest processing time. `frauds` sums the labels and is
   NULL when there is none; `probability` is the sum behind the average.
   */
  datatype Sums = Sums(
    count: nat, frauds: Option<int>, intervened: nat, falseDeclines: nat, legitimateVerified: nat,
    approved: nat, verified: nat, declined: nat, unlabelledVerified: nat,
    exposure: real, policyCost: real, baselineCost: real, savings: real,
    caught: real, missed: real, friction: real, normal: real, probability: real, freshness: Option<int>)

  const ZERO: Sums := Sums(0, None, 0, 0, 0, 0, 0, 0, 0, 0.0, 0.0, 0.0, 0.0, 0.0, 0.0, 0.0, 0.0, 0.0, None)

  function One(condition: bool): nat {
    if condition then 1 else 0
  }

  function Latest(a: Option<int>, b: Option<int>): Option<int> {
    if a.None? then b else if b.None? then a else if a.value < b.value then b else a
  }

  /** SUM passes over NULLs; the sum of nothing else is NULL. */
  function AddNull(a: Option<int>, b: Option<int>): Option<int> {
    if a.None? then b else if b.None? then a else Some(a.value + b.value)
  }

  function Add(a: Sums, b: Sums): Sums {
    Sums(a.count + b.count, AddNull(a.frauds, b.frauds), a.intervened + b.intervened, a.falseDeclines + b.falseDeclines,
         a.legitimateVerified + b.legitimateVerified, a.approved + b.approved, a.verified + b.verified,
         a.declined + b.declined, a.unlabelledVerified + b.unlabelledVerified,
         a.exposure + b.exposure, a.policyCost + b.policyCost, a.baselineCost + b.baselineCost, a.savings + b.savings,
         a.caught + b.caught, a.missed + b.missed, a.friction + b.friction, a.normal + b.normal,
         a.probability + b.probability, Latest(a.freshness, b.freshness))
  }

  /** One row's share of every column; `unlabelledVerified` is not in the marts but explains them. */
  function RowSums(r: Row): Sums {
    Sums(1, if r.fraudLabel.None? then None else Some(One(Fraud(r.fraudLabel))), One(Fraud(r.fraudLabel) && r.decision != Approve),
         One(Legitimate(r.fraudLabel) && r.decision == Decline), One(Legitimate(r.fraudLabel) && r.decision == Verify),
         One(r.decision == Approve), One(r.decision == Verify), One(r.decision == Decline),
         One(r.fraudLabel.None? && r.decision == Verify),
         if Fraud(r.fraudLabel) then r.amount else 0.0,
         Coalesce(r.realizedCost), Coalesce(r.baselineCost), Coalesce(r.savings),
         Caught(r), Missed(r), Friction(r), NormalApproval(r), r.probability, Some(r.processedAt))
  }

  const SUMS: Monoid<Sums> := Monoid(Add, ZERO)

  lemma SumsAreLawful()
    ensures Lawful(SUMS)
  {
    forall a: Sums, b: Sums, c: Sums ensures Add(Add(a, b), c) == Add(a, Add(b, c)) {
    }
    forall a: Sums, b: Sums ensures Add(a, b) == Add(b, a) && Add(a, ZERO) == a {
    }
  }

  function Day(r: Row): (int, string) {
    (r.date, r.category)
  }

  /** The daily mart: rows grouped by date and category. */
  function DailyMart(rows: seq<Row>): seq<((int, string), Sums)> {
    GroupBy(SUMS, rows, Day, RowSums)
  }

  function CategoryOf(entry: ((int, string), Sums)): string {
    entry.0.1
  }

  /** The segment mart: the daily mart's entries grouped by category alone. */
  function SegmentMart(rows: seq<Row>): seq<(string, Sums)> {
    GroupBy(SUMS, DailyMart(rows), CategoryOf, Value)
  }

  /** The columns added up over chosen rows, without any grouping. */
  function Direct(rows: seq<Row>, chosen: Row -> bool): Sums {
    SumWhere(SUMS, rows, chosen, RowSums)
  }

  // ------------------------------------------------------------ main results

  lemma {:induction false} DirectCounts(rows: seq<Row>, chosen: Row -> bool)
    ensures Direct(rows, chosen).count > 0 <==> exists j | 0 <= j < |rows| :: chosen(rows[j])
    ensures Direct(rows, chosen).frauds.Some? <==> exists j | 0 <= j < |rows| :: chosen(rows[j]) && rows[j].fraudLabel.Some?
    decreases |rows|
  {
    if rows != [] {
      var k := |rows| - 1;
      DirectCounts(rows[..k], chosen);
      assert Direct(rows, chosen) == Add(Direct(rows[..k], chosen), if chosen(rows[k]) then RowSums(rows[k]) else ZERO);
      assert forall j | 0 <= j < k :: rows[..k][j] == rows[j];
    }
  }

  // ------------------------------------------------- what each column means

  function Where(rows: seq<Row>, chosen: Row -> bool): set<nat> {
    set i: nat | i < |rows| && chosen(rows[i])
  }

  lemma CountWhere(rows: seq<Row>, chosen: Row -> bool)
    ensures rows != [] ==>
      |Where(rows, chosen)| == |Where(rows[..|rows| - 1], chosen)| + One(chosen(rows[|rows| - 1]))
    ensures rows == [] ==> |Where(rows, chosen)| == 0
  {
    if rows == [] {
      assert Where(rows, chosen) == {};
    } else {
      var k := |rows| - 1;
      assert Where(rows, chosen) == Where(rows[..k], chosen) + if chosen(rows[k]) then {k} else {};
    }
  }

  /** The counts of transactions and decisions are numbers of rows. */
  lemma {:induction false} DecisionColumns(rows: seq<Row>, chosen: Row -> bool)
    ensures var s := Direct(rows, chosen);
      && s.count == |Where(rows, chosen)|
      && s.approved == |Where(rows, (r: Row) => chosen(r) && r.decision == Approve)|
      && s.verified == |Where(rows, (r: Row) => chosen(r) && r.decision == Verify)|
      && s.declined == |Where(rows, (r: Row) => chosen(r) && r.decision == Decline)|
    decreases |rows|
  {
    CountWhere(rows, chosen);
    CountWhere(rows, (r: Row) => chosen(r) && r.decision == Approve);
    CountWhere(rows, (r: Row) => chosen(r) && r.decision == Verify);
    CountWhere(rows, (r: Row) => chosen(r) && r.decision == Decline);
    if rows != [] {
      var k := |rows| - 1;
      DecisionColumns(rows[..k], chosen);
      assert Direct(rows, chosen) == Add(Direct(rows[..k], chosen), if chosen(rows[k]) then RowSums(rows[k]) else ZERO);
    }
  }

  /** The counts of frauds, interventions and false declines are numbers of labelled rows. */
  lemma {:induction false} LabelColumns(rows: seq<Row>, chosen: Row -> bool)
    ensures var s := Direct(rows, chosen);
      && OrZero(s.frauds) == |Where(rows, (r: Row) => chosen(r) && r.fraudLabel == Some(true))|
      && s.intervened == |Where(rows, (r: Row) => chosen(r) && r.fraudLabel == Some(true) && r.decision != Approve)|
      && s.falseDeclines == |Where(rows, (r: Row) => chosen(r) && r.fraudLabel == Some(false) && r.decision == Decline)|
      && s.legitimateVerified == |Where(rows, (r: Row) => chosen(r) && r.fraudLabel == Some(false) && r.decision == Verify)|
    decreases |rows|
  {
    CountWhere(rows, (r: Row) => chosen(r) && r.fraudLabel == Some(true));
    CountWhere(rows, (r: Row) => chosen(r) && r.fraudLabel == Some(true) && r.decision != Approve);
    CountWhere(rows, (r: Row) => chosen(r) && r.fraudLabel == Some(false) && r.decision == Decline);
    CountWhere(rows, (r: Row) => chosen(r) && r.fraudLabel == Some(false) && r.decision == Verify);
    if rows != [] {
      var k := |rows| - 1;
      LabelColumns(rows[..k], chosen);
      assert Direct(rows, chosen) == Add(Direct(rows[..k], chosen), if chosen(rows[k]) then RowSums(rows[k]) else ZERO);
    }
  }

  function SumOf(rows: seq<Row>, chosen: Row -> bool, amount: Row -> real): real {
    if rows == [] then 0.0
    else
      var last := rows[|rows| - 1];
      SumOf(rows[..|rows| - 1], chosen, amount) + if chosen(last) then amount(last) else 0.0
  }

  /** The money columns are sums over rows; a stored cost that is NULL counts as zero. */
  lemma {:induction false} MoneyColumns(rows: seq<Row>, chosen: Row -> bool)
    ensures var s := Direct(rows, chosen);
      && s.exposure == SumOf(rows, chosen, (r: Row) => if r.fraudLabel == Some(true) then r.amount else 0.0)
      && s.policyCost == SumOf(rows, chosen, (r: Row) => if r.realizedCost.Some? then r.realizedCost.value else 0.0)
      && s.baselineCost == SumOf(rows, chosen, (r: Row) => if r.baselineCost.Some? then r.baselineCost.value else 0.0)
      && s.savings == SumOf(rows, chosen, (r: Row) => if r.savings.Some? then r.savings.value else 0.0)
      && s.caught == SumOf(rows, chosen, Caught) && s.missed == SumOf(rows, chosen, Missed)
      && s.friction == SumOf(rows, chosen, Friction)
      && s.normal == SumOf(rows, chosen, (r: Row) => if r.fraudLabel == Some(false) && r.decision == Approve then r.amount else 0.0)
      && s.probability == SumOf(rows, chosen, (r: Row) => r.probability)
    decreases |rows|
  {
    if rows != [] {
      var k := |rows| - 1;
      MoneyColumns(rows[..k], chosen);
      assert Direct(rows, chosen) == Add(Direct(rows[..k], chosen), if chosen(rows[k]) then RowSums(rows[k]) else ZERO);
    }
  }

  /** The freshness is the latest processing time of the rows, where there are any. */
  lemma {:induction false} FreshnessIsLatest(rows: seq<Row>, chosen: Row -> bool)
    ensures var f := Direct(rows, chosen).freshness;
      && (f.Some? <==> exists i | 0 <= i < |rows| :: chosen(rows[i]))
      && (f.Some? ==> exists i | 0 <= i < |rows| :: chosen(rows[i]) && rows[i].processedAt == f.value)
      && (forall i | 0 <= i < |rows| && chosen(rows[i]) :: f.Some? && rows[i].processedAt <= f.value)
    decreases |rows|
  {
    if rows != [] {
      var k := |rows| - 1;
      FreshnessIsLatest(rows[..k], chosen);
      assert Direct(rows, chosen) == Add(Direct(rows[..k], chosen), if chosen(rows[k]) then RowSums(rows[k]) else ZERO);
      assert forall i | 0 <= i < k :: rows[..k][i] == rows[i];
    }
  }

  /** AVG over the rows of an entry. */
  function AverageProbability(s: Sums): real
    requires s.count > 0
  {
    s.probability / s.count as real
  }

  /**
   Each (date, category) has one daily entry; it adds up exactly that day's rows of that category, of
   which there is at least one, so its average exists.
   */
  lemma DailyMartIsDirect(rows: seq<Row>, i: nat)
    requires i < |DailyMart(rows)|
    ensures KeysDistinct(DailyMart(rows))
    ensures var e := DailyMart(rows)[i]; e.1 == Direct(rows, (r: Row) => Day(r) == e.0) && e.1.count > 0
  {
    SumsAreLawful();
    GroupKeys(SUMS, rows, Day, RowSums);
    var e := DailyMart(rows)[i];
    EntryIsDirect(SUMS, rows, Day, RowSums, i, (r: Row) => Day(r) == e.0);
    assert HasKey(DailyMart(rows), e.0);
    DirectCounts(rows, (r: Row) => Day(r) == e.0);
  }

  /**
   Rolling the daily mart up to categories loses nothing: each category has one entry, and every
   column of it adds up the category's rows directly.
   */
  lemma SegmentMartIsDirect(rows: seq<Row>, i: nat)
    requires i < |SegmentMart(rows)|
    ensures KeysDistinct(SegmentMart(rows))
    ensures var e := SegmentMart(rows)[i]; e.1 == Direct(rows, (r: Row) => r.category == e.0)
  {
    SumsAreLawful();
    GroupKeys(SUMS, DailyMart(rows), CategoryOf, Value);
    var e := SegmentMart(rows)[i];
    RollUpIsDirect(SUMS, rows, Day, RowSums, CategoryOf, (day: (int, string)) => day.1, i, (r: Row) => r.category == e.0);
  }

  lemma {:induction false} DirectProbability(rows: seq<Row>, chosen: Row -> bool)
    requires forall j | 0 <= j < |rows| :: 0.0 <= rows[j].probability <= 1.0
    ensures 0.0 <= Direct(rows, chosen).probability <= Direct(rows, chosen).count as real
    decreases |rows|
  {
    if rows != [] {
      var k := |rows| - 1;
      DirectProbability(rows[..k], chosen);
      assert Direct(rows, chosen) == Add(Direct(rows[..k], chosen), if chosen(rows[k]) then RowSums(rows[k]) else ZERO);
    }
  }

  /** The daily average of probabilities is a probability. */
  lemma DailyAverageIsProbability(rows: seq<Row>, i: nat)
    requires i < |DailyMart(rows)| && forall j | 0 <= j < |rows| :: 0.0 <= rows[j].probability <= 1.0
    ensures var s := DailyMart(rows)[i].1; s.count > 0 && 0.0 <= AverageProbability(s) <= 1.0
  {
    var e := DailyMart(rows)[i];
    DailyMartIsDirect(rows, i);
    DirectProbability(rows, (r: Row) => Day(r) == e.0);
    QuotientCompare(0.0, e.1.probability, e.1.count as real);
    QuotientCompare(1.0, e.1.probability, e.1.count as real);
  }

  // ------------------------------------------------------------- the rates

  /** Division by NULLIF(n, 0). */
  function Rate(part: int, whole: Option<int>): Option<real> {
    if whole.None? || whole.value == 0 then None else Some(part as real / whole.value as real)
  }

  /** fraud_intervention_rate */
  function InterventionRate(s: Sums): Option<real> {
    Rate(s.intervened, s.frauds)
  }

  /** transaction_count - fraud_transaction_count, NULL when there is no label. */
  function NonFraud(s: Sums): Option<int> {
    if s.frauds.None? then None else Some(s.count - s.frauds.value)
  }

  const COUNTS: Monoid<Option<int>> := Monoid(AddNull, None)

  /** What the segment mart divides by: the daily differences added up, days without a label passed over. */
  function SegmentNonFraud(days: seq<((int, string), Sums)>, category: string): Option<int> {
    SumWhere(COUNTS, days, (e: ((int, string), Sums)) => CategoryOf(e) == category, (e: ((int, string), Sums)) => NonFraud(e.1))
  }

  /** false_decline_rate */
  function FalseDeclineRate(rows: seq<Row>, i: nat): Option<real>
    requires i < |SegmentMart(rows)|
  {
    Rate(SegmentMart(rows)[i].1.falseDeclines, SegmentNonFraud(DailyMart(rows), SegmentMart(rows)[i].0))
  }

  /** How many of the category's transactions fall on days without any label. */
  function Unseen(days: seq<((int, string), Sums)>, category: string): nat {
    if days == [] then 0
    else
      var last := days[|days| - 1];
      Unseen(days[..|days| - 1], category) + if CategoryOf(last) == category && last.1.frauds.None? then last.1.count else 0
  }

  lemma {:induction false} NonFraudOfDays(days: seq<((int, string), Sums)>, category: string)
    ensures var total := SumWhere(SUMS, days, (e: ((int, string), Sums)) => CategoryOf(e) == category, Value);
      SegmentNonFraud(days, category) ==
        if total.frauds.None? then None else Some(total.count - total.frauds.value - Unseen(days, category))
    ensures var total := SumWhere(SUMS, days, (e: ((int, string), Sums)) => CategoryOf(e) == category, Value);
      total.frauds.None? ==> Unseen(days, category) == total.count
    decreases |days|
  {
    if days != [] {
      var init, last := days[..|days| - 1], days[|days| - 1];
      var inCategory := (e: ((int, string), Sums)) => CategoryOf(e) == category;
      NonFraudOfDays(init, category);
      var share := if inCategory(last) then last.1 else ZERO;
      assert SumWhere(SUMS, days, inCategory, Value) == Add(SumWhere(SUMS, init, inCategory, Value), share);
      assert SegmentNonFraud(days, category)
        == AddNull(SegmentNonFraud(init, category), if inCategory(last) then NonFraud(last.1) else None);
    }
  }

  lemma {:induction false} UnseenIsNone(days: seq<((int, string), Sums)>, category: string)
    requires forall i | 0 <= i < |days| :: days[i].1.count > 0
    ensures Unseen(days, category) == 0 <==>
      forall i | 0 <= i < |days| && CategoryOf(days[i]) == category :: days[i].1.frauds.Some?
    decreases |days|
  {
    if days != [] {
      var k := |days| - 1;
      UnseenIsNone(days[..k], category);
      assert forall i | 0 <= i < k :: days[..k][i] == days[i];
    }
  }

  lemma SegmentTotal(rows: seq<Row>, i: nat)
    requires i < |SegmentMart(rows)|
    ensures var (category, total) := SegmentMart(rows)[i];
      total == SumWhere(SUMS, DailyMart(rows), (e: ((int, string), Sums)) => CategoryOf(e) == category, Value)
  {
    SumsAreLawful();
    var category := SegmentMart(rows)[i].0;
    EntryIsDirect(SUMS, DailyMart(rows), CategoryOf, Value, i, (e: ((int, string), Sums)) => CategoryOf(e) == category);
  }

  /**
   The false decline rate divides by the category's transactions not known to be fraud, except those on
   days without a single label; so its denominator is the difference of the added-up columns exactly when
   the category has no label at all or one on each of its days.
   */
  lemma FalseDeclineRateSkipsUnlabelledDays(rows: seq<Row>, i: nat)
    requires i < |SegmentMart(rows)|
    ensures var (category, total) := SegmentMart(rows)[i]; var days := DailyMart(rows);
      && SegmentNonFraud(days, category) ==
           (if total.frauds.None? then None else Some(total.count - total.frauds.value - Unseen(days, category)))
      && (SegmentNonFraud(days, category) == NonFraud(total) <==>
           total.frauds.None? || forall k | 0 <= k < |days| && CategoryOf(days[k]) == category :: days[k].1.frauds.Some?)
  {
    var days, category := DailyMart(rows), SegmentMart(rows)[i].0;
    SegmentTotal(rows, i);
    NonFraudOfDays(days, category);
    forall k | 0 <= k < |days| ensures days[k].1.count > 0 {
      DailyMartIsDirect(rows, k);
    }
    UnseenIsNone(days, category);
  }

  predicate Fraction(rate: Option<real>) {
    rate.Some? ==> 0.0 <= rate.value <= 1.0
  }

  lemma RateIsFraction(part: nat, whole: Option<int>)
    requires part <= OrZero(whole)
    ensures Fraction(Rate(part, whole))
  {
    if whole.Some? && whole.value != 0 {
      QuotientCompare(0.0, part as real, whole.value as real);
      QuotientCompare(1.0, part as real, whole.value as real);
    }
  }

  /** Both rates of the segment mart lie between 0 and 1, even where days are passed over. */
  lemma RatesAreFractions(rows: seq<Row>, i: nat)
    requires i < |SegmentMart(rows)|
    ensures Fraction(InterventionRate(SegmentMart(rows)[i].1)) && Fraction(FalseDeclineRate(rows, i))
  {
    var (category, total) := SegmentMart(rows)[i];
    SegmentShares(rows, i);
    RateIsFraction(total.intervened, total.frauds);
    RateIsFraction(total.falseDeclines, SegmentNonFraud(DailyMart(rows), category));
  }

  function OrZero(x: Option<int>): int {
    if x.Some? then x.value else 0
  }

  /** What the rates divide is part of what they divide by. */
  ghost predicate Shares(s: Sums, nonFraud: Option<int>) {
    s.intervened <= OrZero(s.frauds) && s.falseDeclines <= OrZero(nonFraud)
  }

  lemma {:induction false} DirectShares(rows: seq<Row>, chosen: Row -> bool)
    ensures var s := Direct(rows, chosen); Shares(s, NonFraud(s)) && (s.frauds.Some? ==> s.frauds.value <= s.count)
    decreases |rows|
  {
    if rows != [] {
      var k := |rows| - 1;
      DirectShares(rows[..k], chosen);
      assert Direct(rows, chosen) == Add(Direct(rows[..k], chosen), if chosen(rows[k]) then RowSums(rows[k]) else ZERO);
    }
  }

  lemma {:induction false} DaysShare(days: seq<((int, string), Sums)>, category: string)
    requires forall k | 0 <= k < |days| :: Shares(days[k].1, NonFraud(days[k].1))
    ensures var total := SumWhere(SUMS, days, (e: ((int, string), Sums)) => CategoryOf(e) == category, Value);
      Shares(total, SegmentNonFraud(days, category))
    decreases |days|
  {
    if days != [] {
      var init, last := days[..|days| - 1], days[|days| - 1];
      var inCategory := (e: ((int, string), Sums)) => CategoryOf(e) == category;
      DaysShare(init, category);
      assert SumWhere(SUMS, days, inCategory, Value)
        == Add(SumWhere(SUMS, init, inCategory, Value), if inCategory(last) then last.1 else ZERO);
      assert SegmentNonFraud(days, category)
        == AddNull(SegmentNonFraud(init, category), if inCategory(last) then NonFraud(last.1) else None);
    }
  }

  lemma SegmentShares(rows: seq<Row>, i: nat)
    requires i < |SegmentMart(rows)|
    ensures var (category, total) := SegmentMart(rows)[i]; Shares(total, SegmentNonFraud(DailyMart(rows), category))
  {
    var days, category := DailyMart(rows), SegmentMart(rows)[i].0;
    forall k | 0 <= k < |days| ensures Shares(days[k].1, NonFraud(days[k].1)) {
      DailyMartIsDirect(rows, k);
      DirectShares(rows, (r: Row) => Day(r) == days[k].0);
    }
    SegmentTotal(rows, i);
    DaysShare(days, category);
  }

  /** The rate of the added-up columns, which the mart could have divided instead. */
  function DirectFalseDeclineRate(s: Sums): Option<real> {
    Rate(s.falseDeclines, NonFraud(s))
  }

  lemma SameQuotientIff(part: nat, small: int, large: int)
    requires part <= small < large
    ensures Rate(part, Some(small)) == Rate(part, Some(large)) <==> part == 0 && small != 0
  {
    if part > 0 {
      var q, r := part as real / small as real, part as real / large as real;
      assert q * small as real == part as real && r * large as real == part as real;
      QuotientCompare(r, part as real, small as real);
      assert r > 0.0 by {
        QuotientCompare(0.0, part as real, large as real);
      }
      assert r * small as real < r * large as real;
    }
  }

  /**
   When it matters: the false decline rate is the rate of the added-up columns exactly when the category
   has no label at all, or one on each of its days, or no false decline and yet a denominator.
   */
  lemma FalseDeclineRateIsDirectIff(rows: seq<Row>, i: nat)
    requires i < |SegmentMart(rows)|
    ensures var (category, total) := SegmentMart(rows)[i]; var days := DailyMart(rows);
      FalseDeclineRate(rows, i) == DirectFalseDeclineRate(total) <==>
        || total.frauds.None?
        || (forall k | 0 <= k < |days| && CategoryOf(days[k]) == category :: days[k].1.frauds.Some?)
        || (total.falseDeclines == 0 && SegmentNonFraud(days, category) != Some(0))
  {
    var days, category, total := DailyMart(rows), SegmentMart(rows)[i].0, SegmentMart(rows)[i].1;
    FalseDeclineRateSkipsUnlabelledDays(rows, i);
    SegmentShares(rows, i);
    var seen := SegmentNonFraud(days, category);
    if seen != NonFraud(total) {
      SameQuotientIff(total.falseDeclines, seen.value, NonFraud(total).value);
    }
  }

  lemma TwoDays(a: Row, b: Row)
    requires a.category == b.category && a.date != b.date
    ensures DailyMart([a, b]) == [(Day(b), RowSums(b)), (Day(a), RowSums(a))]
    ensures SegmentMart([a, b]) == [(a.category, Add(RowSums(b), RowSums(a)))]
  {
    GroupOneMore(SUMS, [], a, Day, RowSums);
    GroupOneMore(SUMS, [a], b, Day, RowSums);
    assert [] + [a] == [a] && [a] + [b] == [a, b];
    assert DailyMart([a]) == [(Day(a), RowSums(a))];
    var first, second := (Day(b), RowSums(b)), (Day(a), RowSums(a));
    assert [second][..0] == [];
    assert DailyMart([a, b]) == [first, second];
    GroupOneMore(SUMS, [], first, CategoryOf, Value);
    GroupOneMore(SUMS, [first], second, CategoryOf, Value);
    assert [] + [first] == [first] && [first] + [second] == [first, second];
    assert GroupBy(SUMS, [first], CategoryOf, Value) == [(a.category, RowSums(b))];
    assert [(a.category, RowSums(b))][..0] == [];
  }

  /**
   Where the two differ: one legitimate payment declined on one day and one unlabelled payment of the same
   category on another make a rate of 1, where the added-up columns make one half.
   */
  lemma UnlabelledDayDoublesTheRate(declined: Row, unlabelled: Row)
    requires declined.fraudLabel == Some(false) && declined.decision == Decline && unlabelled.fraudLabel.None?
    requires declined.category == unlabelled.category && declined.date != unlabelled.date
    ensures var rows := [declined, unlabelled];
      && |SegmentMart(rows)| == 1
      && FalseDeclineRate(rows, 0) == Some(1.0) && DirectFalseDeclineRate(SegmentMart(rows)[0].1) == Some(0.5)
  {
    var rows := [declined, unlabelled];
    TwoDays(declined, unlabelled);
    var days := DailyMart(rows);
    assert days[..1] == [days[0]] && [days[0]][..0] == [];
    assert Unseen([days[0]], declined.category) == 1;
    assert Unseen(days, declined.category) == 1;
    FalseDeclineRateSkipsUnlabelledDays(rows, 0);
  }

  /** A daily entry counts its frauds exactly when one of its rows is labelled; otherwise the count is NULL. */
  lemma DailyFraudsAreNullIff(rows: seq<Row>, i: nat)
    requires i < |DailyMart(rows)|
    ensures DailyMart(rows)[i].1.frauds.None? <==>
      forall j | 0 <= j < |rows| && Day(rows[j]) == DailyMart(rows)[i].0 :: rows[j].fraudLabel.None?
  {
    var e := DailyMart(rows)[i];
    DailyMartIsDirect(rows, i);
    DirectCounts(rows, (r: Row) => Day(r) == e.0);
  }

  // ------------------------------------------------------- reconciliation

  /** The relations between columns that hold of every row, hence of every sum of rows. */
  ghost predicate Balanced(s: Sums) {
    && s.policyCost == s.missed + s.friction - 3.0 * s.unlabelledVerified as real
    && s.caught + s.missed == s.exposure
    && s.savings == s.baselineCost - s.policyCost
    && s.approved + s.verified + s.declined == s.count
  }

  /** The columns of a labelled row under each decision, as in the scalar model. */
  lemma LabelledBreakdown(r: Row)
    requires r.fraudLabel.Some?
    ensures Missed(r) + Friction(r) == RealizedActionCost(r.decision, r.fraudLabel.value, r.amount, r.margin, r.band)
    ensures Caught(r) + Missed(r) == if r.fraudLabel.value then r.amount else 0.0
  {
    assert ReacquisitionCost(r.band) == BandCost(r.band);
    assert 1.0 - VERIFY_FRAUD_DETECTION_RATE == 0.15;
  }

  /** The SQL breakdown against the stored scalar cost, row by row. */
  lemma RowBalances(r: Row)
    requires Stored(r)
    ensures Balanced(RowSums(r))
    ensures r.fraudLabel.Some? ==>
      Missed(r) + Friction(r) == RealizedActionCost(r.decision, r.fraudLabel.value, r.amount, r.margin, r.band)
  {
    var a :| StoredBy(r, a);
    if r.fraudLabel.Some? {
      LabelledBreakdown(r);
    }
  }

  lemma BalanceAdds(a: Sums, b: Sums)
    requires Balanced(a) && Balanced(b)
    ensures Balanced(Add(a, b))
  {
  }

  lemma {:induction false} DirectBalances(rows: seq<Row>, chosen: Row -> bool)
    requires forall i | 0 <= i < |rows| :: Stored(rows[i])
    ensures Balanced(Direct(rows, chosen))
    decreases |rows|
  {
    if rows != [] {
      var init, last := rows[..|rows| - 1], rows[|rows| - 1];
      DirectBalances(init, chosen);
      RowBalances(last);
      BalanceAdds(Direct(init, chosen), if chosen(last) then RowSums(last) else ZERO);
    }
  }

  predicate UnlabelledVerified(r: Row) {
    r.fraudLabel.None? && r.decision == Verify
  }

  lemma {:induction false} CountsUnlabelled(rows: seq<Row>, chosen: Row -> bool)
    ensures Direct(rows, chosen).unlabelledVerified == 0 <==>
      forall j | 0 <= j < |rows| && chosen(rows[j]) :: !UnlabelledVerified(rows[j])
    decreases |rows|
  {
    if rows != [] {
      var k := |rows| - 1;
      var share := if chosen(rows[k]) then RowSums(rows[k]) else ZERO;
      CountsUnlabelled(rows[..k], chosen);
      assert Direct(rows, chosen) == Add(Direct(rows[..k], chosen), share);
      assert share.unlabelledVerified == One(chosen(rows[k]) && UnlabelledVerified(rows[k]));
      assert forall j | 0 <= j < k :: rows[..k][j] == rows[j];
    }
  }

  /** The daily mart's own reconciliation test, to two cents. */
  ghost predicate Reconciles(s: Sums) {
    -0.02 <= s.policyCost - (s.missed + s.friction) <= 0.02
  }

  /**
   The reconciliation test on a daily entry passes exactly when none of its rows is unlabelled and
   verified: such a row adds the operation cost to friction while its policy cost counts as zero.
   */
  lemma DailyReconcilesIff(rows: seq<Row>, i: nat)
    requires (forall j | 0 <= j < |rows| :: Stored(rows[j])) && i < |DailyMart(rows)|
    ensures Balanced(DailyMart(rows)[i].1)
    ensures Reconciles(DailyMart(rows)[i].1) <==>
      forall j | 0 <= j < |rows| && Day(rows[j]) == DailyMart(rows)[i].0 :: !UnlabelledVerified(rows[j])
  {
    var e := DailyMart(rows)[i];
    var chosen := (r: Row) => Day(r) == e.0;
    DailyMartIsDirect(rows, i);
    DirectBalances(rows, chosen);
    CountsUnlabelled(rows, chosen);
  }

  /** The same balance holds after the roll-up. */
  lemma SegmentReconcilesIff(rows: seq<Row>, i: nat)
    requires (forall j | 0 <= j < |rows| :: Stored(rows[j])) && i < |SegmentMart(rows)|
    ensures Balanced(SegmentMart(rows)[i].1)
    ensures Reconciles(SegmentMart(rows)[i].1) <==>
      forall j | 0 <= j < |rows| && rows[j].category == SegmentMart(rows)[i].0 :: !UnlabelledVerified(rows[j])
  {
    var e := SegmentMart(rows)[i];
    var chosen := (r: Row) => r.category == e.0;
    SegmentMartIsDirect(rows, i);
    DirectBalances(rows, chosen);
    CountsUnlabelled(rows, chosen);
  }

  /** One unlabelled row sent to verification is enough to fail the test. */
  lemma OneUnlabelledRowFails(r: Row)
    requires Stored(r) && UnlabelledVerified(r)
    ensures |DailyMart([r])| == 1 && !Reconciles(DailyMart([r])[0].1)
  {
    assert [r][..0] == [];
    assert DailyMart([r]) == AddTo(SUMS, GroupBy(SUMS, [r][..0], Day, RowSums), Day(r), RowSums(r));
    DailyReconcilesIff([r], 0);
    assert Day([r][0]) == DailyMart([r])[0].0;
  }

  /** The simulated row as the scoring service would have stored it under the simulator's decision. */
  function SimulatedRow(t: Transaction, decline: real, date: int, processedAt: int): Row {
    var decision := ActionForProbability(t.probability, Simulator.VerifyThreshold(decline), decline);
    var cost := RealizedActionCost(decision, t.fraud, t.amount, t.margin, t.band);
    Row(date, t.category, t.amount, t.margin, t.band, Some(t.fraud), t.probability, decision,
        Some(cost), Some(cost), Some(cost - cost), processedAt)
  }

  /** Scalar model, simulator and SQL agree on every labelled row, in total and column by column. */
  lemma ThreeFormulasAgree(t: Transaction, decline: real, date: int, processedAt: int)
    ensures var r, o := SimulatedRow(t, decline, date, processedAt), Simulator.RowOutcome(t, decline);
      && r.realizedCost == Some(o.total) && o.total == Missed(r) + Friction(r)
      && o.caught == Caught(r) && o.missed == Missed(r) && o.friction == Friction(r) && o.normal == NormalApproval(r)
      && o.fraudIntervened == RowSums(r).intervened && o.falseDeclines == RowSums(r).falseDeclines
      && o.approved == RowSums(r).approved && o.verified == RowSums(r).verified && o.declined == RowSums(r).declined
  {
    assert [t][..0] == [];
    Simulator.SimulationReconciles([t], decline);
    var r := SimulatedRow(t, decline, date, processedAt);
    assert StoredBy(r, r.decision);
    RowBalances(r);
  }
}
