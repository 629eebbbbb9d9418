/** The grid search for thresholds, the thresholds per category, and the policy they make. */
module ThresholdSearch {
  import opened Wrappers
  import opened Costs

  datatype Transaction = Transaction(
    probability: real, fraud: bool, amount: real, margin: real, band: Band, category: string)

  datatype Thresholds = Thresholds(verify: real, decline: real)

  function Cost(t: Transaction, th: Thresholds): real {
    RealizedActionCost(ActionForProbability(t.probability, th.verify, th.decline), t.fraud, t.amount, t.margin, t.band)
  }

  function Total(rows: seq<Transaction>, th: Thresholds): real {
    if rows == [] then 0.0 else Total(rows[..|rows| - 1], th) + Cost(rows[|rows| - 1], th)
  }

  // ------------------------------------------------------- array arithmetic

  function Sum(xs: seq<real>): real {
    if xs == [] then 0.0 else Sum(xs[..|xs| - 1]) + xs[|xs| - 1]
  }

  function Decisions(rows: seq<Transaction>, th: Thresholds): seq<nat> {
    seq(|rows|, i requires 0 <= i < |rows| =>
      if rows[i].probability >= th.decline then 2 else if rows[i].probability >= th.verify then 1 else 0)
  }

  function Friction(rows: seq<Transaction>): seq<real> {
    seq(|rows|, i requires 0 <= i < |rows| => rows[i].amount * rows[i].margin + ReacquisitionCost(rows[i].band))
  }

  function ApproveCosts(rows: seq<Transaction>): seq<real> {
    seq(|rows|, i requires 0 <= i < |rows| => if rows[i].fraud then rows[i].amount else 0.0)
  }

  function VerifyCosts(rows: seq<Transaction>): seq<real> {
    var friction := Friction(rows);
    seq(|rows|, i requires 0 <= i < |rows| =>
      VERIFY_OPERATION_COST
      + if rows[i].fraud then rows[i].amount * (1.0 - VERIFY_FRAUD_DETECTION_RATE)
        else friction[i] * VERIFY_LEGIT_ABANDONMENT_RATE)
  }

  function DeclineCosts(rows: seq<Transaction>): seq<real> {
    var friction := Friction(rows);
    seq(|rows|, i requires 0 <= i < |rows| => if rows[i].fraud then 0.0 else friction[i])
  }

  function Choose(decisions: seq<nat>, approve: seq<real>, verify: seq<real>, decline: seq<real>): seq<real>
    requires |decisions| == |approve| == |verify| == |decline|
  {
    seq(|decisions|, i requires 0 <= i < |decisions| =>
      if decisions[i] == 0 then approve[i] else if decisions[i] == 1 then verify[i] else decline[i])
  }

  function VectorTotal(rows: seq<Transaction>, th: Thresholds): real {
    Sum(Choose(Decisions(rows, th), ApproveCosts(rows), VerifyCosts(rows), DeclineCosts(rows)))
  }

  lemma {:induction false} SumIsTotal(xs: seq<real>, rows: seq<Transaction>, th: Thresholds)
    requires |xs| == |rows| && forall i | 0 <= i < |rows| :: xs[i] == Cost(rows[i], th)
    ensures Sum(xs) == Total(rows, th)
    decreases |rows|
  {
    if rows != [] {
      SumIsTotal(xs[..|rows| - 1], rows[..|rows| - 1], th);
    }
  }

  /** The array formula and the scalar one agree on every input. */
  lemma VectorIsScalar(rows: seq<Transaction>, th: Thresholds)
    ensures VectorTotal(rows, th) == Total(rows, th)
  {
    SumIsTotal(Choose(Decisions(rows, th), ApproveCosts(rows), VerifyCosts(rows), DeclineCosts(rows)), rows, th);
  }

  // ------------------------------------------------------------ grid search

  ghost predicate ValidPair(vs: seq<real>, ds: seq<real>, i: int, j: int) {
    0 <= i < |vs| && 0 <= j < |ds| && vs[i] < ds[j]
  }

  ghost predicate Before(i: int, j: int, i': int, j': int) {
    i < i' || (i == i' && j < j')
  }

  /** The pair at (i, j) is the first of least cost among the pairs before (n, m), in search order. */
  ghost predicate BestSoFar(rows: seq<Transaction>, vs: seq<real>, ds: seq<real>, i: int, j: int, n: int, m: int) {
    && ValidPair(vs, ds, i, j) && Before(i, j, n, m)
    && forall i', j' | ValidPair(vs, ds, i', j') && Before(i', j', n, m) ::
         var mine, other := Total(rows, Thresholds(vs[i], ds[j])), Total(rows, Thresholds(vs[i'], ds[j']));
         mine <= other && (Before(i', j', i, j) ==> mine < other)
  }

  ghost predicate NonePaired(vs: seq<real>, ds: seq<real>, n: int, m: int) {
    forall i, j | ValidPair(vs, ds, i, j) :: !Before(i, j, n, m)
  }

  /** A total of None is the initial infinity. */
  datatype Found = Found(thresholds: Thresholds, total: Option<real>)

  ghost predicate Searched(rows: seq<Transaction>, vs: seq<real>, ds: seq<real>, best: Found, i: int, j: int, n: int, m: int) {
    if best.total.None? then best.thresholds == Thresholds(0.15, 0.50) && NonePaired(vs, ds, n, m)
    else
      && BestSoFar(rows, vs, ds, i, j, n, m)
      && best.thresholds == Thresholds(vs[i], ds[j]) && best.total.value == Total(rows, best.thresholds)
  }

  lemma SearchStep(rows: seq<Transaction>, vs: seq<real>, ds: seq<real>, best: Found, i: int, j: int, n: int, m: int, next: Found)
    requires Searched(rows, vs, ds, best, i, j, n, m) && 0 <= n < |vs| && 0 <= m < |ds|
    requires vs[n] >= ds[m] ==> next == best
    requires vs[n] < ds[m] ==>
      var th := Thresholds(vs[n], ds[m]); var total := Total(rows, th);
      next == if best.total.None? || total < best.total.value then Found(th, Some(total)) else best
    ensures next == best ==> Searched(rows, vs, ds, next, i, j, n, m + 1)
    ensures next != best ==> Searched(rows, vs, ds, next, n, m, n, m + 1)
  {
    assert forall i', j' | ValidPair(vs, ds, i', j') :: Before(i', j', n, m + 1) <==> Before(i', j', n, m) || (i' == n && j' == m);
  }

  lemma NextRow(rows: seq<Transaction>, vs: seq<real>, ds: seq<real>, best: Found, i: int, j: int, n: int)
    requires Searched(rows, vs, ds, best, i, j, n, |ds|)
    ensures Searched(rows, vs, ds, best, i, j, n + 1, 0)
  {
    assert forall i', j' | ValidPair(vs, ds, i', j') :: Before(i', j', n + 1, 0) <==> Before(i', j', n, |ds|);
  }

  /**
   The first pair, in search order, of least total cost; the default pair and no total when the grids
   hold no pair with verify below decline. Empty input is an error.
   */
  method OptimizeThresholds(rows: seq<Transaction>, vs: seq<real>, ds: seq<real>) returns (r: Result<Found, ()>)
    ensures r.Err? <==> rows == []
    ensures r.Ok? ==> exists i, j :: Searched(rows, vs, ds, r.value, i, j, |vs|, 0)
  {
    if rows == [] {
      return Err(());
    }
    var best := Found(Thresholds(0.15, 0.50), None);
    ghost var i, j := 0, 0;
    for n := 0 to |vs|
      invariant Searched(rows, vs, ds, best, i, j, n, 0)
    {
      for m := 0 to |ds|
        invariant Searched(rows, vs, ds, best, i, j, n, m)
      {
        var next := best;
        if vs[n] < ds[m] {
          var th := Thresholds(vs[n], ds[m]);
          VectorIsScalar(rows, th);
          var total := VectorTotal(rows, th);
          if best.total.None? || total < best.total.value {
            next := Found(th, Some(total));
          }
        }
        SearchStep(rows, vs, ds, best, i, j, n, m, next);
        if next != best {
          i, j := n, m;
        }
        best := next;
      }
      NextRow(rows, vs, ds, best, i, j, n);
    }
    return Ok(best);
  }

  /** The result is the optimum over the whole grid. */
  lemma SearchIsOptimal(rows: seq<Transaction>, vs: seq<real>, ds: seq<real>, best: Found, i: int, j: int, v: real, d: real)
    requires Searched(rows, vs, ds, best, i, j, |vs|, 0)
    requires v in vs && d in ds && v < d
    ensures best.total.Some? && best.total.value == Total(rows, best.thresholds) <= Total(rows, Thresholds(v, d))
    ensures best.thresholds.verify in vs && best.thresholds.decline in ds && best.thresholds.verify < best.thresholds.decline
  {
    var i' :| 0 <= i' < |vs| && vs[i'] == v;
    var j' :| 0 <= j' < |ds| && ds[j'] == d;
    assert ValidPair(vs, ds, i', j') && Before(i', j', |vs|, 0);
  }

  /** The grids in exact arithmetic: 0.01 and 16 steps from 0.025, 33 steps from 0.10 and 0.95. */
  function VerifyGrid(): seq<real> {
    [0.01] + seq(16, k => 0.025 + 0.025 * (k as real))
  }

  function DeclineGrid(): seq<real> {
    seq(33, k => 0.10 + 0.025 * (k as real)) + [0.95]
  }

  /** Point by point: 0.01, then 0.025 to 0.40 in steps of 0.025; 0.10 to 0.90 in the same steps, then 0.95. */
  lemma GridPoints()
    ensures |VerifyGrid()| == 17 && VerifyGrid()[0] == 0.01 && VerifyGrid()[16] == 0.40
    ensures forall i | 1 <= i < 17 :: VerifyGrid()[i] == 0.025 * i as real
    ensures |DeclineGrid()| == 34 && DeclineGrid()[0] == 0.10 && DeclineGrid()[32] == 0.90 && DeclineGrid()[33] == 0.95
    ensures forall j | 1 <= j < 33 :: DeclineGrid()[j] == DeclineGrid()[j - 1] + 0.025
  {
  }

  lemma GridsAreOrderedAndPaired()
    ensures Paired(VerifyGrid(), DeclineGrid())
    ensures forall i, j | 0 <= i < j < |VerifyGrid()| :: 0.0 < VerifyGrid()[i] < VerifyGrid()[j] < 1.0
    ensures forall i, j | 0 <= i < j < |DeclineGrid()| :: 0.0 < DeclineGrid()[i] < DeclineGrid()[j] < 1.0
  {
    assert ValidPair(VerifyGrid(), DeclineGrid(), 0, 0);
  }

  // ------------------------------------------------------ category thresholds

  function Segment(rows: seq<Transaction>, category: string): seq<Transaction> {
    if rows == [] then []
    else
      var init, last := Segment(rows[..|rows| - 1], category), rows[|rows| - 1];
      if last.category == category then init + [last] else init
  }

  function Frauds(rows: seq<Transaction>): (n: nat)
    ensures n <= |rows|
  {
    if rows == [] then 0 else Frauds(rows[..|rows| - 1]) + if rows[|rows| - 1].fraud then 1 else 0
  }

  predicate Has(rows: seq<Transaction>, category: string) {
    exists i | 0 <= i < |rows| :: rows[i].category == category
  }

  const FEWEST_FRAUDS := 5

  ghost predicate Optimum(rows: seq<Transaction>, vs: seq<real>, ds: seq<real>, th: Thresholds) {
    exists i, j :: Searched(rows, vs, ds, Found(th, Some(Total(rows, th))), i, j, |vs|, 0)
  }

  /** A category with too few frauds falls back to the global thresholds; any other has its own optimum. */
  ghost predicate LearnedFor(rows: seq<Transaction>, vs: seq<real>, ds: seq<real>, overall: Thresholds,
                             category: string, th: Thresholds) {
    var segment := Segment(rows, category);
    if Frauds(segment) < FEWEST_FRAUDS then th == overall else Optimum(segment, vs, ds, th)
  }

  ghost predicate Learned(rows: seq<Transaction>, vs: seq<real>, ds: seq<real>, overall: Thresholds,
                          byCategory: map<string, Thresholds>) {
    && Optimum(rows, vs, ds, overall)
    && (forall category :: category in byCategory <==> Has(rows, category))
    && (forall category | category in byCategory :: LearnedFor(rows, vs, ds, overall, category, byCategory[category]))
  }

  ghost predicate Paired(vs: seq<real>, ds: seq<real>) {
    exists i, j :: ValidPair(vs, ds, i, j)
  }

  lemma FoundIsOptimum(rows: seq<Transaction>, vs: seq<real>, ds: seq<real>, best: Found, i: int, j: int)
    requires Searched(rows, vs, ds, best, i, j, |vs|, 0) && Paired(vs, ds)
    ensures Optimum(rows, vs, ds, best.thresholds)
  {
    var i', j' :| ValidPair(vs, ds, i', j');
    assert Before(i', j', |vs|, 0);
    assert best == Found(best.thresholds, Some(Total(rows, best.thresholds)));
  }

  lemma {:induction false} SegmentOfPresent(rows: seq<Transaction>, category: string)
    ensures Segment(rows, category) != [] <==> Has(rows, category)
    decreases |rows|
  {
    if rows != [] {
      var n := |rows| - 1;
      SegmentOfPresent(rows[..n], category);
      assert Has(rows, category) <==> Has(rows[..n], category) || rows[n].category == category;
    }
  }

  lemma HasGrows(rows: seq<Transaction>, last: Transaction)
    ensures forall x :: Has(rows + [last], x) <==> Has(rows, x) || x == last.category
  {
    assert (rows + [last])[|rows|] == last;
    assert forall i | 0 <= i < |rows| :: (rows + [last])[i] == rows[i];
  }

  method LearnCategory(rows: seq<Transaction>, vs: seq<real>, ds: seq<real>, overall: Thresholds, category: string)
    returns (th: Thresholds)
    requires Paired(vs, ds) && Has(rows, category)
    ensures LearnedFor(rows, vs, ds, overall, category, th)
  {
    var segment := Segment(rows, category);
    SegmentOfPresent(rows, category);
    if Frauds(segment) < FEWEST_FRAUDS {
      return overall;
    }
    var found := OptimizeThresholds(segment, vs, ds);
    ghost var i, j :| Searched(segment, vs, ds, found.value, i, j, |vs|, 0);
    FoundIsOptimum(segment, vs, ds, found.value, i, j);
    th := found.value.thresholds;
  }

  /** The threshold part of training: the global optimum, then one entry per category that occurs. */
  method LearnThresholds(rows: seq<Transaction>, vs: seq<real>, ds: seq<real>)
    returns (overall: Thresholds, byCategory: map<string, Thresholds>)
    requires rows != [] && Paired(vs, ds)
    ensures Learned(rows, vs, ds, overall, byCategory)
  {
    var found := OptimizeThresholds(rows, vs, ds);
    ghost var i, j :| Searched(rows, vs, ds, found.value, i, j, |vs|, 0);
    FoundIsOptimum(rows, vs, ds, found.value, i, j);
    overall, byCategory := found.value.thresholds, map[];
    for n := 0 to |rows|
      invariant forall category :: category in byCategory <==> Has(rows[..n], category)
      invariant forall category | category in byCategory ::
        LearnedFor(rows, vs, ds, overall, category, byCategory[category])
    {
      var category := rows[n].category;
      assert rows[..n + 1] == rows[..n] + [rows[n]];
      HasGrows(rows[..n], rows[n]);
      if category !in byCategory {
        var th := LearnCategory(rows, vs, ds, overall, category);
        byCategory := byCategory[category := th];
      }
    }
    assert rows[..|rows|] == rows;
  }

  // ----------------------------------------------------------- the policy

  function ThresholdsFor(overall: Thresholds, byCategory: map<string, Thresholds>, category: string): Thresholds {
    if category in byCategory then byCategory[category] else overall
  }

  function PolicyCost(rows: seq<Transaction>, overall: Thresholds, byCategory: map<string, Thresholds>): real {
    if rows == [] then 0.0
    else
      var last := rows[|rows| - 1];
      PolicyCost(rows[..|rows| - 1], overall, byCategory) + Cost(last, ThresholdsFor(overall, byCategory, last.category))
  }

  /** The cost of a list of segments, each under its own thresholds. */
  function SegmentsCost(categories: seq<string>, rows: seq<Transaction>, overall: Thresholds,
                        byCategory: map<string, Thresholds>): real {
    if categories == [] then 0.0
    else
      var k := |categories| - 1;
      SegmentsCost(categories[..k], rows, overall, byCategory)
      + Total(Segment(rows, categories[k]), ThresholdsFor(overall, byCategory, categories[k]))
  }

  ghost predicate Distinct(categories: seq<string>) {
    forall i, j | 0 <= i < j < |categories| :: categories[i] != categories[j]
  }

  /** One more row adds its cost to its own segment only. */
  lemma {:induction false} SegmentsCostGrows(categories: seq<string>, rows: seq<Transaction>, last: Transaction,
                                             overall: Thresholds, byCategory: map<string, Thresholds>)
    requires Distinct(categories)
    ensures SegmentsCost(categories, rows + [last], overall, byCategory)
      == SegmentsCost(categories, rows, overall, byCategory)
         + if last.category in categories then Cost(last, ThresholdsFor(overall, byCategory, last.category)) else 0.0
    decreases |categories|
  {
    if categories != [] {
      var k := |categories| - 1;
      SegmentsCostGrows(categories[..k], rows, last, overall, byCategory);
      assert (rows + [last])[..|rows|] == rows;
      var segment := Segment(rows, categories[k]);
      if last.category == categories[k] {
        assert (segment + [last])[..|segment|] == segment;
        assert last.category !in categories[..k];
      }
    }
  }

  /** The policy's cost is the sum of its segments' costs. */
  lemma {:induction false} PolicyIsSumOfSegments(categories: seq<string>, rows: seq<Transaction>, overall: Thresholds,
                                                 byCategory: map<string, Thresholds>)
    requires Distinct(categories) && forall i | 0 <= i < |rows| :: rows[i].category in categories
    ensures PolicyCost(rows, overall, byCategory) == SegmentsCost(categories, rows, overall, byCategory)
    decreases |rows|
  {
    if rows == [] {
      EmptySegmentsCostNothing(categories, overall, byCategory);
    } else {
      var n := |rows| - 1;
      PolicyIsSumOfSegments(categories, rows[..n], overall, byCategory);
      SegmentsCostGrows(categories, rows[..n], rows[n], overall, byCategory);
      assert rows[..n] + [rows[n]] == rows;
    }
  }

  lemma {:induction false} EmptySegmentsCostNothing(categories: seq<string>, overall: Thresholds, byCategory: map<string, Thresholds>)
    ensures SegmentsCost(categories, [], overall, byCategory) == 0.0
    decreases |categories|
  {
    if categories != [] {
      EmptySegmentsCostNothing(categories[..|categories| - 1], overall, byCategory);
    }
  }

  lemma {:induction false} GlobalPolicyIsTotal(rows: seq<Transaction>, overall: Thresholds)
    ensures PolicyCost(rows, overall, map[]) == Total(rows, overall)
    decreases |rows|
  {
    if rows != [] {
      GlobalPolicyIsTotal(rows[..|rows| - 1], overall);
    }
  }

  lemma SegmentNeverWorse(rows: seq<Transaction>, vs: seq<real>, ds: seq<real>, overall: Thresholds,
                          byCategory: map<string, Thresholds>, category: string)
    requires Learned(rows, vs, ds, overall, byCategory)
    ensures Total(Segment(rows, category), ThresholdsFor(overall, byCategory, category)) <= Total(Segment(rows, category), overall)
  {
    var i, j :| Searched(rows, vs, ds, Found(overall, Some(Total(rows, overall))), i, j, |vs|, 0);
    if category in byCategory && Frauds(Segment(rows, category)) >= FEWEST_FRAUDS {
      var segment, th := Segment(rows, category), byCategory[category];
      assert LearnedFor(rows, vs, ds, overall, category, th);
      var i', j' :| Searched(segment, vs, ds, Found(th, Some(Total(segment, th))), i', j', |vs|, 0);
      SearchIsOptimal(segment, vs, ds, Found(th, Some(Total(segment, th))), i', j', overall.verify, overall.decline);
    } else if category in byCategory {
      assert LearnedFor(rows, vs, ds, overall, category, byCategory[category]);
    }
  }

  lemma {:induction false} SegmentsNeverWorse(categories: seq<string>, rows: seq<Transaction>, vs: seq<real>, ds: seq<real>,
                                              overall: Thresholds, byCategory: map<string, Thresholds>)
    requires Learned(rows, vs, ds, overall, byCategory)
    ensures SegmentsCost(categories, rows, overall, byCategory) <= SegmentsCost(categories, rows, overall, map[])
    decreases |categories|
  {
    if categories != [] {
      var k := |categories| - 1;
      SegmentsNeverWorse(categories[..k], rows, vs, ds, overall, byCategory);
      SegmentNeverWorse(rows, vs, ds, overall, byCategory, categories[k]);
    }
  }

  lemma {:induction false} CategoryList(rows: seq<Transaction>) returns (categories: seq<string>)
    ensures Distinct(categories) && forall x :: x in categories <==> Has(rows, x)
    decreases |rows|
  {
    if rows == [] {
      categories := [];
    } else {
      var n := |rows| - 1;
      categories := CategoryList(rows[..n]);
      assert rows == rows[..n] + [rows[n]];
      HasGrows(rows[..n], rows[n]);
      if rows[n].category !in categories {
        categories := categories + [rows[n].category];
      }
    }
  }

  // ------------------------------------------------------- decisions of a policy

  /** These thresholds make of the row this decision. */
  predicate DecidedBy(row: Transaction, th: Thresholds, action: Action) {
    action == if row.probability >= th.decline then Decline else if row.probability >= th.verify then Verify else Approve
  }

  /** Each row is decided by the thresholds of its category, or by the overall ones when it has none. */
  ghost predicate FollowsPolicy(rows: seq<Transaction>, overall: Thresholds, byCategory: map<string, Thresholds>, decisions: seq<Action>) {
    && |decisions| == |rows|
    && forall i | 0 <= i < |rows| ::
         && (rows[i].category in byCategory ==> DecidedBy(rows[i], byCategory[rows[i].category], decisions[i]))
         && (rows[i].category !in byCategory ==> DecidedBy(rows[i], overall, decisions[i]))
  }

  /** What these decisions cost. */
  function DecisionCost(rows: seq<Transaction>, decisions: seq<Action>): real
    requires |decisions| == |rows|
  {
    if rows == [] then 0.0
    else
      var k := |rows| - 1;
      DecisionCost(rows[..k], decisions[..k])
      + RealizedActionCost(decisions[k], rows[k].fraud, rows[k].amount, rows[k].margin, rows[k].band)
  }

  lemma {:induction false} DecisionsCostThePolicy(rows: seq<Transaction>, overall: Thresholds, byCategory: map<string, Thresholds>,
                                                  decisions: seq<Action>)
    requires FollowsPolicy(rows, overall, byCategory, decisions)
    ensures DecisionCost(rows, decisions) == PolicyCost(rows, overall, byCategory)
    decreases |rows|
  {
    if rows != [] {
      DecisionsCostThePolicy(rows[..|rows| - 1], overall, byCategory, decisions[..|rows| - 1]);
    }
  }

  function FraudRows(rows: seq<Transaction>): set<nat> {
    set i: nat | i < |rows| && rows[i].fraud
  }

  lemma {:induction false} FraudsAreRows(rows: seq<Transaction>)
    ensures Frauds(rows) == |FraudRows(rows)|
    decreases |rows|
  {
    if rows == [] {
      assert FraudRows(rows) == {};
    } else {
      var k := |rows| - 1;
      FraudsAreRows(rows[..k]);
      assert FraudRows(rows) == FraudRows(rows[..k]) + if rows[k].fraud then {k} else {};
    }
  }

  /** The cost of a list of segments, each under the thresholds learned for it. */
  function LearnedCost(categories: seq<string>, rows: seq<Transaction>, byCategory: map<string, Thresholds>): real
    requires forall i | 0 <= i < |categories| :: categories[i] in byCategory
  {
    if categories == [] then 0.0
    else
      var k := |categories| - 1;
      LearnedCost(categories[..k], rows, byCategory) + Total(Segment(rows, categories[k]), byCategory[categories[k]])
  }

  lemma {:induction false} LearnedIsSegmentsCost(categories: seq<string>, rows: seq<Transaction>, overall: Thresholds,
                                                 byCategory: map<string, Thresholds>)
    requires forall i | 0 <= i < |categories| :: categories[i] in byCategory
    ensures LearnedCost(categories, rows, byCategory) == SegmentsCost(categories, rows, overall, byCategory)
    decreases |categories|
  {
    if categories != [] {
      LearnedIsSegmentsCost(categories[..|categories| - 1], rows, overall, byCategory);
    }
  }

  /** No pair of the grids makes the rows cheaper. */
  ghost predicate Least(rows: seq<Transaction>, vs: seq<real>, ds: seq<real>, th: Thresholds) {
    && th.verify in vs && th.decline in ds && th.verify < th.decline
    && forall v, d | v in vs && d in ds && v < d :: Total(rows, th) <= Total(rows, Thresholds(v, d))
  }

  lemma OptimumIsLeast(rows: seq<Transaction>, vs: seq<real>, ds: seq<real>, th: Thresholds)
    requires Optimum(rows, vs, ds, th)
    ensures Least(rows, vs, ds, th)
  {
    var i, j :| Searched(rows, vs, ds, Found(th, Some(Total(rows, th))), i, j, |vs|, 0);
    forall v, d | v in vs && d in ds && v < d ensures Total(rows, th) <= Total(rows, Thresholds(v, d)) {
      SearchIsOptimal(rows, vs, ds, Found(th, Some(Total(rows, th))), i, j, v, d);
    }
  }

  /** What was learned for each category that occurs: its own optimum, or with fewer than five frauds the overall one. */
  lemma LearnedThresholds(rows: seq<Transaction>, vs: seq<real>, ds: seq<real>, overall: Thresholds,
                          byCategory: map<string, Thresholds>, category: string)
    requires Learned(rows, vs, ds, overall, byCategory)
    ensures Least(rows, vs, ds, overall)
    ensures category in byCategory <==> exists i | 0 <= i < |rows| :: rows[i].category == category
    ensures category in byCategory ==>
      var segment := Segment(rows, category);
      if |FraudRows(segment)| < 5 then byCategory[category] == overall else Least(segment, vs, ds, byCategory[category])
  {
    OptimumIsLeast(rows, vs, ds, overall);
    assert category in byCategory <==> Has(rows, category);
    if category in byCategory {
      assert LearnedFor(rows, vs, ds, overall, category, byCategory[category]);
      FraudsAreRows(Segment(rows, category));
      if Frauds(Segment(rows, category)) >= FEWEST_FRAUDS {
        OptimumIsLeast(Segment(rows, category), vs, ds, byCategory[category]);
      }
    }
  }

  /**
   On the window they were learned from, decisions by the category thresholds cost what the segments cost
   together, each under the thresholds learned for it, and never more than the global optimum costs.
   */
  lemma CategoryPolicyNeverWorse(rows: seq<Transaction>, vs: seq<real>, ds: seq<real>, overall: Thresholds,
                                 byCategory: map<string, Thresholds>, decisions: seq<Action>) returns (categories: seq<string>)
    requires Learned(rows, vs, ds, overall, byCategory) && FollowsPolicy(rows, overall, byCategory, decisions)
    ensures DecisionCost(rows, decisions) <= Total(rows, overall) && Least(rows, vs, ds, overall)
    ensures Distinct(categories) && forall x :: x in categories <==> x in byCategory
    ensures DecisionCost(rows, decisions) == LearnedCost(categories, rows, byCategory)
  {
    categories := CategoryList(rows);
    forall i | 0 <= i < |rows| ensures rows[i].category in categories {
      assert Has(rows, rows[i].category);
    }
    DecisionsCostThePolicy(rows, overall, byCategory, decisions);
    PolicyIsSumOfSegments(categories, rows, overall, byCategory);
    PolicyIsSumOfSegments(categories, rows, overall, map[]);
    LearnedIsSegmentsCost(categories, rows, overall, byCategory);
    SegmentsNeverWorse(categories, rows, vs, ds, overall, byCategory);
    GlobalPolicyIsTotal(rows, overall);
    OptimumIsLeast(rows, vs, ds, overall);
  }

  // ---------------------------------------------------------- policy_metrics

  datatype Metrics = Metrics(
    policyCost: real, baselineCost: real, savings: real,
    fraudInterventionRate: Option<real>, falseInterventionRate: Option<real>,
    approved: nat, verified: nat, declined: nat)

  function CountOf(decisions: seq<Action>, action: Action): nat {
    if decisions == [] then 0
    else CountOf(decisions[..|decisions| - 1], action) + if decisions[|decisions| - 1] == action then 1 else 0
  }

  lemma {:induction false} CountsAddUp(decisions: seq<Action>)
    ensures CountOf(decisions, Approve) + CountOf(decisions, Verify) + CountOf(decisions, Decline) == |decisions|
    decreases |decisions|
  {
    if decisions != [] {
      CountsAddUp(decisions[..|decisions| - 1]);
    }
  }

  /** Rows with this label that were verified or declined. */
  function Intervened(rows: seq<Transaction>, decisions: seq<Action>, fraud: bool): nat
    requires |rows| == |decisions|
  {
    if rows == [] then 0
    else
      var k := |rows| - 1;
      Intervened(rows[..k], decisions[..k], fraud) + if rows[k].fraud == fraud && decisions[k] != Approve then 1 else 0
  }

  /** The mean of an empty selection does not exist. */
  function Rate(part: nat, whole: nat): Option<real> {
    if whole == 0 then None else Some(part as real / whole as real)
  }

  function FraudAmounts(rows: seq<Transaction>): seq<real> {
    if rows == [] then []
    else
      var init, last := FraudAmounts(rows[..|rows| - 1]), rows[|rows| - 1];
      if last.fraud then init + [last.amount] else init
  }

  /** What approving every row would cost. */
  function ApproveAllCost(rows: seq<Transaction>): real {
    if rows == [] then 0.0
    else
      var last := rows[|rows| - 1];
      ApproveAllCost(rows[..|rows| - 1]) + RealizedActionCost(Approve, last.fraud, last.amount, last.margin, last.band)
  }

  lemma {:induction false} BaselineIsApproveAll(rows: seq<Transaction>)
    ensures Sum(FraudAmounts(rows)) == ApproveAllCost(rows)
    decreases |rows|
  {
    if rows != [] {
      BaselineIsApproveAll(rows[..|rows| - 1]);
      var xs := FraudAmounts(rows);
      if rows[|rows| - 1].fraud {
        assert xs[..|xs| - 1] == FraudAmounts(rows[..|rows| - 1]);
      }
    }
  }

  function Decided(decisions: seq<Action>, action: Action): set<nat> {
    set i: nat | i < |decisions| && decisions[i] == action
  }

  lemma {:induction false} CountIsSize(decisions: seq<Action>, action: Action)
    ensures CountOf(decisions, action) == |Decided(decisions, action)|
    decreases |decisions|
  {
    if decisions == [] {
      assert Decided(decisions, action) == {};
    } else {
      var k := |decisions| - 1;
      CountIsSize(decisions[..k], action);
      assert forall i | 0 <= i < k :: decisions[..k][i] == decisions[i];
      assert Decided(decisions, action) == Decided(decisions[..k], action) + if decisions[k] == action then {k} else {};
    }
  }

  function IntervenedRows(rows: seq<Transaction>, decisions: seq<Action>, fraud: bool): set<nat>
    requires |rows| == |decisions|
  {
    set i: nat | i < |rows| && rows[i].fraud == fraud && decisions[i] != Approve
  }

  lemma {:induction false} IntervenedAreRows(rows: seq<Transaction>, decisions: seq<Action>, fraud: bool)
    requires |rows| == |decisions|
    ensures Intervened(rows, decisions, fraud) == |IntervenedRows(rows, decisions, fraud)|
    decreases |rows|
  {
    if rows == [] {
      assert IntervenedRows(rows, decisions, fraud) == {};
    } else {
      var k := |rows| - 1;
      IntervenedAreRows(rows[..k], decisions[..k], fraud);
      assert IntervenedRows(rows, decisions, fraud) == IntervenedRows(rows[..k], decisions[..k], fraud)
        + if rows[k].fraud == fraud && decisions[k] != Approve then {k} else {};
    }
  }

  /** A share of rows, which no rows do not have. */
  ghost predicate IsShare(rate: Option<real>, part: nat, whole: int) {
    if whole == 0 then rate.None? else rate.Some? && rate.value * whole as real == part as real
  }

  lemma RateIsShare(part: nat, whole: nat)
    ensures IsShare(Rate(part, whole), part, whole)
  {
  }

  lemma OneMoreDecision(rows: seq<Transaction>, decisions: seq<Action>, row: Transaction, action: Action,
                        overall: Thresholds, byCategory: map<string, Thresholds>)
    requires FollowsPolicy(rows, overall, byCategory, decisions)
    requires DecidedBy(row, ThresholdsFor(overall, byCategory, row.category), action)
    ensures FollowsPolicy(rows + [row], overall, byCategory, decisions + [action])
    ensures DecisionCost(rows + [row], decisions + [action])
      == DecisionCost(rows, decisions) + RealizedActionCost(action, row.fraud, row.amount, row.margin, row.band)
  {
    assert (rows + [row])[..|rows|] == rows && (decisions + [action])[..|decisions|] == decisions;
  }

  /**
   A policy evaluated row by row: each row is decided by the thresholds of its category; the cost of the
   decisions against approving everything, how often they intervened, and how many there were of each.
   */
  method PolicyMetrics(rows: seq<Transaction>, overall: Thresholds, byCategory: map<string, Thresholds>)
    returns (m: Metrics, ghost decisions: seq<Action>)
    ensures FollowsPolicy(rows, overall, byCategory, decisions)
    ensures m.policyCost == DecisionCost(rows, decisions)
    ensures m.baselineCost == ApproveAllCost(rows) && m.savings == ApproveAllCost(rows) - DecisionCost(rows, decisions)
    ensures m.approved + m.verified + m.declined == |rows|
    ensures m.approved == |Decided(decisions, Approve)| && m.verified == |Decided(decisions, Verify)|
    ensures m.declined == |Decided(decisions, Decline)|
    ensures IsShare(m.fraudInterventionRate, |IntervenedRows(rows, decisions, true)|, |FraudRows(rows)|)
    ensures IsShare(m.falseInterventionRate, |IntervenedRows(rows, decisions, false)|, |rows| - |FraudRows(rows)|)
  {
    var taken: seq<Action>, costs: seq<real> := [], [];
    for n := 0 to |rows|
      invariant FollowsPolicy(rows[..n], overall, byCategory, taken)
      invariant Sum(costs) == DecisionCost(rows[..n], taken)
    {
      var row := rows[n];
      var th := ThresholdsFor(overall, byCategory, row.category);
      var action := ActionForProbability(row.probability, th.verify, th.decline);
      var cost := RealizedActionCost(action, row.fraud, row.amount, row.margin, row.band);
      assert (costs + [cost])[..|costs|] == costs;
      OneMoreDecision(rows[..n], taken, row, action, overall, byCategory);
      assert rows[..n + 1] == rows[..n] + [row];
      taken, costs := taken + [action], costs + [cost];
    }
    assert rows[..|rows|] == rows;
    decisions := taken;
    m := Summary(rows, taken, Sum(costs));
  }

  /** The figures of a list of decisions with this cost. */
  method Summary(rows: seq<Transaction>, decisions: seq<Action>, policy: real) returns (m: Metrics)
    requires |rows| == |decisions|
    ensures m.policyCost == policy && m.baselineCost == ApproveAllCost(rows) && m.savings == ApproveAllCost(rows) - policy
    ensures m.approved + m.verified + m.declined == |rows|
    ensures m.approved == |Decided(decisions, Approve)| && m.verified == |Decided(decisions, Verify)|
    ensures m.declined == |Decided(decisions, Decline)|
    ensures IsShare(m.fraudInterventionRate, |IntervenedRows(rows, decisions, true)|, |FraudRows(rows)|)
    ensures IsShare(m.falseInterventionRate, |IntervenedRows(rows, decisions, false)|, |rows| - |FraudRows(rows)|)
  {
    BaselineIsApproveAll(rows);
    CountsAddUp(decisions);
    CountIsSize(decisions, Approve);
    CountIsSize(decisions, Verify);
    CountIsSize(decisions, Decline);
    FraudsAreRows(rows);
    IntervenedAreRows(rows, decisions, true);
    IntervenedAreRows(rows, decisions, false);
    RateIsShare(Intervened(rows, decisions, true), Frauds(rows));
    RateIsShare(Intervened(rows, decisions, false), |rows| - Frauds(rows));
    var baseline := Sum(FraudAmounts(rows));
    m := Metrics(policy, baseline, baseline - policy,
      Rate(Intervened(rows, decisions, true), Frauds(rows)),
      Rate(Intervened(rows, decisions, false), |rows| - Frauds(rows)),
      CountOf(decisions, Approve), CountOf(decisions, Verify), CountOf(decisions, Decline));
  }
}
