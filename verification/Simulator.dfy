/** The dashboard's what-if simulator: one decline threshold, the verify threshold derived from it. */
module Simulator {
  import opened Costs
  import opened ThresholdSearch

  function Min(a: real, b: real): real {
    if a < b then a else b
  }

  function Max(a: real, b: real): real {
    if a < b then b else a
  }

  function VerifyThreshold(decline: real): real {
    Max(0.01, Min(decline * 0.55, decline - 0.01))
  }

  /** The largest verify threshold at most 0.55 of the decline threshold and 0.01 below it, but not under 0.01. */
  lemma VerifyThresholdIsLargest(decline: real, other: real)
    ensures var v := VerifyThreshold(decline);
      && v >= 0.01
      && (v > 0.01 ==> v <= decline * 0.55 && v <= decline - 0.01)
      && (other <= decline * 0.55 && other <= decline - 0.01 ==> other <= v)
  {
  }

  /** The columns the simulator adds up, for one row or for a frame. */
  datatype Outcome = Outcome(
    total: real,
    approved: nat, verified: nat, declined: nat,
    falseDeclines: nat, fraudIntervened: nat,
    caught: real, missed: real, friction: real, normal: real)

  const NOTHING: Outcome := Outcome(0.0, 0, 0, 0, 0, 0, 0.0, 0.0, 0.0, 0.0)

  function One(condition: bool): nat {
    if condition then 1 else 0
  }

  function RowOutcome(t: Transaction, decline: real): Outcome {
    var friction := t.amount * t.margin + ReacquisitionCost(t.band);
    var action := if t.probability >= decline then Decline
                  else if t.probability >= VerifyThreshold(decline) then Verify else Approve;
    var approveCost := if t.fraud then t.amount else 0.0;
    var verifyCost := VERIFY_OPERATION_COST
      + if t.fraud then t.amount * (1.0 - VERIFY_FRAUD_DETECTION_RATE) else friction * VERIFY_LEGIT_ABANDONMENT_RATE;
    var declineCost := if t.fraud then 0.0 else friction;
    Outcome(
      if action == Decline then declineCost else if action == Verify then verifyCost else approveCost,
      One(action == Approve), One(action == Verify), One(action == Decline),
      One(action == Decline && !t.fraud), One(action != Approve && t.fraud),
      if t.fraud && action == Decline then t.amount
      else if t.fraud && action == Verify then t.amount * VERIFY_FRAUD_DETECTION_RATE else 0.0,
      if t.fraud && action == Approve then t.amount
      else if t.fraud && action == Verify then t.amount * (1.0 - VERIFY_FRAUD_DETECTION_RATE) else 0.0,
      if action == Verify then
        VERIFY_OPERATION_COST + if !t.fraud then friction * VERIFY_LEGIT_ABANDONMENT_RATE else 0.0
      else if action == Decline && !t.fraud then friction else 0.0,
      if action == Approve && !t.fraud then t.amount else 0.0)
  }

  function Plus(a: Outcome, b: Outcome): Outcome {
    Outcome(a.total + b.total, a.approved + b.approved, a.verified + b.verified, a.declined + b.declined,
            a.falseDeclines + b.falseDeclines, a.fraudIntervened + b.fraudIntervened,
            a.caught + b.caught, a.missed + b.missed, a.friction + b.friction, a.normal + b.normal)
  }

  /** An empty frame has no rows to add up, and the result then names no verify threshold. */
  function Simulate(rows: seq<Transaction>, decline: real): Outcome {
    if rows == [] then NOTHING
    else Plus(Simulate(rows[..|rows| - 1], decline), RowOutcome(rows[|rows| - 1], decline))
  }

  /** The action the simulator takes on a row. */
  function ActionAt(t: Transaction, decline: real): Action {
    ActionForProbability(t.probability, VerifyThreshold(decline), decline)
  }

  function Where(rows: seq<Transaction>, chosen: Transaction -> bool): set<nat> {
    set i: nat | i < |rows| && chosen(rows[i])
  }

  lemma CountWhere(rows: seq<Transaction>, chosen: Transaction -> bool)
    ensures rows != [] ==> |Where(rows, chosen)| == |Where(rows[..|rows| - 1], chosen)| + One(chosen(rows[|rows| - 1]))
    ensures rows == [] ==> |Where(rows, chosen)| == 0
  {
    if rows == [] {
      assert Where(rows, chosen) == {};
    } else {
      var k := |rows| - 1;
      assert Where(rows, chosen) == Where(rows[..k], chosen) + if chosen(rows[k]) then {k} else {};
    }
  }

  /** The counts are numbers of rows, by the action taken on them. */
  lemma {:induction false} SimulatedCounts(rows: seq<Transaction>, decline: real)
    ensures var o := Simulate(rows, decline);
      && o.approved == |Where(rows, (t: Transaction) => ActionAt(t, decline) == Approve)|
      && o.verified == |Where(rows, (t: Transaction) => ActionAt(t, decline) == Verify)|
      && o.declined == |Where(rows, (t: Transaction) => ActionAt(t, decline) == Decline)|
      && o.falseDeclines == |Where(rows, (t: Transaction) => !t.fraud && ActionAt(t, decline) == Decline)|
      && o.fraudIntervened == |Where(rows, (t: Transaction) => t.fraud && ActionAt(t, decline) != Approve)|
    decreases |rows|
  {
    CountWhere(rows, (t: Transaction) => ActionAt(t, decline) == Approve);
    CountWhere(rows, (t: Transaction) => ActionAt(t, decline) == Verify);
    CountWhere(rows, (t: Transaction) => ActionAt(t, decline) == Decline);
    CountWhere(rows, (t: Transaction) => !t.fraud && ActionAt(t, decline) == Decline);
    CountWhere(rows, (t: Transaction) => t.fraud && ActionAt(t, decline) != Approve);
    if rows != [] {
      SimulatedCounts(rows[..|rows| - 1], decline);
    }
  }

  function SumOf(rows: seq<Transaction>, amount: Transaction -> real): real {
    if rows == [] then 0.0 else SumOf(rows[..|rows| - 1], amount) + amount(rows[|rows| - 1])
  }

  /** The values caught, missed and approved are sums over rows, by the action taken on them. */
  lemma {:induction false} SimulatedValues(rows: seq<Transaction>, decline: real)
    ensures var o := Simulate(rows, decline);
      && o.caught == SumOf(rows, (t: Transaction) =>
           if !t.fraud || ActionAt(t, decline) == Approve then 0.0
           else if ActionAt(t, decline) == Decline then t.amount else 0.85 * t.amount)
      && o.missed == SumOf(rows, (t: Transaction) =>
           if !t.fraud || ActionAt(t, decline) == Decline then 0.0
           else if ActionAt(t, decline) == Approve then t.amount else 0.15 * t.amount)
      && o.normal == SumOf(rows, (t: Transaction) => if !t.fraud && ActionAt(t, decline) == Approve then t.amount else 0.0)
    decreases |rows|
  {
    if rows != [] {
      SimulatedValues(rows[..|rows| - 1], decline);
    }
  }

  /** What may only fall, and what may only rise, when the decline threshold is raised. */
  predicate Laxer(a: Outcome, b: Outcome) {
    && b.declined <= a.declined && b.falseDeclines <= a.falseDeclines
    && b.fraudIntervened <= a.fraudIntervened && b.caught <= a.caught
    && b.approved >= a.approved && b.missed >= a.missed && b.normal >= a.normal
  }

  /** A higher decline threshold is laxer, although the verify threshold moves along with it. */
  lemma {:induction false} RaisingDeclineIsLaxer(rows: seq<Transaction>, low: real, high: real)
    requires low <= high && forall i | 0 <= i < |rows| :: rows[i].amount >= 0.0
    ensures Laxer(Simulate(rows, low), Simulate(rows, high))
    decreases |rows|
  {
    if rows != [] {
      RaisingDeclineIsLaxer(rows[..|rows| - 1], low, high);
      assert VerifyThreshold(low) <= VerifyThreshold(high);
    }
  }

  // --------------------------------------------- when the total cost moves

  /** A row leaves its action when the threshold moves. */
  predicate Moves(t: Transaction, low: real, high: real) {
    ActionAt(t, low) != ActionAt(t, high)
  }

  /** Verifying this fraud costs at least as much as letting it through. */
  predicate CheapFraud(t: Transaction, low: real, high: real) {
    ActionAt(t, low) == Verify && ActionAt(t, high) == Approve && VERIFY_FRAUD_DETECTION_RATE * t.amount <= VERIFY_OPERATION_COST
  }

  /** What one row pays more when the decline threshold is raised: fraud let through. */
  function Extra(t: Transaction, low: real, high: real): real {
    if !t.fraud || !Moves(t, low, high) || CheapFraud(t, low, high) then 0.0
    else if ActionAt(t, low) == Verify then VERIFY_FRAUD_DETECTION_RATE * t.amount - VERIFY_OPERATION_COST
    else if ActionAt(t, high) == Verify then VERIFY_OPERATION_COST + (1.0 - VERIFY_FRAUD_DETECTION_RATE) * t.amount
    else t.amount
  }

  /** What one row saves: friction not caused, and the verification of a fraud too small to be worth it. */
  function Saved(t: Transaction, low: real, high: real): real {
    var friction := FrictionCost(t.amount, t.margin, t.band);
    if !Moves(t, low, high) then 0.0
    else if t.fraud then (if CheapFraud(t, low, high) then VERIFY_OPERATION_COST - VERIFY_FRAUD_DETECTION_RATE * t.amount else 0.0)
    else if ActionAt(t, low) == Verify then VERIFY_OPERATION_COST + VERIFY_LEGIT_ABANDONMENT_RATE * friction
    else if ActionAt(t, high) == Verify then (1.0 - VERIFY_LEGIT_ABANDONMENT_RATE) * friction - VERIFY_OPERATION_COST
    else friction
  }

  /** The ranges of the event schema. */
  predicate Ranged(t: Transaction) {
    t.amount > 0.0 && t.margin > 0.0
  }

  /** The rows that cost more under the higher threshold, and the rows that cost less. */
  predicate Rises(t: Transaction, low: real, high: real) {
    t.fraud && Moves(t, low, high) && !CheapFraud(t, low, high)
  }

  predicate Falls(t: Transaction, low: real, high: real) {
    Moves(t, low, high) && (!t.fraud || (CheapFraud(t, low, high) && VERIFY_FRAUD_DETECTION_RATE * t.amount < VERIFY_OPERATION_COST))
  }

  lemma ActionsGetLaxer(t: Transaction, low: real, high: real)
    requires low <= high && Moves(t, low, high)
    ensures (ActionAt(t, low) == Decline && ActionAt(t, high) != Decline)
      || (ActionAt(t, low) == Verify && ActionAt(t, high) == Approve)
  {
    assert VerifyThreshold(low) <= VerifyThreshold(high);
  }

  lemma RowTotalIsCost(t: Transaction, decline: real)
    ensures RowOutcome(t, decline).total == RealizedActionCost(ActionAt(t, decline), t.fraud, t.amount, t.margin, t.band)
  {
  }

  /**
   Raising the threshold, row by row: a legitimate row never costs more, and less exactly when its action
   changes; a fraud costs more exactly when its action changes, except that a fraud no longer verified but
   approved costs less, or the same, when 0.85 of its amount is at most the cost of the verification.
   */
  lemma RowCostMoves(t: Transaction, low: real, high: real)
    requires low <= high && Ranged(t)
    ensures var before, after := RowOutcome(t, low).total, RowOutcome(t, high).total;
      && after - before == Extra(t, low, high) - Saved(t, low, high)
      && Extra(t, low, high) >= 0.0 && Saved(t, low, high) >= 0.0
      && (after > before <==> Rises(t, low, high)) && (Extra(t, low, high) > 0.0 <==> Rises(t, low, high))
      && (after < before <==> Falls(t, low, high)) && (Saved(t, low, high) > 0.0 <==> Falls(t, low, high))
  {
    RowTotalIsCost(t, low);
    RowTotalIsCost(t, high);
    FrictionIsAtLeastReacquisition(t.amount, t.margin, t.band);
    if Moves(t, low, high) {
      ActionsGetLaxer(t, low, high);
    }
  }

  function ExtraOf(rows: seq<Transaction>, low: real, high: real): real {
    if rows == [] then 0.0 else ExtraOf(rows[..|rows| - 1], low, high) + Extra(rows[|rows| - 1], low, high)
  }

  function SavedOf(rows: seq<Transaction>, low: real, high: real): real {
    if rows == [] then 0.0 else SavedOf(rows[..|rows| - 1], low, high) + Saved(rows[|rows| - 1], low, high)
  }

  predicate AllRanged(rows: seq<Transaction>) {
    forall i | 0 <= i < |rows| :: Ranged(rows[i])
  }

  /** The change of the total over a frame: what its fraud costs more less what its other rows save. */
  lemma {:induction false} TotalCostMoves(rows: seq<Transaction>, low: real, high: real)
    requires low <= high && AllRanged(rows)
    ensures Simulate(rows, high).total - Simulate(rows, low).total == ExtraOf(rows, low, high) - SavedOf(rows, low, high)
    ensures ExtraOf(rows, low, high) >= 0.0 && SavedOf(rows, low, high) >= 0.0
    decreases |rows|
  {
    if rows != [] {
      TotalCostMoves(rows[..|rows| - 1], low, high);
      RowCostMoves(rows[|rows| - 1], low, high);
    }
  }

  lemma {:induction false} WhoMovesTheTotal(rows: seq<Transaction>, low: real, high: real)
    requires low <= high && AllRanged(rows)
    ensures ExtraOf(rows, low, high) == 0.0 <==> forall i | 0 <= i < |rows| :: !Rises(rows[i], low, high)
    ensures SavedOf(rows, low, high) == 0.0 <==> forall i | 0 <= i < |rows| :: !Falls(rows[i], low, high)
    decreases |rows|
  {
    if rows != [] {
      var k := |rows| - 1;
      WhoMovesTheTotal(rows[..k], low, high);
      TotalCostMoves(rows[..k], low, high);
      RowCostMoves(rows[k], low, high);
      assert forall i | 0 <= i < k :: rows[..k][i] == rows[i];
    }
  }

  /**
   With no row of the one kind, the direction is certain: without a fraud that gets dearer the total never
   rises, and falls exactly when some row gets cheaper; and the other way round.
   */
  lemma OneSidedFramesAreMonotone(rows: seq<Transaction>, low: real, high: real)
    requires low <= high && AllRanged(rows)
    ensures var before, after := Simulate(rows, low).total, Simulate(rows, high).total;
      && ((forall i | 0 <= i < |rows| :: !Rises(rows[i], low, high)) ==>
            after <= before && (after < before <==> exists i | 0 <= i < |rows| :: Falls(rows[i], low, high)))
      && ((forall i | 0 <= i < |rows| :: !Falls(rows[i], low, high)) ==>
            after >= before && (after > before <==> exists i | 0 <= i < |rows| :: Rises(rows[i], low, high)))
  {
    TotalCostMoves(rows, low, high);
    WhoMovesTheTotal(rows, low, high);
  }

  lemma OneMoreRow(rows: seq<Transaction>, t: Transaction, decline: real)
    ensures Simulate(rows + [t], decline).total == Simulate(rows, decline).total + RowOutcome(t, decline).total
  {
    assert (rows + [t])[..|rows|] == rows;
  }

  /** What raising the threshold does to the total of a frame. */
  function Change(rows: seq<Transaction>, low: real, high: real): real {
    Simulate(rows, high).total - Simulate(rows, low).total
  }

  /**
   So the total may go either way. In any frame, a legitimate row whose action changes pulls the total
   down, and a fraud whose action changes, if it is worth its verification, pushes it up.
   */
  lemma TotalCostIsNotMonotone(rows: seq<Transaction>, t: Transaction, low: real, high: real)
    requires low <= high && Ranged(t) && Moves(t, low, high)
    ensures !t.fraud ==> Change(rows + [t], low, high) < Change(rows, low, high)
    ensures t.fraud && VERIFY_FRAUD_DETECTION_RATE * t.amount > VERIFY_OPERATION_COST ==> Change(rows + [t], low, high) > Change(rows, low, high)
  {
    OneMoreRow(rows, t, low);
    OneMoreRow(rows, t, high);
    RowCostMoves(t, low, high);
  }

  /** The same payment of 100 at probability 0.5, legitimate and fraudulent, between thresholds 0.4 and 0.6. */
  lemma BothDirectionsOccur()
    ensures var legitimate := Transaction(0.5, false, 100.0, 0.2, Low, "home");
      Simulate([legitimate], 0.4).total > Simulate([legitimate], 0.6).total
    ensures var fraudulent := Transaction(0.5, true, 100.0, 0.2, Low, "home");
      Simulate([fraudulent], 0.4).total < Simulate([fraudulent], 0.6).total
  {
    var legitimate := Transaction(0.5, false, 100.0, 0.2, Low, "home");
    var fraudulent := Transaction(0.5, true, 100.0, 0.2, Low, "home");
    TotalCostIsNotMonotone([], legitimate, 0.4, 0.6);
    TotalCostIsNotMonotone([], fraudulent, 0.4, 0.6);
    assert [] + [legitimate] == [legitimate] && [] + [fraudulent] == [fraudulent];
  }

  function FraudExposure(rows: seq<Transaction>): real {
    if rows == [] then 0.0
    else FraudExposure(rows[..|rows| - 1]) + if rows[|rows| - 1].fraud then rows[|rows| - 1].amount else 0.0
  }

  lemma RowReconciles(t: Transaction, decline: real)
    ensures var o := RowOutcome(t, decline);
      && o.total == Cost(t, Thresholds(VerifyThreshold(decline), decline))
      && o.total == o.missed + o.friction
      && o.caught + o.missed == (if t.fraud then t.amount else 0.0)
      && o.approved + o.verified + o.declined == 1
  {
  }

  /**
   The simulator is the scalar cost model under its two thresholds, split another way: missed plus
   friction is the total, caught plus missed is all fraud, and every row is decided once.
   */
  lemma {:induction false} SimulationReconciles(rows: seq<Transaction>, decline: real)
    ensures var o := Simulate(rows, decline);
      && o.total == Total(rows, Thresholds(VerifyThreshold(decline), decline))
      && o.total == o.missed + o.friction
      && o.caught + o.missed == FraudExposure(rows)
      && o.approved + o.verified + o.declined == |rows|
    decreases |rows|
  {
    if rows != [] {
      SimulationReconciles(rows[..|rows| - 1], decline);
      RowReconciles(rows[|rows| - 1], decline);
    }
  }
}
