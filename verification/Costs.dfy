/** The decision-cost model, over exact reals. */
module Costs {

  datatype Band = Low | Medium | High

  datatype Action = Approve | Verify | Decline

  datatype ActionCosts = ActionCosts(approve: real, verify: real, decline: real)

  const VERIFY_OPERATION_COST: real := 3.0
  const VERIFY_FRAUD_DETECTION_RATE: real := 0.85
  const VERIFY_LEGIT_ABANDONMENT_RATE: real := 0.08

  function ReacquisitionCost(band: Band): real {
    match band
    case Low => 15.0
    case Medium => 45.0
    case High => 120.0
  }

  function FrictionCost(amount: real, margin: real, band: Band): real {
    amount * margin + ReacquisitionCost(band)
  }

  function ExpectedActionCosts(probability: real, amount: real, margin: real, band: Band): ActionCosts {
    var friction := FrictionCost(amount, margin, band);
    ActionCosts(
      probability * amount,
      VERIFY_OPERATION_COST
      + probability * amount * (1.0 - VERIFY_FRAUD_DETECTION_RATE)
      + (1.0 - probability) * friction * VERIFY_LEGIT_ABANDONMENT_RATE,
      (1.0 - probability) * friction)
  }

  function ActionForProbability(probability: real, verifyThreshold: real, declineThreshold: real): Action {
    if probability >= declineThreshold then Decline
    else if probability >= verifyThreshold then Verify
    else Approve
  }

  function RealizedActionCost(action: Action, fraud: bool, amount: real, margin: real, band: Band): real {
    var friction := FrictionCost(amount, margin, band);
    match action
    case Approve => if fraud then amount else 0.0
    case Verify =>
      VERIFY_OPERATION_COST
      + if fraud then amount * (1.0 - VERIFY_FRAUD_DETECTION_RATE) else friction * VERIFY_LEGIT_ABANDONMENT_RATE
    case Decline => if fraud then 0.0 else friction
  }

  function CostOf(costs: ActionCosts, action: Action): real {
    match action
    case Approve => costs.approve
    case Verify => costs.verify
    case Decline => costs.decline
  }

  /** Each expected cost is the mix of the two realized costs, weighted by the probability of fraud. */
  lemma ExpectedIsMixOfRealized(action: Action, probability: real, amount: real, margin: real, band: Band)
    ensures CostOf(ExpectedActionCosts(probability, amount, margin, band), action)
      == probability * RealizedActionCost(action, true, amount, margin, band)
         + (1.0 - probability) * RealizedActionCost(action, false, amount, margin, band)
  {
    var friction := FrictionCost(amount, margin, band);
    assert probability * (VERIFY_OPERATION_COST + amount * (1.0 - VERIFY_FRAUD_DETECTION_RATE))
      == probability * VERIFY_OPERATION_COST + probability * amount * (1.0 - VERIFY_FRAUD_DETECTION_RATE);
    assert (1.0 - probability) * (VERIFY_OPERATION_COST + friction * VERIFY_LEGIT_ABANDONMENT_RATE)
      == (1.0 - probability) * VERIFY_OPERATION_COST + (1.0 - probability) * friction * VERIFY_LEGIT_ABANDONMENT_RATE;
  }

  // ----------------------------------------------- two thresholds are enough

  /** Where approving and verifying, verifying and declining, approving and declining cost the same. */
  function ApproveVerifyCrossing(amount: real, friction: real): real
    requires amount > 0.0 && friction > 0.0
  {
    (VERIFY_OPERATION_COST + VERIFY_LEGIT_ABANDONMENT_RATE * friction)
    / (VERIFY_FRAUD_DETECTION_RATE * amount + VERIFY_LEGIT_ABANDONMENT_RATE * friction)
  }

  function VerifyDeclineCrossing(amount: real, friction: real): real
    requires amount > 0.0 && friction > 0.0
  {
    ((1.0 - VERIFY_LEGIT_ABANDONMENT_RATE) * friction - VERIFY_OPERATION_COST)
    / ((1.0 - VERIFY_FRAUD_DETECTION_RATE) * amount + (1.0 - VERIFY_LEGIT_ABANDONMENT_RATE) * friction)
  }

  function ApproveDeclineCrossing(amount: real, friction: real): real
    requires amount > 0.0 && friction > 0.0
  {
    friction / (amount + friction)
  }

  /** The cheapest two-threshold policy; verifying drops out when its band would be empty. */
  function BestThresholds(amount: real, friction: real): (real, real)
    requires amount > 0.0 && friction > 0.0
  {
    var v, d := ApproveVerifyCrossing(amount, friction), VerifyDeclineCrossing(amount, friction);
    if v <= d then (v, d)
    else (ApproveDeclineCrossing(amount, friction), ApproveDeclineCrossing(amount, friction))
  }

  lemma QuotientCompare(p: real, n: real, d: real)
    requires d > 0.0
    ensures p <= n / d <==> p * d <= n
    ensures p >= n / d <==> p * d >= n
  {
    var q := n / d;
    assert q * d == n;
    if p <= q {
      assert p * d <= q * d;
    } else {
      assert p * d > q * d;
    }
    if p >= q {
      assert p * d >= q * d;
    } else {
      assert p * d < q * d;
    }
  }

  /** The expected costs as lines in the probability. */
  function Lines(p: real, amount: real, friction: real): ActionCosts {
    ActionCosts(p * amount, 3.0 + 0.15 * (p * amount) + 0.08 * (friction - p * friction), friction - p * friction)
  }

  lemma ExpectedCostsAreLines(p: real, amount: real, margin: real, band: Band)
    ensures ExpectedActionCosts(p, amount, margin, band) == Lines(p, amount, FrictionCost(amount, margin, band))
  {
    var friction := FrictionCost(amount, margin, band);
    assert (1.0 - p) * friction == friction - p * friction;
  }

  lemma FrictionIsAtLeastReacquisition(amount: real, margin: real, band: Band)
    requires amount > 0.0 && margin > 0.0
    ensures FrictionCost(amount, margin, band) >= 15.0
  {
    assert amount * margin > 0.0;
  }

  lemma ApproveVerifyDecides(p: real, amount: real, friction: real)
    requires amount > 0.0 && friction > 0.0
    ensures var c := Lines(p, amount, friction);
      && (p <= ApproveVerifyCrossing(amount, friction) <==> c.approve <= c.verify)
      && (p >= ApproveVerifyCrossing(amount, friction) <==> c.approve >= c.verify)
  {
    QuotientCompare(p, 3.0 + 0.08 * friction, 0.85 * amount + 0.08 * friction);
    assert p * (0.85 * amount + 0.08 * friction) == 0.85 * (p * amount) + 0.08 * (p * friction);
  }

  lemma VerifyDeclineDecides(p: real, amount: real, friction: real)
    requires amount > 0.0 && friction > 0.0
    ensures var c := Lines(p, amount, friction);
      && (p <= VerifyDeclineCrossing(amount, friction) <==> c.verify <= c.decline)
      && (p >= VerifyDeclineCrossing(amount, friction) <==> c.verify >= c.decline)
  {
    QuotientCompare(p, 0.92 * friction - 3.0, 0.15 * amount + 0.92 * friction);
    assert p * (0.15 * amount + 0.92 * friction) == 0.15 * (p * amount) + 0.92 * (p * friction);
  }

  lemma ApproveDeclineDecides(p: real, amount: real, friction: real)
    requires amount > 0.0 && friction > 0.0
    ensures var c := Lines(p, amount, friction);
      && (p <= ApproveDeclineCrossing(amount, friction) <==> c.approve <= c.decline)
      && (p >= ApproveDeclineCrossing(amount, friction) <==> c.approve >= c.decline)
  {
    QuotientCompare(p, friction, amount + friction);
    assert p * (amount + friction) == p * amount + p * friction;
  }

  /** The lines cross once, so comparing p with a crossing compares the two costs. */
  lemma CrossingsDecide(p: real, amount: real, friction: real)
    requires amount > 0.0 && friction > 0.0
    ensures var c := Lines(p, amount, friction);
      && (p <= ApproveVerifyCrossing(amount, friction) <==> c.approve <= c.verify)
      && (p >= ApproveVerifyCrossing(amount, friction) <==> c.approve >= c.verify)
      && (p <= VerifyDeclineCrossing(amount, friction) <==> c.verify <= c.decline)
      && (p >= VerifyDeclineCrossing(amount, friction) <==> c.verify >= c.decline)
      && (p <= ApproveDeclineCrossing(amount, friction) <==> c.approve <= c.decline)
      && (p >= ApproveDeclineCrossing(amount, friction) <==> c.approve >= c.decline)
  {
    ApproveVerifyDecides(p, amount, friction);
    VerifyDeclineDecides(p, amount, friction);
    ApproveDeclineDecides(p, amount, friction);
  }

  lemma CrossingsInOrder(amount: real, friction: real)
    requires amount > 0.0 && friction >= 15.0
    ensures 0.0 < ApproveDeclineCrossing(amount, friction) < 1.0
    ensures 0.0 < ApproveVerifyCrossing(amount, friction)
    ensures VerifyDeclineCrossing(amount, friction) < 1.0
    ensures ApproveVerifyCrossing(amount, friction) > VerifyDeclineCrossing(amount, friction) ==>
      VerifyDeclineCrossing(amount, friction) <= ApproveDeclineCrossing(amount, friction) <= ApproveVerifyCrossing(amount, friction)
  {
    QuotientCompare(0.0, friction, amount + friction);
    QuotientCompare(1.0, friction, amount + friction);
    QuotientCompare(0.0, 3.0 + 0.08 * friction, 0.85 * amount + 0.08 * friction);
    QuotientCompare(1.0, 0.92 * friction - 3.0, 0.15 * amount + 0.92 * friction);
    CrossingsDecide(ApproveDeclineCrossing(amount, friction), amount, friction);
  }

  ghost predicate Cheapest(costs: ActionCosts, action: Action) {
    CostOf(costs, action) <= costs.approve && CostOf(costs, action) <= costs.verify && CostOf(costs, action) <= costs.decline
  }

  lemma BestIsCheapest(p: real, amount: real, friction: real)
    requires amount > 0.0 && friction >= 15.0
    ensures var (v, d) := BestThresholds(amount, friction);
      0.0 < v <= d < 1.0 && Cheapest(Lines(p, amount, friction), ActionForProbability(p, v, d))
  {
    CrossingsInOrder(amount, friction);
    CrossingsDecide(p, amount, friction);
  }

  ghost predicate AlwaysCheapest(v: real, d: real, amount: real, margin: real, band: Band) {
    forall p | 0.0 <= p <= 1.0 ::
      Cheapest(ExpectedActionCosts(p, amount, margin, band), ActionForProbability(p, v, d))
  }

  /** Every transaction has two thresholds at which the policy is optimal for every probability. */
  lemma TwoThresholdsSuffice(amount: real, margin: real, band: Band)
    requires amount > 0.0 && margin > 0.0
    ensures exists v, d :: 0.0 < v <= d < 1.0 && AlwaysCheapest(v, d, amount, margin, band)
  {
    FrictionIsAtLeastReacquisition(amount, margin, band);
    var friction := FrictionCost(amount, margin, band);
    var (v, d) := BestThresholds(amount, friction);
    BestIsCheapest(0.0, amount, friction);
    forall p | 0.0 <= p <= 1.0
      ensures Cheapest(ExpectedActionCosts(p, amount, margin, band), ActionForProbability(p, v, d))
    {
      BestIsCheapest(p, amount, friction);
      ExpectedCostsAreLines(p, amount, margin, band);
    }
    assert AlwaysCheapest(v, d, amount, margin, band);
  }

  /** Verifying is ever the cheapest action exactly when its two crossings leave a band between them. */
  lemma VerifyBand(amount: real, margin: real, band: Band, p: real)
    requires amount > 0.0 && margin > 0.0
    ensures var friction := FrictionCost(amount, margin, band);
      friction > 0.0 &&
      (Cheapest(ExpectedActionCosts(p, amount, margin, band), Verify)
       <==> ApproveVerifyCrossing(amount, friction) <= p <= VerifyDeclineCrossing(amount, friction))
  {
    FrictionIsAtLeastReacquisition(amount, margin, band);
    ExpectedCostsAreLines(p, amount, margin, band);
    CrossingsDecide(p, amount, FrictionCost(amount, margin, band));
  }
}
