/** Risk scores (0 to 100, higher means a safer position for the strategy's
    intent) and the weighted composite score candidates are ranked by. */
module Scoring {
  import opened Types

  /** `x` limited to the score range [0, 100]. */
  function Clamp(x: real): (r: real)
    ensures 0.0 <= r <= 100.0
    ensures 0.0 <= x <= 100.0 ==> r == x
    ensures x < 0.0 ==> r == 0.0
    ensures x > 100.0 ==> r == 100.0
  {
    if x < 0.0 then 0.0 else if x > 100.0 then 100.0 else x
  }

  lemma ClampMonotone(x: real, y: real)
    requires x <= y
    ensures Clamp(x) <= Clamp(y)
  {
  }

  /** How far `strike` lies above `spot`, in percent of spot. */
  function PercentAbove(strike: real, spot: real): real
    requires spot != 0.0
  {
    (strike - spot) / spot * 100.0
  }

  /** Bull put spread: five points per percent the short put lies below
      spot. A zero spot raises (None). */
  function BullPutRisk(spot: real, shortStrike: real): (r: Option<real>)
    ensures r.None? <==> spot == 0.0
    ensures r.Some? ==> 0.0 <= r.value <= 100.0
  {
    if spot == 0.0 then None else Some(Clamp(-PercentAbove(shortStrike, spot) * 5.0))
  }

  /** Bear call spread: five points per percent the short call lies above
      spot. A zero spot raises (None). */
  function BearCallRisk(spot: real, shortStrike: real): (r: Option<real>)
    ensures r.None? <==> spot == 0.0
    ensures r.Some? ==> 0.0 <= r.value <= 100.0
  {
    if spot == 0.0 then None else Some(Clamp(PercentAbove(shortStrike, spot) * 5.0))
  }

  /** Covered call: 100 at the money, five points off per percent the call
      lies above spot; 50 when spot is zero. */
  function CoveredCallRisk(spot: real, strike: real): (r: real)
    ensures 0.0 <= r <= 100.0
    ensures spot == 0.0 ==> r == 50.0
  {
    if spot != 0.0 then Clamp(100.0 - PercentAbove(strike, spot) * 5.0) else 50.0
  }

  /** Cash-secured put: five points per percent the put lies below spot; 50
      when spot is zero. */
  function CashSecuredPutRisk(spot: real, strike: real): (r: real)
    ensures 0.0 <= r <= 100.0
    ensures spot == 0.0 ==> r == 50.0
  {
    if spot != 0.0 then Clamp(-PercentAbove(strike, spot) * 5.0) else 50.0
  }

  /** Long call: 100 at the money, three points off per percent the call
      lies above spot; 50 when spot is zero. */
  function LongCallRisk(spot: real, strike: real): (r: real)
    ensures 0.0 <= r <= 100.0
    ensures spot == 0.0 ==> r == 50.0
  {
    if spot != 0.0 then Clamp(100.0 - PercentAbove(strike, spot) * 3.0) else 50.0
  }

  /** Bull call spread: 100 when the bought strike is at the money, three
      points off per percent it lies away from spot in either direction; 50
      when spot is zero. */
  function BullCallRisk(spot: real, lowStrike: real): (r: real)
    ensures 0.0 <= r <= 100.0
    ensures spot == 0.0 ==> r == 50.0
  {
    if spot != 0.0 then Clamp(100.0 - Abs(PercentAbove(lowStrike, spot)) * 3.0) else 50.0
  }

  /** Iron condor: three points per percent of the average distance of the
      short put below and the short call above spot; 50 when spot is zero. */
  function CondorRisk(spot: real, shortPut: real, shortCall: real): (r: real)
    ensures 0.0 <= r <= 100.0
    ensures spot == 0.0 ==> r == 50.0
  {
    if spot != 0.0 then
      Clamp((-PercentAbove(shortPut, spot) + PercentAbove(shortCall, spot)) / 2.0 * 3.0)
    else 50.0
  }

  /** A short put (spread or cash-secured) scores higher the further its
      strike lies below a positive spot. */
  lemma ShortPutRiskFavoursLowerStrikes(spot: real, k1: real, k2: real)
    requires spot > 0.0 && k1 <= k2
    ensures BullPutRisk(spot, k1).value >= BullPutRisk(spot, k2).value
    ensures CashSecuredPutRisk(spot, k1) >= CashSecuredPutRisk(spot, k2)
    ensures BullPutRisk(spot, k1).value == CashSecuredPutRisk(spot, k1)
  {
    PercentAboveMonotone(spot, k1, k2);
    ClampMonotone(-PercentAbove(k2, spot) * 5.0, -PercentAbove(k1, spot) * 5.0);
  }

  /** A short call spread scores higher the further its short strike lies
      above a positive spot; a covered or long call the nearer. */
  lemma CallRiskDirection(spot: real, k1: real, k2: real)
    requires spot > 0.0 && k1 <= k2
    ensures BearCallRisk(spot, k1).value <= BearCallRisk(spot, k2).value
    ensures CoveredCallRisk(spot, k1) >= CoveredCallRisk(spot, k2)
    ensures LongCallRisk(spot, k1) >= LongCallRisk(spot, k2)
  {
    PercentAboveMonotone(spot, k1, k2);
    ClampMonotone(PercentAbove(k1, spot) * 5.0, PercentAbove(k2, spot) * 5.0);
    ClampMonotone(100.0 - PercentAbove(k2, spot) * 5.0, 100.0 - PercentAbove(k1, spot) * 5.0);
    ClampMonotone(100.0 - PercentAbove(k2, spot) * 3.0, 100.0 - PercentAbove(k1, spot) * 3.0);
  }

  /** A bull call spread scores 100 when its bought strike is at the money
      and the same at equal distances either side of spot. */
  lemma BullCallRiskSymmetric(spot: real, d: real)
    requires spot > 0.0
    ensures BullCallRisk(spot, spot) == 100.0
    ensures BullCallRisk(spot, spot + d) == BullCallRisk(spot, spot - d)
  {
    assert PercentAbove(spot + d, spot) == -PercentAbove(spot - d, spot);
  }

  /** The iron condor's score depends only on how far apart its short
      strikes are, not on where spot sits between them: the two distances
      to spot add up to the strike gap. */
  lemma CondorRiskOnlyWidth(spot: real, shortPut: real, shortCall: real, shift: real)
    requires spot > 0.0
    ensures CondorRisk(spot, shortPut, shortCall) == Clamp((shortCall - shortPut) / spot * 150.0)
    ensures CondorRisk(spot, shortPut + shift, shortCall + shift) == CondorRisk(spot, shortPut, shortCall)
  {
    CondorDistances(spot, shortPut, shortCall);
    CondorDistances(spot, shortPut + shift, shortCall + shift);
  }

  lemma CondorDistances(spot: real, shortPut: real, shortCall: real)
    requires spot > 0.0
    ensures (-PercentAbove(shortPut, spot) + PercentAbove(shortCall, spot)) / 2.0 * 3.0
         == (shortCall - shortPut) / spot * 150.0
  {
    calc {
      (-PercentAbove(shortPut, spot) + PercentAbove(shortCall, spot)) / 2.0 * 3.0;
      ((shortCall - spot) / spot * 100.0 - (shortPut - spot) / spot * 100.0) / 2.0 * 3.0;
      ((shortCall - spot) - (shortPut - spot)) / spot * 150.0;
      (shortCall - shortPut) / spot * 150.0;
    }
  }

  lemma PercentAboveMonotone(spot: real, k1: real, k2: real)
    requires spot > 0.0 && k1 <= k2
    ensures PercentAbove(k1, spot) <= PercentAbove(k2, spot)
  {
    assert (k1 - spot) / spot <= (k2 - spot) / spot;
  }

  /** The weights of the composite score and the factor applied to the ROI
      before it is clamped, so that an ROI of 100/`roiScale` percent already
      earns the full ROI score. */
  datatype Weights = Weights(probability: real, roi: real, risk: real, roiScale: real)

  /** The weights the engine ranks by: 70% probability of profit, 20% ROI
      and 10% risk, with the ROI scaled by 1.5. */
  const EngineWeights: Weights := Weights(0.70, 0.20, 0.10, 1.5)

  /** Non-negative weights that add up to one. */
  predicate ValidWeights(w: Weights)
  {
    w.probability >= 0.0 && w.roi >= 0.0 && w.risk >= 0.0 && w.probability + w.roi + w.risk == 1.0
  }

  /** Composite score of a candidate from its probability of profit (in
      percent), its ROI (in percent, scaled before clamping) and its risk
      score, each clamped to [0, 100] before weighting. With valid weights
      it stays within [0, 100] whatever the ROI factor. */
  function Composite(w: Weights, probability: real, roi: real, risk: real): (s: real)
    ensures ValidWeights(w) ==> 0.0 <= s <= 100.0
  {
    var p, r, k := Clamp(probability), Clamp(w.roiScale * roi), Clamp(risk);
    WeightedSum(w, p, r, k);
    Weighted(w, p, r, k)
  }

  /** The weighted sum of three clamped scores. */
  function Weighted(w: Weights, p: real, r: real, k: real): real
  {
    w.probability * p + w.roi * r + w.risk * k
  }

  /** Valid weights average three scores into the score range. */
  lemma WeightedSum(w: Weights, p: real, r: real, k: real)
    requires 0.0 <= p <= 100.0 && 0.0 <= r <= 100.0 && 0.0 <= k <= 100.0
    ensures ValidWeights(w) ==> 0.0 <= Weighted(w, p, r, k) <= 100.0
  {
    if ValidWeights(w) {
      var x, y, z := w.probability * p, w.roi * r, w.risk * k;
      WeightedScore(w.probability, p, x);
      WeightedScore(w.roi, r, y);
      WeightedScore(w.risk, k, z);
      assert x + y + z <= (w.probability + w.roi + w.risk) * 100.0;
      assert Weighted(w, p, r, k) == x + y + z;
    }
  }

  /** A non-negative weight times a score lies between 0 and the weight
      times 100. */
  lemma WeightedScore(weight: real, x: real, product: real)
    requires weight >= 0.0 && 0.0 <= x <= 100.0 && product == weight * x
    ensures 0.0 <= product <= weight * 100.0
  {
    assert weight * (100.0 - x) >= 0.0;
  }

  /** A non-negative weight keeps the order of what it multiplies. */
  lemma WeightedOrder(weight: real, x: real, y: real, px: real, py: real)
    requires weight >= 0.0 && x <= y && px == weight * x && py == weight * y
    ensures px <= py
  {
    assert weight * (y - x) >= 0.0;
  }

  /** With non-negative weights and ROI factor, raising any of the three
      inputs never lowers the composite score. */
  lemma CompositeMonotone(w: Weights, p1: real, r1: real, k1: real, p2: real, r2: real, k2: real)
    requires w.probability >= 0.0 && w.roi >= 0.0 && w.risk >= 0.0 && w.roiScale >= 0.0
    requires p1 <= p2 && r1 <= r2 && k1 <= k2
    ensures Composite(w, p1, r1, k1) <= Composite(w, p2, r2, k2)
  {
    var x1, x2 := w.roiScale * r1, w.roiScale * r2;
    WeightedOrder(w.roiScale, r1, r2, x1, x2);
    ClampMonotone(p1, p2);
    ClampMonotone(x1, x2);
    ClampMonotone(k1, k2);
    WeightedMonotone(w, Clamp(p1), Clamp(x1), Clamp(k1), Clamp(p2), Clamp(x2), Clamp(k2));
    CompositeIs(w, p1, r1, k1, x1);
    CompositeIs(w, p2, r2, k2, x2);
  }

  /** The composite score is the weighted sum of the clamped scores, `x`
      being the scaled ROI. */
  lemma CompositeIs(w: Weights, p: real, r: real, k: real, x: real)
    requires x == w.roiScale * r
    ensures Composite(w, p, r, k) == Weighted(w, Clamp(p), Clamp(x), Clamp(k))
  {
  }

  /** Non-negative weights keep the order of the scores they weight. */
  lemma WeightedMonotone(w: Weights, p1: real, r1: real, k1: real, p2: real, r2: real, k2: real)
    requires w.probability >= 0.0 && w.roi >= 0.0 && w.risk >= 0.0
    requires p1 <= p2 && r1 <= r2 && k1 <= k2
    ensures Weighted(w, p1, r1, k1) <= Weighted(w, p2, r2, k2)
  {
    var a1, a2 := w.probability * p1, w.probability * p2;
    var b1, b2 := w.roi * r1, w.roi * r2;
    var c1, c2 := w.risk * k1, w.risk * k2;
    WeightedOrder(w.probability, p1, p2, a1, a2);
    WeightedOrder(w.roi, r1, r2, b1, b2);
    WeightedOrder(w.risk, k1, k2, c1, c2);
  }

  /** Under the engine's weights a candidate gets the top score exactly
      when its probability, its scaled ROI and its risk score are all at or
      beyond the cap, and the bottom score exactly when all three are at or
      below zero. */
  lemma CompositeExtremes(probability: real, roi: real, risk: real)
    ensures Composite(EngineWeights, probability, roi, risk) == 100.0
        <==> probability >= 100.0 && roi * 1.5 >= 100.0 && risk >= 100.0
    ensures Composite(EngineWeights, probability, roi, risk) == 0.0
        <==> probability <= 0.0 && roi <= 0.0 && risk <= 0.0
  {
  }

  /** Under the engine's weights probability dominates: ten points of
      probability outweigh any change in ROI score and risk score of at most
      20 points each. */
  lemma ProbabilityDominates(p1: real, r1: real, k1: real, p2: real, r2: real, k2: real)
    requires 0.0 <= p1 && p2 <= 100.0 && p1 + 10.0 <= p2
    requires Abs(Clamp(r1 * 1.5) - Clamp(r2 * 1.5)) <= 20.0
    requires Abs(Clamp(k1) - Clamp(k2)) <= 20.0
    ensures Composite(EngineWeights, p1, r1, k1) <= Composite(EngineWeights, p2, r2, k2)
  {
  }
}
