/** Probabilities of profit under a log-normal price model. The normal
    distribution function, the logarithm and the square root are not
    modelled: every strategy evaluates one and the same expression
    Φ((ln x − (r − σ²/2)·T) / (σ·√T)) at different price ratios x, so that
    expression is a parameter `phi(x, σ, T, r)` and only the hypotheses the
    lemmas need are stated about it. */
module Probability {
  import opened Types
  import opened Scoring

  /** phi(x, σ, T, r): the normal distribution function at the log-normal
      z-score of price ratio x, volatility σ, years T and rate r. */
  type ZCdf = (real, real, real, real) -> real

  /** Φ is a distribution function: its values lie in [0, 1]. */
  ghost predicate Bounded(phi: ZCdf)
  {
    forall x, s, t, r :: x > 0.0 && s > 0.0 && t > 0.0 ==> 0.0 <= phi(x, s, t, r) <= 1.0
  }

  /** The z-score grows with ln x when σ√T is positive, and Φ is
      non-decreasing. */
  ghost predicate Increasing(phi: ZCdf)
  {
    forall x, y, s, t, r ::
      0.0 < x <= y && s > 0.0 && t > 0.0 ==> phi(x, s, t, r) <= phi(y, s, t, r)
  }

  /** The two probabilities a candidate reports, in percent: of ending with
      any profit and of keeping the maximum profit. */
  datatype Chances = Chances(profit: real, maxProfit: real)

  /** What every strategy reports when its probability cannot be computed. */
  const Even: Chances := Chances(50.0, 50.0)

  /** Calendar days to expiry as years, floored at a millionth of a year. */
  function Years(days: int): (t: real)
    ensures t >= 0.000001
    ensures days >= 1 ==> t == days as real / 365.0
    ensures days <= 0 ==> t == 0.000001
  {
    Max(days as real / 365.0, 0.000001)
  }

  /** Bull put spread: the maximum profit is kept when the price ends above
      the short strike, some profit when it ends above the short strike less
      the credit. A zero strike or breakeven divides by zero and falls back
      to even odds. */
  function BullPut(phi: ZCdf, spot: real, strike: real, credit: real, sigma: real, years: real, rate: real): (c: Chances)
    ensures sigma <= 0.0 || strike == 0.0 || strike - credit == 0.0 ==> c == Even
  {
    if sigma <= 0.0 || strike == 0.0 || strike - credit == 0.0 then Even
    else Chances(phi(spot / (strike - credit), sigma, years, rate) * 100.0,
                 phi(spot / strike, sigma, years, rate) * 100.0)
  }

  /** Bear call spread: ratios of the short strike, and of the short strike
      plus the credit, to spot. A zero spot falls back to even odds. */
  function BearCall(phi: ZCdf, spot: real, strike: real, credit: real, sigma: real, years: real, rate: real): (c: Chances)
    ensures sigma <= 0.0 || spot == 0.0 ==> c == Even
  {
    if sigma <= 0.0 || spot == 0.0 then Even
    else Chances(phi((strike + credit) / spot, sigma, years, rate) * 100.0,
                 phi(strike / spot, sigma, years, rate) * 100.0)
  }

  /** Covered call: the strike against spot for the maximum profit, spot
      less the premium against spot for any profit. */
  function CoveredCall(phi: ZCdf, spot: real, strike: real, premium: real, sigma: real, years: real, rate: real): (c: Chances)
    ensures sigma <= 0.0 || spot == 0.0 ==> c == Even
  {
    if sigma > 0.0 && spot != 0.0 then
      Chances(phi((spot - premium) / spot, sigma, years, rate) * 100.0,
              phi(strike / spot, sigma, years, rate) * 100.0)
    else Even
  }

  /** Cash-secured put: as the bull put spread, but a zero spot also falls
      back to even odds. */
  function CashSecuredPut(phi: ZCdf, spot: real, strike: real, premium: real, sigma: real, years: real, rate: real): (c: Chances)
    ensures sigma <= 0.0 || spot == 0.0 || strike == 0.0 || strike - premium == 0.0 ==> c == Even
  {
    if sigma > 0.0 && spot != 0.0 then
      if strike == 0.0 || strike - premium == 0.0 then Even
      else Chances(phi(spot / (strike - premium), sigma, years, rate) * 100.0,
                   phi(spot / strike, sigma, years, rate) * 100.0)
    else Even
  }

  /** Long call: spot against the strike for finishing in the money, spot
      against the strike plus the premium for any profit. */
  function LongCall(phi: ZCdf, spot: real, strike: real, premium: real, sigma: real, years: real, rate: real): (c: Chances)
    ensures sigma <= 0.0 || spot == 0.0 || strike == 0.0 || strike + premium == 0.0 ==> c == Even
  {
    if sigma > 0.0 && spot != 0.0 then
      if strike == 0.0 || strike + premium == 0.0 then Even
      else Chances(phi(spot / (strike + premium), sigma, years, rate) * 100.0,
                   phi(spot / strike, sigma, years, rate) * 100.0)
    else Even
  }

  /** Bull call spread: spot against the sold (higher) strike for the
      maximum profit, against the bought strike plus the debit for any
      profit. Spot is not checked for zero here. */
  function BullCall(phi: ZCdf, spot: real, lowStrike: real, highStrike: real, debit: real, sigma: real, years: real, rate: real): (c: Chances)
    ensures sigma <= 0.0 || highStrike == 0.0 || lowStrike + debit == 0.0 ==> c == Even
  {
    if sigma <= 0.0 || highStrike == 0.0 || lowStrike + debit == 0.0 then Even
    else Chances(phi(spot / (lowStrike + debit), sigma, years, rate) * 100.0,
                 phi(spot / highStrike, sigma, years, rate) * 100.0)
  }

  /** Iron condor expiring within a day: 5% once spot is outside the short
      strikes, otherwise 50% plus up to 40 points as spot nears the centre of
      the range (capped at 95); 50% with a zero spot. The maximum-profit
      chance is the same figure. */
  function CondorNearExpiry(spot: real, shortPut: real, shortCall: real): (p: real)
    ensures spot == 0.0 ==> p == 50.0
    ensures spot != 0.0 && (spot <= shortPut || spot >= shortCall) ==> p == 5.0
    ensures 5.0 <= p <= 95.0
  {
    if spot != 0.0 then
      if spot <= shortPut || spot >= shortCall then 5.0
      else
        var nearest := Min(spot - shortPut, shortCall - spot);
        RatioMonotone(0.0, nearest, shortCall - shortPut);
        Min(95.0, 50.0 + nearest / (shortCall - shortPut) * 40.0)
    else 50.0
  }

  /** Inside the range the near-expiry chance lies above 50% and at most
      70%, reached exactly at the midpoint; the 95% cap never applies. */
  lemma CondorNearExpiryInside(spot: real, shortPut: real, shortCall: real)
    requires spot != 0.0 && shortPut < spot < shortCall
    ensures 50.0 < CondorNearExpiry(spot, shortPut, shortCall) <= 70.0
    ensures CondorNearExpiry(spot, shortPut, shortCall) == 70.0 <==> spot - shortPut == shortCall - spot
  {
    var d := Min(spot - shortPut, shortCall - spot);
    var w := shortCall - shortPut;
    assert 0.0 < d && 2.0 * d <= w;
    RatioMonotone(d, w / 2.0, w);
    assert (w / 2.0) / w == 0.5;
    assert d / w == 0.5 <==> 2.0 * d == w by {
      assert d / w * w == d;
    }
  }

  /** Iron condor with a day or more to expiry: the chance of ending between
      the two strikes (short strikes for the maximum profit, breakevens for
      any profit), each side with its own volatility, clamped to [0, 100]. */
  function Condor(phi: ZCdf, spot: real, shortPut: real, shortCall: real, netCredit: real,
                  sigmaPut: real, sigmaCall: real, years: real, rate: real): (c: Chances)
    ensures 0.0 <= c.profit <= 100.0 && 0.0 <= c.maxProfit <= 100.0
  {
    if spot != 0.0 && sigmaPut > 0.0 && sigmaCall > 0.0 then
      var lower := phi(shortPut / spot, sigmaPut, years, rate);
      var upper := 1.0 - phi(shortCall / spot, sigmaCall, years, rate);
      var lowerProfit := phi((shortPut - netCredit) / spot, sigmaPut, years, rate);
      var upperProfit := 1.0 - phi((shortCall + netCredit) / spot, sigmaCall, years, rate);
      Chances(Clamp((1.0 - (lowerProfit + upperProfit)) * 100.0), Clamp((1.0 - (lower + upper)) * 100.0))
    else Even
  }

  /** A probability computed by Φ lies in [0, 100] percent. */
  lemma PercentBounded(phi: ZCdf, x: real, s: real, t: real, r: real)
    requires Bounded(phi) && x > 0.0 && s > 0.0 && t > 0.0
    ensures 0.0 <= phi(x, s, t, r) * 100.0 <= 100.0
  {
  }

  lemma PercentMonotone(phi: ZCdf, x: real, y: real, s: real, t: real, r: real)
    requires Increasing(phi) && 0.0 < x <= y && s > 0.0 && t > 0.0
    ensures phi(x, s, t, r) * 100.0 <= phi(y, s, t, r) * 100.0
  {
  }

  /** A credit put (spread or cash-secured) keeps some profit at least as
      often as it keeps all of it, since its breakeven lies below its strike. */
  lemma BullPutProfitAtLeastMax(phi: ZCdf, spot: real, strike: real, credit: real, sigma: real, years: real, rate: real)
    requires Increasing(phi) && Bounded(phi)
    requires spot > 0.0 && 0.0 <= credit < strike && sigma > 0.0 && years > 0.0
    ensures BullPut(phi, spot, strike, credit, sigma, years, rate).profit
         >= BullPut(phi, spot, strike, credit, sigma, years, rate).maxProfit
    ensures BullPut(phi, spot, strike, credit, sigma, years, rate)
         == CashSecuredPut(phi, spot, strike, credit, sigma, years, rate)
    ensures 0.0 <= BullPut(phi, spot, strike, credit, sigma, years, rate).maxProfit
    ensures BullPut(phi, spot, strike, credit, sigma, years, rate).profit <= 100.0
  {
    RatioAntitone(spot, strike - credit, strike);
    PercentMonotone(phi, spot / strike, spot / (strike - credit), sigma, years, rate);
    PercentBounded(phi, spot / strike, sigma, years, rate);
    PercentBounded(phi, spot / (strike - credit), sigma, years, rate);
  }

  /** With everything else fixed, a higher spot never lowers a bull put
      spread's chances: both ratios grow with spot. */
  lemma BullPutRisesWithSpot(phi: ZCdf, s1: real, s2: real, strike: real, credit: real, sigma: real, years: real, rate: real)
    requires Increasing(phi)
    requires 0.0 < s1 <= s2 && strike > 0.0 && strike - credit > 0.0 && years > 0.0
    ensures BullPut(phi, s1, strike, credit, sigma, years, rate).profit <= BullPut(phi, s2, strike, credit, sigma, years, rate).profit
    ensures BullPut(phi, s1, strike, credit, sigma, years, rate).maxProfit <= BullPut(phi, s2, strike, credit, sigma, years, rate).maxProfit
  {
    if sigma > 0.0 {
      RatioMonotone(s1, s2, strike - credit);
      RatioMonotone(s1, s2, strike);
      PercentMonotone(phi, s1 / (strike - credit), s2 / (strike - credit), sigma, years, rate);
      PercentMonotone(phi, s1 / strike, s2 / strike, sigma, years, rate);
    }
  }

  /** The same for a cash-secured put. */
  lemma CashSecuredPutRisesWithSpot(phi: ZCdf, s1: real, s2: real, strike: real, premium: real, sigma: real, years: real, rate: real)
    requires Increasing(phi)
    requires 0.0 < s1 <= s2 && strike > 0.0 && strike - premium > 0.0 && years > 0.0
    ensures CashSecuredPut(phi, s1, strike, premium, sigma, years, rate).profit
         <= CashSecuredPut(phi, s2, strike, premium, sigma, years, rate).profit
    ensures CashSecuredPut(phi, s1, strike, premium, sigma, years, rate).maxProfit
         <= CashSecuredPut(phi, s2, strike, premium, sigma, years, rate).maxProfit
  {
    if sigma > 0.0 {
      RatioMonotone(s1, s2, strike - premium);
      RatioMonotone(s1, s2, strike);
      PercentMonotone(phi, s1 / (strike - premium), s2 / (strike - premium), sigma, years, rate);
      PercentMonotone(phi, s1 / strike, s2 / strike, sigma, years, rate);
    }
  }

  /** A bear call spread keeps some profit at least as often as all of it,
      since its breakeven lies above its strike. */
  lemma BearCallProfitAtLeastMax(phi: ZCdf, spot: real, strike: real, credit: real, sigma: real, years: real, rate: real)
    requires Increasing(phi) && Bounded(phi)
    requires spot > 0.0 && strike > 0.0 && credit >= 0.0 && sigma > 0.0 && years > 0.0
    ensures BearCall(phi, spot, strike, credit, sigma, years, rate).profit
         >= BearCall(phi, spot, strike, credit, sigma, years, rate).maxProfit
    ensures 0.0 <= BearCall(phi, spot, strike, credit, sigma, years, rate).maxProfit
    ensures BearCall(phi, spot, strike, credit, sigma, years, rate).profit <= 100.0
  {
    RatioMonotone(strike, strike + credit, spot);
    PercentMonotone(phi, strike / spot, (strike + credit) / spot, sigma, years, rate);
    PercentBounded(phi, strike / spot, sigma, years, rate);
    PercentBounded(phi, (strike + credit) / spot, sigma, years, rate);
  }

  /** A long call finishes in the money at least as often as it recovers its
      premium: the breakeven lies above the strike. */
  lemma LongCallProfitAtMostMax(phi: ZCdf, spot: real, strike: real, premium: real, sigma: real, years: real, rate: real)
    requires Increasing(phi) && Bounded(phi)
    requires spot > 0.0 && strike > 0.0 && premium >= 0.0 && sigma > 0.0 && years > 0.0
    ensures LongCall(phi, spot, strike, premium, sigma, years, rate).profit
         <= LongCall(phi, spot, strike, premium, sigma, years, rate).maxProfit
    ensures 0.0 <= LongCall(phi, spot, strike, premium, sigma, years, rate).profit
    ensures LongCall(phi, spot, strike, premium, sigma, years, rate).maxProfit <= 100.0
  {
    RatioAntitone(spot, strike, strike + premium);
    PercentMonotone(phi, spot / (strike + premium), spot / strike, sigma, years, rate);
    PercentBounded(phi, spot / strike, sigma, years, rate);
    PercentBounded(phi, spot / (strike + premium), sigma, years, rate);
  }

  /** A bull call spread whose debit does not exceed its width profits at
      least as often as it reaches its maximum: its breakeven lies at or
      below the sold strike. */
  lemma BullCallProfitAtLeastMax(phi: ZCdf, spot: real, lowStrike: real, highStrike: real, debit: real, sigma: real, years: real, rate: real)
    requires Increasing(phi) && Bounded(phi)
    requires spot > 0.0 && lowStrike > 0.0 && 0.0 <= debit <= highStrike - lowStrike && sigma > 0.0 && years > 0.0
    ensures BullCall(phi, spot, lowStrike, highStrike, debit, sigma, years, rate).profit
         >= BullCall(phi, spot, lowStrike, highStrike, debit, sigma, years, rate).maxProfit
    ensures 0.0 <= BullCall(phi, spot, lowStrike, highStrike, debit, sigma, years, rate).maxProfit
    ensures BullCall(phi, spot, lowStrike, highStrike, debit, sigma, years, rate).profit <= 100.0
  {
    RatioAntitone(spot, lowStrike + debit, highStrike);
    PercentMonotone(phi, spot / highStrike, spot / (lowStrike + debit), sigma, years, rate);
    PercentBounded(phi, spot / highStrike, sigma, years, rate);
    PercentBounded(phi, spot / (lowStrike + debit), sigma, years, rate);
  }

  /** An iron condor with a non-negative credit profits at least as often as
      it keeps the whole credit: its breakevens lie outside its short strikes. */
  lemma CondorProfitAtLeastMax(phi: ZCdf, spot: real, shortPut: real, shortCall: real, netCredit: real,
                               sigmaPut: real, sigmaCall: real, years: real, rate: real)
    requires Increasing(phi)
    requires spot > 0.0 && 0.0 <= netCredit < shortPut <= shortCall
    requires sigmaPut > 0.0 && sigmaCall > 0.0 && years > 0.0
    ensures Condor(phi, spot, shortPut, shortCall, netCredit, sigmaPut, sigmaCall, years, rate).profit
         >= Condor(phi, spot, shortPut, shortCall, netCredit, sigmaPut, sigmaCall, years, rate).maxProfit
  {
    RatioMonotone(shortPut - netCredit, shortPut, spot);
    RatioMonotone(shortCall, shortCall + netCredit, spot);
    assert phi((shortPut - netCredit) / spot, sigmaPut, years, rate) <= phi(shortPut / spot, sigmaPut, years, rate);
    assert phi(shortCall / spot, sigmaCall, years, rate) <= phi((shortCall + netCredit) / spot, sigmaCall, years, rate);
    var lower := phi(shortPut / spot, sigmaPut, years, rate);
    var upper := 1.0 - phi(shortCall / spot, sigmaCall, years, rate);
    var lowerProfit := phi((shortPut - netCredit) / spot, sigmaPut, years, rate);
    var upperProfit := 1.0 - phi((shortCall + netCredit) / spot, sigmaCall, years, rate);
    ClampMonotone((1.0 - (lower + upper)) * 100.0, (1.0 - (lowerProfit + upperProfit)) * 100.0);
  }

  /** Dividing a positive number by a larger positive one gives less. */
  lemma RatioAntitone(a: real, b: real, c: real)
    requires a > 0.0 && 0.0 < b <= c
    ensures 0.0 < a / c <= a / b
  {
    assert a / c * c == a && a / b * b == a;
    assert a / b * c >= a / b * b;
  }

  /** Dividing by a positive number keeps the order. */
  lemma RatioMonotone(a: real, b: real, c: real)
    requires a <= b && c > 0.0
    ensures a / c <= b / c
    ensures a > 0.0 ==> 0.0 < a / c
  {
  }
}
