/** Leg prices and the per-share profit and loss figures of each strategy. */
module Payoff {
  import opened Types

  /** Price received for selling a contract: its bid, or its last traded
      price when the bid is zero. */
  function SalePrice(c: Contract): (p: real)
    ensures p == 0.0 <==> c.bid == 0.0 && c.lastPrice == 0.0
    ensures c.bid >= 0.0 && c.lastPrice >= 0.0 ==> p >= 0.0
  {
    if c.bid != 0.0 then c.bid else c.lastPrice
  }

  /** Price paid for buying a contract: its ask, or its last traded price
      when the ask is zero. */
  function PurchasePrice(c: Contract): (p: real)
    ensures p == 0.0 <==> c.ask == 0.0 && c.lastPrice == 0.0
    ensures c.ask >= 0.0 && c.lastPrice >= 0.0 ==> p >= 0.0
  {
    if c.ask != 0.0 then c.ask else c.lastPrice
  }

  /** The money figures of a position. `maxProfit` is None when unbounded;
      `credit` is negative for a net debit. */
  datatype Payoff = Payoff(credit: real, maxProfit: Option<real>, maxLoss: real, roiPercent: real)

  /** Return on risk in percent: gain over loss, with the loss floored at a
      millionth to avoid dividing by zero, and 0 when there is no loss. */
  function ReturnOnRisk(gain: real, loss: real): (r: real)
    ensures loss <= 0.0 ==> r == 0.0
    ensures loss >= 0.000001 ==> r * loss == gain * 100.0
    ensures gain >= 0.0 ==> r >= 0.0
  {
    if loss > 0.0 then gain / Max(0.000001, loss) * 100.0 else 0.0
  }

  /** A vertical credit spread (bull put or bear call): sell one strike, buy
      a further out-of-the-money one. The credit is never negative; the
      width between the strikes is split between the maximum profit (the
      credit) and the maximum loss. */
  function CreditSpread(salePrice: real, purchasePrice: real, soldStrike: real, boughtStrike: real): (p: Payoff)
    ensures p.credit >= 0.0 && p.maxProfit == Some(p.credit)
    ensures p.credit + p.maxLoss == Abs(soldStrike - boughtStrike)
    ensures p.credit == 0.0 <==> salePrice <= purchasePrice
    ensures p.roiPercent >= 0.0
    ensures p.maxLoss <= 0.0 ==> p.roiPercent == 0.0
  {
    var credit := Max(salePrice - purchasePrice, 0.0);
    var maxLoss := Abs(soldStrike - boughtStrike) - credit;
    Payoff(credit, Some(credit), maxLoss, ReturnOnRisk(credit, maxLoss))
  }

  /** A spread with both legs at one strike risks nothing and so reports no
      return, whatever its credit. */
  lemma CreditSpreadSameStrike(salePrice: real, purchasePrice: real, strike: real)
    ensures CreditSpread(salePrice, purchasePrice, strike, strike).roiPercent == 0.0
  {
  }

  /** A covered call on stock bought at `spot`: the premium plus any gain up
      to the strike is the most it can make; the stock falling to zero,
      less the premium, is the most it can lose. */
  function CoveredCall(spot: real, premium: real, strike: real): (p: Payoff)
    ensures p.credit == premium
    ensures p.maxProfit.Some? && p.maxProfit.value >= premium
    ensures strike >= spot ==> p.maxProfit.value == strike - spot + premium
    ensures strike <= spot ==> p.maxProfit.value == premium
    ensures p.maxLoss >= 0.0
    ensures premium <= spot ==> p.maxLoss == spot - premium
    ensures spot == 0.0 ==> p.roiPercent == 0.0
    ensures spot >= 0.000001 ==> p.roiPercent * spot == p.maxProfit.value * 100.0
  {
    var maxProfit := Max(0.0, strike - spot) + premium;
    var maxLoss := Max(0.0, spot - premium);
    var roi := if spot != 0.0 then maxProfit / Max(0.000001, spot) * 100.0 else 0.0;
    Payoff(premium, Some(maxProfit), maxLoss, roi)
  }

  /** A cash-secured put: the premium is the most it can make; assignment
      at the strike with the stock then worthless, less the premium, the
      most it can lose. Profit and loss together cover the cash set aside. */
  function CashSecuredPut(premium: real, strike: real): (p: Payoff)
    ensures p.credit == premium && p.maxProfit == Some(premium)
    ensures p.maxLoss >= 0.0
    ensures premium <= strike ==> premium + p.maxLoss == strike
    ensures strike >= 0.000001 ==> p.roiPercent * strike == premium * 100.0
  {
    var roi := premium / Max(0.000001, strike) * 100.0;
    Payoff(premium, Some(premium), Max(0.0, strike - premium), roi)
  }

  /** A long call: the premium paid is the whole risk and the profit is
      unbounded. The ROI is reported as a flat 100%. */
  function LongCall(premium: real): (p: Payoff)
    ensures p.maxProfit.None?
    ensures p.maxLoss == premium && p.credit == -p.maxLoss
    ensures p.roiPercent == 100.0
  {
    Payoff(-premium, None, premium, 100.0)
  }

  /** A bull call spread: buy the lower strike, sell the higher. The debit
      is never negative; the distance from the lower to the higher strike is
      split between the maximum profit and the maximum loss (the debit). */
  function BullCallSpread(purchasePrice: real, salePrice: real, lowStrike: real, highStrike: real): (p: Payoff)
    ensures p.maxLoss >= 0.0 && p.credit == -p.maxLoss
    ensures p.maxProfit.Some? && p.maxProfit.value + p.maxLoss == highStrike - lowStrike
    ensures p.maxLoss == 0.0 <==> purchasePrice <= salePrice
    ensures p.maxLoss == 0.0 ==> p.roiPercent == 0.0
  {
    var debit := Max(purchasePrice - salePrice, 0.0);
    var maxProfit := highStrike - lowStrike - debit;
    Payoff(-debit, Some(maxProfit), debit, ReturnOnRisk(maxProfit, debit))
  }

  /** The prices and strikes of an iron condor's four legs. */
  datatype CondorQuote = CondorQuote(
    shortPutPrice: real, longPutPrice: real, shortCallPrice: real, longCallPrice: real,
    shortPut: real, longPut: real, shortCall: real, longCall: real)

  /** An iron condor: a bull put spread and a bear call spread sold together.
      The net credit is the sum of the two sides' credits and, since the
      price can end beyond only one short strike, the maximum loss is the
      larger of the two sides' losses. */
  function IronCondor(q: CondorQuote): (p: Payoff)
    ensures p.maxProfit == Some(p.credit)
    ensures p.credit == PutSide(q).credit + CallSide(q).credit
    ensures p.maxLoss == Max(PutSide(q).maxLoss, CallSide(q).maxLoss)
    ensures p.roiPercent >= 0.0
  {
    var putCredit := Max(q.shortPutPrice - q.longPutPrice, 0.0);
    var callCredit := Max(q.shortCallPrice - q.longCallPrice, 0.0);
    var net := putCredit + callCredit;
    var putLoss := Abs(q.shortPut - q.longPut) - putCredit;
    var callLoss := Abs(q.longCall - q.shortCall) - callCredit;
    var maxLoss := Max(putLoss, callLoss);
    Payoff(net, Some(net), maxLoss, ReturnOnRisk(net, maxLoss))
  }

  /** The two sides of an iron condor, each as a credit spread. */
  function PutSide(q: CondorQuote): Payoff
  {
    CreditSpread(q.shortPutPrice, q.longPutPrice, q.shortPut, q.longPut)
  }

  function CallSide(q: CondorQuote): Payoff
  {
    CreditSpread(q.shortCallPrice, q.longCallPrice, q.shortCall, q.longCall)
  }

  /** An iron condor never risks more than the wider side's strike gap, nor
      less than either side alone after the other side's credit. */
  lemma CondorLossBounds(q: CondorQuote)
    ensures IronCondor(q).maxLoss <= Max(Abs(q.shortPut - q.longPut), Abs(q.longCall - q.shortCall))
    ensures IronCondor(q).maxLoss + IronCondor(q).credit >= Abs(q.shortPut - q.longPut)
    ensures IronCondor(q).maxLoss + IronCondor(q).credit >= Abs(q.longCall - q.shortCall)
  {
  }
}
