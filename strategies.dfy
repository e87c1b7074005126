/** Evaluation of one strategy on one expiration: strike selection, leg
    prices, payoff, volatility, probabilities and scores, assembled into a
    candidate or a failure. Market data arrive as values: the spot price,
    dividend yield and historical volatilities in a `Market`, the chain in
    the `Expiration`. The option chain rows carry no `impliedVol` column, so
    the three strategies that take their volatility from that column (both
    credit spreads and the bull call spread) always fall back to the 30-day
    historical volatility. */
module Strategies {
  import opened Types
  import opened Selection
  import opened Volatility
  import P = Payoff
  import Pr = Probability
  import Sc = Scoring

  /** What every candidate promises: it names its strategy and expiration,
      its risk score lies in [0, 100], and its score is the composite of its
      probability of profit, its ROI and its risk score. */
  predicate WellFormed(c: Candidate, s: Strategy, e: Expiration)
  {
    c.strategy == s && c.expiry == e.date && c.daysToExpiry == e.days
    && 0.0 <= c.riskScore <= 100.0
    && c.score == Sc.Composite(Sc.EngineWeights, c.probProfit, c.roiPercent, c.riskScore)
    && 0.0 <= c.score <= 100.0
  }

  /** The candidate built from a strategy's computed parts. */
  function Assemble(s: Strategy, e: Expiration, strikes: Strikes, pay: P.Payoff, chances: Pr.Chances,
                    breakevens: seq<real>, risk: real): (c: Candidate)
    requires 0.0 <= risk <= 100.0
    ensures WellFormed(c, s, e)
    ensures c.strikes == strikes && c.breakevens == breakevens
    ensures c.credit == pay.credit && c.maxProfit == pay.maxProfit && c.maxLoss == pay.maxLoss
    ensures c.roiPercent == pay.roiPercent
    ensures c.probProfit == chances.profit && c.probMaxProfit == chances.maxProfit
  {
    Candidate(s, e.date, e.days, strikes, pay.credit, pay.maxProfit, pay.maxLoss, pay.roiPercent,
              chances.profit, chances.maxProfit, breakevens, risk,
              Sc.Composite(Sc.EngineWeights, chances.profit, pay.roiPercent, risk))
  }

  /** Sell the selected put, buy the lower one. */
  function BullPut(puts: seq<Contract>, spot: real, e: Expiration, m: Market, sel: SelectionConfig, phi: Pr.ZCdf): (r: Result<Candidate>)
    ensures |puts| == 0 ==> r == Err(Raised)
    ensures SelectBullPut(puts, spot, sel).Some? ==> var l := SelectBullPut(puts, spot, sel).value;
      r == Err(NoPricingData) <==> P.SalePrice(puts[l.sold]) == 0.0 || P.PurchasePrice(puts[l.bought]) == 0.0
    ensures SelectBullPut(puts, spot, sel).Some? ==> var l := SelectBullPut(puts, spot, sel).value;
      r.Ok? <==> P.SalePrice(puts[l.sold]) != 0.0 && P.PurchasePrice(puts[l.bought]) != 0.0 && spot != 0.0
    ensures r.Err? ==> r.failure == Raised || r.failure == NoPricingData
    ensures r.Ok? ==> WellFormed(r.value, BullPutSpread, e)
    ensures r.Ok? ==> spot != 0.0 && r.value.credit >= 0.0
    ensures r.Ok? ==> SelectBullPut(puts, spot, sel).Some? && var l := SelectBullPut(puts, spot, sel).value;
      r.value.strikes == Vertical(puts[l.sold].strike, puts[l.bought].strike)
      && r.value.credit + r.value.maxLoss == Abs(puts[l.sold].strike - puts[l.bought].strike)
      && r.value.breakevens == [puts[l.sold].strike - r.value.credit]
  {
    match SelectBullPut(puts, spot, sel)
    case None => Err(Raised)
    case Some(l) =>
      var sold, bought := puts[l.sold], puts[l.bought];
      var salePrice, purchasePrice := P.SalePrice(sold), P.PurchasePrice(bought);
      if salePrice == 0.0 || purchasePrice == 0.0 then Err(NoPricingData)
      else
        var pay := P.CreditSpread(salePrice, purchasePrice, sold.strike, bought.strike);
        var sigma := Blend(m.hv30, m.hv90);
        var chances := Pr.BullPut(phi, spot, sold.strike, pay.credit, sigma, Pr.Years(e.days), AdjustedRate(m));
        match Sc.BullPutRisk(spot, sold.strike)
        case None => Err(Raised)
        case Some(risk) =>
          Ok(Assemble(BullPutSpread, e, Vertical(sold.strike, bought.strike), pay, chances,
                      [sold.strike - pay.credit], risk))
  }

  /** Sell the selected call, buy the higher one. */
  function BearCall(calls: seq<Contract>, spot: real, e: Expiration, m: Market, sel: SelectionConfig, phi: Pr.ZCdf): (r: Result<Candidate>)
    ensures |calls| == 0 ==> r == Err(Raised)
    ensures SelectBearCall(calls, spot, sel).Some? ==> var l := SelectBearCall(calls, spot, sel).value;
      r == Err(NoPricingData) <==> P.SalePrice(calls[l.sold]) == 0.0 || P.PurchasePrice(calls[l.bought]) == 0.0
    ensures SelectBearCall(calls, spot, sel).Some? ==> var l := SelectBearCall(calls, spot, sel).value;
      r.Ok? <==> P.SalePrice(calls[l.sold]) != 0.0 && P.PurchasePrice(calls[l.bought]) != 0.0 && spot != 0.0
    ensures r.Err? ==> r.failure == Raised || r.failure == NoPricingData
    ensures r.Ok? ==> WellFormed(r.value, BearCallSpread, e)
    ensures r.Ok? ==> spot != 0.0 && r.value.credit >= 0.0
    ensures r.Ok? ==> SelectBearCall(calls, spot, sel).Some? && var l := SelectBearCall(calls, spot, sel).value;
      r.value.strikes == Vertical(calls[l.sold].strike, calls[l.bought].strike)
      && r.value.credit + r.value.maxLoss == Abs(calls[l.sold].strike - calls[l.bought].strike)
      && r.value.breakevens == [calls[l.sold].strike + r.value.credit]
  {
    match SelectBearCall(calls, spot, sel)
    case None => Err(Raised)
    case Some(l) =>
      var sold, bought := calls[l.sold], calls[l.bought];
      var salePrice, purchasePrice := P.SalePrice(sold), P.PurchasePrice(bought);
      if salePrice == 0.0 || purchasePrice == 0.0 then Err(NoPricingData)
      else
        var pay := P.CreditSpread(salePrice, purchasePrice, sold.strike, bought.strike);
        var sigma := Blend(m.hv30, m.hv90);
        var chances := Pr.BearCall(phi, spot, sold.strike, pay.credit, sigma, Pr.Years(e.days), AdjustedRate(m));
        match Sc.BearCallRisk(spot, sold.strike)
        case None => Err(Raised)
        case Some(risk) =>
          Ok(Assemble(BearCallSpread, e, Vertical(sold.strike, bought.strike), pay, chances,
                      [sold.strike + pay.credit], risk))
  }

  /** Own the stock at spot and sell the selected call against it. */
  function CoveredCall(calls: seq<Contract>, spot: real, e: Expiration, m: Market, sel: SelectionConfig, phi: Pr.ZCdf): (r: Result<Candidate>)
    ensures |calls| == 0 ==> r == Err(Raised)
    ensures SelectCoveredCall(calls, spot, sel).Some? ==>
      (r == Err(NoPricingData) <==> P.SalePrice(calls[SelectCoveredCall(calls, spot, sel).value]) == 0.0)
    ensures SelectCoveredCall(calls, spot, sel).Some? ==>
      (r.Ok? <==> P.SalePrice(calls[SelectCoveredCall(calls, spot, sel).value]) != 0.0)
    ensures r.Err? ==> r.failure == Raised || r.failure == NoPricingData
    ensures r.Ok? ==> WellFormed(r.value, Strategy.CoveredCall, e)
    ensures r.Ok? ==> SelectCoveredCall(calls, spot, sel).Some? && var k := SelectCoveredCall(calls, spot, sel).value;
      r.value.strikes == Single(calls[k].strike)
      && r.value.credit == P.SalePrice(calls[k]) != 0.0
      && r.value.breakevens == [spot - r.value.credit]
  {
    match SelectCoveredCall(calls, spot, sel)
    case None => Err(Raised)
    case Some(k) =>
      var call := calls[k];
      var premium := P.SalePrice(call);
      if premium == 0.0 then Err(NoPricingData)
      else
        var pay := P.CoveredCall(spot, premium, call.strike);
        var sigma := Blend(call.impliedVolatility, m.hv90);
        var chances := Pr.CoveredCall(phi, spot, call.strike, premium, sigma, Pr.Years(e.days), AdjustedRate(m));
        Ok(Assemble(Strategy.CoveredCall, e, Single(call.strike), pay, chances, [spot - premium],
                    Sc.CoveredCallRisk(spot, call.strike)))
  }

  /** Sell the selected put, holding its strike in cash. */
  function CashSecuredPut(puts: seq<Contract>, spot: real, e: Expiration, m: Market, sel: SelectionConfig, phi: Pr.ZCdf): (r: Result<Candidate>)
    ensures |puts| == 0 ==> r == Err(Raised)
    ensures SelectCashSecuredPut(puts, spot, sel).Some? ==>
      (r == Err(NoPricingData) <==> P.SalePrice(puts[SelectCashSecuredPut(puts, spot, sel).value]) == 0.0)
    ensures SelectCashSecuredPut(puts, spot, sel).Some? ==>
      (r.Ok? <==> P.SalePrice(puts[SelectCashSecuredPut(puts, spot, sel).value]) != 0.0)
    ensures r.Err? ==> r.failure == Raised || r.failure == NoPricingData
    ensures r.Ok? ==> WellFormed(r.value, Strategy.CashSecuredPut, e)
    ensures r.Ok? ==> SelectCashSecuredPut(puts, spot, sel).Some? && var k := SelectCashSecuredPut(puts, spot, sel).value;
      r.value.strikes == Single(puts[k].strike)
      && r.value.credit == P.SalePrice(puts[k]) != 0.0
      && r.value.breakevens == [puts[k].strike - r.value.credit]
  {
    match SelectCashSecuredPut(puts, spot, sel)
    case None => Err(Raised)
    case Some(k) =>
      var put := puts[k];
      var premium := P.SalePrice(put);
      if premium == 0.0 then Err(NoPricingData)
      else
        var pay := P.CashSecuredPut(premium, put.strike);
        var sigma := Blend(put.impliedVolatility, m.hv90);
        var chances := Pr.CashSecuredPut(phi, spot, put.strike, premium, sigma, Pr.Years(e.days), AdjustedRate(m));
        Ok(Assemble(Strategy.CashSecuredPut, e, Single(put.strike), pay, chances, [put.strike - premium],
                    Sc.CashSecuredPutRisk(spot, put.strike)))
  }

  /** Buy the selected call. */
  function LongCall(calls: seq<Contract>, spot: real, e: Expiration, m: Market, sel: SelectionConfig, phi: Pr.ZCdf): (r: Result<Candidate>)
    ensures |calls| == 0 ==> r == Err(Raised)
    ensures SelectLongCall(calls, spot, sel).Some? ==>
      (r == Err(NoPricingData) <==> P.PurchasePrice(calls[SelectLongCall(calls, spot, sel).value]) == 0.0)
    ensures SelectLongCall(calls, spot, sel).Some? ==>
      (r.Ok? <==> P.PurchasePrice(calls[SelectLongCall(calls, spot, sel).value]) != 0.0)
    ensures r.Err? ==> r.failure == Raised || r.failure == NoPricingData
    ensures r.Ok? ==> WellFormed(r.value, Strategy.LongCall, e)
    ensures r.Ok? ==> SelectLongCall(calls, spot, sel).Some? && var k := SelectLongCall(calls, spot, sel).value;
      r.value.strikes == Single(calls[k].strike)
      && r.value.maxLoss == P.PurchasePrice(calls[k]) != 0.0
      && r.value.breakevens == [calls[k].strike + r.value.maxLoss]
  {
    match SelectLongCall(calls, spot, sel)
    case None => Err(Raised)
    case Some(k) =>
      var call := calls[k];
      var premium := P.PurchasePrice(call);
      if premium == 0.0 then Err(NoPricingData)
      else
        var pay := P.LongCall(premium);
        var sigma := Blend(call.impliedVolatility, m.hv90);
        var chances := Pr.LongCall(phi, spot, call.strike, premium, sigma, Pr.Years(e.days), AdjustedRate(m));
        Ok(Assemble(Strategy.LongCall, e, Single(call.strike), pay, chances, [call.strike + premium],
                    Sc.LongCallRisk(spot, call.strike)))
  }

  /** Buy the selected lower call, sell the higher one. */
  function BullCall(calls: seq<Contract>, spot: real, e: Expiration, m: Market, sel: SelectionConfig, phi: Pr.ZCdf): (r: Result<Candidate>)
    ensures |calls| < 2 ==> r == Err(Raised)
    ensures SelectBullCall(calls, spot, sel).Some? ==> var l := SelectBullCall(calls, spot, sel).value;
      r == Err(NoPricingData) <==> P.PurchasePrice(calls[l.bought]) == 0.0 || P.SalePrice(calls[l.sold]) == 0.0
    ensures SelectBullCall(calls, spot, sel).Some? ==> var l := SelectBullCall(calls, spot, sel).value;
      r.Ok? <==> P.PurchasePrice(calls[l.bought]) != 0.0 && P.SalePrice(calls[l.sold]) != 0.0
    ensures r.Err? ==> r.failure == Raised || r.failure == NoPricingData
    ensures r.Ok? ==> WellFormed(r.value, BullCallSpread, e)
    ensures r.Ok? ==> SelectBullCall(calls, spot, sel).Some? && var l := SelectBullCall(calls, spot, sel).value;
      r.value.strikes == Vertical(calls[l.sold].strike, calls[l.bought].strike)
      && r.value.maxLoss >= 0.0 && r.value.credit == -r.value.maxLoss
      && r.value.maxProfit == Some(calls[l.sold].strike - calls[l.bought].strike - r.value.maxLoss)
      && r.value.breakevens == [calls[l.bought].strike + r.value.maxLoss]
  {
    match SelectBullCall(calls, spot, sel)
    case None => Err(Raised)
    case Some(l) =>
      var high, low := calls[l.sold], calls[l.bought];
      var purchasePrice, salePrice := P.PurchasePrice(low), P.SalePrice(high);
      if purchasePrice == 0.0 || salePrice == 0.0 then Err(NoPricingData)
      else
        var pay := P.BullCallSpread(purchasePrice, salePrice, low.strike, high.strike);
        var sigma := Blend(m.hv30, m.hv90);
        var chances := Pr.BullCall(phi, spot, low.strike, high.strike, pay.maxLoss, sigma, Pr.Years(e.days), AdjustedRate(m));
        Ok(Assemble(BullCallSpread, e, Vertical(high.strike, low.strike), pay, chances, [low.strike + pay.maxLoss],
                    Sc.BullCallRisk(spot, low.strike)))
  }

  /** The probabilities of an iron condor: the distance rule within a day
      of expiry, the per-side log-normal model otherwise. */
  function CondorChances(puts: seq<Contract>, calls: seq<Contract>, l: CondorLegs, spot: real, netCredit: real,
                         e: Expiration, m: Market, phi: Pr.ZCdf): (c: Pr.Chances)
    requires l.shortPut < |puts| && l.longPut < |puts| && l.shortCall < |calls| && l.longCall < |calls|
    ensures e.days < 1 ==> c.profit == c.maxProfit == Pr.CondorNearExpiry(spot, puts[l.shortPut].strike, calls[l.shortCall].strike)
    ensures 0.0 <= c.profit <= 100.0 && 0.0 <= c.maxProfit <= 100.0
  {
    var shortPut, longPut, shortCall, longCall := puts[l.shortPut], puts[l.longPut], calls[l.shortCall], calls[l.longCall];
    if e.days < 1 then
      var p := Pr.CondorNearExpiry(spot, shortPut.strike, shortCall.strike);
      Pr.Chances(p, p)
    else
      var legIvs := [shortPut.impliedVolatility, longPut.impliedVolatility,
                     shortCall.impliedVolatility, longCall.impliedVolatility];
      var skew := SkewFactor(legIvs);
      var sigmaPut := SideSigma(SideImplied(shortPut.impliedVolatility, longPut.impliedVolatility), m.hv90, skew);
      var sigmaCall := SideSigma(SideImplied(shortCall.impliedVolatility, longCall.impliedVolatility), m.hv90, skew);
      Pr.Condor(phi, spot, shortPut.strike, shortCall.strike, netCredit, sigmaPut, sigmaCall,
                Pr.Years(e.days), AdjustedRate(m))
  }

  /** Sell a put spread below spot and a call spread above it. */
  function IronCondor(puts: seq<Contract>, calls: seq<Contract>, spot: real, e: Expiration, m: Market, sel: SelectionConfig, phi: Pr.ZCdf): (r: Result<Candidate>)
    ensures |puts| < 2 || |calls| < 2 ==> r == Err(Raised)
    ensures SelectIronCondor(puts, calls, spot, sel).Some? ==> var l := SelectIronCondor(puts, calls, spot, sel).value;
      r == Err(NoPricingData) <==>
        P.SalePrice(puts[l.shortPut]) == 0.0 || P.PurchasePrice(puts[l.longPut]) == 0.0
        || P.SalePrice(calls[l.shortCall]) == 0.0 || P.PurchasePrice(calls[l.longCall]) == 0.0
    ensures SelectIronCondor(puts, calls, spot, sel).Some? ==> var l := SelectIronCondor(puts, calls, spot, sel).value;
      r.Ok? <==>
        P.SalePrice(puts[l.shortPut]) != 0.0 && P.PurchasePrice(puts[l.longPut]) != 0.0
        && P.SalePrice(calls[l.shortCall]) != 0.0 && P.PurchasePrice(calls[l.longCall]) != 0.0
    ensures r.Err? ==> r.failure == Raised || r.failure == NoPricingData
    ensures r.Ok? ==> WellFormed(r.value, Strategy.IronCondor, e)
    ensures r.Ok? ==> 0.0 <= r.value.probProfit <= 100.0 && 0.0 <= r.value.probMaxProfit <= 100.0
    ensures r.Ok? ==> SelectIronCondor(puts, calls, spot, sel).Some? && var l := SelectIronCondor(puts, calls, spot, sel).value;
      r.value.strikes == Condor(puts[l.shortPut].strike, puts[l.longPut].strike, calls[l.shortCall].strike, calls[l.longCall].strike)
      && r.value.credit >= 0.0
      && r.value.breakevens == [puts[l.shortPut].strike - r.value.credit, calls[l.shortCall].strike + r.value.credit]
  {
    match SelectIronCondor(puts, calls, spot, sel)
    case None => Err(Raised)
    case Some(l) =>
      var shortPut, longPut, shortCall, longCall := puts[l.shortPut], puts[l.longPut], calls[l.shortCall], calls[l.longCall];
      var q := P.CondorQuote(P.SalePrice(shortPut), P.PurchasePrice(longPut), P.SalePrice(shortCall), P.PurchasePrice(longCall),
                             shortPut.strike, longPut.strike, shortCall.strike, longCall.strike);
      if q.shortPutPrice == 0.0 || q.longPutPrice == 0.0 || q.shortCallPrice == 0.0 || q.longCallPrice == 0.0 then
        Err(NoPricingData)
      else
        var pay := P.IronCondor(q);
        var chances := CondorChances(puts, calls, l, spot, pay.credit, e, m, phi);
        Ok(Assemble(Strategy.IronCondor, e, Condor(shortPut.strike, longPut.strike, shortCall.strike, longCall.strike),
                    pay, chances, [shortPut.strike - pay.credit, shortCall.strike + pay.credit],
                    Sc.CondorRisk(spot, shortPut.strike, shortCall.strike)))
  }

  /** One strategy on one expiration. A failed chain download and a missing
      spot price (which makes strike selection raise) come first. */
  function Evaluate(s: Strategy, e: Expiration, m: Market, sel: SelectionConfig, phi: Pr.ZCdf): (r: Result<Candidate>)
    ensures e.chain.None? ==> r == Err(ChainFetchFailed)
    ensures e.chain.Some? && m.spot.None? ==> r == Err(Raised)
    ensures r.Ok? ==> WellFormed(r.value, s, e)
  {
    match e.chain
    case None => Err(ChainFetchFailed)
    case Some(chain) =>
      match m.spot
      case None => Err(Raised)
      case Some(spot) =>
        match s
        case BullPutSpread => BullPut(chain.puts, spot, e, m, sel, phi)
        case BearCallSpread => BearCall(chain.calls, spot, e, m, sel, phi)
        case CoveredCall => CoveredCall(chain.calls, spot, e, m, sel, phi)
        case CashSecuredPut => CashSecuredPut(chain.puts, spot, e, m, sel, phi)
        case LongCall => LongCall(chain.calls, spot, e, m, sel, phi)
        case BullCallSpread => BullCall(chain.calls, spot, e, m, sel, phi)
        case IronCondor => IronCondor(chain.puts, chain.calls, spot, e, m, sel, phi)
  }
}
