/** Values shared by every part of the strategy evaluation and ranking engine:
    option contracts and chains, the seven strategy shapes, the per-call
    configuration, the market inputs and the candidate a strategy produces. */
module Types {

  datatype Option<T> = None | Some(value: T)

  /** Why one (strategy, expiration) evaluation, or a whole ranking, produced
      no candidate. `Raised` stands for a Python exception inside a strategy
      function (an IndexError on too short a chain, a TypeError on a missing
      spot, a ZeroDivisionError on a zero spot), which the ranker swallows. */
  datatype Failure =
    | NoOptionsAvailable
    | ChainFetchFailed
    | NoPricingData
    | Raised
    | NoExpirationsInRange

  datatype Result<T> = Ok(value: T) | Err(failure: Failure)

  /** One row of an option chain. `impliedVolatility` is 0 when the provider
      has none. */
  datatype Contract = Contract(strike: real, bid: real, ask: real, lastPrice: real, impliedVolatility: real)

  /** The puts and calls of one expiration, each in the order the engine
      sorts them into: ascending by strike. */
  datatype OptionChain = OptionChain(puts: seq<Contract>, calls: seq<Contract>)

  datatype Strategy =
    | BullPutSpread
    | BearCallSpread
    | CoveredCall
    | CashSecuredPut
    | LongCall
    | BullCallSpread
    | IronCondor

  /** The order in which the ranker evaluates the strategies for each expiration. */
  const AllStrategies: seq<Strategy> :=
    [BullPutSpread, BearCallSpread, CoveredCall, CashSecuredPut, LongCall, BullCallSpread, IronCondor]

  /** Strike selection parameters: the minimum out-of-the-money distance of a
      short strike, in percent of spot, and the dollar width a second leg aims for. */
  datatype SelectionConfig = SelectionConfig(otmPercent: real, spreadWidth: real)

  /** The values the engine starts with; a request may replace both. */
  const DefaultSelection: SelectionConfig := SelectionConfig(2.5, 5.0)

  const RiskFreeRate: real := 0.045

  /** What the market data provider supplies for one underlying: the last
      close (None when the history request failed), the dividend yield, and
      the annualised historical volatility over 30 and over 90 trading days. */
  datatype Market = Market(spot: Option<real>, dividendYield: real, hv30: real, hv90: real)

  /** Risk-free rate net of the dividend yield. */
  function AdjustedRate(m: Market): real
  {
    RiskFreeRate - m.dividendYield
  }

  /** One listed expiration: its date, the whole days from today to it,
      and its chain (None when fetching it failed). */
  datatype Expiration = Expiration(date: string, days: int, chain: Option<OptionChain>)

  /** The strikes a candidate trades: one leg, a vertical spread (sold and
      bought strike), or the four legs of an iron condor. */
  datatype Strikes =
    | Single(strike: real)
    | Vertical(sold: real, bought: real)
    | Condor(shortPut: real, longPut: real, shortCall: real, longCall: real)

  /** A successful evaluation of one strategy on one expiration. Money amounts
      are per share; `credit` is negative for a net debit; `maxProfit` is None
      when it is unbounded. */
  datatype Candidate = Candidate(
    strategy: Strategy,
    expiry: string,
    daysToExpiry: int,
    strikes: Strikes,
    credit: real,
    maxProfit: Option<real>,
    maxLoss: real,
    roiPercent: real,
    probProfit: real,
    probMaxProfit: real,
    breakevens: seq<real>,
    riskScore: real,
    score: real)

  function Min(a: real, b: real): real { if a <= b then a else b }
  function Max(a: real, b: real): real { if a >= b then a else b }
  function Abs(x: real): real { if x >= 0.0 then x else -x }
}
