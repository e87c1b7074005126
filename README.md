# Options strategy screener: evaluation and ranking engine

This project models the engine of an options strategy screener in Dafny.
Given one underlying, the engine does the following:
- it lists the option expirations at most `max_days` away;
- it evaluates seven strategies on each of them: bull put spread, bear call
  spread, covered call, cash-secured put, long call, bull call spread and
  iron condor;
- it ranks the successful evaluations by a composite score, keeping the
  strategies diverse.

For each strategy and expiration the model follows the engine's own steps:
1. choose strikes out of the money from the option chain, with the
   fallbacks for thin chains;
2. price the legs: the bid or ask, falling back to the last traded price;
3. compute credit or debit, maximum profit, maximum loss and return on risk;
4. blend implied and historical volatility with a 20% floor, plus the iron
   condor's skew factor;
5. compute the probabilities of any profit and of maximum profit under a
   log-normal model;
6. compute a 0–100 risk score and the composite score. The engine weights
   it 70% probability, 20% ROI (scaled ×1.5) and 10% risk; the model takes
   the weights as a parameter and names the engine's as `EngineWeights`.

Market data reach the model as values:
- a `Market`: spot price, dividend yield, 30- and 90-day historical
  volatility;
- one `Expiration` per listed date: whole days to expiry, and the chain or
  its absence;
- a `SelectionConfig`: the minimum out-of-the-money percentage and the
  spread width. The engine starts with 2.5 and 5.0, and a request may
  replace them.

The standard normal distribution, logarithm and square root are not
modelled. All strategies evaluate the same expression
Φ((ln x − (r − σ²/2)T)/(σ√T)), so it is a function parameter `phi` of
type `Probability.ZCdf`. The lemmas state their assumptions about it:
values in [0, 1], and non-decreasing in the price ratio `x`.

Modules:
- `Types`: shared values.
- `Selection`, `SelectionProperties`: strike choice.
- `Payoff`: prices and profit/loss.
- `Volatility`.
- `Probability`.
- `Scoring`: risk and composite scores.
- `Strategies`: one evaluation.
- `Sorting`: the stable descending sort.
- `Ranking`: the diversifying selection, as imperative code over maps and
  sequences.
- `Aggregator`: the top-level loop.

Some behaviour of the code is modelled as written:
- The bull put, bear call and bull call spreads read an `impliedVol`
  column. Chain rows do not have that column. Their volatility is
  therefore always the 30-day historical figure blended with the 90-day
  one, which is what the model computes.
- The long call computes a volatility of `max(iv, hv30, 0.15)` and then
  overwrites it with the blend. Only the blend is modelled.
- When some expirations are in range but every evaluation on them fails,
  `analyze_all_strategies` returns an empty `strategies` list and no
  error (`AnalyzeAll`, `Aggregator.AllFailedGivesEmpty`).
- In the iron condor's fallback with fewer than two puts below spot, the
  "long" put is the second-lowest put. It therefore lies above the short
  put (`SelectionProperties.CondorPutFallback` states this).

## Model

| member | source | states |
|---|---|---|
| Volatility.Blend | app.py:67-83 | the blended volatility is never below the 20% floor |
| Volatility.BlendWithoutData | app.py:79-83 | with no positive implied or historical figure the blend is exactly the floor |
| Volatility.BlendSingleSource | app.py:75-83 | with only one positive figure the blend is that figure, floored |
| Volatility.BlendBetweenSources | app.py:70-74 | with both figures positive the blend lies between them (floored); an implied figure under 10% gets weight 0.2 and lands four times nearer the historical one, otherwise the weights are 0.7/0.3 |
| Volatility.SideImplied | app.py:1461-1462 | a condor side's implied volatility is positive exactly when one of its legs has one, and is then that leg's |
| Volatility.SkewFactor | app.py:1469-1475 | the skew factor is at least 1, and exactly 1 when no leg has a positive implied volatility |
| Volatility.SideSigma | app.py:1465-1479 | a condor side's final volatility is never below the floor |
| Volatility.SkewNeverLowers | app.py:1468-1479 | the skew adjustment never lowers a side's volatility below its plain blend |
| Scoring.Clamp | app.py:332-334 | the normalised value lies in [0, 100], equals the input inside it and the bound outside |
| Scoring.ClampMonotone | app.py:332-334 | normalisation preserves order |
| Scoring.Composite | app.py:323-341 | for any non-negative weights summing to one the composite score lies in [0, 100], whatever the ROI factor |
| Scoring.WeightedSum | app.py:336-341 | non-negative weights summing to one keep a weighted sum of three [0, 100] scores within [0, 100] |
| Scoring.CompositeMonotone | app.py:323-341 | for non-negative weights and ROI factor, raising probability, ROI or risk score never lowers the composite |
| Scoring.CompositeExtremes | app.py:323-341 | under the engine's weights the score is 100 exactly when all three inputs are at their caps and 0 exactly when all are at or below zero |
| Scoring.ProbabilityDominates | app.py:51-55 | under the engine's weights ten points more probability outweigh ROI and risk changes of up to 20 points each |
| Scoring.BullPutRisk | app.py:475-477 | the risk score is absent (division by zero raises) exactly when spot is zero, else in [0, 100] |
| Scoring.BearCallRisk | app.py:643-645 | the risk score is absent exactly when spot is zero, else in [0, 100] |
| Scoring.CoveredCallRisk | app.py:820-825 | the risk score lies in [0, 100] and is 50 at a zero spot |
| Scoring.CashSecuredPutRisk | app.py:955-960 | the risk score lies in [0, 100] and is 50 at a zero spot |
| Scoring.LongCallRisk | app.py:1090-1096 | the risk score lies in [0, 100] and is 50 at a zero spot |
| Scoring.BullCallRisk | app.py:1248-1253 | the risk score lies in [0, 100] and is 50 at a zero spot |
| Scoring.CondorRisk | app.py:1540-1547 | the risk score lies in [0, 100] and is 50 at a zero spot |
| Scoring.ShortPutRiskFavoursLowerStrikes | app.py:955-960 | a lower short put strike scores at least as high, and bull put and cash-secured put scores coincide |
| Scoring.CallRiskDirection | app.py:1090-1096 | a higher short call scores higher for the bear call, lower for covered and long calls |
| Scoring.BullCallRiskSymmetric | app.py:1248-1253 | the bull call score is 100 at the money and symmetric around spot |
| Scoring.CondorRiskOnlyWidth | app.py:1540-1547 | the condor score depends only on the gap between the short strikes, 150 points per unit of gap over spot, clamped |
| Payoff.SalePrice | app.py:407 | the sale price is zero exactly when both bid and last price are zero |
| Payoff.PurchasePrice | app.py:408 | the purchase price is zero exactly when both ask and last price are zero |
| Payoff.ReturnOnRisk | app.py:422 | the return is 0 without loss, otherwise gain over loss in percent |
| Payoff.CreditSpread | app.py:414-422 | the credit is never negative, credit plus maximum loss is the strike width, the credit is zero exactly when the sale does not exceed the purchase, and the ROI is non-negative |
| Payoff.CreditSpreadSameStrike | app.py:418-422 | a spread with both legs at one strike reports no return |
| Payoff.CoveredCall | app.py:809-813 | the maximum profit is the premium plus the gain up to the strike (exactly the premium for a strike at or below spot), the maximum loss is spot less premium, and the ROI is profit over spot |
| Payoff.CashSecuredPut | app.py:944-948 | premium plus maximum loss is the strike, and the ROI is premium over strike |
| Payoff.LongCall | app.py:1133-1135 | the profit is unbounded, the loss is the premium, and the ROI is a flat 100 |
| Payoff.BullCallSpread | app.py:1227-1234 | the debit is never negative and is the maximum loss, and maximum profit plus maximum loss is the strike distance |
| Payoff.IronCondor | app.py:1407-1414 | the net credit is the sum of the side credits and the maximum loss is the larger side loss |
| Payoff.CondorLossBounds | app.py:1411-1413 | the condor risks no more than the wider side's gap and, with its credit, at least each side's gap |
| Probability.Years | app.py:109-110 | days become days/365 years, floored at a millionth |
| Probability.BullPut | app.py:445-471 | a non-positive volatility or a zero divisor yields even 50/50 odds |
| Probability.BearCall | app.py:614-637 | a non-positive volatility or a zero spot yields even odds |
| Probability.CoveredCall | app.py:839-862 | a non-positive volatility or a zero spot yields even odds |
| Probability.CashSecuredPut | app.py:974-996 | a non-positive volatility or a zero divisor yields even odds |
| Probability.LongCall | app.py:1110-1132 | a non-positive volatility or a zero divisor yields even odds |
| Probability.BullCall | app.py:1265-1289 | a non-positive volatility or a zero divisor yields even odds |
| Probability.CondorNearExpiry | app.py:1429-1448 | within a day of expiry the condor's probability is 50 at a zero spot, 5 outside the short strikes, and always within [5, 95] |
| Probability.CondorNearExpiryInside | app.py:1440-1446 | inside the short strikes the probability is above 50 and at most 70, and 70 exactly when spot is centred |
| Probability.Condor | app.py:1484-1538 | both condor probabilities are clamped to [0, 100] |
| Probability.BullPutProfitAtLeastMax | app.py:460-468 | the chance of any profit is at least the chance of maximum profit, both in [0, 100], and the bull put's odds equal the cash-secured put's on the same strike and premium |
| Probability.BullPutRisesWithSpot | app.py:455-468 | with a non-decreasing distribution, a higher spot never lowers the bull put's chance of any profit or of maximum profit |
| Probability.CashSecuredPutRisesWithSpot | app.py:974-990 | with a non-decreasing distribution, a higher spot never lowers the cash-secured put's chance of any profit or of maximum profit |
| Probability.BearCallProfitAtLeastMax | app.py:626-634 | the chance of any profit is at least the chance of maximum profit |
| Probability.LongCallProfitAtMostMax | app.py:1119-1126 | the chance of recovering the premium is at most the chance of finishing in the money, both in [0, 100] |
| Probability.BullCallProfitAtLeastMax | app.py:1279-1286 | the chance of any profit is at least the chance of maximum profit |
| Probability.CondorProfitAtLeastMax | app.py:1501-1528 | the chance of any profit is at least the chance of staying between the short strikes |
| Selection.SelectBullPut | app.py:376-404 | legs exist exactly when the chain is non-empty, and lie within it |
| Selection.SelectBearCall | app.py:544-572 | legs exist exactly when the chain is non-empty, and lie within it |
| Selection.SelectCoveredCall | app.py:787-800 | a strike exists exactly when the chain is non-empty |
| Selection.SelectCashSecuredPut | app.py:922-935 | a strike exists exactly when the chain is non-empty |
| Selection.SelectLongCall | app.py:1057-1071 | a strike exists exactly when the chain is non-empty |
| Selection.SelectBullCall | app.py:1195-1218 | legs exist exactly when the chain has two calls |
| Selection.CondorPutSide | app.py:1348-1372 | put legs exist exactly when there are two puts |
| Selection.CondorCallSide | app.py:1374-1395 | call legs exist exactly when there are two calls |
| Selection.SelectIronCondor | app.py:1348-1395 | all four legs exist exactly when there are two puts and two calls |
| SelectionProperties.PutWingNearest | app.py:396-400 | the long put is the strike below the short one nearest the width target |
| SelectionProperties.CallWingNearest | app.py:564-568 | the long call is the strike above the short one nearest the width target |
| SelectionProperties.BullPutThreshold | app.py:377-404 | with a put at or below the OTM target the short put is the highest such and the long put the nearest to the width target below it |
| SelectionProperties.BullPutFallback | app.py:380-390 | otherwise the short put is the highest below spot (or the highest listed) and the long put the next lower |
| SelectionProperties.BearCallThreshold | app.py:545-572 | with a call at or above the OTM target the short call is the lowest such and the long call the nearest to the width target above it |
| SelectionProperties.BearCallFallback | app.py:548-558 | otherwise the short call is the lowest above spot (or the lowest listed) and the long call the next higher |
| SelectionProperties.BullPutBoughtNotAbove | app.py:376-404 | the bought put never lies above the sold put |
| SelectionProperties.BearCallBoughtNotBelow | app.py:544-572 | the bought call never lies below the sold call |
| SelectionProperties.CoveredCallStrike | app.py:787-800 | the call is the lowest at or above the target, else the lowest above spot, else the highest listed |
| SelectionProperties.CashSecuredPutStrike | app.py:922-935 | the put is the highest at or below the target, else the highest below spot, else the highest listed |
| SelectionProperties.LongCallStrike | app.py:1057-1071 | the call is the lowest at or above the target, else the lowest at or above spot, else the highest listed |
| SelectionProperties.BullCallThreshold | app.py:1197-1207 | with two calls at or above the target, the bought call is the lowest such and the sold call the one above it nearest the width target |
| SelectionProperties.BullCallFallback | app.py:1210-1218 | otherwise the two lowest calls at or above spot, else the two highest listed |
| SelectionProperties.BullCallBoughtBelowSold | app.py:1195-1218 | the bought call always lies strictly below the sold call |
| SelectionProperties.CondorPutThreshold | app.py:1351-1361 | with two puts at or below the target, the short put is the highest such and the long put the one below it nearest the width target |
| SelectionProperties.CondorPutFallback | app.py:1364-1372 | otherwise the two highest puts below spot, else the two lowest listed with the long put above the short one |
| SelectionProperties.CondorCallThreshold | app.py:1374-1384 | with two calls at or above the target, the short call is the lowest such and the long call the one above it nearest the width target |
| SelectionProperties.CondorCallFallback | app.py:1387-1395 | otherwise the two lowest calls above spot, else the two highest listed |
| Strategies.BullPut | app.py:344-512 | an empty chain raises; the only failures are a raise or missing prices; once legs are chosen it fails for missing prices exactly when the sold put's sale price or the bought put's purchase price is zero, and yields a candidate exactly when both prices and the spot are non-zero; a candidate is well formed with a non-negative credit, the selector's strikes, credit plus loss equal to the width and breakeven short strike less credit |
| Strategies.BearCall | app.py:514-675 | as for the bull put over calls (pricing fails exactly when the sold call's sale price or the bought call's purchase price is zero; a candidate exactly when both prices and the spot are non-zero), with breakeven short strike plus credit |
| Strategies.CoveredCall | app.py:758-891 | an empty chain raises; once a strike is chosen it fails for missing prices exactly when the call's sale price is zero and otherwise yields a candidate; a candidate is well formed, at the selected strike, with a non-zero premium as credit and breakeven spot less premium |
| Strategies.CashSecuredPut | app.py:893-1025 | an empty chain raises; once a strike is chosen it fails for missing prices exactly when the put's sale price is zero and otherwise yields a candidate; a candidate is well formed, at the selected strike, with a non-zero premium and breakeven strike less premium |
| Strategies.LongCall | app.py:1027-1163 | an empty chain raises; once a strike is chosen it fails for missing prices exactly when the call's purchase price is zero and otherwise yields a candidate; a candidate is well formed, at the selected strike, losing at most its non-zero premium, with breakeven strike plus premium |
| Strategies.BullCall | app.py:1165-1318 | fewer than two calls raise; once legs are chosen it fails for missing prices exactly when the bought call's purchase price or the sold call's sale price is zero and otherwise yields a candidate; a candidate is well formed with a non-negative debit as loss, profit plus loss equal to the strike distance and breakeven low strike plus debit |
| Strategies.CondorChances | app.py:1429-1538 | within a day of expiry both probabilities are the distance rule's; both always lie in [0, 100] |
| Strategies.IronCondor | app.py:1320-1579 | fewer than two puts or calls raise; once legs are chosen it fails for missing prices exactly when one of the two short legs' sale prices or the two long legs' purchase prices is zero and otherwise yields a candidate; a candidate is well formed with probabilities in [0, 100], the four selected strikes, a non-negative credit and the two breakevens |
| Strategies.Evaluate | app.py:362-377 | a failed chain download fails first, then a missing spot raises; every candidate is well formed for its strategy and expiration |
| Sorting.SortByScore | app.py:724 | the sorted list is in descending score order and a permutation of the input |
| Sorting.InsertSorted | app.py:724 | inserting into a sorted list keeps it sorted, and the new head is the old head unless the inserted candidate scores more |
| Sorting.SortByScoreStable | app.py:724 | the sort is stable: candidates of equal score keep their order |
| Sorting.SortSorted | app.py:752 | sorting an already sorted list changes nothing |
| Ranking.Limit | app.py:742 | the requested count is at least one and at least `top_n` |
| Ranking.OfType | app.py:727-732 | a strategy's group holds exactly the candidates of that strategy |
| Ranking.TypesInOrder | app.py:727-732 | the strategies appear once each, exactly those present |
| Ranking.Best | app.py:724-739 | the best candidate of a strategy is a candidate of that strategy |
| Ranking.BestIsHighest | app.py:724-739 | no candidate of the strategy scores higher than its best |
| Ranking.GroupByType | app.py:727-732 | the loop builds, in order of first appearance, the map from each strategy to its candidates in sorted order |
| Ranking.TakePerType | app.py:738-739 | the picks are the first `n` of each group, group by group |
| Ranking.Fill | app.py:741-749 | filling keeps what was picked as a prefix and appends at most the requested number of candidates |
| Ranking.FillFresh | app.py:744-746 | filling appends only candidates of the list not picked before, and repeats nothing |
| Ranking.FillComplete | app.py:743-749 | filling that stops short of the requested number has taken every candidate |
| Ranking.FillBest | app.py:743-749 | filling from a list sorted by score appends candidates that score at least as much as every candidate left out |
| Ranking.FillRemaining | app.py:741-749 | the loop computes `Fill` of the sorted list for the open slots: the picks stay a prefix, only candidates not yet picked are appended, it stops at the count or otherwise takes every candidate, and what it appends outscores whatever it leaves out |
| Ranking.PerType | app.py:736 | the per-strategy share is at least one, the shares of all strategies together never exceed the count, and the share is one when there are at least as many strategies as the count |
| Ranking.Diversify | app.py:724-753 | the result holds input candidates only, is sorted and within the count; with no repeats it is as long as possible; with no more strategies than the count every strategy's best and its whole `max(1, top_n // k)` share (`Shares`) are kept, and every other kept candidate outscores all dropped ones; with at least as many, only bests, one per strategy, and a best is dropped only when it scores no more than everything kept |
| Aggregator.InRange | app.py:687-697 | exactly the expirations one to `max_days` days away are kept |
| Aggregator.Outcomes | app.py:714-721 | an expiration yields exactly the candidates of its successful evaluations |
| Aggregator.Successes | app.py:713-721 | the candidates are exactly the successful evaluations over all kept expirations |
| Aggregator.KeepInRange | app.py:687-697 | the filtering loop computes the kept expirations |
| Aggregator.EvaluateEach | app.py:713-721 | the evaluation loops collect every successful evaluation, expiration by expiration |
| Aggregator.EvaluateAll | app.py:714-721 | the inner loop collects every successful strategy on one expiration |
| Aggregator.AnalyzeAll | app.py:677-755 | no listed expirations and no expiration in range are reported as those errors, and only then; otherwise the result is `Ok` holding the diversified ranking (as for `Ranking.Diversify`, shares and fill included) of all successful evaluations |
| Aggregator.RankedWellFormed | app.py:713-755 | every ranked candidate is a well-formed evaluation of its own strategy on an expiration within range |
| Aggregator.AllFailedGivesEmpty | app.py:713-755 | when every evaluation fails, any ranking of the successes is empty; with `AnalyzeAll`'s `Ok` exactly for a non-empty in-range list, the analysis then returns an empty list, not an error |
| Aggregator.InRangeDistinct | app.py:687-697 | filtering keeps expiration dates distinct |
| Aggregator.OutcomesDistinct | app.py:714-721 | the candidates of one expiration are distinct and of distinct strategies |
| Aggregator.SuccessesDistinct | app.py:713-721 | with distinct dates no candidate repeats, and each carries the date of a listed expiration |
| Aggregator.RankingFull | app.py:713-753 | with distinct dates the ranking repeats no candidate and holds the requested count, or every successful evaluation when there are fewer |

## Left out

- Web routes, OAuth login, API keys and the webhook endpoints are not part of this model; neither are the scheduler and the command-line scripts.
- Market data download (history, option chains, dividend yield) becomes input values. Each strategy function downloads its own data; the model gives all seven the same `Market`.
- The historical volatility estimate (standard deviation of log returns) becomes the inputs `hv30` and `hv90`.
- The normal distribution function, `erf`, logarithm and square root are abstracted into the parameter `phi`.
- Date parsing: an expiration arrives with its whole days to expiry; unparseable dates are not modelled.
- A strategy called without an expiration defaults to the first listed date. The ranker always passes one, so this is not modelled.
- RSI, Bollinger bands, intrinsic value, VIX, IV rank and earnings proximity only annotate results, so they are not modelled.
- Output formatting is not modelled: rounding of money, percentages and risk scores, the ×100 per-contract scaling, strike strings, timestamps, metadata fields and debug printing.
- Scoring.Composite: the score is not rounded to two decimals. Candidates whose exact scores differ but round to the same value are ordered by exact score here, while the engine keeps their original order.
- NaN and infinity are not modelled: a zero implied volatility read as NaN, and the logarithm of a non-positive price ratio. Probabilities are real numbers throughout.
- Every strategy sorts its chain by strike before choosing (the iron condor at app.py:1341-1342), so the model takes chains already listed in ascending strike order and does not model the sort.
- Python exceptions are modelled only where they change the outcome; the ranker swallows each one as a failed evaluation (`Raised`).
- The module-level strike-selection globals, overwritten per web request, become the `SelectionConfig` parameter.
