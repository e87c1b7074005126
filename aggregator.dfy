/** The top-level analysis of one underlying: keep the listed expirations
    that fall within the requested horizon, evaluate every strategy on
    each of them, keep the successful evaluations and rank them. The list
    of expirations, the market data and the normal distribution arrive as
    values. */
module Aggregator {
  import opened Types
  import opened Ranking
  import St = Strategies
  import Pr = Probability

  /** The expirations at least one and at most `maxDays` days away, in
      their listed order. */
  function InRange(exps: seq<Expiration>, maxDays: int): (r: seq<Expiration>)
    ensures forall e :: e in r <==> e in exps && 1 <= e.days <= maxDays
    ensures |r| <= |exps|
  {
    if exps == [] then []
    else
      var e := exps[|exps| - 1];
      assert exps == exps[..|exps| - 1] + [e];
      InRange(exps[..|exps| - 1], maxDays) + (if 1 <= e.days <= maxDays then [e] else [])
  }

  /** The candidates produced by evaluating the strategies `ks`, in order,
      on the expiration `e`; failed evaluations contribute nothing. */
  function Outcomes(ks: seq<Strategy>, e: Expiration, m: Market, sel: SelectionConfig, phi: Pr.ZCdf): (r: seq<Candidate>)
    ensures forall c :: c in r <==> exists k :: k in ks && St.Evaluate(k, e, m, sel, phi) == Ok(c)
    ensures |r| <= |ks|
  {
    if ks == [] then []
    else
      var k := ks[|ks| - 1];
      assert ks == ks[..|ks| - 1] + [k];
      Outcomes(ks[..|ks| - 1], e, m, sel, phi) + (match St.Evaluate(k, e, m, sel, phi) case Ok(c) => [c] case Err(_) => [])
  }

  /** The candidates of every strategy on every expiration of `exps`,
      expiration by expiration. */
  function Successes(exps: seq<Expiration>, m: Market, sel: SelectionConfig, phi: Pr.ZCdf): (r: seq<Candidate>)
    ensures forall c :: c in r <==> exists e, k :: e in exps && St.Evaluate(k, e, m, sel, phi) == Ok(c)
  {
    if exps == [] then []
    else
      var e := exps[|exps| - 1];
      assert exps == exps[..|exps| - 1] + [e];
      AllOutcomes(e, m, sel, phi);
      Successes(exps[..|exps| - 1], m, sel, phi) + Outcomes(AllStrategies, e, m, sel, phi)
  }

  /** Every strategy is evaluated on each expiration. */
  lemma AllOutcomes(e: Expiration, m: Market, sel: SelectionConfig, phi: Pr.ZCdf)
    ensures forall c :: c in Outcomes(AllStrategies, e, m, sel, phi) <==> exists k :: St.Evaluate(k, e, m, sel, phi) == Ok(c)
  {
    forall c, k | St.Evaluate(k, e, m, sel, phi) == Ok(c) ensures c in Outcomes(AllStrategies, e, m, sel, phi) {
      assert k in AllStrategies;
    }
  }

  /** Analyses one underlying for the horizon `maxDays` and the requested
      count `topN`:
      - no listed expirations is reported as such, and so is none within
        the horizon;
      - otherwise the result is the ranking of every successful
        evaluation on the expirations within the horizon, which may be
        empty when every evaluation failed. */
  method AnalyzeAll(exps: seq<Expiration>, maxDays: int, topN: int, m: Market, sel: SelectionConfig, phi: Pr.ZCdf)
    returns (r: Result<seq<Candidate>>)
    ensures exps == [] <==> r == Err(NoOptionsAvailable)
    ensures exps != [] && InRange(exps, maxDays) == [] <==> r == Err(NoExpirationsInRange)
    ensures r.Ok? <==> exps != [] && InRange(exps, maxDays) != []
    ensures r.Err? || Diversified(Successes(InRange(exps, maxDays), m, sel, phi), topN, r.value)
  {
    if exps == [] {
      return Err(NoOptionsAvailable);
    }
    var valid := KeepInRange(exps, maxDays);
    if valid == [] {
      return Err(NoExpirationsInRange);
    }
    var found := EvaluateEach(valid, m, sel, phi);
    var top := Diversify(found, topN);
    return Ok(top);
  }

  /** The expirations of `exps` within the horizon, in order. */
  method KeepInRange(exps: seq<Expiration>, maxDays: int) returns (valid: seq<Expiration>)
    ensures valid == InRange(exps, maxDays)
  {
    valid := [];
    for i := 0 to |exps|
      invariant valid == InRange(exps[..i], maxDays)
    {
      assert exps[..i + 1] == exps[..i] + [exps[i]];
      if 1 <= exps[i].days <= maxDays {
        valid := valid + [exps[i]];
      }
    }
    assert exps[..|exps|] == exps;
  }

  /** Evaluates every strategy on every expiration, expiration by
      expiration, keeping the candidates of the evaluations that succeed. */
  method EvaluateEach(valid: seq<Expiration>, m: Market, sel: SelectionConfig, phi: Pr.ZCdf) returns (found: seq<Candidate>)
    ensures found == Successes(valid, m, sel, phi)
  {
    found := [];
    for i := 0 to |valid|
      invariant found == Successes(valid[..i], m, sel, phi)
    {
      assert valid[..i + 1] == valid[..i] + [valid[i]];
      var more := EvaluateAll(valid[i], m, sel, phi);
      found := found + more;
    }
    assert valid[..|valid|] == valid;
  }

  /** Evaluates every strategy, in order, on one expiration, keeping the
      candidates of those that succeed. */
  method EvaluateAll(e: Expiration, m: Market, sel: SelectionConfig, phi: Pr.ZCdf) returns (found: seq<Candidate>)
    ensures found == Outcomes(AllStrategies, e, m, sel, phi)
  {
    found := [];
    for j := 0 to |AllStrategies|
      invariant found == Outcomes(AllStrategies[..j], e, m, sel, phi)
    {
      assert AllStrategies[..j + 1] == AllStrategies[..j] + [AllStrategies[j]];
      match St.Evaluate(AllStrategies[j], e, m, sel, phi)
      case Ok(c) => found := found + [c];
      case Err(_) =>
    }
    assert AllStrategies[..|AllStrategies|] == AllStrategies;
  }

  /** Every ranked candidate is a well-formed evaluation of its own
      strategy on an expiration within the horizon. */
  lemma RankedWellFormed(exps: seq<Expiration>, maxDays: int, topN: int, m: Market, sel: SelectionConfig, phi: Pr.ZCdf,
                         top: seq<Candidate>)
    requires Diversified(Successes(InRange(exps, maxDays), m, sel, phi), topN, top)
    ensures forall c :: c in top ==>
              exists e :: e in exps && 1 <= e.days <= maxDays && St.WellFormed(c, c.strategy, e)
  {
    forall c | c in top ensures exists e :: e in exps && 1 <= e.days <= maxDays && St.WellFormed(c, c.strategy, e) {
      var e, k :| e in InRange(exps, maxDays) && St.Evaluate(k, e, m, sel, phi) == Ok(c);
      assert St.WellFormed(c, k, e);
    }
  }

  /** When every evaluation fails, the analysis succeeds with no candidates
      rather than reporting an error. */
  lemma AllFailedGivesEmpty(exps: seq<Expiration>, maxDays: int, topN: int, m: Market, sel: SelectionConfig, phi: Pr.ZCdf,
                            top: seq<Candidate>)
    requires forall e, k :: e in exps ==> St.Evaluate(k, e, m, sel, phi).Err?
    requires Diversified(Successes(InRange(exps, maxDays), m, sel, phi), topN, top)
    ensures top == []
  {
    NoSuccesses(InRange(exps, maxDays), m, sel, phi);
  }

  lemma {:induction false} NoSuccesses(exps: seq<Expiration>, m: Market, sel: SelectionConfig, phi: Pr.ZCdf)
    requires forall e, k :: e in exps ==> St.Evaluate(k, e, m, sel, phi).Err?
    ensures Successes(exps, m, sel, phi) == []
  {
    if exps != [] {
      var e := exps[|exps| - 1];
      assert e in exps;
      NoSuccesses(exps[..|exps| - 1], m, sel, phi);
      NoOutcomes(AllStrategies, e, m, sel, phi);
    }
  }

  lemma {:induction false} NoOutcomes(ks: seq<Strategy>, e: Expiration, m: Market, sel: SelectionConfig, phi: Pr.ZCdf)
    requires forall k :: St.Evaluate(k, e, m, sel, phi).Err?
    ensures Outcomes(ks, e, m, sel, phi) == []
  {
    if ks != [] {
      NoOutcomes(ks[..|ks| - 1], e, m, sel, phi);
    }
  }

  predicate DistinctDates(exps: seq<Expiration>)
  {
    forall i, j :: 0 <= i < j < |exps| ==> exps[i].date != exps[j].date
  }

  /** Keeping the expirations within the horizon keeps their dates distinct. */
  lemma {:induction false} InRangeDistinct(exps: seq<Expiration>, maxDays: int)
    requires DistinctDates(exps)
    ensures DistinctDates(InRange(exps, maxDays))
  {
    if exps != [] {
      var init := exps[..|exps| - 1];
      var e := exps[|exps| - 1];
      assert exps == init + [e];
      InRangeDistinct(init, maxDays);
      var r := InRange(init, maxDays);
      forall x | x in r ensures x.date != e.date {
        var i :| 0 <= i < |init| && init[i] == x;
        assert exps[i] == x;
      }
    }
  }

  /** Candidates of one expiration differ in strategy. */
  lemma {:induction false} OutcomesDistinct(ks: seq<Strategy>, e: Expiration, m: Market, sel: SelectionConfig, phi: Pr.ZCdf)
    requires Distinct(ks)
    ensures Distinct(Outcomes(ks, e, m, sel, phi))
    ensures forall c :: c in Outcomes(ks, e, m, sel, phi) ==> c.expiry == e.date && c.strategy in ks
  {
    if ks != [] {
      var init := ks[..|ks| - 1];
      var k := ks[|ks| - 1];
      assert ks == init + [k];
      OutcomesDistinct(init, e, m, sel, phi);
      var front := Outcomes(init, e, m, sel, phi);
      match St.Evaluate(k, e, m, sel, phi) {
        case Ok(c) =>
          assert St.WellFormed(c, k, e);
          assert Outcomes(ks, e, m, sel, phi) == front + [c];
          AppendOutcome(front, [c], init, k, e.date);
        case Err(_) =>
          assert Outcomes(ks, e, m, sel, phi) == front + [];
          AppendOutcome(front, [], init, k, e.date);
      }
    }
  }

  /** One more strategy's candidate, dated `date`, keeps the candidates
      distinct. */
  lemma AppendOutcome(front: seq<Candidate>, last: seq<Candidate>, init: seq<Strategy>, k: Strategy, date: string)
    requires Distinct(front) && forall c :: c in front ==> c.expiry == date && c.strategy in init
    requires Distinct(init + [k]) && |last| <= 1
    requires forall c :: c in last ==> c.expiry == date && c.strategy == k
    ensures Distinct(front + last)
    ensures forall c :: c in front + last ==> c.expiry == date && c.strategy in init + [k]
  {
    forall i | 0 <= i < |init| ensures init[i] != k {
      assert (init + [k])[i] == init[i] && (init + [k])[|init|] == k;
    }
  }

  /** Listed expirations with distinct dates yield no repeated candidate;
      each candidate carries the date of one of them. */
  lemma {:induction false} SuccessesDistinct(exps: seq<Expiration>, m: Market, sel: SelectionConfig, phi: Pr.ZCdf)
    requires DistinctDates(exps)
    ensures Distinct(Successes(exps, m, sel, phi))
    ensures forall c :: c in Successes(exps, m, sel, phi) ==> exists e :: e in exps && c.expiry == e.date
  {
    if exps != [] {
      var init := exps[..|exps| - 1];
      var e := exps[|exps| - 1];
      assert exps == init + [e];
      SuccessesDistinct(init, m, sel, phi);
      OutcomesDistinct(AllStrategies, e, m, sel, phi);
      var front := Successes(init, m, sel, phi);
      var back := Outcomes(AllStrategies, e, m, sel, phi);
      forall x | x in front ensures x.expiry != e.date {
        var y :| y in init && x.expiry == y.date;
        var i :| 0 <= i < |init| && init[i] == y;
        assert exps[i] == y;
      }
      forall c | c in front + back ensures exists e' :: e' in exps && c.expiry == e'.date {
        if c in back {
          assert e in exps;
        } else {
          var y :| y in init && c.expiry == y.date;
          assert y in exps;
        }
      }
    }
  }

  /** With distinct listed dates the ranking repeats no candidate and is as
      long as requested, or as the number of successful evaluations on the
      expirations within the horizon when there are fewer. */
  lemma RankingFull(exps: seq<Expiration>, maxDays: int, topN: int, m: Market, sel: SelectionConfig, phi: Pr.ZCdf,
                    top: seq<Candidate>)
    requires DistinctDates(exps)
    requires Diversified(Successes(InRange(exps, maxDays), m, sel, phi), topN, top)
    ensures Distinct(top)
    ensures var n := |Successes(InRange(exps, maxDays), m, sel, phi)|;
            |top| == if n <= Limit(topN) then n else Limit(topN)
  {
    InRangeDistinct(exps, maxDays);
    SuccessesDistinct(InRange(exps, maxDays), m, sel, phi);
  }
}
