/** Strike selection for the seven strategy shapes. A chain is a sequence of
    contracts in ascending strike order; a selector answers with positions in
    that sequence. Every selector follows the same fallback chain: strikes past
    the out-of-the-money threshold, then strikes past spot, then the extreme or
    adjacent positions of the chain. The selectors are total on any sequence
    (they read it the way a filtered data frame is read, by position); the
    lemmas that speak of "highest" or "nearest" strikes assume the ascending
    order. */
module Selection {
  import opened Types

  /** A strike filter: `k <= x`, `k < x`, `k >= x` or `k > x`. */
  datatype Bound = AtMost(x: real) | Below(x: real) | AtLeast(x: real) | Above(x: real)

  predicate Admits(b: Bound, k: real) {
    match b
    case AtMost(x) => k <= x
    case Below(x) => k < x
    case AtLeast(x) => k >= x
    case Above(x) => k > x
  }

  predicate Ascending(c: seq<Contract>) {
    forall i, j :: 0 <= i < j < |c| ==> c[i].strike < c[j].strike
  }

  /** The positions, in chain order, of the contracts whose strike the bound
      admits: the rows a filtered frame keeps. */
  function Matching(c: seq<Contract>, b: Bound): (m: seq<nat>)
    ensures |m| <= |c|
    ensures forall k :: 0 <= k < |m| ==> m[k] < |c| && Admits(b, c[m[k]].strike)
  {
    MatchingBefore(c, b, |c|)
  }

  /** The admitted positions among the first `n`. */
  function MatchingBefore(c: seq<Contract>, b: Bound, n: nat): (m: seq<nat>)
    requires n <= |c|
    ensures |m| <= n
    ensures forall k :: 0 <= k < |m| ==> m[k] < n && Admits(b, c[m[k]].strike)
  {
    if n == 0 then []
    else MatchingBefore(c, b, n - 1) + (if Admits(b, c[n - 1].strike) then [n - 1] else [])
  }

  function Last(m: seq<nat>): nat
    requires |m| > 0
  {
    m[|m| - 1]
  }

  function Distance(c: Contract, target: real): real {
    Abs(c.strike - target)
  }

  /** The position in `m` of the first contract whose strike is nearest to
      `target` (the first minimum, as an idxmin over the distances). */
  function NearestPos(c: seq<Contract>, m: seq<nat>, target: real): (p: nat)
    requires |m| > 0
    requires forall k :: 0 <= k < |m| ==> m[k] < |c|
    ensures p < |m|
  {
    NearestPosBefore(c, m, target, |m|)
  }

  /** The first nearest among the first `n` positions of `m`. */
  function NearestPosBefore(c: seq<Contract>, m: seq<nat>, target: real, n: nat): (p: nat)
    requires 0 < n <= |m|
    requires forall k :: 0 <= k < |m| ==> m[k] < |c|
    ensures p < n
  {
    if n == 1 then 0
    else
      var p := NearestPosBefore(c, m, target, n - 1);
      if Distance(c[m[n - 1]], target) < Distance(c[m[p]], target) then n - 1 else p
  }

  /** The bought put of a put spread whose sold put sits at position `s`: the
      strike strictly below it nearest to its strike minus `width`, or
      `fallback` when no strike is below it. */
  function PutWing(puts: seq<Contract>, s: nat, width: real, fallback: nat): (r: nat)
    requires s < |puts| && fallback < |puts|
    ensures r < |puts|
  {
    var lower := Matching(puts, Below(puts[s].strike));
    if |lower| > 0 then lower[NearestPos(puts, lower, puts[s].strike - width)] else fallback
  }

  /** The bought call of a call spread whose sold call sits at position `s`:
      the strike strictly above it nearest to its strike plus `width`, or
      `fallback` when no strike is above it. */
  function CallWing(calls: seq<Contract>, s: nat, width: real, fallback: nat): (r: nat)
    requires s < |calls| && fallback < |calls|
    ensures r < |calls|
  {
    var higher := Matching(calls, Above(calls[s].strike));
    if |higher| > 0 then higher[NearestPos(calls, higher, calls[s].strike + width)] else fallback
  }

  function PutTarget(spot: real, sel: SelectionConfig): real {
    spot * (1.0 - sel.otmPercent / 100.0)
  }

  function CallTarget(spot: real, sel: SelectionConfig): real {
    spot * (1.0 + sel.otmPercent / 100.0)
  }

  /** Positions of the sold and the bought leg of a two-leg position. */
  datatype Legs = Legs(sold: nat, bought: nat)

  /** Positions of the four legs of an iron condor: short and long put in the
      put chain, short and long call in the call chain. */
  datatype CondorLegs = CondorLegs(shortPut: nat, longPut: nat, shortCall: nat, longCall: nat)

  predicate LegsIn(l: Legs, c: seq<Contract>) {
    l.sold < |c| && l.bought < |c|
  }

  function Below1(s: nat): nat { if s >= 1 then s - 1 else 0 }

  function Above1(s: nat, n: nat): (r: nat)
    requires s < n
    ensures r < n
  {
    if s + 1 < n then s + 1 else s
  }

  // ---------------------------------------------------------------------
  // The seven selectors
  // ---------------------------------------------------------------------

  /** Bull put spread: sell the highest put at or below the threshold, buy the
      put below it nearest to the width target; fall back to the highest put
      below spot and its neighbour, then to the two highest puts. None when
      the chain is empty (the source then raises an IndexError). */
  function SelectBullPut(puts: seq<Contract>, spot: real, sel: SelectionConfig): (r: Option<Legs>)
    ensures r.None? <==> |puts| == 0
    ensures r.Some? ==> LegsIn(r.value, puts)
  {
    var belowTarget := Matching(puts, AtMost(PutTarget(spot, sel)));
    if |belowTarget| == 0 then
      var belowSpot := Matching(puts, Below(spot));
      if |belowSpot| == 0 then
        if |puts| == 0 then None
        else Some(Legs(|puts| - 1, if |puts| >= 2 then |puts| - 2 else 0))
      else
        var s := Last(belowSpot);
        Some(Legs(s, Below1(s)))
    else
      var s := Last(belowTarget);
      Some(Legs(s, PutWing(puts, s, sel.spreadWidth, Below1(s))))
  }

  /** Bear call spread: the mirror image, with the lowest call at or above the
      threshold and the call above it nearest to the width target. */
  function SelectBearCall(calls: seq<Contract>, spot: real, sel: SelectionConfig): (r: Option<Legs>)
    ensures r.None? <==> |calls| == 0
    ensures r.Some? ==> LegsIn(r.value, calls)
  {
    var aboveTarget := Matching(calls, AtLeast(CallTarget(spot, sel)));
    if |aboveTarget| == 0 then
      var aboveSpot := Matching(calls, Above(spot));
      if |aboveSpot| == 0 then
        if |calls| == 0 then None
        else Some(Legs(0, if |calls| >= 2 then 1 else 0))
      else
        var s := aboveSpot[0];
        Some(Legs(s, Above1(s, |calls|)))
    else
      var s := aboveTarget[0];
      Some(Legs(s, CallWing(calls, s, sel.spreadWidth, Above1(s, |calls|))))
  }

  /** Covered call: the lowest call at or above the threshold, else the lowest
      call strictly above spot, else the highest call. */
  function SelectCoveredCall(calls: seq<Contract>, spot: real, sel: SelectionConfig): (r: Option<nat>)
    ensures r.None? <==> |calls| == 0
    ensures r.Some? ==> r.value < |calls|
  {
    var aboveTarget := Matching(calls, AtLeast(CallTarget(spot, sel)));
    if |aboveTarget| > 0 then Some(aboveTarget[0])
    else
      var aboveSpot := Matching(calls, Above(spot));
      if |aboveSpot| > 0 then Some(aboveSpot[0])
      else if |calls| == 0 then None
      else Some(|calls| - 1)
  }

  /** Cash-secured put: the highest put at or below the threshold, else the
      highest put strictly below spot, else the highest put. */
  function SelectCashSecuredPut(puts: seq<Contract>, spot: real, sel: SelectionConfig): (r: Option<nat>)
    ensures r.None? <==> |puts| == 0
    ensures r.Some? ==> r.value < |puts|
  {
    var belowTarget := Matching(puts, AtMost(PutTarget(spot, sel)));
    if |belowTarget| > 0 then Some(Last(belowTarget))
    else
      var belowSpot := Matching(puts, Below(spot));
      if |belowSpot| > 0 then Some(Last(belowSpot))
      else if |puts| == 0 then None
      else Some(|puts| - 1)
  }

  /** Long call: the lowest call at or above the threshold, else the lowest
      call AT OR above spot (unlike the covered call's strict comparison),
      else the highest call. */
  function SelectLongCall(calls: seq<Contract>, spot: real, sel: SelectionConfig): (r: Option<nat>)
    ensures r.None? <==> |calls| == 0
    ensures r.Some? ==> r.value < |calls|
  {
    var aboveTarget := Matching(calls, AtLeast(CallTarget(spot, sel)));
    if |aboveTarget| > 0 then Some(aboveTarget[0])
    else
      var atOrAboveSpot := Matching(calls, AtLeast(spot));
      if |atOrAboveSpot| > 0 then Some(atOrAboveSpot[0])
      else if |calls| == 0 then None
      else Some(|calls| - 1)
  }

  /** Bull call spread (buy the low call, sell the high one): with at least two
      calls at or above the threshold, buy the lowest of them and sell the call
      above it nearest to the width target; else the two lowest calls at or
      above spot; else the two highest calls. None with fewer than two calls. */
  function SelectBullCall(calls: seq<Contract>, spot: real, sel: SelectionConfig): (r: Option<Legs>)
    ensures r.None? <==> |calls| < 2
    ensures r.Some? ==> LegsIn(r.value, calls)
  {
    var aboveTarget := Matching(calls, AtLeast(CallTarget(spot, sel)));
    if |aboveTarget| >= 2 then
      var low := aboveTarget[0];
      Some(Legs(CallWing(calls, low, sel.spreadWidth, aboveTarget[1]), low))
    else
      var atOrAboveSpot := Matching(calls, AtLeast(spot));
      if |atOrAboveSpot| >= 2 then Some(Legs(atOrAboveSpot[1], atOrAboveSpot[0]))
      else if |calls| >= 2 then Some(Legs(|calls| - 1, |calls| - 2))
      else None
  }

  /** The put side of an iron condor: with at least two puts at or below the
      threshold, the highest of them and the put below it nearest to the width
      target; else the two highest puts below spot; else the first two puts of
      the chain, the lowest being the one sold. */
  function CondorPutSide(puts: seq<Contract>, spot: real, sel: SelectionConfig): (r: Option<Legs>)
    ensures r.None? <==> |puts| < 2
    ensures r.Some? ==> LegsIn(r.value, puts)
  {
    var belowTarget := Matching(puts, AtMost(PutTarget(spot, sel)));
    if |belowTarget| >= 2 then
      var s := Last(belowTarget);
      Some(Legs(s, PutWing(puts, s, sel.spreadWidth, belowTarget[|belowTarget| - 2])))
    else
      var belowSpot := Matching(puts, Below(spot));
      if |belowSpot| >= 2 then Some(Legs(Last(belowSpot), belowSpot[|belowSpot| - 2]))
      else if |puts| >= 2 then Some(Legs(0, 1))
      else None
  }

  /** The call side of an iron condor: with at least two calls at or above the
      threshold, the lowest of them and the call above it nearest to the width
      target; else the two lowest calls above spot; else the two highest calls. */
  function CondorCallSide(calls: seq<Contract>, spot: real, sel: SelectionConfig): (r: Option<Legs>)
    ensures r.None? <==> |calls| < 2
    ensures r.Some? ==> LegsIn(r.value, calls)
  {
    var aboveTarget := Matching(calls, AtLeast(CallTarget(spot, sel)));
    if |aboveTarget| >= 2 then
      var s := aboveTarget[0];
      Some(Legs(s, CallWing(calls, s, sel.spreadWidth, aboveTarget[1])))
    else
      var aboveSpot := Matching(calls, Above(spot));
      if |aboveSpot| >= 2 then Some(Legs(aboveSpot[0], aboveSpot[1]))
      else if |calls| >= 2 then Some(Legs(|calls| - 2, |calls| - 1))
      else None
  }

  function SelectIronCondor(puts: seq<Contract>, calls: seq<Contract>, spot: real, sel: SelectionConfig): (r: Option<CondorLegs>)
    ensures r.None? <==> |puts| < 2 || |calls| < 2
    ensures r.Some? ==> r.value.shortPut < |puts| && r.value.longPut < |puts|
    ensures r.Some? ==> r.value.shortCall < |calls| && r.value.longCall < |calls|
  {
    match (CondorPutSide(puts, spot, sel), CondorCallSide(calls, spot, sel))
    case (Some(p), Some(c)) => Some(CondorLegs(p.sold, p.bought, c.sold, c.bought))
    case _ => None
  }
}
