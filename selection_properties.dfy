/** What the selectors choose, stated over a chain in ascending strike order:
    which strike each leg is (the highest or lowest past a threshold, the
    nearest to a width target) in each branch of the fallback chain. */
module SelectionProperties {
  import opened Types
  import opened Selection

  // ---------------------------------------------------------------------
  // Vocabulary
  // ---------------------------------------------------------------------

  predicate SomeAdmitted(c: seq<Contract>, b: Bound) {
    exists i :: 0 <= i < |c| && Admits(b, c[i].strike)
  }

  predicate TwoAdmitted(c: seq<Contract>, b: Bound) {
    exists i, j :: 0 <= i < j < |c| && Admits(b, c[i].strike) && Admits(b, c[j].strike)
  }

  /** Position `k` holds the highest strike the filter admits. */
  predicate HighestAdmitted(c: seq<Contract>, b: Bound, k: nat) {
    && k < |c| && Admits(b, c[k].strike)
    && forall i :: 0 <= i < |c| && Admits(b, c[i].strike) ==> c[i].strike <= c[k].strike
  }

  /** Position `k` holds the lowest strike the filter admits. */
  predicate LowestAdmitted(c: seq<Contract>, b: Bound, k: nat) {
    && k < |c| && Admits(b, c[k].strike)
    && forall i :: 0 <= i < |c| && Admits(b, c[i].strike) ==> c[k].strike <= c[i].strike
  }

  /** `hi` and `lo` hold the highest and the second highest admitted strike. */
  predicate HighestTwoAdmitted(c: seq<Contract>, b: Bound, lo: nat, hi: nat) {
    && HighestAdmitted(c, b, hi)
    && lo < |c| && Admits(b, c[lo].strike) && c[lo].strike < c[hi].strike
    && forall i :: 0 <= i < |c| && Admits(b, c[i].strike) && i != hi ==> c[i].strike <= c[lo].strike
  }

  /** `lo` and `hi` hold the lowest and the second lowest admitted strike. */
  predicate LowestTwoAdmitted(c: seq<Contract>, b: Bound, lo: nat, hi: nat) {
    && LowestAdmitted(c, b, lo)
    && hi < |c| && Admits(b, c[hi].strike) && c[lo].strike < c[hi].strike
    && forall i :: 0 <= i < |c| && Admits(b, c[i].strike) && i != lo ==> c[hi].strike <= c[i].strike
  }

  /** The strike at `w` is at least as near to `target` as the one at `i`,
      and not the higher of the two on a tie. */
  predicate AtLeastAsNear(c: seq<Contract>, w: nat, i: nat, target: real)
    requires w < |c| && i < |c|
  {
    && Distance(c[w], target) <= Distance(c[i], target)
    && (Distance(c[w], target) == Distance(c[i], target) ==> c[w].strike <= c[i].strike)
  }

  /** Position `w` holds, among the strikes strictly below the one at `s`, a
      strike nearest to `target`, and the lowest such strike on a tie. */
  predicate NearestBelow(c: seq<Contract>, s: nat, w: nat, target: real) {
    && s < |c| && w < |c| && c[w].strike < c[s].strike
    && forall i {:trigger AtLeastAsNear(c, w, i, target)} ::
         0 <= i < |c| && c[i].strike < c[s].strike ==> AtLeastAsNear(c, w, i, target)
  }

  /** Position `w` holds, among the strikes strictly above the one at `s`, a
      strike nearest to `target`, and the lowest such strike on a tie. */
  predicate NearestAbove(c: seq<Contract>, s: nat, w: nat, target: real) {
    && s < |c| && w < |c| && c[w].strike > c[s].strike
    && forall i {:trigger AtLeastAsNear(c, w, i, target)} ::
         0 <= i < |c| && c[i].strike > c[s].strike ==> AtLeastAsNear(c, w, i, target)
  }

  // ---------------------------------------------------------------------
  // Filters, wings and the chain order
  // ---------------------------------------------------------------------

  /** Every admitted position is kept by the filter. */
  lemma MatchingHas(c: seq<Contract>, b: Bound, i: nat)
    requires i < |c| && Admits(b, c[i].strike)
    ensures i in Matching(c, b)
  {
    MatchingBeforeHas(c, b, |c|, i);
  }

  lemma {:induction false} MatchingBeforeHas(c: seq<Contract>, b: Bound, n: nat, i: nat)
    requires i < n <= |c| && Admits(b, c[i].strike)
    ensures i in MatchingBefore(c, b, n)
  {
    if i < n - 1 {
      MatchingBeforeHas(c, b, n - 1, i);
    }
  }

  /** The filter keeps positions in chain order. */
  lemma MatchingOrdered(c: seq<Contract>, b: Bound, k: nat, l: nat)
    requires k < l < |Matching(c, b)|
    ensures Matching(c, b)[k] < Matching(c, b)[l]
  {
    MatchingBeforeOrdered(c, b, |c|, k, l);
  }

  lemma {:induction false} MatchingBeforeOrdered(c: seq<Contract>, b: Bound, n: nat, k: nat, l: nat)
    requires n <= |c| && k < l < |MatchingBefore(c, b, n)|
    ensures MatchingBefore(c, b, n)[k] < MatchingBefore(c, b, n)[l]
  {
    if l < |MatchingBefore(c, b, n - 1)| {
      MatchingBeforeOrdered(c, b, n - 1, k, l);
    }
  }

  /** `NearestPos` picks a minimum distance, and the first one. */
  lemma NearestPosAt(c: seq<Contract>, m: seq<nat>, target: real, k: nat)
    requires |m| > 0
    requires forall j :: 0 <= j < |m| ==> m[j] < |c|
    requires k < |m|
    ensures var p := NearestPos(c, m, target);
      && Distance(c[m[p]], target) <= Distance(c[m[k]], target)
      && (k < p ==> Distance(c[m[k]], target) > Distance(c[m[p]], target))
  {
    NearestPosBeforeAt(c, m, target, |m|, k);
  }

  lemma {:induction false} NearestPosBeforeAt(c: seq<Contract>, m: seq<nat>, target: real, n: nat, k: nat)
    requires 0 < n <= |m|
    requires forall j :: 0 <= j < |m| ==> m[j] < |c|
    requires k < n
    ensures var p := NearestPosBefore(c, m, target, n);
      && Distance(c[m[p]], target) <= Distance(c[m[k]], target)
      && (k < p ==> Distance(c[m[k]], target) > Distance(c[m[p]], target))
  {
    if k < n - 1 {
      NearestPosBeforeAt(c, m, target, n - 1, k);
    }
  }

  lemma SomeAdmittedIff(c: seq<Contract>, b: Bound)
    ensures SomeAdmitted(c, b) <==> |Matching(c, b)| > 0
  {
    var m := Matching(c, b);
    if |m| > 0 {
      assert Admits(b, c[m[0]].strike);
    }
    if SomeAdmitted(c, b) {
      var i :| 0 <= i < |c| && Admits(b, c[i].strike);
      MatchingHas(c, b, i);
    }
  }

  lemma TwoAdmittedIff(c: seq<Contract>, b: Bound)
    ensures TwoAdmitted(c, b) <==> |Matching(c, b)| >= 2
  {
    var m := Matching(c, b);
    if |m| >= 2 {
      MatchingOrdered(c, b, 0, 1);
      assert Admits(b, c[m[0]].strike) && Admits(b, c[m[1]].strike);
    }
    if TwoAdmitted(c, b) {
      var i, j :| 0 <= i < j < |c| && Admits(b, c[i].strike) && Admits(b, c[j].strike);
      MatchingHas(c, b, i);
      MatchingHas(c, b, j);
      var ki :| 0 <= ki < |m| && m[ki] == i;
      var kj :| 0 <= kj < |m| && m[kj] == j;
      assert ki != kj;
    }
  }

  /** On an ascending chain, the filter's position of an admitted strike and
      the order of strikes agree. */
  lemma MatchIndex(c: seq<Contract>, b: Bound, i: nat) returns (k: nat)
    requires i < |c| && Admits(b, c[i].strike)
    ensures k < |Matching(c, b)| && Matching(c, b)[k] == i
  {
    MatchingHas(c, b, i);
    k :| 0 <= k < |Matching(c, b)| && Matching(c, b)[k] == i;
  }

  lemma LastMatchHighest(c: seq<Contract>, b: Bound)
    requires Ascending(c) && |Matching(c, b)| > 0
    ensures HighestAdmitted(c, b, Last(Matching(c, b)))
  {
    var m := Matching(c, b);
    forall i | 0 <= i < |c| && Admits(b, c[i].strike)
      ensures c[i].strike <= c[Last(m)].strike
    {
      var k := MatchIndex(c, b, i);
      if k < |m| - 1 {
        MatchingOrdered(c, b, k, |m| - 1);
      }
    }
  }

  lemma FirstMatchLowest(c: seq<Contract>, b: Bound)
    requires Ascending(c) && |Matching(c, b)| > 0
    ensures LowestAdmitted(c, b, Matching(c, b)[0])
  {
    var m := Matching(c, b);
    forall i | 0 <= i < |c| && Admits(b, c[i].strike)
      ensures c[m[0]].strike <= c[i].strike
    {
      var k := MatchIndex(c, b, i);
      if k > 0 {
        MatchingOrdered(c, b, 0, k);
      }
    }
  }

  lemma LastTwoMatches(c: seq<Contract>, b: Bound)
    requires Ascending(c) && |Matching(c, b)| >= 2
    ensures HighestTwoAdmitted(c, b, Matching(c, b)[|Matching(c, b)| - 2], Last(Matching(c, b)))
  {
    var m := Matching(c, b);
    LastMatchHighest(c, b);
    MatchingOrdered(c, b, |m| - 2, |m| - 1);
    forall i | 0 <= i < |c| && Admits(b, c[i].strike) && i != Last(m)
      ensures c[i].strike <= c[m[|m| - 2]].strike
    {
      var k := MatchIndex(c, b, i);
      if k < |m| - 2 {
        MatchingOrdered(c, b, k, |m| - 2);
      }
    }
  }

  lemma FirstTwoMatches(c: seq<Contract>, b: Bound)
    requires Ascending(c) && |Matching(c, b)| >= 2
    ensures LowestTwoAdmitted(c, b, Matching(c, b)[0], Matching(c, b)[1])
  {
    var m := Matching(c, b);
    FirstMatchLowest(c, b);
    MatchingOrdered(c, b, 0, 1);
    forall i | 0 <= i < |c| && Admits(b, c[i].strike) && i != m[0]
      ensures c[m[1]].strike <= c[i].strike
    {
      var k := MatchIndex(c, b, i);
      if k > 1 {
        MatchingOrdered(c, b, 1, k);
      }
    }
  }

  /** With some strike below the sold one, the put wing is the nearest of
      them to the width target. */
  lemma PutWingNearest(puts: seq<Contract>, s: nat, width: real, fallback: nat)
    requires Ascending(puts) && s < |puts| && fallback < |puts|
    requires SomeAdmitted(puts, Below(puts[s].strike))
    ensures NearestBelow(puts, s, PutWing(puts, s, width, fallback), puts[s].strike - width)
  {
    var b := Below(puts[s].strike);
    var t := puts[s].strike - width;
    var lower := Matching(puts, b);
    SomeAdmittedIff(puts, b);
    var p := NearestPos(puts, lower, t);
    var w := lower[p];
    assert PutWing(puts, s, width, fallback) == w;
    assert Admits(b, puts[w].strike);
    forall i | 0 <= i < |puts| && puts[i].strike < puts[s].strike
      ensures AtLeastAsNear(puts, w, i, t)
    {
      assert Admits(b, puts[i].strike);
      var k := MatchIndex(puts, b, i);
      NearestPosAt(puts, lower, t, k);
      if p < k {
        MatchingOrdered(puts, b, p, k);
      }
    }
  }


  /** With some strike above the sold one, the call wing is the nearest of
      them to the width target. */
  lemma CallWingNearest(calls: seq<Contract>, s: nat, width: real, fallback: nat)
    requires Ascending(calls) && s < |calls| && fallback < |calls|
    requires SomeAdmitted(calls, Above(calls[s].strike))
    ensures NearestAbove(calls, s, CallWing(calls, s, width, fallback), calls[s].strike + width)
  {
    var b := Above(calls[s].strike);
    var t := calls[s].strike + width;
    var higher := Matching(calls, b);
    SomeAdmittedIff(calls, b);
    var p := NearestPos(calls, higher, t);
    var w := higher[p];
    assert CallWing(calls, s, width, fallback) == w;
    assert Admits(b, calls[w].strike);
    forall i | 0 <= i < |calls| && calls[i].strike > calls[s].strike
      ensures AtLeastAsNear(calls, w, i, t)
    {
      assert Admits(b, calls[i].strike);
      var k := MatchIndex(calls, b, i);
      NearestPosAt(calls, higher, t, k);
      if p < k {
        MatchingOrdered(calls, b, p, k);
      }
    }
  }


  /** On an ascending chain every put but the first has a strike below it. */
  lemma BelowUnlessFirst(puts: seq<Contract>, s: nat)
    requires Ascending(puts) && s < |puts|
    ensures s > 0 ==> SomeAdmitted(puts, Below(puts[s].strike))
  {
    if s > 0 {
      assert Admits(Below(puts[s].strike), puts[s - 1].strike);
    }
  }

  /** On an ascending chain every call but the last has a strike above it. */
  lemma AboveUnlessLast(calls: seq<Contract>, s: nat)
    requires Ascending(calls) && s < |calls|
    ensures s < |calls| - 1 ==> SomeAdmitted(calls, Above(calls[s].strike))
  {
    if s < |calls| - 1 {
      assert Admits(Above(calls[s].strike), calls[s + 1].strike);
    }
  }

  /** With no strike below the sold put, the wing is the fallback, and on an
      ascending chain the sold put is the first one. */
  lemma NothingBelow(puts: seq<Contract>, s: nat, width: real, fallback: nat)
    requires Ascending(puts) && s < |puts| && fallback < |puts|
    requires !SomeAdmitted(puts, Below(puts[s].strike))
    ensures s == 0 && PutWing(puts, s, width, fallback) == fallback
  {
    SomeAdmittedIff(puts, Below(puts[s].strike));
    BelowUnlessFirst(puts, s);
  }

  /** With no strike above the sold call, the wing is the fallback, and on an
      ascending chain the sold call is the last one. */
  lemma NothingAbove(calls: seq<Contract>, s: nat, width: real, fallback: nat)
    requires Ascending(calls) && s < |calls| && fallback < |calls|
    requires !SomeAdmitted(calls, Above(calls[s].strike))
    ensures s == |calls| - 1 && CallWing(calls, s, width, fallback) == fallback
  {
    SomeAdmittedIff(calls, Above(calls[s].strike));
    AboveUnlessLast(calls, s);
  }

  /** The bought leg of a put spread sold at `s`, whose wing falls back to
      the neighbouring position. */
  lemma PutSpreadWing(puts: seq<Contract>, s: nat, width: real)
    requires Ascending(puts) && s < |puts|
    ensures var w := PutWing(puts, s, width, Below1(s));
      && (SomeAdmitted(puts, Below(puts[s].strike)) ==> NearestBelow(puts, s, w, puts[s].strike - width))
      && (!SomeAdmitted(puts, Below(puts[s].strike)) ==> s == 0 && w == 0)
  {
    if SomeAdmitted(puts, Below(puts[s].strike)) {
      PutWingNearest(puts, s, width, Below1(s));
    } else {
      NothingBelow(puts, s, width, Below1(s));
    }
  }

  /** The bought leg of a call spread sold at `s`, whose wing falls back to
      the neighbouring position. */
  lemma CallSpreadWing(calls: seq<Contract>, s: nat, width: real)
    requires Ascending(calls) && s < |calls|
    ensures var w := CallWing(calls, s, width, Above1(s, |calls|));
      && (SomeAdmitted(calls, Above(calls[s].strike)) ==> NearestAbove(calls, s, w, calls[s].strike + width))
      && (!SomeAdmitted(calls, Above(calls[s].strike)) ==> s == |calls| - 1 && w == s)
  {
    if SomeAdmitted(calls, Above(calls[s].strike)) {
      CallWingNearest(calls, s, width, Above1(s, |calls|));
    } else {
      NothingAbove(calls, s, width, Above1(s, |calls|));
    }
  }

  /** A put wing whose fallback is a strike below the sold one. */
  lemma PutWingPastSecond(puts: seq<Contract>, s: nat, fallback: nat, width: real)
    requires Ascending(puts) && s < |puts| && fallback < |puts|
    requires puts[fallback].strike < puts[s].strike
    ensures NearestBelow(puts, s, PutWing(puts, s, width, fallback), puts[s].strike - width)
  {
    assert Admits(Below(puts[s].strike), puts[fallback].strike);
    PutWingNearest(puts, s, width, fallback);
  }

  /** A call wing whose fallback is a strike above the sold one. */
  lemma CallWingPastSecond(calls: seq<Contract>, s: nat, fallback: nat, width: real)
    requires Ascending(calls) && s < |calls| && fallback < |calls|
    requires calls[fallback].strike > calls[s].strike
    ensures NearestAbove(calls, s, CallWing(calls, s, width, fallback), calls[s].strike + width)
  {
    assert Admits(Above(calls[s].strike), calls[fallback].strike);
    CallWingNearest(calls, s, width, fallback);
  }

  /** With two puts past a filter, the put wing of the highest of them,
      whose fallback is the second highest. */
  lemma HighestAndWing(puts: seq<Contract>, b: Bound, width: real)
    requires Ascending(puts) && |Matching(puts, b)| >= 2
    ensures var m := Matching(puts, b);
      NearestBelow(puts, Last(m), PutWing(puts, Last(m), width, m[|m| - 2]), puts[Last(m)].strike - width)
  {
    var m := Matching(puts, b);
    MatchingOrdered(puts, b, |m| - 2, |m| - 1);
    PutWingPastSecond(puts, Last(m), m[|m| - 2], width);
  }

  /** With two calls past a filter, the lowest of them and its call wing,
      whose fallback is the second lowest. */
  lemma LowestAndWing(calls: seq<Contract>, b: Bound, width: real)
    requires Ascending(calls) && |Matching(calls, b)| >= 2
    ensures var m := Matching(calls, b);
      && LowestAdmitted(calls, b, m[0])
      && NearestAbove(calls, m[0], CallWing(calls, m[0], width, m[1]), calls[m[0]].strike + width)
  {
    var m := Matching(calls, b);
    FirstMatchLowest(calls, b);
    MatchingOrdered(calls, b, 0, 1);
    CallWingPastSecond(calls, m[0], m[1], width);
  }

  // ---------------------------------------------------------------------
  // Bull put and bear call spreads
  // ---------------------------------------------------------------------

  /** Bull put, threshold branch: the sold put is the highest strike at or
      below spot*(1-otm/100); the bought put is the strike below it nearest to
      sold-width, or, with nothing below it, the sold put itself. */
  lemma {:induction false} BullPutThreshold(puts: seq<Contract>, spot: real, sel: SelectionConfig)
    requires Ascending(puts)
    requires SomeAdmitted(puts, AtMost(PutTarget(spot, sel)))
    ensures SelectBullPut(puts, spot, sel).Some?
    ensures var l := SelectBullPut(puts, spot, sel).value;
      && HighestAdmitted(puts, AtMost(PutTarget(spot, sel)), l.sold)
      && (SomeAdmitted(puts, Below(puts[l.sold].strike)) ==>
            NearestBelow(puts, l.sold, l.bought, puts[l.sold].strike - sel.spreadWidth))
      && (!SomeAdmitted(puts, Below(puts[l.sold].strike)) ==> l.sold == 0 && l.bought == 0)
  {
    var b := AtMost(PutTarget(spot, sel));
    SomeAdmittedIff(puts, b);
    var s := Last(Matching(puts, b));
    var w := PutWing(puts, s, sel.spreadWidth, Below1(s));
    assert SelectBullPut(puts, spot, sel) == Some(Legs(s, w));
    LastMatchHighest(puts, b);
    PutSpreadWing(puts, s, sel.spreadWidth);
  }

  /** Bull put, fallback branches (no put at or below the threshold): the
      highest put below spot and the put just below it in the chain; with no
      put below spot either, the highest put of the chain and its neighbour. */
  lemma {:induction false} BullPutFallback(puts: seq<Contract>, spot: real, sel: SelectionConfig)
    requires Ascending(puts) && |puts| > 0
    requires !SomeAdmitted(puts, AtMost(PutTarget(spot, sel)))
    ensures SelectBullPut(puts, spot, sel).Some?
    ensures var l := SelectBullPut(puts, spot, sel).value;
      && (SomeAdmitted(puts, Below(spot)) ==>
            HighestAdmitted(puts, Below(spot), l.sold) && l.bought == Below1(l.sold))
      && (!SomeAdmitted(puts, Below(spot)) ==>
            l.sold == |puts| - 1 && l.bought == Below1(|puts| - 1))
  {
    SomeAdmittedIff(puts, AtMost(PutTarget(spot, sel)));
    SomeAdmittedIff(puts, Below(spot));
    if SomeAdmitted(puts, Below(spot)) {
      LastMatchHighest(puts, Below(spot));
    }
  }

  /** Bear call, threshold branch: the sold call is the lowest strike at or
      above spot*(1+otm/100); the bought call is the strike above it nearest
      to sold+width, or, with nothing above it, the sold call itself. */
  lemma {:induction false} BearCallThreshold(calls: seq<Contract>, spot: real, sel: SelectionConfig)
    requires Ascending(calls)
    requires SomeAdmitted(calls, AtLeast(CallTarget(spot, sel)))
    ensures SelectBearCall(calls, spot, sel).Some?
    ensures var l := SelectBearCall(calls, spot, sel).value;
      && LowestAdmitted(calls, AtLeast(CallTarget(spot, sel)), l.sold)
      && (SomeAdmitted(calls, Above(calls[l.sold].strike)) ==>
            NearestAbove(calls, l.sold, l.bought, calls[l.sold].strike + sel.spreadWidth))
      && (!SomeAdmitted(calls, Above(calls[l.sold].strike)) ==> l.sold == |calls| - 1 && l.bought == l.sold)
  {
    var b := AtLeast(CallTarget(spot, sel));
    SomeAdmittedIff(calls, b);
    var s := Matching(calls, b)[0];
    var w := CallWing(calls, s, sel.spreadWidth, Above1(s, |calls|));
    assert SelectBearCall(calls, spot, sel) == Some(Legs(s, w));
    FirstMatchLowest(calls, b);
    CallSpreadWing(calls, s, sel.spreadWidth);
  }

  /** Bear call, fallback branches: the lowest call above spot and the call
      just above it in the chain; with no call above spot either, the lowest
      call of the chain and its neighbour. */
  lemma {:induction false} BearCallFallback(calls: seq<Contract>, spot: real, sel: SelectionConfig)
    requires Ascending(calls) && |calls| > 0
    requires !SomeAdmitted(calls, AtLeast(CallTarget(spot, sel)))
    ensures SelectBearCall(calls, spot, sel).Some?
    ensures var l := SelectBearCall(calls, spot, sel).value;
      && (SomeAdmitted(calls, Above(spot)) ==>
            LowestAdmitted(calls, Above(spot), l.sold) && l.bought == Above1(l.sold, |calls|))
      && (!SomeAdmitted(calls, Above(spot)) ==> l.sold == 0 && l.bought == Above1(0, |calls|))
  {
    SomeAdmittedIff(calls, AtLeast(CallTarget(spot, sel)));
    SomeAdmittedIff(calls, Above(spot));
    if SomeAdmitted(calls, Above(spot)) {
      FirstMatchLowest(calls, Above(spot));
    }
  }

  /** Whatever the branch, the bull put never buys a strike above the one it sells. */
  lemma {:induction false} BullPutBoughtNotAbove(puts: seq<Contract>, spot: real, sel: SelectionConfig)
    requires Ascending(puts) && |puts| > 0
    ensures var l := SelectBullPut(puts, spot, sel).value;
      puts[l.bought].strike <= puts[l.sold].strike
  {
    if SomeAdmitted(puts, AtMost(PutTarget(spot, sel))) {
      BullPutThreshold(puts, spot, sel);
    } else {
      BullPutFallback(puts, spot, sel);
    }
  }

  /** Whatever the branch, the bear call never buys a strike below the one it sells. */
  lemma {:induction false} BearCallBoughtNotBelow(calls: seq<Contract>, spot: real, sel: SelectionConfig)
    requires Ascending(calls) && |calls| > 0
    ensures var l := SelectBearCall(calls, spot, sel).value;
      calls[l.sold].strike <= calls[l.bought].strike
  {
    if SomeAdmitted(calls, AtLeast(CallTarget(spot, sel))) {
      BearCallThreshold(calls, spot, sel);
    } else {
      BearCallFallback(calls, spot, sel);
    }
  }

  // ---------------------------------------------------------------------
  // Single-leg strategies
  // ---------------------------------------------------------------------

  /** Covered call: the lowest call at or above the threshold; else the lowest
      call strictly above spot; else the highest call of the chain. */
  lemma {:induction false} CoveredCallStrike(calls: seq<Contract>, spot: real, sel: SelectionConfig)
    requires Ascending(calls) && |calls| > 0
    ensures SelectCoveredCall(calls, spot, sel).Some?
    ensures var k := SelectCoveredCall(calls, spot, sel).value;
      && (SomeAdmitted(calls, AtLeast(CallTarget(spot, sel))) ==>
            LowestAdmitted(calls, AtLeast(CallTarget(spot, sel)), k))
      && (!SomeAdmitted(calls, AtLeast(CallTarget(spot, sel))) && SomeAdmitted(calls, Above(spot)) ==>
            LowestAdmitted(calls, Above(spot), k))
      && (!SomeAdmitted(calls, AtLeast(CallTarget(spot, sel))) && !SomeAdmitted(calls, Above(spot)) ==>
            k == |calls| - 1)
  {
    SomeAdmittedIff(calls, AtLeast(CallTarget(spot, sel)));
    SomeAdmittedIff(calls, Above(spot));
    if SomeAdmitted(calls, AtLeast(CallTarget(spot, sel))) {
      FirstMatchLowest(calls, AtLeast(CallTarget(spot, sel)));
    }
    if SomeAdmitted(calls, Above(spot)) {
      FirstMatchLowest(calls, Above(spot));
    }
  }

  /** Cash-secured put: the highest put at or below the threshold; else the
      highest put strictly below spot; else the highest put of the chain. */
  lemma {:induction false} CashSecuredPutStrike(puts: seq<Contract>, spot: real, sel: SelectionConfig)
    requires Ascending(puts) && |puts| > 0
    ensures SelectCashSecuredPut(puts, spot, sel).Some?
    ensures var k := SelectCashSecuredPut(puts, spot, sel).value;
      && (SomeAdmitted(puts, AtMost(PutTarget(spot, sel))) ==>
            HighestAdmitted(puts, AtMost(PutTarget(spot, sel)), k))
      && (!SomeAdmitted(puts, AtMost(PutTarget(spot, sel))) && SomeAdmitted(puts, Below(spot)) ==>
            HighestAdmitted(puts, Below(spot), k))
      && (!SomeAdmitted(puts, AtMost(PutTarget(spot, sel))) && !SomeAdmitted(puts, Below(spot)) ==>
            k == |puts| - 1)
  {
    SomeAdmittedIff(puts, AtMost(PutTarget(spot, sel)));
    SomeAdmittedIff(puts, Below(spot));
    if SomeAdmitted(puts, AtMost(PutTarget(spot, sel))) {
      LastMatchHighest(puts, AtMost(PutTarget(spot, sel)));
    }
    if SomeAdmitted(puts, Below(spot)) {
      LastMatchHighest(puts, Below(spot));
    }
  }

  /** Long call: the lowest call at or above the threshold; else the lowest
      call at or above spot; else the highest call of the chain. */
  lemma {:induction false} LongCallStrike(calls: seq<Contract>, spot: real, sel: SelectionConfig)
    requires Ascending(calls) && |calls| > 0
    ensures SelectLongCall(calls, spot, sel).Some?
    ensures var k := SelectLongCall(calls, spot, sel).value;
      && (SomeAdmitted(calls, AtLeast(CallTarget(spot, sel))) ==>
            LowestAdmitted(calls, AtLeast(CallTarget(spot, sel)), k))
      && (!SomeAdmitted(calls, AtLeast(CallTarget(spot, sel))) && SomeAdmitted(calls, AtLeast(spot)) ==>
            LowestAdmitted(calls, AtLeast(spot), k))
      && (!SomeAdmitted(calls, AtLeast(CallTarget(spot, sel))) && !SomeAdmitted(calls, AtLeast(spot)) ==>
            k == |calls| - 1)
  {
    SomeAdmittedIff(calls, AtLeast(CallTarget(spot, sel)));
    SomeAdmittedIff(calls, AtLeast(spot));
    if SomeAdmitted(calls, AtLeast(CallTarget(spot, sel))) {
      FirstMatchLowest(calls, AtLeast(CallTarget(spot, sel)));
    }
    if SomeAdmitted(calls, AtLeast(spot)) {
      FirstMatchLowest(calls, AtLeast(spot));
    }
  }

  // ---------------------------------------------------------------------
  // Bull call spread
  // ---------------------------------------------------------------------

  /** Bull call, threshold branch: the bought call is the lowest strike at or
      above the threshold, the sold call the strike above it nearest to
      bought+width. */
  lemma {:induction false} BullCallThreshold(calls: seq<Contract>, spot: real, sel: SelectionConfig)
    requires Ascending(calls)
    requires TwoAdmitted(calls, AtLeast(CallTarget(spot, sel)))
    ensures SelectBullCall(calls, spot, sel).Some?
    ensures var l := SelectBullCall(calls, spot, sel).value;
      && LowestAdmitted(calls, AtLeast(CallTarget(spot, sel)), l.bought)
      && NearestAbove(calls, l.bought, l.sold, calls[l.bought].strike + sel.spreadWidth)
  {
    var b := AtLeast(CallTarget(spot, sel));
    TwoAdmittedIff(calls, b);
    var m := Matching(calls, b);
    assert SelectBullCall(calls, spot, sel) == Some(Legs(CallWing(calls, m[0], sel.spreadWidth, m[1]), m[0]));
    LowestAndWing(calls, b, sel.spreadWidth);
  }

  /** Bull call, fallback branches: the two lowest calls at or above spot;
      else the two highest calls of the chain. */
  lemma {:induction false} BullCallFallback(calls: seq<Contract>, spot: real, sel: SelectionConfig)
    requires Ascending(calls) && |calls| >= 2
    requires !TwoAdmitted(calls, AtLeast(CallTarget(spot, sel)))
    ensures SelectBullCall(calls, spot, sel).Some?
    ensures var l := SelectBullCall(calls, spot, sel).value;
      && (TwoAdmitted(calls, AtLeast(spot)) ==> LowestTwoAdmitted(calls, AtLeast(spot), l.bought, l.sold))
      && (!TwoAdmitted(calls, AtLeast(spot)) ==> l.bought == |calls| - 2 && l.sold == |calls| - 1)
  {
    TwoAdmittedIff(calls, AtLeast(CallTarget(spot, sel)));
    TwoAdmittedIff(calls, AtLeast(spot));
    if TwoAdmitted(calls, AtLeast(spot)) {
      FirstTwoMatches(calls, AtLeast(spot));
    }
  }

  /** Whatever the branch, the bull call buys a strictly lower strike than it sells. */
  lemma {:induction false} BullCallBoughtBelowSold(calls: seq<Contract>, spot: real, sel: SelectionConfig)
    requires Ascending(calls) && |calls| >= 2
    ensures var l := SelectBullCall(calls, spot, sel).value;
      calls[l.bought].strike < calls[l.sold].strike
  {
    if TwoAdmitted(calls, AtLeast(CallTarget(spot, sel))) {
      BullCallThreshold(calls, spot, sel);
    } else {
      BullCallFallback(calls, spot, sel);
    }
  }

  // ---------------------------------------------------------------------
  // Iron condor
  // ---------------------------------------------------------------------

  /** Iron condor put side, threshold branch: the short put is the highest
      strike at or below the threshold, the long put the strike below it
      nearest to short-width. */
  lemma {:induction false} CondorPutThreshold(puts: seq<Contract>, spot: real, sel: SelectionConfig)
    requires Ascending(puts)
    requires TwoAdmitted(puts, AtMost(PutTarget(spot, sel)))
    ensures CondorPutSide(puts, spot, sel).Some?
    ensures var l := CondorPutSide(puts, spot, sel).value;
      && HighestAdmitted(puts, AtMost(PutTarget(spot, sel)), l.sold)
      && NearestBelow(puts, l.sold, l.bought, puts[l.sold].strike - sel.spreadWidth)
  {
    var b := AtMost(PutTarget(spot, sel));
    TwoAdmittedIff(puts, b);
    var m := Matching(puts, b);
    assert CondorPutSide(puts, spot, sel) == Some(Legs(Last(m), PutWing(puts, Last(m), sel.spreadWidth, m[|m| - 2])));
    LastMatchHighest(puts, b);
    HighestAndWing(puts, b, sel.spreadWidth);
  }

  /** Iron condor put side, fallback branches: the two highest puts below
      spot, the higher one sold; else the first two puts of the chain with
      the LOWER one sold, so the long put then sits above the short put. */
  lemma {:induction false} CondorPutFallback(puts: seq<Contract>, spot: real, sel: SelectionConfig)
    requires Ascending(puts) && |puts| >= 2
    requires !TwoAdmitted(puts, AtMost(PutTarget(spot, sel)))
    ensures CondorPutSide(puts, spot, sel).Some?
    ensures var l := CondorPutSide(puts, spot, sel).value;
      && (TwoAdmitted(puts, Below(spot)) ==> HighestTwoAdmitted(puts, Below(spot), l.bought, l.sold))
      && (!TwoAdmitted(puts, Below(spot)) ==>
            l.sold == 0 && l.bought == 1 && puts[l.sold].strike < puts[l.bought].strike)
  {
    TwoAdmittedIff(puts, AtMost(PutTarget(spot, sel)));
    TwoAdmittedIff(puts, Below(spot));
    if TwoAdmitted(puts, Below(spot)) {
      LastTwoMatches(puts, Below(spot));
    }
  }

  /** Iron condor call side, threshold branch: the short call is the lowest
      strike at or above the threshold, the long call the strike above it
      nearest to short+width. */
  lemma {:induction false} CondorCallThreshold(calls: seq<Contract>, spot: real, sel: SelectionConfig)
    requires Ascending(calls)
    requires TwoAdmitted(calls, AtLeast(CallTarget(spot, sel)))
    ensures CondorCallSide(calls, spot, sel).Some?
    ensures var l := CondorCallSide(calls, spot, sel).value;
      && LowestAdmitted(calls, AtLeast(CallTarget(spot, sel)), l.sold)
      && NearestAbove(calls, l.sold, l.bought, calls[l.sold].strike + sel.spreadWidth)
  {
    var b := AtLeast(CallTarget(spot, sel));
    TwoAdmittedIff(calls, b);
    var m := Matching(calls, b);
    assert CondorCallSide(calls, spot, sel) == Some(Legs(m[0], CallWing(calls, m[0], sel.spreadWidth, m[1])));
    LowestAndWing(calls, b, sel.spreadWidth);
  }

  /** Iron condor call side, fallback branches: the two lowest calls above
      spot, the lower one sold; else the two highest calls of the chain. */
  lemma {:induction false} CondorCallFallback(calls: seq<Contract>, spot: real, sel: SelectionConfig)
    requires Ascending(calls) && |calls| >= 2
    requires !TwoAdmitted(calls, AtLeast(CallTarget(spot, sel)))
    ensures CondorCallSide(calls, spot, sel).Some?
    ensures var l := CondorCallSide(calls, spot, sel).value;
      && (TwoAdmitted(calls, Above(spot)) ==> LowestTwoAdmitted(calls, Above(spot), l.sold, l.bought))
      && (!TwoAdmitted(calls, Above(spot)) ==> l.sold == |calls| - 2 && l.bought == |calls| - 1)
  {
    TwoAdmittedIff(calls, AtLeast(CallTarget(spot, sel)));
    TwoAdmittedIff(calls, Above(spot));
    if TwoAdmitted(calls, Above(spot)) {
      FirstTwoMatches(calls, Above(spot));
    }
  }
}
