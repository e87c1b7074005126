/** The final ranking: candidates sorted by score, grouped by strategy in
    order of first appearance, the best few of every strategy taken first,
    the remaining slots filled with the best of the rest, then re-sorted and
    cut to the requested count. */
module Ranking {
  import opened Types
  import opened Sorting

  predicate Distinct<T(==)>(s: seq<T>)
  {
    forall i, j :: 0 <= i < j < |s| ==> s[i] != s[j]
  }

  predicate DistinctTypes(s: seq<Candidate>)
  {
    forall i, j :: 0 <= i < j < |s| ==> s[i].strategy != s[j].strategy
  }

  /** The requested count, at least one. */
  function Limit(topN: int): (n: nat)
    ensures n >= 1 && n >= topN
    ensures topN >= 1 ==> n == topN
  {
    if topN >= 1 then topN else 1
  }

  /** The strategies present among `s`. */
  function StrategiesIn(s: seq<Candidate>): set<Strategy>
  {
    set c | c in s :: c.strategy
  }

  /** The candidates of strategy `k`, in order. */
  function OfType(s: seq<Candidate>, k: Strategy): (r: seq<Candidate>)
    ensures forall c :: c in r <==> c in s && c.strategy == k
    ensures |r| <= |s|
  {
    if s == [] then []
    else
      assert s == s[..|s| - 1] + [s[|s| - 1]];
      OfType(s[..|s| - 1], k) + (if s[|s| - 1].strategy == k then [s[|s| - 1]] else [])
  }

  /** The strategies of `s` in order of first appearance. */
  function TypesInOrder(s: seq<Candidate>): (r: seq<Strategy>)
    ensures Distinct(r)
    ensures forall k :: k in r <==> k in StrategiesIn(s)
  {
    if s == [] then []
    else
      var init, last := s[..|s| - 1], s[|s| - 1];
      assert s == init + [last];
      assert StrategiesIn(s) == StrategiesIn(init) + {last.strategy};
      var r := TypesInOrder(init);
      if last.strategy in r then r else r + [last.strategy]
  }

  /** At most `n` elements from the front of `s`. */
  function Take<T>(s: seq<T>, n: nat): (r: seq<T>)
    ensures |r| <= n && |r| <= |s|
    ensures n >= |s| ==> r == s
    ensures n <= |s| ==> |r| == n
  {
    if n <= |s| then s[..n] else s
  }

  /** The first `n` candidates of each strategy in `ks`, strategy by strategy. */
  function Heads(s: seq<Candidate>, ks: seq<Strategy>, n: nat): seq<Candidate>
  {
    if ks == [] then []
    else Heads(s, ks[..|ks| - 1], n) + Take(OfType(s, ks[|ks| - 1]), n)
  }

  /** The highest-scoring candidate of strategy `k`: the first of them once
      sorted. */
  function Best(all: seq<Candidate>, k: Strategy): (b: Candidate)
    requires k in StrategiesIn(all)
    ensures b in all && b.strategy == k
  {
    var sorted := SortByScore(all);
    SameStrategies(all, sorted);
    OfTypeNonEmpty(sorted, k);
    var t := OfType(sorted, k);
    assert t[0] in t;
    assert t[0] in multiset(sorted);
    t[0]
  }

  lemma OfTypeNonEmpty(s: seq<Candidate>, k: Strategy)
    requires k in StrategiesIn(s)
    ensures OfType(s, k) != []
  {
    var c :| c in s && c.strategy == k;
    assert c in OfType(s, k);
  }

  lemma SameStrategies(s: seq<Candidate>, t: seq<Candidate>)
    requires multiset(s) == multiset(t)
    ensures StrategiesIn(s) == StrategiesIn(t)
    ensures forall c :: c in s <==> c in t
  {
    forall c ensures c in s <==> c in t {
      assert c in s <==> c in multiset(s);
      assert c in t <==> c in multiset(t);
    }
  }

  /** The best candidate of a strategy scores at least as much as every
      other candidate of that strategy. */
  lemma BestIsHighest(all: seq<Candidate>, k: Strategy, c: Candidate)
    requires c in all && c.strategy == k
    ensures k in StrategiesIn(all)
    ensures Best(all, k).score >= c.score
  {
    var sorted := SortByScore(all);
    SameStrategies(all, sorted);
    OfTypeSorted(sorted, k);
    var t := OfType(sorted, k);
    assert c in t;
    var i :| 0 <= i < |t| && t[i] == c;
    assert i == 0 || t[0].score >= t[i].score;
  }

  lemma {:induction false} OfTypeSorted(s: seq<Candidate>, k: Strategy)
    requires Sorted(s)
    ensures Sorted(OfType(s, k))
  {
    if s != [] {
      var init, last := s[..|s| - 1], s[|s| - 1];
      OfTypeSorted(init, k);
      var t := OfType(init, k);
      forall i | 0 <= i < |t| ensures t[i].score >= last.score {
        assert t[i] in init;
      }
    }
  }

  // ---------------------------------------------------------------------
  // Facts about the per-strategy heads
  // ---------------------------------------------------------------------

  lemma {:induction false} HeadsFrom(s: seq<Candidate>, ks: seq<Strategy>, n: nat)
    ensures forall c :: c in Heads(s, ks, n) ==> c in s && c.strategy in ks
  {
    if ks != [] {
      HeadsFrom(s, ks[..|ks| - 1], n);
      var k := ks[|ks| - 1];
      forall c | c in Take(OfType(s, k), n) ensures c in OfType(s, k) {
        var i :| 0 <= i < |Take(OfType(s, k), n)| && Take(OfType(s, k), n)[i] == c;
        assert OfType(s, k)[i] == c;
      }
    }
  }

  lemma {:induction false} HeadsSize(s: seq<Candidate>, ks: seq<Strategy>, n: nat)
    ensures |Heads(s, ks, n)| <= |ks| * n
  {
    if ks != [] {
      HeadsSize(s, ks[..|ks| - 1], n);
      assert (|ks| - 1) * n + n == |ks| * n;
    }
  }

  /** With one per strategy and every strategy present, there is exactly
      one head per strategy. */
  lemma {:induction false} HeadsSizeOne(s: seq<Candidate>, ks: seq<Strategy>)
    requires forall k :: k in ks ==> k in StrategiesIn(s)
    ensures |Heads(s, ks, 1)| == |ks|
  {
    if ks != [] {
      HeadsSizeOne(s, ks[..|ks| - 1]);
      OfTypeNonEmpty(s, ks[|ks| - 1]);
    }
  }

  lemma {:induction false} HeadsHaveFirst(s: seq<Candidate>, ks: seq<Strategy>, n: nat, k: Strategy)
    requires n >= 1 && k in ks && k in StrategiesIn(s)
    ensures OfType(s, k) != [] && OfType(s, k)[0] in Heads(s, ks, n)
  {
    OfTypeNonEmpty(s, k);
    if ks[|ks| - 1] != k {
      HeadsHaveFirst(s, ks[..|ks| - 1], n, k);
    } else {
      assert Take(OfType(s, k), n)[0] == OfType(s, k)[0];
    }
  }

  /** Taking one per strategy takes exactly the first of each. */
  lemma {:induction false} HeadsOneAreFirsts(s: seq<Candidate>, ks: seq<Strategy>)
    requires Distinct(ks)
    ensures DistinctTypes(Heads(s, ks, 1))
    ensures forall c :: c in Heads(s, ks, 1) ==> OfType(s, c.strategy) != [] && c == OfType(s, c.strategy)[0]
  {
    if ks != [] {
      var init, k := ks[..|ks| - 1], ks[|ks| - 1];
      HeadsOneAreFirsts(s, init);
      HeadsFrom(s, init, 1);
      var h, t := Heads(s, init, 1), Take(OfType(s, k), 1);
      assert forall c :: c in t ==> c == OfType(s, k)[0] && c.strategy == k;
      assert k !in init;
      forall i, j | 0 <= i < j < |h + t| ensures (h + t)[i].strategy != (h + t)[j].strategy {
        if j >= |h| {
          assert (h + t)[j] in t;
          if i < |h| {
            assert (h + t)[i] in h;
          }
        }
      }
    }
  }

  lemma {:induction false} OfTypeDistinct(s: seq<Candidate>, k: Strategy)
    requires Distinct(s)
    ensures Distinct(OfType(s, k))
  {
    if s != [] {
      var init, last := s[..|s| - 1], s[|s| - 1];
      assert Distinct(init);
      OfTypeDistinct(init, k);
      assert last !in init;
    }
  }

  lemma {:induction false} HeadsDistinct(s: seq<Candidate>, ks: seq<Strategy>, n: nat)
    requires Distinct(s) && Distinct(ks)
    ensures Distinct(Heads(s, ks, n))
  {
    if ks != [] {
      var init, k := ks[..|ks| - 1], ks[|ks| - 1];
      assert Distinct(init);
      HeadsDistinct(s, init, n);
      HeadsFrom(s, init, n);
      OfTypeDistinct(s, k);
      var h, o := Heads(s, init, n), OfType(s, k);
      var t := Take(o, n);
      assert forall i :: 0 <= i < |t| ==> t[i] == o[i];
      assert k !in init;
      forall i, j | 0 <= i < j < |h + t| ensures (h + t)[i] != (h + t)[j] {
        if j >= |h| && i < |h| {
          assert (h + t)[i] in h;
          assert (h + t)[j] in o;
        }
      }
    }
  }

  // ---------------------------------------------------------------------
  // Sizes of distinct sequences
  // ---------------------------------------------------------------------

  lemma {:induction false} DistinctSize<T>(s: seq<T>)
    requires Distinct(s)
    ensures |set x | x in s| == |s|
  {
    if s != [] {
      var init, last := s[..|s| - 1], s[|s| - 1];
      assert Distinct(init);
      DistinctSize(init);
      assert (set x | x in s) == (set x | x in init) + {last};
      assert last !in init;
    }
  }

  lemma {:induction false} SetSize<T>(s: seq<T>)
    ensures |set x | x in s| <= |s|
  {
    if s != [] {
      var init, last := s[..|s| - 1], s[|s| - 1];
      SetSize(init);
      assert (set x | x in s) == (set x | x in init) + {last};
    }
  }

  /** A repetition-free sequence is no longer than any sequence holding all
      of its elements. */
  lemma DistinctSubsetSize<T>(a: seq<T>, b: seq<T>)
    requires Distinct(a)
    requires forall x :: x in a ==> x in b
    ensures |a| <= |b|
  {
    DistinctSize(a);
    SetSize(b);
    var sa, sb := set x | x in a, set x | x in b;
    assert sb == sa + (sb - sa);
    assert sa * (sb - sa) == {};
  }

  /** A permutation of a repetition-free sequence is repetition-free. */
  lemma DistinctPermutation<T>(a: seq<T>, b: seq<T>)
    requires Distinct(a) && multiset(a) == multiset(b)
    ensures Distinct(b)
  {
    DistinctSize(a);
    SetSize(b);
    assert (set x | x in a) == (set x | x in b) by {
      forall x ensures x in a <==> x in b {
        assert x in a <==> x in multiset(a);
        assert x in b <==> x in multiset(b);
      }
    }
    if !Distinct(b) {
      var i, j :| 0 <= i < j < |b| && b[i] == b[j];
      var rest := b[..j] + b[j + 1..];
      assert b == b[..j] + [b[j]] + b[j + 1..];
      assert (set x | x in b) == (set x | x in rest) by {
        assert b[j] == rest[i];
      }
      SetSize(rest);
      assert false;
    }
  }

  lemma OrderSize(sorted: seq<Candidate>)
    ensures |TypesInOrder(sorted)| == |StrategiesIn(sorted)|
  {
    var r := TypesInOrder(sorted);
    DistinctSize(r);
    assert (set x | x in r) == StrategiesIn(sorted);
  }

  // ---------------------------------------------------------------------
  // The ranking steps
  // ---------------------------------------------------------------------

  /** Groups sorted candidates by strategy: the strategies in order of first
      appearance, and for each the list of its candidates in order. */
  method GroupByType(sorted: seq<Candidate>) returns (order: seq<Strategy>, groups: map<Strategy, seq<Candidate>>)
    ensures Grouped(sorted, order, groups)
  {
    order, groups := [], map[];
    GroupedEmpty(sorted);
    var i := 0;
    while i < |sorted|
      invariant 0 <= i <= |sorted|
      invariant Grouped(sorted[..i], order, groups)
    {
      order, groups := AddToGroup(sorted, i, order, groups);
      i := i + 1;
    }
    assert sorted[..i] == sorted;
  }

  /** Files the candidate at `i` under its strategy, opening a group for a
      strategy not seen before. */
  method AddToGroup(sorted: seq<Candidate>, i: nat, order: seq<Strategy>, groups: map<Strategy, seq<Candidate>>)
    returns (order': seq<Strategy>, groups': map<Strategy, seq<Candidate>>)
    requires i < |sorted| && Grouped(sorted[..i], order, groups)
    ensures Grouped(sorted[..i + 1], order', groups')
  {
    var c := sorted[i];
    if c.strategy in groups {
      order', groups' := order, groups[c.strategy := groups[c.strategy] + [c]];
    } else {
      order', groups' := order + [c.strategy], groups[c.strategy := [c]];
      assert [] + [c] == [c];
    }
    GroupStep(sorted, i, order, groups, order', groups');
  }

  /** Nothing grouped yet: no strategies and no groups. */
  lemma GroupedEmpty(s: seq<Candidate>)
    ensures Grouped(s[..0], [], map[])
  {
    assert s[..0] == [];
  }

  /** `order` lists the strategies of `s` in order of first appearance and
      `groups` maps each of them to its candidates in order. */
  predicate Grouped(s: seq<Candidate>, order: seq<Strategy>, groups: map<Strategy, seq<Candidate>>)
  {
    order == TypesInOrder(s)
    && (forall k :: k in groups <==> k in order)
    && (forall k :: k in groups ==> groups[k] == OfType(s, k))
  }

  /** How one more candidate extends the strategy order and the groups. */
  lemma GroupStep(s: seq<Candidate>, i: nat, order: seq<Strategy>, groups: map<Strategy, seq<Candidate>>,
                  order': seq<Strategy>, groups': map<Strategy, seq<Candidate>>)
    requires i < |s| && Grouped(s[..i], order, groups)
    requires order' == if s[i].strategy in groups then order else order + [s[i].strategy]
    requires groups' == groups[s[i].strategy := (if s[i].strategy in groups then groups[s[i].strategy] else []) + [s[i]]]
    ensures Grouped(s[..i + 1], order', groups')
  {
    assert s[..i + 1] == s[..i] + [s[i]];
    GroupSnoc(s[..i], s[i], order, groups, order', groups');
  }

  lemma GroupSnoc(s: seq<Candidate>, c: Candidate, order: seq<Strategy>, groups: map<Strategy, seq<Candidate>>,
                  order': seq<Strategy>, groups': map<Strategy, seq<Candidate>>)
    requires Grouped(s, order, groups)
    requires order' == if c.strategy in groups then order else order + [c.strategy]
    requires groups' == groups[c.strategy := (if c.strategy in groups then groups[c.strategy] else []) + [c]]
    ensures Grouped(s + [c], order', groups')
  {
    TypesSnoc(s, c);
    forall k | k in groups' ensures groups'[k] == OfType(s + [c], k) {
      OfTypeSnoc(s, c, k);
      if k !in groups {
        OfTypeEmpty(s, k);
      }
    }
  }

  lemma TypesSnoc(s: seq<Candidate>, c: Candidate)
    ensures TypesInOrder(s + [c])
         == if c.strategy in TypesInOrder(s) then TypesInOrder(s) else TypesInOrder(s) + [c.strategy]
  {
    assert (s + [c])[..|s|] == s;
  }

  lemma OfTypeSnoc(s: seq<Candidate>, c: Candidate, k: Strategy)
    ensures OfType(s + [c], k) == OfType(s, k) + (if c.strategy == k then [c] else [])
  {
    assert (s + [c])[..|s|] == s;
  }

  lemma OfTypeEmpty(s: seq<Candidate>, k: Strategy)
    requires k !in StrategiesIn(s)
    ensures OfType(s, k) == []
  {
  }

  /** The first `perType` candidates of each strategy, strategy by strategy. */
  method TakePerType(ghost sorted: seq<Candidate>, order: seq<Strategy>, groups: map<Strategy, seq<Candidate>>, perType: nat)
    returns (picked: seq<Candidate>)
    requires forall k :: k in order ==> k in groups && groups[k] == OfType(sorted, k)
    ensures picked == Heads(sorted, order, perType)
  {
    picked := [];
    var j := 0;
    while j < |order|
      invariant 0 <= j <= |order|
      invariant picked == Heads(sorted, order[..j], perType)
    {
      assert order[..j + 1][..j] == order[..j];
      var group := groups[order[j]];
      picked := picked + Take(group, perType);
      j := j + 1;
    }
    assert order[..j] == order;
  }

  /** The candidates of `s` appended, in order, to `acc` when they are not
      already there, until `k` have been appended or `s` is exhausted. */
  function Fill(s: seq<Candidate>, acc: seq<Candidate>, k: nat): (r: seq<Candidate>)
    ensures |acc| <= |r| <= |acc| + k && r[..|acc|] == acc
    decreases |s|
  {
    if s == [] || k == 0 then acc
    else if s[0] in acc then Fill(s[1..], acc, k)
    else Fill(s[1..], acc + [s[0]], k - 1)
  }

  /** Filling appends only candidates of `s` that were not there before,
      and repeats nothing it did not repeat already. */
  lemma {:induction false} FillFresh(s: seq<Candidate>, acc: seq<Candidate>, k: nat)
    ensures forall c :: c in Fill(s, acc, k)[|acc|..] ==> c in s && c !in acc
    ensures Distinct(acc) ==> Distinct(Fill(s, acc, k))
    decreases |s|
  {
    if s != [] && k != 0 {
      var acc' := if s[0] in acc then acc else acc + [s[0]];
      var k' := if s[0] in acc then k else k - 1;
      assert Fill(s, acc, k) == Fill(s[1..], acc', k');
      FillFresh(s[1..], acc', k');
      FillFreshStep(s, acc, acc', Fill(s[1..], acc', k'));
    }
  }

  /** One step of `FillFresh`: the head of `s` is appended only when new. */
  lemma FillFreshStep(s: seq<Candidate>, acc: seq<Candidate>, acc': seq<Candidate>, r: seq<Candidate>)
    requires s != []
    requires acc' == if s[0] in acc then acc else acc + [s[0]]
    requires |acc'| <= |r| && r[..|acc'|] == acc'
    requires forall c :: c in r[|acc'|..] ==> c in s[1..] && c !in acc'
    requires Distinct(acc') ==> Distinct(r)
    ensures forall c :: c in r[|acc|..] ==> c in s && c !in acc
    ensures Distinct(acc) ==> Distinct(r)
  {
    assert r[|acc|..] == acc'[|acc|..] + r[|acc'|..];
    assert forall c :: c in s[1..] ==> c in s;
    assert Distinct(acc) ==> Distinct(acc');
  }

  /** Filling that stops short of `k` has taken every candidate of `s`. */
  lemma {:induction false} FillComplete(s: seq<Candidate>, acc: seq<Candidate>, k: nat)
    ensures |Fill(s, acc, k)| < |acc| + k ==> forall c :: c in s ==> c in Fill(s, acc, k)
    decreases |s|
  {
    if s != [] && k != 0 {
      var acc' := if s[0] in acc then acc else acc + [s[0]];
      var k' := if s[0] in acc then k else k - 1;
      assert Fill(s, acc, k) == Fill(s[1..], acc', k');
      FillComplete(s[1..], acc', k');
      FillCompleteStep(s, acc', Fill(s[1..], acc', k'));
    }
  }

  /** One step of `FillComplete`: the head of `s` is kept. */
  lemma FillCompleteStep(s: seq<Candidate>, acc': seq<Candidate>, r: seq<Candidate>)
    requires s != [] && s[0] in acc'
    requires |acc'| <= |r| && r[..|acc'|] == acc'
    ensures (forall c :: c in s[1..] ==> c in r) ==> forall c :: c in s ==> c in r
  {
    var i :| 0 <= i < |acc'| && acc'[i] == s[0];
    assert r[i] == s[0];
    assert s == [s[0]] + s[1..];
  }

  /** From a list sorted by score, filling appends the highest-scoring
      candidates not already present: none of them scores below a
      candidate of `s` that was left out. */
  lemma {:induction false} FillBest(s: seq<Candidate>, acc: seq<Candidate>, k: nat)
    requires Sorted(s)
    ensures forall c, d :: c in Fill(s, acc, k)[|acc|..] && d in s && d !in Fill(s, acc, k) ==> c.score >= d.score
    decreases |s|
  {
    if s != [] && k != 0 {
      var acc' := if s[0] in acc then acc else acc + [s[0]];
      var k' := if s[0] in acc then k else k - 1;
      assert Fill(s, acc, k) == Fill(s[1..], acc', k');
      FillBest(s[1..], acc', k');
      FillBestStep(s, acc, acc', Fill(s[1..], acc', k'));
    }
  }

  /** One step of `FillBest`: the head of `s` is kept, so what the rest
      leaves out is left out of the whole. */
  lemma FillBestStep(s: seq<Candidate>, acc: seq<Candidate>, acc': seq<Candidate>, r: seq<Candidate>)
    requires Sorted(s) && s != []
    requires acc' == if s[0] in acc then acc else acc + [s[0]]
    requires |acc'| <= |r| && r[..|acc'|] == acc'
    requires forall c, d :: c in r[|acc'|..] && d in s[1..] && d !in r ==> c.score >= d.score
    ensures forall c, d :: c in r[|acc|..] && d in s && d !in r ==> c.score >= d.score
  {
    assert s[0] in r by {
      var i :| 0 <= i < |acc'| && acc'[i] == s[0];
      assert r[i] == s[0];
    }
    assert r[|acc|..] == r[|acc|..|acc'|] + r[|acc'|..];
    forall c, d | c in r[|acc|..] && d in s && d !in r ensures c.score >= d.score {
      var j :| 0 <= j < |s| && s[j] == d;
      assert j > 0 && s[1..][j - 1] == d;
      if c !in r[|acc'|..] {
        assert c in r[|acc|..|acc'|];
        assert c == s[0];
      }
    }
  }

  /** Appends, in order, the candidates of `sorted` not yet picked until
      `limit` are picked or `sorted` is exhausted. Nothing is appended when
      `limit` are already picked. */
  method FillRemaining(sorted: seq<Candidate>, picked: seq<Candidate>, limit: int) returns (filled: seq<Candidate>)
    ensures filled == Fill(sorted, picked, if limit > |picked| then limit - |picked| else 0)
    ensures |picked| <= |filled| && filled[..|picked|] == picked
    ensures |picked| >= limit ==> filled == picked
    ensures |picked| < limit ==> |filled| <= limit
    ensures |picked| < limit ==> |filled| == limit || forall c :: c in sorted ==> c in filled
    ensures forall c :: c in filled[|picked|..] ==> c in sorted && c !in picked
    ensures Distinct(picked) ==> Distinct(filled)
    ensures Sorted(sorted) ==> forall c, d :: c in filled[|picked|..] && d in sorted && d !in filled ==> c.score >= d.score
  {
    ghost var wanted := if limit > |picked| then limit - |picked| else 0;
    filled := picked;
    var remaining := limit - |picked|;
    if remaining > 0 {
      var n := 0;
      while n < |sorted|
        invariant 0 <= n <= |sorted|
        invariant remaining > 0
        invariant Fill(sorted, picked, wanted) == Fill(sorted[n..], filled, remaining)
      {
        assert sorted[n..][0] == sorted[n] && sorted[n..][1..] == sorted[n + 1..];
        if sorted[n] !in filled {
          filled := filled + [sorted[n]];
          remaining := remaining - 1;
          if remaining <= 0 {
            break;
          }
        }
        n := n + 1;
      }
    }
    FillFresh(sorted, picked, wanted);
    FillComplete(sorted, picked, wanted);
    if Sorted(sorted) {
      FillBest(sorted, picked, wanted);
    }
  }

  /** How many candidates of each strategy are taken first: the requested
      count shared out evenly (rounding down) over the strategies present,
      at least one. */
  function PerType(topN: int, strategies: nat): (n: nat)
    ensures n >= 1
    ensures 1 <= strategies <= Limit(topN) ==> strategies * n <= Limit(topN)
    ensures strategies >= Limit(topN) ==> n == 1
  {
    if strategies == 0 then 1
    else
      var share := topN / strategies;
      assert strategies * share <= topN;
      assert strategies >= Limit(topN) ==> share <= 1;
      if share >= 1 then share else 1
  }

  /** What the engine's ranking `top` of the candidates `all` for the
      requested count `topN` satisfies:
      - it holds only candidates from `all`, sorted by descending score,
        and at most `topN` (at least one) of them;
      - without repeated candidates in `all` it repeats none and holds as
        many as requested, or all there are;
      - when there are no more strategies than the count, the best
        candidate of every strategy is included;
      - when there are no more strategies than the count, it holds every
        strategy's share (see `Shares`), and whatever else it holds scores
        at least as much as any candidate it leaves out;
      - when there are at least as many strategies as the count, it holds
        only best candidates, one strategy each, and a strategy's best is
        left out only when it scores no more than everything kept. */
  predicate Diversified(all: seq<Candidate>, topN: int, top: seq<Candidate>)
  {
    (forall c :: c in top ==> c in all)
    && Sorted(top)
    && |top| <= Limit(topN)
    && (Distinct(all) ==> Distinct(top))
    && (Distinct(all) ==> |top| == if |all| <= Limit(topN) then |all| else Limit(topN))
    && (|StrategiesIn(all)| <= Limit(topN) ==> forall k :: k in StrategiesIn(all) ==> Best(all, k) in top)
    && (|StrategiesIn(all)| >= Limit(topN) ==>
          DistinctTypes(top) && forall c :: c in top ==> c.strategy in StrategiesIn(all) && c == Best(all, c.strategy))
    && (|StrategiesIn(all)| <= Limit(topN) ==> forall c :: c in Shares(all, topN) ==> c in top)
    && (|StrategiesIn(all)| <= Limit(topN) ==>
          forall c, d :: c in top && c !in Shares(all, topN) && d in all && d !in top ==> c.score >= d.score)
    && (|StrategiesIn(all)| >= Limit(topN) ==>
          forall k, c :: k in StrategiesIn(all) && Best(all, k) !in top && c in top ==> c.score >= Best(all, k).score)
  }

  /** The share of every strategy: its `PerType` highest-scoring
      candidates, strategy by strategy in order of first appearance. */
  function Shares(all: seq<Candidate>, topN: int): seq<Candidate>
  {
    var sorted := SortByScore(all);
    Heads(sorted, TypesInOrder(sorted), PerType(topN, |StrategiesIn(all)|))
  }

  /** Ranks the candidates: sorts them by score, takes an even share of
      the requested count from each strategy, fills the remaining places
      with the best candidates not yet taken, and sorts and cuts the
      result to the requested count. */
  method Diversify(all: seq<Candidate>, topN: int) returns (top: seq<Candidate>)
    ensures Diversified(all, topN, top)
  {
    var sorted := SortByScore(all);
    var order, groups := GroupByType(sorted);
    var perType := PerType(topN, |order|);
    var picked := TakePerType(sorted, order, groups, perType);
    var limit := Limit(topN);
    var filled := FillRemaining(sorted, picked, limit);
    var ranked := SortByScore(filled);
    top := Take(ranked, limit);

    TakeSorted(ranked, limit);
    ChosenFromInput(all, sorted, order, perType, picked, filled, ranked, top, limit);
    if Distinct(all) {
      ChosenSizes(all, sorted, order, perType, picked, filled, ranked, top, limit);
    }
    ChosenBests(all, topN, sorted, order, picked, filled, ranked, top);
    ChosenShares(all, topN, sorted, order, picked, filled, ranked, top);
  }

  /** Which candidates the share and the fill keep, and that everything
      dropped scores no more than what is kept. */
  lemma ChosenShares(all: seq<Candidate>, topN: int, sorted: seq<Candidate>, order: seq<Strategy>, picked: seq<Candidate>,
                     filled: seq<Candidate>, ranked: seq<Candidate>, top: seq<Candidate>)
    requires sorted == SortByScore(all) && order == TypesInOrder(sorted)
    requires picked == Heads(sorted, order, PerType(topN, |order|))
    requires |picked| <= |filled| && filled[..|picked|] == picked
    requires |picked| >= Limit(topN) ==> filled == picked
    requires |picked| < Limit(topN) ==> |filled| <= Limit(topN)
    requires forall c, d :: c in filled[|picked|..] && d in sorted && d !in filled ==> c.score >= d.score
    requires ranked == SortByScore(filled) && top == Take(ranked, Limit(topN))
    ensures |StrategiesIn(all)| <= Limit(topN) ==> forall c :: c in Shares(all, topN) ==> c in top
    ensures |StrategiesIn(all)| <= Limit(topN) ==>
              forall c, d :: c in top && c !in Shares(all, topN) && d in all && d !in top ==> c.score >= d.score
    ensures |StrategiesIn(all)| >= Limit(topN) ==>
              forall k, c :: k in StrategiesIn(all) && Best(all, k) !in top && c in top ==> c.score >= Best(all, k).score
  {
    var limit := Limit(topN);
    SameStrategies(all, sorted);
    OrderSize(sorted);
    assert picked == Shares(all, topN);
    if |order| <= limit {
      if |order| >= 1 {
        HeadsWithinLimit(sorted, order, topN);
      }
      SharesKept(sorted, picked, filled, ranked, top, limit);
    }
    if |order| >= limit {
      BestIsFirst(all, sorted);
      HeadsSizeOne(sorted, order);
      forall k | k in StrategiesIn(all) ensures Best(all, k) in filled {
        HeadsHaveFirst(sorted, order, 1, k);
      }
      BestsOutscored(all, filled, ranked, top, limit);
    }
  }

  /** When the picks fit, nothing is cut: every pick is kept, and every
      fill scores at least as much as what was never filled. */
  lemma SharesKept(sorted: seq<Candidate>, picked: seq<Candidate>, filled: seq<Candidate>,
                   ranked: seq<Candidate>, top: seq<Candidate>, limit: nat)
    requires |picked| <= limit
    requires |picked| <= |filled| && filled[..|picked|] == picked
    requires |picked| >= limit ==> filled == picked
    requires |picked| < limit ==> |filled| <= limit
    requires forall c, d :: c in filled[|picked|..] && d in sorted && d !in filled ==> c.score >= d.score
    requires multiset(ranked) == multiset(filled) && top == Take(ranked, limit)
    ensures forall c :: c in picked ==> c in top
    ensures forall c, d :: c in top && c !in picked && d in sorted && d !in top ==> c.score >= d.score
  {
    assert |ranked| == |multiset(ranked)| == |filled|;
    assert top == ranked;
    assert filled == picked + filled[|picked|..];
    SameStrategies(filled, ranked);
  }

  /** A best candidate left out of a sorted cut scores no more than
      anything kept. */
  lemma BestsOutscored(all: seq<Candidate>, filled: seq<Candidate>, ranked: seq<Candidate>, top: seq<Candidate>, limit: nat)
    requires forall k :: k in StrategiesIn(all) ==> Best(all, k) in filled
    requires ranked == SortByScore(filled) && top == Take(ranked, limit)
    ensures forall k, c :: k in StrategiesIn(all) && Best(all, k) !in top && c in top ==> c.score >= Best(all, k).score
  {
    SameStrategies(filled, ranked);
    forall k, c | k in StrategiesIn(all) && Best(all, k) !in top && c in top ensures c.score >= Best(all, k).score {
      var b := Best(all, k);
      var j :| 0 <= j < |ranked| && ranked[j] == b;
      assert forall t :: 0 <= t < |top| ==> top[t] == ranked[t];
      assert j >= |top|;
      var i :| 0 <= i < |top| && top[i] == c;
      assert ranked[i] == c;
    }
  }

  /** How the strategy quota decides which best candidates are kept. */
  lemma ChosenBests(all: seq<Candidate>, topN: int, sorted: seq<Candidate>, order: seq<Strategy>, picked: seq<Candidate>,
                    filled: seq<Candidate>, ranked: seq<Candidate>, top: seq<Candidate>)
    requires sorted == SortByScore(all) && order == TypesInOrder(sorted)
    requires picked == Heads(sorted, order, PerType(topN, |order|))
    requires |picked| <= |filled| && filled[..|picked|] == picked
    requires |picked| >= Limit(topN) ==> filled == picked
    requires |picked| < Limit(topN) ==> |filled| <= Limit(topN)
    requires multiset(ranked) == multiset(filled) && top == Take(ranked, Limit(topN))
    ensures |StrategiesIn(all)| <= Limit(topN) ==> forall k :: k in StrategiesIn(all) ==> Best(all, k) in top
    ensures |StrategiesIn(all)| >= Limit(topN) ==>
              DistinctTypes(top) && forall c :: c in top ==> c.strategy in StrategiesIn(all) && c == Best(all, c.strategy)
  {
    var limit := Limit(topN);
    SameStrategies(all, sorted);
    OrderSize(sorted);
    BestIsFirst(all, sorted);
    if |order| <= limit {
      if |order| >= 1 {
        HeadsWithinLimit(sorted, order, topN);
      }
      assert |ranked| == |multiset(ranked)| == |filled|;
      FirstsChosen(sorted, order, PerType(topN, |order|), picked, filled, ranked, top, limit);
    }
    if |order| >= limit {
      OnlyFirstsChosen(sorted, order, picked, filled, ranked, top, topN);
    }
  }

  lemma BestIsFirst(all: seq<Candidate>, sorted: seq<Candidate>)
    requires sorted == SortByScore(all)
    ensures forall k :: k in StrategiesIn(all) ==> OfType(sorted, k) != [] && Best(all, k) == OfType(sorted, k)[0]
  {
    SameStrategies(all, sorted);
    forall k | k in StrategiesIn(all) ensures OfType(sorted, k) != [] {
      OfTypeNonEmpty(sorted, k);
    }
  }

  // ---------------------------------------------------------------------
  // The steps of the ranking proof
  // ---------------------------------------------------------------------

  lemma TakeMembers<T>(s: seq<T>, n: nat)
    ensures forall x :: x in Take(s, n) ==> x in s
  {
    forall x | x in Take(s, n) ensures x in s {
      var i :| 0 <= i < |Take(s, n)| && Take(s, n)[i] == x;
      assert s[i] == x;
    }
  }

  lemma TakeSorted(s: seq<Candidate>, n: nat)
    requires Sorted(s)
    ensures Sorted(Take(s, n))
  {
  }

  lemma TakeDistinct<T>(s: seq<T>, n: nat)
    requires Distinct(s)
    ensures Distinct(Take(s, n))
  {
  }

  /** Everything the ranking keeps comes from its input. */
  lemma ChosenFromInput(all: seq<Candidate>, sorted: seq<Candidate>, order: seq<Strategy>, perType: nat, picked: seq<Candidate>,
                        filled: seq<Candidate>, ranked: seq<Candidate>, top: seq<Candidate>, limit: nat)
    requires multiset(sorted) == multiset(all)
    requires picked == Heads(sorted, order, perType)
    requires |picked| <= |filled| && filled[..|picked|] == picked
    requires forall c :: c in filled[|picked|..] ==> c in sorted
    requires multiset(ranked) == multiset(filled)
    requires top == Take(ranked, limit)
    ensures forall c :: c in top ==> c in all
  {
    SameStrategies(all, sorted);
    SameStrategies(filled, ranked);
    HeadsFrom(sorted, order, perType);
    assert filled == picked + filled[|picked|..];
    forall c | c in top ensures c in all {
      var i :| 0 <= i < |top| && top[i] == c;
      assert ranked[i] == c;
    }
  }

  /** Without repeated candidates the ranking repeats none and is as long
      as requested, or as long as its input. */
  lemma ChosenSizes(all: seq<Candidate>, sorted: seq<Candidate>, order: seq<Strategy>, perType: nat, picked: seq<Candidate>,
                    filled: seq<Candidate>, ranked: seq<Candidate>, top: seq<Candidate>, limit: nat)
    requires Distinct(all) && multiset(sorted) == multiset(all)
    requires order == TypesInOrder(sorted) && picked == Heads(sorted, order, perType)
    requires |picked| <= |filled| && filled[..|picked|] == picked
    requires |picked| >= limit ==> filled == picked
    requires |picked| < limit ==> |filled| <= limit
    requires |picked| < limit ==> |filled| == limit || forall c :: c in sorted ==> c in filled
    requires forall c :: c in filled[|picked|..] ==> c in sorted
    requires Distinct(picked) ==> Distinct(filled)
    requires multiset(ranked) == multiset(filled) && top == Take(ranked, limit)
    ensures Distinct(top)
    ensures |top| == if |all| <= limit then |all| else limit
  {
    HeadsFrom(sorted, order, perType);
    assert filled == picked + filled[|picked|..];
    assert forall c :: c in filled ==> c in sorted;
    DistinctPermutation(all, sorted);
    HeadsDistinct(sorted, order, perType);
    DistinctPermutation(filled, ranked);
    TakeDistinct(ranked, limit);
    assert |sorted| == |multiset(sorted)| == |all|;
    assert |ranked| == |multiset(ranked)| == |filled|;
    DistinctSubsetSize(filled, sorted);
    if |picked| < limit && |filled| < limit {
      DistinctSubsetSize(sorted, filled);
      assert |filled| == |all|;
    }
  }

  /** With no more strategies than the limit, the per-strategy quota keeps
      the picks within the limit. */
  lemma HeadsWithinLimit(sorted: seq<Candidate>, order: seq<Strategy>, topN: int)
    requires 1 <= |order| <= Limit(topN)
    ensures |Heads(sorted, order, PerType(topN, |order|))| <= Limit(topN)
  {
    HeadsSize(sorted, order, PerType(topN, |order|));
  }

  /** When nothing is cut, the first candidate of every strategy survives. */
  lemma FirstsChosen(sorted: seq<Candidate>, order: seq<Strategy>, perType: nat, picked: seq<Candidate>,
                     filled: seq<Candidate>, ranked: seq<Candidate>, top: seq<Candidate>, limit: nat)
    requires order == TypesInOrder(sorted) && perType >= 1 && picked == Heads(sorted, order, perType)
    requires |picked| <= |filled| && filled[..|picked|] == picked
    requires multiset(ranked) == multiset(filled) && |ranked| <= limit && top == Take(ranked, limit)
    ensures forall k :: k in StrategiesIn(sorted) ==> OfType(sorted, k) != [] && OfType(sorted, k)[0] in top
  {
    assert top == ranked;
    SameStrategies(filled, ranked);
    assert filled == picked + filled[|picked|..];
    forall k | k in StrategiesIn(sorted) ensures OfType(sorted, k) != [] && OfType(sorted, k)[0] in top {
      HeadsHaveFirst(sorted, order, perType, k);
    }
  }

  /** With at least as many strategies as the limit, one candidate per
      strategy is picked, each the first of its strategy. */
  lemma OnlyFirstsChosen(sorted: seq<Candidate>, order: seq<Strategy>, picked: seq<Candidate>,
                         filled: seq<Candidate>, ranked: seq<Candidate>, top: seq<Candidate>, topN: int)
    requires order == TypesInOrder(sorted) && |order| >= Limit(topN)
    requires picked == Heads(sorted, order, PerType(topN, |order|))
    requires |picked| >= Limit(topN) ==> filled == picked
    requires multiset(ranked) == multiset(filled) && top == Take(ranked, Limit(topN))
    ensures DistinctTypes(top)
    ensures forall c :: c in top ==> c.strategy in StrategiesIn(sorted) && OfType(sorted, c.strategy) != [] && c == OfType(sorted, c.strategy)[0]
  {
    HeadsSizeOne(sorted, order);
    HeadsOneAreFirsts(sorted, order);
    HeadsFrom(sorted, order, 1);
    assert filled == picked;
    assert Distinct(picked) by {
      forall i, j | 0 <= i < j < |picked| ensures picked[i] != picked[j] {
        assert picked[i].strategy != picked[j].strategy;
      }
    }
    DistinctPermutation(picked, ranked);
    TakeDistinct(ranked, Limit(topN));
    TakeMembers(ranked, Limit(topN));
    SameStrategies(picked, ranked);
    forall c | c in top ensures c.strategy in StrategiesIn(sorted) && OfType(sorted, c.strategy) != [] && c == OfType(sorted, c.strategy)[0] {
      assert c in picked;
      assert c in sorted;
    }
    forall i, j | 0 <= i < j < |top| ensures top[i].strategy != top[j].strategy {
      assert top[i] in top && top[j] in top;
    }
  }
}
