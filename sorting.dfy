/** The order candidates are ranked in: descending composite score, ties
    kept in their original order (a stable sort, as the list sort of the
    engine's language is). */
module Sorting {
  import opened Types

  predicate Sorted(s: seq<Candidate>)
  {
    forall i, j :: 0 <= i < j < |s| ==> s[i].score >= s[j].score
  }

  /** `x` placed after every element scoring at least as much, in a list
      sorted by descending score. */
  function Insert(x: Candidate, s: seq<Candidate>): (r: seq<Candidate>)
    ensures multiset(r) == multiset(s) + multiset{x}
    ensures |r| == |s| + 1
  {
    if s == [] then [x]
    else if s[0].score >= x.score then
      assert s == [s[0]] + s[1..];
      [s[0]] + Insert(x, s[1..])
    else [x] + s
  }

  lemma {:induction false} InsertSorted(x: Candidate, s: seq<Candidate>)
    requires Sorted(s)
    ensures Sorted(Insert(x, s))
    ensures Insert(x, s)[0] == if s != [] && s[0].score >= x.score then s[0] else x
  {
    if s == [] {
    } else if s[0].score >= x.score {
      var rest := Insert(x, s[1..]);
      InsertSorted(x, s[1..]);
      InsertPast(x, s);
      assert |s| > 1 ==> s[0].score >= s[1].score;
      SortedCons(s[0], rest);
    } else {
      SortedCons(x, s);
    }
  }

  /** A head scoring at least as much as the next keeps a list sorted. */
  lemma SortedCons(c: Candidate, s: seq<Candidate>)
    requires Sorted(s) && (s != [] ==> c.score >= s[0].score)
    ensures Sorted([c] + s)
  {
    forall i, j | 0 <= i < j < |s| + 1 ensures ([c] + s)[i].score >= ([c] + s)[j].score {
      if i == 0 && j > 1 {
        assert s[0].score >= s[j - 1].score;
      }
    }
  }

  /** Stable insertion sort by descending score. */
  function SortByScore(s: seq<Candidate>): (r: seq<Candidate>)
    ensures Sorted(r)
    ensures multiset(r) == multiset(s)
    ensures |r| == |s|
  {
    if s == [] then []
    else
      assert s == s[..|s| - 1] + [s[|s| - 1]];
      var sorted := SortByScore(s[..|s| - 1]);
      InsertSorted(s[|s| - 1], sorted);
      Insert(s[|s| - 1], sorted)
  }

  /** The candidates of `s` with score `v`, in order. */
  function WithScore(s: seq<Candidate>, v: real): seq<Candidate>
  {
    if s == [] then []
    else WithScore(s[..|s| - 1], v) + (if s[|s| - 1].score == v then [s[|s| - 1]] else [])
  }

  lemma WithScoreAppend(s: seq<Candidate>, t: seq<Candidate>, v: real)
    ensures WithScore(s + t, v) == WithScore(s, v) + WithScore(t, v)
    decreases |t|
  {
    if t == [] {
      assert s + t == s;
    } else {
      assert (s + t)[..|s + t| - 1] == s + t[..|t| - 1];
      WithScoreAppend(s, t[..|t| - 1], v);
    }
  }

  lemma WithScoreNone(s: seq<Candidate>, v: real)
    requires forall i :: 0 <= i < |s| ==> s[i].score < v
    ensures WithScore(s, v) == []
  {
    if s != [] {
      WithScoreNone(s[..|s| - 1], v);
    }
  }

  /** Inserting into a sorted list puts `x` after the elements of equal score. */
  lemma {:induction false} InsertStable(x: Candidate, s: seq<Candidate>, v: real)
    requires Sorted(s)
    ensures WithScore(Insert(x, s), v) == WithScore(s, v) + WithScore([x], v)
  {
    if s == [] {
      assert Insert(x, s) == [x];
    } else if s[0].score >= x.score {
      InsertStable(x, s[1..], v);
      InsertStablePast(x, s, v);
    } else {
      InsertStableFront(x, s, v);
    }
  }

  /** `x` goes past a head scoring at least as much. */
  lemma InsertStablePast(x: Candidate, s: seq<Candidate>, v: real)
    requires s != [] && s[0].score >= x.score
    requires WithScore(Insert(x, s[1..]), v) == WithScore(s[1..], v) + WithScore([x], v)
    ensures WithScore(Insert(x, s), v) == WithScore(s, v) + WithScore([x], v)
  {
    var rest := Insert(x, s[1..]);
    InsertPast(x, s);
    assert [s[0]] + s[1..] == s;
    WithScoreCons(s[0], rest, s[1..], WithScore([x], v), v);
  }

  /** Past a head scoring at least as much, `x` is inserted into the rest. */
  lemma InsertPast(x: Candidate, s: seq<Candidate>)
    requires s != [] && s[0].score >= x.score
    ensures Insert(x, s) == [s[0]] + Insert(x, s[1..])
  {
  }

  /** A common head keeps a relation between the candidates of a score. */
  lemma WithScoreCons(c: Candidate, s: seq<Candidate>, t: seq<Candidate>, extra: seq<Candidate>, v: real)
    requires WithScore(s, v) == WithScore(t, v) + extra
    ensures WithScore([c] + s, v) == WithScore([c] + t, v) + extra
  {
    WithScoreAppend([c], s, v);
    WithScoreAppend([c], t, v);
  }

  /** `x` goes in front of a sorted list whose head scores less, so none of
      the list has its score. */
  lemma InsertStableFront(x: Candidate, s: seq<Candidate>, v: real)
    requires Sorted(s) && s != [] && s[0].score < x.score
    ensures WithScore(Insert(x, s), v) == WithScore(s, v) + WithScore([x], v)
  {
    assert Insert(x, s) == [x] + s;
    WithScoreAppend([x], s, v);
    assert WithScore([x], v) == WithScore([], v) + (if x.score == v then [x] else []);
    if x.score == v {
      WithScoreNone(s, v);
    }
  }

  /** The sort is stable: among candidates of equal score the order is kept. */
  lemma {:induction false} SortByScoreStable(s: seq<Candidate>, v: real)
    ensures WithScore(SortByScore(s), v) == WithScore(s, v)
  {
    if s != [] {
      var init, x := s[..|s| - 1], s[|s| - 1];
      SortByScoreStable(init, v);
      InsertStable(x, SortByScore(init), v);
      assert WithScore([x], v) == WithScore([], v) + (if x.score == v then [x] else []);
    }
  }

  /** Sorting a sorted list changes nothing. */
  lemma {:induction false} SortSorted(s: seq<Candidate>)
    requires Sorted(s)
    ensures SortByScore(s) == s
  {
    if s != [] {
      var init, x := s[..|s| - 1], s[|s| - 1];
      SortSorted(init);
      InsertLast(x, init);
    }
  }

  lemma {:induction false} InsertLast(x: Candidate, s: seq<Candidate>)
    requires forall i :: 0 <= i < |s| ==> s[i].score >= x.score
    ensures Insert(x, s) == s + [x]
  {
    if s != [] {
      InsertLast(x, s[1..]);
      assert s == [s[0]] + s[1..];
    }
  }
}
