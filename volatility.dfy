/** The volatility fed to the probability model: implied and historical
    volatility blended with a hard 20% floor, and the iron condor's per-side
    skew adjustment. Volatilities are annualised fractions (0.25 is 25%). */
module Volatility {
  import opened Types

  const VolFloor: real := 0.20
  const ImpliedWeight: real := 0.7
  const HistoricalWeight: real := 0.3

  /** Blend of implied volatility `iv` and historical volatility `hv`: an
      implied figure under 10% is distrusted and weighted 20/80 against the
      historical one, otherwise 70/30; a missing (non-positive) figure is
      replaced by the other one, and the result never drops below the floor. */
  function Blend(iv: real, hv: real): (r: real)
    ensures r >= VolFloor
  {
    var blended :=
      if 0.0 < iv < 0.10 && hv > 0.0 then 0.2 * iv + 0.8 * hv
      else if iv > 0.0 && hv > 0.0 then ImpliedWeight * iv + HistoricalWeight * hv
      else if iv > 0.0 then iv
      else if hv > 0.0 then hv
      else VolFloor;
    Max(blended, VolFloor)
  }

  /** With neither figure available the floor is used. */
  lemma BlendWithoutData(iv: real, hv: real)
    requires iv <= 0.0 && hv <= 0.0
    ensures Blend(iv, hv) == VolFloor
  {
  }

  /** With one figure available the blend is that figure, floored. */
  lemma BlendSingleSource(iv: real, hv: real)
    ensures iv > 0.0 && hv <= 0.0 ==> Blend(iv, hv) == Max(iv, VolFloor)
    ensures iv <= 0.0 && hv > 0.0 ==> Blend(iv, hv) == Max(hv, VolFloor)
  {
  }

  /** With both figures available the blend lies between them (before the
      floor), and a suspiciously low implied figure pulls it four times
      closer to the historical one than to the implied one. */
  lemma BlendBetweenSources(iv: real, hv: real)
    requires iv > 0.0 && hv > 0.0
    ensures Max(Min(iv, hv), VolFloor) <= Blend(iv, hv) <= Max(Max(iv, hv), VolFloor)
    ensures iv < 0.10 ==> Blend(iv, hv) == Max(0.2 * iv + 0.8 * hv, VolFloor)
    ensures iv < 0.10 ==> 4.0 * Abs((0.2 * iv + 0.8 * hv) - hv) == Abs((0.2 * iv + 0.8 * hv) - iv)
    ensures iv >= 0.10 ==> Blend(iv, hv) == Max(ImpliedWeight * iv + HistoricalWeight * hv, VolFloor)
  {
  }

  /** The implied volatility of one side of an iron condor: the short leg's,
      else the long leg's, else none (0). */
  function SideImplied(shortIv: real, longIv: real): (r: real)
    ensures r > 0.0 <==> shortIv > 0.0 || longIv > 0.0
    ensures r > 0.0 ==> r == shortIv || r == longIv
  {
    if shortIv > 0.0 then shortIv else if longIv > 0.0 then longIv else 0.0
  }

  /** The positive entries of `s`, in order. */
  function Positives(s: seq<real>): (p: seq<real>)
    ensures |p| <= |s|
    ensures forall x :: x in p <==> x in s && x > 0.0
  {
    if s == [] then []
    else Positives(s[..|s| - 1]) + (if s[|s| - 1] > 0.0 then [s[|s| - 1]] else [])
  }

  function MaxOf(s: seq<real>): (m: real)
    requires |s| > 0
    ensures m in s
    ensures forall x :: x in s ==> x <= m
  {
    if |s| == 1 then s[0]
    else
      assert s == s[..|s| - 1] + [s[|s| - 1]];
      Max(MaxOf(s[..|s| - 1]), s[|s| - 1])
  }

  function MinOf(s: seq<real>): (m: real)
    requires |s| > 0
    ensures m in s
    ensures forall x :: x in s ==> m <= x
  {
    if |s| == 1 then s[0]
    else
      assert s == s[..|s| - 1] + [s[|s| - 1]];
      Min(MinOf(s[..|s| - 1]), s[|s| - 1])
  }

  /** The iron condor's skew factor over the four legs' implied
      volatilities: one plus half the spread between the highest and the
      lowest positive one, or 1 when none is positive. */
  function SkewFactor(legIvs: seq<real>): (f: real)
    ensures f >= 1.0
    ensures (forall x :: x in legIvs ==> x <= 0.0) ==> f == 1.0
  {
    var ivs := Positives(legIvs);
    if |ivs| > 0 then 1.0 + (MaxOf(ivs) - MinOf(ivs)) * 0.5 else 1.0
  }

  /** The final volatility of one iron condor side: its blended volatility
      scaled by the skew factor, floored again. */
  function SideSigma(sideIv: real, hv: real, skew: real): (r: real)
    ensures r >= VolFloor
  {
    Max(Blend(sideIv, hv) * skew, VolFloor)
  }

  /** Skew never lowers a side's volatility below its plain blend. */
  lemma SkewNeverLowers(legIvs: seq<real>, sideIv: real, hv: real)
    ensures SideSigma(sideIv, hv, SkewFactor(legIvs)) >= Blend(sideIv, hv)
  {
    var b := Blend(sideIv, hv);
    var f := SkewFactor(legIvs);
    ScaledUp(b, f, b * f);
  }

  /** A factor of at least one does not shrink a non-negative amount. */
  lemma ScaledUp(b: real, f: real, bf: real)
    requires b >= 0.0 && f >= 1.0 && bf == b * f
    ensures bf >= b
  {
    assert b * (f - 1.0) >= 0.0;
  }
}
