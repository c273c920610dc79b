/** Two statistics read off the smoothed histogram: the most probable speed (the x of the
    highest point) and the normalised Shannon entropy of the point heights. */
module HistogramUtils {
  import opened Common
  import opened MathLib
  import opened Physics

  /** The index the scan settles on: the first point of maximal height. */
  function FirstArgMax(ps: seq<Point>): (j: nat)
    requires |ps| > 0
    ensures j < |ps|
    ensures forall i :: 0 <= i < |ps| ==> ps[i].y <= ps[j].y
    ensures forall i :: 0 <= i < j ==> ps[i].y < ps[j].y
  {
    if |ps| == 1 then 0
    else
      var j := FirstArgMax(ps[..|ps| - 1]);
      if ps[|ps| - 1].y > ps[j].y then |ps| - 1 else j
  }

  /** `calculateSimulatedVp`: null for a non-array or empty list, otherwise the x of the
      first highest point converted from px/frame to m/s. */
  method CalculateSimulatedVp(conv: Conversions, data: Option<seq<Point>>) returns (vp: Option<real>)
    requires conv.Valid()
    ensures data.None? || |data.value| == 0 <==> vp.None?
    ensures vp.Some? ==> vp.value == conv.PxFrameToMs(data.value[FirstArgMax(data.value)].x)
  {
    if data.None? || |data.value| == 0 {
      return None;
    }
    var ps := data.value;
    var best := 0;
    var i := 0;
    while i < |ps|
      invariant 0 <= i <= |ps| && 0 <= best < |ps|
      invariant best == if i == 0 then 0 else FirstArgMax(ps[..i])
    {
      if ps[i].y > ps[best].y {
        best := i;
      }
      assert ps[..i + 1][..i] == ps[..i];
      i := i + 1;
    }
    assert ps[..i] == ps;
    return Some(conv.PxFrameToMs(ps[best].x));
  }

  /** The sum of the positive heights. */
  function PositiveTotal(ps: seq<Point>): (t: real)
    ensures 0.0 <= t
  {
    if |ps| == 0 then 0.0
    else PositiveTotal(ps[..|ps| - 1]) + (if ps[|ps| - 1].y > 0.0 then ps[|ps| - 1].y else 0.0)
  }

  /** The total is positive exactly when some point has a positive height. */
  lemma {:induction false} PositiveTotalIff(ps: seq<Point>)
    ensures PositiveTotal(ps) > 0.0 <==> exists i :: 0 <= i < |ps| && ps[i].y > 0.0
  {
    if |ps| > 0 {
      var init := ps[..|ps| - 1];
      PositiveTotalIff(init);
      if exists i :: 0 <= i < |init| && init[i].y > 0.0 {
        var i :| 0 <= i < |init| && init[i].y > 0.0;
        assert ps[i] == init[i];
      }
      if exists i :: 0 <= i < |ps| && ps[i].y > 0.0 {
        var i :| 0 <= i < |ps| && ps[i].y > 0.0;
        if i < |init| {
          assert init[i] == ps[i];
        }
      }
    }
  }

  /** Every positive height is at most the total, so each y/total lies in (0, 1]. */
  lemma {:induction false} HeightAtMostTotal(ps: seq<Point>, i: nat)
    requires i < |ps| && ps[i].y > 0.0
    ensures ps[i].y <= PositiveTotal(ps)
  {
    if i < |ps| - 1 {
      HeightAtMostTotal(ps[..|ps| - 1], i);
    }
  }

  /** The entropy term p·ln p of a height y, with p = y/total; 0 for y ≤ 0. */
  function PLogP(mth: Transcendentals, y: real, total: real): real
    requires 0.0 < total
  {
    if y > 0.0 then (y / total) * Log(mth, y / total) else 0.0
  }

  /** S = −Σ p·ln p, accumulated front to back. */
  function EntropySum(mth: Transcendentals, ps: seq<Point>, total: real): real
    requires 0.0 < total
  {
    if |ps| == 0 then 0.0
    else EntropySum(mth, ps[..|ps| - 1], total) - PLogP(mth, ps[|ps| - 1].y, total)
  }

  /** The value `calculateDistributionEntropy` returns for a non-empty list: 0 when no
      height is positive, otherwise S / ln(point count), or 0 when that logarithm is not
      positive. */
  function NormalisedEntropy(mth: Transcendentals, ps: seq<Point>): real
    requires |ps| > 0
  {
    var total := PositiveTotal(ps);
    if total <= 0.0 then 0.0
    else
      var maxEntropy := Log(mth, |ps| as real);
      if maxEntropy > 0.0 then EntropySum(mth, ps, total) / maxEntropy else 0.0
  }

  /** `calculateDistributionEntropy`: null for a non-array or empty list, otherwise the
      normalised entropy. The particle-count argument is not used by the source and is
      not modelled. */
  method CalculateDistributionEntropy(mth: Transcendentals, data: Option<seq<Point>>) returns (r: Option<real>)
    ensures data.None? || |data.value| == 0 <==> r.None?
    ensures r.Some? ==> r.value == NormalisedEntropy(mth, data.value)
  {
    if data.None? || |data.value| == 0 {
      return None;
    }
    var ps := data.value;
    var total := 0.0;
    var i := 0;
    while i < |ps|
      invariant 0 <= i <= |ps|
      invariant total == PositiveTotal(ps[..i])
    {
      if ps[i].y > 0.0 {
        total := total + ps[i].y;
      }
      assert ps[..i + 1][..i] == ps[..i];
      i := i + 1;
    }
    assert ps[..i] == ps;
    if total <= 0.0 {
      return Some(0.0);
    }
    var entropy := 0.0;
    i := 0;
    while i < |ps|
      invariant 0 <= i <= |ps|
      invariant entropy == EntropySum(mth, ps[..i], total)
    {
      if ps[i].y > 0.0 {
        var p := ps[i].y / total;
        entropy := entropy - p * Log(mth, p);
      }
      assert ps[..i + 1][..i] == ps[..i];
      i := i + 1;
    }
    assert ps[..i] == ps;
    var maxEntropy := Log(mth, |ps| as real);
    var normalized := if maxEntropy > 0.0 then entropy / maxEntropy else 0.0;
    return Some(normalized);
  }

  /** Without a positive height the entropy is 0. */
  lemma NoPositiveHeightZeroEntropy(mth: Transcendentals, ps: seq<Point>)
    requires |ps| > 0 && forall i :: 0 <= i < |ps| ==> ps[i].y <= 0.0
    ensures NormalisedEntropy(mth, ps) == 0.0
  {
    PositiveTotalIff(ps);
  }

  /** A single point has entropy 0, since ln 1 = 0. */
  lemma SinglePointZeroEntropy(mth: Transcendentals, p: Point)
    requires Lawful(mth)
    ensures NormalisedEntropy(mth, [p]) == 0.0
  {
  }

  lemma {:induction false} PositiveTotalAppend(a: seq<Point>, b: seq<Point>)
    ensures PositiveTotal(a + b) == PositiveTotal(a) + PositiveTotal(b)
  {
    if |b| == 0 {
      assert a + b == a;
    } else {
      PositiveTotalAppend(a, b[..|b| - 1]);
      assert (a + b)[..|a + b| - 1] == a + b[..|b| - 1];
      assert (a + b)[|a + b| - 1] == b[|b| - 1];
    }
  }

  lemma {:induction false} EntropySumAppend(mth: Transcendentals, a: seq<Point>, b: seq<Point>, total: real)
    requires 0.0 < total
    ensures EntropySum(mth, a + b, total) == EntropySum(mth, a, total) + EntropySum(mth, b, total)
  {
    if |b| == 0 {
      assert a + b == a;
    } else {
      EntropySumAppend(mth, a, b[..|b| - 1], total);
      assert (a + b)[..|a + b| - 1] == a + b[..|b| - 1];
      assert (a + b)[|a + b| - 1] == b[|b| - 1];
    }
  }

  /** A point of height ≤ 0, wherever it is inserted, changes neither the total nor the
      entropy sum. */
  lemma NonPositivePointIgnored(mth: Transcendentals, a: seq<Point>, p: Point, b: seq<Point>, total: real)
    requires p.y <= 0.0 && 0.0 < total
    ensures PositiveTotal(a + [p] + b) == PositiveTotal(a + b)
    ensures EntropySum(mth, a + [p] + b, total) == EntropySum(mth, a + b, total)
  {
    PositiveTotalAppend(a + [p], b);
    PositiveTotalAppend(a, [p]);
    PositiveTotalAppend(a, b);
    assert PositiveTotal([p]) == PositiveTotal([p][..0]) + 0.0;
    EntropySumAppend(mth, a + [p], b, total);
    EntropySumAppend(mth, a, [p], total);
    EntropySumAppend(mth, a, b, total);
    assert EntropySum(mth, [p], total) == EntropySum(mth, [p][..0], total) - 0.0;
  }

  /** Each term −p·ln p is non-negative for 0 < p ≤ 1. */
  lemma EntropyTermNonNegative(mth: Transcendentals, y: real, total: real)
    requires Lawful(mth) && 0.0 < total && y <= total
    ensures 0.0 <= -PLogP(mth, y, total)
  {
    if y > 0.0 {
      var p := y / total;
      assert 0.0 < p <= 1.0;
      if p < 1.0 {
        assert Log(mth, p) < 0.0;
        MulLeft(0.0, p, -Log(mth, p));
      }
    }
  }

  lemma {:induction false} EntropySumNonNegative(mth: Transcendentals, ps: seq<Point>, qs: seq<Point>)
    requires Lawful(mth) && PositiveTotal(qs) > 0.0
    requires forall i :: 0 <= i < |ps| && ps[i].y > 0.0 ==> ps[i].y <= PositiveTotal(qs)
    ensures 0.0 <= EntropySum(mth, ps, PositiveTotal(qs))
  {
    if |ps| > 0 {
      EntropySumNonNegative(mth, ps[..|ps| - 1], qs);
      EntropyTermNonNegative(mth, ps[|ps| - 1].y, PositiveTotal(qs));
    }
  }

  /** The normalised entropy is never negative (the lower half of the promised [0, 1]). */
  lemma EntropyNonNegative(mth: Transcendentals, ps: seq<Point>)
    requires Lawful(mth) && |ps| > 0
    ensures 0.0 <= NormalisedEntropy(mth, ps)
  {
    var total := PositiveTotal(ps);
    if total > 0.0 {
      forall i | 0 <= i < |ps| && ps[i].y > 0.0
        ensures ps[i].y <= total
      {
        HeightAtMostTotal(ps, i);
      }
      EntropySumNonNegative(mth, ps, ps);
      var maxEntropy := Log(mth, |ps| as real);
      if maxEntropy > 0.0 {
        var s := EntropySum(mth, ps, total);
        assert s / maxEntropy >= 0.0;
      }
    }
  }
}
