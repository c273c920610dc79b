/** The simulated root-mean-square speed of the particles, in m/s. */
module MetricsUtils {
  import opened Common
  import opened MathLib
  import opened Physics
  import opened EnergyMetrics

  /** √(Σ(vx² + vy²) / N) in px/frame: the non-negative number whose square times N is
      the sum of squared speeds. */
  function VrmsPx(mth: Transcendentals, bs: seq<Body>): (v: real)
    requires Lawful(mth) && |bs| > 0
    ensures 0.0 <= v
    ensures v * v * (|bs| as real) == SumSpeedSquared(bs)
  {
    var meanSquare := SumSpeedSquared(bs) / (|bs| as real);
    SqrtSquared(mth, meanSquare);
    Sqrt(mth, meanSquare)
  }

  /** `calculateSimulatedVrms`: null for a non-array or an empty list, otherwise the
      root-mean-square speed converted from px/frame to m/s. */
  method CalculateSimulatedVrms(mth: Transcendentals, conv: Conversions, particles: Option<seq<Body>>)
    returns (vrms: Option<real>)
    requires Lawful(mth) && conv.Valid()
    ensures particles.None? || |particles.value| == 0 <==> vrms.None?
    ensures vrms.Some? ==> vrms.value == conv.PxFrameToMs(VrmsPx(mth, particles.value))
  {
    if particles.None? || |particles.value| == 0 {
      return None;
    }
    var bs := particles.value;
    var sumSquaredSpeeds := 0.0;
    var count := 0;
    while count < |bs|
      invariant 0 <= count <= |bs|
      invariant sumSquaredSpeeds == SumSpeedSquared(bs[..count])
    {
      var vx := VelX(bs[count]);
      var vy := VelY(bs[count]);
      sumSquaredSpeeds := sumSquaredSpeeds + (vx * vx + vy * vy);
      assert bs[..count + 1][..count] == bs[..count];
      count := count + 1;
    }
    assert bs[..count] == bs;
    if count == 0 {
      // The source's second null return: the loop has counted every particle of a
      // non-empty list, so this branch is never taken.
      assert false;
    }
    var vrmsPx := Sqrt(mth, sumSquaredSpeeds / (count as real));
    return Some(conv.PxFrameToMs(vrmsPx));
  }

  /** The RMS speed and the kinetic energy at unit mass tell the same thing:
      N·vrms² = 2·E_k. */
  lemma VrmsMatchesKineticEnergy(mth: Transcendentals, bs: seq<Body>)
    requires Lawful(mth) && |bs| > 0
    ensures VrmsPx(mth, bs) * VrmsPx(mth, bs) * (|bs| as real) == 2.0 * KineticEnergy(bs, 1.0)
  {
  }

  /** Scaling every velocity by a factor f ≥ 0 scales the RMS speed by f. */
  lemma VrmsScaled(mth: Transcendentals, bs: seq<Body>, f: real)
    requires Lawful(mth) && |bs| > 0 && 0.0 <= f
    ensures VrmsPx(mth, ScaleAll(bs, f)) == f * VrmsPx(mth, bs)
  {
    var s2 := SumSpeedSquared(ScaleAll(bs, f));
    assert s2 == f * f * SumSpeedSquared(bs) by {
      SumSpeedSquaredScaled(bs, f);
    }
    var scaled := ScaleAll(bs, f);
    var w := VrmsPx(mth, scaled);
    assert w * w * (|scaled| as real) == s2;
    assert |scaled| as real == |bs| as real;
    ScaledRoot(VrmsPx(mth, bs), w, f, |bs| as real, SumSpeedSquared(bs), s2);
  }

  /** If v²·n = s and w²·n = f²·s with v, w, f ≥ 0 and n > 0, then w = f·v. */
  lemma ScaledRoot(v: real, w: real, f: real, n: real, s: real, s2: real)
    requires 0.0 <= v && 0.0 <= w && 0.0 <= f && 0.0 < n
    requires v * v * n == s && w * w * n == s2 && s2 == f * f * s
    ensures w == f * v
  {
    assert (f * v) * (f * v) * n == (f * f) * (v * v * n);
    assert w * w * n == (f * v) * (f * v) * n;
    CancelCount(w * w, (f * v) * (f * v), n);
    SquareInjective(w, f * v);
  }

  lemma CancelCount(a: real, b: real, n: real)
    requires 0.0 < n && a * n == b * n
    ensures a == b
  {
  }
}
