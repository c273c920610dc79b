/** The theoretical values the indicator panel compares the simulation against. Every one
    is a single expression of its arguments. */
module TheoreticalValues {
  import opened Common
  import opened MathLib
  import opened Physics

  /** Theoretical normalised entropy: a fixed value, whatever the gas. */
  function TheoreticalEntropy(temperature: real, molarMass: real): (e: real)
    ensures e == 0.95
  {
    0.95
  }

  /** The simulated temperature should equal the set one. */
  function TheoreticalTemperature(temperature: real): (t: real)
    ensures t == temperature
  {
    temperature
  }

  /** The simulated particle count should equal the set one. */
  function TheoreticalParticleCount(particleCount: real): (n: real)
    ensures n == particleCount
  {
    particleCount
  }

  /** 2D equipartition: each particle carries k·T on average. */
  function TheoreticalAverageKineticEnergy(temperature: real): (e: real)
    ensures 0.0 <= temperature ==> 0.0 <= e
  {
    K_BOLTZMANN * temperature
  }

  /** N particles of average energy k·T. */
  function TheoreticalTotalKineticEnergy(temperature: real, particleCount: real): real {
    particleCount * K_BOLTZMANN * temperature
  }

  lemma TotalIsCountTimesAverage(temperature: real, particleCount: real)
    ensures TheoreticalTotalKineticEnergy(temperature, particleCount)
         == particleCount * TheoreticalAverageKineticEnergy(temperature)
  {
    assert particleCount * K_BOLTZMANN * temperature == particleCount * (K_BOLTZMANN * temperature);
  }

  /** Relative pressure N·T/(300·300); the area argument is ignored. */
  function TheoreticalPressure(temperature: real, particleCount: real, area: real): real {
    (particleCount * temperature) / (300.0 * 300.0)
  }

  /** The reference state (300 particles at 300 K) has pressure 1, and the pressure is
      linear in the particle count and in the temperature. */
  lemma PressureReferenceAndLinear(temperature: real, particleCount: real, area: real, c: real)
    ensures TheoreticalPressure(300.0, 300.0, area) == 1.0
    ensures TheoreticalPressure(temperature, c * particleCount, area) == c * TheoreticalPressure(temperature, particleCount, area)
    ensures TheoreticalPressure(c * temperature, particleCount, area) == c * TheoreticalPressure(temperature, particleCount, area)
  {
    assert (c * particleCount) * temperature == c * (particleCount * temperature);
    assert particleCount * (c * temperature) == c * (particleCount * temperature);
  }

  /** The theoretical time scale is fixed at 1. */
  function TheoreticalTimeScale(): (s: real)
    ensures s == 1.0
  {
    1.0
  }

  /** The denominator √2·π·n·d² of the mean-free-path formula, with n = N/area and
      d = 2r. */
  function CollisionDensity(mth: Transcendentals, particleCount: real, particleRadius: real, area: real): real
    requires area != 0.0
  {
    var n := particleCount / area;
    var d := 2.0 * particleRadius;
    Sqrt(mth, 2.0) * mth.pi * n * d * d
  }

  /** λ_px = 1/(√2·π·n·d²), in pixels: the reciprocal of the collision density, positive
      for a positive count, radius and area. */
  function PixelMeanFreePath(mth: Transcendentals, particleCount: real, particleRadius: real, area: real): (mfp: real)
    requires Lawful(mth) && particleCount != 0.0 && particleRadius != 0.0 && area != 0.0
    ensures mfp * CollisionDensity(mth, particleCount, particleRadius, area) == 1.0
    ensures 0.0 < particleCount && 0.0 < particleRadius && 0.0 < area ==> 0.0 < mfp
  {
    DensityNonZero(mth, particleCount, particleRadius, area);
    1.0 / CollisionDensity(mth, particleCount, particleRadius, area)
  }

  /** The density vanishes only when the count or the radius does; it is positive for a
      positive count, radius and area. */
  lemma DensityNonZero(mth: Transcendentals, particleCount: real, particleRadius: real, area: real)
    requires Lawful(mth) && particleCount != 0.0 && particleRadius != 0.0 && area != 0.0
    ensures CollisionDensity(mth, particleCount, particleRadius, area) != 0.0
    ensures 0.0 < particleCount && 0.0 < particleRadius && 0.0 < area ==>
      0.0 < CollisionDensity(mth, particleCount, particleRadius, area)
  {
    if 0.0 < particleCount && 0.0 < particleRadius && 0.0 < area {
      DensityPositive(mth, particleCount, particleRadius, area);
    }
    SqrtPositive(mth, 2.0);
    var s, n, d := Sqrt(mth, 2.0), particleCount / area, 2.0 * particleRadius;
    MulPositive(s, mth.pi);
    QuotientNonZero(particleCount, area);
    MulNonZero(s * mth.pi, n);
    MulNonZero(s * mth.pi * n, d);
    MulNonZero(s * mth.pi * n * d, d);
  }

  /** A quotient of non-zero numbers is non-zero. */
  lemma QuotientNonZero(a: real, b: real)
    requires a != 0.0 && b != 0.0
    ensures a / b != 0.0
  {
    assert (a / b) * b == a;
  }

  lemma DensityPositive(mth: Transcendentals, particleCount: real, particleRadius: real, area: real)
    requires Lawful(mth) && 0.0 < particleCount && 0.0 < particleRadius && 0.0 < area
    ensures 0.0 < CollisionDensity(mth, particleCount, particleRadius, area)
  {
    SqrtPositive(mth, 2.0);
    var s, n, d := Sqrt(mth, 2.0), particleCount / area, 2.0 * particleRadius;
    MulPositive(s, mth.pi);
    MulPositive(particleCount, 1.0 / area);
    assert n == particleCount * (1.0 / area);
    MulPositive(s * mth.pi, n);
    MulPositive(s * mth.pi * n, d);
    MulPositive(s * mth.pi * n * d, d);
  }

  /** `calculateTheoreticalMeanFreePath`: λ_px converted to metres, so that converting it
      back to pixels gives λ_px. Temperature and molar mass, any JavaScript numbers, do not
      enter the formula. */
  function TheoreticalMeanFreePath(mth: Transcendentals, conv: Conversions, temperature: Num, molarMass: Num,
                                   particleCount: real, particleRadius: real, area: real): (mfp: real)
    requires Lawful(mth) && conv.Valid()
    requires particleCount != 0.0 && particleRadius != 0.0 && area != 0.0
    ensures conv.MetersToPixels(mfp) == PixelMeanFreePath(mth, particleCount, particleRadius, area)
    ensures 0.0 < particleCount && 0.0 < particleRadius && 0.0 < area ==> 0.0 < mfp
  {
    var px := PixelMeanFreePath(mth, particleCount, particleRadius, area);
    PixelsRoundTrip(conv, px);
    conv.PixelsToMeters(px)
  }

  /** The collision density, written without the intermediate n and d. */
  lemma DensityClosedForm(mth: Transcendentals, particleCount: real, particleRadius: real, area: real)
    requires area != 0.0
    ensures CollisionDensity(mth, particleCount, particleRadius, area)
         == 4.0 * Sqrt(mth, 2.0) * mth.pi * particleCount * particleRadius * particleRadius / area
  {
    var s, p := Sqrt(mth, 2.0), mth.pi;
    var n, d := particleCount / area, 2.0 * particleRadius;
    assert n * area == particleCount;
    calc {
      s * p * n * d * d;
      4.0 * s * p * n * particleRadius * particleRadius;
      4.0 * s * p * (n * area) * particleRadius * particleRadius / area;
      4.0 * s * p * particleCount * particleRadius * particleRadius / area;
    }
  }

  /** The pixel mean free path is proportional to the area: c times the area gives c times
      the path. */
  lemma MeanFreePathProportionalToArea(mth: Transcendentals, particleCount: real, particleRadius: real, area: real, c: real)
    requires Lawful(mth) && 0.0 < particleCount && 0.0 < particleRadius && 0.0 < area && 0.0 < c
    ensures PixelMeanFreePath(mth, particleCount, particleRadius, c * area)
         == c * PixelMeanFreePath(mth, particleCount, particleRadius, area)
  {
    DensityClosedForm(mth, particleCount, particleRadius, area);
    DensityClosedForm(mth, particleCount, particleRadius, c * area);
    DensityPositive(mth, particleCount, particleRadius, area);
    var k := 4.0 * Sqrt(mth, 2.0) * mth.pi * particleCount * particleRadius * particleRadius;
    var d1 := CollisionDensity(mth, particleCount, particleRadius, area);
    var d2 := CollisionDensity(mth, particleCount, particleRadius, c * area);
    assert d1 == k / area;
    assert d2 == k / (c * area);
    assert d1 == c * d2;
    assert 1.0 / d2 == c * (1.0 / d1);
  }

  /** The pixel mean free path is inversely proportional to the particle count: c times as
      many particles give a path c times shorter. */
  lemma MeanFreePathInverseInCount(mth: Transcendentals, particleCount: real, particleRadius: real, area: real, c: real)
    requires Lawful(mth) && 0.0 < particleCount && 0.0 < particleRadius && 0.0 < area && 0.0 < c
    ensures c * PixelMeanFreePath(mth, c * particleCount, particleRadius, area)
         == PixelMeanFreePath(mth, particleCount, particleRadius, area)
  {
    DensityClosedForm(mth, particleCount, particleRadius, area);
    DensityClosedForm(mth, c * particleCount, particleRadius, area);
    DensityPositive(mth, particleCount, particleRadius, area);
    var s, p, r := Sqrt(mth, 2.0), mth.pi, particleRadius;
    var d1 := CollisionDensity(mth, particleCount, r, area);
    var d2 := CollisionDensity(mth, c * particleCount, r, area);
    assert 4.0 * s * p * (c * particleCount) * r * r == c * (4.0 * s * p * particleCount * r * r);
    assert d2 == c * d1;
    assert c * (1.0 / d2) == 1.0 / d1;
  }

  /** The pixel mean free path is inversely proportional to the square of the particle
      radius, through the d² = (2r)² of the density: c times the radius gives a path c²
      times shorter. */
  lemma MeanFreePathInverseSquareInRadius(mth: Transcendentals, particleCount: real, particleRadius: real, area: real, c: real)
    requires Lawful(mth) && 0.0 < particleCount && 0.0 < particleRadius && 0.0 < area && 0.0 < c
    ensures c * c * PixelMeanFreePath(mth, particleCount, c * particleRadius, area)
         == PixelMeanFreePath(mth, particleCount, particleRadius, area)
  {
    MulPositive(c, particleRadius);
    DensityClosedForm(mth, particleCount, particleRadius, area);
    DensityClosedForm(mth, particleCount, c * particleRadius, area);
    DensityPositive(mth, particleCount, particleRadius, area);
    var s, p, r := Sqrt(mth, 2.0), mth.pi, particleRadius;
    var d1 := CollisionDensity(mth, particleCount, r, area);
    var d2 := CollisionDensity(mth, particleCount, c * r, area);
    assert 4.0 * s * p * particleCount * (c * r) * (c * r) == (c * c) * (4.0 * s * p * particleCount * r * r);
    assert d2 == (c * c) * d1;
    assert (c * c) * (1.0 / d2) == 1.0 / d1;
  }
}
