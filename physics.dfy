/** The physics constants, the mutable pixel-speed scale and the physical formulas the
    rest of the program shares: the 2D Rayleigh parameter σ, the three characteristic
    speeds of the Maxwell distribution and the m/s → px/frame conversion. */
module Physics {
  import opened Common
  import opened MathLib

  /** Boltzmann's constant in J/K. */
  const K_BOLTZMANN: real := 1.38064852e-23
  /** The gas constant in J/(mol·K). */
  const R_GAS: real := 8.314
  /** Avogadro's number in 1/mol. */
  const N_AVOGADRO: real := 6.02214076e23

  /** Temperature used when the argument is not a finite number. */
  const DEFAULT_TEMPERATURE: real := 300.0
  /** Molar mass (g/mol, nitrogen) used when the argument is not a finite number. */
  const DEFAULT_MOLAR_MASS: real := 28.0134
  /** The initial pixel-speed scale. */
  const INITIAL_SPEED_SCALE: real := 0.0075

  /** `Number.isFinite(temperature) ? temperature : 300` */
  function EffectiveTemperature(temperature: Num): real {
    temperature.FiniteOr(DEFAULT_TEMPERATURE)
  }

  /** `(Number.isFinite(molarMass) ? molarMass : 28.0134) / 1000`, in kg/mol. */
  function MolarMassKg(molarMass: Num): real {
    molarMass.FiniteOr(DEFAULT_MOLAR_MASS) / 1000.0
  }

  /** The mass of one molecule in kg. */
  function MoleculeMass(molarMass: Num): (m: real)
    ensures MolarMassKg(molarMass) > 0.0 ==> m > 0.0
  {
    MolarMassKg(molarMass) / N_AVOGADRO
  }

  /** The arguments for which the formulas stay in the reals: a non-negative temperature
      and a positive molar mass once the defaults are substituted. */
  predicate PhysicalInputs(temperature: Num, molarMass: Num) {
    EffectiveTemperature(temperature) >= 0.0 && MolarMassKg(molarMass) > 0.0
  }

  /** σ of the 2D speed distribution in m/s: σ² = k·T/m. */
  function Sigma2D(mth: Transcendentals, temperature: Num, molarMass: Num): (sigma: real)
    requires Lawful(mth) && PhysicalInputs(temperature, molarMass)
    ensures sigma >= 0.0
    ensures sigma * sigma == K_BOLTZMANN * EffectiveTemperature(temperature) / MoleculeMass(molarMass)
  {
    var x := K_BOLTZMANN * EffectiveTemperature(temperature) / MoleculeMass(molarMass);
    SqrtSquared(mth, x);
    Sqrt(mth, x)
  }

  datatype Speeds = Speeds(vp: real, vavg: real, vrms: real)

  /** The radicands of the three characteristic speeds: 2RT/M, 8RT/(πM) and 3RT/M. */
  function VpSquared(t: real, m: real): real
    requires 0.0 < m
  {
    2.0 * R_GAS * t / m
  }

  function VavgSquared(t: real, m: real, pi: real): real
    requires 0.0 < m && 0.0 < pi
  {
    8.0 * R_GAS * t / (pi * m)
  }

  function VrmsSquared(t: real, m: real): real
    requires 0.0 < m
  {
    3.0 * R_GAS * t / m
  }

  /** 2RT/M ≤ 8RT/(πM) ≤ 3RT/M, since 2 ≤ 8/π ≤ 3; all three are non-negative. */
  lemma RadicandsOrdered(t: real, m: real, p: real)
    requires 0.0 <= t && 0.0 < m && 3.14159 < p < 3.14160
    ensures 0.0 <= VpSquared(t, m) <= VavgSquared(t, m, p) <= VrmsSquared(t, m)
  {
    var x := R_GAS * t / m;
    assert 0.0 <= x;
    assert VavgSquared(t, m, p) == (8.0 / p) * x;
    MulLeft(2.0, 8.0 / p, x);
    MulLeft(8.0 / p, 3.0, x);
  }

  /** Most probable, mean and root-mean-square speed in m/s for a temperature `t` and a
      molar mass `m` in kg/mol. */
  function SpeedsAt(mth: Transcendentals, t: real, m: real): (s: Speeds)
    requires Lawful(mth) && 0.0 <= t && 0.0 < m
    ensures 0.0 <= s.vp <= s.vavg <= s.vrms
  {
    RadicandsOrdered(t, m, mth.pi);
    SqrtMonotone(mth, VpSquared(t, m), VavgSquared(t, m, mth.pi));
    SqrtMonotone(mth, VavgSquared(t, m, mth.pi), VrmsSquared(t, m));
    Speeds(Sqrt(mth, VpSquared(t, m)), Sqrt(mth, VavgSquared(t, m, mth.pi)), Sqrt(mth, VrmsSquared(t, m)))
  }

  /** `calculateCharacteristicSpeeds`: the defaults substituted, M converted to kg/mol.
      For a non-negative temperature, vp ≤ vavg ≤ vrms. */
  function CharacteristicSpeeds(mth: Transcendentals, temperature: Num, molarMass: Num): (s: Speeds)
    requires Lawful(mth) && PhysicalInputs(temperature, molarMass)
    ensures 0.0 <= s.vp <= s.vavg <= s.vrms
  {
    SpeedsAt(mth, EffectiveTemperature(temperature), MolarMassKg(molarMass))
  }

  /** The defining laws of the three speeds: vp² = 2RT/M, vavg² = 8RT/(πM), vrms² = 3RT/M. */
  lemma CharacteristicSpeedsSquares(mth: Transcendentals, temperature: Num, molarMass: Num)
    requires Lawful(mth) && PhysicalInputs(temperature, molarMass)
    ensures var T, M := EffectiveTemperature(temperature), MolarMassKg(molarMass);
      var s := CharacteristicSpeeds(mth, temperature, molarMass);
      && s.vp * s.vp == VpSquared(T, M)
      && s.vavg * s.vavg == VavgSquared(T, M, mth.pi)
      && s.vrms * s.vrms == VrmsSquared(T, M)
  {
    var T, M := EffectiveTemperature(temperature), MolarMassKg(molarMass);
    RadicandsOrdered(T, M, mth.pi);
    SqrtSquared(mth, VpSquared(T, M));
    SqrtSquared(mth, VavgSquared(T, M, mth.pi));
    SqrtSquared(mth, VrmsSquared(T, M));
  }

  /** The characteristic speeds grow with temperature: a hotter gas has a larger vp. */
  lemma VpMonotoneInTemperature(mth: Transcendentals, t1: real, t2: real, molarMass: Num)
    requires Lawful(mth) && 0.0 <= t1 <= t2
    requires PhysicalInputs(Fin(t1), molarMass)
    ensures CharacteristicSpeeds(mth, Fin(t1), molarMass).vp <= CharacteristicSpeeds(mth, Fin(t2), molarMass).vp
  {
    var M := MolarMassKg(molarMass);
    assert VpSquared(t1, M) <= VpSquared(t2, M);
    SqrtMonotone(mth, VpSquared(t1, M), VpSquared(t2, M));
  }

  /** `pixelsToMeters` and `pixelsPerFrameToMetersPerSecond`, which the program imports
      from the physics module but whose definitions are not part of this model: linear
      maps with positive factors. */
  datatype Conversions = Conversions(metersPerPixel: real, msPerPxFrame: real) {
    predicate Valid() { metersPerPixel > 0.0 && msPerPxFrame > 0.0 }

    function PixelsToMeters(px: real): (m: real)
      requires Valid()
      ensures 0.0 <= px ==> 0.0 <= m
    {
      px * metersPerPixel
    }

    function PxFrameToMs(v: real): real
      requires Valid()
    {
      v * msPerPxFrame
    }

    /** `metersToPixels`: the inverse of `PixelsToMeters`. */
    function MetersToPixels(m: real): (px: real)
      requires Valid()
      ensures PixelsToMeters(px) == m
    {
      m / metersPerPixel
    }
  }

  /** Converting a pixel length to metres and back gives the length again. */
  lemma PixelsRoundTrip(conv: Conversions, px: real)
    requires conv.Valid()
    ensures conv.MetersToPixels(conv.PixelsToMeters(px)) == px
  {
    assert (px * conv.metersPerPixel) / conv.metersPerPixel == px;
  }

  /** The module-level `SPEED_SCALE`: px/frame per m/s. */
  class SpeedScale {
    var value: real

    ghost predicate Valid()
      reads this
    {
      value > 0.0
    }

    constructor ()
      ensures Valid() && value == INITIAL_SPEED_SCALE
    {
      value := INITIAL_SPEED_SCALE;
    }

    /** Accepts only a finite, strictly positive scale; anything else is ignored. */
    method SetSpeedScale(scale: Num)
      requires Valid()
      modifies this
      ensures Valid()
      ensures scale.IsFinite() && scale.r > 0.0 ==> value == scale.r
      ensures !(scale.IsFinite() && scale.r > 0.0) ==> value == old(value)
    {
      if scale.IsFinite() && scale.r > 0.0 {
        value := scale.r;
      }
    }

    function GetSpeedScale(): (s: real)
      reads this
      requires Valid()
      ensures s > 0.0
    {
      value
    }

    /** m/s → px/frame with the current scale; it keeps the sign of the speed. */
    function ConvertMsToPxFrame(v: real): (px: real)
      reads this
      requires Valid()
      ensures v == 0.0 ==> px == 0.0
      ensures 0.0 < v ==> 0.0 < px
      ensures v < 0.0 ==> px < 0.0
    {
      v * value
    }

    /** σ in px/frame: (σ_px)² = scale² · k·T/m. */
    function PixelSigma2D(mth: Transcendentals, temperature: Num, molarMass: Num): (px: real)
      reads this
      requires Valid() && Lawful(mth) && PhysicalInputs(temperature, molarMass)
      ensures px >= 0.0
      ensures px * px == value * value * (K_BOLTZMANN * EffectiveTemperature(temperature) / MoleculeMass(molarMass))
    {
      var sigma := Sigma2D(mth, temperature, molarMass);
      assert (sigma * value) * (sigma * value) == value * value * (sigma * sigma);
      ConvertMsToPxFrame(sigma)
    }

    /** vp in px/frame: (vp_px)² = scale² · 2RT/M. */
    function PixelVp(mth: Transcendentals, temperature: Num, molarMass: Num): (px: real)
      reads this
      requires Valid() && Lawful(mth) && PhysicalInputs(temperature, molarMass)
      ensures px >= 0.0
      ensures px * px == value * value * VpSquared(EffectiveTemperature(temperature), MolarMassKg(molarMass))
    {
      var vp := CharacteristicSpeeds(mth, temperature, molarMass).vp;
      CharacteristicSpeedsSquares(mth, temperature, molarMass);
      assert (vp * value) * (vp * value) == value * value * (vp * vp);
      ConvertMsToPxFrame(vp)
    }
  }

  /** The conversion is linear in the speed. */
  lemma ConvertLinear(s: SpeedScale, a: real, b: real, c: real)
    requires s.Valid()
    ensures s.ConvertMsToPxFrame(c * a + b) == c * s.ConvertMsToPxFrame(a) + s.ConvertMsToPxFrame(b)
  {
    assert (c * a + b) * s.value == c * (a * s.value) + b * s.value;
  }

  /** The conversion keeps the order of speeds. */
  lemma ConvertMonotone(s: SpeedScale, a: real, b: real)
    requires s.Valid() && a <= b
    ensures s.ConvertMsToPxFrame(a) <= s.ConvertMsToPxFrame(b)
  {
    assert s.ConvertMsToPxFrame(b) - s.ConvertMsToPxFrame(a) == s.ConvertMsToPxFrame(b - a);
  }
}
