/** The three initial-velocity generators of the Matter-based simulation. Each substitutes
    300 K and 28.0134 g/mol for a non-finite temperature or molar mass, takes the most
    probable speed vp from the physics formulas, converts it to px/frame with the current
    speed scale and turns the random draws (parameters here) into a velocity. */
module Distributions {
  import opened Common
  import opened MathLib
  import opened Physics

  /** The value `Math.random() || 1e-12` substitutes for a first draw of exactly 0. */
  const ZERO_DRAW_SUBSTITUTE: real := 0.000000000001

  /** The argument of the logarithm in the Box–Muller step: a draw in [0, 1] becomes a
      number in (0, 1]. */
  function NonZeroDraw(u: real): (r: real)
    ensures 0.0 <= u <= 1.0 ==> 0.0 < r <= 1.0
    ensures u == 0.0 ==> r == ZERO_DRAW_SUBSTITUTE
  {
    if u == 0.0 then ZERO_DRAW_SUBSTITUTE else u
  }

  /** `Number.isFinite(x) ? x : d`, kept as a number. */
  function Defaulted(n: Num, d: real): (r: Num)
    ensures r.IsFinite() && r.r == n.FiniteOr(d)
  {
    Fin(n.FiniteOr(d))
  }

  /** vp in m/s for the defaulted temperature and molar mass. */
  function GeneratorVp(mth: Transcendentals, temperature: Num, molarMass: Num): real
    requires Lawful(mth) && PhysicalInputs(temperature, molarMass)
  {
    CharacteristicSpeeds(mth, Defaulted(temperature, DEFAULT_TEMPERATURE), Defaulted(molarMass, DEFAULT_MOLAR_MASS)).vp
  }

  /** The generators' own defaulting agrees with the one inside the physics formulas, so
      the speed they use is the vp of the physics module for the same arguments. */
  lemma GeneratorVpIsPhysicsVp(mth: Transcendentals, temperature: Num, molarMass: Num)
    requires Lawful(mth) && PhysicalInputs(temperature, molarMass)
    ensures GeneratorVp(mth, temperature, molarMass) == CharacteristicSpeeds(mth, temperature, molarMass).vp
  {
    var t, m := Defaulted(temperature, DEFAULT_TEMPERATURE), Defaulted(molarMass, DEFAULT_MOLAR_MASS);
    assert EffectiveTemperature(t) == EffectiveTemperature(temperature);
    assert MolarMassKg(m) == MolarMassKg(molarMass);
  }

  /** `convertMsToPxFrame(vp)`: vp in px/frame. */
  function PixelSpeed(mth: Transcendentals, scale: SpeedScale, temperature: Num, molarMass: Num): (s: real)
    reads scale
    requires scale.Valid() && Lawful(mth) && PhysicalInputs(temperature, molarMass)
    ensures 0.0 <= s
  {
    scale.ConvertMsToPxFrame(GeneratorVp(mth, temperature, molarMass))
  }

  /** The standard deviation scale·vp/√2 of each Box–Muller component. */
  function MaxwellStd(mth: Transcendentals, scale: SpeedScale, temperature: Num, molarMass: Num): (std: real)
    reads scale
    requires scale.Valid() && Lawful(mth) && PhysicalInputs(temperature, molarMass)
    ensures 0.0 <= std
  {
    PixelSpeed(mth, scale, temperature, molarMass) / RootTwo(mth)
  }

  /** `Math.sqrt(2)` */
  function RootTwo(mth: Transcendentals): (r: real)
    requires Lawful(mth)
    ensures 0.0 < r
  {
    SqrtPositive(mth, 2.0);
    Sqrt(mth, 2.0)
  }

  /** The Box–Muller angle 2π·u. */
  function BoxMullerAngle(mth: Transcendentals, u: real): real {
    2.0 * mth.pi * u
  }

  /** The direction angle u·2π of the fixed-speed generators. */
  function DirectionAngle(mth: Transcendentals, u: real): real {
    u * 2.0 * mth.pi
  }

  /** `generateMaxwellVelocity` with draws u1, u2: (z1, z2)·std, where
      z = √(−2 ln u1)·(cos 2πu2, sin 2πu2). */
  function MaxwellVelocity(mth: Transcendentals, scale: SpeedScale, temperature: Num, molarMass: Num,
                           u1: real, u2: real): Vec2
    reads scale
    requires scale.Valid() && Lawful(mth) && PhysicalInputs(temperature, molarMass)
  {
    ScaleVec(BoxMuller(mth, u1, u2), MaxwellStd(mth, scale, temperature, molarMass))
  }

  /** The standard normal pair (z1, z2) = √(−2 ln u1')·(cos 2πu2, sin 2πu2). */
  function BoxMuller(mth: Transcendentals, u1: real, u2: real): Vec2 {
    var radius := Sqrt(mth, -2.0 * Log(mth, NonZeroDraw(u1)));
    var angle := BoxMullerAngle(mth, u2);
    Vec2(radius * Cos(mth, angle), radius * Sin(mth, angle))
  }

  /** The velocity (s·cos θ, s·sin θ) of speed s in direction θ. */
  function Polar(mth: Transcendentals, s: real, theta: real): Vec2 {
    Vec2(s * Cos(mth, theta), s * Sin(mth, theta))
  }

  /** `generateSingleSpeedVelocity` with direction draw u: speed scale·vp at angle 2πu. */
  function SingleSpeedVelocity(mth: Transcendentals, scale: SpeedScale, temperature: Num, molarMass: Num,
                               u: real): Vec2
    reads scale
    requires scale.Valid() && Lawful(mth) && PhysicalInputs(temperature, molarMass)
  {
    Polar(mth, PixelSpeed(mth, scale, temperature, molarMass), DirectionAngle(mth, u))
  }

  /** The two speeds of the dual generator: scale·0.6·vp and scale·1.6·vp. */
  function DualSpeeds(mth: Transcendentals, scale: SpeedScale, temperature: Num, molarMass: Num): (s: (real, real))
    reads scale
    requires scale.Valid() && Lawful(mth) && PhysicalInputs(temperature, molarMass)
  {
    var vp := GeneratorVp(mth, temperature, molarMass);
    (scale.ConvertMsToPxFrame(vp * 0.6), scale.ConvertMsToPxFrame(vp * 1.6))
  }

  /** `generateDualSpeedVelocity` with the direction draw `u` and the cluster draw `pick`:
      the slow cluster for pick < 0.5, the fast one otherwise. */
  function DualSpeedVelocity(mth: Transcendentals, scale: SpeedScale, temperature: Num, molarMass: Num,
                             u: real, pick: real): Vec2
    reads scale
    requires scale.Valid() && Lawful(mth) && PhysicalInputs(temperature, molarMass)
  {
    var speeds := DualSpeeds(mth, scale, temperature, molarMass);
    Polar(mth, if pick < 0.5 then speeds.0 else speeds.1, DirectionAngle(mth, u))
  }

  /** A velocity (s·cos θ, s·sin θ) with s ≥ 0 has length s. */
  lemma PolarMagnitude(mth: Transcendentals, s: real, theta: real)
    requires Lawful(mth) && 0.0 <= s
    ensures SquaredLength(Polar(mth, s, theta)) == s * s
    ensures Sqrt(mth, SquaredLength(Polar(mth, s, theta))) == s
  {
    PolarLength(mth, s, theta);
    SqrtOfSquare(mth, s * s, s);
  }

  /** For a first draw in [0, 1] the squared speed of the Maxwell generator is
      −2·ln(u1')·std², u1' the substituted draw; the logarithm's argument is in (0, 1]. */
  lemma MaxwellSquaredLength(mth: Transcendentals, scale: SpeedScale, temperature: Num, molarMass: Num,
                             u1: real, u2: real)
    requires scale.Valid() && Lawful(mth) && PhysicalInputs(temperature, molarMass)
    requires 0.0 <= u1 <= 1.0
    ensures 0.0 < NonZeroDraw(u1) <= 1.0
    ensures SquaredLength(MaxwellVelocity(mth, scale, temperature, molarMass, u1, u2))
         == -2.0 * Log(mth, NonZeroDraw(u1))
            * (MaxwellStd(mth, scale, temperature, molarMass) * MaxwellStd(mth, scale, temperature, molarMass))
  {
    var rr := -2.0 * Log(mth, NonZeroDraw(u1));
    var rad := Sqrt(mth, rr);
    var angle := BoxMullerAngle(mth, u2);
    var std := MaxwellStd(mth, scale, temperature, molarMass);
    var c, s := Cos(mth, angle), Sin(mth, angle);
    assert BoxMuller(mth, u1, u2) == Vec2(rad * c, rad * s);
    assert MaxwellVelocity(mth, scale, temperature, molarMass, u1, u2) == Vec2(rad * c * std, rad * s * std);
    if NonZeroDraw(u1) < 1.0 {
      assert Log(mth, NonZeroDraw(u1)) < 0.0;
    }
    SqrtSquared(mth, rr);
    CosSinSquares(mth, angle);
    BoxMullerLength(rad, c, s, std, rr);
  }

  lemma BoxMullerLength(rad: real, c: real, s: real, std: real, rr: real)
    requires c * c + s * s == 1.0 && rr == rad * rad
    ensures SquaredLength(Vec2(rad * c * std, rad * s * std)) == rr * (std * std)
  {
    assert (rad * c * std) * (rad * c * std) + (rad * s * std) * (rad * s * std)
        == (rad * rad) * (std * std) * (c * c + s * s);
  }

  /** Every single-speed velocity has magnitude scale·vp, whatever the direction draw. */
  lemma SingleSpeedMagnitude(mth: Transcendentals, scale: SpeedScale, temperature: Num, molarMass: Num, u: real)
    requires scale.Valid() && Lawful(mth) && PhysicalInputs(temperature, molarMass)
    ensures Sqrt(mth, SquaredLength(SingleSpeedVelocity(mth, scale, temperature, molarMass, u)))
         == PixelSpeed(mth, scale, temperature, molarMass)
  {
    PolarMagnitude(mth, PixelSpeed(mth, scale, temperature, molarMass), DirectionAngle(mth, u));
  }

  /** The two clusters are 0.6 and 1.6 times the single speed. */
  lemma DualSpeedsScaleSingle(mth: Transcendentals, scale: SpeedScale, temperature: Num, molarMass: Num)
    requires scale.Valid() && Lawful(mth) && PhysicalInputs(temperature, molarMass)
    ensures DualSpeeds(mth, scale, temperature, molarMass).0 == 0.6 * PixelSpeed(mth, scale, temperature, molarMass)
    ensures DualSpeeds(mth, scale, temperature, molarMass).1 == 1.6 * PixelSpeed(mth, scale, temperature, molarMass)
  {
    var vp, v := GeneratorVp(mth, temperature, molarMass), scale.value;
    assert (vp * 0.6) * v == 0.6 * (vp * v);
    assert (vp * 1.6) * v == 1.6 * (vp * v);
  }

  /** The dual-speed magnitude is always one of the two cluster speeds, the slow one exactly
      when the cluster draw is below 0.5. */
  lemma DualSpeedMagnitude(mth: Transcendentals, scale: SpeedScale, temperature: Num, molarMass: Num,
                           u: real, pick: real)
    requires scale.Valid() && Lawful(mth) && PhysicalInputs(temperature, molarMass)
    ensures Sqrt(mth, SquaredLength(DualSpeedVelocity(mth, scale, temperature, molarMass, u, pick)))
         == if pick < 0.5 then DualSpeeds(mth, scale, temperature, molarMass).0
            else DualSpeeds(mth, scale, temperature, molarMass).1
  {
    DualSpeedsScaleSingle(mth, scale, temperature, molarMass);
    var speeds := DualSpeeds(mth, scale, temperature, molarMass);
    var speed := if pick < 0.5 then speeds.0 else speeds.1;
    PolarMagnitude(mth, speed, DirectionAngle(mth, u));
  }

  /** A non-finite temperature or molar mass gives the vp of 300 K or 28.0134 g/mol, so every
      generator behaves as for those inputs. */
  lemma NonFiniteInputsDefault(mth: Transcendentals, temperature: Num, molarMass: Num)
    requires Lawful(mth) && PhysicalInputs(temperature, molarMass)
    ensures !temperature.IsFinite() ==>
      PhysicalInputs(Fin(DEFAULT_TEMPERATURE), molarMass)
      && GeneratorVp(mth, temperature, molarMass) == GeneratorVp(mth, Fin(DEFAULT_TEMPERATURE), molarMass)
    ensures !molarMass.IsFinite() ==>
      PhysicalInputs(temperature, Fin(DEFAULT_MOLAR_MASS))
      && GeneratorVp(mth, temperature, molarMass) == GeneratorVp(mth, temperature, Fin(DEFAULT_MOLAR_MASS))
  {
    if !temperature.IsFinite() {
      assert Defaulted(temperature, DEFAULT_TEMPERATURE) == Defaulted(Fin(DEFAULT_TEMPERATURE), DEFAULT_TEMPERATURE);
    }
    if !molarMass.IsFinite() {
      assert Defaulted(molarMass, DEFAULT_MOLAR_MASS) == Defaulted(Fin(DEFAULT_MOLAR_MASS), DEFAULT_MOLAR_MASS);
    }
  }

  /** The generators read their inputs only through vp: equal vp, equal velocities. */
  lemma MaxwellDependsOnVpOnly(mth: Transcendentals, scale: SpeedScale, t1: Num, m1: Num, t2: Num, m2: Num,
                               u1: real, u2: real)
    requires scale.Valid() && Lawful(mth) && PhysicalInputs(t1, m1) && PhysicalInputs(t2, m2)
    requires GeneratorVp(mth, t1, m1) == GeneratorVp(mth, t2, m2)
    ensures MaxwellVelocity(mth, scale, t1, m1, u1, u2) == MaxwellVelocity(mth, scale, t2, m2, u1, u2)
  {
    assert MaxwellStd(mth, scale, t1, m1) == MaxwellStd(mth, scale, t2, m2);
  }

  lemma SingleSpeedDependsOnVpOnly(mth: Transcendentals, scale: SpeedScale, t1: Num, m1: Num, t2: Num, m2: Num,
                                   u: real)
    requires scale.Valid() && Lawful(mth) && PhysicalInputs(t1, m1) && PhysicalInputs(t2, m2)
    requires GeneratorVp(mth, t1, m1) == GeneratorVp(mth, t2, m2)
    ensures SingleSpeedVelocity(mth, scale, t1, m1, u) == SingleSpeedVelocity(mth, scale, t2, m2, u)
  {
    assert PixelSpeed(mth, scale, t1, m1) == PixelSpeed(mth, scale, t2, m2);
  }

  lemma DualSpeedDependsOnVpOnly(mth: Transcendentals, scale: SpeedScale, t1: Num, m1: Num, t2: Num, m2: Num,
                                 u: real, pick: real)
    requires scale.Valid() && Lawful(mth) && PhysicalInputs(t1, m1) && PhysicalInputs(t2, m2)
    requires GeneratorVp(mth, t1, m1) == GeneratorVp(mth, t2, m2)
    ensures DualSpeedVelocity(mth, scale, t1, m1, u, pick) == DualSpeedVelocity(mth, scale, t2, m2, u, pick)
  {
    assert DualSpeeds(mth, scale, t1, m1) == DualSpeeds(mth, scale, t2, m2);
  }
}
