/** The simulated physical quantities of the indicator panel: total and average kinetic
    energy in joules, the effective temperature they imply, and the simulated mean free
    path in metres. Particle velocities are read in px/frame and converted to m/s. */
module PhysicalMetrics {
  import opened Common
  import opened Physics

  /** ½·m·v² of one particle in joules, m the molecule mass in kg. */
  function ParticleEnergy(conv: Conversions, m: real, b: Body): real
    requires conv.Valid()
  {
    var vx := conv.PxFrameToMs(VelX(b));
    var vy := conv.PxFrameToMs(VelY(b));
    0.5 * m * (vx * vx + vy * vy)
  }

  /** Σ ½·m·v², accumulated front to back. */
  function EnergySum(conv: Conversions, m: real, bs: seq<Body>): real
    requires conv.Valid()
  {
    if |bs| == 0 then 0.0 else EnergySum(conv, m, bs[..|bs| - 1]) + ParticleEnergy(conv, m, bs[|bs| - 1])
  }

  /** The energy sum is ½·m·c²·Σ(vx²+vy²) in px/frame, c the px/frame → m/s factor. */
  lemma {:induction false} EnergySumScaled(conv: Conversions, m: real, bs: seq<Body>)
    requires conv.Valid()
    ensures EnergySum(conv, m, bs) == 0.5 * m * (conv.msPerPxFrame * conv.msPerPxFrame) * SumSpeedSquared(bs)
  {
    if |bs| > 0 {
      var init, b := bs[..|bs| - 1], bs[|bs| - 1];
      EnergySumScaled(conv, m, init);
      ParticleEnergyScaled(conv, m, b);
      FactorOut(0.5 * m * (conv.msPerPxFrame * conv.msPerPxFrame), SumSpeedSquared(init), SpeedSquared(b));
    }
  }

  /** One particle's energy is ½·m·c² times its squared speed in px/frame. */
  lemma ParticleEnergyScaled(conv: Conversions, m: real, b: Body)
    requires conv.Valid()
    ensures ParticleEnergy(conv, m, b) == 0.5 * m * (conv.msPerPxFrame * conv.msPerPxFrame) * SpeedSquared(b)
  {
    var c, x, y := conv.msPerPxFrame, VelX(b), VelY(b);
    SquaresScale(0.5 * m, c, x, y);
  }

  /** p·((x·c)² + (y·c)²) = p·c²·(x² + y²) */
  lemma SquaresScale(p: real, c: real, x: real, y: real)
    ensures p * ((x * c) * (x * c) + (y * c) * (y * c)) == p * (c * c) * (x * x + y * y)
  {
    assert (x * c) * (x * c) == (c * c) * (x * x);
    assert (y * c) * (y * c) == (c * c) * (y * y);
  }

  /** k·a + k·b = k·(a + b) */
  lemma FactorOut(k: real, a: real, b: real)
    ensures k * a + k * b == k * (a + b)
  {
  }

  /** With a non-negative molecule mass the energy sum is non-negative. */
  lemma EnergySumNonNegative(conv: Conversions, m: real, bs: seq<Body>)
    requires conv.Valid() && 0.0 <= m
    ensures 0.0 <= EnergySum(conv, m, bs)
  {
    EnergySumScaled(conv, m, bs);
    var c := conv.msPerPxFrame;
    assert 0.0 <= 0.5 * m * (c * c);
  }

  /** `calculateTotalKineticEnergy`: null for a non-array or empty list, otherwise the sum
      of ½·m·v² over the particles, with m = (M/1000)/N_A and M defaulting to 28.0134. */
  method CalculateTotalKineticEnergy(conv: Conversions, particles: Option<seq<Body>>, molarMass: Num)
    returns (total: Option<real>)
    requires conv.Valid()
    ensures particles.None? || |particles.value| == 0 <==> total.None?
    ensures total.Some? ==> total.value == EnergySum(conv, MoleculeMass(molarMass), particles.value)
  {
    if particles.None? || |particles.value| == 0 {
      return None;
    }
    var sum := EnergyLoop(conv, MoleculeMass(molarMass), particles.value);
    return Some(sum);
  }

  /** The loop both `calculateTotalKineticEnergy` and `calculateEffectiveTemperature` run:
      ½·m·(vx² + vy²) in m/s added up particle by particle. */
  method EnergyLoop(conv: Conversions, m: real, bs: seq<Body>) returns (sum: real)
    requires conv.Valid()
    ensures sum == EnergySum(conv, m, bs)
  {
    sum := 0.0;
    var i := 0;
    while i < |bs|
      invariant 0 <= i <= |bs|
      invariant sum == EnergySum(conv, m, bs[..i])
    {
      var vx := conv.PxFrameToMs(VelX(bs[i]));
      var vy := conv.PxFrameToMs(VelY(bs[i]));
      sum := sum + 0.5 * m * (vx * vx + vy * vy);
      assert bs[..i + 1][..i] == bs[..i];
      i := i + 1;
    }
    assert bs[..i] == bs;
  }

  method CalculateAverageKineticEnergy(conv: Conversions, particles: Option<seq<Body>>, molarMass: Num)
    returns (average: Option<real>)
    requires conv.Valid()
    ensures particles.None? || |particles.value| == 0 <==> average.None?
    ensures average.Some? ==>
      average.value * (|particles.value| as real) == EnergySum(conv, MoleculeMass(molarMass), particles.value)
  {
    if particles.None? || |particles.value| == 0 {
      return None;
    }
    var total := CalculateTotalKineticEnergy(conv, particles, molarMass);
    return Some(total.value / (|particles.value| as real));
  }

  /** `calculateEffectiveTemperature`: with 2D equipartition ⟨E⟩ = k·T, the average
      kinetic energy divided by k, the energy summed by the same loop as the total. */
  method CalculateEffectiveTemperature(conv: Conversions, particles: Option<seq<Body>>, molarMass: Num)
    returns (temperature: Option<real>)
    requires conv.Valid()
    ensures particles.None? || |particles.value| == 0 <==> temperature.None?
    ensures temperature.Some? ==>
      K_BOLTZMANN * temperature.value * (|particles.value| as real) == EnergySum(conv, MoleculeMass(molarMass), particles.value)
  {
    if particles.None? || |particles.value| == 0 {
      return None;
    }
    var sum := EnergyLoop(conv, MoleculeMass(molarMass), particles.value);
    return Some(TemperatureOf(sum, |particles.value|));
  }

  /** `avgKE / k`, the average being the total over n particles: k·T·n is the total. */
  function TemperatureOf(total: real, n: nat): (t: real)
    requires n > 0
    ensures K_BOLTZMANN * t * (n as real) == total
  {
    var avg := total / (n as real);
    assert K_BOLTZMANN * (avg / K_BOLTZMANN) == avg;
    avg / K_BOLTZMANN
  }

  /** The effective temperature and the average kinetic energy agree: k·T_eff = ⟨E⟩. */
  method EffectiveTemperatureMatchesAverage(conv: Conversions, particles: Option<seq<Body>>, molarMass: Num)
    returns (temperature: Option<real>, average: Option<real>)
    requires conv.Valid()
    ensures temperature.Some? <==> average.Some?
    ensures temperature.Some? ==> K_BOLTZMANN * temperature.value == average.value
  {
    temperature := CalculateEffectiveTemperature(conv, particles, molarMass);
    average := CalculateAverageKineticEnergy(conv, particles, molarMass);
    if temperature.Some? {
      var n := |particles.value| as real;
      assert (K_BOLTZMANN * temperature.value) * n == average.value * n;
    }
  }

  /** A JavaScript number multiplied by a positive factor. */
  function ScaleNum(x: Num, f: real): (y: Num)
    requires 0.0 < f
    ensures y.IsFinite() <==> x.IsFinite()
  {
    match x
    case Fin(r) => Fin(r * f)
    case NaN => NaN
    case PosInf => PosInf
    case NegInf => NegInf
  }

  /** What the metric reads of the tracer record: `meanFreePath` is `None` when it is not
      of type number (NaN and the infinities are numbers). */
  datatype TracerData = TracerData(meanFreePath: Option<Num>)

  /** `calculateSimulatedMeanFreePath`: null for a missing record or a non-number path,
      otherwise the path converted from pixels to metres. */
  function SimulatedMeanFreePath(conv: Conversions, tracerData: Option<TracerData>): (r: Option<Num>)
    requires conv.Valid()
    ensures tracerData.None? || tracerData.value.meanFreePath.None? <==> r.None?
    ensures r.Some? ==> (r.value.IsFinite() <==> tracerData.value.meanFreePath.value.IsFinite())
    ensures r.Some? && r.value.IsFinite() ==>
      r.value.r == conv.PixelsToMeters(tracerData.value.meanFreePath.value.r)
  {
    if tracerData.None? || tracerData.value.meanFreePath.None? then None
    else Some(ScaleNum(tracerData.value.meanFreePath.value, conv.metersPerPixel))
  }
}
