/** The Maxwell speed-distribution chart: the theoretical curve f(v) sampled on a grid of
    201 speeds from 0 to 4·vp (the live curve), and a saved copy of it (the snapshot). The
    chart object is modelled by its two datasets and its fixed y-axis maximum. */
module SpeedChart {
  import opened Common
  import opened MathLib
  import opened Physics

  /** The curve has POINT_COUNT + 1 points. */
  const POINT_COUNT: nat := 200
  /** The grid reaches this multiple of the most probable speed. */
  const MAX_SPEED_FACTOR: real := 4.0
  /** The fixed x-axis maximum in m/s. */
  const MAX_X_VALUE: real := 3500.0
  /** The y axis is scaled to the peak of carbon dioxide at 200 K, times 1.2. */
  const Y_REFERENCE_TEMPERATURE: real := 200.0
  const Y_REFERENCE_MOLAR_MASS: real := 44.0
  const Y_HEADROOM: real := 1.2

  /** The molecule mass m = (M/1000)/N_A in kg. */
  function ChartMoleculeMass(molarMass: real): (m: real)
    ensures 0.0 < molarMass ==> 0.0 < m
  {
    molarMass / 1000.0 / N_AVOGADRO
  }

  /** `calculateVrms`: √(3RT/M) with M in kg/mol. */
  function ChartVrms(mth: Transcendentals, temperature: real, molarMass: real): real
    requires 0.0 < molarMass
  {
    Sqrt(mth, 3.0 * R_GAS * temperature / (molarMass / 1000.0))
  }

  /** The most probable speed √(2RT/M) with M in kg/mol. */
  function ChartVp(mth: Transcendentals, temperature: real, molarMass: real): real
    requires 0.0 < molarMass
  {
    Sqrt(mth, 2.0 * R_GAS * temperature / (molarMass / 1000.0))
  }

  /** For finite inputs the chart's vp and vrms are the ones the physics module computes. */
  lemma ChartSpeedsMatchPhysics(mth: Transcendentals, temperature: real, molarMass: real)
    requires Lawful(mth) && 0.0 <= temperature && 0.0 < molarMass
    ensures ChartVp(mth, temperature, molarMass) == CharacteristicSpeeds(mth, Fin(temperature), Fin(molarMass)).vp
    ensures ChartVrms(mth, temperature, molarMass) == CharacteristicSpeeds(mth, Fin(temperature), Fin(molarMass)).vrms
  {
    var m := MolarMassKg(Fin(molarMass));
    assert m == molarMass / 1000.0;
    assert EffectiveTemperature(Fin(temperature)) == temperature;
    assert CharacteristicSpeeds(mth, Fin(temperature), Fin(molarMass)) == SpeedsAt(mth, temperature, m);
  }

  /** `calculateMaxwellDistribution`:
      f(v) = 4π·v² · (m/(2πkT))^1.5 · exp(−m·v²/(2kT)). */
  function MaxwellDistribution(mth: Transcendentals, v: real, temperature: real, molarMass: real): real
    requires Lawful(mth) && 0.0 < temperature
  {
    var m := ChartMoleculeMass(molarMass);
    var kT2 := 2.0 * K_BOLTZMANN * temperature;
    (4.0 * mth.pi * v * v) * Pow(mth, m / (2.0 * mth.pi * K_BOLTZMANN * temperature), 1.5) * Exp(mth, -m * v * v / kT2)
  }

  /** f(0) = 0. */
  lemma MaxwellZeroAtRest(mth: Transcendentals, temperature: real, molarMass: real)
    requires Lawful(mth) && 0.0 < temperature
    ensures MaxwellDistribution(mth, 0.0, temperature, molarMass) == 0.0
  {
  }

  /** f is never negative, and positive at every positive speed. */
  lemma MaxwellNonNegative(mth: Transcendentals, v: real, temperature: real, molarMass: real)
    requires Lawful(mth) && 0.0 < temperature && 0.0 < molarMass
    ensures 0.0 <= MaxwellDistribution(mth, v, temperature, molarMass)
    ensures v != 0.0 ==> 0.0 < MaxwellDistribution(mth, v, temperature, molarMass)
  {
    var m := ChartMoleculeMass(molarMass);
    var kT2 := 2.0 * K_BOLTZMANN * temperature;
    var den := 2.0 * mth.pi * K_BOLTZMANN * temperature;
    var base := m / den;
    MulPositive(2.0 * mth.pi * K_BOLTZMANN, temperature);
    assert 0.0 < base;
    var a := 4.0 * mth.pi * v * v;
    var b := Pow(mth, base, 1.5);
    var c := Exp(mth, -m * v * v / kT2);
    assert 0.0 < b && 0.0 < c;
    MulPositive(b, c);
    assert 0.0 <= v * v;
    if v != 0.0 {
      var w := AbsR(v);
      SquareStrict(0.0, w);
      assert w * w == v * v;
      MulPositive(4.0 * mth.pi, v * v);
      assert a == (4.0 * mth.pi) * (v * v);
      MulPositive(a, b * c);
      assert a * b * c == a * (b * c);
    } else {
      assert a == 0.0;
    }
  }

  /** `calculatePeakFv`: f at the most probable speed. */
  function PeakFv(mth: Transcendentals, temperature: real, molarMass: real): real
    requires Lawful(mth) && 0.0 < temperature && 0.0 < molarMass
  {
    MaxwellDistribution(mth, ChartVp(mth, temperature, molarMass), temperature, molarMass)
  }

  /** The fixed y-axis maximum: 1.2 times the peak of carbon dioxide at 200 K. */
  function YAxisMax(mth: Transcendentals): (y: real)
    requires Lawful(mth)
    ensures 0.0 < y
  {
    var vp := ChartVp(mth, Y_REFERENCE_TEMPERATURE, Y_REFERENCE_MOLAR_MASS);
    SqrtPositive(mth, 2.0 * R_GAS * Y_REFERENCE_TEMPERATURE / (Y_REFERENCE_MOLAR_MASS / 1000.0));
    MaxwellNonNegative(mth, vp, Y_REFERENCE_TEMPERATURE, Y_REFERENCE_MOLAR_MASS);
    PeakFv(mth, Y_REFERENCE_TEMPERATURE, Y_REFERENCE_MOLAR_MASS) * Y_HEADROOM
  }

  /** The grid step 4·vp/200. */
  function SpeedStep(mth: Transcendentals, temperature: real, molarMass: real): real
    requires 0.0 < molarMass
  {
    ChartVp(mth, temperature, molarMass) * MAX_SPEED_FACTOR / (POINT_COUNT as real)
  }

  /** The i-th grid speed i·step. */
  function GridSpeed(mth: Transcendentals, temperature: real, molarMass: real, i: nat): real
    requires 0.0 < molarMass
  {
    (i as real) * SpeedStep(mth, temperature, molarMass)
  }

  /** The grid starts at 0, ends at 4·vp and is equally spaced. */
  lemma GridEnds(mth: Transcendentals, temperature: real, molarMass: real)
    requires 0.0 < molarMass
    ensures GridSpeed(mth, temperature, molarMass, 0) == 0.0
    ensures GridSpeed(mth, temperature, molarMass, POINT_COUNT) == MAX_SPEED_FACTOR * ChartVp(mth, temperature, molarMass)
  {
  }

  lemma GridEquallySpaced(mth: Transcendentals, temperature: real, molarMass: real, i: nat)
    requires 0.0 < molarMass
    ensures GridSpeed(mth, temperature, molarMass, i + 1) - GridSpeed(mth, temperature, molarMass, i)
         == SpeedStep(mth, temperature, molarMass)
  {
  }

  /** For a non-negative temperature the grid is non-decreasing and never negative. */
  lemma GridNonDecreasing(mth: Transcendentals, temperature: real, molarMass: real, i: nat, j: nat)
    requires Lawful(mth) && 0.0 <= temperature && 0.0 < molarMass && i <= j
    ensures 0.0 <= GridSpeed(mth, temperature, molarMass, i) <= GridSpeed(mth, temperature, molarMass, j)
  {
    var x := 2.0 * R_GAS * temperature / (molarMass / 1000.0);
    assert 0.0 <= x;
    assert 0.0 <= Sqrt(mth, x);
    MulLeft(i as real, j as real, SpeedStep(mth, temperature, molarMass));
    MulLeft(0.0, i as real, SpeedStep(mth, temperature, molarMass));
  }

  /** The curve point at grid index i. */
  function CurvePoint(mth: Transcendentals, temperature: real, molarMass: real, i: nat): Point
    requires Lawful(mth) && 0.0 < temperature && 0.0 < molarMass
  {
    var v := GridSpeed(mth, temperature, molarMass, i);
    Point(v, MaxwellDistribution(mth, v, temperature, molarMass))
  }

  /** `generateTheoreticalData`: the curve on the 201-point grid. */
  method GenerateTheoreticalData(mth: Transcendentals, temperature: real, molarMass: real) returns (data: seq<Point>)
    requires Lawful(mth) && 0.0 < temperature && 0.0 < molarMass
    ensures |data| == POINT_COUNT + 1
    ensures forall i :: 0 <= i < |data| ==> data[i] == CurvePoint(mth, temperature, molarMass, i)
  {
    data := [];
    var speedStep := ChartVp(mth, temperature, molarMass) * MAX_SPEED_FACTOR / (POINT_COUNT as real);
    var i: nat := 0;
    while i <= POINT_COUNT
      invariant i <= POINT_COUNT + 1 && |data| == i
      invariant forall k :: 0 <= k < i ==> data[k] == CurvePoint(mth, temperature, molarMass, k)
    {
      var speed := (i as real) * speedStep;
      assert speed == GridSpeed(mth, temperature, molarMass, i);
      data := data + [Point(speed, MaxwellDistribution(mth, speed, temperature, molarMass))];
      i := i + 1;
    }
  }

  /** Every point of the curve has a non-negative density; the first one is (0, 0). */
  lemma CurveShape(mth: Transcendentals, temperature: real, molarMass: real, i: nat)
    requires Lawful(mth) && 0.0 < temperature && 0.0 < molarMass
    ensures 0.0 <= CurvePoint(mth, temperature, molarMass, i).y
    ensures CurvePoint(mth, temperature, molarMass, 0) == Point(0.0, 0.0)
  {
    MaxwellNonNegative(mth, GridSpeed(mth, temperature, molarMass, i), temperature, molarMass);
    GridEnds(mth, temperature, molarMass);
    MaxwellZeroAtRest(mth, temperature, molarMass);
  }

  class Chart {
    /** Whether the chart object exists. */
    var initialized: bool
    /** Dataset 0, the live theoretical curve. */
    var live: seq<Point>
    /** Dataset 1, the saved comparison curve. */
    var snapshot: seq<Point>
    /** The y-axis maximum. */
    var yMax: real

    /** The module as loaded: no chart. */
    constructor()
      ensures !initialized && live == [] && snapshot == [] && yMax == 0.0
    {
      initialized, live, snapshot, yMax := false, [], [], 0.0;
    }

    /** `initSpeedDistributionChart`: nothing happens without the canvas or without the
        chart library; otherwise a new chart with both datasets empty is created. */
    method InitSpeedDistributionChart(mth: Transcendentals, canvasPresent: bool, chartLibraryLoaded: bool)
      requires Lawful(mth)
      modifies this
      ensures canvasPresent && chartLibraryLoaded ==>
        initialized && live == [] && snapshot == [] && yMax == YAxisMax(mth)
      ensures !(canvasPresent && chartLibraryLoaded) ==>
        initialized == old(initialized) && live == old(live) && snapshot == old(snapshot) && yMax == old(yMax)
    {
      if !canvasPresent || !chartLibraryLoaded {
        return;
      }
      initialized, live, snapshot := true, [], [];
      yMax := YAxisMax(mth);
    }

    /** `updateSpeedDistributionChart`: only the live curve is replaced, and only once the
        chart exists. */
    method UpdateSpeedDistributionChart(mth: Transcendentals, temperature: real, molarMass: real)
      requires Lawful(mth) && 0.0 < temperature && 0.0 < molarMass
      modifies this
      ensures initialized == old(initialized) && snapshot == old(snapshot) && yMax == old(yMax)
      ensures !initialized ==> live == old(live)
      ensures initialized ==>
        |live| == POINT_COUNT + 1
        && forall i :: 0 <= i < |live| ==> live[i] == CurvePoint(mth, temperature, molarMass, i)
    {
      if !initialized {
        return;
      }
      live := GenerateTheoreticalData(mth, temperature, molarMass);
    }

    /** `saveCurrentCurve`: the snapshot becomes a copy of the live curve, once the chart
        exists. */
    method SaveCurrentCurve()
      modifies this
      ensures initialized == old(initialized) && live == old(live) && yMax == old(yMax)
      ensures initialized ==> snapshot == live
      ensures !initialized ==> snapshot == old(snapshot)
    {
      if !initialized {
        return;
      }
      snapshot := live;
    }
  }

  /** A saved curve is a copy: updating the live curve afterwards leaves the snapshot equal
      to the curve as it was when saved. */
  method SnapshotSurvivesUpdate(mth: Transcendentals, t1: real, m1: real, t2: real, m2: real)
    returns (saved: seq<Point>, shown: seq<Point>)
    requires Lawful(mth) && 0.0 < t1 && 0.0 < m1 && 0.0 < t2 && 0.0 < m2
    ensures |saved| == POINT_COUNT + 1
    ensures forall i :: 0 <= i < |saved| ==> saved[i] == CurvePoint(mth, t1, m1, i)
    ensures |shown| == POINT_COUNT + 1
    ensures forall i :: 0 <= i < |shown| ==> shown[i] == CurvePoint(mth, t2, m2, i)
  {
    var c := new Chart();
    c.InitSpeedDistributionChart(mth, true, true);
    c.UpdateSpeedDistributionChart(mth, t1, m1);
    c.SaveCurrentCurve();
    c.UpdateSpeedDistributionChart(mth, t2, m2);
    saved, shown := c.snapshot, c.live;
  }
}
