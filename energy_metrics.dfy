/** Kinetic energy in px/frame units and the velocity rescale applied when the gas is
    switched. The rescale writes each body's velocity in place. */
module EnergyMetrics {
  import opened Common
  import opened MathLib

  /** Molar mass used by the rescale when an argument is not a finite number. */
  const RESCALE_DEFAULT_MOLAR_MASS: real := 28.0

  /** Σ ½·mass·(vx² + vy²), written as ½·mass·Σ(vx² + vy²). */
  function KineticEnergy(bs: seq<Body>, massPerParticle: real): real {
    0.5 * massPerParticle * SumSpeedSquared(bs)
  }

  /** The energy is 0 for no bodies and never negative for a non-negative mass. */
  lemma KineticEnergyNonNegative(bs: seq<Body>, massPerParticle: real)
    ensures KineticEnergy([], massPerParticle) == 0.0
    ensures 0.0 <= massPerParticle ==> 0.0 <= KineticEnergy(bs, massPerParticle)
  {
    if 0.0 <= massPerParticle {
      MulLeft(0.0, 0.5 * massPerParticle, SumSpeedSquared(bs));
    }
  }

  /** Adding one body's ½·m·v² to ½·m·Σ gives ½·m·(Σ + v²). */
  lemma AddHalfMass(m: real, sum: real, sq: real, total: real)
    requires total == sum + sq
    ensures 0.5 * m * sum + 0.5 * m * sq == 0.5 * m * total
  {
  }

  /** `getKineticEnergy(bodies, massPerParticle = 1)`: a non-array counts as no bodies. */
  method GetKineticEnergy(bodies: Option<seq<Body>>, massPerParticle: Option<real>) returns (total: real)
    ensures total == KineticEnergy(bodies.GetOr([]), massPerParticle.GetOr(1.0))
  {
    var arr := bodies.GetOr([]);
    var mass := massPerParticle.GetOr(1.0);
    total := 0.0;
    var i := 0;
    while i < |arr|
      invariant 0 <= i <= |arr|
      invariant total == KineticEnergy(arr[..i], mass)
    {
      var vx := VelX(arr[i]);
      var vy := VelY(arr[i]);
      assert arr[..i + 1][..i] == arr[..i];
      AddHalfMass(mass, SumSpeedSquared(arr[..i]), vx * vx + vy * vy, SumSpeedSquared(arr[..i + 1]));
      total := total + 0.5 * mass * (vx * vx + vy * vy);
      i := i + 1;
    }
    assert arr[..i] == arr;
  }

  /** The velocity factor of the gas switch: 1 when energy is not conserved or a molar
      mass is not positive (non-finite masses count as 28), otherwise √(mOld/mNew). */
  function RescaleFactor(mth: Transcendentals, conserve: bool, molarMassOld: Num, molarMassNew: Num): (f: real)
    requires Lawful(mth)
    ensures 0.0 <= f
    ensures var mOld, mNew := molarMassOld.FiniteOr(RESCALE_DEFAULT_MOLAR_MASS), molarMassNew.FiniteOr(RESCALE_DEFAULT_MOLAR_MASS);
      if !conserve || mOld <= 0.0 || mNew <= 0.0 then f == 1.0
      else f * f * mNew == mOld
  {
    var mOld := molarMassOld.FiniteOr(RESCALE_DEFAULT_MOLAR_MASS);
    var mNew := molarMassNew.FiniteOr(RESCALE_DEFAULT_MOLAR_MASS);
    if !conserve || mOld <= 0.0 || mNew <= 0.0 then 1.0
    else
      SqrtSquared(mth, mOld / mNew);
      Sqrt(mth, mOld / mNew)
  }

  /** Equal molar masses give the factor 1. */
  lemma EqualMassesFactorOne(mth: Transcendentals, conserve: bool, molarMass: Num)
    requires Lawful(mth)
    ensures RescaleFactor(mth, conserve, molarMass, molarMass) == 1.0
  {
    var m := molarMass.FiniteOr(RESCALE_DEFAULT_MOLAR_MASS);
    if conserve && 0.0 < m {
      assert m / m == 1.0;
      SqrtOne(mth);
    }
  }

  /** One body with both velocity components multiplied by `f`, written where the source
      writes them: into the velocity object when there is one, into `vx`/`vy` otherwise. */
  function ScaleBody(b: Body, f: real): Body {
    match b.velocity
    case Some(v) => b.(velocity := Some(ScaleVec(v, f)))
    case None => b.(vx := Some(VelX(b) * f), vy := Some(VelY(b) * f))
  }

  /** The scaled body has the scaled velocity and keeps the form of its velocity record. */
  lemma ScaleBodyVelocity(b: Body, f: real)
    ensures VelX(ScaleBody(b, f)) == VelX(b) * f && VelY(ScaleBody(b, f)) == VelY(b) * f
    ensures ScaleBody(b, f).velocity.Some? <==> b.velocity.Some?
  {
  }

  /** The squared speed of a scaled body is scaled by ff = f². */
  lemma ScaleBodySpeed(b: Body, f: real, ff: real)
    requires ff == f * f
    ensures SpeedSquared(ScaleBody(b, f)) == ff * SpeedSquared(b)
  {
    ScaleBodyVelocity(b, f);
    SquaresOfScaled(VelX(b), VelY(b), f, ff);
  }

  /** (x·f)² + (y·f)² = ff·(x² + y²) when ff = f². */
  lemma SquaresOfScaled(x: real, y: real, f: real, ff: real)
    requires ff == f * f
    ensures (x * f) * (x * f) + (y * f) * (y * f) == ff * (x * x + y * y)
  {
  }

  /** Every body scaled by the same factor. */
  function ScaleAll(bs: seq<Body>, f: real): (r: seq<Body>)
    ensures |r| == |bs|
  {
    if |bs| == 0 then [] else ScaleAll(bs[..|bs| - 1], f) + [ScaleBody(bs[|bs| - 1], f)]
  }

  /** The i-th scaled body is the i-th body scaled: the bodies keep their order. */
  lemma {:induction false} ScaleAllElements(bs: seq<Body>, f: real)
    ensures forall i :: 0 <= i < |bs| ==> ScaleAll(bs, f)[i] == ScaleBody(bs[i], f)
  {
    if |bs| > 0 {
      ScaleAllElements(bs[..|bs| - 1], f);
    }
  }

  /** The squared speeds of the bodies, in order. */
  function Squares(bs: seq<Body>): (r: seq<real>)
    ensures |r| == |bs|
    ensures forall i :: 0 <= i < |bs| ==> r[i] == SpeedSquared(bs[i])
  {
    seq(|bs|, i requires 0 <= i < |bs| => SpeedSquared(bs[i]))
  }

  /** The sum of squared speeds is the sum of the sequence of squared speeds. */
  lemma {:induction false} SumSpeedSquaredIsSum(bs: seq<Body>)
    ensures SumSpeedSquared(bs) == Sum(Squares(bs))
  {
    if |bs| > 0 {
      var n := |bs| - 1;
      SumSpeedSquaredIsSum(bs[..n]);
      assert Squares(bs)[..n] == Squares(bs[..n]);
    }
  }

  /** A sequence whose entries are c times those of another has c times its sum. */
  lemma {:induction false} SumProportional(xs: seq<real>, ys: seq<real>, c: real)
    requires |ys| == |xs|
    requires forall i :: 0 <= i < |xs| ==> ys[i] == c * xs[i]
    ensures Sum(ys) == c * Sum(xs)
  {
    if |xs| > 0 {
      var n := |xs| - 1;
      SumProportional(xs[..n], ys[..n], c);
      Distribute(c, Sum(xs[..n]), xs[n], Sum(xs), Sum(ys[..n]), ys[n], Sum(ys));
    }
  }

  /** Scaling every body scales each squared speed by ff = f². */
  lemma SquaresScaled(bs: seq<Body>, f: real, ff: real)
    requires ff == f * f
    ensures |Squares(ScaleAll(bs, f))| == |Squares(bs)|
    ensures forall i :: 0 <= i < |bs| ==> Squares(ScaleAll(bs, f))[i] == ff * Squares(bs)[i]
  {
    ScaleAllElements(bs, f);
    forall i | 0 <= i < |bs|
      ensures Squares(ScaleAll(bs, f))[i] == ff * Squares(bs)[i]
    {
      ScaleBodySpeed(bs[i], f, ff);
    }
  }

  /** The sum of the scaled squared speeds is ff = f² times the sum of the squared speeds. */
  lemma SumSquaresScaled(bs: seq<Body>, f: real, ff: real)
    requires ff == f * f
    ensures Sum(Squares(ScaleAll(bs, f))) == ff * Sum(Squares(bs))
  {
    SquaresScaled(bs, f, ff);
    SumProportional(Squares(bs), Squares(ScaleAll(bs, f)), ff);
  }

  /** Bodies whose squared speeds sum to c times those of other bodies have c times their
      sum of squared speeds. */
  lemma SumSpeedSquaredProportional(bs: seq<Body>, cs: seq<Body>, c: real)
    requires Sum(Squares(cs)) == c * Sum(Squares(bs))
    ensures SumSpeedSquared(cs) == c * SumSpeedSquared(bs)
  {
    ScaledSumOfSquares(bs, c, Sum(Squares(cs)));
    SumSpeedSquaredIsSum(cs);
  }

  /** c times the sum of the squared speeds, read through `Squares`. */
  lemma ScaledSumOfSquares(bs: seq<Body>, c: real, a: real)
    requires a == c * Sum(Squares(bs))
    ensures a == c * SumSpeedSquared(bs)
  {
    SumSpeedSquaredIsSum(bs);
  }

  /** c·(x + y) = c·x + c·y, with the two scaled parts already known. */
  lemma Distribute(c: real, x: real, y: real, s: real, cx: real, cy: real, cs: real)
    requires s == x + y && cx == c * x && cy == c * y && cs == cx + cy
    ensures cs == c * s
  {
  }

  /** Scaling every velocity by f scales the sum of squared speeds by f². */
  lemma SumSpeedSquaredScaled(bs: seq<Body>, f: real)
    ensures SumSpeedSquared(ScaleAll(bs, f)) == f * f * SumSpeedSquared(bs)
  {
    SumSpeedSquaredScaledBy(bs, f, f * f);
  }

  /** `SumSpeedSquaredScaled` with f² passed in as ff. */
  lemma SumSpeedSquaredScaledBy(bs: seq<Body>, f: real, ff: real)
    requires ff == f * f
    ensures SumSpeedSquared(ScaleAll(bs, f)) == ff * SumSpeedSquared(bs)
  {
    SumSquaresScaled(bs, f, ff);
    SumSpeedSquaredProportional(bs, ScaleAll(bs, f), ff);
  }

  /** Scaling every velocity by f scales the kinetic energy by f². */
  lemma KineticEnergyScaled(bs: seq<Body>, f: real, massPerParticle: real)
    ensures KineticEnergy(ScaleAll(bs, f), massPerParticle) == f * f * KineticEnergy(bs, massPerParticle)
  {
    SumSpeedSquaredScaled(bs, f);
    HalfMassScaled(massPerParticle, f * f, SumSpeedSquared(bs), SumSpeedSquared(ScaleAll(bs, f)));
  }

  /** ½·m·s2 = c·(½·m·s) when s2 = c·s. */
  lemma HalfMassScaled(m: real, c: real, s: real, s2: real)
    requires s2 == c * s
    ensures 0.5 * m * s2 == c * (0.5 * m * s)
  {
  }

  /** If the new mass is the old one divided by f², and the squared speeds grow by f²,
      mass times squared speed is the same before and after. */
  lemma MassSpeedBalance(ff: real, mOld: real, mNew: real, sOld: real, sNew: real)
    requires ff * mNew == mOld && sNew == ff * sOld
    ensures mNew * sNew == mOld * sOld
  {
    assert mNew * (ff * sOld) == (ff * mNew) * sOld;
  }

  /** The gas switch conserves kinetic energy: a factor f with ff = f² and ff·mNew = mOld,
      which `RescaleFactor` returns whenever it conserves, gives mNew·Σv'² = mOld·Σv². */
  lemma RescaleConservesEnergy(bs: seq<Body>, f: real, ff: real, mOld: real, mNew: real)
    requires ff == f * f && ff * mNew == mOld
    ensures mNew * SumSpeedSquared(ScaleAll(bs, f)) == mOld * SumSpeedSquared(bs)
  {
    SumSpeedSquaredScaledBy(bs, f, ff);
    MassSpeedBalance(ff, mOld, mNew, SumSpeedSquared(bs), SumSpeedSquared(ScaleAll(bs, f)));
  }

  /** With factor 1 every velocity is unchanged. */
  lemma ScaleByOneKeepsVelocities(bs: seq<Body>)
    ensures forall i :: 0 <= i < |bs| ==>
      VelX(ScaleAll(bs, 1.0)[i]) == VelX(bs[i]) && VelY(ScaleAll(bs, 1.0)[i]) == VelY(bs[i])
  {
    ScaleAllElements(bs, 1.0);
    forall i | 0 <= i < |bs|
      ensures VelX(ScaleAll(bs, 1.0)[i]) == VelX(bs[i]) && VelY(ScaleAll(bs, 1.0)[i]) == VelY(bs[i])
    {
      ScaleBodyVelocity(bs[i], 1.0);
    }
  }

  /** `rescaleParticleVelocitiesForNewGas`: every body's velocity is multiplied by the
      factor, in place. `conserve` is `options.conserveKineticEnergy ?? true`; a bodies
      argument that is not an array behaves as an empty one. */
  method RescaleParticleVelocitiesForNewGas(mth: Transcendentals, bodies: array<Body>,
                                            molarMassOld: Num, molarMassNew: Num, conserveOption: Option<bool>)
    requires Lawful(mth)
    modifies bodies
    ensures bodies[..] == ScaleAll(old(bodies[..]), RescaleFactor(mth, conserveOption.GetOr(true), molarMassOld, molarMassNew))
  {
    var conserve := conserveOption.GetOr(true);
    if bodies.Length == 0 {
      return;
    }
    var factor := RescaleFactor(mth, conserve, molarMassOld, molarMassNew);
    var i := 0;
    while i < bodies.Length
      invariant 0 <= i <= bodies.Length
      invariant forall k :: 0 <= k < i ==> bodies[k] == ScaleBody(old(bodies[k]), factor)
      invariant forall k :: i <= k < bodies.Length ==> bodies[k] == old(bodies[k])
    {
      bodies[i] := ScaleBody(bodies[i], factor);
      i := i + 1;
    }
    ScaleAllElements(old(bodies[..]), factor);
  }
}
