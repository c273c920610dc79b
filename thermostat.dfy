/** The thermostat plug-in: at most once per interval it rescales the velocities of the
    moving bodies so that their kinetic energy equals a target. The engine's body list
    is an array whose velocity records the plug-in writes in place. */
module Thermostat {
  import opened Common
  import opened MathLib
  import opened EnergyMetrics

  /** A Matter body as the plug-in sees it. */
  datatype EngineBody = EngineBody(velocity: Vec2, isStatic: bool)

  /** The configuration object handed to `setup`; `None` is a key that is absent, so the
      default applies. `targetEnergy` is itself null or a number. */
  datatype ThermostatConfig = ThermostatConfig(
    enabled: Option<bool>,
    intervalMs: Option<real>,
    targetEnergy: Option<Option<real>>,
    perParticleMass: Option<real>)

  const DEFAULT_INTERVAL_MS: real := 1000.0
  const DEFAULT_PER_PARTICLE_MASS: real := 1.0

  /** The moving bodies, as the velocity records the energy function reads. */
  function Moving(ws: seq<EngineBody>): (r: seq<Body>)
    ensures |r| <= |ws|
  {
    if |ws| == 0 then []
    else if ws[|ws| - 1].isStatic then Moving(ws[..|ws| - 1])
    else Moving(ws[..|ws| - 1]) + [Body(Some(ws[|ws| - 1].velocity), None, None)]
  }

  /** There are no moving bodies exactly when every body is static. */
  lemma {:induction false} MovingEmptyIff(ws: seq<EngineBody>)
    ensures |Moving(ws)| == 0 <==> forall i :: 0 <= i < |ws| ==> ws[i].isStatic
  {
    if |ws| > 0 {
      MovingEmptyIff(ws[..|ws| - 1]);
      assert forall i :: 0 <= i < |ws| - 1 ==> ws[..|ws| - 1][i] == ws[i];
    }
  }

  /** `b.velocity.x *= factor; b.velocity.y *= factor` on the moving bodies; static
      bodies are left alone. */
  function ScaleMoving(w: EngineBody, f: real): EngineBody {
    if w.isStatic then w else w.(velocity := ScaleVec(w.velocity, f))
  }

  function ScaleWorld(ws: seq<EngineBody>, f: real): (r: seq<EngineBody>)
    ensures |r| == |ws|
  {
    if |ws| == 0 then [] else ScaleWorld(ws[..|ws| - 1], f) + [ScaleMoving(ws[|ws| - 1], f)]
  }

  lemma {:induction false} ScaleWorldElements(ws: seq<EngineBody>, f: real)
    ensures forall i :: 0 <= i < |ws| ==> ScaleWorld(ws, f)[i] == ScaleMoving(ws[i], f)
  {
    if |ws| > 0 {
      ScaleWorldElements(ws[..|ws| - 1], f);
    }
  }

  /** Scaling the world scales exactly the moving bodies, in their order. */
  lemma {:induction false} MovingOfScaledWorld(ws: seq<EngineBody>, f: real)
    ensures Moving(ScaleWorld(ws, f)) == ScaleAll(Moving(ws), f)
  {
    if |ws| > 0 {
      var init, w := ws[..|ws| - 1], ws[|ws| - 1];
      MovingOfScaledWorld(init, f);
      var r := ScaleWorld(ws, f);
      assert r[..|r| - 1] == ScaleWorld(init, f);
      assert r[|r| - 1] == ScaleMoving(w, f);
      if !w.isStatic {
        var b := Body(Some(w.velocity), None, None);
        var m := Moving(init) + [b];
        assert m[..|m| - 1] == Moving(init);
        assert ScaleAll(m, f) == ScaleAll(Moving(init), f) + [ScaleBody(b, f)];
      }
    }
  }

  /** The factor √(target/E) turns an energy E > 0 into the target: f²·E = target. */
  lemma FactorReachesTarget(mth: Transcendentals, target: real, energy: real)
    requires Lawful(mth) && 0.0 < target && 0.0 < energy
    ensures Sqrt(mth, target / energy) * Sqrt(mth, target / energy) * energy == target
  {
    SqrtSquared(mth, target / energy);
  }

  /** After a rescale the moving bodies carry exactly the target energy. */
  lemma RescaleReachesTarget(mth: Transcendentals, ws: seq<EngineBody>, mass: real, target: real)
    requires Lawful(mth) && 0.0 < target && 0.0 < KineticEnergy(Moving(ws), mass)
    ensures var f := Sqrt(mth, target / KineticEnergy(Moving(ws), mass));
      KineticEnergy(Moving(ScaleWorld(ws, f)), mass) == target
  {
    var e := KineticEnergy(Moving(ws), mass);
    var f := Sqrt(mth, target / e);
    FactorReachesTarget(mth, target, e);
    ScaledWorldReachesTarget(ws, f, mass, target);
  }

  /** A factor f with f²·E = target brings the energy E of the moving bodies to the
      target. */
  lemma ScaledWorldReachesTarget(ws: seq<EngineBody>, f: real, mass: real, target: real)
    requires f * f * KineticEnergy(Moving(ws), mass) == target
    ensures KineticEnergy(Moving(ScaleWorld(ws, f)), mass) == target
  {
    ScaledWorldEnergy(ws, f, mass);
  }

  /** Scaling the world by f scales the energy of its moving bodies by f². */
  lemma ScaledWorldEnergy(ws: seq<EngineBody>, f: real, mass: real)
    ensures KineticEnergy(Moving(ScaleWorld(ws, f)), mass) == f * f * KineticEnergy(Moving(ws), mass)
  {
    MovingEnergyOfScaledWorld(ws, f, mass);
    ScaledMovingEnergy(ws, f, mass);
  }

  /** `KineticEnergyScaled` for the moving bodies of a world. */
  lemma ScaledMovingEnergy(ws: seq<EngineBody>, f: real, mass: real)
    ensures KineticEnergy(ScaleAll(Moving(ws), f), mass) == f * f * KineticEnergy(Moving(ws), mass)
  {
    KineticEnergyScaled(Moving(ws), f, mass);
  }

  /** The moving bodies of the scaled world have the energy of the scaled moving bodies. */
  lemma MovingEnergyOfScaledWorld(ws: seq<EngineBody>, f: real, mass: real)
    ensures KineticEnergy(Moving(ScaleWorld(ws, f)), mass) == KineticEnergy(ScaleAll(Moving(ws), f), mass)
  {
    MovingOfScaledWorld(ws, f);
  }

  class ThermostatPlugin {
    var enabled: bool
    var intervalMs: real
    var targetEnergy: Option<real>
    var perParticleMass: real
    /** Time of the last rescale, in ms. */
    var lastAt: real

    /** `setup`: the defaults overridden by the keys present in `config`; `lastAt` always
        starts at 0. */
    constructor (config: ThermostatConfig)
      ensures enabled == config.enabled.GetOr(false)
      ensures intervalMs == config.intervalMs.GetOr(DEFAULT_INTERVAL_MS)
      ensures targetEnergy == config.targetEnergy.GetOr(None)
      ensures perParticleMass == config.perParticleMass.GetOr(DEFAULT_PER_PARTICLE_MASS)
      ensures lastAt == 0.0
    {
      enabled := config.enabled.GetOr(false);
      intervalMs := config.intervalMs.GetOr(DEFAULT_INTERVAL_MS);
      targetEnergy := config.targetEnergy.GetOr(None);
      perParticleMass := config.perParticleMass.GetOr(DEFAULT_PER_PARTICLE_MASS);
      lastAt := 0.0;
    }

    /** Whether a rescale of `ws` changes velocities: there are moving bodies, the
        plug-in is enabled, the target is a positive number and the current energy is
        positive. */
    predicate Applies(ws: seq<EngineBody>)
      reads this
    {
      && |Moving(ws)| > 0
      && enabled
      && targetEnergy.Some? && targetEnergy.value > 0.0
      && KineticEnergy(Moving(ws), perParticleMass) > 0.0
    }

    /** The world after one rescale. */
    function Rescaled(mth: Transcendentals, ws: seq<EngineBody>): seq<EngineBody>
      reads this
    {
      if Applies(ws) then ScaleWorld(ws, Sqrt(mth, targetEnergy.value / KineticEnergy(Moving(ws), perParticleMass)))
      else ws
    }

    /** `rescale`: when it applies, the moving bodies end with exactly the target energy;
        otherwise nothing changes. */
    lemma RescaledEnergy(mth: Transcendentals, ws: seq<EngineBody>)
      requires Lawful(mth)
      ensures Applies(ws) ==> KineticEnergy(Moving(Rescaled(mth, ws)), perParticleMass) == targetEnergy.value
      ensures !Applies(ws) ==> Rescaled(mth, ws) == ws
    {
      if Applies(ws) {
        RescaleReachesTarget(mth, ws, perParticleMass, targetEnergy.value);
      }
    }

    method Rescale(mth: Transcendentals, world: array<EngineBody>)
      modifies world
      ensures world[..] == Rescaled(mth, old(world[..]))
    {
      var bodies := Moving(world[..]);
      if |bodies| == 0 {
        return;
      }
      if !enabled {
        return;
      }
      var currentEk := GetKineticEnergy(Some(bodies), Some(perParticleMass));
      if targetEnergy.Some? && targetEnergy.value > 0.0 && currentEk > 0.0 {
        var factor := Sqrt(mth, targetEnergy.value / currentEk);
        var i := 0;
        while i < world.Length
          invariant 0 <= i <= world.Length
          invariant forall k :: 0 <= k < i ==> world[k] == ScaleMoving(old(world[k]), factor)
          invariant forall k :: i <= k < world.Length ==> world[k] == old(world[k])
        {
          if !world[i].isStatic {
            var v := world[i].velocity;
            world[i] := world[i].(velocity := Vec2(v.x * factor, v.y * factor));
          }
          i := i + 1;
        }
        ScaleWorldElements(old(world[..]), factor);
      }
    }

    /** The `afterUpdate` handler at time `now` (`performance.now()`): once at least
        `intervalMs` has passed since the last rescale, it records the time and rescales. */
    method AfterUpdate(mth: Transcendentals, now: real, world: array<EngineBody>)
      modifies this, world
      ensures enabled == old(enabled) && intervalMs == old(intervalMs)
      ensures targetEnergy == old(targetEnergy) && perParticleMass == old(perParticleMass)
      ensures now - old(lastAt) >= intervalMs ==> lastAt == now && world[..] == Rescaled(mth, old(world[..]))
      ensures now - old(lastAt) < intervalMs ==> lastAt == old(lastAt) && world[..] == old(world[..])
    {
      if now - lastAt >= intervalMs {
        lastAt := now;
        Rescale(mth, world);
      }
    }
  }
}
