/** The self-contained particle animation: particles that move by their velocity and bounce
    off the four walls of a box, the temperature → speed map used to draw their velocities,
    the particle list that grows and shrinks with the count slider, and the run flag. */
module Simulation {
  import opened Common
  import opened MathLib

  const PARTICLE_RADIUS: real := 2.0
  const MAX_PARTICLES: int := 500
  const TEMP_MIN: real := 200.0
  const TEMP_MAX: real := 600.0
  const SPEED_MIN: real := 0.5
  const SPEED_MAX: real := 4.0
  const DEFAULT_TEMPERATURE: real := 300.0

  /** The box the particles live in: canvas size and wall thickness. */
  datatype Box = Box(width: real, height: real, wallThickness: real)

  /** The configured box before the canvas is measured. */
  const DEFAULT_BOX: Box := Box(400.0, 300.0, 2.0)

  /** One coordinate of a particle with the matching velocity component. */
  datatype Axis = Axis(pos: real, vel: real)

  /** The wall rule along one axis: at or past the low wall the particle is put back on it
      and moves up; at or past the high wall it is put back and moves down. */
  function ResolveAxis(a: Axis, r: real, wall: real, extent: real): Axis {
    if a.pos - r <= wall then Axis(wall + r, AbsR(a.vel))
    else if a.pos + r >= extent - wall then Axis(extent - wall - r, -AbsR(a.vel))
    else a
  }

  /** After the wall rule the particle lies between the walls, provided the box is at least
      2(wall + r) wide. */
  lemma ResolvedInside(a: Axis, r: real, wall: real, extent: real)
    requires extent >= 2.0 * (wall + r)
    ensures wall + r <= ResolveAxis(a, r, wall, extent).pos <= extent - wall - r
  {
  }

  /** A wall hit changes only the sign of the velocity component. */
  lemma ResolvedKeepsMagnitude(a: Axis, r: real, wall: real, extent: real)
    ensures AbsR(ResolveAxis(a, r, wall, extent).vel) == AbsR(a.vel)
    ensures ResolveAxis(a, r, wall, extent).vel * ResolveAxis(a, r, wall, extent).vel == a.vel * a.vel
  {
    var v := a.vel;
    assert (-AbsR(v)) * (-AbsR(v)) == AbsR(v) * AbsR(v) == v * v;
  }

  /** After a low-wall hit the component points inwards (≥ 0), after a high-wall hit too
      (≤ 0); away from the walls nothing changes. */
  lemma ResolvedPointsInward(a: Axis, r: real, wall: real, extent: real)
    ensures a.pos - r <= wall ==> ResolveAxis(a, r, wall, extent).vel >= 0.0
    ensures wall < a.pos - r && a.pos + r >= extent - wall ==> ResolveAxis(a, r, wall, extent).vel <= 0.0
    ensures wall < a.pos - r && a.pos + r < extent - wall ==> ResolveAxis(a, r, wall, extent) == a
  {
  }

  /** `mapTemperatureToSpeed`: the linear map from [200 K, 600 K] onto [0.5, 4] px/frame,
      clamped at both ends. */
  function MapTemperatureToSpeed(temperature: real): (s: real)
    ensures SPEED_MIN <= s <= SPEED_MAX
    ensures temperature <= TEMP_MIN ==> s == SPEED_MIN
    ensures temperature >= TEMP_MAX ==> s == SPEED_MAX
  {
    var ratio := (temperature - TEMP_MIN) / (TEMP_MAX - TEMP_MIN);
    var clamped := MaxR(0.0, MinR(1.0, ratio));
    SPEED_MIN + clamped * (SPEED_MAX - SPEED_MIN)
  }

  /** A warmer gas never gets a lower speed. */
  lemma MapTemperatureMonotone(t1: real, t2: real)
    requires t1 <= t2
    ensures MapTemperatureToSpeed(t1) <= MapTemperatureToSpeed(t2)
  {
    var r1, r2 := (t1 - TEMP_MIN) / (TEMP_MAX - TEMP_MIN), (t2 - TEMP_MIN) / (TEMP_MAX - TEMP_MIN);
    assert r1 <= r2;
  }

  /** The standard deviation of one velocity component: mapTemperatureToSpeed(T)/√2. */
  function SpeedStd(mth: Transcendentals, temperature: real): (std: real)
    requires Lawful(mth)
    ensures 0.0 < std
  {
    SqrtPositive(mth, 2.0);
    MapTemperatureToSpeed(temperature) / Sqrt(mth, 2.0)
  }

  /** `generateMaxwellVelocity` for the draws u1, u2: the Box–Muller pair scaled by the
      standard deviation. */
  function MaxwellVelocity(mth: Transcendentals, temperature: real, u1: real, u2: real): Vec2
    requires Lawful(mth)
  {
    var radius := Sqrt(mth, -2.0 * Log(mth, u1));
    var angle := DrawAngle(mth, u2);
    var speedStd := SpeedStd(mth, temperature);
    Vec2(radius * Cos(mth, angle) * speedStd, radius * Sin(mth, angle) * speedStd)
  }

  /** The angle 2π·u of a uniform draw u. */
  function DrawAngle(mth: Transcendentals, u: real): real {
    2.0 * mth.pi * u
  }

  /** The speed √(vx² + vy²) of a velocity. */
  function Speed(mth: Transcendentals, vx: real, vy: real): real {
    Sqrt(mth, vx * vx + vy * vy)
  }

  /** The speed of a velocity whose squared length is known. */
  lemma SpeedIs(mth: Transcendentals, a: real, b: real, sq: real)
    requires a * a + b * b == sq
    ensures Speed(mth, a, b) == Sqrt(mth, sq)
  {
  }

  /** Velocities with the same squared length have the same speed. */
  lemma SpeedOfEqualSquares(mth: Transcendentals, a: real, b: real, c: real, d: real)
    requires a * a + b * b == c * c + d * d
    ensures Speed(mth, a, b) == Speed(mth, c, d)
  {
    SpeedIs(mth, a, b, c * c + d * d);
  }

  /** For a draw 0 < u1 ≤ 1 the squared speed is −2·ln(u1)·σ², σ the standard deviation. */
  lemma MaxwellVelocitySquared(mth: Transcendentals, temperature: real, u1: real, u2: real)
    requires Lawful(mth) && 0.0 < u1 <= 1.0
    ensures SquaredLength(MaxwellVelocity(mth, temperature, u1, u2))
         == (-2.0 * Log(mth, u1)) * (SpeedStd(mth, temperature) * SpeedStd(mth, temperature))
  {
    var rr := -2.0 * Log(mth, u1);
    var rad := Sqrt(mth, rr);
    var angle := DrawAngle(mth, u2);
    var std := SpeedStd(mth, temperature);
    var c, s := Cos(mth, angle), Sin(mth, angle);
    assert MaxwellVelocity(mth, temperature, u1, u2) == Vec2(rad * c * std, rad * s * std);
    if u1 < 1.0 {
      assert Log(mth, u1) < 0.0;
    }
    SqrtSquared(mth, rr);
    CosSinSquares(mth, angle);
    PolarScaled(rad, c, s, std, rr);
  }

  lemma PolarScaled(rad: real, c: real, s: real, std: real, rr: real)
    requires c * c + s * s == 1.0 && rr == rad * rad
    ensures SquaredLength(Vec2(rad * c * std, rad * s * std)) == rr * (std * std)
  {
    assert (rad * c * std) * (rad * c * std) + (rad * s * std) * (rad * s * std)
        == (rad * rad) * (std * std) * (c * c + s * s);
  }

  lemma SumOfSquares(a: real, b: real)
    ensures 0.0 <= a * a + b * b
  {
    if a < 0.0 { MulPositive(-a, -a); } else { MulLeft(0.0, a, a); }
    if b < 0.0 { MulPositive(-b, -b); } else { MulLeft(0.0, b, b); }
  }

  /** Scaling a velocity by c ≥ 0 scales its speed by c. */
  lemma ScaledSpeed(mth: Transcendentals, vx: real, vy: real, c: real)
    requires Lawful(mth) && 0.0 <= c
    ensures Speed(mth, vx * c, vy * c) == c * Speed(mth, vx, vy)
  {
    var sq := vx * vx + vy * vy;
    assert (vx * c) * (vx * c) + (vy * c) * (vy * c) == c * c * sq;
    SpeedIs(mth, vx * c, vy * c, c * c * sq);
    SumOfSquares(vx, vy);
    SqrtScale(mth, c, sq);
  }

  /** A moving particle rescaled by c = speed/current ends with exactly the requested
      speed. */
  lemma RatioReachesSpeed(mth: Transcendentals, vx: real, vy: real, c: real, speed: real)
    requires Lawful(mth) && 0.0 <= c && c * Speed(mth, vx, vy) == speed
    ensures Speed(mth, vx * c, vy * c) == speed
  {
    ScaledSpeed(mth, vx, vy, c);
  }

  /** A particle at rest given the polar velocity (s·cos θ, s·sin θ) has speed s. */
  lemma PolarReachesSpeed(mth: Transcendentals, speed: real, angle: real)
    requires Lawful(mth) && 0.0 <= speed
    ensures Speed(mth, speed * Cos(mth, angle), speed * Sin(mth, angle)) == speed
  {
    var vx, vy := speed * Cos(mth, angle), speed * Sin(mth, angle);
    PolarLength(mth, speed, angle);
    SpeedIs(mth, vx, vy, speed * speed);
    SqrtOfSquare(mth, speed * speed, speed);
  }

  class Particle {
    var x: real
    var y: real
    var vx: real
    var vy: real
    var radius: real

    constructor (x0: real, y0: real, vx0: real, vy0: real)
      ensures x == x0 && y == y0 && vx == vx0 && vy == vy0 && radius == PARTICLE_RADIUS
    {
      x, y, vx, vy := x0, y0, vx0, vy0;
      radius := PARTICLE_RADIUS;
    }

    /** `getSpeed`: √(vx² + vy²). */
    function GetSpeed(mth: Transcendentals): real
      reads this
    {
      Speed(mth, vx, vy)
    }

    /** `handleWallCollisions`: the wall rule along x (width) and then along y (height). */
    method HandleWallCollisions(box: Box)
      modifies this
      ensures Axis(x, vx) == ResolveAxis(Axis(old(x), old(vx)), radius, box.wallThickness, box.width)
      ensures Axis(y, vy) == ResolveAxis(Axis(old(y), old(vy)), radius, box.wallThickness, box.height)
      ensures radius == old(radius)
    {
      if x - radius <= box.wallThickness {
        x := box.wallThickness + radius;
        vx := AbsR(vx);
      } else if x + radius >= box.width - box.wallThickness {
        x := box.width - box.wallThickness - radius;
        vx := -AbsR(vx);
      }
      if y - radius <= box.wallThickness {
        y := box.wallThickness + radius;
        vy := AbsR(vy);
      } else if y + radius >= box.height - box.wallThickness {
        y := box.height - box.wallThickness - radius;
        vy := -AbsR(vy);
      }
    }

    /** `update`: one step by exactly (vx, vy), then the walls. */
    method Update(box: Box)
      modifies this
      ensures Axis(x, vx) == ResolveAxis(Axis(old(x) + old(vx), old(vx)), radius, box.wallThickness, box.width)
      ensures Axis(y, vy) == ResolveAxis(Axis(old(y) + old(vy), old(vy)), radius, box.wallThickness, box.height)
      ensures radius == old(radius)
    {
      x := x + vx;
      y := y + vy;
      HandleWallCollisions(box);
    }

    /** `setSpeed(speed)`, with the random direction draw `u` ∈ [0, 1): a moving particle
        keeps its direction and is scaled by speed/current; a particle at rest gets the
        angle 2π·u. Either way a non-negative request is met exactly. */
    method SetSpeed(mth: Transcendentals, speed: real, u: real)
      requires Lawful(mth)
      modifies this
      ensures old(GetSpeed(mth)) > 0.0 ==>
        vx == old(vx) * (speed / old(GetSpeed(mth))) && vy == old(vy) * (speed / old(GetSpeed(mth)))
      ensures old(GetSpeed(mth)) <= 0.0 ==>
        vx == speed * Cos(mth, u * 2.0 * mth.pi) && vy == speed * Sin(mth, u * 2.0 * mth.pi)
      ensures 0.0 <= speed ==> GetSpeed(mth) == speed
      ensures x == old(x) && y == old(y) && radius == old(radius)
    {
      var ovx, ovy := vx, vy;
      var currentSpeed := GetSpeed(mth);
      var nvx, nvy;
      if currentSpeed > 0.0 {
        var ratio := speed / currentSpeed;
        nvx, nvy := ovx * ratio, ovy * ratio;
        if 0.0 <= speed {
          assert 0.0 <= ratio && ratio * currentSpeed == speed;
          RatioReachesSpeed(mth, ovx, ovy, ratio, speed);
        }
      } else {
        var angle := u * 2.0 * mth.pi;
        nvx, nvy := speed * Cos(mth, angle), speed * Sin(mth, angle);
        if 0.0 <= speed {
          PolarReachesSpeed(mth, speed, angle);
        }
      }
      vx, vy := nvx, nvy;
    }
  }

  /** A wall hit preserves the speed of the particle. */
  lemma WallsKeepSpeed(mth: Transcendentals, box: Box, r: real, x: real, y: real, vx: real, vy: real)
    ensures Speed(mth, ResolveAxis(Axis(x, vx), r, box.wallThickness, box.width).vel,
                       ResolveAxis(Axis(y, vy), r, box.wallThickness, box.height).vel)
         == Speed(mth, vx, vy)
  {
    var ax, ay := ResolveAxis(Axis(x, vx), r, box.wallThickness, box.width),
                  ResolveAxis(Axis(y, vy), r, box.wallThickness, box.height);
    ResolvedKeepsMagnitude(Axis(x, vx), r, box.wallThickness, box.width);
    ResolvedKeepsMagnitude(Axis(y, vy), r, box.wallThickness, box.height);
    SpeedOfEqualSquares(mth, ax.vel, ay.vel, vx, vy);
  }

  /** The random numbers one new particle consumes: two for its position, two for its
      velocity. */
  datatype SpawnDraw = SpawnDraw(ux: real, uy: real, u1: real, u2: real)

  /** Particles spawn at least wall + r + 2 away from the box edge. */
  function SafeMargin(box: Box): real {
    box.wallThickness + PARTICLE_RADIUS + 2.0
  }

  /** `safeMargin + u · (extent − 2·safeMargin)` */
  function SpawnCoord(margin: real, extent: real, u: real): real {
    margin + u * (extent - 2.0 * margin)
  }

  /** With a draw in [0, 1) the coordinate stays inside the safe region. */
  lemma SpawnInsideSafeRegion(margin: real, extent: real, u: real)
    requires 0.0 <= u < 1.0 && extent >= 2.0 * margin
    ensures margin <= SpawnCoord(margin, extent, u) <= extent - margin
  {
    var w := extent - 2.0 * margin;
    MulLeft(u, 1.0, w);
    MulLeft(0.0, u, w);
    assert 1.0 * w == w && 0.0 * w == 0.0;
    assert SpawnCoord(margin, extent, u) == margin + u * w;
  }

  /** `p` is the particle `new Particle(x, y, vx, vy)` built from the draw `d`. */
  ghost predicate SpawnedFrom(mth: Transcendentals, box: Box, temperature: real, d: SpawnDraw, p: Particle)
    requires Lawful(mth)
    reads p
  {
    var v := MaxwellVelocity(mth, temperature, d.u1, d.u2);
    && p.x == SpawnCoord(SafeMargin(box), box.width, d.ux)
    && p.y == SpawnCoord(SafeMargin(box), box.height, d.uy)
    && p.vx == v.x && p.vy == v.y && p.radius == PARTICLE_RADIUS
  }

  /** One new particle from its draws. */
  method Spawn(mth: Transcendentals, box: Box, temperature: real, d: SpawnDraw) returns (p: Particle)
    requires Lawful(mth)
    ensures fresh(p) && SpawnedFrom(mth, box, temperature, d, p)
  {
    var margin := SafeMargin(box);
    var x := margin + d.ux * (box.width - 2.0 * margin);
    var y := margin + d.uy * (box.height - 2.0 * margin);
    assert x == SpawnCoord(SafeMargin(box), box.width, d.ux);
    assert y == SpawnCoord(SafeMargin(box), box.height, d.uy);
    var v := MaxwellVelocity(mth, temperature, d.u1, d.u2);
    p := new Particle(x, y, v.x, v.y);
  }

  /** The number of particles `createParticles` makes for a parsed slider value: the loop
      bound min(count, 500) is NaN for a NaN count and runs no round then. */
  function CreateCount(count: Option<int>): (n: nat)
    ensures n <= MAX_PARTICLES
    ensures count.Some? && 0 <= count.value ==> n == Min(count.value, MAX_PARTICLES)
  {
    if count.None? then 0 else Max(0, Min(count.value, MAX_PARTICLES))
  }

  /** The length `particles.splice(target)` keeps: a negative start counts from the end. */
  function SpliceKeep(target: int, len: nat): (k: nat)
    ensures k <= len || target > len
    ensures 0 <= target ==> k == target
  {
    if target >= 0 then target else Max(0, len + target)
  }

  class SimulationState {
    var isRunning: bool
    var particles: seq<Particle>
    var lastUpdateTime: real
    /** The pending animation frame request; `None` is `null`. */
    var animationId: Option<int>

    constructor ()
      ensures !isRunning && particles == [] && lastUpdateTime == 0.0 && animationId.None?
    {
      isRunning := false;
      particles := [];
      lastUpdateTime := 0.0;
      animationId := None;
    }

    /** `startSimulation` at time `now`, with `frame` the id `requestAnimationFrame` hands
        back: a no-op while running, otherwise the simulation runs from `now`. */
    method StartSimulation(now: real, frame: int)
      modifies this
      ensures old(isRunning) ==> isRunning && lastUpdateTime == old(lastUpdateTime) && animationId == old(animationId)
      ensures !old(isRunning) ==> isRunning && lastUpdateTime == now && animationId == Some(frame)
      ensures particles == old(particles)
    {
      if isRunning {
        return;
      }
      isRunning := true;
      lastUpdateTime := now;
      animationId := Some(frame);
    }

    /** `pauseSimulation`: a no-op while stopped; otherwise it stops, and a pending (truthy)
        frame request is cancelled and cleared. */
    method PauseSimulation()
      modifies this
      ensures !old(isRunning) ==> !isRunning && animationId == old(animationId)
      ensures old(isRunning) ==>
        !isRunning && animationId == (if old(animationId).Some? && old(animationId).value != 0 then None else old(animationId))
      ensures particles == old(particles) && lastUpdateTime == old(lastUpdateTime)
    {
      if !isRunning {
        return;
      }
      isRunning := false;
      if animationId.Some? && animationId.value != 0 {
        animationId := None;
      }
    }

    /** `createParticles`, given the particle-count slider (`None` when absent; its parsed
        value `None` for NaN), the parsed temperature slider and one draw per particle: the
        list is replaced by min(count, 500) new particles. */
    method CreateParticles(mth: Transcendentals, box: Box, countSlider: Option<Option<int>>,
                           temperatureSlider: Option<real>, draws: seq<SpawnDraw>)
      requires Lawful(mth)
      requires countSlider.Some? ==> |draws| >= CreateCount(countSlider.value)
      modifies this
      ensures countSlider.None? || temperatureSlider.None? ==> particles == old(particles)
      ensures countSlider.Some? && temperatureSlider.Some? ==>
        && |particles| == CreateCount(countSlider.value)
        && forall k :: 0 <= k < |particles| ==>
             fresh(particles[k]) && SpawnedFrom(mth, box, temperatureSlider.value, draws[k], particles[k])
      ensures isRunning == old(isRunning) && lastUpdateTime == old(lastUpdateTime) && animationId == old(animationId)
    {
      if countSlider.None? || temperatureSlider.None? {
        return;
      }
      var n := CreateCount(countSlider.value);
      var temperature := temperatureSlider.value;
      particles := [];
      var i := 0;
      while i < n
        invariant 0 <= i <= n && |particles| == i
        invariant forall k :: 0 <= k < i ==> fresh(particles[k]) && SpawnedFrom(mth, box, temperature, draws[k], particles[k])
        invariant isRunning == old(isRunning) && lastUpdateTime == old(lastUpdateTime) && animationId == old(animationId)
      {
        var p := Spawn(mth, box, temperature, draws[i]);
        particles := particles + [p];
        i := i + 1;
      }
    }

    /** `updateParticleCount`: a larger parsed target appends new particles up to
        min(target, 500), keeping the existing ones as a prefix; a smaller one splices the
        list down; a missing slider or a NaN target changes nothing. The temperature of new
        particles is the slider's, 300 K without a slider. */
    method UpdateParticleCount(mth: Transcendentals, box: Box, countSlider: Option<Option<int>>,
                               temperatureSlider: Option<real>, draws: seq<SpawnDraw>)
      requires Lawful(mth)
      requires countSlider.Some? && countSlider.value.Some? ==> |draws| >= Min(countSlider.value.value, MAX_PARTICLES) - |particles|
      modifies this
      ensures countSlider.None? || countSlider.value.None? ==> particles == old(particles)
      ensures countSlider.Some? && countSlider.value.Some? && countSlider.value.value > |old(particles)| ==>
        var added := Max(0, Min(countSlider.value.value, MAX_PARTICLES) - |old(particles)|);
        && |particles| == |old(particles)| + added
        && particles[..|old(particles)|] == old(particles)
        && forall k :: |old(particles)| <= k < |particles| ==>
             fresh(particles[k])
             && SpawnedFrom(mth, box, temperatureSlider.GetOr(DEFAULT_TEMPERATURE), draws[k - |old(particles)|], particles[k])
      ensures countSlider.Some? && countSlider.value.Some? && countSlider.value.value < |old(particles)| ==>
        particles == old(particles)[..SpliceKeep(countSlider.value.value, |old(particles)|)]
      ensures isRunning == old(isRunning) && lastUpdateTime == old(lastUpdateTime) && animationId == old(animationId)
    {
      if countSlider.None? || countSlider.value.None? {
        return;
      }
      var target := countSlider.value.value;
      var current := |particles|;
      if target > current {
        var temperature := temperatureSlider.GetOr(DEFAULT_TEMPERATURE);
        var bound := Min(target, MAX_PARTICLES);
        var i := current;
        while i < bound
          invariant current <= i && |particles| == i
          invariant i <= Max(current, bound)
          invariant particles[..current] == old(particles)
          invariant forall k :: current <= k < i ==>
            fresh(particles[k]) && SpawnedFrom(mth, box, temperature, draws[k - current], particles[k])
          invariant isRunning == old(isRunning) && lastUpdateTime == old(lastUpdateTime) && animationId == old(animationId)
        {
          var p := Spawn(mth, box, temperature, draws[i - current]);
          particles := particles + [p];
          i := i + 1;
        }
      } else if target < current {
        particles := particles[..SpliceKeep(target, current)];
      }
    }
  }

  /** A smaller non-negative target keeps exactly the first `target` particles. */
  lemma ShrinkKeepsPrefix(ps: seq<Particle>, target: int)
    requires 0 <= target < |ps|
    ensures ps[..SpliceKeep(target, |ps|)] == ps[..target] && |ps[..SpliceKeep(target, |ps|)]| == target
  {
  }
}
