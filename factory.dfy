/** The entity factory of the Matter-based simulation: the four static walls around the box
    and the particle bodies with their spawn positions and initial velocities. Matter body
    objects are modelled by the fields the factory sets. */
module Factory {
  import opened Common
  import opened MathLib
  import opened Physics
  import opened Distributions

  const DEFAULT_WALL_THICKNESS: real := 50.0
  const DEFAULT_RADIUS: real := 5.0
  const DEFAULT_DISTRIBUTION: string := "maxwell"
  const DEFAULT_SPAWN_TEMPERATURE: real := 300.0
  const DEFAULT_SPAWN_MOLAR_MASS: real := 28.0

  /** `Bodies.rectangle(cx, cy, w, h)`: a rectangle given by its centre and size. */
  datatype Rect = Rect(cx: real, cy: real, w: real, h: real) {
    function Left(): real { cx - w / 2.0 }
    function Right(): real { cx + w / 2.0 }
    function Top(): real { cy - h / 2.0 }
    function Bottom(): real { cy + h / 2.0 }
  }

  datatype Wall = Wall(name: string, rect: Rect, isStatic: bool)

  /** `createWalls({width, height, thickness})`; `None` is an undefined thickness, which
      defaults to 50. */
  function CreateWalls(width: real, height: real, thickness: Option<real>): (walls: seq<Wall>)
    ensures |walls| == 4
    ensures forall i :: 0 <= i < 4 ==> walls[i].isStatic
    ensures walls[0].name == "topWall" && walls[1].name == "bottomWall"
    ensures walls[2].name == "leftWall" && walls[3].name == "rightWall"
  {
    var t := thickness.GetOr(DEFAULT_WALL_THICKNESS);
    var half := t / 2.0;
    [ Wall("topWall", Rect(width / 2.0, -half, width, t), true),
      Wall("bottomWall", Rect(width / 2.0, height + half, width, t), true),
      Wall("leftWall", Rect(-half, height / 2.0, t, height), true),
      Wall("rightWall", Rect(width + half, height / 2.0, t, height), true) ]
  }

  /** The walls lie just outside the box [0, w] × [0, h]: their inner faces are its border
      and each is `t` thick. */
  lemma WallsFrameTheBox(width: real, height: real, thickness: Option<real>)
    ensures var walls, t := CreateWalls(width, height, thickness), thickness.GetOr(DEFAULT_WALL_THICKNESS);
      && walls[0].rect.Top() == -t && walls[0].rect.Bottom() == 0.0
      && walls[1].rect.Top() == height && walls[1].rect.Bottom() == height + t
      && walls[2].rect.Left() == -t && walls[2].rect.Right() == 0.0
      && walls[3].rect.Left() == width && walls[3].rect.Right() == width + t
      && walls[0].rect.Left() == 0.0 && walls[0].rect.Right() == width
      && walls[1].rect.Left() == 0.0 && walls[1].rect.Right() == width
      && walls[2].rect.Top() == 0.0 && walls[2].rect.Bottom() == height
      && walls[3].rect.Top() == 0.0 && walls[3].rect.Bottom() == height
  {
  }

  /** What the factory sets on a particle body. */
  datatype ParticleBody = ParticleBody(
    position: Vec2, radius: real, restitution: real, frictionAir: real, name: string, velocity: Vec2)

  /** The random numbers one particle consumes: two for the position, then up to two for its
      velocity (the Maxwell generator uses both, the single-speed one only `a`). */
  datatype ParticleDraws = ParticleDraws(ux: real, uy: real, a: real, b: real)

  /** The options of `createParticles`; `None` is an undefined option. */
  datatype SpawnOptions = SpawnOptions(
    count: real, width: real, height: real, radius: Option<real>, distribution: Option<string>,
    temperature: Option<Num>, molarMass: Option<Num>)
  {
    function Radius(): real { radius.GetOr(DEFAULT_RADIUS) }
    function Distribution(): string { distribution.GetOr(DEFAULT_DISTRIBUTION) }
    function Temperature(): Num { temperature.GetOr(Fin(DEFAULT_SPAWN_TEMPERATURE)) }
    function MolarMass(): Num { molarMass.GetOr(Fin(DEFAULT_SPAWN_MOLAR_MASS)) }
  }

  /** `u · span + r`, where span = extent − 2r is the room left for the centre. */
  function SpawnCoord(u: real, span: real, r: real): real {
    u * span + r
  }

  /** With a draw in [0, 1) and positive room, the coordinate lies in [r, r + span). */
  lemma SpawnCoordInRange(u: real, span: real, r: real)
    requires 0.0 <= u < 1.0 && 0.0 < span
    ensures r <= SpawnCoord(u, span, r) < r + span
  {
    MulLeft(0.0, u, span);
    MulStrict(u, 1.0, span);
  }

  /** The generator chosen by the distribution option: 'single', 'dual', and the Maxwell
      generator for anything else. */
  function DispatchVelocity(mth: Transcendentals, scale: SpeedScale, distribution: string,
                            temperature: Num, molarMass: Num, d: ParticleDraws): Vec2
    reads scale
    requires scale.Valid() && Lawful(mth) && PhysicalInputs(temperature, molarMass)
  {
    if distribution == "single" then SingleSpeedVelocity(mth, scale, temperature, molarMass, d.a)
    else if distribution == "dual" then DualSpeedVelocity(mth, scale, temperature, molarMass, d.a, d.b)
    else MaxwellVelocity(mth, scale, temperature, molarMass, d.a, d.b)
  }

  /** One particle body built from its draws. */
  function SpawnParticle(mth: Transcendentals, scale: SpeedScale, o: SpawnOptions, d: ParticleDraws): ParticleBody
    reads scale
    requires scale.Valid() && Lawful(mth) && PhysicalInputs(o.Temperature(), o.MolarMass())
  {
    var r := o.Radius();
    ParticleBody(
      Vec2(SpawnCoord(d.ux, o.width - 2.0 * r, r), SpawnCoord(d.uy, o.height - 2.0 * r, r)), r, 1.0, 0.0, "particle",
      DispatchVelocity(mth, scale, o.Distribution(), o.Temperature(), o.MolarMass(), d))
  }

  /** How often the loop `for (i = 0; i < count; i++)` runs: the least n ≥ 0 with n ≥ count. */
  function LoopCount(count: real): (n: nat)
    ensures (n as real) >= count
    ensures n > 0 ==> ((n - 1) as real) < count
  {
    if count <= 0.0 then 0 else Ceil(count)
  }

  /** A whole, non-negative count gives exactly that many particles. */
  lemma LoopCountOfWholeNumber(count: nat)
    ensures LoopCount(count as real) == count
  {
  }

  /** `createParticles(options)` with one set of draws per particle. */
  method CreateParticles(mth: Transcendentals, scale: SpeedScale, o: SpawnOptions, draws: seq<ParticleDraws>)
    returns (particles: seq<ParticleBody>)
    requires scale.Valid() && Lawful(mth) && PhysicalInputs(o.Temperature(), o.MolarMass())
    requires |draws| >= LoopCount(o.count)
    ensures |particles| == LoopCount(o.count)
    ensures forall i :: 0 <= i < |particles| ==> particles[i] == SpawnParticle(mth, scale, o, draws[i])
  {
    particles := [];
    var i: nat := 0;
    while (i as real) < o.count
      invariant i <= LoopCount(o.count) && |particles| == i
      invariant forall k :: 0 <= k < i ==> particles[k] == SpawnParticle(mth, scale, o, draws[k])
      decreases LoopCount(o.count) - i
    {
      var r := o.Radius();
      var x := draws[i].ux * (o.width - 2.0 * r) + r;
      var y := draws[i].uy * (o.height - 2.0 * r) + r;
      var v := DispatchVelocity(mth, scale, o.Distribution(), o.Temperature(), o.MolarMass(), draws[i]);
      particles := particles + [ParticleBody(Vec2(x, y), r, 1.0, 0.0, "particle", v)];
      i := i + 1;
    }
  }

  /** Every spawned body is perfectly elastic, has no air friction, and with draws in [0, 1)
      sits at least one radius inside the box. */
  lemma SpawnedParticleShape(mth: Transcendentals, scale: SpeedScale, o: SpawnOptions, d: ParticleDraws)
    requires scale.Valid() && Lawful(mth) && PhysicalInputs(o.Temperature(), o.MolarMass())
    requires 0.0 <= d.ux < 1.0 && 0.0 <= d.uy < 1.0
    requires o.width - 2.0 * o.Radius() > 0.0 && o.height - 2.0 * o.Radius() > 0.0
    ensures var p := SpawnParticle(mth, scale, o, d);
      && p.restitution == 1.0 && p.frictionAir == 0.0 && p.name == "particle" && p.radius == o.Radius()
      && p.radius <= p.position.x < o.width - p.radius
      && p.radius <= p.position.y < o.height - p.radius
  {
    SpawnCoordInRange(d.ux, o.width - 2.0 * o.Radius(), o.Radius());
    SpawnCoordInRange(d.uy, o.height - 2.0 * o.Radius(), o.Radius());
  }

  /** The speed of a spawned particle is the one its generator promises: scale·vp for
      'single', one of the two clusters for 'dual'; for any other option the Maxwell
      generator's squared speed −2·ln(u1')·std². */
  lemma SpawnedSpeed(mth: Transcendentals, scale: SpeedScale, distribution: string,
                     temperature: Num, molarMass: Num, d: ParticleDraws)
    requires scale.Valid() && Lawful(mth) && PhysicalInputs(temperature, molarMass)
    requires 0.0 <= d.a <= 1.0
    ensures distribution == "single" ==>
      Sqrt(mth, SquaredLength(DispatchVelocity(mth, scale, distribution, temperature, molarMass, d)))
        == PixelSpeed(mth, scale, temperature, molarMass)
    ensures distribution == "dual" ==>
      Sqrt(mth, SquaredLength(DispatchVelocity(mth, scale, distribution, temperature, molarMass, d)))
        == if d.b < 0.5 then DualSpeeds(mth, scale, temperature, molarMass).0
           else DualSpeeds(mth, scale, temperature, molarMass).1
    ensures distribution != "single" && distribution != "dual" ==>
      SquaredLength(DispatchVelocity(mth, scale, distribution, temperature, molarMass, d))
        == -2.0 * Log(mth, NonZeroDraw(d.a))
           * (MaxwellStd(mth, scale, temperature, molarMass) * MaxwellStd(mth, scale, temperature, molarMass))
  {
    var v := DispatchVelocity(mth, scale, distribution, temperature, molarMass, d);
    if distribution == "single" {
      assert v == SingleSpeedVelocity(mth, scale, temperature, molarMass, d.a);
      SingleSpeedMagnitude(mth, scale, temperature, molarMass, d.a);
    } else if distribution == "dual" {
      assert v == DualSpeedVelocity(mth, scale, temperature, molarMass, d.a, d.b);
      DualSpeedMagnitude(mth, scale, temperature, molarMass, d.a, d.b);
    } else {
      assert v == MaxwellVelocity(mth, scale, temperature, molarMass, d.a, d.b);
      MaxwellSquaredLength(mth, scale, temperature, molarMass, d.a, d.b);
    }
  }
}
