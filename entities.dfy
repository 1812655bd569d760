/**
  The moving bodies of the game: the player's ship, projectiles and asteroids, how
  each advances by one frame, the ship's triangular hull, the outline an asteroid is
  given when it is created, and the keyboard controls that steer the ship.
 */
module Entities {
  import opened Numerics
  import opened Geometry

  const SPEED: real := 6.0
  const ROTATIONAL_SPEED: real := 0.1
  const FRICTION: real := 0.96
  const PROJECTILE_SPEED: real := 7.0
  const ASTEROID_SPEED: real := 2.0
  const PROJECTILE_RADIUS: real := 5.0
  /** Rotation an asteroid gains per frame. */
  const SPIN: real := 0.005

  datatype Option<T> = None | Some(value: T)

  /** v turned by the angle whose cosine is c and whose sine is s. */
  function Rotate(v: Vec, c: real, s: real): Vec {
    Vec(c * v.x - s * v.y, s * v.x + c * v.y)
  }

  /** A rotation by a unit (c, s) keeps squared distances. */
  lemma RotatePreservesDist2(u: Vec, v: Vec, c: real, s: real)
    requires c * c + s * s == 1.0
    ensures Dist2(Rotate(u, c, s), Rotate(v, c, s)) == Dist2(u, v)
  {
    var dx, dy := v.x - u.x, v.y - u.y;
    var ru, rv := Rotate(u, c, s), Rotate(v, c, s);
    assert rv.x - ru.x == c * dx - s * dy;
    assert rv.y - ru.y == s * dx + c * dy;
    calc {
      Dist2(ru, rv);
      (c * dx - s * dy) * (c * dx - s * dy) + (s * dx + c * dy) * (s * dx + c * dy);
      (c * c + s * s) * (dx * dx) + (c * c + s * s) * (dy * dy);
      dx * dx + dy * dy;
    }
  }

  lemma TranslatePreservesDist2(p: Vec, u: Vec, v: Vec)
    ensures Dist2(p.Plus(u), p.Plus(v)) == Dist2(u, v)
  {
  }

  // ---------------------------------------------------------------- the ship

  /** The ship's outline before rotation: nose ahead, two rear corners. */
  const HULL: seq<Vec> := [Vec(30.0, 0.0), Vec(-10.0, 10.0), Vec(-10.0, -10.0)]

  /**
    Player.getVerticies: the hull turned by the ship's rotation and placed at its
    position, computed term by term as the game does.
   */
  function ShipVertices(position: Vec, rotation: real, trig: Trig): (r: seq<Vec>)
    ensures |r| == 3
    ensures forall k :: 0 <= k < 3 ==>
              r[k] == position.Plus(Rotate(HULL[k], trig.cos(rotation), trig.sin(rotation)))
    ensures r[0] == Vec(position.x + 30.0 * trig.cos(rotation), position.y + 30.0 * trig.sin(rotation))
  {
    var cos, sin := trig.cos(rotation), trig.sin(rotation);
    [ Vec(position.x + cos * 30.0 - sin * 0.0, position.y + sin * 30.0 + cos * 0.0),
      Vec(position.x + cos * -10.0 - sin * 10.0, position.y + sin * -10.0 + cos * 10.0),
      Vec(position.x + cos * -10.0 - sin * -10.0, position.y + sin * -10.0 + cos * -10.0) ]
  }

  /** The hull is a rigid copy of HULL: its squared side lengths are 1700, 400 and 1700. */
  lemma ShipHullIsRigid(position: Vec, rotation: real, trig: Trig)
    requires Pythagorean(trig)
    ensures var r := ShipVertices(position, rotation, trig);
            Dist2(r[0], r[1]) == 1700.0 && Dist2(r[1], r[2]) == 400.0 && Dist2(r[2], r[0]) == 1700.0
  {
    var r := ShipVertices(position, rotation, trig);
    var c, s := trig.cos(rotation), trig.sin(rotation);
    assert c * c + s * s == 1.0;
    forall j, k | 0 <= j < 3 && 0 <= k < 3
      ensures Dist2(r[j], r[k]) == Dist2(HULL[j], HULL[k])
    {
      TranslatePreservesDist2(position, Rotate(HULL[j], c, s), Rotate(HULL[k], c, s));
      RotatePreservesDist2(HULL[j], HULL[k], c, s);
    }
    assert Dist2(HULL[0], HULL[1]) == 1700.0;
    assert Dist2(HULL[1], HULL[2]) == 400.0;
    assert Dist2(HULL[2], HULL[0]) == 1700.0;
  }

  /** Player: moved by its velocity each frame, steered by the controls. */
  class Ship {
    var position: Vec
    var velocity: Vec
    var rotation: real

    constructor (position: Vec, velocity: Vec)
      ensures this.position == position && this.velocity == velocity && rotation == 0.0
    {
      this.position := position;
      this.velocity := velocity;
      rotation := 0.0;
    }

    /** Player.update: one step along the velocity; velocity and heading are kept. */
    method Update()
      modifies this
      ensures position == old(position).Plus(old(velocity))
      ensures velocity == old(velocity) && rotation == old(rotation)
    {
      position := Vec(position.x + velocity.x, position.y + velocity.y);
    }

    /** The controls at the end of a frame: thrust or friction, then turning. */
    method Steer(keys: Keys, trig: Trig)
      modifies this
      ensures velocity == Thrusted(keys, old(velocity), old(rotation), trig)
      ensures rotation == Turned(keys, old(rotation))
      ensures position == old(position)
    {
      if keys.w {
        velocity := Vec(trig.cos(rotation) * SPEED, trig.sin(rotation) * SPEED);
      } else if !keys.w {
        velocity := Vec(velocity.x * FRICTION, velocity.y * FRICTION);
      }
      if keys.d {
        rotation := rotation + ROTATIONAL_SPEED;
      } else if keys.a {
        rotation := rotation - ROTATIONAL_SPEED;
      }
    }
  }

  // ---------------------------------------------------------------- projectiles

  datatype Projectile = Projectile(position: Vec, velocity: Vec) {
    /** Projectile.update. */
    function Updated(): (r: Projectile)
      ensures r.position == position.Plus(velocity) && r.velocity == velocity
    {
      Projectile(Vec(position.x + velocity.x, position.y + velocity.y), velocity)
    }

    /** The projectile as a collision circle of radius 5. */
    function Disc(): Circle {
      Circle(position, PROJECTILE_RADIUS)
    }

    function UpdatedTimes(n: nat): Projectile
      decreases n
    {
      if n == 0 then this else Updated().UpdatedTimes(n - 1)
    }
  }

  /** After n frames a projectile has moved by n times its unchanged velocity. */
  lemma {:induction false} ProjectileDrift(p: Projectile, n: nat)
    ensures p.UpdatedTimes(n) == Projectile(Vec(p.position.x + (n as real) * p.velocity.x,
                                                p.position.y + (n as real) * p.velocity.y), p.velocity)
    decreases n
  {
    if n > 0 {
      ProjectileDrift(p.Updated(), n - 1);
    }
  }

  /**
    The projectile the Space key fires: at the ship's position plus 30 along its
    heading, moving at PROJECTILE_SPEED along that heading.
   */
  function FiredProjectile(position: Vec, rotation: real, trig: Trig): (r: Projectile)
    ensures r.velocity.x * 30.0 == (r.position.x - position.x) * PROJECTILE_SPEED
    ensures r.velocity.y * 30.0 == (r.position.y - position.y) * PROJECTILE_SPEED
  {
    Projectile(Vec(position.x + trig.cos(rotation) * 30.0, position.y + trig.sin(rotation) * 30.0),
               Vec(trig.cos(rotation) * PROJECTILE_SPEED, trig.sin(rotation) * PROJECTILE_SPEED))
  }

  /** With unit-circle trig, moving k along a heading is moving at squared speed k * k. */
  lemma HeadingSpeed(trig: Trig, angle: real, k: real)
    ensures Pythagorean(trig) ==> Dist2(Origin, Vec(trig.cos(angle) * k, trig.sin(angle) * k)) == k * k
  {
    if Pythagorean(trig) {
      var c, s := trig.cos(angle), trig.sin(angle);
      assert c * c + s * s == 1.0;
      ScaledUnitLength(c, s, k);
    }
  }

  /** A fired projectile leaves from the ship's nose at squared speed 49. */
  lemma FiredFromNose(position: Vec, rotation: real, trig: Trig)
    ensures FiredProjectile(position, rotation, trig).position == ShipVertices(position, rotation, trig)[0]
    ensures Pythagorean(trig) ==> Dist2(Origin, FiredProjectile(position, rotation, trig).velocity) == 49.0
  {
    if Pythagorean(trig) {
      var c, s := trig.cos(rotation), trig.sin(rotation);
      assert c * c + s * s == 1.0;
      ScaledUnitLength(c, s, PROJECTILE_SPEED);
    }
  }

  // ---------------------------------------------------------------- asteroids

  datatype Asteroid = Asteroid(position: Vec, velocity: Vec, radius: real, rotation: real, vertices: seq<Vec>) {
    /** Asteroid.update: moved by its velocity and spun by SPIN. */
    function Updated(): (r: Asteroid)
      ensures r.position == position.Plus(velocity) && r.velocity == velocity
      ensures r.rotation == rotation + SPIN && r.radius == radius && r.vertices == vertices
    {
      Asteroid(Vec(position.x + velocity.x, position.y + velocity.y), velocity, radius,
               rotation + 0.005, vertices)
    }

    /** The asteroid collides as the circle of its radius (its outline is drawn only). */
    function Disc(): Circle {
      Circle(position, radius)
    }

    function UpdatedTimes(n: nat): Asteroid
      decreases n
    {
      if n == 0 then this else Updated().UpdatedTimes(n - 1)
    }
  }

  /** After n frames an asteroid has drifted by n velocities and spun by n * SPIN, its shape kept. */
  lemma {:induction false} AsteroidDrift(a: Asteroid, n: nat)
    ensures var b := a.UpdatedTimes(n);
            b.position == Vec(a.position.x + (n as real) * a.velocity.x, a.position.y + (n as real) * a.velocity.y) &&
            b.rotation == a.rotation + (n as real) * SPIN &&
            b.velocity == a.velocity && b.radius == a.radius && b.vertices == a.vertices
    decreases n
  {
    if n > 0 {
      AsteroidDrift(a.Updated(), n - 1);
    }
  }

  /** The `Math.random()` draws the Asteroid constructor makes, in its order. */
  datatype ShapeDraws = ShapeDraws(rotation: Unit, steps: Unit, variation: nat -> Unit)

  /** `Math.floor(Math.random() * 5 + 5)`: the outline has 5 to 9 vertices. */
  function StepCount(d: Unit): (n: nat)
    ensures 5 <= n <= 9
  {
    (d * 5.0 + 5.0).Floor
  }

  /** `Math.random() * 0.4 + 0.8`: a vertex's distance from the centre, in radii. */
  function Variation(d: Unit): (v: real)
    ensures 0.8 <= v < 1.2
  {
    d * 0.4 + 0.8
  }

  /** The angle of vertex i among `steps` evenly spaced ones. */
  function OutlineAngle(i: nat, steps: nat, trig: Trig): real
    requires 0 < steps
  {
    (trig.pi * 2.0 * (i as real)) / (steps as real)
  }

  /** Vertex i of an outline of `steps` vertices, scaled by its variation. */
  function OutlineVertex(radius: real, i: nat, steps: nat, draws: ShapeDraws, trig: Trig): Vec
    requires 0 < steps
  {
    var angle := OutlineAngle(i, steps, trig);
    var variation := Variation(draws.variation(i));
    Vec(trig.cos(angle) * radius * variation, trig.sin(angle) * radius * variation)
  }

  /** The outline the constructor builds, vertex by vertex. */
  function Outline(radius: real, draws: ShapeDraws, trig: Trig): (r: seq<Vec>)
    ensures 5 <= |r| <= 9
  {
    var steps := StepCount(draws.steps);
    seq(steps, i requires 0 <= i < steps => OutlineVertex(radius, i, steps, draws, trig))
  }

  /** `Math.random() * Math.PI * 2`: an angle drawn from a full turn. */
  function RandomAngle(u: Unit, trig: Trig): real {
    u * trig.pi * 2.0
  }

  /** The asteroid the constructor builds from its arguments and draws. */
  function MakeAsteroid(position: Vec, velocity: Vec, radius: real, draws: ShapeDraws, trig: Trig): (r: Asteroid)
    ensures r.position == position && r.velocity == velocity && r.radius == radius
    ensures 5 <= |r.vertices| <= 9
  {
    Asteroid(position, velocity, radius, RandomAngle(draws.rotation, trig), Outline(radius, draws, trig))
  }

  /**
    The Asteroid constructor: position, velocity and radius as given, a random heading,
    and an outline of StepCount vertices pushed one per loop turn.
   */
  method NewAsteroid(position: Vec, velocity: Vec, radius: real, draws: ShapeDraws, trig: Trig)
    returns (a: Asteroid)
    ensures a.position == position && a.velocity == velocity && a.radius == radius
    ensures a.rotation == RandomAngle(draws.rotation, trig)
    ensures a.vertices == Outline(radius, draws, trig)
    ensures 5 <= |a.vertices| <= 9
    ensures a == MakeAsteroid(position, velocity, radius, draws, trig)
  {
    var rotation := draws.rotation * trig.pi * 2.0;
    var vertices: seq<Vec> := [];
    var steps := StepCount(draws.steps);
    var i: nat := 0;
    while i < steps
      invariant 0 <= i <= steps
      invariant |vertices| == i
      invariant forall j :: 0 <= j < i ==> vertices[j] == OutlineVertex(radius, j, steps, draws, trig)
    {
      var angle := (trig.pi * 2.0 * (i as real)) / (steps as real);
      var variation := draws.variation(i) * 0.4 + 0.8;
      assert angle == OutlineAngle(i, steps, trig);
      vertices := vertices + [Vec(trig.cos(angle) * radius * variation, trig.sin(angle) * radius * variation)];
      i := i + 1;
    }
    a := Asteroid(position, velocity, radius, rotation, vertices);
  }

  /** Every outline vertex lies between 0.8 and 1.2 radii from the asteroid's centre. */
  lemma OutlineWithinBand(radius: real, draws: ShapeDraws, trig: Trig, i: nat)
    requires Pythagorean(trig) && 0.0 <= radius
    requires i < |Outline(radius, draws, trig)|
    ensures var v := Outline(radius, draws, trig)[i];
            (0.8 * radius) * (0.8 * radius) <= Dist2(Origin, v) <= (1.2 * radius) * (1.2 * radius)
  {
    var steps := StepCount(draws.steps);
    var angle := OutlineAngle(i, steps, trig);
    var c, s := trig.cos(angle), trig.sin(angle);
    var k := radius * Variation(draws.variation(i));
    var v := Outline(radius, draws, trig)[i];
    assert v == OutlineVertex(radius, i, steps, draws, trig);
    assert c * c + s * s == 1.0;
    assert v == Vec(c * radius * Variation(draws.variation(i)), s * radius * Variation(draws.variation(i)));
    assert c * radius * Variation(draws.variation(i)) == c * k;
    assert s * radius * Variation(draws.variation(i)) == s * k;
    ScaledUnitLength(c, s, k);
    assert Dist2(Origin, v) == k * k;
    ScaleBounds(radius, Variation(draws.variation(i)), 0.8, 1.2);
    SquareMonotone(0.8 * radius, k);
    SquareMonotone(k, 1.2 * radius);
  }

  // ---------------------------------------------------------------- controls

  /** The three held-key flags of the game. */
  datatype Keys = Keys(w: bool, a: bool, d: bool)

  const NoKeys: Keys := Keys(false, false, false)

  datatype Control = Thrust | TurnLeft | TurnRight

  /** Which flag a key code drives: W/ArrowUp, A/ArrowLeft, D/ArrowRight; any other code none. */
  function ControlOf(code: string): (r: Option<Control>)
    ensures r == Some(Thrust) <==> code == "KeyW" || code == "ArrowUp"
    ensures r == Some(TurnLeft) <==> code == "KeyA" || code == "ArrowLeft"
    ensures r == Some(TurnRight) <==> code == "KeyD" || code == "ArrowRight"
  {
    if code == "KeyW" || code == "ArrowUp" then Some(Thrust)
    else if code == "KeyA" || code == "ArrowLeft" then Some(TurnLeft)
    else if code == "KeyD" || code == "ArrowRight" then Some(TurnRight)
    else None
  }

  function SetFlag(keys: Keys, code: string, held: bool): Keys {
    match ControlOf(code)
    case None => keys
    case Some(Thrust) => keys.(w := held)
    case Some(TurnLeft) => keys.(a := held)
    case Some(TurnRight) => keys.(d := held)
  }

  /** The keydown handler's flag update: the code's flag is raised, the others kept. */
  function Pressed(keys: Keys, code: string): (r: Keys)
    ensures r.w == (keys.w || ControlOf(code) == Some(Thrust))
    ensures r.a == (keys.a || ControlOf(code) == Some(TurnLeft))
    ensures r.d == (keys.d || ControlOf(code) == Some(TurnRight))
  {
    SetFlag(keys, code, true)
  }

  /** The keyup handler: the code's flag is lowered, the others kept. */
  function Released(keys: Keys, code: string): (r: Keys)
    ensures r.w == (keys.w && ControlOf(code) != Some(Thrust))
    ensures r.a == (keys.a && ControlOf(code) != Some(TurnLeft))
    ensures r.d == (keys.d && ControlOf(code) != Some(TurnRight))
  {
    SetFlag(keys, code, false)
  }

  /** Releasing a key undoes pressing it, whatever was held before. */
  lemma ReleaseAfterPress(keys: Keys, code: string)
    ensures Released(Pressed(keys, code), code) == Released(keys, code)
    ensures ControlOf(code).Some? && keys == Released(keys, code) ==> Released(Pressed(keys, code), code) == keys
  {
  }

  /** Thrust and friction: full SPEED along the heading while W is held, else slowed by FRICTION. */
  function Thrusted(keys: Keys, velocity: Vec, rotation: real, trig: Trig): (r: Vec)
    ensures keys.w ==> r.x * trig.sin(rotation) == r.y * trig.cos(rotation)
    ensures !keys.w ==> r.x * velocity.y == r.y * velocity.x
  {
    if keys.w then Vec(trig.cos(rotation) * SPEED, trig.sin(rotation) * SPEED)
    else Vec(velocity.x * FRICTION, velocity.y * FRICTION)
  }

  /** Turning: right (D) wins over left (A), each by ROTATIONAL_SPEED. */
  function Turned(keys: Keys, rotation: real): (r: real)
    ensures -ROTATIONAL_SPEED <= r - rotation <= ROTATIONAL_SPEED
    ensures r != rotation <==> keys.d || keys.a
  {
    if keys.d then rotation + ROTATIONAL_SPEED
    else if keys.a then rotation - ROTATIONAL_SPEED
    else rotation
  }

  /**
    While thrust is held the ship moves at squared speed 36 along its heading; with
    no thrust its velocity shrinks to 0.96 of itself, squared speed 0.9216 of before.
   */
  lemma ThrustAndFriction(keys: Keys, velocity: Vec, rotation: real, trig: Trig)
    ensures var v := Thrusted(keys, velocity, rotation, trig);
            keys.w ==> v.x * trig.sin(rotation) == v.y * trig.cos(rotation) &&
                       (Pythagorean(trig) ==> Dist2(Origin, v) == 36.0)
    ensures var v := Thrusted(keys, velocity, rotation, trig);
            !keys.w ==> v == Vec(0.96 * velocity.x, 0.96 * velocity.y) &&
                        Dist2(Origin, v) == 0.9216 * Dist2(Origin, velocity) &&
                        Dist2(Origin, v) <= Dist2(Origin, velocity)
  {
    var c, s := trig.cos(rotation), trig.sin(rotation);
    if keys.w && Pythagorean(trig) {
      assert c * c + s * s == 1.0;
      ScaledUnitLength(c, s, SPEED);
    }
    if !keys.w {
      var v := Thrusted(keys, velocity, rotation, trig);
      assert Dist2(Origin, v) == 0.9216 * Dist2(Origin, velocity) by {
        calc {
          Dist2(Origin, v);
          (0.96 * velocity.x) * (0.96 * velocity.x) + (0.96 * velocity.y) * (0.96 * velocity.y);
          0.9216 * (velocity.x * velocity.x + velocity.y * velocity.y);
        }
      }
      SquareNonNegative(velocity.x);
      SquareNonNegative(velocity.y);
    }
  }

  /** Holding D turns right whether or not A is held; A alone turns left; neither keeps the heading. */
  lemma TurnPriority(keys: Keys, rotation: real)
    ensures keys.d ==> Turned(keys, rotation) == rotation + 0.1
    ensures !keys.d && keys.a ==> Turned(keys, rotation) == rotation - 0.1
    ensures !keys.d && !keys.a ==> Turned(keys, rotation) == rotation
    ensures Turned(keys.(a := true), rotation) - rotation <= Turned(keys, rotation) - rotation
  {
  }
}
