/**
  The game's mutable world: the ship, the projectile and asteroid lists, the score and
  the asteroid speed multiplier, and the held keys. `Animate` is the simulation part of
  one animation frame, `Spawn` the body of the one-second spawn timer, `KeyDown` and
  `KeyUp` the keyboard handlers. Each is proved to leave exactly the state the
  functions of Population and Entities describe.
 */
module Game {
  import opened Numerics
  import opened Geometry
  import opened Entities
  import opened Population

  class SimulationState {
    const view: Viewport
    const ship: Ship
    var projectiles: seq<Projectile>
    var asteroids: seq<Asteroid>
    var score: int
    var asteroidSpeedMultiplier: real
    var keys: Keys

    /** The game at load time: the ship at rest in the middle of the canvas, nothing else. */
    constructor (view: Viewport)
      ensures this.view == view && fresh(ship)
      ensures ship.position == Vec(view.width / 2.0, view.height / 2.0)
      ensures ship.velocity == Origin && ship.rotation == 0.0
      ensures projectiles == [] && asteroids == [] && keys == NoKeys
      ensures score == 0 && asteroidSpeedMultiplier == 0.5
    {
      this.view := view;
      ship := new Ship(Vec(view.width / 2.0, view.height / 2.0), Vec(0.0, 0.0));
      projectiles := [];
      asteroids := [];
      score := 0;
      asteroidSpeedMultiplier := 0.5;
      keys := Keys(false, false, false);
    }

    /** The part of the state the asteroid pass works on. */
    function Pass(gameOver: bool): PassState
      reads this
    {
      PassState(asteroids, projectiles, score, asteroidSpeedMultiplier, gameOver)
    }

    /** The projectile loop of a frame: from the last slot down, move, then splice out if off screen. */
    method UpdateProjectiles()
      modifies this
      ensures projectiles == UpdateAndCull(old(projectiles), view)
      ensures asteroids == old(asteroids) && score == old(score)
      ensures asteroidSpeedMultiplier == old(asteroidSpeedMultiplier) && keys == old(keys)
    {
      ghost var ps0 := projectiles;
      var i := |projectiles| - 1;
      while i >= 0
        invariant -1 <= i < |ps0|
        invariant projectiles == ps0[..i + 1] + UpdateAndCull(ps0[i + 1..], view)
        invariant asteroids == old(asteroids) && score == old(score)
        invariant asteroidSpeedMultiplier == old(asteroidSpeedMultiplier) && keys == old(keys)
        decreases i
      {
        CullStep(ps0, view, i);
        var projectile := projectiles[i].Updated();
        projectiles := projectiles[i := projectile];
        if OffScreen(projectile.Disc(), view) {
          projectiles := Splice(projectiles, i);
        }
        i := i - 1;
      }
      assert ps0[0..] == ps0;
    }

    /**
      One turn of the asteroid loop at slot i: the struck-ship test, the cull, then the
      reverse scan over projectiles that resolves the first hit and stops.
     */
    method VisitAsteroid(i: nat, hull: seq<Vec>, trig: Trig, draws: PassDraws, gameOver: bool)
      returns (gameOverAfter: bool)
      requires i < |asteroids| && |hull| == 3
      modifies this
      ensures Pass(gameOverAfter) == Visit(old(Pass(gameOver)), i, hull, view, trig, draws)
      ensures keys == old(keys)
    {
      ghost var st := Pass(gameOver);
      var asteroid;
      asteroid, gameOverAfter := MoveAndCull(i, hull, gameOver);
      var j := |projectiles| - 1;
      while j >= 0
        invariant -1 <= j < |projectiles|
        invariant Pass(gameOverAfter) == AfterCull(st, i, hull, view)
        invariant forall k :: j < k < |projectiles| ==> !CircleCollision(asteroid.Disc(), projectiles[k].Disc())
        invariant keys == old(keys)
        decreases j
      {
        if CircleCollision(asteroid.Disc(), projectiles[j].Disc()) {
          assert j == LastHit(asteroid.Disc(), projectiles);
          ResolveHit(i, j, asteroid, trig, draws);
          return;
        }
        j := j - 1;
      }
      assert LastHit(asteroid.Disc(), projectiles) == -1;
    }

    /** The first steps of the asteroid loop's turn at slot i: move, test against the ship, cull. */
    method MoveAndCull(i: nat, hull: seq<Vec>, gameOver: bool) returns (asteroid: Asteroid, gameOverAfter: bool)
      requires i < |asteroids| && |hull| == 3
      modifies this
      ensures asteroid == Moved(old(Pass(gameOver)), i)
      ensures Pass(gameOverAfter) == AfterCull(old(Pass(gameOver)), i, hull, view)
      ensures keys == old(keys)
    {
      asteroid := asteroids[i].Updated();
      asteroids := asteroids[i := asteroid];
      gameOverAfter := gameOver;
      if CircleTriangleCollision(asteroid.Disc(), hull) {
        gameOverAfter := true;
        score := 0;
      }
      if OffScreen(asteroid.Disc(), view) {
        asteroids := Splice(asteroids, i);
      }
    }

    /** The split: the two halves of asteroid pushed onto the asteroid list, in draw order. */
    method AddChildren(asteroid: Asteroid, i: nat, trig: Trig, draws: PassDraws)
      modifies this
      ensures asteroids == old(asteroids) + Children(asteroid, i, trig, draws)
      ensures projectiles == old(projectiles) && keys == old(keys)
      ensures score == old(score) && asteroidSpeedMultiplier == old(asteroidSpeedMultiplier)
    {
      var newRadius := asteroid.radius / 2.0;
      var k: nat := 0;
      while k < 2
        invariant k <= 2
        invariant asteroids == old(asteroids) + Children(asteroid, i, trig, draws)[..k]
        invariant projectiles == old(projectiles) && keys == old(keys)
        invariant score == old(score) && asteroidSpeedMultiplier == old(asteroidSpeedMultiplier)
      {
        var d := draws.child(i, k);
        var angle := d.heading * trig.pi * 2.0;
        assert angle == RandomAngle(d.heading, trig);
        var child := NewAsteroid(Vec(asteroid.position.x, asteroid.position.y),
                                 Vec(trig.cos(angle) * ASTEROID_SPEED, trig.sin(angle) * ASTEROID_SPEED),
                                 newRadius, d.shape, trig);
        assert child == Child(asteroid, i, k, trig, draws);
        asteroids := asteroids + [child];
        k := k + 1;
      }
      assert Children(asteroid, i, trig, draws)[..2] == Children(asteroid, i, trig, draws);
    }

    /** The body of the hit branch: drop projectile j, split or score, drop slot i. */
    method ResolveHit(i: nat, j: nat, asteroid: Asteroid, trig: Trig, draws: PassDraws)
      modifies this
      ensures Pass(false) == Resolve(old(Pass(false)), asteroid, i, j, trig, draws)
      ensures keys == old(keys)
    {
      projectiles := Splice(projectiles, j);
      if asteroid.radius > 20.0 {
        AddChildren(asteroid, i, trig, draws);
      } else {
        score := score + 1;
        asteroidSpeedMultiplier := asteroidSpeedMultiplier + 1.0;
        // The speed-up loop runs once per listed asteroid but rewrites only the struck
        // asteroid's velocity, and that asteroid is spliced out just below.
        var struck := asteroid;
        var t := 0;
        while t < |asteroids| {
          var speed := trig.hypot(struck.velocity.x, struck.velocity.y);
          var angle := trig.atan2(struck.velocity.y, struck.velocity.x);
          var newSpeed := speed + 1.0;
          struck := struck.(velocity := Vec(trig.cos(angle) * newSpeed, trig.sin(angle) * newSpeed));
          t := t + 1;
        }
      }
      asteroids := Splice(asteroids, i);
    }

    /** The asteroid loop of a frame: every slot, from the last down, visited against hull. */
    method VisitAll(hull: seq<Vec>, trig: Trig, draws: PassDraws) returns (gameOver: bool)
      requires |hull| == 3
      modifies this
      ensures Pass(gameOver) == AsteroidPass(old(Pass(false)), |old(asteroids)| - 1, hull, view, trig, draws)
      ensures keys == old(keys)
    {
      gameOver := false;
      ghost var start := Pass(false);
      var i := |asteroids| - 1;
      while i >= 0
        invariant -1 <= i < |asteroids|
        invariant AsteroidPass(Pass(gameOver), i, hull, view, trig, draws) ==
                  AsteroidPass(start, |start.asteroids| - 1, hull, view, trig, draws)
        invariant keys == old(keys)
        decreases i
      {
        gameOver := VisitAsteroid(i, hull, trig, draws, gameOver);
        i := i - 1;
      }
    }

    /**
      The simulation part of one frame, in the game's order: the ship moves; projectiles
      move and are culled; each asteroid, from the last slot down, is visited against the
      ship's hull; then thrust or friction and turning update the ship. The result says
      whether the ship was struck (the game's alert and cancellation are not modelled).
     */
    method Animate(trig: Trig, draws: PassDraws) returns (gameOver: bool)
      modifies this, ship
      ensures ship.position == old(ship.position).Plus(old(ship.velocity))
      ensures var hull := ShipVertices(ship.position, old(ship.rotation), trig);
              var start := PassState(old(asteroids), UpdateAndCull(old(projectiles), view), old(score),
                                     old(asteroidSpeedMultiplier), false);
              Pass(gameOver) == AsteroidPass(start, |old(asteroids)| - 1, hull, view, trig, draws)
      ensures ship.velocity == Thrusted(keys, old(ship.velocity), old(ship.rotation), trig)
      ensures ship.rotation == Turned(keys, old(ship.rotation))
      ensures keys == old(keys)
    {
      ship.Update();
      UpdateProjectiles();
      gameOver := VisitAll(ShipVertices(ship.position, ship.rotation, trig), trig, draws);
      ship.Steer(keys, trig);
    }

    /** The spawn timer's body: one new asteroid at a random edge, aimed at a random point. */
    method Spawn(trig: Trig, d: SpawnDraws)
      modifies this
      ensures asteroids == old(asteroids) + [SpawnedAsteroid(view, old(asteroidSpeedMultiplier), trig, d)]
      ensures projectiles == old(projectiles) && score == old(score)
      ensures asteroidSpeedMultiplier == old(asteroidSpeedMultiplier) && keys == old(keys)
    {
      var index := (d.side * 4.0).Floor;
      var x: real, y: real;
      var radius := 50.0 * d.size + 10.0;
      assert 0 <= index <= 3 by {
        assert index == SpawnSide(d.side);
      }
      if index == 0 {
        x := 0.0 - radius;
        y := Along(d.along, view.height);
      } else if index == 1 {
        x := Along(d.along, view.width);
        y := view.height + radius;
      } else if index == 2 {
        x := view.width + radius;
        y := Along(d.along, view.height);
      } else {
        x := Along(d.along, view.width);
        y := 0.0 + radius;
      }
      var targetX := Along(d.targetX, view.width);
      var targetY := Along(d.targetY, view.height);
      var angle := trig.atan2(targetY - y, targetX - x);
      var vx := trig.cos(angle) * ASTEROID_SPEED * asteroidSpeedMultiplier;
      var vy := trig.sin(angle) * ASTEROID_SPEED * asteroidSpeedMultiplier;
      var asteroid := NewAsteroid(Vec(x, y), Vec(vx, vy), radius, d.shape, trig);
      assert index == SpawnSide(d.side) && radius == SpawnRadius(d.size);
      assert Vec(x, y) == SpawnPoint(index, radius, d.along, view);
      assert Vec(vx, vy) == SpawnVelocity(Vec(x, y), asteroidSpeedMultiplier, view, trig, d);
      asteroids := asteroids + [asteroid];
    }

    /** The keydown handler: raise the key's flag; Space fires a projectile from the nose. */
    method KeyDown(code: string, trig: Trig)
      modifies this
      ensures keys == Pressed(old(keys), code)
      ensures projectiles == old(projectiles) +
                (if code == "Space" then [FiredProjectile(ship.position, ship.rotation, trig)] else [])
      ensures asteroids == old(asteroids) && score == old(score)
      ensures asteroidSpeedMultiplier == old(asteroidSpeedMultiplier)
    {
      if code == "KeyW" || code == "ArrowUp" {
        keys := keys.(w := true);
      } else if code == "KeyA" || code == "ArrowLeft" {
        keys := keys.(a := true);
      } else if code == "KeyD" || code == "ArrowRight" {
        keys := keys.(d := true);
      } else if code == "Space" {
        projectiles := projectiles + [Projectile(
          Vec(ship.position.x + trig.cos(ship.rotation) * 30.0, ship.position.y + trig.sin(ship.rotation) * 30.0),
          Vec(trig.cos(ship.rotation) * PROJECTILE_SPEED, trig.sin(ship.rotation) * PROJECTILE_SPEED))];
      }
    }

    /** The keyup handler: lower the key's flag. */
    method KeyUp(code: string)
      modifies this
      ensures keys == Released(old(keys), code)
      ensures projectiles == old(projectiles) && asteroids == old(asteroids)
      ensures score == old(score) && asteroidSpeedMultiplier == old(asteroidSpeedMultiplier)
    {
      if code == "KeyW" || code == "ArrowUp" {
        keys := keys.(w := false);
      } else if code == "KeyA" || code == "ArrowLeft" {
        keys := keys.(a := false);
      } else if code == "KeyD" || code == "ArrowRight" {
        keys := keys.(d := false);
      }
    }
  }
}
