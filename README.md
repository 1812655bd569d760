# Asteroids simulation core in Dafny

This project models the simulation part of a small browser Asteroids game (`index.js`):

- The player's ship moves by its velocity every frame, and is steered by thrust, friction and turning.
- Projectiles are fired from the ship's nose with the space bar.
- Asteroids spawn once a second at a random edge of the canvas, aimed at a random point inside it.
- Every animation frame, in order:
  1. the ship moves;
  2. projectiles move, and those whose box lies wholly beyond the canvas are spliced out;
  3. each asteroid, from the last slot down, moves, goes through the collision test against the ship's triangular hull, is culled, and goes through the collision test against every projectile from the last one down;
  4. the ship's velocity and heading are updated from the held keys: thrust or friction, then turning.
- The first projectile hit, scanning down from the last, removes that projectile. A large asteroid (radius over 20) splits into two children of half its radius. A small one adds one to the score and one to the speed multiplier of future spawns. Either way slot `i` is spliced out.
- A hit on the ship zeroes the score and ends the game.

The model is split into five modules:

- `Numerics` (`numerics.dfy`): a draw of `Math.random()` is the subset type `Unit` = [0, 1). The transcendental functions come in a `Trig` record, and the predicate `Pythagorean` says that its cosine and sine lie on the unit circle. The file also holds a few real-arithmetic facts.
- `Geometry` (`geometry.dfy`): `circleCollision`, `isPointOnLineSegment` and `circleTriangleCollision`, including the per-edge clamp exactly as the code writes it.
- `Entities` (`entities.dfy`):
  - the constants;
  - the ship as a `class` whose fields `update` and the controls change in place;
  - projectiles and asteroids as values with their one-frame update;
  - `getVerticies`;
  - the Asteroid constructor's outline loop, as a method with a loop invariant;
  - the key-code mapping.
- `Population` (`population.dfy`): what a frame does to the collections, as functions of the state before it:
  - the projectile pass is `UpdateAndCull`;
  - one turn of the asteroid loop is `Visit`;
  - the whole asteroid loop is `AsteroidPass`;
  - the spawn is `SpawnedAsteroid`.
- `Game` (`game.dfy`): the game's mutable world as the class `SimulationState`. Its methods are:
  - `Animate`, with its loops `UpdateProjectiles`, `VisitAll` and `VisitAsteroid`;
  - `Spawn`, which is the interval body;
  - `KeyDown` and `KeyUp`.

  Each method runs the game's loops on `seq` fields, with the game's reverse indices and `splice` semantics. Each is proved to leave exactly the state that the `Population` and `Entities` functions describe.

## Model

| member | source | states |
|---|---|---|
| Geometry.WithinDistanceMeaning | index.js:232-236 | Comparing squared distance with the squared bound holds exactly when the square-root distance is at most the bound. |
| Geometry.CircleCollision | index.js:228-241 | True exactly when the distance between the centres is at most the sum of the radii. |
| Geometry.CircleCollisionSymmetric | index.js:228-241 | The circle test gives the same answer with its arguments swapped. |
| Geometry.CircleCollisionBoundary | index.js:236 | Circles whose distance equals the sum of their radii touch. The comparison is `<=`, not `<`. |
| Geometry.IsPointOnLineSegment | index.js:279-286 | True exactly when x and y lie, inclusively, between the endpoints' minimum and maximum. It is a bounding-box test, not a collinearity test. |
| Geometry.PointOnSegmentSymmetric | index.js:279-286 | The box test does not depend on which endpoint is first. |
| Geometry.EndpointsOnSegment | index.js:279-286 | Both endpoints pass the box test. |
| Geometry.Length2Zero | index.js:249-256 | The divisor `Math.pow(length, 2)` is zero exactly for a degenerate edge. |
| Geometry.ClosestPoint | index.js:249-264 | The point compared with the circle's centre always lies in the edge's bounding box. This includes a degenerate edge, where the code's NaN comparisons select `end`. |
| Geometry.ClosestPointIsFoot | index.js:253-261 | When unclamped, the offset from the chosen point to the centre is orthogonal to the edge. |
| Geometry.ClampMixesEndpoints | index.js:261-264 | The clamp can return a point that is neither endpoint and not on the edge: (0, -10) for the centre (-5, 5) and the edge (0, 0)→(10, -10). |
| Geometry.EdgeHit | index.js:266-273 | One edge test holds exactly when the distance from the chosen point to the centre is at most the radius. |
| Geometry.EdgesHitFrom | index.js:245-276 | The edge loop from edge i returns true exactly when some edge k ≥ i is hit. |
| Geometry.CircleTriangleCollision | index.js:243-277 | True exactly when one of the three edges (i, (i+1) % 3) is hit. |
| Geometry.VertexCentreDetected | index.js:243-277 | A circle of non-negative radius centred on a vertex of the triangle collides with it. |
| Geometry.EnclosedVertexMissed | index.js:243-277 | A circle that contains a vertex can still be missed because of the clamp. The circle at (1, -1) with radius 2 and the triangle (0, 10), (0, 0), (-10, 0) give false. |
| Geometry.EdgeMissWhenBeyond | index.js:266-273 | A circle wholly beyond one side of an edge's box does not hit that edge. |
| Geometry.BeyondBoxMisses | index.js:243-277 | A circle that lies beyond one side of each edge's bounding box (the side may differ from edge to edge) does not collide with the triangle. |
| Entities.ShipVertices | index.js:44-62 | The three vertices are the hull (30, 0), (-10, 10), (-10, -10), rotated by the ship's heading and placed at its position. The nose is 30 along the heading. |
| Entities.ShipHullIsRigid | index.js:44-62 | With unit-circle trig the hull keeps its shape, with squared sides 1700, 400 and 1700. |
| Entities.Ship.constructor | index.js:8-12 | The given position and velocity, and heading 0. |
| Entities.Ship.Update | index.js:38-42 | The position advances by the velocity. Velocity and heading are kept. |
| Entities.Ship.Steer | index.js:389-398 | The new velocity is the thrust or friction result and the new heading the turning result, from the old velocity and heading. The position is kept. |
| Entities.HeadingSpeed | index.js:363-364 | With unit-circle trig, a velocity of k along any heading has squared speed k². |
| Entities.Thrusted | index.js:389-395 | With W held the new velocity is parallel to the heading. Otherwise it is parallel to the old velocity. |
| Entities.Turned | index.js:397-398 | The heading changes by at most 0.1, and it changes exactly when D or A is held. |
| Entities.ThrustAndFriction | index.js:389-395 | Thrust gives a velocity parallel to the heading with squared speed 36. Without thrust the velocity is scaled by 0.96, its squared speed by 0.9216, and never grows. |
| Entities.TurnPriority | index.js:397-398 | D turns by +0.1 even when A is held. A alone turns by -0.1. With neither, the heading is kept. |
| Entities.Projectile.Updated | index.js:82-86 | The position advances by the velocity, and the velocity is kept. |
| Entities.ProjectileDrift | index.js:82-86 | After n frames a projectile has moved by n times its unchanged velocity. |
| Entities.FiredFromNose | index.js:417-431 | A fired projectile starts at the hull's nose vertex. With unit-circle trig its squared speed is 49. |
| Entities.FiredProjectile | index.js:418-429 | The velocity is 7/30 of the offset from the ship's position to the start point, so the projectile flies outward along the line from the ship through its nose. |
| Entities.Asteroid.Updated | index.js:132-137 | The position advances by the velocity and the rotation by 0.005. Radius, velocity and outline are kept. |
| Entities.AsteroidDrift | index.js:132-137 | After n frames an asteroid has moved by n velocities and spun by n × 0.005, with its shape unchanged. |
| Entities.StepCount | index.js:97 | The outline has between 5 and 9 vertices. |
| Entities.Variation | index.js:101 | Each vertex's variation lies in [0.8, 1.2). |
| Entities.NewAsteroid | index.js:89-107 | The constructor keeps position, velocity and radius and draws a heading. Its loop pushes exactly the outline vertices, StepCount of them, each at its evenly spaced angle. |
| Entities.MakeAsteroid | index.js:89-107 | The constructed asteroid keeps the given position, velocity and radius, and has between 5 and 9 outline vertices. |
| Entities.Outline | index.js:96-106 | The outline has between 5 and 9 vertices. |
| Entities.OutlineWithinBand | index.js:96-106 | With unit-circle trig, every outline vertex lies between 0.8 and 1.2 radii from the centre. |
| Entities.ControlOf | index.js:404-416 | KeyW/ArrowUp drive thrust, KeyA/ArrowLeft turn left and KeyD/ArrowRight turn right, each code exactly one flag. Every other code drives no flag. |
| Entities.Pressed | index.js:403-416 | keydown raises exactly the code's flag and keeps the others. |
| Entities.Released | index.js:435-450 | keyup lowers exactly the code's flag and keeps the others. |
| Entities.ReleaseAfterPress | index.js:403-450 | Releasing a key after pressing it leaves the same flags as releasing it directly. For a control key whose flag was not held, it restores the original flags. |
| Population.Splice | index.js:319 | `splice(i, 1)` drops the element at i and shifts the tail down. An index at or past the end changes nothing. |
| Population.OffScreen | index.js:313-318 | The cull test: the circle's box x ± r, y ± r lies wholly beyond one side of the canvas. It is the same test as at 335-340. |
| Population.OffScreenMeansOutside | index.js:313-318 | When the test holds, no point of the box lies on the canvas. For a non-negative radius and canvas, when it fails, some point of the box does. |
| Population.UpdateAndCull | index.js:308-321 | The projectile pass never grows the list, and every projectile it keeps is on screen after its move. |
| Population.CullStep | index.js:308-321 | One turn of the reverse loop at slot i extends the processed tail to slot i. |
| Population.CullKeepsOnlyMoved | index.js:308-321 | Every kept projectile is the moved form of some input projectile. |
| Population.CullKeepsSurvivorsInOrder | index.js:308-321 | The pass keeps exactly the survivors, in their original order. Survivor j lands at the index given by the count of survivors before it. |
| Population.CullDropsOffScreen | index.js:313-320 | A projectile off screen after its move is not kept. |
| Population.LastHit | index.js:344-347 | The scan stops at the highest-indexed projectile the asteroid touches, with none touching above it, or at -1 when none touches. |
| Population.Child | index.js:353-368 | One child has half the parent's radius, the parent's moved position and 5 to 9 vertices. With unit-circle trig its squared speed is ASTEROID_SPEED². |
| Population.Children | index.js:349-369 | A split yields exactly two children, each of half the radius, at the parent's moved position, with 5 to 9 vertices. With unit-circle trig each moves at squared speed 4, that is at ASTEROID_SPEED along its own heading, without the speed multiplier. |
| Population.AfterCull | index.js:323-342 | Moving, ship testing and culling slot i removes at most one asteroid. |
| Population.AfterCullState | index.js:323-342 | After the first steps of a turn, slot i is either the moved asteroid or spliced out. A ship hit zeroes the score and sets gameOver. Projectiles and multiplier are kept. |
| Population.Resolve | index.js:347-384 | Resolving a hit at slot i leaves at least i asteroids. |
| Population.Visit | index.js:323-386 | One turn of the asteroid loop leaves at least i asteroids, so the loop can continue at i - 1. |
| Population.VisitBounds | index.js:323-386 | A turn keeps slots below i unchanged, adds at most one asteroid, removes at most one projectile and never clears gameOver. The multiplier rises by at most 1 and never falls, and a non-negative score stays non-negative. |
| Population.VisitSplits | index.js:344-385 | A hit on a large asteroid that the cull kept removes the stopping projectile and the parent and appends its two children. Score is kept (zeroed only on a ship hit) and the multiplier is kept. |
| Population.VisitDestroysSmall | index.js:370-384 | A hit on a small asteroid that the cull kept removes it and the projectile, appends nothing, and adds one to the score and to the multiplier. |
| Population.VisitHit | index.js:327-384 | For any projectile hit, whether or not the cull removed the asteroid first: the projectile the scan stops at is removed and a ship hit in the same turn sets gameOver. For a large asteroid the score (zeroed by a ship hit) and the multiplier are kept. For a small one, each rises by exactly one. |
| Population.VisitMiss | index.js:323-386 | Without a projectile hit, projectiles and multiplier are kept. The asteroid stays in slot i in its moved form unless the cull drops it. |
| Population.CulledHitRemovesNeighbour | index.js:335-384 | A small asteroid that is culled and then hit, when slot i + 1 exists, causes a second splice at slot i. That splice removes its already visited neighbour, so two asteroids go. |
| Population.CulledSplitLosesChild | index.js:335-384 | A large asteroid in the last slot that is culled and then hit loses its first child to the second splice, because that child sits at slot i. Only the second child remains. |
| Population.CulledSplitDropsNeighbour | index.js:335-384 | A large asteroid that is culled and then hit, when slot i + 1 exists, loses its neighbour at slot i + 1 to the second splice. Both children stay. |
| Population.CulledLastSmallSplicesNothing | index.js:341-383 | A small asteroid in the last slot that is culled and then hit loses nothing more, because the second splice at slot i is past the end. |
| Population.VisitShipHit | index.js:327-332 | A ship hit sets gameOver and zeroes the score. A small kill in the same turn can still raise it to 1, together with the multiplier. |
| Population.VisitIgnoresGameOver | index.js:327-332 | A turn neither tests gameOver nor lets it change anything else. |
| Population.PassIgnoresGameOver | index.js:323-387 | Game over does not stop the frame. The rest of the asteroid loop runs exactly as it would otherwise. |
| Population.AsteroidPass | index.js:323-387 | Over the asteroid loop the multiplier never decreases, and a non-negative score stays non-negative. |
| Population.PassBounds | index.js:323-387 | Over the loop from slot i down, at most i + 1 projectiles are removed and at most i + 1 asteroids added. |
| Population.ScoreTracksMultiplier | index.js:370-373 | While the ship is not struck, score and multiplier rise together, by at most one per visited slot. |
| Population.PassKeepsGameOver | index.js:327-332 | Once set, gameOver stays set for the rest of the frame. |
| Population.SpawnSide | index.js:180 | The edge index lies in 0..3. |
| Population.SpawnRadius | index.js:184 | A spawn's radius lies in [10, 60). |
| Population.Along | index.js:189 | A random coordinate along a side lies between 0 and the side's length. |
| Population.SpawnPoint | index.js:186-203 | On a canvas of non-negative size, left and right spawns have y on the canvas, and bottom and top spawns have x on it. |
| Population.SpawnVelocity | index.js:205-209 | With unit-circle trig, the velocity has squared speed (ASTEROID_SPEED × multiplier)². |
| Population.SpawnedAsteroid | index.js:179-223 | A spawned asteroid has radius in [10, 60) and between 5 and 9 outline vertices. |
| Population.SpawnPlacement | index.js:186-203 | Left, bottom and right spawns touch their edge from outside. A top spawn sits at y = radius, touching y = 0 from inside. All are kept by the cull. |
| Population.SpawnedOnScreen | index.js:179-223 | Every spawned asteroid has radius in [10, 60) and starts where the cull keeps it. |
| Population.TopSpawnInsideViewport | index.js:199-202 | On a canvas at least 2 × radius tall, a top spawn lies inside the canvas vertically (0 ≤ y − r and y + r ≤ height), with its centre on the canvas. Its box can still reach past the left or right edge, because x is drawn anywhere in [0, width]. |
| Population.SpawnSpeed | index.js:205-209 | With unit-circle trig, a spawn's squared speed is (2 × multiplier)², whatever its target. |
| Game.SimulationState.constructor | index.js:140-162 | The game starts with the ship at rest at the canvas centre with heading 0, no projectiles or asteroids, no keys held, score 0 and multiplier 0.5. |
| Game.SimulationState.UpdateProjectiles | index.js:308-321 | The in-place reverse loop leaves exactly UpdateAndCull of the old list. Everything else is unchanged. |
| Game.SimulationState.MoveAndCull | index.js:324-342 | The first steps of the turn at slot i leave exactly AfterCull of the old state, and return the moved asteroid. |
| Game.SimulationState.AddChildren | index.js:349-369 | The split loop appends exactly the two Children of the asteroid, in draw order. Projectiles, keys, score and multiplier are unchanged. |
| Game.SimulationState.ResolveHit | index.js:347-384 | The hit branch leaves exactly Resolve of the old state. |
| Game.SimulationState.VisitAsteroid | index.js:323-386 | One turn of the asteroid loop, including the projectile scan and its break, leaves exactly Visit of the old state. |
| Game.SimulationState.VisitAll | index.js:323-387 | The whole asteroid loop leaves exactly AsteroidPass of the old state. |
| Game.SimulationState.Animate | index.js:306-398 | A frame in order: the ship moves; projectiles go through UpdateAndCull; asteroids go through AsteroidPass against the moved ship's hull; then the ship is steered. |
| Game.SimulationState.Spawn | index.js:179-223 | The interval body appends exactly SpawnedAsteroid for the current multiplier. Everything else is unchanged. |
| Game.SimulationState.KeyDown | index.js:403-433 | The flags become Pressed. Space appends exactly the projectile fired from the ship's nose. Nothing else changes. |
| Game.SimulationState.KeyUp | index.js:435-450 | The flags become Released. Nothing else changes. |

## Quirks of the code

The model keeps each of these behaviours of the code:

- **Game over does not end the frame.** On a ship hit, lines 328-331 alert, cancel the next frame, clear the spawn timer and set the score to 0. The current frame runs to the end: later asteroids still move, split and score (`PassIgnoresGameOver`, `VisitShipHit`).
- **Only the score is reset.** Line 331 zeroes the score. The speed multiplier keeps its value.
- **The speed-up loop has no lasting effect.** The loop at lines 374-381 iterates over the list but reads and writes only the struck asteroid's velocity, once per listed asteroid. That asteroid is spliced out at line 341 or, if the cull kept it, at line 383. `ResolveHit` runs the loop on a local value.
- **The top spawn starts on the canvas.** The comments at lines 187, 191, 195 and 199 name the four sides. The left, bottom and right cases place the asteroid just outside its side. The top case, line 201, sets y = radius, so the asteroid starts inside the canvas vertically (`SpawnPlacement`, `TopSpawnInsideViewport`).
- **The cull and the hit can both splice slot i.** An asteroid that the cull at lines 335-342 removed is still checked against the projectiles, and a hit splices slot i again at line 383. What that second splice removes depends on the slot:
  - for a small asteroid not in the last slot, the neighbour at slot i + 1, which was already visited (`CulledHitRemovesNeighbour`);
  - for a large asteroid not in the last slot, the neighbour at slot i + 1, and both children stay (`CulledSplitDropsNeighbour`);
  - for a large asteroid in the last slot, its first child, which now sits at slot i (`CulledSplitLosesChild`);
  - for a small asteroid in the last slot, nothing, because slot i is past the end (`CulledLastSmallSplicesNothing`).
- **A circle that encloses a vertex can be missed.** `circleTriangleCollision` compares the circle with one point per edge, clamped coordinate by coordinate, and can miss such a circle (`EnclosedVertexMissed`). A circle of non-negative radius centred on a vertex is always detected (`VertexCentreDetected`), and one beyond every edge's box is never detected (`BeyondBoxMisses`).

## Left out

- Drawing is not modelled, because it has no effect on the state: every `draw` method, the background, the star field and its random positions, and the score text.
- `requestAnimationFrame`, `cancelAnimationFrame`, `setInterval` and `clearInterval`, `alert` and `console.log` are not modelled. `Animate` returns whether the ship was struck, and stopping the frame loop and the spawn timer is left to its caller.
- `Math.random()` draws are parameters (`ShapeDraws`, `PassDraws`, `SpawnDraws`), because the model cannot draw random numbers.
- `Math.cos`, `Math.sin`, `Math.atan2`, `Math.hypot` and `Math.PI` are parameters (`Trig`). The only property assumed where a lemma needs it is that cosine and sine lie on the unit circle (`Pythagorean`).
- `Math.sqrt` is not computed. Distances are compared as squares, which for non-negative bounds is the same test.
- IEEE doubles are modelled as exact reals, so rounding, overflow and infinities are not modelled. The one place where NaN matters, a zero-length edge in the triangle test, is modelled explicitly.
- `Math.pow(Math.sqrt(x), 2)` is taken to be x exactly.
- Projectiles and asteroids are immutable values (`Projectile.Updated`, `Asteroid.Updated`), not objects updated in place. The code never shares their position or velocity objects between entities, so no aliasing is lost.
- The canvas size comes from `window.innerWidth` and `window.innerHeight` at load time. It is the `Viewport` passed to the constructor.
- DOM event objects are not modelled. The handlers take `event.code` as a string.
- The heading of the speed-up loop at lines 374-381 is not modelled: its result is dropped with the struck asteroid.
- Game.SimulationState.ResolveHit: states nothing about the rescaled velocity of the struck asteroid, because that asteroid leaves the list in the same turn.
