/**
  What one animation frame does to the game's collections, stated as functions of the
  state before it: the projectile pass that moves and culls projectiles, the asteroid
  pass that moves each asteroid, tests it against the ship, culls it and resolves a
  projectile hit, and the spawn of a new asteroid at a viewport edge.
 */
module Population {
  import opened Numerics
  import opened Geometry
  import opened Entities

  /** The canvas size, fixed when the game starts. */
  datatype Viewport = Viewport(width: real, height: real)

  /** p lies in the box [x ± r, y ± r] around the circle. */
  predicate InBox(p: Vec, c: Circle) {
    c.position.x - c.radius <= p.x <= c.position.x + c.radius &&
    c.position.y - c.radius <= p.y <= c.position.y + c.radius
  }

  /** p lies on the canvas. */
  predicate InView(p: Vec, view: Viewport) {
    0.0 <= p.x <= view.width && 0.0 <= p.y <= view.height
  }

  /** The garbage-collection test: the body's box [x ± r, y ± r] lies wholly beyond one side. */
  predicate OffScreen(c: Circle, view: Viewport) {
    c.position.x + c.radius < 0.0 || c.position.x - c.radius > view.width ||
    c.position.y - c.radius > view.height || c.position.y + c.radius < 0.0
  }

  /**
    For a circle and a canvas of non-negative size, the cull's test holds exactly when
    the circle's box shares no point with the canvas.
   */
  lemma OffScreenMeansOutside(c: Circle, view: Viewport)
    ensures OffScreen(c, view) ==> forall p :: InBox(p, c) ==> !InView(p, view)
    ensures !OffScreen(c, view) && 0.0 <= c.radius && 0.0 <= view.width && 0.0 <= view.height ==>
              exists p :: InBox(p, c) && InView(p, view)
  {
    var x, y := c.position.x, c.position.y;
    var nearest := Vec(if x < 0.0 then 0.0 else if x > view.width then view.width else x,
                       if y < 0.0 then 0.0 else if y > view.height then view.height else y);
    if !OffScreen(c, view) && 0.0 <= c.radius && 0.0 <= view.width && 0.0 <= view.height {
      assert InBox(nearest, c) && InView(nearest, view);
    }
  }

  /** `array.splice(i, 1)`: removes the element at i; an index at or past the end removes nothing. */
  function Splice<T>(s: seq<T>, i: nat): (r: seq<T>)
    ensures i < |s| ==> |r| == |s| - 1
    ensures i >= |s| ==> r == s
    ensures forall k :: 0 <= k < i && k < |r| ==> r[k] == s[k]
    ensures forall k :: i <= k < |r| ==> r[k] == s[k + 1]
  {
    if i < |s| then s[..i] + s[i + 1..] else s
  }

  /** Overwriting the element between pre and rest. */
  lemma UpdateBetween<T>(pre: seq<T>, x: T, y: T, rest: seq<T>)
    ensures (pre + [x] + rest)[|pre| := y] == pre + [y] + rest
  {
  }

  /** Splicing out the element between pre and rest. */
  lemma SpliceBetween<T>(pre: seq<T>, y: T, rest: seq<T>)
    ensures Splice(pre + [y] + rest, |pre|) == pre + rest
  {
    assert (pre + [y] + rest)[..|pre|] == pre;
    assert (pre + [y] + rest)[|pre| + 1..] == rest;
  }

  // ---------------------------------------------------------------- projectile pass

  /** Each projectile moved once, those that end up off screen dropped, the rest kept in order. */
  function UpdateAndCull(ps: seq<Projectile>, view: Viewport): (r: seq<Projectile>)
    ensures |r| <= |ps|
    ensures forall q :: q in r ==> !OffScreen(q.Disc(), view)
  {
    if |ps| == 0 then []
    else
      var p := ps[0].Updated();
      (if OffScreen(p.Disc(), view) then [] else [p]) + UpdateAndCull(ps[1..], view)
  }

  /** Unrolling the cull at slot i of ps. */
  lemma UpdateAndCullAt(ps: seq<Projectile>, view: Viewport, i: nat)
    requires i < |ps|
    ensures var p := ps[i].Updated();
            UpdateAndCull(ps[i..], view) == (if OffScreen(p.Disc(), view) then [] else [p]) + UpdateAndCull(ps[i + 1..], view)
  {
    assert ps[i..][1..] == ps[i + 1..];
  }

  /**
    One turn of the game's reverse projectile loop at slot i, on a list whose tail past i
    is already processed: the result has the tail from i on processed.
   */
  lemma CullStep(ps: seq<Projectile>, view: Viewport, i: nat)
    requires i < |ps|
    ensures var before := ps[..i + 1] + UpdateAndCull(ps[i + 1..], view);
            var p := ps[i].Updated();
            var moved := before[i := p];
            (if OffScreen(p.Disc(), view) then Splice(moved, i) else moved) ==
            ps[..i] + UpdateAndCull(ps[i..], view)
  {
    var rest := UpdateAndCull(ps[i + 1..], view);
    var p := ps[i].Updated();
    assert ps[..i + 1] == ps[..i] + [ps[i]];
    UpdateBetween(ps[..i], ps[i], p, rest);
    SpliceBetween(ps[..i], p, rest);
    UpdateAndCullAt(ps, view, i);
  }

  /** Everything the cull keeps is the moved form of some input projectile. */
  lemma {:induction false} CullKeepsOnlyMoved(ps: seq<Projectile>, view: Viewport)
    ensures forall q :: q in UpdateAndCull(ps, view) ==> exists j :: 0 <= j < |ps| && q == ps[j].Updated()
  {
    if |ps| > 0 {
      CullKeepsOnlyMoved(ps[1..], view);
      forall q | q in UpdateAndCull(ps, view)
        ensures exists j :: 0 <= j < |ps| && q == ps[j].Updated()
      {
        if q != ps[0].Updated() {
          assert q in UpdateAndCull(ps[1..], view);
          var j :| 0 <= j < |ps[1..]| && q == ps[1..][j].Updated();
          assert q == ps[j + 1].Updated();
        }
      }
    }
  }

  /** How many projectiles of ps are still on screen after their move. */
  function SurvivorCount(ps: seq<Projectile>, view: Viewport): nat {
    if |ps| == 0 then 0
    else (if OffScreen(ps[0].Updated().Disc(), view) then 0 else 1) + SurvivorCount(ps[1..], view)
  }

  /**
    The cull keeps exactly the survivors, in their original order: survivor j lands at
    the position given by the number of survivors before it.
   */
  lemma {:induction false} CullKeepsSurvivorsInOrder(ps: seq<Projectile>, view: Viewport)
    ensures |UpdateAndCull(ps, view)| == SurvivorCount(ps, view)
    ensures forall j :: 0 <= j < |ps| && !OffScreen(ps[j].Updated().Disc(), view) ==>
              SurvivorCount(ps[..j], view) < |UpdateAndCull(ps, view)| &&
              UpdateAndCull(ps, view)[SurvivorCount(ps[..j], view)] == ps[j].Updated()
  {
    if |ps| > 0 {
      CullKeepsSurvivorsInOrder(ps[1..], view);
      var head := if OffScreen(ps[0].Updated().Disc(), view) then 0 else 1;
      forall j | 0 <= j < |ps| && !OffScreen(ps[j].Updated().Disc(), view)
        ensures SurvivorCount(ps[..j], view) < |UpdateAndCull(ps, view)|
        ensures UpdateAndCull(ps, view)[SurvivorCount(ps[..j], view)] == ps[j].Updated()
      {
        if j > 0 {
          assert ps[..j][1..] == ps[1..][..j - 1];
          assert SurvivorCount(ps[..j], view) == head + SurvivorCount(ps[1..][..j - 1], view);
          assert ps[j] == ps[1..][j - 1];
        } else {
          assert ps[..j] == [];
        }
      }
    }
  }

  /** A projectile off screen after its move is dropped by the cull. */
  lemma CullDropsOffScreen(ps: seq<Projectile>, view: Viewport, j: int)
    requires 0 <= j < |ps| && OffScreen(ps[j].Updated().Disc(), view)
    ensures ps[j].Updated() !in UpdateAndCull(ps, view)
  {
  }

  // ---------------------------------------------------------------- asteroid pass

  /** The state the asteroid pass reads and writes; gameOver records the ship being struck. */
  datatype PassState = PassState(
    asteroids: seq<Asteroid>,
    projectiles: seq<Projectile>,
    score: int,
    multiplier: real,
    gameOver: bool)

  /** Index of the projectile the reverse scan stops at: the last one c touches, or -1. */
  function LastHit(c: Circle, ps: seq<Projectile>): (r: int)
    ensures -1 <= r < |ps|
    ensures r >= 0 ==> CircleCollision(c, ps[r].Disc())
    ensures forall k :: r < k < |ps| ==> !CircleCollision(c, ps[k].Disc())
  {
    if |ps| == 0 then -1
    else if CircleCollision(c, ps[|ps| - 1].Disc()) then |ps| - 1
    else LastHit(c, ps[..|ps| - 1])
  }

  /** The draws a split makes for child k: its heading, then the child's own constructor draws. */
  datatype ChildDraw = ChildDraw(heading: Unit, shape: ShapeDraws)

  /** All draws of the asteroid pass, indexed by the visited asteroid's slot and the child. */
  datatype PassDraws = PassDraws(child: (nat, nat) -> ChildDraw)

  /** Child k of a split asteroid: half the radius, at the parent's place, at ASTEROID_SPEED. */
  function Child(a: Asteroid, i: nat, k: nat, trig: Trig, draws: PassDraws): (r: Asteroid)
    ensures r.radius == a.radius / 2.0 && r.position == a.position && 5 <= |r.vertices| <= 9
    ensures Pythagorean(trig) ==> Dist2(Origin, r.velocity) == ASTEROID_SPEED * ASTEROID_SPEED
  {
    var d := draws.child(i, k);
    var angle := RandomAngle(d.heading, trig);
    HeadingSpeed(trig, angle, ASTEROID_SPEED);
    MakeAsteroid(Vec(a.position.x, a.position.y),
                 Vec(trig.cos(angle) * ASTEROID_SPEED, trig.sin(angle) * ASTEROID_SPEED),
                 a.radius / 2.0, d.shape, trig)
  }

  function Children(a: Asteroid, i: nat, trig: Trig, draws: PassDraws): (r: seq<Asteroid>)
    ensures |r| == 2
    ensures forall k :: 0 <= k < 2 ==>
              r[k].radius == a.radius / 2.0 && r[k].position == a.position && 5 <= |r[k].vertices| <= 9
    ensures Pythagorean(trig) ==> forall k :: 0 <= k < 2 ==> Dist2(Origin, r[k].velocity) == 4.0
  {
    [Child(a, i, 0, trig, draws), Child(a, i, 1, trig, draws)]
  }

  /** The asteroid at slot i after its move this frame. */
  function Moved(st: PassState, i: nat): Asteroid
    requires i < |st.asteroids|
  {
    st.asteroids[i].Updated()
  }

  /** Steps of one visit, in the game's order: move, ship test, cull. */
  function AfterCull(st: PassState, i: nat, hull: seq<Vec>, view: Viewport): (r: PassState)
    requires i < |st.asteroids| && |hull| == 3
    ensures |st.asteroids| - 1 <= |r.asteroids| <= |st.asteroids|
  {
    var a := Moved(st, i);
    var s1 := st.(asteroids := st.asteroids[i := a]);
    var s2 := if CircleTriangleCollision(a.Disc(), hull) then s1.(score := 0, gameOver := true) else s1;
    if OffScreen(a.Disc(), view) then s2.(asteroids := Splice(s2.asteroids, i)) else s2
  }

  /** What the first steps of a visit leave: slot i moved or spliced out, the ship test applied. */
  lemma AfterCullState(st: PassState, i: nat, hull: seq<Vec>, view: Viewport)
    requires i < |st.asteroids| && |hull| == 3
    ensures var a := Moved(st, i);
            var s3 := AfterCull(st, i, hull, view);
            s3.asteroids == (if OffScreen(a.Disc(), view) then st.asteroids[..i] + st.asteroids[i + 1..]
                             else st.asteroids[i := a]) &&
            s3.projectiles == st.projectiles && s3.multiplier == st.multiplier &&
            s3.score == (if ShipStruck(st, i, hull) then 0 else st.score) &&
            s3.gameOver == (st.gameOver || ShipStruck(st, i, hull))
  {
    var a := Moved(st, i);
    var s1 := st.asteroids[i := a];
    assert s1[..i] == st.asteroids[..i];
    assert s1[i + 1..] == st.asteroids[i + 1..];
  }

  /**
    One turn of the asteroid loop at slot i, then the hit resolution: the last projectile
    touching the moved asteroid is removed; a large asteroid appends two children, a
    small one scores; in both cases whatever is now at slot i is spliced out.
   */
  function Visit(st: PassState, i: nat, hull: seq<Vec>, view: Viewport, trig: Trig, draws: PassDraws): (r: PassState)
    requires i < |st.asteroids| && |hull| == 3
    ensures i <= |r.asteroids|
  {
    var a := Moved(st, i);
    var s3 := AfterCull(st, i, hull, view);
    var j := LastHit(a.Disc(), s3.projectiles);
    if j < 0 then s3 else Resolve(s3, a, i, j, trig, draws)
  }

  /**
    The hit resolution once the scan has stopped at projectile j: that projectile is
    spliced out, a split or a score follows, and slot i is spliced out.
   */
  function Resolve(s3: PassState, a: Asteroid, i: nat, j: nat, trig: Trig, draws: PassDraws): (r: PassState)
    ensures i <= |s3.asteroids| ==> i <= |r.asteroids|
  {
    var s4 := s3.(projectiles := Splice(s3.projectiles, j));
    var s5 := if a.radius > 20.0 then s4.(asteroids := s4.asteroids + Children(a, i, trig, draws))
              else s4.(score := s4.score + 1, multiplier := s4.multiplier + 1.0);
    s5.(asteroids := Splice(s5.asteroids, i))
  }

  /**
    A visit leaves the unvisited slots below i as they were, changes the asteroid count
    by at most one upward, removes at most one projectile and never clears gameOver.
   */
  lemma VisitBounds(st: PassState, i: nat, hull: seq<Vec>, view: Viewport, trig: Trig, draws: PassDraws)
    requires i < |st.asteroids| && |hull| == 3
    ensures var r := Visit(st, i, hull, view, trig, draws);
            i <= |r.asteroids| <= |st.asteroids| + 1 &&
            r.asteroids[..i] == st.asteroids[..i] &&
            |st.projectiles| - 1 <= |r.projectiles| <= |st.projectiles| &&
            (st.gameOver ==> r.gameOver) &&
            st.multiplier <= r.multiplier <= st.multiplier + 1.0 &&
            (0 <= st.score ==> 0 <= r.score)
  {
    var a := Moved(st, i);
    AfterCullState(st, i, hull, view);
    var s3 := AfterCull(st, i, hull, view);
    assert s3.asteroids[..i] == st.asteroids[..i];
    assert |s3.asteroids| <= |st.asteroids|;
    var j := LastHit(a.Disc(), s3.projectiles);
    if j >= 0 {
      var s5 := if a.radius > 20.0 then s3.asteroids + Children(a, i, trig, draws) else s3.asteroids;
      assert s5[..i] == st.asteroids[..i];
      assert |s5| <= |st.asteroids| + 2;
      assert i < |s5| ==> |s5| <= |st.asteroids| + 2 && Splice(s5, i)[..i] == s5[..i];
    }
  }

  /** The asteroid loop from slot i down to slot 0. */
  function AsteroidPass(st: PassState, i: int, hull: seq<Vec>, view: Viewport, trig: Trig, draws: PassDraws): (r: PassState)
    requires -1 <= i < |st.asteroids| && |hull| == 3
    ensures st.multiplier <= r.multiplier
    ensures 0 <= st.score ==> 0 <= r.score
    decreases i + 1
  {
    if i < 0 then st
    else
      VisitBounds(st, i, hull, view, trig, draws);
      AsteroidPass(Visit(st, i, hull, view, trig, draws), i - 1, hull, view, trig, draws)
  }

  predicate ShipStruck(st: PassState, i: nat, hull: seq<Vec>)
    requires i < |st.asteroids| && |hull| == 3
  {
    CircleTriangleCollision(Moved(st, i).Disc(), hull)
  }

  /**
    A projectile hit on a large asteroid that stayed on screen: the projectile the scan
    stops at is removed, the parent leaves slot i, and exactly two children of half its
    radius are appended at its position; score and multiplier are untouched.
   */
  lemma VisitSplits(st: PassState, i: nat, hull: seq<Vec>, view: Viewport, trig: Trig, draws: PassDraws)
    requires i < |st.asteroids| && |hull| == 3
    requires var a := Moved(st, i);
             !OffScreen(a.Disc(), view) && LastHit(a.Disc(), st.projectiles) >= 0 && a.radius > 20.0
    ensures var a := Moved(st, i);
            var r := Visit(st, i, hull, view, trig, draws);
            r.projectiles == Splice(st.projectiles, LastHit(a.Disc(), st.projectiles)) &&
            |r.projectiles| == |st.projectiles| - 1 &&
            r.asteroids == st.asteroids[..i] + st.asteroids[i + 1..] + Children(a, i, trig, draws) &&
            |r.asteroids| == |st.asteroids| + 1 &&
            r.score == (if ShipStruck(st, i, hull) then 0 else st.score) &&
            r.multiplier == st.multiplier
  {
    var a := Moved(st, i);
    AfterCullState(st, i, hull, view);
    var s5 := st.asteroids[i := a] + Children(a, i, trig, draws);
    assert s5[..i] == st.asteroids[..i];
    assert s5[i + 1..] == st.asteroids[i + 1..] + Children(a, i, trig, draws);
  }

  /**
    A projectile hit on a small asteroid (radius at most 20) that stayed on screen: the
    projectile and the asteroid are removed, nothing is added, and score and multiplier
    each rise by exactly one.
   */
  lemma VisitDestroysSmall(st: PassState, i: nat, hull: seq<Vec>, view: Viewport, trig: Trig, draws: PassDraws)
    requires i < |st.asteroids| && |hull| == 3
    requires var a := Moved(st, i);
             !OffScreen(a.Disc(), view) && LastHit(a.Disc(), st.projectiles) >= 0 && a.radius <= 20.0
    ensures var a := Moved(st, i);
            var r := Visit(st, i, hull, view, trig, draws);
            r.projectiles == Splice(st.projectiles, LastHit(a.Disc(), st.projectiles)) &&
            r.asteroids == st.asteroids[..i] + st.asteroids[i + 1..] &&
            r.score == (if ShipStruck(st, i, hull) then 0 else st.score) + 1 &&
            r.multiplier == st.multiplier + 1.0
  {
    var a := Moved(st, i);
    AfterCullState(st, i, hull, view);
    var s1 := st.asteroids[i := a];
    assert s1[..i] == st.asteroids[..i];
    assert s1[i + 1..] == st.asteroids[i + 1..];
  }

  /**
    A projectile hit, whether or not the cull removed the asteroid first: the projectile the
    scan stops at is removed, a ship hit in the same turn is recorded, a split keeps the
    multiplier, and a small kill adds one to the score and to the multiplier.
   */
  lemma VisitHit(st: PassState, i: nat, hull: seq<Vec>, view: Viewport, trig: Trig, draws: PassDraws)
    requires i < |st.asteroids| && |hull| == 3
    requires LastHit(Moved(st, i).Disc(), st.projectiles) >= 0
    ensures var a := Moved(st, i);
            var r := Visit(st, i, hull, view, trig, draws);
            var base := if ShipStruck(st, i, hull) then 0 else st.score;
            r.projectiles == Splice(st.projectiles, LastHit(a.Disc(), st.projectiles)) &&
            r.gameOver == (st.gameOver || ShipStruck(st, i, hull)) &&
            (a.radius > 20.0 ==> r.score == base && r.multiplier == st.multiplier) &&
            (a.radius <= 20.0 ==> r.score == base + 1 && r.multiplier == st.multiplier + 1.0)
  {
    AfterCullState(st, i, hull, view);
  }

  /**
    No projectile touches the moved asteroid: the projectiles, the multiplier and (bar a
    ship hit) the score are kept, and the asteroid stays in slot i in its moved form
    unless the cull drops it.
   */
  lemma VisitMiss(st: PassState, i: nat, hull: seq<Vec>, view: Viewport, trig: Trig, draws: PassDraws)
    requires i < |st.asteroids| && |hull| == 3
    requires LastHit(Moved(st, i).Disc(), st.projectiles) < 0
    ensures var a := Moved(st, i);
            var r := Visit(st, i, hull, view, trig, draws);
            r.projectiles == st.projectiles &&
            r.multiplier == st.multiplier &&
            r.score == (if ShipStruck(st, i, hull) then 0 else st.score) &&
            r.gameOver == (st.gameOver || ShipStruck(st, i, hull)) &&
            r.asteroids == (if OffScreen(a.Disc(), view) then st.asteroids[..i] + st.asteroids[i + 1..]
                            else st.asteroids[i := a])
  {
    var a := Moved(st, i);
    var s1 := st.asteroids[i := a];
    assert s1[..i] == st.asteroids[..i];
    assert s1[i + 1..] == st.asteroids[i + 1..];
  }

  /**
    The double splice: a small asteroid that the cull already removed and that is then
    hit makes the second splice at slot i remove its already-visited neighbour too.
   */
  lemma CulledHitRemovesNeighbour(st: PassState, i: nat, hull: seq<Vec>, view: Viewport, trig: Trig, draws: PassDraws)
    requires i + 1 < |st.asteroids| && |hull| == 3
    requires var a := Moved(st, i);
             OffScreen(a.Disc(), view) && LastHit(a.Disc(), st.projectiles) >= 0 && a.radius <= 20.0
    ensures var r := Visit(st, i, hull, view, trig, draws);
            r.asteroids == st.asteroids[..i] + st.asteroids[i + 2..] &&
            |r.asteroids| == |st.asteroids| - 2
  {
    AfterCullState(st, i, hull, view);
    var s3 := st.asteroids[..i] + st.asteroids[i + 1..];
    assert s3[..i] == st.asteroids[..i];
    assert s3[i + 1..] == st.asteroids[i + 2..];
  }

  /**
    The double splice on a split: a large asteroid in the last slot that the cull removed
    and that is then hit loses its first child to the second splice; only the second child
    survives.
   */
  lemma CulledSplitLosesChild(st: PassState, i: nat, hull: seq<Vec>, view: Viewport, trig: Trig, draws: PassDraws)
    requires i + 1 == |st.asteroids| && |hull| == 3
    requires var a := Moved(st, i);
             OffScreen(a.Disc(), view) && LastHit(a.Disc(), st.projectiles) >= 0 && a.radius > 20.0
    ensures var r := Visit(st, i, hull, view, trig, draws);
            r.asteroids == st.asteroids[..i] + [Children(Moved(st, i), i, trig, draws)[1]]
  {
    var a := Moved(st, i);
    AfterCullState(st, i, hull, view);
    var s3 := st.asteroids[..i] + st.asteroids[i + 1..];
    assert s3 == st.asteroids[..i];
    var s5 := s3 + Children(a, i, trig, draws);
    assert s5[..i] == st.asteroids[..i];
    assert s5[i + 1..] == [Children(a, i, trig, draws)[1]];
  }

  /**
    The double splice on a split elsewhere: a large asteroid below the last slot that the
    cull removed and that is then hit keeps both children but loses its old neighbour.
   */
  lemma CulledSplitDropsNeighbour(st: PassState, i: nat, hull: seq<Vec>, view: Viewport, trig: Trig, draws: PassDraws)
    requires i + 1 < |st.asteroids| && |hull| == 3
    requires var a := Moved(st, i);
             OffScreen(a.Disc(), view) && LastHit(a.Disc(), st.projectiles) >= 0 && a.radius > 20.0
    ensures var r := Visit(st, i, hull, view, trig, draws);
            r.asteroids == st.asteroids[..i] + st.asteroids[i + 2..] + Children(Moved(st, i), i, trig, draws)
  {
    var a := Moved(st, i);
    AfterCullState(st, i, hull, view);
    var s5 := st.asteroids[..i] + st.asteroids[i + 1..] + Children(a, i, trig, draws);
    assert s5[..i] == st.asteroids[..i];
    assert s5[i + 1..] == st.asteroids[i + 2..] + Children(a, i, trig, draws);
  }

  /**
    A small asteroid in the last slot that the cull removed and that is then hit: the
    second splice is past the end and removes nothing more.
   */
  lemma CulledLastSmallSplicesNothing(st: PassState, i: nat, hull: seq<Vec>, view: Viewport, trig: Trig, draws: PassDraws)
    requires i + 1 == |st.asteroids| && |hull| == 3
    requires var a := Moved(st, i);
             OffScreen(a.Disc(), view) && LastHit(a.Disc(), st.projectiles) >= 0 && a.radius <= 20.0
    ensures Visit(st, i, hull, view, trig, draws).asteroids == st.asteroids[..i]
  {
    AfterCullState(st, i, hull, view);
    assert st.asteroids[..i] + st.asteroids[i + 1..] == st.asteroids[..i];
  }

  /** A ship hit sets gameOver and zeroes the score, which a small kill may still raise to 1. */
  lemma VisitShipHit(st: PassState, i: nat, hull: seq<Vec>, view: Viewport, trig: Trig, draws: PassDraws)
    requires i < |st.asteroids| && |hull| == 3
    requires ShipStruck(st, i, hull)
    ensures var r := Visit(st, i, hull, view, trig, draws);
            r.gameOver && 0 <= r.score <= 1 && (r.score == 1 <==> r.multiplier == st.multiplier + 1.0)
  {
  }

  /** How the gameOver flag enters: Visit neither tests it nor lets it change anything else. */
  lemma VisitIgnoresGameOver(st: PassState, i: nat, hull: seq<Vec>, view: Viewport, trig: Trig, draws: PassDraws)
    requires i < |st.asteroids| && |hull| == 3
    ensures Visit(st.(gameOver := true), i, hull, view, trig, draws) ==
            Visit(st, i, hull, view, trig, draws).(gameOver := true)
  {
  }

  /**
    Game over does not stop the frame: a pass that starts with gameOver set (or sets it
    mid-way) moves, culls and resolves every remaining asteroid just as it would otherwise.
   */
  lemma {:induction false} PassIgnoresGameOver(st: PassState, i: int, hull: seq<Vec>, view: Viewport, trig: Trig, draws: PassDraws)
    requires -1 <= i < |st.asteroids| && |hull| == 3
    ensures AsteroidPass(st.(gameOver := true), i, hull, view, trig, draws) ==
            AsteroidPass(st, i, hull, view, trig, draws).(gameOver := true)
    decreases i + 1
  {
    if i >= 0 {
      VisitIgnoresGameOver(st, i, hull, view, trig, draws);
      var next := Visit(st, i, hull, view, trig, draws);
      PassIgnoresGameOver(next, i - 1, hull, view, trig, draws);
      assert next.(gameOver := true) == next.(gameOver := true).(gameOver := true);
      if next.gameOver {
        assert next.(gameOver := true) == next;
      }
    }
  }

  /**
    Over a pass that visits slots i down to 0, at most one projectile is removed per
    visited asteroid, and the asteroid list grows by at most one per visit.
   */
  lemma {:induction false} PassBounds(st: PassState, i: int, hull: seq<Vec>, view: Viewport, trig: Trig, draws: PassDraws)
    requires -1 <= i < |st.asteroids| && |hull| == 3
    ensures var r := AsteroidPass(st, i, hull, view, trig, draws);
            |st.projectiles| - (i + 1) <= |r.projectiles| <= |st.projectiles| &&
            |r.asteroids| <= |st.asteroids| + (i + 1)
    decreases i + 1
  {
    if i >= 0 {
      VisitBounds(st, i, hull, view, trig, draws);
      PassBounds(Visit(st, i, hull, view, trig, draws), i - 1, hull, view, trig, draws);
    }
  }

  /**
    Unless the ship is struck during the pass, the score and the multiplier rise
    together: each small asteroid destroyed adds exactly one to both.
   */
  lemma {:induction false} ScoreTracksMultiplier(st: PassState, i: int, hull: seq<Vec>, view: Viewport, trig: Trig, draws: PassDraws)
    requires -1 <= i < |st.asteroids| && |hull| == 3
    requires !st.gameOver
    ensures var r := AsteroidPass(st, i, hull, view, trig, draws);
            !r.gameOver ==> (r.score - st.score) as real == r.multiplier - st.multiplier &&
                            st.multiplier <= r.multiplier <= st.multiplier + (i + 1) as real
    decreases i + 1
  {
    if i >= 0 {
      var next := Visit(st, i, hull, view, trig, draws);
      var r := AsteroidPass(next, i - 1, hull, view, trig, draws);
      if !next.gameOver {
        ScoreTracksMultiplier(next, i - 1, hull, view, trig, draws);
      } else {
        PassKeepsGameOver(next, i - 1, hull, view, trig, draws);
      }
    }
  }

  lemma {:induction false} PassKeepsGameOver(st: PassState, i: int, hull: seq<Vec>, view: Viewport, trig: Trig, draws: PassDraws)
    requires -1 <= i < |st.asteroids| && |hull| == 3
    requires st.gameOver
    ensures AsteroidPass(st, i, hull, view, trig, draws).gameOver
    decreases i + 1
  {
    if i >= 0 {
      VisitBounds(st, i, hull, view, trig, draws);
      PassKeepsGameOver(Visit(st, i, hull, view, trig, draws), i - 1, hull, view, trig, draws);
    }
  }

  // ---------------------------------------------------------------- spawn

  /** The draws of one spawn, in the order the interval body makes them. */
  datatype SpawnDraws = SpawnDraws(side: Unit, size: Unit, along: Unit, targetX: Unit, targetY: Unit, shape: ShapeDraws)

  /** `Math.floor(Math.random() * 4)`: the edge, 0 left, 1 bottom, 2 right, 3 top. */
  function SpawnSide(d: Unit): (side: nat)
    ensures side <= 3
  {
    (d * 4.0).Floor
  }

  /** `50 * Math.random() + 10`. */
  function SpawnRadius(d: Unit): (r: real)
    ensures 10.0 <= r < 60.0
  {
    50.0 * d + 10.0
  }

  /** `Math.random() * length`: a coordinate drawn along a side of the given length. */
  function Along(u: Unit, length: real): (r: real)
    ensures 0.0 <= length ==> 0.0 <= r <= length
  {
    FractionWithin(u, length);
    u * length
  }

  lemma FractionWithin(u: Unit, length: real)
    ensures 0.0 <= length ==> 0.0 <= u * length <= length
  {
    if 0.0 <= length {
      assert length - u * length == (1.0 - u) * length;
    }
  }

  /** Where a new asteroid of the given radius is placed on edge `side`. */
  function SpawnPoint(side: nat, radius: real, along: Unit, view: Viewport): (r: Vec)
    requires side <= 3
    ensures 0.0 <= view.width && 0.0 <= view.height ==>
              (side % 2 == 0 ==> 0.0 <= r.y <= view.height) && (side % 2 == 1 ==> 0.0 <= r.x <= view.width)
  {
    if side == 0 then Vec(0.0 - radius, Along(along, view.height))
    else if side == 1 then Vec(Along(along, view.width), view.height + radius)
    else if side == 2 then Vec(view.width + radius, Along(along, view.height))
    else Vec(Along(along, view.width), 0.0 + radius)
  }

  /** Heading towards a random point of the viewport, at ASTEROID_SPEED times the multiplier. */
  function SpawnVelocity(from: Vec, multiplier: real, view: Viewport, trig: Trig, d: SpawnDraws): (r: Vec)
    ensures Pythagorean(trig) ==> Dist2(Origin, r) == (ASTEROID_SPEED * multiplier) * (ASTEROID_SPEED * multiplier)
  {
    var targetX := Along(d.targetX, view.width);
    var targetY := Along(d.targetY, view.height);
    var angle := trig.atan2(targetY - from.y, targetX - from.x);
    HeadingSpeed(trig, angle, ASTEROID_SPEED * multiplier);
    assert trig.cos(angle) * ASTEROID_SPEED * multiplier == trig.cos(angle) * (ASTEROID_SPEED * multiplier);
    assert trig.sin(angle) * ASTEROID_SPEED * multiplier == trig.sin(angle) * (ASTEROID_SPEED * multiplier);
    Vec(trig.cos(angle) * ASTEROID_SPEED * multiplier, trig.sin(angle) * ASTEROID_SPEED * multiplier)
  }

  /** The asteroid the interval body pushes. */
  function SpawnedAsteroid(view: Viewport, multiplier: real, trig: Trig, d: SpawnDraws): (r: Asteroid)
    ensures 10.0 <= r.radius < 60.0 && 5 <= |r.vertices| <= 9
  {
    var radius := SpawnRadius(d.size);
    var position := SpawnPoint(SpawnSide(d.side), radius, d.along, view);
    MakeAsteroid(position, SpawnVelocity(position, multiplier, view, trig, d), radius, d.shape, trig)
  }

  /**
    Left, bottom and right spawns start just outside their edge, touching it, so the cull
    keeps them in the frame they appear; a "top" spawn starts at y = radius, inside the
    viewport rather than above it.
   */
  lemma SpawnPlacement(side: nat, radius: real, along: Unit, view: Viewport)
    requires side <= 3 && 0.0 <= view.width && 0.0 <= view.height && 0.0 <= radius
    ensures var c := SpawnPoint(side, radius, along, view);
            (side == 0 ==> c.x + radius == 0.0 && 0.0 <= c.y <= view.height) &&
            (side == 1 ==> c.y - radius == view.height && 0.0 <= c.x <= view.width) &&
            (side == 2 ==> c.x - radius == view.width && 0.0 <= c.y <= view.height) &&
            (side == 3 ==> c.y - radius == 0.0 && 0.0 <= c.x <= view.width) &&
            !OffScreen(Circle(c, radius), view)
  {
  }

  /** Every spawned asteroid starts where the cull keeps it. */
  lemma SpawnedOnScreen(view: Viewport, multiplier: real, trig: Trig, d: SpawnDraws)
    requires 0.0 <= view.width && 0.0 <= view.height
    ensures 10.0 <= SpawnedAsteroid(view, multiplier, trig, d).radius < 60.0
    ensures !OffScreen(SpawnedAsteroid(view, multiplier, trig, d).Disc(), view)
  {
    SpawnPlacement(SpawnSide(d.side), SpawnRadius(d.size), d.along, view);
  }

  /**
    A "top" spawn on a canvas at least 2r tall lies inside the canvas vertically, with its
    centre on the canvas; its box may still reach past the left or right edge.
   */
  lemma TopSpawnInsideViewport(radius: real, along: Unit, view: Viewport)
    requires 0.0 <= view.width && 0.0 <= radius && 2.0 * radius <= view.height
    ensures var c := SpawnPoint(3, radius, along, view);
            0.0 <= c.y - radius && c.y + radius <= view.height && 0.0 <= c.x <= view.width
  {
  }

  /** A spawn moves at ASTEROID_SPEED times the multiplier in force when it spawns. */
  lemma SpawnSpeed(view: Viewport, multiplier: real, trig: Trig, d: SpawnDraws)
    requires Pythagorean(trig)
    ensures var v := SpawnedAsteroid(view, multiplier, trig, d).velocity;
            Dist2(Origin, v) == (2.0 * multiplier) * (2.0 * multiplier)
  {
    var radius := SpawnRadius(d.size);
    var position := SpawnPoint(SpawnSide(d.side), radius, d.along, view);
    var angle := trig.atan2(Along(d.targetY, view.height) - position.y, Along(d.targetX, view.width) - position.x);
    var c, s := trig.cos(angle), trig.sin(angle);
    assert c * c + s * s == 1.0;
    ScaledUnitLength(c, s, 2.0 * multiplier);
    assert c * ASTEROID_SPEED * multiplier == c * (2.0 * multiplier);
    assert s * ASTEROID_SPEED * multiplier == s * (2.0 * multiplier);
  }
}
