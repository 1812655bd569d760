/**
  The collision tests of the game: circle against circle, point against a segment's
  bounding box, and circle against the three edges of a triangle. Distances are
  compared on their squares, which decides `Math.sqrt(d2) <= bound` exactly.
 */
module Geometry {
  import opened Numerics

  /** A 2-D point or velocity, `{ x, y }` in the game. */
  datatype Vec = Vec(x: real, y: real) {
    function Plus(v: Vec): Vec {
      Vec(x + v.x, y + v.y)
    }
  }

  const Origin: Vec := Vec(0.0, 0.0)

  /** Squared Euclidean distance from p to q. */
  function Dist2(p: Vec, q: Vec): real {
    (q.x - p.x) * (q.x - p.x) + (q.y - p.y) * (q.y - p.y)
  }

  /** d is the (non-negative) distance between p and q, i.e. `Math.sqrt(Dist2(p, q))`. */
  ghost predicate IsDistance(d: real, p: Vec, q: Vec) {
    0.0 <= d && d * d == Dist2(p, q)
  }

  /** A body that collides as a circle: asteroids and projectiles. */
  datatype Circle = Circle(position: Vec, radius: real)

  /** `Math.sqrt(Dist2(p, q)) <= bound`, decided without the square root. */
  function WithinDistance(p: Vec, q: Vec, bound: real): bool {
    0.0 <= bound && Dist2(p, q) <= bound * bound
  }

  lemma WithinDistanceMeaning(p: Vec, q: Vec, bound: real)
    ensures forall d :: IsDistance(d, p, q) ==> (WithinDistance(p, q, bound) <==> d <= bound)
  {
    forall d | IsDistance(d, p, q)
      ensures WithinDistance(p, q, bound) <==> d <= bound
    {
      if d <= bound {
        SquareMonotone(d, bound);
      } else if 0.0 <= bound {
        SquareStrict(bound, d);
      }
    }
  }

  /** circleCollision: the centres are no further apart than the sum of the radii. */
  function CircleCollision(c1: Circle, c2: Circle): (r: bool)
    ensures forall d :: IsDistance(d, c1.position, c2.position) ==>
              (r <==> d <= c1.radius + c2.radius)
  {
    WithinDistanceMeaning(c1.position, c2.position, c1.radius + c2.radius);
    WithinDistance(c1.position, c2.position, c1.radius + c2.radius)
  }

  lemma CircleCollisionSymmetric(c1: Circle, c2: Circle)
    ensures CircleCollision(c1, c2) == CircleCollision(c2, c1)
  {
    assert Dist2(c1.position, c2.position) == Dist2(c2.position, c1.position);
  }

  /** Touching circles collide: the boundary is inclusive. */
  lemma CircleCollisionBoundary(c1: Circle, c2: Circle, d: real)
    requires IsDistance(d, c1.position, c2.position)
    requires d == c1.radius + c2.radius
    ensures CircleCollision(c1, c2)
  {
  }

  function Min(a: real, b: real): real {
    if a < b then a else b
  }

  function Max(a: real, b: real): real {
    if a > b then a else b
  }

  /** v lies between a and b, in whichever order they come. */
  predicate Between(v: real, a: real, b: real) {
    (a <= v <= b) || (b <= v <= a)
  }

  /** isPointOnLineSegment: (x, y) lies in the axis-aligned bounding box of the segment. */
  function IsPointOnLineSegment(x: real, y: real, start: Vec, end: Vec): (r: bool)
    ensures r <==> Between(x, start.x, end.x) && Between(y, start.y, end.y)
  {
    x >= Min(start.x, end.x) && x <= Max(start.x, end.x) &&
    y >= Min(start.y, end.y) && y <= Max(start.y, end.y)
  }

  lemma PointOnSegmentSymmetric(x: real, y: real, start: Vec, end: Vec)
    ensures IsPointOnLineSegment(x, y, start, end) == IsPointOnLineSegment(x, y, end, start)
  {
  }

  lemma EndpointsOnSegment(start: Vec, end: Vec)
    ensures IsPointOnLineSegment(start.x, start.y, start, end)
    ensures IsPointOnLineSegment(end.x, end.y, start, end)
  {
  }

  /** Squared length of the edge from start to end (`Math.pow(length, 2)`). */
  function Length2(start: Vec, end: Vec): real {
    Dist2(start, end)
  }

  lemma Length2Zero(start: Vec, end: Vec)
    ensures Length2(start, end) == 0.0 <==> start == end
  {
    if Length2(start, end) == 0.0 {
      SumOfSquaresZero(end.x - start.x, end.y - start.y);
    }
  }

  /** The projection parameter of p onto the edge: 0 at start, 1 at end. */
  function Dot(p: Vec, start: Vec, end: Vec): real
    requires Length2(start, end) != 0.0
  {
    ((p.x - start.x) * (end.x - start.x) + (p.y - start.y) * (end.y - start.y)) / Length2(start, end)
  }

  lemma DotIs(p: Vec, start: Vec, end: Vec, dot: real)
    requires Length2(start, end) != 0.0
    requires dot * Length2(start, end) == (p.x - start.x) * (end.x - start.x) + (p.y - start.y) * (end.y - start.y)
    ensures Dot(p, start, end) == dot
  {
    QuotientIs((p.x - start.x) * (end.x - start.x) + (p.y - start.y) * (end.y - start.y), Length2(start, end), dot);
  }

  /** Dot is the projection of p - start onto the edge, in units of the edge's squared length. */
  lemma DotTimesLength(p: Vec, start: Vec, end: Vec)
    requires Length2(start, end) != 0.0
    ensures Dot(p, start, end) * Length2(start, end) ==
            (p.x - start.x) * (end.x - start.x) + (p.y - start.y) * (end.y - start.y)
  {
  }

  /** The point at parameter t along the edge from start to end. */
  function Lerp(start: Vec, end: Vec, t: real): Vec {
    Vec(start.x + t * (end.x - start.x), start.y + t * (end.y - start.y))
  }

  /**
    The point circleTriangleCollision compares with the circle's centre p for the edge
    from start to end: the foot of the perpendicular when it falls within the edge's
    bounding box, and otherwise a point whose x and y are chosen independently from
    start and end. A zero-length edge divides 0 by 0; the NaN fails every comparison,
    so the point chosen is end.
   */
  function ClosestPoint(p: Vec, start: Vec, end: Vec): (r: Vec)
    ensures IsPointOnLineSegment(r.x, r.y, start, end)
  {
    if Length2(start, end) == 0.0 then
      end
    else
      var closest := Lerp(start, end, Dot(p, start, end));
      if IsPointOnLineSegment(closest.x, closest.y, start, end) then
        closest
      else
        Vec(if closest.x < start.x then start.x else end.x,
            if closest.y < start.y then start.y else end.y)
  }

  /** ClosestPoint when the foot of the perpendicular, at parameter dot, lies on the edge. */
  lemma ClosestPointOnEdge(p: Vec, start: Vec, end: Vec, dot: real)
    requires Length2(start, end) != 0.0 && Dot(p, start, end) == dot
    requires var f := Lerp(start, end, dot); IsPointOnLineSegment(f.x, f.y, start, end)
    ensures ClosestPoint(p, start, end) == Lerp(start, end, dot)
  {
  }

  /** ClosestPoint when the foot of the perpendicular, at parameter dot, lies off the edge. */
  lemma ClosestPointClamped(p: Vec, start: Vec, end: Vec, dot: real)
    requires Length2(start, end) != 0.0 && Dot(p, start, end) == dot
    requires var f := Lerp(start, end, dot); !IsPointOnLineSegment(f.x, f.y, start, end)
    ensures var f := Lerp(start, end, dot);
            ClosestPoint(p, start, end) ==
            Vec(if f.x < start.x then start.x else end.x, if f.y < start.y then start.y else end.y)
  {
  }

  /** When the foot of the perpendicular lies on the edge, p - r is orthogonal to the edge. */
  lemma ClosestPointIsFoot(p: Vec, start: Vec, end: Vec)
    requires Length2(start, end) != 0.0
    requires var f := Lerp(start, end, Dot(p, start, end)); IsPointOnLineSegment(f.x, f.y, start, end)
    ensures var r := ClosestPoint(p, start, end);
            (p.x - r.x) * (end.x - start.x) + (p.y - r.y) * (end.y - start.y) == 0.0
  {
    var dot := Dot(p, start, end);
    ClosestPointOnEdge(p, start, end, dot);
    DotTimesLength(p, start, end);
    FootOrthogonal(p, start, end, dot);
  }

  lemma FootOrthogonal(p: Vec, start: Vec, end: Vec, dot: real)
    requires dot * Length2(start, end) == (p.x - start.x) * (end.x - start.x) + (p.y - start.y) * (end.y - start.y)
    ensures var f := Lerp(start, end, dot);
            (p.x - f.x) * (end.x - start.x) + (p.y - f.y) * (end.y - start.y) == 0.0
  {
    var dx, dy := end.x - start.x, end.y - start.y;
    var ux, uy := p.x - start.x, p.y - start.y;
    calc {
      (p.x - (start.x + dot * dx)) * dx + (p.y - (start.y + dot * dy)) * dy;
      (ux - dot * dx) * dx + (uy - dot * dy) * dy;
      (ux * dx + uy * dy) - dot * (dx * dx + dy * dy);
      (ux * dx + uy * dy) - dot * Length2(start, end);
      0.0;
    }
  }

  /**
    The clamp picks x and y separately: for p = (-5, 5) and the edge (0, 0) -> (10, -10)
    it yields (0, -10), which is neither endpoint and not on the edge.
   */
  lemma ClampMixesEndpoints()
    ensures ClosestPoint(Vec(-5.0, 5.0), Vec(0.0, 0.0), Vec(10.0, -10.0)) == Vec(0.0, -10.0)
  {
    assert Length2(Vec(0.0, 0.0), Vec(10.0, -10.0)) == 200.0;
    assert Lerp(Vec(0.0, 0.0), Vec(10.0, -10.0), -0.5) == Vec(-5.0, 5.0);
    DotIs(Vec(-5.0, 5.0), Vec(0.0, 0.0), Vec(10.0, -10.0), -0.5);
    assert !IsPointOnLineSegment(-5.0, 5.0, Vec(0.0, 0.0), Vec(10.0, -10.0));
    ClosestPointClamped(Vec(-5.0, 5.0), Vec(0.0, 0.0), Vec(10.0, -10.0), -0.5);
  }

  /** The circle touches the edge from start to end at the point ClosestPoint picks. */
  function EdgeHit(circle: Circle, start: Vec, end: Vec): (r: bool)
    ensures forall d :: IsDistance(d, ClosestPoint(circle.position, start, end), circle.position) ==>
              (r <==> d <= circle.radius)
  {
    var q := ClosestPoint(circle.position, start, end);
    WithinDistanceMeaning(q, circle.position, circle.radius);
    WithinDistance(q, circle.position, circle.radius)
  }

  /** The i-th edge of a triangle runs from vertex i to vertex (i + 1) % 3. */
  predicate EdgeHitAt(circle: Circle, triangle: seq<Vec>, i: nat)
    requires |triangle| == 3 && i < 3
  {
    EdgeHit(circle, triangle[i], triangle[(i + 1) % 3])
  }

  /** The loop of circleTriangleCollision from edge i on, returning at the first edge hit. */
  function EdgesHitFrom(circle: Circle, triangle: seq<Vec>, i: nat): (r: bool)
    requires |triangle| == 3 && i <= 3
    ensures r <==> exists k :: i <= k < 3 && EdgeHitAt(circle, triangle, k)
    decreases 3 - i
  {
    if i == 3 then false
    else EdgeHitAt(circle, triangle, i) || EdgesHitFrom(circle, triangle, i + 1)
  }

  /** circleTriangleCollision: some edge of the triangle is hit. */
  function CircleTriangleCollision(circle: Circle, triangle: seq<Vec>): (r: bool)
    requires |triangle| == 3
    ensures r <==> exists k :: 0 <= k < 3 && EdgeHitAt(circle, triangle, k)
  {
    EdgesHitFrom(circle, triangle, 0)
  }

  /** A circle centred on a vertex of the triangle collides with it. */
  lemma VertexCentreDetected(circle: Circle, triangle: seq<Vec>, k: nat)
    requires |triangle| == 3 && k < 3
    requires circle.position == triangle[k] && 0.0 <= circle.radius
    ensures CircleTriangleCollision(circle, triangle)
  {
    var start, end := triangle[k], triangle[(k + 1) % 3];
    var q := ClosestPoint(circle.position, start, end);
    if Length2(start, end) != 0.0 {
      DotIs(circle.position, start, end, 0.0);
      assert q == start;
    }
    assert Dist2(q, circle.position) == 0.0;
    assert EdgeHitAt(circle, triangle, k);
  }

  lemma MissedEdge0()
    ensures ClosestPoint(Vec(1.0, -1.0), Vec(0.0, 10.0), Vec(0.0, 0.0)) == Vec(0.0, 10.0)
    ensures !EdgeHit(Circle(Vec(1.0, -1.0), 2.0), Vec(0.0, 10.0), Vec(0.0, 0.0))
  {
    assert Length2(Vec(0.0, 10.0), Vec(0.0, 0.0)) == 100.0;
    assert Lerp(Vec(0.0, 10.0), Vec(0.0, 0.0), 1.1) == Vec(0.0, -1.0);
    assert Dist2(Vec(0.0, 10.0), Vec(1.0, -1.0)) == 122.0;
    DotIs(Vec(1.0, -1.0), Vec(0.0, 10.0), Vec(0.0, 0.0), 1.1);
    assert !IsPointOnLineSegment(0.0, -1.0, Vec(0.0, 10.0), Vec(0.0, 0.0));
    ClosestPointClamped(Vec(1.0, -1.0), Vec(0.0, 10.0), Vec(0.0, 0.0), 1.1);
  }

  lemma MissedEdge1()
    ensures ClosestPoint(Vec(1.0, -1.0), Vec(0.0, 0.0), Vec(-10.0, 0.0)) == Vec(-10.0, 0.0)
    ensures !EdgeHit(Circle(Vec(1.0, -1.0), 2.0), Vec(0.0, 0.0), Vec(-10.0, 0.0))
  {
    assert Length2(Vec(0.0, 0.0), Vec(-10.0, 0.0)) == 100.0;
    assert Lerp(Vec(0.0, 0.0), Vec(-10.0, 0.0), -0.1) == Vec(1.0, 0.0);
    assert Dist2(Vec(-10.0, 0.0), Vec(1.0, -1.0)) == 122.0;
    DotIs(Vec(1.0, -1.0), Vec(0.0, 0.0), Vec(-10.0, 0.0), -0.1);
    assert !IsPointOnLineSegment(1.0, 0.0, Vec(0.0, 0.0), Vec(-10.0, 0.0));
    ClosestPointClamped(Vec(1.0, -1.0), Vec(0.0, 0.0), Vec(-10.0, 0.0), -0.1);
  }

  lemma MissedEdge2()
    ensures ClosestPoint(Vec(1.0, -1.0), Vec(-10.0, 0.0), Vec(0.0, 10.0)) == Vec(-5.0, 5.0)
    ensures !EdgeHit(Circle(Vec(1.0, -1.0), 2.0), Vec(-10.0, 0.0), Vec(0.0, 10.0))
  {
    assert Length2(Vec(-10.0, 0.0), Vec(0.0, 10.0)) == 200.0;
    assert Lerp(Vec(-10.0, 0.0), Vec(0.0, 10.0), 0.5) == Vec(-5.0, 5.0);
    assert Dist2(Vec(-5.0, 5.0), Vec(1.0, -1.0)) == 72.0;
    DotIs(Vec(1.0, -1.0), Vec(-10.0, 0.0), Vec(0.0, 10.0), 0.5);
    assert IsPointOnLineSegment(-5.0, 5.0, Vec(-10.0, 0.0), Vec(0.0, 10.0));
    ClosestPointOnEdge(Vec(1.0, -1.0), Vec(-10.0, 0.0), Vec(0.0, 10.0), 0.5);
  }

  /**
    A circle that encloses a vertex can be missed: the circle at (1, -1) of radius 2
    contains the vertex (0, 0) of the triangle (0, 10), (0, 0), (-10, 0), yet every edge
    test compares the centre with a point at least 8 away.
   */
  lemma EnclosedVertexMissed()
    ensures var circle := Circle(Vec(1.0, -1.0), 2.0);
            var triangle := [Vec(0.0, 10.0), Vec(0.0, 0.0), Vec(-10.0, 0.0)];
            Dist2(circle.position, triangle[1]) <= circle.radius * circle.radius &&
            !CircleTriangleCollision(circle, triangle)
  {
    var circle := Circle(Vec(1.0, -1.0), 2.0);
    var triangle := [Vec(0.0, 10.0), Vec(0.0, 0.0), Vec(-10.0, 0.0)];
    MissedEdge0();
    MissedEdge1();
    MissedEdge2();
    assert triangle[(0 + 1) % 3] == triangle[1] && triangle[(1 + 1) % 3] == triangle[2];
    assert triangle[(2 + 1) % 3] == triangle[0];
    assert !EdgeHitAt(circle, triangle, 0);
    assert !EdgeHitAt(circle, triangle, 1);
    assert !EdgeHitAt(circle, triangle, 2);
  }

  /** The circle lies wholly beyond one side of the segment's bounding box. */
  predicate BeyondSegment(circle: Circle, start: Vec, end: Vec) {
    var c, r := circle.position, circle.radius;
    c.x + r < Min(start.x, end.x) || c.x - r > Max(start.x, end.x) ||
    c.y + r < Min(start.y, end.y) || c.y - r > Max(start.y, end.y)
  }

  lemma EdgeMissWhenBeyond(circle: Circle, start: Vec, end: Vec)
    requires BeyondSegment(circle, start, end)
    ensures !EdgeHit(circle, start, end)
  {
    var q := ClosestPoint(circle.position, start, end);
    FarFromBox(circle, q, start, end);
  }

  /** A point of the segment's bounding box is out of reach of a circle beyond that box. */
  lemma FarFromBox(circle: Circle, q: Vec, start: Vec, end: Vec)
    requires BeyondSegment(circle, start, end) && IsPointOnLineSegment(q.x, q.y, start, end)
    ensures !WithinDistance(q, circle.position, circle.radius)
  {
    var c, r := circle.position, circle.radius;
    if 0.0 <= r {
      var u, v := c.x - q.x, c.y - q.y;
      assert Dist2(q, c) == u * u + v * v;
      if r < u || r < -u {
        SquareDominates(u, v, r);
      } else {
        SquareDominates(v, u, r);
      }
    }
  }

  /** The circle lies beyond one side of the i-th edge's bounding box. */
  predicate BeyondEdgeAt(circle: Circle, triangle: seq<Vec>, i: nat)
    requires |triangle| == 3 && i < 3
  {
    BeyondSegment(circle, triangle[i], triangle[(i + 1) % 3])
  }

  /** A circle beyond one side of every edge's bounding box does not collide. */
  lemma BeyondBoxMisses(circle: Circle, triangle: seq<Vec>)
    requires |triangle| == 3
    requires forall k :: 0 <= k < 3 ==> BeyondEdgeAt(circle, triangle, k)
    ensures !CircleTriangleCollision(circle, triangle)
  {
    forall k | 0 <= k < 3
      ensures !EdgeHitAt(circle, triangle, k)
    {
      assert BeyondEdgeAt(circle, triangle, k);
      EdgeMissWhenBeyond(circle, triangle[k], triangle[(k + 1) % 3]);
    }
  }
}
