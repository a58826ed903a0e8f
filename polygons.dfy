/**
 * The parity point-in-polygon test (src/lib/point.rs:23-44, copied into
 * src/bin/p02.rs:22-41) and the signed fan area of a polygon
 * (src/bin/p02.rs:135-149).
 */
module Polygons {
  import opened Common
  import opened Points
  import opened Orientation
  import opened Lines

  /** `point_not_in_polygon`: the far end of the ray the test casts from the point. */
  const OUTSIDE: Point := Point(-1.0, -1.0)

  /** The side of the line from OUTSIDE through p on which vertex v lies. */
  function Side(p: Point, v: Point): int
  {
    Ccw(OUTSIDE, p, v)
  }

  /** Some vertex from index 1 on is off the line through OUTSIDE and p. */
  predicate HasSideVertex(p: Point, polygon: seq<Point>)
  {
    exists k :: 1 <= k < |polygon| && Side(p, polygon[k]) != 0
  }

  /** The index where the `while` loop stops: the first vertex from index 1 on that is off the line. */
  function FirstSide(p: Point, polygon: seq<Point>, i: nat): (k: nat)
    requires 1 <= i && exists k :: i <= k < |polygon| && Side(p, polygon[k]) != 0
    ensures i <= k < |polygon| && Side(p, polygon[k]) != 0
    ensures forall m :: i <= m < k ==> Side(p, polygon[m]) == 0
    decreases |polygon| - i
  {
    if Side(p, polygon[i]) != 0 then i else FirstSide(p, polygon, i + 1)
  }

  /**
   * The edge ending at vertex j separates OUTSIDE from p, or one of them
   * lies on the edge's line.
   */
  predicate EdgeSeparates(p: Point, polygon: seq<Point>, j: nat)
    requires 1 <= j < |polygon|
  {
    Ccw(polygon[j - 1], polygon[j], OUTSIDE) * Ccw(polygon[j - 1], polygon[j], p) <= 0
  }

  /**
   * The number of edges the `for` loop counts from vertex j on, when the
   * last side seen is lr: an edge counts when its end vertex lies on the
   * other side and the edge separates OUTSIDE from p.
   */
  function CountFrom(p: Point, polygon: seq<Point>, lr: int, j: nat): (c: nat)
    ensures j <= |polygon| ==> c <= |polygon| - j
    decreases |polygon| - j
  {
    if j == 0 || j >= |polygon| then 0
    else
      var lrnew := Side(p, polygon[j]);
      if lrnew - lr == 2 || lr - lrnew == 2 then
        (if EdgeSeparates(p, polygon, j) then 1 else 0) + CountFrom(p, polygon, lrnew, j + 1)
      else
        CountFrom(p, polygon, lr, j + 1)
  }

  /** The counter s at the end of `is_in_polygon`. */
  function Crossings(p: Point, polygon: seq<Point>): (c: nat)
    requires HasSideVertex(p, polygon)
    ensures c < |polygon|
  {
    var i := FirstSide(p, polygon, 1);
    CountFrom(p, polygon, Side(p, polygon[i]), i + 1)
  }

  /**
   * `Point::is_in_polygon`. Indexing past the end panics in the source, so
   * a vertex off the line through OUTSIDE and p must exist from index 1 on.
   */
  method IsInPolygon(p: Point, polygon: seq<Point>) returns (inside: bool)
    requires HasSideVertex(p, polygon)
    ensures inside <==> Crossings(p, polygon) % 2 != 0
  {
    var i := 1;
    while Ccw(OUTSIDE, p, polygon[i]) == 0
      invariant 1 <= i < |polygon|
      invariant exists k :: i <= k < |polygon| && Side(p, polygon[k]) != 0
      invariant FirstSide(p, polygon, 1) == FirstSide(p, polygon, i)
      decreases |polygon| - i
    {
      i := i + 1;
    }
    var s := 0;
    var lr := Ccw(OUTSIDE, p, polygon[i]);
    ghost var total := CountFrom(p, polygon, lr, i + 1);
    for j := i + 1 to |polygon|
      invariant lr == 1 || lr == -1
      invariant s + CountFrom(p, polygon, lr, j) == total
    {
      var lrnew := Ccw(OUTSIDE, p, polygon[j]);
      if lrnew - lr == 2 || lr - lrnew == 2 {
        lr := lrnew;
        if Ccw(polygon[j - 1], polygon[j], OUTSIDE) * Ccw(polygon[j - 1], polygon[j], p) <= 0 {
          s := s + 1;
        }
      }
    }
    inside := s % 2 != 0;
  }

  /** Only a jump between the two sides can count: with lr and no vertex on the other side, nothing is counted. */
  lemma {:induction false} NoSideChangeNoCrossing(p: Point, polygon: seq<Point>, lr: int, j: nat)
    requires lr == 1 || lr == -1
    requires forall k :: j <= k < |polygon| ==> Side(p, polygon[k]) != -lr
    ensures CountFrom(p, polygon, lr, j) == 0
    decreases |polygon| - j
  {
    if 0 < j < |polygon| {
      NoSideChangeNoCrossing(p, polygon, lr, j + 1);
    }
  }

  /** A polygon whose vertices all lie on one side of the ray's line (or on it) does not contain p. */
  lemma OneSidedPolygonExcludes(p: Point, polygon: seq<Point>)
    requires HasSideVertex(p, polygon)
    requires forall k :: 1 <= k < |polygon| ==> Side(p, polygon[k]) >= 0
    ensures Crossings(p, polygon) == 0
  {
    var i := FirstSide(p, polygon, 1);
    NoSideChangeNoCrossing(p, polygon, Side(p, polygon[i]), i + 1);
  }

  /**
   * For an edge whose two vertices lie strictly on opposite sides of the
   * ray's line, a counted edge is one the ray segment OUTSIDE-p may touch:
   * every edge `Crosses` reports is counted, and a counted edge whose line
   * has neither OUTSIDE nor p on it is one `Crosses` reports.
   */
  lemma EdgeCountedAndCrosses(p: Point, polygon: seq<Point>, j: nat)
    requires 1 <= j < |polygon|
    requires Side(p, polygon[j - 1]) * Side(p, polygon[j]) == -1
    ensures Crosses(Line(OUTSIDE, p, None), Line(polygon[j - 1], polygon[j], None)) ==> EdgeSeparates(p, polygon, j)
    ensures EdgeSeparates(p, polygon, j) && Ccw(polygon[j - 1], polygon[j], OUTSIDE) != 0
      && Ccw(polygon[j - 1], polygon[j], p) != 0
      ==> Crosses(Line(OUTSIDE, p, None), Line(polygon[j - 1], polygon[j], None))
  {
  }

  /**
   * `calculate_area_triangle`: the signed area of the triangle, positive
   * when the points turn counter-clockwise.
   */
  function AreaTriangle(p0: Point, p1: Point, p2: Point): (area: real)
    ensures area == Det(p0, p1, p2) / 2.0
  {
    p0.y * (p2.x - p1.x) / 2.0 + p1.y * (p0.x - p2.x) / 2.0 + p2.y * (p1.x - p0.x) / 2.0
  }

  /** A triangle with two equal corners has no area; exchanging two corners negates the area. */
  lemma AreaTriangleDegenerateAndSwap(p0: Point, p1: Point, p2: Point)
    ensures AreaTriangle(p0, p0, p2) == 0.0 && AreaTriangle(p0, p1, p1) == 0.0 && AreaTriangle(p0, p1, p0) == 0.0
    ensures AreaTriangle(p0, p2, p1) == -AreaTriangle(p0, p1, p2)
  {
  }

  const ORIGIN: Point := Point(0.0, 0.0)

  /** With its first corner at the origin, the area is half the cross product of the other two. */
  lemma AreaFromOrigin(p1: Point, p2: Point)
    ensures AreaTriangle(ORIGIN, p1, p2) == Cross(p1, p2) / 2.0
  {
  }

  /** The sum of the triangles (o, points[n], points[n + 1]) over all consecutive pairs. */
  function FanArea(points: seq<Point>, o: Point): real
  {
    if |points| < 2 then 0.0
    else FanArea(points[..|points| - 1], o) + AreaTriangle(o, points[|points| - 2], points[|points| - 1])
  }

  /**
   * `calculate_area_polygon`: the signed area of the polygon through
   * `points`, as the fan of triangles from the origin. `len() - 1`
   * underflows on an empty input, so at least one point is needed.
   */
  method CalculateAreaPolygon(points: seq<Point>) returns (area: real)
    requires |points| >= 1
    ensures area == FanArea(points, ORIGIN)
  {
    area := 0.0;
    var pointZero := Point(0.0, 0.0);
    for n := 0 to |points| - 1
      invariant area == FanArea(points[..n + 1], ORIGIN)
    {
      assert points[..n + 2][..n + 1] == points[..n + 1];
      area := area + AreaTriangle(pointZero, points[n], points[n + 1]);
    }
    assert points[..|points|] == points;
  }

  /** The fan splits off its first triangle. */
  lemma {:induction false} FanAreaFront(points: seq<Point>, o: Point)
    requires |points| >= 2
    ensures FanArea(points, o) == AreaTriangle(o, points[0], points[1]) + FanArea(points[1..], o)
    decreases |points|
  {
    if |points| > 2 {
      var init := points[..|points| - 1];
      FanAreaFront(init, o);
      assert init[1..] == points[1..][..|points[1..]| - 1];
    }
  }

  /**
   * Moving the fan's apex from the origin to q changes the sum only by a
   * term of the first and last point.
   */
  lemma {:induction false} FanAreaApex(points: seq<Point>, q: Point)
    requires |points| >= 1
    ensures FanArea(points, q) == FanArea(points, ORIGIN) + (Cross(q, points[0]) - Cross(q, points[|points| - 1])) / 2.0
    decreases |points|
  {
    if |points| >= 2 {
      var init := points[..|points| - 1];
      FanAreaApex(init, q);
      var a, b := points[|points| - 2], points[|points| - 1];
      assert Det(q, a, b) == Cross(q, a) + Cross(a, b) - Cross(q, b);
      assert Det(ORIGIN, a, b) == Cross(a, b);
    }
  }

  /** For a closed polygon (last point equal to the first) the area does not depend on the apex. */
  lemma ClosedPolygonAreaIndependentOfApex(points: seq<Point>, q: Point)
    requires |points| >= 1 && points[0] == points[|points| - 1]
    ensures FanArea(points, q) == FanArea(points, ORIGIN)
  {
    FanAreaApex(points, q);
  }

  /** The closed triangle p, q, r, p has the triangle's signed area. */
  lemma ClosedTriangleArea(p: Point, q: Point, r: Point)
    ensures FanArea([p, q, r, p], ORIGIN) == AreaTriangle(p, q, r)
  {
    var poly := [p, q, r, p];
    ClosedPolygonAreaIndependentOfApex(poly, p);
    assert poly[..3] == [p, q, r] && poly[..3][..2] == [p, q] && poly[..3][..2][..1] == [p];
    assert FanArea([p, q], p) == AreaTriangle(p, p, q);
    assert FanArea([p, q, r], p) == FanArea([p, q], p) + AreaTriangle(p, q, r);
    assert FanArea(poly, p) == FanArea([p, q, r], p) + AreaTriangle(p, r, p);
    AreaTriangleDegenerateAndSwap(p, q, r);
  }

  function Reverse(points: seq<Point>): (r: seq<Point>)
    ensures |r| == |points|
    ensures forall k :: 0 <= k < |points| ==> r[k] == points[|points| - 1 - k]
  {
    if points == [] then [] else [points[|points| - 1]] + Reverse(points[..|points| - 1])
  }

  /** Walking the polygon the other way round negates its signed area. */
  lemma {:induction false} FanAreaReverse(points: seq<Point>, o: Point)
    ensures FanArea(Reverse(points), o) == -FanArea(points, o)
    decreases |points|
  {
    if |points| >= 2 {
      var init := points[..|points| - 1];
      FanAreaReverse(init, o);
      var r := Reverse(points);
      assert r == [points[|points| - 1]] + Reverse(init);
      FanAreaFront(r, o);
      assert r[1..] == Reverse(init);
      AreaTriangleDegenerateAndSwap(o, points[|points| - 2], points[|points| - 1]);
    }
  }
}
