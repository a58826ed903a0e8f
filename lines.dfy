/**
 * Segments, the bounding-box test and the boundary-aware crossing test
 * (src/lib/line.rs and src/lib/point.rs:14-21; the same code is copied into
 * src/bin/p01.rs:14-85 and src/bin/p02.rs:13-106).
 */
module Lines {
  import opened Common
  import opened Points
  import opened Orientation

  /** A segment from p1 to p2 with the normal vector computed when it is built. */
  datatype Line = Line(p1: Point, p2: Point, n: Option<Point>)

  /** The signed offset `a` that `Line::new` uses to orient the normal. */
  function Offset(p1: Point, p2: Point): real
  {
    p1.y * p2.x - p1.x * p2.y
  }

  /**
   * `Line::new` exactly as written: the raw normal is
   * (p2.x - p2.y, p1.y - p1.x), negated unless the offset is positive.
   */
  function LineNewAsWritten(p1: Point, p2: Point): (l: Line)
    ensures l.p1 == p1 && l.p2 == p2 && l.n.Some?
    ensures l.n.value == Point(p2.x - p2.y, p1.y - p1.x) || l.n.value == Point(-(p2.x - p2.y), -(p1.y - p1.x))
  {
    var x := p2.x - p2.y;
    var y := p1.y - p1.x;
    var a := Offset(p1, p2);
    var n := if a > 0.0 then Point(x, y) else Point(-x, -y);
    Line(p1, p2, Some(n))
  }

  /**
   * Which of the two candidate normals `Line::new` keeps: the raw one
   * exactly when the offset is positive, its negation otherwise.
   */
  lemma LineNewAsWrittenCases(p1: Point, p2: Point)
    ensures Offset(p1, p2) > 0.0 ==> LineNewAsWritten(p1, p2).n.value == Point(p2.x - p2.y, p1.y - p1.x)
    ensures Offset(p1, p2) <= 0.0 ==> LineNewAsWritten(p1, p2).n.value == Point(-(p2.x - p2.y), -(p1.y - p1.x))
  {
  }

  /**
   * The normal as written is not perpendicular to its segment: for the
   * segment (0,0)-(1,0) it is (-1,0), parallel to the segment.
   */
  lemma NormalAsWrittenNotPerpendicular()
    ensures var p1, p2 := Point(0.0, 0.0), Point(1.0, 0.0);
      Dot(LineNewAsWritten(p1, p2).n.value, Sub(p2, p1)) != 0.0
  {
  }

  /**
   * `Line::new` with the normal the code evidently means: perpendicular to
   * the segment and oriented so that n·X equals the non-negative offset |a|
   * for every point X of the segment's line, i.e. pointing away from the origin.
   */
  function LineNew(p1: Point, p2: Point): (l: Line)
    ensures l.p1 == p1 && l.p2 == p2 && l.n.Some?
    ensures Dot(l.n.value, Sub(p2, p1)) == 0.0
    ensures Dot(l.n.value, p1) == Abs(Offset(p1, p2))
    ensures Dot(l.n.value, p2) == Abs(Offset(p1, p2))
  {
    var x := p1.y - p2.y;
    var y := p2.x - p1.x;
    var a := Offset(p1, p2);
    var n := if a > 0.0 then Point(x, y) else Point(-x, -y);
    assert Dot(Point(x, y), p1) == a;
    assert Dot(Point(x, y), p2) == a;
    Line(p1, p2, Some(n))
  }

  /** `Point::is_in_boundary`: p lies in the closed axis-aligned bounding box of the segment. */
  predicate IsInBoundary(p: Point, line: Line)
  {
    var xmin := Min(line.p1.x, line.p2.x);
    var xmax := Max(line.p1.x, line.p2.x);
    var ymin := Min(line.p1.y, line.p2.y);
    var ymax := Max(line.p1.y, line.p2.y);
    p.x >= xmin && p.x <= xmax && p.y >= ymin && p.y <= ymax
  }

  /** Both endpoints are in their own segment's box, and the box ignores endpoint order. */
  lemma BoundaryOfEndpoints(p: Point, line: Line)
    ensures IsInBoundary(line.p1, line) && IsInBoundary(line.p2, line)
    ensures IsInBoundary(p, line) == IsInBoundary(p, Line(line.p2, line.p1, line.n))
  {
  }

  /**
   * `Line::crosses`: the four orientations of each segment's endpoints
   * against the other segment's line decide, and a collinear endpoint
   * counts only if it lies in the other segment's bounding box.
   */
  predicate Crosses(self: Line, other: Line)
  {
    var a := Ccw(other.p1, other.p2, self.p1);
    var b := Ccw(other.p1, other.p2, self.p2);
    var c := Ccw(self.p1, self.p2, other.p1);
    var d := Ccw(self.p1, self.p2, other.p2);
    var h1 := a * b;
    var h2 := c * d;
    if h1 == 1 || h2 == 1 then false
    else if h1 == -1 && h2 == -1 then true
    else
      (a == 0 && IsInBoundary(self.p1, other))
      || (b == 0 && IsInBoundary(self.p2, other))
      || (c == 0 && IsInBoundary(other.p1, self))
      || (d == 0 && IsInBoundary(other.p2, self))
  }

  /** Crossing is symmetric in its two segments. */
  lemma CrossesSymmetric(l1: Line, l2: Line)
    ensures Crosses(l1, l2) == Crosses(l2, l1)
  {
  }

  /** Every segment crosses itself. */
  lemma CrossesItself(l: Line)
    ensures Crosses(l, l)
  {
    CcwDegenerate(l.p1, l.p2);
    CcwDegenerate(l.p2, l.p1);
  }

  /**
   * When no endpoint is within the tolerance band of the other segment's
   * line, the segments cross exactly when each one's endpoints lie on
   * different sides of the other's line.
   */
  lemma CrossesWithoutCollinearEndpoint(l1: Line, l2: Line)
    requires Ccw(l2.p1, l2.p2, l1.p1) != 0 && Ccw(l2.p1, l2.p2, l1.p2) != 0
    requires Ccw(l1.p1, l1.p2, l2.p1) != 0 && Ccw(l1.p1, l1.p2, l2.p2) != 0
    ensures Crosses(l1, l2) <==>
      Ccw(l2.p1, l2.p2, l1.p1) != Ccw(l2.p1, l2.p2, l1.p2) && Ccw(l1.p1, l1.p2, l2.p1) != Ccw(l1.p1, l1.p2, l2.p2)
  {
  }

  /** Two point-segments cross exactly when they are the same point. */
  lemma PointSegmentsCross(l1: Line, l2: Line)
    requires l1.p1 == l1.p2 && l2.p1 == l2.p2
    ensures Crosses(l1, l2) <==> l1.p1 == l2.p1
  {
    CcwDegenerate(l1.p1, l2.p1);
    CcwDegenerate(l2.p1, l1.p1);
  }

  /**
   * A point-segment crosses a segment exactly when the point is collinear
   * with it (within the tolerance) and lies in its bounding box.
   */
  lemma PointSegmentCrossesLine(pt: Line, l: Line)
    requires pt.p1 == pt.p2
    ensures Crosses(pt, l) <==> Ccw(l.p1, l.p2, pt.p1) == 0 && IsInBoundary(pt.p1, l)
  {
    CcwDegenerate(pt.p1, l.p1);
    CcwDegenerate(pt.p1, l.p2);
    BoundaryOfEndpoints(pt.p1, l);
  }

  /** The point o + t·u of the line through o with direction u. */
  function At(o: Point, u: Point, t: real): Point
  {
    Point(o.x + t * u.x, o.y + t * u.y)
  }

  /** v lies between a and b, inclusive, in either order. */
  predicate Between(v: real, a: real, b: real)
  {
    Min(a, b) <= v <= Max(a, b)
  }

  /** The closed parameter ranges [s1,s2] and [t1,t2] (each in either order) share a point. */
  predicate Overlap(s1: real, s2: real, t1: real, t2: real)
  {
    Max(Min(s1, s2), Min(t1, t2)) <= Min(Max(s1, s2), Max(t1, t2))
  }

  /** Three points on one line through o have determinant 0. */
  lemma DetOnLine(o: Point, u: Point, a: real, b: real, c: real)
    ensures Det(At(o, u, a), At(o, u, b), At(o, u, c)) == 0.0
  {
    var p, q, r := At(o, u, a), At(o, u, b), At(o, u, c);
    DetIsCross(p, q, r);
    assert Sub(q, p) == Point((b - a) * u.x, (b - a) * u.y);
    assert Sub(r, p) == Point((c - a) * u.x, (c - a) * u.y);
    assert Cross(Sub(q, p), Sub(r, p)) == (b - a) * (c - a) * (u.x * u.y - u.y * u.x);
  }

  /**
   * Scaling by a factor k and shifting by c preserves betweenness when k is
   * not zero, and makes it trivially true when k is zero (sk, ak, bk are
   * the scaled values s*k, a*k, b*k).
   */
  lemma BetweenScaled(c: real, k: real, s: real, a: real, b: real, sk: real, ak: real, bk: real)
    requires sk == s * k && ak == a * k && bk == b * k
    ensures k == 0.0 ==> Between(c + sk, c + ak, c + bk)
    ensures k != 0.0 ==> (Between(c + sk, c + ak, c + bk) <==> Between(s, a, b))
  {
    if k > 0.0 {
      MulMonotone(k, s, a, sk, ak);
      MulMonotone(k, s, b, sk, bk);
      MulMonotone(k, a, b, ak, bk);
      BetweenSameOrder(c, sk, ak, bk, s, a, b);
    } else if k < 0.0 {
      var m := -k;
      var sm, am, bm := s * m, a * m, b * m;
      MulMonotone(m, s, a, sm, am);
      MulMonotone(m, s, b, sm, bm);
      MulMonotone(m, a, b, am, bm);
      assert sk == -sm && ak == -am && bk == -bm;
      BetweenReversedOrder(c, sk, ak, bk, s, a, b);
    } else {
      assert sk == 0.0 && ak == 0.0 && bk == 0.0;
    }
  }

  lemma MulMonotone(k: real, x: real, y: real, xk: real, yk: real)
    requires k > 0.0 && xk == x * k && yk == y * k
    ensures x <= y <==> xk <= yk
    ensures y <= x <==> yk <= xk
  {
    assert yk - xk == (y - x) * k;
  }

  /** Betweenness carries over to values in the same relative order. */
  lemma BetweenSameOrder(c: real, sk: real, ak: real, bk: real, s: real, a: real, b: real)
    requires (s <= a <==> sk <= ak) && (a <= s <==> ak <= sk)
    requires (s <= b <==> sk <= bk) && (b <= s <==> bk <= sk)
    requires (a <= b <==> ak <= bk) && (b <= a <==> bk <= ak)
    ensures Between(c + sk, c + ak, c + bk) <==> Between(s, a, b)
  {
  }

  /** Betweenness carries over to values in the reversed relative order. */
  lemma BetweenReversedOrder(c: real, sk: real, ak: real, bk: real, s: real, a: real, b: real)
    requires (s <= a <==> sk >= ak) && (a <= s <==> ak >= sk)
    requires (s <= b <==> sk >= bk) && (b <= s <==> bk >= sk)
    requires (a <= b <==> ak >= bk) && (b <= a <==> bk >= ak)
    ensures Between(c + sk, c + ak, c + bk) <==> Between(s, a, b)
  {
  }

  /** The box test is betweenness in each coordinate. */
  lemma BoundaryIsBetween(p: Point, line: Line)
    ensures IsInBoundary(p, line) <==> Between(p.x, line.p1.x, line.p2.x) && Between(p.y, line.p1.y, line.p2.y)
  {
  }

  /**
   * The box test on shifted coordinates: each coordinate that moves with the
   * parameter (scale kx or ky non-zero) is in range iff the parameter is,
   * and a coordinate that does not move is always in range.
   */
  lemma BoxOfShifted(ox: real, oy: real, kx: real, ky: real, s: real, t1: real, t2: real,
                     sx: real, t1x: real, t2x: real, sy: real, t1y: real, t2y: real, n: Option<Point>)
    requires kx != 0.0 || ky != 0.0
    requires kx == 0.0 ==> Between(ox + sx, ox + t1x, ox + t2x)
    requires kx != 0.0 ==> (Between(ox + sx, ox + t1x, ox + t2x) <==> Between(s, t1, t2))
    requires ky == 0.0 ==> Between(oy + sy, oy + t1y, oy + t2y)
    requires ky != 0.0 ==> (Between(oy + sy, oy + t1y, oy + t2y) <==> Between(s, t1, t2))
    ensures IsInBoundary(Point(ox + sx, oy + sy), Line(Point(ox + t1x, oy + t1y), Point(ox + t2x, oy + t2y), n))
      <==> Between(s, t1, t2)
  {
    BoundaryIsBetween(Point(ox + sx, oy + sy), Line(Point(ox + t1x, oy + t1y), Point(ox + t2x, oy + t2y), n));
  }

  lemma AtShifted(o: Point, u: Point, t: real, tx: real, ty: real)
    requires tx == t * u.x && ty == t * u.y
    ensures At(o, u, t) == Point(o.x + tx, o.y + ty)
  {
  }

  /** A point of the line is in the box of a segment of the same line iff its parameter is in range. */
  lemma AtInBoundary(o: Point, u: Point, s: real, t1: real, t2: real, n: Option<Point>)
    requires u != Point(0.0, 0.0)
    ensures IsInBoundary(At(o, u, s), Line(At(o, u, t1), At(o, u, t2), n)) <==> Between(s, t1, t2)
  {
    var sx, t1x, t2x := s * u.x, t1 * u.x, t2 * u.x;
    var sy, t1y, t2y := s * u.y, t1 * u.y, t2 * u.y;
    AtShifted(o, u, s, sx, sy);
    AtShifted(o, u, t1, t1x, t1y);
    AtShifted(o, u, t2, t2x, t2y);
    BetweenScaled(o.x, u.x, s, t1, t2, sx, t1x, t2x);
    BetweenScaled(o.y, u.y, s, t1, t2, sy, t1y, t2y);
    BoxOfShifted(o.x, o.y, u.x, u.y, s, t1, t2, sx, t1x, t2x, sy, t1y, t2y, n);
  }

  /**
   * Collinear segments on one line cross exactly when their parameter
   * ranges overlap or touch.
   */
  lemma CollinearCrossesIffOverlap(o: Point, u: Point, s1: real, s2: real, t1: real, t2: real, n1: Option<Point>, n2: Option<Point>)
    requires u != Point(0.0, 0.0)
    ensures Crosses(Line(At(o, u, s1), At(o, u, s2), n1), Line(At(o, u, t1), At(o, u, t2), n2))
      <==> Overlap(s1, s2, t1, t2)
  {
    var l1 := Line(At(o, u, s1), At(o, u, s2), n1);
    var l2 := Line(At(o, u, t1), At(o, u, t2), n2);
    DetOnLine(o, u, t1, t2, s1);
    DetOnLine(o, u, t1, t2, s2);
    DetOnLine(o, u, s1, s2, t1);
    DetOnLine(o, u, s1, s2, t2);
    AtInBoundary(o, u, s1, t1, t2, n2);
    AtInBoundary(o, u, s2, t1, t2, n2);
    AtInBoundary(o, u, t1, s1, s2, n1);
    AtInBoundary(o, u, t2, s1, s2, n1);
    assert Crosses(l1, l2) <==>
      Between(s1, t1, t2) || Between(s2, t1, t2) || Between(t1, s1, s2) || Between(t2, s1, s2);
  }
}
