/**
 * The orientation predicate `ccw` (src/lib/ccw.rs:90-100; the same function is
 * copied verbatim into src/bin/p01.rs:25-35, src/bin/p02.rs:44-54 and
 * src/bin/01.rs:11-21).
 */
module Orientation {
  import opened Common
  import opened Points

  /** Twice the signed area of the triangle p, q, r, as the source computes it. */
  function Det(p: Point, q: Point, r: Point): real
  {
    p.x * q.y - p.y * q.x + q.x * r.y - q.y * r.x + p.y * r.x - p.x * r.y
  }

  /**
   * -1 (clockwise), 0 (collinear within the tolerance band) or 1
   * (counter-clockwise). The band is half-open: a determinant of exactly
   * -EPSILON is 0, one of exactly EPSILON is 1.
   */
  function Ccw(p: Point, q: Point, r: Point): (s: int)
    ensures s == -1 <==> Det(p, q, r) < -EPSILON
    ensures s == 0 <==> -EPSILON <= Det(p, q, r) < EPSILON
    ensures s == 1 <==> EPSILON <= Det(p, q, r)
  {
    var ccw := Det(p, q, r);
    if ccw < -EPSILON then -1
    else if ccw < EPSILON then 0
    else 1
  }

  /** The determinant is the cross product of the two edge vectors leaving p. */
  lemma DetIsCross(p: Point, q: Point, r: Point)
    ensures Det(p, q, r) == Cross(Sub(q, p), Sub(r, p))
  {
  }

  /** Rotating the three points cyclically does not change the orientation. */
  lemma CcwCyclic(p: Point, q: Point, r: Point)
    ensures Ccw(p, q, r) == Ccw(q, r, p) == Ccw(r, p, q)
  {
    assert Det(p, q, r) == Det(q, r, p) == Det(r, p, q);
  }

  /**
   * Swapping the first two points negates the orientation exactly when the
   * determinant does not sit on an edge of the tolerance band.
   */
  lemma CcwSwapNegates(p: Point, q: Point, r: Point)
    ensures Ccw(q, p, r) == -Ccw(p, q, r) <==> Abs(Det(p, q, r)) != EPSILON
  {
    assert Det(q, p, r) == -Det(p, q, r);
  }

  /** A concrete triple on the band edge: (0,0), (1,0), (0,1e-12) is 1, but swapped it is 0. */
  lemma CcwSwapBandEdgeWitness()
    ensures var p, q, r := Point(0.0, 0.0), Point(1.0, 0.0), Point(0.0, EPSILON);
      Ccw(p, q, r) == 1 && Ccw(q, p, r) == 0
  {
  }

  /** Two equal points make any triple collinear. */
  lemma CcwDegenerate(p: Point, r: Point)
    ensures Ccw(p, p, r) == 0 && Ccw(p, r, p) == 0 && Ccw(r, p, p) == 0
  {
  }

  /** The orientation that a known determinant value h gives. */
  lemma CcwOfDet(p: Point, q: Point, r: Point, h: real)
    requires Det(p, q, r) == h
    ensures h >= EPSILON ==> Ccw(p, q, r) == 1
    ensures -EPSILON <= h < EPSILON ==> Ccw(p, q, r) == 0
    ensures h < -EPSILON ==> Ccw(p, q, r) == -1
  {
  }
}
