/**
 * The first crossing test of the repository (src/bin/01.rs:46-59): two
 * segments cross when each one's endpoints get different orientations
 * against the other's line. The file's own comment marks it as not always
 * correct; the boundary-aware `Lines.Crosses` replaces it.
 */
module NaiveCrossing {
  import opened Common
  import opened Points
  import opened Orientation
  import opened Lines
  import opened CrossingCases

  /** `Line::crosses` of src/bin/01.rs. */
  predicate NaiveCrosses(self: Line, other: Line)
  {
    var a := Ccw(other.p1, other.p2, self.p1);
    var b := Ccw(other.p1, other.p2, self.p2);
    var c := Ccw(self.p1, self.p2, other.p1);
    var d := Ccw(self.p1, self.p2, other.p2);
    a != b && c != d
  }

  /** The naive test is symmetric in its two segments. */
  lemma NaiveCrossesSymmetric(l1: Line, l2: Line)
    ensures NaiveCrosses(l1, l2) == NaiveCrosses(l2, l1)
  {
  }

  /**
   * Away from collinear endpoints the naive test and the boundary-aware
   * test agree.
   */
  lemma NaiveAgreesWithoutCollinearEndpoint(l1: Line, l2: Line)
    requires Ccw(l2.p1, l2.p2, l1.p1) != 0 && Ccw(l2.p1, l2.p2, l1.p2) != 0
    requires Ccw(l1.p1, l1.p2, l2.p1) != 0 && Ccw(l1.p1, l1.p2, l2.p2) != 0
    ensures NaiveCrosses(l1, l2) == Crosses(l1, l2)
  {
    CrossesWithoutCollinearEndpoint(l1, l2);
  }

  /** Segments whose four endpoints are all collinear never cross under the naive test. */
  lemma NaiveRejectsCollinear(l1: Line, l2: Line)
    requires Ccw(l2.p1, l2.p2, l1.p1) == 0 && Ccw(l2.p1, l2.p2, l1.p2) == 0
    ensures !NaiveCrosses(l1, l2)
  {
  }

  /**
   * The defect the source admits: two collinear segments that overlap are
   * rejected by the naive test, while the boundary-aware test reports the
   * crossing. Both segments lie on the line through o with direction u.
   */
  lemma NaiveMissesCollinearOverlap(o: Point, u: Point, s1: real, s2: real, t1: real, t2: real, n1: Option<Point>, n2: Option<Point>)
    requires u != Point(0.0, 0.0) && Overlap(s1, s2, t1, t2)
    ensures var l1, l2 := Line(At(o, u, s1), At(o, u, s2), n1), Line(At(o, u, t1), At(o, u, t2), n2);
      !NaiveCrosses(l1, l2) && Crosses(l1, l2)
  {
    CollinearCrossesIffOverlap(o, u, s1, s2, t1, t2, n1, n2);
    DetOnLine(o, u, t1, t2, s1);
    DetOnLine(o, u, t1, t2, s2);
    NaiveRejectsCollinear(Line(At(o, u, s1), At(o, u, s2), n1), Line(At(o, u, t1), At(o, u, t2), n2));
  }

  /** Three points on the y-axis are collinear. */
  lemma OnYAxis(p: Point, q: Point, r: Point)
    requires p.x == 0.0 && q.x == 0.0 && r.x == 0.0
    ensures Ccw(p, q, r) == 0
  {
    CcwOfDet(p, q, r, 0.0);
  }

  const BOTTOM := Point(0.0, 0.0)
  const TOP := Point(0.0, 1.0)
  const MID_LOW := Point(0.0, 0.5)
  const MID_HIGH := Point(0.0, 1.5)

  /** A concrete instance: (0,0)-(0,1) and (0,0.5)-(0,1.5). */
  lemma NaiveMissesOverlapExample(l1: Line, l2: Line)
    requires l1.p1 == BOTTOM && l1.p2 == TOP
    requires l2.p1 == MID_LOW && l2.p2 == MID_HIGH
    ensures !NaiveCrosses(l1, l2) && Crosses(l1, l2)
  {
    OnYAxis(MID_LOW, MID_HIGH, BOTTOM);
    OnYAxis(MID_LOW, MID_HIGH, TOP);
    OnYAxis(BOTTOM, TOP, MID_LOW);
    OnYAxis(BOTTOM, TOP, MID_HIGH);
    NaiveRejectsCollinear(l1, l2);
    assert IsInBoundary(l2.p1, l1);
    CollinearEndpointCrosses(l2, l1);
    CrossesSymmetric(l1, l2);
  }
}
