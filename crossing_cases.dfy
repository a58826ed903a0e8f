/**
 * The segment pairs of the unit tests of src/bin/p01.rs:159-362, each
 * checked in both directions as the tests do. The points are given through
 * preconditions, and each orientation is read off a determinant value.
 */
module CrossingCases {
  import opened Common
  import opened Points
  import opened Orientation
  import opened Lines

  /** Both endpoints of l1 strictly on the same side of l2's line: no crossing. */
  lemma OneSideNoCross(l1: Line, l2: Line)
    requires Ccw(l2.p1, l2.p2, l1.p1) == Ccw(l2.p1, l2.p2, l1.p2) != 0
    ensures !Crosses(l1, l2)
  {
  }

  /**
   * An endpoint of l1 collinear with l2 and inside its box makes them
   * cross, unless l2's endpoints lie strictly on one side of l1's line.
   */
  lemma CollinearEndpointCrosses(l1: Line, l2: Line)
    requires Ccw(l2.p1, l2.p2, l1.p1) == 0 && IsInBoundary(l1.p1, l2)
    requires Ccw(l1.p1, l1.p2, l2.p1) * Ccw(l1.p1, l1.p2, l2.p2) != 1
    ensures Crosses(l1, l2)
  {
  }

  const ORIGIN := Point(0.0, 0.0)
  const UP := Point(0.0, 1.0)
  const RIGHT := Point(1.0, 0.0)
  const LEFT := Point(-1.0, 0.0)
  const UP_RIGHT := Point(1.0, 1.0)

  /** The origin is left of the upward line x = 1. */
  lemma OriginLeftOfUnitLine()
    ensures Ccw(RIGHT, UP_RIGHT, ORIGIN) == 1
  {
    CcwOfDet(RIGHT, UP_RIGHT, ORIGIN, 1.0);
  }

  /** (0,1) is left of the upward line x = 1. */
  lemma UpLeftOfUnitLine()
    ensures Ccw(RIGHT, UP_RIGHT, UP) == 1
  {
    CcwOfDet(RIGHT, UP_RIGHT, UP, 1.0);
  }

  /** The origin lies on the x-axis. */
  lemma OriginOnXAxis()
    ensures Ccw(LEFT, RIGHT, ORIGIN) == 0
  {
    CcwOfDet(LEFT, RIGHT, ORIGIN, 0.0);
  }

  /** (-1,0) is left of the upward y-axis. */
  lemma LeftOfYAxis()
    ensures Ccw(ORIGIN, UP, LEFT) == 1
  {
    CcwOfDet(ORIGIN, UP, LEFT, 1.0);
  }

  /** (1,0) is right of the upward y-axis. */
  lemma RightOfYAxis()
    ensures Ccw(ORIGIN, UP, RIGHT) == -1
  {
    CcwOfDet(ORIGIN, UP, RIGHT, -1.0);
  }

  /** Two parallel vertical segments one apart, (0,0)-(0,1) and (1,0)-(1,1), do not cross. */
  lemma ParallelDisjoint(l1: Line, l2: Line)
    requires l1.p1 == ORIGIN && l1.p2 == UP
    requires l2.p1 == RIGHT && l2.p2 == UP_RIGHT
    ensures !Crosses(l1, l2) && !Crosses(l2, l1)
  {
    OriginLeftOfUnitLine();
    UpLeftOfUnitLine();
    OneSideNoCross(l1, l2);
    CrossesSymmetric(l1, l2);
  }

  /** Segments sharing the endpoint (0,0), (0,0)-(0,1) and (0,0)-(1,1), cross. */
  lemma SharedEndpoint(l1: Line, l2: Line)
    requires l1.p1 == ORIGIN && l1.p2 == UP
    requires l2.p1 == ORIGIN && l2.p2 == UP_RIGHT
    ensures Crosses(l1, l2) && Crosses(l2, l1)
  {
    CcwDegenerate(ORIGIN, UP_RIGHT);
    CcwDegenerate(ORIGIN, UP);
    BoundaryOfEndpoints(l1.p1, l2);
    CollinearEndpointCrosses(l1, l2);
    CrossesSymmetric(l1, l2);
  }

  /** The vertical (0,0)-(0,1) and the horizontal (-1,0)-(1,0) meet at (0,0) and cross. */
  lemma PerpendicularTouching(l1: Line, l2: Line)
    requires l1.p1 == ORIGIN && l1.p2 == UP
    requires l2.p1 == LEFT && l2.p2 == RIGHT
    ensures Crosses(l1, l2) && Crosses(l2, l1)
  {
    OriginOnXAxis();
    LeftOfYAxis();
    RightOfYAxis();
    assert IsInBoundary(l1.p1, l2);
    CollinearEndpointCrosses(l1, l2);
    CrossesSymmetric(l1, l2);
  }

  /**
   * Collinear segments on the y-axis: (0,0)-(0,1) crosses (0,1)-(0,1.5),
   * which touches it at (0,1), and does not cross (0,1.5)-(0,2).
   */
  lemma CollinearCases(l1: Line, l2: Line, l3: Line)
    requires l1.p1 == ORIGIN && l1.p2 == UP
    requires l2.p1 == Point(0.0, 1.0) && l2.p2 == Point(0.0, 1.5)
    requires l3.p1 == Point(0.0, 1.5) && l3.p2 == Point(0.0, 2.0)
    ensures Crosses(l1, l2) && Crosses(l2, l1)
    ensures !Crosses(l1, l3) && !Crosses(l3, l1)
  {
    var o, u := l1.p1, l1.p2;
    assert l1 == Line(At(o, u, 0.0), At(o, u, 1.0), l1.n);
    assert l2 == Line(At(o, u, l2.p1.y), At(o, u, l2.p2.y), l2.n);
    assert l3 == Line(At(o, u, l3.p1.y), At(o, u, l3.p2.y), l3.n);
    CollinearCrossesIffOverlap(o, u, 0.0, 1.0, l2.p1.y, l2.p2.y, l1.n, l2.n);
    CollinearCrossesIffOverlap(o, u, 0.0, 1.0, l3.p1.y, l3.p2.y, l1.n, l3.n);
    CrossesSymmetric(l1, l2);
    CrossesSymmetric(l1, l3);
  }

  const DOWN := Point(0.0, -1.0)
  const DOWN_LEFT := Point(-1.0, -1.0)
  const DOWN_RIGHT := Point(1.0, -1.0)

  /** The origin is left of the rising segment (0,-1)-(1,1). */
  lemma OriginLeftOfRisingLine()
    ensures Ccw(DOWN, UP_RIGHT, ORIGIN) == 1
  {
    CcwOfDet(DOWN, UP_RIGHT, ORIGIN, 1.0);
  }

  /** (0,1) is left of the rising segment (0,-1)-(1,1). */
  lemma UpLeftOfRisingLine()
    ensures Ccw(DOWN, UP_RIGHT, UP) == 1
  {
    CcwOfDet(DOWN, UP_RIGHT, UP, 2.0);
  }

  /** The origin is above the horizontal segment (-1,-1)-(1,-1). */
  lemma OriginAboveLowLine()
    ensures Ccw(DOWN_LEFT, DOWN_RIGHT, ORIGIN) == 1
  {
    CcwOfDet(DOWN_LEFT, DOWN_RIGHT, ORIGIN, 2.0);
  }

  /** (0,1) is above the horizontal segment (-1,-1)-(1,-1). */
  lemma UpAboveLowLine()
    ensures Ccw(DOWN_LEFT, DOWN_RIGHT, UP) == 1
  {
    CcwOfDet(DOWN_LEFT, DOWN_RIGHT, UP, 4.0);
  }

  /** (1,1) is right of the upward y-axis. */
  lemma UpRightRightOfYAxis()
    ensures Ccw(ORIGIN, UP, UP_RIGHT) == -1
  {
    CcwOfDet(ORIGIN, UP, UP_RIGHT, -1.0);
  }

  /** The origin is right of the slanted segment (-1,0)-(1,1). */
  lemma OriginRightOfSlantLine()
    ensures Ccw(LEFT, UP_RIGHT, ORIGIN) == -1
  {
    CcwOfDet(LEFT, UP_RIGHT, ORIGIN, -1.0);
  }

  /** (0,1) is left of the slanted segment (-1,0)-(1,1). */
  lemma UpLeftOfSlantLine()
    ensures Ccw(LEFT, UP_RIGHT, UP) == 1
  {
    CcwOfDet(LEFT, UP_RIGHT, UP, 1.0);
  }

  /** (0,0)-(0,1) lies left of the line of (0,-1)-(1,1), so the two do not cross. */
  lemma BesideRisingSegment(l1: Line, l2: Line)
    requires l1.p1 == ORIGIN && l1.p2 == UP
    requires l2.p1 == DOWN && l2.p2 == UP_RIGHT
    ensures !Crosses(l1, l2) && !Crosses(l2, l1)
  {
    OriginLeftOfRisingLine();
    UpLeftOfRisingLine();
    OneSideNoCross(l1, l2);
    CrossesSymmetric(l1, l2);
  }

  /** (0,0)-(0,1) lies above the line of (-1,-1)-(1,-1), so the two do not cross. */
  lemma AboveLowSegment(l1: Line, l2: Line)
    requires l1.p1 == ORIGIN && l1.p2 == UP
    requires l2.p1 == DOWN_LEFT && l2.p2 == DOWN_RIGHT
    ensures !Crosses(l1, l2) && !Crosses(l2, l1)
  {
    OriginAboveLowLine();
    UpAboveLowLine();
    OneSideNoCross(l1, l2);
    CrossesSymmetric(l1, l2);
  }

  /** The single-point segment (1,1)-(1,1) lies right of (0,0)-(0,1), so the two do not cross. */
  lemma PointBesideSegment(l1: Line, l2: Line)
    requires l1.p1 == ORIGIN && l1.p2 == UP
    requires l2.p1 == UP_RIGHT && l2.p2 == UP_RIGHT
    ensures !Crosses(l1, l2) && !Crosses(l2, l1)
  {
    UpRightRightOfYAxis();
    OneSideNoCross(l2, l1);
    CrossesSymmetric(l1, l2);
  }

  /** (0,0)-(0,1) and (-1,0)-(1,1) straddle each other's lines, so they cross. */
  lemma ProperCrossing(l1: Line, l2: Line)
    requires l1.p1 == ORIGIN && l1.p2 == UP
    requires l2.p1 == LEFT && l2.p2 == UP_RIGHT
    ensures Crosses(l1, l2) && Crosses(l2, l1)
  {
    OriginRightOfSlantLine();
    UpLeftOfSlantLine();
    LeftOfYAxis();
    UpRightRightOfYAxis();
    CrossesWithoutCollinearEndpoint(l1, l2);
    CrossesSymmetric(l1, l2);
  }
}
