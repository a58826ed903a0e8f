/**
 * The lattice test of src/bin/p01.rs:207-268: for two segments with
 * integer coordinates, the representative of their four orientations is
 * never (Left, Middle, Middle, Middle) nor (Left, Right, Middle, Middle).
 * The test walks a 7x7 (and 7x8) grid; the lemmas here cover every integer
 * coordinate. Off the lattice the tolerance band makes the first case
 * reachable.
 */
module Lattice {
  import opened Common
  import opened Points
  import opened Orientation
  import opened Lines
  import opened CcwCases
  import O = Orientation

  /** `impossible1` of the test. */
  const IMPOSSIBLE1: CcwCombination := CcwCombination(Left, Middle, Middle, Middle)
  /** `impossible2` of the test. */
  const IMPOSSIBLE2: CcwCombination := CcwCombination(Left, Right, Middle, Middle)

  /**
   * The combination the test builds for l1 and l2: the orientations of l2's
   * endpoints against l1, then of l1's endpoints against l2.
   */
  function TestCombination(l1: Line, l2: Line): CcwCombination
  {
    CcwCombination(CcwOf(l1.p1, l1.p2, l2.p1), CcwOf(l1.p1, l1.p2, l2.p2),
                   CcwOf(l2.p1, l2.p2, l1.p1), CcwOf(l2.p1, l2.p2, l1.p2))
  }

  /** A point with integer coordinates. */
  predicate OnLattice(p: Point)
  {
    p.x == p.x.Floor as real && p.y == p.y.Floor as real
  }

  /**
   * The representative is one of the two cases exactly when one segment's
   * pair is (Middle, Middle) and the other pair holds two different values.
   */
  lemma ImpossibleCharacterised(c: CcwCombination)
    ensures Minimize(c) == IMPOSSIBLE1 || Minimize(c) == IMPOSSIBLE2 <==>
      (c.ccw3 == Middle && c.ccw4 == Middle && c.ccw1 != c.ccw2)
      || (c.ccw1 == Middle && c.ccw2 == Middle && c.ccw3 != c.ccw4)
  {
  }

  lemma ZeroProduct(a: real, b: real)
    requires a * b == 0.0 && a != 0.0
    ensures b == 0.0
  {
  }

  /**
   * Exactly collinear points stay collinear seen from either segment: if r
   * and s lie on the line through p != q, then p and q lie on the line
   * through r and s.
   */
  lemma CollinearTransfer(p: Point, q: Point, r: Point, s: Point)
    requires p != q && Det(p, q, r) == 0.0 && Det(p, q, s) == 0.0
    ensures Det(r, s, p) == 0.0 && Det(r, s, q) == 0.0
  {
    var u, v, w := Sub(q, p), Sub(r, p), Sub(s, p);
    DetIsCross(p, q, r);
    DetIsCross(p, q, s);
    var x := Cross(v, w);
    assert u.x * x == v.x * Cross(u, w) - w.x * Cross(u, v);
    assert u.y * x == v.y * Cross(u, w) - w.y * Cross(u, v);
    if u.x != 0.0 {
      ZeroProduct(u.x, x);
    } else {
      ZeroProduct(u.y, x);
    }
    DetIsCross(r, s, p);
    assert Det(r, s, p) == x;
    assert Det(r, s, q) == Cross(Sub(r, q), Sub(s, q));
    assert Cross(Sub(r, q), Sub(s, q)) == x - Cross(v, u) - Cross(u, w);
  }

  /** On the lattice the determinant is an integer. */
  lemma LatticeDetIsInteger(p: Point, q: Point, r: Point)
    requires OnLattice(p) && OnLattice(q) && OnLattice(r)
    ensures Det(p, q, r) == Det(p, q, r).Floor as real
  {
    var a, b, c, d, e, f := p.x.Floor, p.y.Floor, q.x.Floor, q.y.Floor, r.x.Floor, r.y.Floor;
    var n := a * d - b * c + c * f - d * e + b * e - a * f;
    assert (a as real) * (d as real) == (a * d) as real;
    assert (b as real) * (c as real) == (b * c) as real;
    assert (c as real) * (f as real) == (c * f) as real;
    assert (d as real) * (e as real) == (d * e) as real;
    assert (b as real) * (e as real) == (b * e) as real;
    assert (a as real) * (f as real) == (a * f) as real;
    assert Det(p, q, r) == n as real;
  }

  /** On the lattice the tolerance band holds only the exact zero. */
  lemma LatticeCcwIsExact(p: Point, q: Point, r: Point)
    requires OnLattice(p) && OnLattice(q) && OnLattice(r)
    ensures O.Ccw(p, q, r) == 0 <==> Det(p, q, r) == 0.0
  {
    LatticeDetIsInteger(p, q, r);
  }

  /**
   * If both endpoints of `seg` are collinear with `base`, the endpoints of
   * `base` get one and the same orientation against `seg`.
   */
  lemma CollinearPairForcesConstantPair(seg: Line, base: Line)
    requires OnLattice(seg.p1) && OnLattice(seg.p2) && OnLattice(base.p1) && OnLattice(base.p2)
    requires O.Ccw(base.p1, base.p2, seg.p1) == 0 && O.Ccw(base.p1, base.p2, seg.p2) == 0
    ensures O.Ccw(seg.p1, seg.p2, base.p1) == O.Ccw(seg.p1, seg.p2, base.p2)
  {
    if base.p1 != base.p2 {
      LatticeCcwIsExact(base.p1, base.p2, seg.p1);
      LatticeCcwIsExact(base.p1, base.p2, seg.p2);
      CollinearTransfer(base.p1, base.p2, seg.p1, seg.p2);
      LatticeCcwIsExact(seg.p1, seg.p2, base.p1);
      LatticeCcwIsExact(seg.p1, seg.p2, base.p2);
    }
  }

  /** The assertion of the lattice test, for all integer coordinates. */
  lemma LatticeExcludesImpossible(l1: Line, l2: Line)
    requires OnLattice(l1.p1) && OnLattice(l1.p2) && OnLattice(l2.p1) && OnLattice(l2.p2)
    ensures Minimize(TestCombination(l1, l2)) != IMPOSSIBLE1
    ensures Minimize(TestCombination(l1, l2)) != IMPOSSIBLE2
  {
    var c := TestCombination(l1, l2);
    ImpossibleCharacterised(c);
    if c.ccw3 == Middle && c.ccw4 == Middle {
      CollinearPairForcesConstantPair(l1, l2);
    }
    if c.ccw1 == Middle && c.ccw2 == Middle {
      CollinearPairForcesConstantPair(l2, l1);
    }
  }

  /** (Middle, Right, Middle, Middle) has the first impossible case as representative. */
  lemma MiddleRightRepresentative(c: CcwCombination)
    requires c == CcwCombination(Middle, Right, Middle, Middle)
    ensures Minimize(c) == IMPOSSIBLE1
  {
  }

  /** The first segment of the example below: (-1,0)-(1,0). */
  const AXIS_LEFT := Point(-1.0, 0.0)
  const AXIS_RIGHT := Point(1.0, 0.0)
  /** The second segment of the example below: (0,0)-(1, 0.75e-12). */
  const RAY_START := Point(0.0, 0.0)
  const RAY_END := Point(1.0, 0.75 * EPSILON)

  /** Against (-1,0)-(1,0) the origin is collinear. */
  lemma AxisStartOrientation()
    ensures CcwOf(AXIS_LEFT, AXIS_RIGHT, RAY_START) == Middle
  {
    O.CcwOfDet(AXIS_LEFT, AXIS_RIGHT, RAY_START, 0.0);
  }

  /** Against (-1,0)-(1,0) the point (1, 0.75e-12), at determinant 1.5e-12, is beyond the band. */
  lemma AxisEndOrientation()
    ensures CcwOf(AXIS_LEFT, AXIS_RIGHT, RAY_END) == Right
  {
    O.CcwOfDet(AXIS_LEFT, AXIS_RIGHT, RAY_END, 1.5 * EPSILON);
  }

  /** Against (0,0)-(1, 0.75e-12): both (-1,0) and (1,0) are within the band. */
  lemma RayOrientations()
    ensures CcwOf(RAY_START, RAY_END, AXIS_LEFT) == Middle
    ensures CcwOf(RAY_START, RAY_END, AXIS_RIGHT) == Middle
  {
    O.CcwOfDet(RAY_START, RAY_END, AXIS_LEFT, 0.75 * EPSILON);
    O.CcwOfDet(RAY_START, RAY_END, AXIS_RIGHT, -0.75 * EPSILON);
  }

  /**
   * For l1 = (-1,0)-(1,0) and l2 = (0,0)-(1, 0.75e-12), both ends of l1 are
   * within the band against l2, while against l1 the far end of l2 is at
   * 1.5e-12, beyond it.
   */
  lemma OffLatticeOrientations(l1: Line, l2: Line)
    requires l1.p1 == AXIS_LEFT && l1.p2 == AXIS_RIGHT
    requires l2.p1 == RAY_START && l2.p2 == RAY_END
    ensures TestCombination(l1, l2) == CcwCombination(Middle, Right, Middle, Middle)
  {
    AxisStartOrientation();
    AxisEndOrientation();
    RayOrientations();
  }

  /** Off the lattice the first impossible case occurs, for the segments above. */
  lemma ImpossibleOffLattice(l1: Line, l2: Line)
    requires l1.p1 == AXIS_LEFT && l1.p2 == AXIS_RIGHT
    requires l2.p1 == RAY_START && l2.p2 == RAY_END
    ensures Minimize(TestCombination(l1, l2)) == IMPOSSIBLE1
  {
    OffLatticeOrientations(l1, l2);
    MiddleRightRepresentative(TestCombination(l1, l2));
  }
}
