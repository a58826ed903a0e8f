/**
 * A segment tagged with the sweep position at which it is compared
 * (src/lib/line_with_ord.rs). Entries compare by the y-coordinate of their
 * segment's line at their own stored `sweepX`, so every stored entry has a
 * fixed key, whatever the sweep does later.
 */
module LinesWithOrd {
  import opened Common
  import opened Points
  import opened Orientation
  import opened Lines

  /** `LineWithOrd`; the datatype constructor is `LineWithOrd::new`, which stores both fields unchanged. */
  datatype LineWithOrd = LineWithOrd(line: Line, sweepX: real)

  /** The segment counts as vertical when its x-extent is below the tolerance. */
  predicate Vertical(line: Line)
  {
    Abs(line.p2.x - line.p1.x) < EPSILON
  }

  /**
   * `y_at`: the y-coordinate of the segment's line at `sweepX`, or the first
   * endpoint's y for a vertical segment.
   */
  function YAt(s: LineWithOrd): real
  {
    var x0, y0 := s.line.p1.x, s.line.p1.y;
    var x1, y1 := s.line.p2.x, s.line.p2.y;
    if Abs(x1 - x0) < EPSILON then y0
    else y0 + ((s.sweepX - x0) / (x1 - x0)) * (y1 - y0)
  }

  /**
   * The key of an entry is the first endpoint's y for a vertical segment;
   * otherwise (sweepX, key) lies on the segment's line, and the key is the
   * endpoint's y when sweepX is an endpoint's x.
   */
  lemma YAtOnLine(s: LineWithOrd)
    ensures Vertical(s.line) ==> YAt(s) == s.line.p1.y
    ensures !Vertical(s.line) ==> Det(s.line.p1, s.line.p2, Point(s.sweepX, YAt(s))) == 0.0
    ensures !Vertical(s.line) && s.sweepX == s.line.p1.x ==> YAt(s) == s.line.p1.y
    ensures !Vertical(s.line) && s.sweepX == s.line.p2.x ==> YAt(s) == s.line.p2.y
  {
    if !Vertical(s.line) {
      OnSegmentLine(s.line.p1, s.line.p2, s.sweepX, YAt(s));
    }
  }

  /**
   * The point (x, y0 + t·(y1 - y0)) with t = (x - x0)/(x1 - x0) lies on the
   * line through (x0, y0) and (x1, y1), and is the second point at x = x1.
   */
  lemma OnSegmentLine(p: Point, q: Point, x: real, y: real)
    requires q.x - p.x != 0.0
    requires y == p.y + ((x - p.x) / (q.x - p.x)) * (q.y - p.y)
    ensures Det(p, q, Point(x, y)) == 0.0
    ensures x == q.x ==> y == q.y
  {
    var dx, dy := q.x - p.x, q.y - p.y;
    var t := (x - p.x) / dx;
    assert t * dx == x - p.x;
    DetIsCross(p, q, Point(x, y));
    assert y - p.y == t * dy;
    assert Cross(Point(dx, dy), Point(x - p.x, t * dy)) == dx * (t * dy) - dy * (t * dx);
  }

  /** `Ord::cmp` (and `partial_cmp`): the order of the two keys. */
  function Cmp(a: LineWithOrd, b: LineWithOrd): (r: Ordering)
    ensures r == Less <==> YAt(a) < YAt(b)
    ensures r == Equal <==> YAt(a) == YAt(b)
    ensures r == Greater <==> YAt(a) > YAt(b)
  {
    CompareReal(YAt(a), YAt(b))
  }

  /** `PartialEq::eq`: equal keys, whatever the segments. */
  predicate Eq(a: LineWithOrd, b: LineWithOrd)
  {
    Cmp(a, b) == Equal
  }

  /** `cmp` is a total preorder: reflexive, antisymmetric as orderings, transitive. */
  lemma CmpTotalPreorder(a: LineWithOrd, b: LineWithOrd, c: LineWithOrd)
    ensures Cmp(a, a) == Equal
    ensures Cmp(b, a) == Flip(Cmp(a, b))
    ensures Cmp(a, b) != Greater && Cmp(b, c) != Greater ==> Cmp(a, c) != Greater
    ensures Eq(a, b) && Eq(b, c) ==> Eq(a, c)
  {
  }

  /**
   * Equality ignores the segments: two different segments starting at
   * (0, 0), one rising and one falling, are equal entries at sweep position 0.
   */
  lemma EqIgnoresLine(a: LineWithOrd, b: LineWithOrd)
    requires a == LineWithOrd(Line(Point(0.0, 0.0), Point(1.0, 1.0), None), 0.0)
    requires b == LineWithOrd(Line(Point(0.0, 0.0), Point(1.0, -1.0), None), 0.0)
    ensures a.line != b.line && Eq(a, b)
  {
    assert !Vertical(a.line) && a.sweepX == a.line.p1.x;
    assert !Vertical(b.line) && b.sweepX == b.line.p1.x;
    YAtOnLine(a);
    YAtOnLine(b);
  }
}
