/** Points of the plane and their component-wise arithmetic (src/lib/point.rs). */
module Points {

  datatype Point = Point(x: real, y: real)

  /**
   * `Add` for `Point`, `Add<&Point>` for `Point` and `Add` for `&Point`:
   * the three impls differ only in ownership and compute the same sum.
   */
  function Add(p: Point, q: Point): Point
  {
    Point(p.x + q.x, p.y + q.y)
  }

  function Sub(p: Point, q: Point): Point
  {
    Point(p.x - q.x, p.y - q.y)
  }

  /** Subtraction undoes addition and addition undoes subtraction. */
  lemma AddSubInverse(p: Point, q: Point)
    ensures Add(Sub(p, q), q) == p
    ensures Sub(Add(p, q), q) == p
  {
  }

  /** Addition is commutative, so `a + b` and `b + a` give the same point whichever impl runs. */
  lemma AddCommutes(p: Point, q: Point)
    ensures Add(p, q) == Add(q, p)
  {
  }

  /**
   * `AddAssign`: updates the receiver in place, first its x and then its y.
   * A `Point` is a `Copy` value, so the in-place update is modelled on the
   * receiver's value, which the method returns.
   */
  method AddAssign(self: Point, other: Point) returns (updated: Point)
    ensures updated == Add(self, other)
    ensures Sub(updated, other) == self
  {
    updated := self;
    updated := updated.(x := updated.x + other.x);
    updated := updated.(y := updated.y + other.y);
  }

  /** The 2-D cross product of two vectors. */
  function Cross(u: Point, v: Point): real
  {
    u.x * v.y - u.y * v.x
  }

  function Dot(u: Point, v: Point): real
  {
    u.x * v.x + u.y * v.y
  }
}
