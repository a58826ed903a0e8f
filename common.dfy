/**
 * Shared constants and small value types used by every other module:
 * the orientation tolerance, an optional value, and the three-way
 * comparison result of Rust's `Ord`/`PartialOrd`.
 */
module Common {

  /** Absolute tolerance of the orientation test and of the vertical-segment filter (1e-12). */
  const EPSILON: real := 0.000000000001

  datatype Option<+T> = None | Some(value: T)

  /** The result of a three-way comparison. */
  datatype Ordering = Less | Equal | Greater

  function Abs(x: real): real
  {
    if x < 0.0 then -x else x
  }

  function Min(a: real, b: real): real
  {
    if a <= b then a else b
  }

  function Max(a: real, b: real): real
  {
    if a <= b then b else a
  }

  /** Three-way comparison of two reals (`partial_cmp(..).unwrap()` on non-NaN floats). */
  function CompareReal(a: real, b: real): (r: Ordering)
    ensures r == Less <==> a < b
    ensures r == Equal <==> a == b
    ensures r == Greater <==> a > b
  {
    if a < b then Less else if a == b then Equal else Greater
  }

  /** The ordering seen from the other side. */
  function Flip(o: Ordering): Ordering
  {
    match o
    case Less => Greater
    case Equal => Equal
    case Greater => Less
  }
}
