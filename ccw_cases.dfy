/**
 * The orientation enum, its conversion from the integer orientation, and
 * the canonical form of four orientations (src/lib/ccw.rs:7-88; the same
 * code is copied into src/bin/p01_unique_cases.rs:1-82 and, with the enum
 * named `CCW` and without `From<i32>`, into src/bin/01_unique_cases.rs:1-71).
 *
 * A combination holds the orientations of the endpoints of one segment
 * against another segment's line (ccw1, ccw2) and of the second segment's
 * endpoints against the first one's line (ccw3, ccw4). `Minimize` picks
 * one representative per class of combinations that the case analysis of
 * the crossing test treats alike.
 */
module CcwCases {
  import Orientation
  import opened Points

  /** Declared in this order, so the derived ordering is Left < Middle < Right. */
  datatype Ccw = Left | Middle | Right

  /** The enum discriminant: Left = -1, Middle = 0, Right = 1. */
  function Rank(c: Ccw): int
  {
    match c
    case Left => -1
    case Middle => 0
    case Right => 1
  }

  /** The derived `<` of the enum. */
  predicate Lt(a: Ccw, b: Ccw)
  {
    Rank(a) < Rank(b)
  }

  /** The mirror image: Left and Right trade places. */
  function Neg(c: Ccw): Ccw
  {
    match c
    case Left => Right
    case Middle => Middle
    case Right => Left
  }

  /** `Ccw::VALUES`. */
  const VALUES: seq<Ccw> := [Left, Middle, Right]

  /** `From<i32> for Ccw`: the sign of i. */
  function FromInt(i: int): (c: Ccw)
    ensures c == Left <==> i < 0
    ensures c == Middle <==> i == 0
    ensures c == Right <==> i > 0
  {
    if i < 0 then Left
    else if i == 0 then Middle
    else Right
  }

  /** Converting the discriminant back gives the same orientation. */
  lemma FromIntOfRank(c: Ccw)
    ensures FromInt(Rank(c)) == c
  {
  }

  /** On the values the orientation test returns, the conversion keeps the value. */
  lemma FromIntAgreesWithCcw(p: Point, q: Point, r: Point)
    ensures Rank(FromInt(Orientation.Ccw(p, q, r))) == Orientation.Ccw(p, q, r)
  {
  }

  /** The orientation of three points as an enum value, as the lattice test builds it. */
  function CcwOf(p: Point, q: Point, r: Point): Ccw
  {
    FromInt(Orientation.Ccw(p, q, r))
  }

  datatype CcwCombination = CcwCombination(ccw1: Ccw, ccw2: Ccw, ccw3: Ccw, ccw4: Ccw)

  /** `(a1, a2) <= (b1, b2)` in the lexicographic order of the enum. */
  predicate PairLe(a1: Ccw, a2: Ccw, b1: Ccw, b2: Ccw)
  {
    Lt(a1, b1) || (a1 == b1 && !Lt(b2, a2))
  }

  /** Lexicographic order on whole combinations. */
  predicate LexLe(c: CcwCombination, d: CcwCombination)
  {
    Lt(c.ccw1, d.ccw1) || (c.ccw1 == d.ccw1 && PairLe(c.ccw2, c.ccw3, d.ccw2, d.ccw3)
      && ((c.ccw2, c.ccw3) != (d.ccw2, d.ccw3) || !Lt(d.ccw4, c.ccw4)))
  }

  /**
   * (x, y) is the pair (a, b) up to reversing the segment (which swaps the
   * two values) and mirroring it (which swaps Left and Right).
   */
  predicate PairEquiv(x: Ccw, y: Ccw, a: Ccw, b: Ccw)
  {
    (x == a && y == b) || (x == b && y == a) || (x == Neg(a) && y == Neg(b)) || (x == Neg(b) && y == Neg(a))
  }

  /**
   * d arises from c by reversing or mirroring either pair and possibly
   * exchanging the two pairs: the transformations `minimize` applies.
   */
  predicate SameClass(d: CcwCombination, c: CcwCombination)
  {
    (PairEquiv(d.ccw1, d.ccw2, c.ccw1, c.ccw2) && PairEquiv(d.ccw3, d.ccw4, c.ccw3, c.ccw4))
    || (PairEquiv(d.ccw1, d.ccw2, c.ccw3, c.ccw4) && PairEquiv(d.ccw3, d.ccw4, c.ccw1, c.ccw2))
  }

  /**
   * The shape of a `minimize` result: each pair sorted, neither pair
   * starting with Right nor equal to (Middle, Right), and the first pair not
   * after the second.
   */
  predicate Canonical(m: CcwCombination)
  {
    !Lt(m.ccw2, m.ccw1) && !Lt(m.ccw4, m.ccw3)
    && m.ccw1 != Right && m.ccw3 != Right
    && (m.ccw1, m.ccw2) != (Middle, Right) && (m.ccw3, m.ccw4) != (Middle, Right)
    && PairLe(m.ccw1, m.ccw2, m.ccw3, m.ccw4)
  }

  /**
   * `CcwCombination::minimize`: sort each pair, mirror a pair starting with
   * Right to (Left, Left) and (Middle, Right) to (Left, Middle), then put
   * the smaller pair first. The result is the least member of its class.
   */
  function Minimize(self: CcwCombination): (m: CcwCombination)
    ensures Canonical(m)
    ensures SameClass(m, self)
  {
    // reverse first line, reverse second line
    var r1 := if Lt(self.ccw2, self.ccw1) then (self.ccw2, self.ccw1) else (self.ccw1, self.ccw2);
    var r2 := if Lt(self.ccw4, self.ccw3) then (self.ccw4, self.ccw3) else (self.ccw3, self.ccw4);
    // mirror to the left
    var m1 := if r1.0 == Right then (Left, Left) else r1;
    var m2 := if r2.0 == Right then (Left, Left) else r2;
    var k1 := if m1 == (Middle, Right) then (Left, Middle) else m1;
    var k2 := if m2 == (Middle, Right) then (Left, Middle) else m2;
    // swap first and second line
    if Lt(k2.0, k1.0) || (k1.0 == k2.0 && Lt(k2.1, k1.1)) then
      CcwCombination(k2.0, k2.1, k1.0, k1.1)
    else
      CcwCombination(k1.0, k1.1, k2.0, k2.1)
  }

  /** Every combination of c's class is at least Minimize(c) in the lexicographic order. */
  lemma MinimizeIsLeast(c: CcwCombination, d: CcwCombination)
    requires SameClass(d, c)
    ensures LexLe(Minimize(c), d)
  {
  }

  /** A canonical combination is its own representative. */
  lemma MinimizeFixesCanonical(m: CcwCombination)
    requires Canonical(m)
    ensures Minimize(m) == m
  {
  }

  /** `minimize` is idempotent. */
  lemma MinimizeIdempotent(c: CcwCombination)
    ensures Minimize(Minimize(c)) == Minimize(c)
  {
    MinimizeFixesCanonical(Minimize(c));
  }

  lemma PairEquivSymmetric(x: Ccw, y: Ccw, a: Ccw, b: Ccw)
    requires PairEquiv(x, y, a, b)
    ensures PairEquiv(a, b, x, y)
  {
  }

  lemma PairEquivTransitive(x: Ccw, y: Ccw, a: Ccw, b: Ccw, u: Ccw, v: Ccw)
    requires PairEquiv(x, y, a, b) && PairEquiv(a, b, u, v)
    ensures PairEquiv(x, y, u, v)
  {
  }

  /** Being in the same class is symmetric. */
  lemma SameClassSymmetric(d: CcwCombination, c: CcwCombination)
    requires SameClass(d, c)
    ensures SameClass(c, d)
  {
    if PairEquiv(d.ccw1, d.ccw2, c.ccw1, c.ccw2) && PairEquiv(d.ccw3, d.ccw4, c.ccw3, c.ccw4) {
      PairEquivSymmetric(d.ccw1, d.ccw2, c.ccw1, c.ccw2);
      PairEquivSymmetric(d.ccw3, d.ccw4, c.ccw3, c.ccw4);
    } else {
      PairEquivSymmetric(d.ccw1, d.ccw2, c.ccw3, c.ccw4);
      PairEquivSymmetric(d.ccw3, d.ccw4, c.ccw1, c.ccw2);
    }
  }

  /** Being in the same class is transitive. */
  lemma SameClassTransitive(e: CcwCombination, d: CcwCombination, c: CcwCombination)
    requires SameClass(e, d) && SameClass(d, c)
    ensures SameClass(e, c)
  {
    var straight1 := PairEquiv(e.ccw1, e.ccw2, d.ccw1, d.ccw2) && PairEquiv(e.ccw3, e.ccw4, d.ccw3, d.ccw4);
    var straight2 := PairEquiv(d.ccw1, d.ccw2, c.ccw1, c.ccw2) && PairEquiv(d.ccw3, d.ccw4, c.ccw3, c.ccw4);
    if straight1 && straight2 {
      PairEquivTransitive(e.ccw1, e.ccw2, d.ccw1, d.ccw2, c.ccw1, c.ccw2);
      PairEquivTransitive(e.ccw3, e.ccw4, d.ccw3, d.ccw4, c.ccw3, c.ccw4);
    } else if straight1 {
      PairEquivTransitive(e.ccw1, e.ccw2, d.ccw1, d.ccw2, c.ccw3, c.ccw4);
      PairEquivTransitive(e.ccw3, e.ccw4, d.ccw3, d.ccw4, c.ccw1, c.ccw2);
    } else if straight2 {
      PairEquivTransitive(e.ccw1, e.ccw2, d.ccw3, d.ccw4, c.ccw3, c.ccw4);
      PairEquivTransitive(e.ccw3, e.ccw4, d.ccw1, d.ccw2, c.ccw1, c.ccw2);
    } else {
      PairEquivTransitive(e.ccw1, e.ccw2, d.ccw3, d.ccw4, c.ccw1, c.ccw2);
      PairEquivTransitive(e.ccw3, e.ccw4, d.ccw1, d.ccw2, c.ccw3, c.ccw4);
    }
  }

  lemma LexLeAntisymmetric(c: CcwCombination, d: CcwCombination)
    requires LexLe(c, d) && LexLe(d, c)
    ensures c == d
  {
  }

  /** Two combinations have the same representative exactly when they are in the same class. */
  lemma MinimizeClassifies(c: CcwCombination, d: CcwCombination)
    ensures Minimize(c) == Minimize(d) <==> SameClass(d, c)
  {
    var mc, md := Minimize(c), Minimize(d);
    if mc == md {
      SameClassSymmetric(md, d);
      SameClassTransitive(d, md, c);
    }
    if SameClass(d, c) {
      SameClassTransitive(md, d, c);
      MinimizeIsLeast(c, md);
      SameClassSymmetric(d, c);
      SameClassTransitive(mc, c, d);
      MinimizeIsLeast(d, mc);
      LexLeAntisymmetric(mc, md);
    }
  }

  /** Exchanging the two segments does not change the representative. */
  lemma MinimizeSwapPairs(c: CcwCombination)
    ensures Minimize(CcwCombination(c.ccw3, c.ccw4, c.ccw1, c.ccw2)) == Minimize(c)
  {
    MinimizeClassifies(c, CcwCombination(c.ccw3, c.ccw4, c.ccw1, c.ccw2));
  }

  /** Reversing either segment does not change the representative. */
  lemma MinimizeReversePair(c: CcwCombination)
    ensures Minimize(CcwCombination(c.ccw2, c.ccw1, c.ccw3, c.ccw4)) == Minimize(c)
    ensures Minimize(CcwCombination(c.ccw1, c.ccw2, c.ccw4, c.ccw3)) == Minimize(c)
  {
    MinimizeClassifies(c, CcwCombination(c.ccw2, c.ccw1, c.ccw3, c.ccw4));
    MinimizeClassifies(c, CcwCombination(c.ccw1, c.ccw2, c.ccw4, c.ccw3));
  }
}
