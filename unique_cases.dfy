/**
 * The enumeration program of src/bin/p01_unique_cases.rs:84-110 (and its
 * copy src/bin/01_unique_cases.rs:73-100): build all 81 combinations of
 * `VALUES`, then collect each representative once.
 */
module UniqueCases {
  import opened CcwCases

  /** The n-th combination of the four nested loops over `VALUES`. */
  function Enumerated(n: nat): CcwCombination
    requires n < 81
  {
    CcwCombination(VALUES[n / 27], VALUES[n / 9 % 3], VALUES[n / 3 % 3], VALUES[n % 3])
  }

  function IndexOf(c: Ccw): nat
  {
    match c
    case Left => 0
    case Middle => 1
    case Right => 2
  }

  /** Position 27i + 9j + 3k + l of the enumeration holds the loop indices' values. */
  lemma EnumeratedAt(i: nat, j: nat, k: nat, l: nat)
    requires i < 3 && j < 3 && k < 3 && l < 3
    ensures 27 * i + 9 * j + 3 * k + l < 81
    ensures Enumerated(27 * i + 9 * j + 3 * k + l) == CcwCombination(VALUES[i], VALUES[j], VALUES[k], VALUES[l])
  {
    var n := 27 * i + 9 * j + 3 * k + l;
    assert n / 27 == i && n % 27 == 9 * j + 3 * k + l;
    assert n / 9 == 3 * i + j && n / 9 % 3 == j;
    assert n / 3 == 9 * i + 3 * j + k && n / 3 % 3 == k;
    assert n % 3 == l;
  }

  /** Every combination occurs in the enumeration, at the position its four loop indices give. */
  lemma EnumerationCovers(c: CcwCombination)
    ensures var n := 27 * IndexOf(c.ccw1) + 9 * IndexOf(c.ccw2) + 3 * IndexOf(c.ccw3) + IndexOf(c.ccw4);
      n < 81 && Enumerated(n) == c
  {
    EnumeratedAt(IndexOf(c.ccw1), IndexOf(c.ccw2), IndexOf(c.ccw3), IndexOf(c.ccw4));
  }

  /** The ten representatives: pairs drawn from (L,L), (L,M), (L,R), (M,M), the smaller first. */
  const REPRESENTATIVES: set<CcwCombination> := {
    CcwCombination(Left, Left, Left, Left), CcwCombination(Left, Left, Left, Middle),
    CcwCombination(Left, Left, Left, Right), CcwCombination(Left, Left, Middle, Middle),
    CcwCombination(Left, Middle, Left, Middle), CcwCombination(Left, Middle, Left, Right),
    CcwCombination(Left, Middle, Middle, Middle), CcwCombination(Left, Right, Left, Right),
    CcwCombination(Left, Right, Middle, Middle), CcwCombination(Middle, Middle, Middle, Middle)
  }

  /** The canonical combinations are exactly the ten representatives. */
  lemma CanonicalIsRepresentative(m: CcwCombination)
    ensures Canonical(m) <==> m in REPRESENTATIVES
  {
  }

  lemma RepresentativeCount()
    ensures |REPRESENTATIVES| == 10
  {
  }

  predicate Distinct(s: seq<CcwCombination>)
  {
    forall i, j :: 0 <= i < j < |s| ==> s[i] != s[j]
  }

  /** A sequence without repetitions has as many elements as its set. */
  lemma {:induction false} DistinctCardinality(s: seq<CcwCombination>)
    requires Distinct(s)
    ensures |set x | x in s| == |s|
  {
    if s != [] {
      var t := s[..|s| - 1];
      assert Distinct(t);
      DistinctCardinality(t);
      assert (set x | x in s) == (set x | x in t) + {s[|s| - 1]};
      assert s[|s| - 1] !in (set x | x in t);
    }
  }

  /**
   * A repetition-free list of canonical combinations that holds the
   * representative of every combination holds exactly the ten of them.
   */
  lemma CollectedRepresentatives(result: seq<CcwCombination>)
    requires Distinct(result)
    requires forall c: CcwCombination :: Minimize(c) in result
    requires forall m :: m in result ==> Canonical(m)
    ensures forall m :: m in result <==> Canonical(m)
    ensures |result| == 10
  {
    forall m | Canonical(m)
      ensures m in result
    {
      MinimizeFixesCanonical(m);
    }
    forall m
      ensures m in result <==> m in REPRESENTATIVES
    {
      CanonicalIsRepresentative(m);
    }
    assert (set x | x in result) == REPRESENTATIVES;
    DistinctCardinality(result);
    RepresentativeCount();
  }

  /** The four nested loops of `main` that build `all_cases`: every combination, in enumeration order. */
  method AllCases() returns (allCases: seq<CcwCombination>)
    ensures |allCases| == 81
    ensures forall n :: 0 <= n < 81 ==> allCases[n] == Enumerated(n)
  {
    allCases := [];
    for i := 0 to 3
      invariant |allCases| == 27 * i
      invariant forall n :: 0 <= n < |allCases| ==> allCases[n] == Enumerated(n)
    {
      var ccw1 := VALUES[i];
      for j := 0 to 3
        invariant |allCases| == 27 * i + 9 * j
        invariant forall n :: 0 <= n < |allCases| ==> allCases[n] == Enumerated(n)
      {
        var ccw2 := VALUES[j];
        for k := 0 to 3
          invariant |allCases| == 27 * i + 9 * j + 3 * k
          invariant forall n :: 0 <= n < |allCases| ==> allCases[n] == Enumerated(n)
        {
          var ccw3 := VALUES[k];
          for l := 0 to 3
            invariant |allCases| == 27 * i + 9 * j + 3 * k + l
            invariant forall n :: 0 <= n < |allCases| ==> allCases[n] == Enumerated(n)
          {
            var ccw4 := VALUES[l];
            EnumeratedAt(i, j, k, l);
            allCases := allCases + [CcwCombination(ccw1, ccw2, ccw3, ccw4)];
          }
        }
      }
    }
  }

  /**
   * `main` without its printing: `result` lists every representative that
   * occurs, once each; since every combination
   * is enumerated, these are exactly the ten canonical combinations.
   */
  method UniqueCases() returns (result: seq<CcwCombination>)
    ensures Distinct(result)
    ensures forall c: CcwCombination :: Minimize(c) in result
    ensures forall m :: m in result <==> Canonical(m)
    ensures |result| == 10
  {
    var allCases := AllCases();
    result := [];
    for n := 0 to |allCases|
      invariant Distinct(result)
      invariant forall k :: 0 <= k < n ==> Minimize(allCases[k]) in result
      invariant forall m :: m in result ==> Canonical(m)
    {
      var combination := allCases[n];
      if Minimize(combination) !in result {
        result := result + [Minimize(combination)];
      }
    }

    forall c: CcwCombination
      ensures Minimize(c) in result
    {
      EnumerationCovers(c);
    }
    CollectedRepresentatives(result);
  }
}
