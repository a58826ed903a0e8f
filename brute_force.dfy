/**
 * The brute-force count of src/bin/p01.rs:124-134: every pair i < j of
 * segments is tested once with `Line::crosses`.
 */
module BruteForce {
  import opened Lines

  /** The index pairs i < j whose segments cross. */
  function CrossingPairs(lines: seq<Line>): set<(int, int)>
  {
    set i, j | 0 <= i < j < |lines| && Crosses(lines[i], lines[j]) :: (i, j)
  }

  /** The crossing pairs the loops have visited before reaching (i, j). */
  function VisitedPairs(lines: seq<Line>, i: int, j: int): set<(int, int)>
  {
    set a, b | 0 <= a < b < |lines| && Crosses(lines[a], lines[b]) && (a < i || (a == i && b < j)) :: (a, b)
  }

  /** Visiting (i, j) adds that pair exactly when the two segments cross. */
  lemma VisitStep(lines: seq<Line>, i: nat, j: nat)
    requires i < j < |lines|
    ensures VisitedPairs(lines, i, j + 1) ==
      VisitedPairs(lines, i, j) + (if Crosses(lines[i], lines[j]) then {(i, j)} else {})
    ensures (i, j) !in VisitedPairs(lines, i, j)
  {
  }

  /** So the count of visited crossing pairs grows by one exactly for a crossing pair. */
  lemma VisitStepCount(lines: seq<Line>, i: nat, j: nat)
    requires i < j < |lines|
    ensures |VisitedPairs(lines, i, j + 1)| ==
      |VisitedPairs(lines, i, j)| + (if Crosses(lines[i], lines[j]) then 1 else 0)
  {
    VisitStep(lines, i, j);
  }

  lemma VisitRow(lines: seq<Line>, i: nat)
    requires i + 1 < |lines|
    ensures VisitedPairs(lines, i, |lines|) == VisitedPairs(lines, i + 1, i + 2)
  {
  }

  lemma VisitAll(lines: seq<Line>)
    requires |lines| >= 1
    ensures VisitedPairs(lines, |lines| - 1, |lines|) == CrossingPairs(lines)
    ensures VisitedPairs(lines, 0, 1) == {}
  {
  }

  /**
   * `main`'s counting loops without the file reading, timing and printing.
   * `lines.len() - 1` underflows on an empty list, so one segment is needed.
   */
  method NumberOfCrosses(lines: seq<Line>) returns (numberOfCrosses: nat)
    requires |lines| >= 1
    ensures numberOfCrosses == |CrossingPairs(lines)|
  {
    numberOfCrosses := 0;
    VisitAll(lines);
    for i := 0 to |lines| - 1
      invariant numberOfCrosses == |VisitedPairs(lines, i, i + 1)|
    {
      for j := i + 1 to |lines|
        invariant numberOfCrosses == |VisitedPairs(lines, i, j)|
      {
        VisitStepCount(lines, i, j);
        var line1 := lines[i];
        var line2 := lines[j];
        var crosses := Crosses(line1, line2);
        if crosses {
          numberOfCrosses := numberOfCrosses + 1;
        }
      }
      VisitRow(lines, i);
    }
  }
}
