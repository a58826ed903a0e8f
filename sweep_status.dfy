/**
 * The sweep status `BTreeSet<LineWithOrd>` of src/bin/p03.rs. Every stored
 * entry keeps the key `YAt` it was inserted with, so the set is a sequence
 * of entries with strictly increasing keys, and the `BTreeSet` calls the
 * sweep makes are these operations on it:
 *  - `range(k..)` / `range(..k)`: the entries with key at least / below `YAt(k)`;
 *  - `insert(k)`: adds k unless an entry with an equal key is stored;
 *  - `remove(&k)`: drops the stored entry whose key equals `YAt(k)`, if any.
 */
module SweepStatus {
  import opened Common
  import opened LinesWithOrd
  import opened Lines

  /** The stored keys increase strictly from the bottom of the sweep line to the top. */
  predicate Sorted(s: seq<LineWithOrd>)
  {
    forall i, j :: 0 <= i < j < |s| ==> YAt(s[i]) < YAt(s[j])
  }

  /** Some stored entry has key y: the set `contains` an entry equal to one with key y. */
  predicate HasKey(s: seq<LineWithOrd>, y: real)
  {
    exists k :: 0 <= k < |s| && YAt(s[k]) == y
  }

  /** `range(k..)` for a k with key y: the stored entries with key at least y, in order. */
  function RangeFrom(s: seq<LineWithOrd>, y: real): (r: seq<LineWithOrd>)
    ensures forall e :: e in r <==> e in s && YAt(e) >= y
  {
    if s == [] then []
    else (if YAt(s[0]) >= y then [s[0]] else []) + RangeFrom(s[1..], y)
  }

  /** `range(..k)` for a k with key y: the stored entries with key below y, in order. */
  function RangeTo(s: seq<LineWithOrd>, y: real): (r: seq<LineWithOrd>)
    ensures forall e :: e in r <==> e in s && YAt(e) < y
  {
    if s == [] then []
    else (if YAt(s[0]) < y then [s[0]] else []) + RangeTo(s[1..], y)
  }

  /** The position of the first entry with key at least y: the place where the tree search for y ends. */
  function LowerBound(s: seq<LineWithOrd>, y: real): (i: nat)
    ensures i <= |s|
    ensures forall k :: 0 <= k < i ==> YAt(s[k]) < y
    ensures Sorted(s) ==> forall k :: i <= k < |s| ==> YAt(s[k]) >= y
  {
    if s == [] || YAt(s[0]) >= y then 0 else 1 + LowerBound(s[1..], y)
  }

  /** On a sorted sequence `range(..k)` is the part below the lower bound. */
  lemma {:induction false} RangeToIsPrefix(s: seq<LineWithOrd>, y: real)
    requires Sorted(s)
    ensures RangeTo(s, y) == s[..LowerBound(s, y)]
    decreases |s|
  {
    if s != [] {
      assert Sorted(s[1..]);
      RangeToIsPrefix(s[1..], y);
      if YAt(s[0]) >= y {
        RangeToEmpty(s[1..], y);
      } else {
        assert s[..LowerBound(s, y)] == [s[0]] + s[1..][..LowerBound(s[1..], y)];
      }
    }
  }

  /** On a sorted sequence `range(k..)` is the part from the lower bound on. */
  lemma {:induction false} RangeFromIsSuffix(s: seq<LineWithOrd>, y: real)
    requires Sorted(s)
    ensures RangeFrom(s, y) == s[LowerBound(s, y)..]
    decreases |s|
  {
    if s != [] {
      assert Sorted(s[1..]);
      RangeFromIsSuffix(s[1..], y);
      if YAt(s[0]) >= y {
        RangeFromAll(s[1..], y);
      }
    }
  }

  lemma {:induction false} RangeToEmpty(s: seq<LineWithOrd>, y: real)
    requires forall k :: 0 <= k < |s| ==> YAt(s[k]) >= y
    ensures RangeTo(s, y) == []
    decreases |s|
  {
    if s != [] {
      RangeToEmpty(s[1..], y);
    }
  }

  lemma {:induction false} RangeFromAll(s: seq<LineWithOrd>, y: real)
    requires forall k :: 0 <= k < |s| ==> YAt(s[k]) >= y
    ensures RangeFrom(s, y) == s
    decreases |s|
  {
    if s != [] {
      RangeFromAll(s[1..], y);
      assert [s[0]] + s[1..] == s;
    }
  }

  /**
   * `range(k..).nth(1)`: the second stored entry with key at least y. When
   * an entry with key y is stored this is the entry just above it; when
   * none is, one entry is skipped.
   */
  function Above(s: seq<LineWithOrd>, y: real): (r: Option<LineWithOrd>)
    requires Sorted(s)
    ensures r.Some? ==> r.value in s && YAt(r.value) > y
  {
    var i := LowerBound(s, y);
    if i + 1 < |s| then
      assert YAt(s[i]) < YAt(s[i + 1]);
      Some(s[i + 1])
    else None
  }

  /** The entry found above is the second element of `range(k..)`. */
  lemma AboveIsSecondOfRange(s: seq<LineWithOrd>, y: real)
    requires Sorted(s)
    ensures Above(s, y) == (if |RangeFrom(s, y)| >= 2 then Some(RangeFrom(s, y)[1]) else None)
  {
    RangeFromIsSuffix(s, y);
  }

  /** `range(..k).next_back()`: the stored entry with the greatest key below y. */
  function Below(s: seq<LineWithOrd>, y: real): (r: Option<LineWithOrd>)
    requires Sorted(s)
    ensures r.Some? ==> r.value in s && YAt(r.value) < y
  {
    var i := LowerBound(s, y);
    if i > 0 then Some(s[i - 1]) else None
  }

  /**
   * The entry found below is the last element of `range(..k)`: the greatest
   * key below y, and there is none exactly when no stored key is below y.
   */
  lemma BelowIsLastOfRange(s: seq<LineWithOrd>, y: real)
    requires Sorted(s)
    ensures Below(s, y) == (if |RangeTo(s, y)| > 0 then Some(RangeTo(s, y)[|RangeTo(s, y)| - 1]) else None)
    ensures Below(s, y).Some? ==> forall e :: e in s && YAt(e) < y ==> YAt(e) <= YAt(Below(s, y).value)
    ensures Below(s, y).None? ==> forall e :: e in s ==> YAt(e) >= y
  {
    RangeToIsPrefix(s, y);
  }

  /**
   * `insert(e)`: the set grows by e unless an entry with e's key is stored,
   * in which case it is left as it is (the stored entry is not replaced).
   */
  function Insert(s: seq<LineWithOrd>, e: LineWithOrd): (r: seq<LineWithOrd>)
    requires Sorted(s)
    ensures Sorted(r)
    ensures HasKey(s, YAt(e)) ==> r == s
    ensures !HasKey(s, YAt(e)) ==> multiset(r) == multiset(s) + multiset{e}
    ensures HasKey(r, YAt(e))
  {
    var i := LowerBound(s, YAt(e));
    if i < |s| && YAt(s[i]) == YAt(e) then s
    else
      InsertAt(s, i, e);
      s[..i] + [e] + s[i..]
  }

  /**
   * Where the tree search for e's key ends without finding it, no entry
   * has that key, and putting e there keeps the order.
   */
  lemma InsertAt(s: seq<LineWithOrd>, i: nat, e: LineWithOrd)
    requires Sorted(s) && i == LowerBound(s, YAt(e))
    requires !(i < |s| && YAt(s[i]) == YAt(e))
    ensures !HasKey(s, YAt(e))
    ensures Sorted(s[..i] + [e] + s[i..])
    ensures multiset(s[..i] + [e] + s[i..]) == multiset(s) + multiset{e}
    ensures HasKey(s[..i] + [e] + s[i..], YAt(e))
  {
    InsertAtKeys(s, i, e);
    InsertAtSorted(s, i, e);
    InsertAtContents(s, i, e);
  }

  /** Putting e at position i adds exactly e. */
  lemma InsertAtContents(s: seq<LineWithOrd>, i: nat, e: LineWithOrd)
    requires i <= |s|
    ensures multiset(s[..i] + [e] + s[i..]) == multiset(s) + multiset{e}
    ensures HasKey(s[..i] + [e] + s[i..], YAt(e))
  {
    assert s == s[..i] + s[i..];
    assert (s[..i] + [e] + s[i..])[i] == e;
  }

  /** Every stored key is below e's key before i and above it from i on. */
  lemma InsertAtKeys(s: seq<LineWithOrd>, i: nat, e: LineWithOrd)
    requires Sorted(s) && i == LowerBound(s, YAt(e))
    requires !(i < |s| && YAt(s[i]) == YAt(e))
    ensures forall k :: 0 <= k < i ==> YAt(s[k]) < YAt(e)
    ensures forall k :: i <= k < |s| ==> YAt(s[k]) > YAt(e)
    ensures !HasKey(s, YAt(e))
  {
    forall k | i <= k < |s|
      ensures YAt(s[k]) > YAt(e)
    {
      if k > i {
        assert YAt(s[i]) < YAt(s[k]);
      }
    }
  }

  /** Putting e between the keys below and above it keeps the order. */
  lemma InsertAtSorted(s: seq<LineWithOrd>, i: nat, e: LineWithOrd)
    requires Sorted(s) && i <= |s|
    requires forall k :: 0 <= k < i ==> YAt(s[k]) < YAt(e)
    requires forall k :: i <= k < |s| ==> YAt(s[k]) > YAt(e)
    ensures Sorted(s[..i] + [e] + s[i..])
  {
    var r := s[..i] + [e] + s[i..];
    assert forall k :: 0 <= k < i ==> r[k] == s[k];
    assert forall k :: i < k < |r| ==> r[k] == s[k - 1];
    forall a, b | 0 <= a < b < |r|
      ensures YAt(r[a]) < YAt(r[b])
    {
      if b < i {
      } else if a < i {
        assert YAt(r[a]) < YAt(e);
      } else if a == i {
      } else {
        assert YAt(s[a - 1]) < YAt(s[b - 1]);
      }
    }
  }

  /** Inserting keeps every key that was stored. */
  lemma InsertKeepsKeys(s: seq<LineWithOrd>, e: LineWithOrd, y: real)
    requires Sorted(s) && HasKey(s, y)
    ensures HasKey(Insert(s, e), y)
  {
    var k :| 0 <= k < |s| && YAt(s[k]) == y;
    var r := Insert(s, e);
    assert s[k] in multiset(s);
    assert s[k] in multiset(r);
    var j :| 0 <= j < |r| && r[j] == s[k];
  }

  /**
   * `remove(&k)` for a k with key y: every stored entry with another key
   * stays, and the one with key y, if stored, goes.
   */
  function Remove(s: seq<LineWithOrd>, y: real): (r: seq<LineWithOrd>)
    requires Sorted(s)
    ensures Sorted(r)
    ensures !HasKey(s, y) ==> r == s
    ensures forall k :: 0 <= k < |s| && YAt(s[k]) == y ==> multiset(r) == multiset(s) - multiset{s[k]}
    ensures forall e :: e in r <==> e in s && YAt(e) != y
  {
    var i := LowerBound(s, y);
    if i < |s| && YAt(s[i]) == y then
      DeleteAt(s, i);
      s[..i] + s[i + 1..]
    else s
  }

  /** Deleting the entry at position i keeps the order and drops exactly that entry's key. */
  lemma DeleteAt(s: seq<LineWithOrd>, i: nat)
    requires Sorted(s) && i < |s|
    ensures Sorted(s[..i] + s[i + 1..])
    ensures multiset(s[..i] + s[i + 1..]) == multiset(s) - multiset{s[i]}
    ensures forall k :: 0 <= k < |s| && YAt(s[k]) == YAt(s[i]) ==> k == i
    ensures forall e :: e in s[..i] + s[i + 1..] <==> e in s && YAt(e) != YAt(s[i])
  {
    DeleteAtPositions(s, i);
    DeleteAtMembers(s, i);
    DeleteAtContents(s, i);
  }

  /** Deleting position i removes one copy of the entry there, the only one with its key. */
  lemma DeleteAtContents(s: seq<LineWithOrd>, i: nat)
    requires Sorted(s) && i < |s|
    ensures multiset(s[..i] + s[i + 1..]) == multiset(s) - multiset{s[i]}
    ensures forall k :: 0 <= k < |s| && YAt(s[k]) == YAt(s[i]) ==> k == i
  {
    assert s == s[..i] + [s[i]] + s[i + 1..];
  }

  /** After deleting position i, the entries before it keep their place and the rest move down by one. */
  lemma DeleteAtPositions(s: seq<LineWithOrd>, i: nat)
    requires Sorted(s) && i < |s|
    ensures forall k :: 0 <= k < i ==> (s[..i] + s[i + 1..])[k] == s[k]
    ensures forall k :: i < k < |s| ==> (s[..i] + s[i + 1..])[k - 1] == s[k]
    ensures Sorted(s[..i] + s[i + 1..])
  {
  }

  /** The deleted entry's key is held by no other entry, so only that key leaves. */
  lemma DeleteAtMembers(s: seq<LineWithOrd>, i: nat)
    requires Sorted(s) && i < |s|
    requires forall k :: 0 <= k < i ==> (s[..i] + s[i + 1..])[k] == s[k]
    requires forall k :: i < k < |s| ==> (s[..i] + s[i + 1..])[k - 1] == s[k]
    ensures forall e :: e in s[..i] + s[i + 1..] <==> e in s && YAt(e) != YAt(s[i])
  {
    var r := s[..i] + s[i + 1..];
    forall e | e in s && YAt(e) != YAt(s[i])
      ensures e in r
    {
      var k :| 0 <= k < |s| && s[k] == e;
      assert k != i;
      if k < i {
        assert r[k] == e;
      } else {
        assert r[k - 1] == e;
      }
    }
  }

  /**
   * Removal by segment rather than by key: drops every entry that holds the
   * given segment, whatever x it was stored with, and keeps all others in
   * order.
   */
  function RemoveLine(s: seq<LineWithOrd>, line: Line): (r: seq<LineWithOrd>)
    requires Sorted(s)
    ensures Sorted(r)
    ensures forall e :: e in r <==> e in s && e.line != line
  {
    if s == [] then []
    else
      var rest := RemoveLine(s[1..], line);
      if s[0].line == line then rest
      else
        assert forall k :: 0 <= k < |rest| ==> rest[k] in s[1..];
        [s[0]] + rest
  }
}
