/**
 * The plane sweep of src/bin/p03.rs: the three event handlers update the
 * sweep status and the event queue in place, and the driver seeds the
 * queue with the endpoints of the non-vertical segments and then pops
 * events in order of x, counting the Intersection events.
 *
 * The status keys are fixed when an entry is stored, while the handlers
 * look entries up with the key of the event's segment at the current x.
 * These agree only when the segment's y does not change in between, so
 * for a sloped segment `remove` at its right endpoint misses the segment's
 * own entry, which stays in the status (see `EndKeepsSlopedSegment`), and
 * drops any other entry that happens to be stored under that key.
 * `SweepStatus.RemoveLine` is the removal by segment that the handler
 * evidently intends; `RemoveLineAgreesWhenKeyCurrent` shows that the two
 * coincide while the key is current.
 */
module PlaneSweep {
  import opened Common
  import opened Points
  import opened Lines
  import opened LinesWithOrd
  import opened Events
  import opened SweepStatus

  /**
   * `crossing_point(p1, p2, q1, q2)` of the library. Its definition is not
   * part of this model, so the sweep takes it as a parameter.
   */
  type CrossingPoint = (Point, Point, Point, Point) -> Point

  /**
   * The event a handler pushes after testing segment a against segment b:
   * one Intersection event at their crossing point, with the given segment
   * and line pair, when a crosses b and the point lies right of the sweep;
   * otherwise none.
   */
  function CrossingEvent(a: Line, b: Line, eventLine: Line, l1: Line, l2: Line, currentX: real, crossingPoint: CrossingPoint): (r: seq<Event>)
    ensures |r| <= 1
    ensures r != [] <==> Crosses(a, b) && crossingPoint(a.p1, a.p2, b.p1, b.p2).x > currentX
    ensures forall e :: e in r ==>
      e.x > currentX && e.line == eventLine
      && e.eventType == Intersection(crossingPoint(a.p1, a.p2, b.p1, b.p2), l1, l2) && e.eventType.p.x == e.x
  {
    if Crosses(a, b) then
      var p := crossingPoint(a.p1, a.p2, b.p1, b.p2);
      if p.x > currentX then [Event(p.x, eventLine, Intersection(p, l1, l2))] else []
    else []
  }

  /**
   * What `treat_left_endpoint` pushes, given the status s after inserting
   * the segment: for each of the entries found above and below, an event
   * if the new segment crosses it ahead of the sweep.
   */
  function LeftEndpointEvents(s: seq<LineWithOrd>, line: Line, currentX: real, crossingPoint: CrossingPoint): (r: seq<Event>)
    requires Sorted(s)
    ensures |r| <= 2
    ensures forall e :: e in r ==>
      e.x > currentX && e.line == line && e.eventType.Intersection?
      && e.eventType.l1 == line && Crosses(line, e.eventType.l2)
    ensures forall e :: e in r ==>
      var y := YAt(LineWithOrd(line, currentX));
      (Above(s, y).Some? && e.eventType.l2 == Above(s, y).value.line)
      || (Below(s, y).Some? && e.eventType.l2 == Below(s, y).value.line)
    ensures var above := Above(s, YAt(LineWithOrd(line, currentX)));
      above.Some? && Crosses(line, above.value.line)
      && crossingPoint(line.p1, line.p2, above.value.line.p1, above.value.line.p2).x > currentX
      ==> var p := crossingPoint(line.p1, line.p2, above.value.line.p1, above.value.line.p2);
        Event(p.x, line, Intersection(p, line, above.value.line)) in r
    ensures var below := Below(s, YAt(LineWithOrd(line, currentX)));
      below.Some? && Crosses(line, below.value.line)
      && crossingPoint(line.p1, line.p2, below.value.line.p1, below.value.line.p2).x > currentX
      ==> var p := crossingPoint(line.p1, line.p2, below.value.line.p1, below.value.line.p2);
        Event(p.x, line, Intersection(p, line, below.value.line)) in r
  {
    var y := YAt(LineWithOrd(line, currentX));
    var above, below := Above(s, y), Below(s, y);
    (if above.Some? then CrossingEvent(line, above.value.line, line, line, above.value.line, currentX, crossingPoint) else [])
    + (if below.Some? then CrossingEvent(line, below.value.line, line, line, below.value.line, currentX, crossingPoint) else [])
  }

  /**
   * What `treat_right_endpoint` pushes, given the status s before the
   * removal: an event only if entries were found both above and below and
   * they cross ahead of the sweep.
   */
  function RightEndpointEvents(s: seq<LineWithOrd>, line: Line, currentX: real, crossingPoint: CrossingPoint): (r: seq<Event>)
    requires Sorted(s)
    ensures |r| <= 1
    ensures var y := YAt(LineWithOrd(line, currentX));
      r != [] <==>
        Above(s, y).Some? && Below(s, y).Some? && Crosses(Above(s, y).value.line, Below(s, y).value.line)
        && crossingPoint(Above(s, y).value.line.p1, Above(s, y).value.line.p2,
                         Below(s, y).value.line.p1, Below(s, y).value.line.p2).x > currentX
    ensures var y := YAt(LineWithOrd(line, currentX));
      r != [] ==>
        var a, b := Above(s, y).value.line, Below(s, y).value.line;
        var p := crossingPoint(a.p1, a.p2, b.p1, b.p2);
        r == [Event(p.x, a, Intersection(p, line, a))]
    ensures forall e :: e in r ==> e.x > currentX && e.eventType.Intersection?
  {
    var y := YAt(LineWithOrd(line, currentX));
    var above, below := Above(s, y), Below(s, y);
    if above.Some? && below.Some? then
      CrossingEvent(above.value.line, below.value.line, above.value.line, line, above.value.line, currentX, crossingPoint)
    else []
  }

  /**
   * The status `treat_intersection` leaves: the entry of the event's
   * segment at the current x is removed, and when an entry is found above,
   * it is removed too and both segments are inserted again with the sweep
   * position just past the current x.
   */
  function IntersectionStatus(s: seq<LineWithOrd>, line: Line, currentX: real): (r: seq<LineWithOrd>)
    requires Sorted(s)
    ensures Sorted(r)
    ensures Above(s, YAt(LineWithOrd(line, currentX))).None? ==> r == Remove(s, YAt(LineWithOrd(line, currentX)))
  {
    var y := YAt(LineWithOrd(line, currentX));
    var above := Above(s, y);
    var s1 := Remove(s, y);
    if above.None? then s1
    else
      var s2 := Remove(s1, YAt(above.value));
      var s3 := Insert(s2, LineWithOrd(above.value.line, currentX + EPSILON));
      Insert(s3, LineWithOrd(line, currentX + EPSILON))
  }

  /**
   * With an entry found above, entries under both segments' keys just past
   * the current x are present. An entry already stored under such a key
   * stays there instead of the segment, as `BTreeSet::insert` keeps it.
   */
  lemma IntersectionStatusStoresPair(s: seq<LineWithOrd>, line: Line, currentX: real)
    requires Sorted(s) && Above(s, YAt(LineWithOrd(line, currentX))).Some?
    ensures var r := IntersectionStatus(s, line, currentX);
      HasKey(r, YAt(LineWithOrd(line, currentX + EPSILON)))
      && HasKey(r, YAt(LineWithOrd(Above(s, YAt(LineWithOrd(line, currentX))).value.line, currentX + EPSILON)))
  {
    var y := YAt(LineWithOrd(line, currentX));
    var above := Above(s, y);
    var s2 := Remove(Remove(s, y), YAt(above.value));
    var s3 := Insert(s2, LineWithOrd(above.value.line, currentX + EPSILON));
    InsertKeepsKeys(s3, LineWithOrd(line, currentX + EPSILON), YAt(LineWithOrd(above.value.line, currentX + EPSILON)));
  }

  /**
   * What `treat_intersection` pushes, given the status s after the two
   * segments are inserted again: an event for the entry above the upper
   * one and one for the entry below the lower one, each when they cross
   * ahead of the sweep.
   */
  function IntersectionEvents(s: seq<LineWithOrd>, seg1: LineWithOrd, seg2: LineWithOrd, currentX: real, crossingPoint: CrossingPoint): (r: seq<Event>)
    requires Sorted(s)
    ensures |r| <= 2
    ensures forall e :: e in r ==>
      e.x > currentX && e.eventType.Intersection?
      && ((e.line == seg2.line && e.eventType.l2 == seg1.line && Above(s, YAt(seg2)).Some?
           && Crosses(seg2.line, Above(s, YAt(seg2)).value.line))
          || (e.line == seg1.line && e.eventType.l2 == seg2.line && Below(s, YAt(seg1)).Some?
           && Crosses(seg1.line, Below(s, YAt(seg1)).value.line)))
    ensures var above := Above(s, YAt(seg2));
      above.Some? && Crosses(seg2.line, above.value.line)
      && crossingPoint(seg2.line.p1, seg2.line.p2, above.value.line.p1, above.value.line.p2).x > currentX
      ==> var p := crossingPoint(seg2.line.p1, seg2.line.p2, above.value.line.p1, above.value.line.p2);
        Event(p.x, seg2.line, Intersection(p, seg2.line, seg1.line)) in r
    ensures var below := Below(s, YAt(seg1));
      below.Some? && Crosses(seg1.line, below.value.line)
      && crossingPoint(seg1.line.p1, seg1.line.p2, below.value.line.p1, below.value.line.p2).x > currentX
      ==> var p := crossingPoint(seg1.line.p1, seg1.line.p2, below.value.line.p1, below.value.line.p2);
        Event(p.x, seg1.line, Intersection(p, seg1.line, seg2.line)) in r
  {
    var newAbove, newBelow := Above(s, YAt(seg2)), Below(s, YAt(seg1));
    (if newAbove.Some? then CrossingEvent(seg2.line, newAbove.value.line, seg2.line, seg2.line, seg1.line, currentX, crossingPoint) else [])
    + (if newBelow.Some? then CrossingEvent(seg1.line, newBelow.value.line, seg1.line, seg1.line, seg2.line, currentX, crossingPoint) else [])
  }

  /** Segments whose x-extent is below the tolerance are skipped by the driver. */
  function Kept(lines: seq<Line>): (r: seq<Line>)
    ensures |r| <= |lines|
  {
    if lines == [] then []
    else Kept(lines[..|lines| - 1]) + (if Vertical(lines[|lines| - 1]) then [] else [lines[|lines| - 1]])
  }

  /** The kept segments are exactly the input segments that are not vertical. */
  lemma {:induction false} KeptMembers(lines: seq<Line>)
    ensures forall l :: l in Kept(lines) <==> l in lines && !Vertical(l)
  {
    if lines != [] {
      var init := lines[..|lines| - 1];
      KeptMembers(init);
      assert lines == init + [lines[|lines| - 1]];
    }
  }

  /**
   * The events the driver pushes before the sweep: for each kept segment,
   * in input order, a Start at its smaller x and an End at its larger x.
   */
  function SeedEvents(lines: seq<Line>): seq<Event>
  {
    if lines == [] then []
    else
      var line := lines[|lines| - 1];
      SeedEvents(lines[..|lines| - 1])
      + (if Vertical(line) then [] else [Event(Min(line.p1.x, line.p2.x), line, Start), Event(Max(line.p1.x, line.p2.x), line, End)])
  }

  /**
   * The seeded events come in pairs, one pair per kept segment in input
   * order: a Start at the segment's smaller x, then an End at its larger x.
   */
  lemma {:induction false} SeedEventsPairs(lines: seq<Line>)
    ensures |SeedEvents(lines)| == 2 * |Kept(lines)|
    ensures forall k :: 0 <= k < |Kept(lines)| ==>
      var l := Kept(lines)[k];
      SeedEvents(lines)[2 * k] == Event(Min(l.p1.x, l.p2.x), l, Start)
      && SeedEvents(lines)[2 * k + 1] == Event(Max(l.p1.x, l.p2.x), l, End)
  {
    if lines != [] {
      var init := lines[..|lines| - 1];
      SeedEventsPairs(init);
    }
  }

  /**
   * A sloped segment stored at its left endpoint is still stored after the
   * `remove` of `treat_right_endpoint`, which looks it up with its key at
   * the right endpoint: the two keys are the endpoints' y-coordinates.
   */
  lemma EndKeepsSlopedSegment(s: seq<LineWithOrd>, line: Line, left: Point, right: Point)
    requires Sorted(s)
    requires (left == line.p1 && right == line.p2) || (left == line.p2 && right == line.p1)
    requires !Vertical(line) && left.y != right.y
    requires LineWithOrd(line, left.x) in s
    ensures LineWithOrd(line, left.x) in Remove(s, YAt(LineWithOrd(line, right.x)))
  {
    YAtOnLine(LineWithOrd(line, left.x));
    YAtOnLine(LineWithOrd(line, right.x));
  }

  /**
   * Removal by segment agrees with the removal by key of
   * `treat_right_endpoint` whenever the segment's entry is still stored
   * under its key at the current x and no other entry holds the segment:
   * the two differ only when that key has gone stale.
   */
  lemma RemoveLineAgreesWhenKeyCurrent(s: seq<LineWithOrd>, line: Line, currentX: real, stored: LineWithOrd)
    requires Sorted(s)
    requires stored in s && stored.line == line && YAt(stored) == YAt(LineWithOrd(line, currentX))
    requires forall e :: e in s && e.line == line ==> e == stored
    ensures forall e :: e in Remove(s, YAt(LineWithOrd(line, currentX))) <==> e in RemoveLine(s, line)
  {
    forall e | e in s
      ensures YAt(e) == YAt(stored) <==> e == stored
    {
      if YAt(e) == YAt(stored) {
        var i, j :| 0 <= i < |s| && s[i] == e && 0 <= j < |s| && s[j] == stored;
        assert i == j;
      }
    }
  }

  /**
   * A queue that only had events appended, all beyond x0, keeps every old
   * event, and each of its events is an old one or lies beyond x0.
   */
  lemma QueueGrowsAhead(before: seq<Event>, after: seq<Event>, x0: real)
    requires |before| <= |after| && after[..|before|] == before
    requires forall e :: e in after[|before|..] ==> e.x > x0
    ensures multiset(before) <= multiset(after)
    ensures forall e :: e in after ==> e in before || e.x > x0
  {
    assert after == before + after[|before|..];
  }

  /** One more input segment adds its two events, unless it is skipped. */
  lemma SeedStep(lines: seq<Line>, n: nat)
    requires n < |lines|
    ensures Vertical(lines[n]) <==> Abs(lines[n].p1.x - lines[n].p2.x) < EPSILON
    ensures Kept(lines[..n + 1]) == Kept(lines[..n]) + (if Vertical(lines[n]) then [] else [lines[n]])
    ensures SeedEvents(lines[..n + 1]) == SeedEvents(lines[..n])
      + (if Vertical(lines[n]) then []
         else [Event(Min(lines[n].p1.x, lines[n].p2.x), lines[n], Start), Event(Max(lines[n].p1.x, lines[n].p2.x), lines[n], End)])
  {
    assert lines[..n + 1][..n] == lines[..n];
  }

  /** Two rounds of appending, where a round may append nothing, append the two parts in turn. */
  lemma AppendTwice(q: seq<Event>, p1: seq<Event>, mid: seq<Event>, p2: seq<Event>, end: seq<Event>)
    requires mid == q + p1 || (p1 == [] && mid == q)
    requires end == mid + p2 || (p2 == [] && end == mid)
    ensures end == q + (p1 + p2)
  {
  }

  /**
   * The status after one event is handled at currentX: a Start inserts the
   * segment, an End removes the entry under the segment's key, and an
   * Intersection removes and reinserts the pair.
   */
  function HandledStatus(s: seq<LineWithOrd>, event: Event, currentX: real): (r: seq<LineWithOrd>)
    requires Sorted(s)
    ensures Sorted(r)
    ensures event.eventType.Start? ==> HasKey(r, YAt(LineWithOrd(event.line, currentX)))
    ensures event.eventType.End? ==> !HasKey(r, YAt(LineWithOrd(event.line, currentX)))
  {
    match event.eventType
    case Start => Insert(s, LineWithOrd(event.line, currentX))
    case End => Remove(s, YAt(LineWithOrd(event.line, currentX)))
    case Intersection(_, _, _) => IntersectionStatus(s, event.line, currentX)
  }

  /**
   * The events that handling one event at currentX pushes, given the status
   * s before it: every one is an Intersection right of the sweep.
   */
  function HandledEvents(s: seq<LineWithOrd>, event: Event, currentX: real, crossingPoint: CrossingPoint): (r: seq<Event>)
    requires Sorted(s)
    ensures forall e :: e in r ==> e.x > currentX && e.eventType.Intersection?
  {
    match event.eventType
    case Start => LeftEndpointEvents(Insert(s, LineWithOrd(event.line, currentX)), event.line, currentX, crossingPoint)
    case End => RightEndpointEvents(s, event.line, currentX, crossingPoint)
    case Intersection(_, _, _) =>
      var above := Above(s, YAt(LineWithOrd(event.line, currentX)));
      if above.None? then []
      else
        IntersectionEvents(IntersectionStatus(s, event.line, currentX), LineWithOrd(event.line, currentX + EPSILON),
                           LineWithOrd(above.value.line, currentX + EPSILON), currentX, crossingPoint)
  }

  /**
   * One round of the loop of `main` as a relation between the state before
   * and after: the event at the pop position is taken out, handled at its
   * own x, and what the handler pushes is appended.
   */
  predicate StepEffect(status: seq<LineWithOrd>, queue: seq<Event>, event: Event,
                       status': seq<LineWithOrd>, queue': seq<Event>, crossingPoint: CrossingPoint)
    requires Sorted(status) && |queue| > 0
  {
    var i := PopIndex(queue);
    event == queue[i]
    && status' == HandledStatus(status, event, event.x)
    && queue' == queue[..i] + queue[i + 1..] + HandledEvents(status, event, event.x, crossingPoint)
  }

  /**
   * The loop of `main` as a function: the events it pops, in order, from
   * the given status and queue, for at most `fuel` rounds or until the
   * queue is empty.
   */
  function Run(status: seq<LineWithOrd>, queue: seq<Event>, fuel: nat, crossingPoint: CrossingPoint): (r: seq<Event>)
    requires Sorted(status)
    ensures |r| <= fuel
    ensures r == [] <==> fuel == 0 || queue == []
    ensures r != [] ==> r[0] == queue[PopIndex(queue)]
    decreases fuel, 0
  {
    if fuel == 0 || queue == [] then []
    else [queue[PopIndex(queue)]] + RunAfter(status, queue, fuel - 1, crossingPoint)
  }

  /**
   * What `Run` pops after the event at the pop position has been taken out
   * of the queue and handled against the status.
   */
  function RunAfter(status: seq<LineWithOrd>, queue: seq<Event>, fuel: nat, crossingPoint: CrossingPoint): (r: seq<Event>)
    requires Sorted(status) && |queue| > 0
    ensures |r| <= fuel
    decreases fuel, 1
  {
    var i := PopIndex(queue);
    var event := queue[i];
    Run(HandledStatus(status, event, event.x),
        queue[..i] + queue[i + 1..] + HandledEvents(status, event, event.x, crossingPoint),
        fuel, crossingPoint)
  }


  /** A round that has the effect of one step is the first step of `Run`. */
  lemma RunStep(status: seq<LineWithOrd>, queue: seq<Event>, event: Event,
                status': seq<LineWithOrd>, queue': seq<Event>, fuel: nat, crossingPoint: CrossingPoint)
    requires Sorted(status) && |queue| > 0 && fuel > 0
    requires StepEffect(status, queue, event, status', queue', crossingPoint)
    ensures Sorted(status')
    ensures Run(status, queue, fuel, crossingPoint) == [event] + Run(status', queue', fuel - 1, crossingPoint)
  {
  }

  /** The two containers of the sweep: the status `sweep_line` and the queue `event_queue`. */
  class SweepState {
    var sweepLine: seq<LineWithOrd>
    var eventQueue: seq<Event>

    predicate Valid()
      reads this
    {
      Sorted(sweepLine)
    }

    constructor ()
      ensures Valid()
      ensures sweepLine == [] && eventQueue == []
    {
      sweepLine := [];
      eventQueue := [];
    }

    /** `BinaryHeap::pop` on a non-empty queue: takes out an event of least x. */
    method Pop() returns (event: Event)
      requires |eventQueue| > 0
      modifies this
      ensures sweepLine == old(sweepLine)
      ensures event in old(eventQueue)
      ensures forall e :: e in old(eventQueue) ==> event.x <= e.x
      ensures multiset(eventQueue) == multiset(old(eventQueue)) - multiset{event}
      ensures forall e :: e in eventQueue ==> e in old(eventQueue)
      ensures var i := PopIndex(old(eventQueue));
        event == old(eventQueue)[i] && eventQueue == old(eventQueue)[..i] + old(eventQueue)[i + 1..]
    {
      var i := PopIndex(eventQueue);
      event := eventQueue[i];
      assert eventQueue == eventQueue[..i] + [event] + eventQueue[i + 1..];
      eventQueue := eventQueue[..i] + eventQueue[i + 1..];
    }

    /**
     * The block every handler repeats: if segment a crosses segment b,
     * compute their crossing point and push an Intersection event there
     * when it lies right of the sweep.
     */
    method PushCrossing(a: Line, b: Line, eventLine: Line, l1: Line, l2: Line, currentX: real, crossingPoint: CrossingPoint)
      modifies this
      ensures sweepLine == old(sweepLine)
      ensures eventQueue == old(eventQueue) + CrossingEvent(a, b, eventLine, l1, l2, currentX, crossingPoint)
    {
      if Crosses(a, b) {
        var p := crossingPoint(a.p1, a.p2, b.p1, b.p2);
        if p.x > currentX {
          eventQueue := eventQueue + [Event(p.x, eventLine, Intersection(p, l1, l2))];
        }
      }
    }

    /** `treat_left_endpoint`: insert the segment at the current x and test it against its neighbours. */
    method TreatLeftEndpoint(event: Event, currentX: real, crossingPoint: CrossingPoint)
      requires Valid()
      modifies this
      ensures Valid()
      ensures sweepLine == Insert(old(sweepLine), LineWithOrd(event.line, currentX))
      ensures eventQueue == old(eventQueue) + LeftEndpointEvents(sweepLine, event.line, currentX, crossingPoint)
    {
      var line := event.line;
      var currentSeg := LineWithOrd(line, currentX);
      sweepLine := Insert(sweepLine, currentSeg);
      var above := Above(sweepLine, YAt(currentSeg));
      var below := Below(sweepLine, YAt(currentSeg));
      ghost var before := eventQueue;
      ghost var pushedAbove: seq<Event> := [];
      ghost var pushedBelow: seq<Event> := [];
      if above.Some? {
        var aboveSeg := above.value;
        PushCrossing(line, aboveSeg.line, line, line, aboveSeg.line, currentX, crossingPoint);
        pushedAbove := CrossingEvent(line, aboveSeg.line, line, line, aboveSeg.line, currentX, crossingPoint);
      }
      ghost var middle := eventQueue;
      if below.Some? {
        var belowSeg := below.value;
        PushCrossing(line, belowSeg.line, line, line, belowSeg.line, currentX, crossingPoint);
        pushedBelow := CrossingEvent(line, belowSeg.line, line, line, belowSeg.line, currentX, crossingPoint);
      }
      AppendTwice(before, pushedAbove, middle, pushedBelow, eventQueue);
    }

    /**
     * `treat_right_endpoint`: look up both neighbours, then remove the entry
     * with the segment's key at the current x, then test the neighbours
     * against each other.
     */
    method TreatRightEndpoint(event: Event, currentX: real, crossingPoint: CrossingPoint)
      requires Valid()
      modifies this
      ensures Valid()
      ensures sweepLine == Remove(old(sweepLine), YAt(LineWithOrd(event.line, currentX)))
      ensures eventQueue == old(eventQueue) + RightEndpointEvents(old(sweepLine), event.line, currentX, crossingPoint)
    {
      var line := event.line;
      var seg := LineWithOrd(line, currentX);
      var above := Above(sweepLine, YAt(seg));
      var below := Below(sweepLine, YAt(seg));
      sweepLine := Remove(sweepLine, YAt(seg));
      if above.Some? && below.Some? {
        var aboveSeg, belowSeg := above.value, below.value;
        PushCrossing(aboveSeg.line, belowSeg.line, aboveSeg.line, line, aboveSeg.line, currentX, crossingPoint);
      }
    }

    /**
     * `treat_intersection`: remove the event's segment and the entry found
     * above it, insert both again just past the current x, and test the
     * upper one against the entry above it and the lower one against the
     * entry below it. The entry found below is looked up but not used.
     */
    method TreatIntersection(event: Event, currentX: real, crossingPoint: CrossingPoint)
      requires Valid()
      modifies this
      ensures Valid()
      ensures sweepLine == IntersectionStatus(old(sweepLine), event.line, currentX)
      ensures var above := Above(old(sweepLine), YAt(LineWithOrd(event.line, currentX)));
        above.None? ==> eventQueue == old(eventQueue)
      ensures var above := Above(old(sweepLine), YAt(LineWithOrd(event.line, currentX)));
        above.Some? ==>
          eventQueue == old(eventQueue) +
            IntersectionEvents(sweepLine, LineWithOrd(event.line, currentX + EPSILON),
                               LineWithOrd(above.value.line, currentX + EPSILON), currentX, crossingPoint)
    {
      var currentLine := event.line;
      var currentSeg := LineWithOrd(currentLine, currentX);
      var above := Above(sweepLine, YAt(currentSeg));
      var below := Below(sweepLine, YAt(currentSeg));
      sweepLine := Remove(sweepLine, YAt(currentSeg));
      if above.Some? {
        sweepLine := Remove(sweepLine, YAt(above.value));
      }
      if above.Some? {
        var aboveSeg := above.value;
        var seg1 := currentSeg.(sweepX := currentX + EPSILON);
        var seg2 := aboveSeg.(sweepX := currentX + EPSILON);
        ReinsertPair(seg1, seg2, currentX, crossingPoint);
      }
    }

    /**
     * The second half of `treat_intersection`: insert the upper segment
     * seg2 and the lower segment seg1 again, then test seg2 against the
     * entry above it and seg1 against the entry below it.
     */
    method ReinsertPair(seg1: LineWithOrd, seg2: LineWithOrd, currentX: real, crossingPoint: CrossingPoint)
      requires Valid()
      modifies this
      ensures Valid()
      ensures sweepLine == Insert(Insert(old(sweepLine), seg2), seg1)
      ensures eventQueue == old(eventQueue) + IntersectionEvents(sweepLine, seg1, seg2, currentX, crossingPoint)
    {
      sweepLine := Insert(sweepLine, seg2);
      sweepLine := Insert(sweepLine, seg1);
      ghost var before := eventQueue;
      ghost var pushedAbove: seq<Event> := [];
      ghost var pushedBelow: seq<Event> := [];
      var newAbove := Above(sweepLine, YAt(seg2));
      if newAbove.Some? {
        var a := newAbove.value;
        PushCrossing(seg2.line, a.line, seg2.line, seg2.line, seg1.line, currentX, crossingPoint);
        pushedAbove := CrossingEvent(seg2.line, a.line, seg2.line, seg2.line, seg1.line, currentX, crossingPoint);
      }
      ghost var middle := eventQueue;
      var newBelow := Below(sweepLine, YAt(seg1));
      if newBelow.Some? {
        var b := newBelow.value;
        PushCrossing(seg1.line, b.line, seg1.line, seg1.line, seg2.line, currentX, crossingPoint);
        pushedBelow := CrossingEvent(seg1.line, b.line, seg1.line, seg1.line, seg2.line, currentX, crossingPoint);
      }
      AppendTwice(before, pushedAbove, middle, pushedBelow, eventQueue);
    }

    /**
     * The `match` in the loop of `main`: dispatch the popped event to its
     * handler. Every handler only appends Intersection events, all right of
     * the current x.
     */
    method HandleEvent(event: Event, currentX: real, crossingPoint: CrossingPoint)
      requires Valid()
      modifies this
      ensures Valid()
      ensures sweepLine == HandledStatus(old(sweepLine), event, currentX)
      ensures eventQueue == old(eventQueue) + HandledEvents(old(sweepLine), event, currentX, crossingPoint)
      ensures |old(eventQueue)| <= |eventQueue| && eventQueue[..|old(eventQueue)|] == old(eventQueue)
      ensures forall e :: e in eventQueue[|old(eventQueue)|..] ==> e.x > currentX && e.eventType.Intersection?
    {
      ghost var before := eventQueue;
      match event.eventType
      case Start =>
        TreatLeftEndpoint(event, currentX, crossingPoint);
        assert eventQueue[|before|..] == LeftEndpointEvents(sweepLine, event.line, currentX, crossingPoint);
      case End =>
        TreatRightEndpoint(event, currentX, crossingPoint);
        assert eventQueue[|before|..] == RightEndpointEvents(old(sweepLine), event.line, currentX, crossingPoint);
      case Intersection(_, _, _) =>
        ghost var above := Above(sweepLine, YAt(LineWithOrd(event.line, currentX)));
        TreatIntersection(event, currentX, crossingPoint);
        if above.Some? {
          assert eventQueue[|before|..] == IntersectionEvents(sweepLine, LineWithOrd(event.line, currentX + EPSILON),
            LineWithOrd(above.value.line, currentX + EPSILON), currentX, crossingPoint);
        } else {
          assert eventQueue[|before|..] == [];
        }
    }

    /**
     * One round of the loop of `main`: pop an event of least x and handle
     * it. Every event left or added lies no left of the popped one, and no
     * queued event is lost.
     */
    method Step(crossingPoint: CrossingPoint) returns (event: Event)
      requires Valid() && |eventQueue| > 0
      modifies this
      ensures Valid()
      ensures event in old(eventQueue)
      ensures forall e :: e in eventQueue ==> event.x <= e.x
      ensures multiset(old(eventQueue)) <= multiset(eventQueue) + multiset{event}
      ensures StepEffect(old(sweepLine), old(eventQueue), event, sweepLine, eventQueue, crossingPoint)
    {
      event := Pop();
      var currentX := event.x;
      ghost var remaining := eventQueue;
      HandleEvent(event, currentX, crossingPoint);
      QueueGrowsAhead(remaining, eventQueue, currentX);
    }

    /**
     * The seeding loop of `main`: skip segments narrower than the tolerance,
     * count the others and push their Start and End events.
     */
    method Seed(lines: seq<Line>) returns (numberOfSegments: nat)
      modifies this
      ensures sweepLine == old(sweepLine)
      ensures eventQueue == old(eventQueue) + SeedEvents(lines)
      ensures numberOfSegments == |Kept(lines)|
    {
      numberOfSegments := 0;
      for n := 0 to |lines|
        invariant sweepLine == old(sweepLine)
        invariant eventQueue == old(eventQueue) + SeedEvents(lines[..n])
        invariant numberOfSegments == |Kept(lines[..n])|
      {
        var line := lines[n];
        SeedStep(lines, n);
        if Abs(line.p1.x - line.p2.x) < EPSILON {
          continue;
        }
        numberOfSegments := numberOfSegments + 1;
        var ends := if line.p1.x < line.p2.x then (line.p1, line.p2) else (line.p2, line.p1);
        var left, right := ends.0, ends.1;
        eventQueue := eventQueue + [Event(left.x, line, Start)];
        eventQueue := eventQueue + [Event(right.x, line, End)];
      }
      assert lines[..|lines|] == lines;
    }
  }

  /** Concatenation of popped events regroups freely. */
  lemma AppendAssoc(a: seq<Event>, b: seq<Event>, c: seq<Event>)
    ensures a + b + c == a + (b + c)
  {
  }

  /** Before the first round, nothing is popped and `Run` from the empty status is the whole run. */
  lemma RunBegin(popped: seq<Event>, status: seq<LineWithOrd>, queue: seq<Event>, fuel: nat, steps: nat, crossingPoint: CrossingPoint)
    requires popped == [] && status == [] && steps == 0
    ensures popped + Run(status, queue, fuel - steps, crossingPoint) == Run([], queue, fuel, crossingPoint)
  {
    var r := Run(status, queue, fuel - steps, crossingPoint);
    assert fuel - steps == fuel;
    assert r == Run([], queue, fuel, crossingPoint);
    AppendEmpty(r);
  }

  /** The empty prefix changes nothing. */
  lemma AppendEmpty(a: seq<Event>)
    ensures [] + a == a
  {
  }

  /** Once the fuel or the queue is used up, the events popped so far are the whole run. */
  lemma RunDone(popped: seq<Event>, status: seq<LineWithOrd>, queue: seq<Event>, fuel: nat,
                crossingPoint: CrossingPoint, total: seq<Event>)
    requires Sorted(status) && (fuel == 0 || queue == [])
    requires popped + Run(status, queue, fuel, crossingPoint) == total
    ensures popped == total
  {
    assert popped + [] == popped;
  }

  /**
   * One round of the loop in terms of `Run`: the popped event is the first
   * one `Run` pops, and the popped events followed by what `Run` still
   * pops stay the whole run.
   */
  lemma RunRound(popped: seq<Event>, event: Event, status: seq<LineWithOrd>, queue: seq<Event>,
                 status': seq<LineWithOrd>, queue': seq<Event>, fuel: nat, steps: nat, steps': nat,
                 crossingPoint: CrossingPoint, total: seq<Event>)
    requires Sorted(status) && |queue| > 0 && steps < fuel && steps' == steps + 1
    requires StepEffect(status, queue, event, status', queue', crossingPoint)
    requires popped + Run(status, queue, fuel - steps, crossingPoint) == total
    ensures Run(status, queue, fuel - steps, crossingPoint) == [event] + Run(status', queue', fuel - steps', crossingPoint)
    ensures popped + [event] + Run(status', queue', fuel - steps', crossingPoint) == total
  {
    RunStep(status, queue, event, status', queue', fuel - steps, crossingPoint);
    assert fuel - steps - 1 == fuel - steps';
    AppendAssoc(popped, [event], Run(status', queue', fuel - steps', crossingPoint));
  }

  /**
   * One round of the loop keeps its invariants: the popped events stay in
   * order of x and are counted, and no seeded event is lost between the
   * popped ones and the queue.
   */
  lemma PoppedStep(popped: seq<Event>, event: Event, before: seq<Event>, after: seq<Event>, seeded: seq<Event>)
    requires forall i, j :: 0 <= i < j < |popped| ==> popped[i].x <= popped[j].x
    requires |popped| > 0 ==> forall e :: e in before ==> popped[|popped| - 1].x <= e.x
    requires event in before
    requires multiset(before) <= multiset(after) + multiset{event}
    requires multiset(seeded) <= multiset(popped) + multiset(before)
    ensures forall i, j :: 0 <= i < j < |popped + [event]| ==> (popped + [event])[i].x <= (popped + [event])[j].x
    ensures multiset(seeded) <= multiset(popped + [event]) + multiset(after)
    ensures IntersectionsIn(popped + [event]) == IntersectionsIn(popped) + (if event.eventType.Intersection? then 1 else 0)
  {
    assert (popped + [event])[..|popped|] == popped;
  }

  /**
   * One round of the loop of `main`: pop and handle the next event and
   * count it when it is an Intersection. The popped events stay in order
   * of x, none of them lies right of what is still queued, no seeded event
   * is lost, and the popped ones followed by what `Run` still pops stay
   * the whole run.
   */
  method Round(state: SweepState, crossingPoint: CrossingPoint, fuel: nat, steps: nat, count: nat,
               ghost popped: seq<Event>, ghost seeded: seq<Event>, ghost total: seq<Event>)
    returns (event: Event, steps': nat, count': nat, ghost popped': seq<Event>)
    requires state.Valid() && |state.eventQueue| > 0 && steps < fuel
    requires steps == |popped| && count == IntersectionsIn(popped)
    requires forall i, j :: 0 <= i < j < |popped| ==> popped[i].x <= popped[j].x
    requires |popped| > 0 ==> forall e :: e in state.eventQueue ==> popped[|popped| - 1].x <= e.x
    requires multiset(seeded) <= multiset(popped) + multiset(state.eventQueue)
    requires popped + Run(state.sweepLine, state.eventQueue, fuel - steps, crossingPoint) == total
    modifies state
    ensures state.Valid()
    ensures popped' == popped + [event]
    ensures steps' == |popped'| <= fuel
    ensures count' == IntersectionsIn(popped')
    ensures count' == count + (if event.eventType.Intersection? then 1 else 0)
    ensures forall i, j :: 0 <= i < j < |popped'| ==> popped'[i].x <= popped'[j].x
    ensures |popped'| > 0 ==> forall e :: e in state.eventQueue ==> popped'[|popped'| - 1].x <= e.x
    ensures multiset(seeded) <= multiset(popped') + multiset(state.eventQueue)
    ensures StepEffect(old(state.sweepLine), old(state.eventQueue), event, state.sweepLine, state.eventQueue, crossingPoint)
    ensures Run(old(state.sweepLine), old(state.eventQueue), fuel - steps, crossingPoint)
      == [event] + Run(state.sweepLine, state.eventQueue, fuel - steps', crossingPoint)
    ensures popped' + Run(state.sweepLine, state.eventQueue, fuel - steps', crossingPoint) == total
  {
    ghost var before := state.eventQueue;
    ghost var status := state.sweepLine;
    steps' := steps + 1;
    count' := count;
    event := state.Step(crossingPoint);
    if event.eventType.Intersection? {
      count' := count' + 1;
    }
    PoppedStep(popped, event, before, state.eventQueue, seeded);
    popped' := popped + [event];
    RunRound(popped, event, status, before, state.sweepLine, state.eventQueue, fuel, steps, steps', crossingPoint, total);
  }

  /**
   * The loop of `main`: pop and handle events until the queue is empty,
   * for at most `fuel` events. The popped events are exactly those `Run`
   * pops from the queue it starts with, and the count is the number of
   * Intersection events among them.
   */
  method Drain(state: SweepState, crossingPoint: CrossingPoint, fuel: nat, ghost seeded: seq<Event>)
    returns (intersectionCount: nat, ghost popped: seq<Event>)
    requires state.Valid() && state.sweepLine == []
    requires multiset(seeded) <= multiset(state.eventQueue)
    modifies state
    ensures popped == Run([], old(state.eventQueue), fuel, crossingPoint)
    ensures intersectionCount == IntersectionsIn(popped)
    ensures forall i, j :: 0 <= i < j < |popped| ==> popped[i].x <= popped[j].x
    ensures |popped| <= fuel && (|state.eventQueue| > 0 ==> |popped| == fuel)
    ensures |state.eventQueue| == 0 ==> multiset(seeded) <= multiset(popped)
  {
    intersectionCount := 0;
    popped := [];
    var steps := 0;
    ghost var total := popped + Run(state.sweepLine, state.eventQueue, fuel - steps, crossingPoint);
    RunBegin(popped, state.sweepLine, state.eventQueue, fuel, steps, crossingPoint);
    while steps < fuel && |state.eventQueue| > 0
      invariant state.Valid()
      invariant steps == |popped| <= fuel
      invariant intersectionCount == IntersectionsIn(popped)
      invariant forall i, j :: 0 <= i < j < |popped| ==> popped[i].x <= popped[j].x
      invariant |popped| > 0 ==> forall e :: e in state.eventQueue ==> popped[|popped| - 1].x <= e.x
      invariant multiset(seeded) <= multiset(popped) + multiset(state.eventQueue)
      invariant popped + Run(state.sweepLine, state.eventQueue, fuel - steps, crossingPoint) == total
      decreases fuel - steps
    {
      var event;
      event, steps, intersectionCount, popped := Round(state, crossingPoint, fuel, steps, intersectionCount, popped, seeded, total);
    }
    RunDone(popped, state.sweepLine, state.eventQueue, fuel - steps, crossingPoint, total);
  }

  /**
   * `main` for one input, without the file reading, timing and printing:
   * seed the queue, then pop and handle events until the queue is empty,
   * for at most `fuel` events. The popped events are exactly those `Run`
   * pops from the seeded queue, so they come in order of x; the count is
   * the number of Intersection events among them, and when the queue runs
   * empty every seeded event has been popped.
   */
  method SweepIntersections(lines: seq<Line>, crossingPoint: CrossingPoint, fuel: nat)
    returns (intersectionCount: nat, numberOfSegments: nat, finished: bool, ghost popped: seq<Event>)
    ensures numberOfSegments == |Kept(lines)|
    ensures popped == Run([], SeedEvents(lines), fuel, crossingPoint)
    ensures intersectionCount == IntersectionsIn(Run([], SeedEvents(lines), fuel, crossingPoint))
    ensures forall i, j :: 0 <= i < j < |popped| ==> popped[i].x <= popped[j].x
    ensures |popped| <= fuel && (!finished ==> |popped| == fuel)
    ensures finished ==> multiset(SeedEvents(lines)) <= multiset(popped)
  {
    var state := new SweepState();
    numberOfSegments := state.Seed(lines);
    ghost var seeded := state.eventQueue;
    assert seeded == SeedEvents(lines);
    intersectionCount, popped := Drain(state, crossingPoint, fuel, seeded);
    finished := |state.eventQueue| == 0;
  }
}
