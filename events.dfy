/**
 * Sweep events (src/lib/event.rs). Events compare by their x-coordinate
 * only, reversed, so that the max-heap of the sweep pops an event of least x.
 */
module Events {
  import opened Common
  import opened Points
  import opened Lines

  datatype EventType = Start | End | Intersection(p: Point, l1: Line, l2: Line)

  /**
   * `Event`; the datatype constructor is `Event::new`, which stores its three
   * arguments unchanged (its NaN check has no counterpart over the reals).
   */
  datatype Event = Event(x: real, line: Line, eventType: EventType)

  /** The derived `Ord` on `Reverse(x)`, ignoring `line` and `event_type`. */
  function EventCmp(e1: Event, e2: Event): (r: Ordering)
    ensures r == Greater <==> e1.x < e2.x
    ensures r == Equal <==> e1.x == e2.x
    ensures r == Less <==> e1.x > e2.x
  {
    CompareReal(e2.x, e1.x)
  }

  /** The derived `PartialEq`: the same x, whatever the segment and the kind. */
  predicate EventEq(e1: Event, e2: Event)
  {
    EventCmp(e1, e2) == Equal
  }

  /** Replacing the segment or the kind of either event does not change how they compare. */
  lemma EventCmpIgnoresPayload(e1: Event, e2: Event, l1: Line, t1: EventType, l2: Line, t2: EventType)
    ensures EventCmp(Event(e1.x, l1, t1), Event(e2.x, l2, t2)) == EventCmp(e1, e2)
    ensures EventEq(Event(e1.x, l1, t1), e1)
  {
  }

  /**
   * The position `BinaryHeap::pop` takes an event from: one that is
   * greatest under `EventCmp`, i.e. of least x. Among events with equal x
   * the model takes the earliest pushed.
   */
  function PopIndex(queue: seq<Event>): (i: nat)
    requires |queue| > 0
    ensures i < |queue|
    ensures forall k :: 0 <= k < |queue| ==> EventCmp(queue[i], queue[k]) != Less
    ensures forall k :: 0 <= k < i ==> queue[k].x > queue[i].x
    decreases |queue|
  {
    if |queue| == 1 then 0
    else
      var j := PopIndex(queue[1..]);
      if queue[0].x <= queue[j + 1].x then 0 else j + 1
  }

  /** The number of Intersection events in a sequence of events. */
  function IntersectionsIn(events: seq<Event>): (n: nat)
    ensures n <= |events|
    ensures n == |events| <==> forall k :: 0 <= k < |events| ==> events[k].eventType.Intersection?
  {
    if events == [] then 0
    else IntersectionsIn(events[..|events| - 1]) + (if events[|events| - 1].eventType.Intersection? then 1 else 0)
  }
}
