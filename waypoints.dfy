// Waypoint index traversal (Assets/Scripts/WaypointMovement.cs): an index
// walks an array of waypoints in Ascending, Descending or Loop order; the two
// directed orders turn around at the ends. Whether the current waypoint has
// been reached (Unity's approximate Vector3 equality) is an input, and only
// the number of waypoints matters here.

module Waypoints {

  datatype WaypointTraversalOrder = Ascending | Descending | Loop

  datatype Cursor = Cursor(index: int, order: WaypointTraversalOrder)

  /** The index may be used to read a waypoint. */
  predicate InBounds(count: int, index: int) {
    0 <= index < count
  }

  /** The starting index for an order. */
  function StartIndex(count: int, order: WaypointTraversalOrder): int {
    match order
    case Ascending => 0
    case Descending => count - 1
    case Loop => 0
  }

  /** Every order starts on a waypoint when there is one: the first one for
      Ascending and Loop, the last one for Descending. */
  lemma StartIndexInBounds(count: int, order: WaypointTraversalOrder)
    requires count > 0
    ensures InBounds(count, StartIndex(count, order))
  {
  }

  /** The first switch of Update: advance past a reached waypoint. */
  function Advance(count: int, c: Cursor, reached: bool): Cursor {
    if !reached then c
    else match c.order
      case Ascending => Cursor(c.index + 1, Ascending)
      case Descending => Cursor(c.index - 1, Descending)
      case Loop => Cursor(if c.index >= count - 1 then 0 else c.index + 1, Loop)
  }

  /** The second switch of Update: turn around at either end. */
  function TurnAround(count: int, c: Cursor): Cursor {
    match c.order
    case Ascending => if c.index > count - 1 then Cursor(count - 1, Descending) else c
    case Descending => if c.index < 0 then Cursor(0, Ascending) else c
    case Loop => c
  }

  /** The index and order after one frame. */
  function Step(count: int, c: Cursor, reached: bool): (r: Cursor)
    requires InBounds(count, c.index)
    ensures InBounds(count, r.index)
  {
    TurnAround(count, Advance(count, c, reached))
  }

  /** A frame in which the waypoint is not reached changes nothing. */
  lemma StepNotReached(count: int, c: Cursor)
    requires InBounds(count, c.index)
    ensures Step(count, c, false) == c
  {
  }

  /** In Loop order a reached waypoint moves the index on by one, wrapping
      from the last waypoint to the first, and the order stays Loop. */
  lemma StepLoop(count: int, i: int)
    requires InBounds(count, i)
    ensures Step(count, Cursor(i, Loop), true) == Cursor((i + 1) % count, Loop)
  {
  }

  /** Ascending past the last waypoint turns Descending on the last waypoint
      itself; otherwise Ascending moves on by one. */
  lemma StepAscending(count: int, i: int)
    requires InBounds(count, i)
    ensures i == count - 1 ==> Step(count, Cursor(i, Ascending), true) == Cursor(count - 1, Descending)
    ensures i < count - 1 ==> Step(count, Cursor(i, Ascending), true) == Cursor(i + 1, Ascending)
  {
  }

  /** Descending below the first waypoint turns Ascending on the first
      waypoint; otherwise Descending moves back by one. */
  lemma StepDescending(count: int, i: int)
    requires InBounds(count, i)
    ensures i == 0 ==> Step(count, Cursor(i, Descending), true) == Cursor(0, Ascending)
    ensures i > 0 ==> Step(count, Cursor(i, Descending), true) == Cursor(i - 1, Descending)
  {
  }

  /** Loop is never entered or left; the directed orders only toggle into
      each other. */
  lemma StepKeepsLoop(count: int, c: Cursor, reached: bool)
    requires InBounds(count, c.index)
    ensures (Step(count, c, reached).order == Loop) <==> (c.order == Loop)
  {
  }

  /** The cursor after the frames in `reached`, one flag per frame. */
  function Walk(count: int, c: Cursor, reached: seq<bool>): (r: Cursor)
    requires InBounds(count, c.index)
    decreases |reached|
  {
    if reached == [] then c else Walk(count, Step(count, c, reached[0]), reached[1..])
  }

  /** However many frames pass, the index stays on a waypoint and Loop order
      stays Loop. */
  lemma {:induction false} WalkInBounds(count: int, c: Cursor, reached: seq<bool>)
    requires InBounds(count, c.index)
    ensures InBounds(count, Walk(count, c, reached).index)
    ensures (Walk(count, c, reached).order == Loop) <==> (c.order == Loop)
    decreases |reached|
  {
    if reached != [] {
      StepKeepsLoop(count, c, reached[0]);
      WalkInBounds(count, Step(count, c, reached[0]), reached[1..]);
    }
  }

  /** In Loop order, reaching waypoint after waypoint from index i visits
      i + 1, i + 2, ... and comes back to the first waypoint after the last
      one: a full round of `count` reached waypoints from the first waypoint
      ends on it again. */
  lemma {:induction false} WalkLoopAllReached(count: int, i: int, k: nat)
    requires InBounds(count, i) && i + k <= count
    ensures Walk(count, Cursor(i, Loop), seq(k, _ => true))
            == Cursor(if i + k == count then 0 else i + k, Loop)
    decreases k
  {
    if k > 0 {
      var flags := seq(k, _ => true);
      assert flags[0] && flags[1..] == seq(k - 1, _ => true);
      StepLoop(count, i);
      if i + 1 < count {
        assert (i + 1) % count == i + 1;
        WalkLoopAllReached(count, i + 1, k - 1);
      } else {
        assert (i + 1) % count == 0;
      }
    }
  }

  class WaypointMovement {
    /** wayPoints.Length */
    const waypointCount: nat
    var wayPointIndex: int
    var currentWayPointTraversalOrder: WaypointTraversalOrder

    function CurrentCursor(): Cursor
      reads this
    {
      Cursor(wayPointIndex, currentWayPointTraversalOrder)
    }

    constructor (waypointCount: nat, order: WaypointTraversalOrder)
      ensures this.waypointCount == waypointCount
      ensures currentWayPointTraversalOrder == order && wayPointIndex == 0
    {
      this.waypointCount := waypointCount;
      currentWayPointTraversalOrder := order;
      wayPointIndex := 0;
    }

    /** Start: pick the first index for the order; with no waypoints,
        Descending starts at -1. */
    method Start()
      modifies this`wayPointIndex
      ensures wayPointIndex == StartIndex(waypointCount, currentWayPointTraversalOrder)
      ensures waypointCount > 0 ==> InBounds(waypointCount, wayPointIndex)
    {
      match currentWayPointTraversalOrder {
        case Ascending =>
          wayPointIndex := 0;
        case Descending =>
          wayPointIndex := waypointCount - 1;
        case Loop =>
          wayPointIndex := 0;
      }
      if waypointCount > 0 {
        StartIndexInBounds(waypointCount, currentWayPointTraversalOrder);
      }
    }

    /** The index and order update of one frame. The frame reads the current
        waypoint first, so the index must be on one. */
    method Update(reached: bool)
      requires InBounds(waypointCount, wayPointIndex)
      modifies this`wayPointIndex, this`currentWayPointTraversalOrder
      ensures CurrentCursor() == Step(waypointCount, old(CurrentCursor()), reached)
      ensures InBounds(waypointCount, wayPointIndex)
    {
      if reached {
        match currentWayPointTraversalOrder
        case Ascending =>
          wayPointIndex := wayPointIndex + 1;
        case Descending =>
          wayPointIndex := wayPointIndex - 1;
        case Loop =>
          if wayPointIndex >= waypointCount - 1 {
            wayPointIndex := 0;
          } else {
            wayPointIndex := wayPointIndex + 1;
          }
      }
      match currentWayPointTraversalOrder
      case Ascending =>
        if wayPointIndex > waypointCount - 1 {
          currentWayPointTraversalOrder := Descending;
          wayPointIndex := waypointCount - 1;
        }
      case Descending =>
        if wayPointIndex < 0 {
          currentWayPointTraversalOrder := Ascending;
          wayPointIndex := 0;
        }
      case Loop =>
    }
  }
}
