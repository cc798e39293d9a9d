/**
 * DroneController without its I/O: the restricted segments and date strings
 * set up by the constructor, the nearest-unvisited-sensor choice, the legs
 * flown along A* routes (cut short when the moves run out), the read and
 * "null" terminators of the log, the return leg, and the greedy tour.
 */
module Controller {
  import opened Geometry
  import opened LineSegments
  import opened AStarUtils
  import opened Drones
  import opened FlightLog
  import opened NoFly
  import opened Dates

  /** The number the log gives a move made with `allowance` moves left. */
  function MoveNumber(allowance: int): int {
    151 - allowance
  }

  /** How many moves of a route a drone with the given allowance flies: all of them, or as many as it may. */
  function Applied(route: seq<Point>, allowance: int): (n: nat)
    requires |route| >= 1 && allowance >= 0
    ensures n < |route| && n <= allowance
    ensures n == |route| - 1 || n == allowance
  {
    if |route| - 1 <= allowance then |route| - 1 else allowance
  }

  /**
   * The line drawn for a leg after n of its moves: the route up to and
   * including the point where the drone stopped.
   */
  function DrawnPath(route: seq<Point>, n: nat): (drawn: seq<Point>)
    requires n < |route|
    ensures |drawn| == n + 1 && drawn[0] == route[0] && drawn[n] == route[n]
    ensures forall i :: 0 <= i <= n ==> drawn[i] == route[i]
  {
    route[..n + 1]
  }

  /**
   * The line as the source draws it: the whole route when every move was
   * flown, and only the points before the stopping point when the leg was
   * cut short.
   */
  function DrawnPathAsWritten(route: seq<Point>, n: nat): seq<Point>
    requires n < |route|
  {
    if n < |route| - 1 then route[..n] else route
  }

  /**
   * A leg cut short after n >= 1 moves is drawn without its last move: the
   * drawn line stops at the point before the drone's position, and after a
   * single move it is one point, not a line.
   */
  lemma DrawnPathAsWrittenDropsLastMove(route: seq<Point>, n: nat)
    requires 1 <= n < |route| - 1 && route[n - 1] != route[n]
    ensures var drawn := DrawnPathAsWritten(route, n);
      |drawn| == n && drawn[|drawn| - 1] != route[n]
    ensures n == 1 ==> DrawnPathAsWritten(route, n) == [route[0]]
  {
  }

  /** The intended line ends where the drone is and, after any move, has at least two points. */
  lemma DrawnPathEndsAtDrone(route: seq<Point>, allowance: int)
    requires |route| >= 2 && allowance >= 1
    ensures var n := Applied(route, allowance);
      var drawn := DrawnPath(route, n);
      |drawn| >= 2 && drawn[|drawn| - 1] == route[n]
      && (n < |route| - 1 ==> DrawnPathAsWritten(route, n) != drawn)
      && (n == |route| - 1 ==> DrawnPathAsWritten(route, n) == drawn)
  {
    var n := Applied(route, allowance);
    assert route[..|route|] == route;
    if n < |route| - 1 {
      assert |DrawnPathAsWritten(route, n)| == n;
    }
  }

  /** Appending to a log in two steps is appending to what came after its first part. */
  lemma Reassociate<T>(a: seq<T>, b: seq<T>, c: seq<T>, d: seq<T>)
    ensures a + b + c + d == a + (b + c + d)
  {
    assert a + b + c + d == a + (b + c + d);
  }

  /** A log written after `a` is what follows `a`. */
  lemma SplitAfter<T>(a: seq<T>, b: seq<T>)
    ensures |a + b| >= |a| && (a + b)[..|a|] == a && (a + b)[|a|..] == b
  {
    assert (a + b)[..|a|] == a;
    assert (a + b)[|a|..] == b;
  }

  /** The sensor's marker is the one it had, or the one reading it gives. */
  ghost predicate MarkerFromReads(s: Sensor, before: Marker)
    reads s
  {
    s.CurrentMarker() == before || s.CurrentMarker() == ReadMarker(s.battery, s.reading, before)
  }

  /** Every move of the log is at one of the 36 headings when the route moves legally. */
  lemma {:induction false} LegLogHeadings(geo: Geometry, route: seq<Point>, n: nat, first: int, sensor: Option<Point>,
                                          noFlyZones: seq<LineSegment>)
    requires Lawful(geo) && n < |route| && IsRoute(geo, route, noFlyZones)
    ensures HeadingsLegal(LegLog(geo, route, n, first, sensor))
  {
    if n > 0 {
      LegLogHeadings(geo, route, n - 1, first, sensor, noFlyZones);
      NeighbourIsStep(geo, route[n - 1], route[n], noFlyZones);
      var h :| IsHeading(h) && route[n] == geo.pointAfterMove(route[n - 1], h);
      RoundWhole(h);
      var before := LegLog(geo, route, n - 1, first, sensor);
      var log := LegLog(geo, route, n, first, sensor);
      forall i | 0 <= i < |log| && log[i].MoveRecord?
        ensures IsHeading(log[i].angle)
      {
        if i < |before| {
          assert log[i] == before[i];
        }
      }
    }
  }

  /** Two logs of moves at legal headings make one. */
  lemma HeadingsLegalAppend(a: seq<Fragment>, b: seq<Fragment>)
    requires HeadingsLegal(a) && HeadingsLegal(b)
    ensures HeadingsLegal(a + b)
  {
    forall i | 0 <= i < |a + b| && (a + b)[i].MoveRecord?
      ensures IsHeading((a + b)[i].angle)
    {
      if i < |a| {
        assert (a + b)[i] == a[i];
      } else {
        assert (a + b)[i] == b[i - |a|];
      }
    }
  }

  /** Every move of the log goes from its origin to a legal neighbour of it: it crosses no restricted segment. */
  ghost predicate MovesLegal(geo: Geometry, log: seq<Fragment>, noFlyZones: seq<LineSegment>) {
    forall i :: 0 <= i < |log| && log[i].MoveRecord? ==> log[i].to in Neighbours(geo, log[i].from, noFlyZones)
  }

  /** Every move logged along a planned route is a legal move. */
  lemma {:induction false} LegLogMovesLegal(geo: Geometry, route: seq<Point>, n: nat, first: int, sensor: Option<Point>,
                                            noFlyZones: seq<LineSegment>)
    requires n < |route| && IsRoute(geo, route, noFlyZones)
    ensures MovesLegal(geo, LegLog(geo, route, n, first, sensor), noFlyZones)
  {
    if n > 0 {
      LegLogMovesLegal(geo, route, n - 1, first, sensor, noFlyZones);
      var before := LegLog(geo, route, n - 1, first, sensor);
      var log := LegLog(geo, route, n, first, sensor);
      forall i | 0 <= i < |log| && log[i].MoveRecord?
        ensures log[i].to in Neighbours(geo, log[i].from, noFlyZones)
      {
        if i < |before| {
          assert log[i] == before[i];
        } else {
          assert log[i].from == route[n - 1] && log[i].to == route[n];
        }
      }
    }
  }

  /** Two logs of legal moves make one; a read terminator has no move. */
  lemma MovesLegalAppend(geo: Geometry, a: seq<Fragment>, b: seq<Fragment>, noFlyZones: seq<LineSegment>)
    requires MovesLegal(geo, a, noFlyZones) && MovesLegal(geo, b, noFlyZones)
    ensures MovesLegal(geo, a + b, noFlyZones)
  {
    forall i | 0 <= i < |a + b| && (a + b)[i].MoveRecord?
      ensures (a + b)[i].to in Neighbours(geo, (a + b)[i].from, noFlyZones)
    {
      if i < |a| {
        assert (a + b)[i] == a[i];
      } else {
        assert (a + b)[i] == b[i - |a|];
      }
    }
  }

  /** A log of one read terminator moves nothing and is consistent from anywhere. */
  lemma ReadOnlyLog(extra: seq<Fragment>, at: Point, first: int)
    requires extra == [] || (|extra| == 1 && extra[0].ReadTerminator?)
    ensures Consistent(extra, at, first) && CountMoves(extra) == 0
    ensures EndPosition(extra, at) == at && HeadingsLegal(extra)
  {
    if extra != [] {
      assert DropLast(extra) == [];
    }
  }

  /** Every move of a planned route passes the drone's checks while a move is left. */
  lemma PlannedStepAccepted(geo: Geometry, p: Point, q: Point, noFlyZones: seq<LineSegment>, allowance: int)
    requires Lawful(geo) && q in Neighbours(geo, p, noFlyZones) && allowance >= 1
    ensures MoveCheck(geo.distance(p, q), geo.angleBetween(p, q), allowance) == Accepted
  {
    NeighbourIsStep(geo, p, q, noFlyZones);
    var h :| IsHeading(h) && q == geo.pointAfterMove(p, h);
    LegalStepAccepted(geo, p, h, allowance);
  }

  /** Every move of the route passes the drone's checks whenever a move is left. */
  ghost predicate Flyable(geo: Geometry, moves: seq<Point>) {
    forall i :: 1 <= i < |moves| ==>
      MoveCheck(geo.distance(moves[i - 1], moves[i]), geo.angleBetween(moves[i - 1], moves[i]), 1) == Accepted
  }

  /** The drone flies every route the planner produces. */
  lemma RouteFlyable(geo: Geometry, route: seq<Point>, noFlyZones: seq<LineSegment>)
    requires Lawful(geo) && IsRoute(geo, route, noFlyZones)
    ensures Flyable(geo, route)
  {
    forall i | 1 <= i < |route|
      ensures MoveCheck(geo.distance(route[i - 1], route[i]), geo.angleBetween(route[i - 1], route[i]), 1) == Accepted
    {
      PlannedStepAccepted(geo, route[i - 1], route[i], noFlyZones, 1);
    }
  }

  /**
   * The log is one unbroken flight at legal headings from `start`, its moves
   * numbered on from the one made with `startAllowance` moves left, one move
   * spent per record, ending at `end` with `allowance` moves left.
   */
  ghost predicate Flight(log: seq<Fragment>, start: Point, startAllowance: int, allowance: int, end: Point) {
    && Consistent(log, start, MoveNumber(startAllowance)) && HeadingsLegal(log)
    && CountMoves(log) == startAllowance - allowance && EndPosition(log, start) == end
  }

  /**
   * A flight stays one when a leg of n moves along a legal route from where
   * it ended is added, followed by at most a read terminator.
   */
  lemma ExtendTrip(geo: Geometry, noFlyZones: seq<LineSegment>, trip: seq<Fragment>, start: Point, startAllowance: int,
                   allowance: int, route: seq<Point>, n: nat, sensor: Option<Point>, extra: seq<Fragment>)
    requires Lawful(geo) && n < |route| && IsRoute(geo, route, noFlyZones)
    requires Flight(trip, start, startAllowance, allowance, route[0])
    requires extra == [] || (|extra| == 1 && extra[0].ReadTerminator?)
    ensures Flight(trip + LegLog(geo, route, n, MoveNumber(allowance), sensor) + extra,
                   start, startAllowance, allowance - n, route[n])
  {
    var leg := LegLog(geo, route, n, MoveNumber(allowance), sensor);
    LegLogTracksRoute(geo, route, n, MoveNumber(allowance), sensor);
    LegLogHeadings(geo, route, n, MoveNumber(allowance), sensor, noFlyZones);
    AppendLogs(trip, leg, start, MoveNumber(startAllowance));
    HeadingsLegalAppend(trip, leg);
    ReadOnlyLog(extra, route[n], MoveNumber(startAllowance) + CountMoves(trip + leg));
    AppendLogs(trip + leg, extra, start, MoveNumber(startAllowance));
    HeadingsLegalAppend(trip + leg, extra);
  }

  /** A leg followed by at most a read terminator records exactly the reads of that terminator. */
  lemma LegReads(geo: Geometry, trip: seq<Fragment>, route: seq<Point>, n: nat, first: int, sensor: Option<Point>,
                 extra: seq<Fragment>)
    requires n < |route|
    requires extra == [] || (|extra| == 1 && extra[0].ReadTerminator?)
    ensures CountReads(trip + LegLog(geo, route, n, first, sensor) + extra) == CountReads(trip) + |extra|
  {
    var leg := LegLog(geo, route, n, first, sensor);
    LegLogHasNoReads(geo, route, n, first, sensor);
    AppendLogs(trip, leg, route[0], first);
    AppendLogs(trip + leg, extra, route[0], first);
    if extra != [] {
      assert DropLast(extra) == [];
    }
  }

  /** A flight of some legs of legal moves, each leg ending with at most one read. */
  ghost predicate Tour(geo: Geometry, noFlyZones: seq<LineSegment>, log: seq<Fragment>, start: Point, startAllowance: int,
                       allowance: int, end: Point, legs: int) {
    Flight(log, start, startAllowance, allowance, end) && MovesLegal(geo, log, noFlyZones) && CountReads(log) <= legs
  }

  /** A tour stays one, with one more leg, when a leg and at most a read terminator are added. */
  lemma ExtendTour(geo: Geometry, noFlyZones: seq<LineSegment>, trip: seq<Fragment>, start: Point, startAllowance: int,
                   allowance: int, route: seq<Point>, n: nat, sensor: Option<Point>, extra: seq<Fragment>, legs: int)
    requires Lawful(geo) && n < |route| && IsRoute(geo, route, noFlyZones)
    requires Tour(geo, noFlyZones, trip, start, startAllowance, allowance, route[0], legs)
    requires extra == [] || (|extra| == 1 && extra[0].ReadTerminator?)
    ensures Tour(geo, noFlyZones, trip + LegLog(geo, route, n, MoveNumber(allowance), sensor) + extra,
                 start, startAllowance, allowance - n, route[n], legs + |extra|)
  {
    var leg := LegLog(geo, route, n, MoveNumber(allowance), sensor);
    ExtendTrip(geo, noFlyZones, trip, start, startAllowance, allowance, route, n, sensor, extra);
    LegReads(geo, trip, route, n, MoveNumber(allowance), sensor, extra);
    LegLogMovesLegal(geo, route, n, MoveNumber(allowance), sensor, noFlyZones);
    MovesLegalAppend(geo, trip, leg, noFlyZones);
    assert MovesLegal(geo, extra, noFlyZones);
    MovesLegalAppend(geo, trip + leg, extra, noFlyZones);
  }

  /** How a leg ended: flown along a route (possibly cut short), no route found, or not started. */
  datatype Leg = Flown(route: seq<Point>) | NoRoute | NotStarted

  class DroneController {
    const confinementArea: seq<Point>
    const noFlyZones: seq<seq<Point>>
    const noFlyLineSegments: seq<LineSegment>
    const sensorList: seq<Sensor>
    const drone: Drone
    const year: string
    const month: string
    const day: string
    /** The flight-path log, fragment by fragment. */
    var flightPath: seq<Fragment>
    /** The line strings drawn for the legs, in flight order. */
    var flightLines: seq<seq<Point>>

    /**
     * The date strings (day and month padded to two digits), the restricted
     * segments, and an empty log. The sensor list and the no-fly polygons,
     * which the source downloads, are parameters.
     */
    constructor (confinementArea: seq<Point>, year: int, month: int, day: int, drone: Drone,
                 sensorList: seq<Sensor>, noFlyZones: seq<seq<Point>>)
      ensures this.day == TwoDigit(day) && this.month == TwoDigit(month) && this.year == DecimalString(year)
      ensures noFlyLineSegments == RestrictedSegments(noFlyZones, confinementArea)
      ensures this.confinementArea == confinementArea && this.noFlyZones == noFlyZones
      ensures this.drone == drone && this.sensorList == sensorList
      ensures flightPath == [] && flightLines == []
    {
      var dayString := DecimalString(day);
      if day < 10 {
        dayString := "0" + dayString;
      }
      this.day := dayString;
      var monthString := DecimalString(month);
      if month < 10 {
        monthString := "0" + monthString;
      }
      this.month := monthString;
      this.year := DecimalString(year);
      flightPath := [];
      flightLines := [];
      this.sensorList := sensorList;
      this.noFlyZones := noFlyZones;
      this.confinementArea := confinementArea;
      var segments := BuildNoFlyLineSegments(noFlyZones, confinementArea);
      noFlyLineSegments := segments;
      this.drone := drone;
    }

    /**
     * The sensor the greedy tour visits next: among the sensors with an
     * empty marker symbol, the one strictly nearest to `currentPosition`,
     * the earliest on ties; the first sensor when none is unvisited.
     */
    method ClosestUnvisitedSensor(geo: Geometry, currentPosition: Point) returns (closest: nat)
      requires |sensorList| > 0
      ensures closest < |sensorList|
      ensures (exists j :: 0 <= j < |sensorList| && sensorList[j].Unvisited()) ==>
        && sensorList[closest].Unvisited()
        && (forall j :: 0 <= j < |sensorList| && sensorList[j].Unvisited() ==>
              geo.distance(currentPosition, sensorList[closest].position)
                <= geo.distance(currentPosition, sensorList[j].position))
        && (forall j :: 0 <= j < closest && sensorList[j].Unvisited() ==>
              geo.distance(currentPosition, sensorList[j].position)
                > geo.distance(currentPosition, sensorList[closest].position))
      ensures (forall j :: 0 <= j < |sensorList| ==> !sensorList[j].Unvisited()) ==> closest == 0
    {
      // None stands for the initial Double.POSITIVE_INFINITY.
      var bestDistance: Option<real> := None;
      closest := 0;
      for j := 0 to |sensorList|
        invariant closest < |sensorList|
        invariant bestDistance.None? <==> forall j' :: 0 <= j' < j ==> !sensorList[j'].Unvisited()
        invariant bestDistance.None? ==> closest == 0
        invariant bestDistance.Some? ==>
          && closest < j && sensorList[closest].Unvisited()
          && bestDistance.value == geo.distance(currentPosition, sensorList[closest].position)
          && (forall j' :: 0 <= j' < j && sensorList[j'].Unvisited() ==>
                bestDistance.value <= geo.distance(currentPosition, sensorList[j'].position))
          && (forall j' :: 0 <= j' < closest && sensorList[j'].Unvisited() ==>
                geo.distance(currentPosition, sensorList[j'].position) > bestDistance.value)
      {
        var currentSensor := sensorList[j];
        var currentSensorDistance := geo.distance(currentPosition, currentSensor.position);
        if (bestDistance.None? || currentSensorDistance < bestDistance.value) && currentSensor.markerSymbol == "" {
          bestDistance := Some(currentSensorDistance);
          closest := j;
        }
      }
    }

    /**
     * moveDrone: log the move (its number, origin, rounded angle and
     * destination), then hand it to the drone.
     */
    method MoveDrone(geo: Geometry, newPosition: Point) returns (verdict: MoveVerdict)
      modifies this, drone
      ensures flightPath == old(flightPath) + [MoveRecord(MoveNumber(old(drone.moveAllowance)), old(drone.position),
                                                          Round(geo.angleBetween(old(drone.position), newPosition)),
                                                          newPosition)]
      ensures flightLines == old(flightLines)
      ensures verdict == MoveCheck(geo.distance(old(drone.position), newPosition),
                                   geo.angleBetween(old(drone.position), newPosition), old(drone.moveAllowance))
      ensures verdict.Accepted? ==> drone.position == newPosition && drone.moveAllowance == old(drone.moveAllowance) - 1
      ensures !verdict.Accepted? ==> drone.position == old(drone.position) && drone.moveAllowance == old(drone.moveAllowance)
    {
      var angle := geo.angleBetween(drone.position, newPosition);
      var roundedAngle := Round(angle);
      flightPath := flightPath + [MoveRecord(MoveNumber(drone.moveAllowance), drone.position, roundedAngle, newPosition)];
      verdict := drone.Move(geo, newPosition);
    }

    /** droneRead: end the last move with the sensor's location and read it. */
    method DroneRead(geo: Geometry, sensor: Sensor) returns (ok: bool)
      modifies this, sensor
      ensures flightPath == old(flightPath) + [ReadTerminator(sensor.location)]
      ensures flightLines == old(flightLines)
      ensures ok <==> geo.distance(drone.position, sensor.position) < ReadRange
      ensures ok ==> sensor.CurrentMarker() == ReadMarker(sensor.battery, sensor.reading, old(sensor.CurrentMarker()))
      ensures !ok ==> sensor.CurrentMarker() == old(sensor.CurrentMarker())
    {
      flightPath := flightPath + [ReadTerminator(sensor.location)];
      ok := drone.ReadSensor(geo, sensor);
    }

    /** droneDontRead: end the last move with "null". */
    method DroneDontRead()
      modifies this
      ensures flightPath == old(flightPath) + [NullTerminator]
      ensures flightLines == old(flightLines)
    {
      flightPath := flightPath + [NullTerminator];
    }

    /**
     * The move loop of visitSensor and returnDrone: fly the route move by
     * move while moves are left, ending each move with "null" unless it
     * stops within reading range of the sensor (every move of the return
     * leg, which has no sensor, ends with "null"). Returns the line to draw:
     * the route up to the point where the drone stopped.
     */
    method FlyRoute(geo: Geometry, moves: seq<Point>, sensorPosition: Option<Point>) returns (lines: seq<Point>)
      requires |moves| >= 1 && Flyable(geo, moves)
      requires moves[0] == drone.position && drone.moveAllowance >= 0
      modifies this, drone
      ensures var n := Applied(moves, old(drone.moveAllowance));
        && drone.position == moves[n] && drone.moveAllowance == old(drone.moveAllowance) - n
        && flightPath == old(flightPath) + LegLog(geo, moves, n, MoveNumber(old(drone.moveAllowance)), sensorPosition)
        && lines == DrawnPath(moves, n)
      ensures flightLines == old(flightLines)
    {
      ghost var startAllowance := drone.moveAllowance;
      ghost var log0 := flightPath;
      lines := moves;
      var j := 0;
      while j < |moves| - 1
        invariant 0 <= j < |moves| && j <= startAllowance
        invariant drone.position == moves[j] && drone.moveAllowance == startAllowance - j
        invariant flightPath == log0 + LegLog(geo, moves, j, MoveNumber(startAllowance), sensorPosition)
        invariant lines == moves && flightLines == old(flightLines)
      {
        if drone.moveAllowance <= 0 {
          // Keeps the point the drone stopped at; the source keeps moves[..j].
          lines := moves[..j + 1];
          break;
        }
        assert MoveCheck(geo.distance(moves[j], moves[j + 1]), geo.angleBetween(moves[j], moves[j + 1]), 1) == Accepted;
        ghost var record := MoveRecord(MoveNumber(startAllowance) + j, moves[j],
                                       Round(geo.angleBetween(moves[j], moves[j + 1])), moves[j + 1]);
        ghost var terminator: seq<Fragment> :=
          if sensorPosition.Some? && geo.distance(moves[j + 1], sensorPosition.value) < ReadRange then [] else [NullTerminator];
        ghost var flown := LegLog(geo, moves, j, MoveNumber(startAllowance), sensorPosition);
        ghost var before := flightPath;
        var verdict := MoveDrone(geo, moves[j + 1]);
        assert flightPath == before + [record];
        if sensorPosition.None? || geo.distance(moves[j + 1], sensorPosition.value) >= ReadRange {
          DroneDontRead();
        }
        assert flightPath == log0 + flown + [record] + terminator;
        Reassociate(log0, flown, [record], terminator);
        assert LegLog(geo, moves, j + 1, MoveNumber(startAllowance), sensorPosition) == flown + [record] + terminator;
        j := j + 1;
      }
      assert moves[..|moves|] == moves;
    }

    /**
     * visitSensor: fly the A* route (tolerance 0.0002) from the drone to the
     * sensor for as long as moves are left, ending each move that stops out
     * of reading range with "null"; draw the leg; read the sensor if the drone
     * ended within range. When no route is found (the source's null, on which
     * it fails) nothing has changed.
     */
    method VisitSensor(geo: Geometry, sensor: Sensor, fuel: nat) returns (leg: Leg)
      requires Lawful(geo)
      requires drone.moveAllowance >= 1
      modifies this, drone, sensor
      ensures !leg.NotStarted?
      ensures leg.NoRoute? ==>
        && flightPath == old(flightPath) && flightLines == old(flightLines)
        && drone.position == old(drone.position) && drone.moveAllowance == old(drone.moveAllowance)
        && sensor.CurrentMarker() == old(sensor.CurrentMarker())
      ensures leg.Flown? ==> |leg.route| >= 2 && leg.route[0] == old(drone.position)
      ensures leg.Flown? ==>
        var route := leg.route;
        var n := Applied(route, old(drone.moveAllowance));
        var reached := geo.distance(route[n], sensor.position) < ReadRange;
        && IsRoute(geo, route, noFlyLineSegments)
        && geo.distance(route[|route| - 1], sensor.position) < ReadRange
        && drone.position == route[n] && drone.moveAllowance == old(drone.moveAllowance) - n
        && flightLines == old(flightLines) + [DrawnPath(route, n)]
        && flightPath == old(flightPath) + LegLog(geo, route, n, MoveNumber(old(drone.moveAllowance)), Some(sensor.position))
                                         + (if reached then [ReadTerminator(sensor.location)] else [])
        && sensor.CurrentMarker() == (if reached then ReadMarker(sensor.battery, sensor.reading, old(sensor.CurrentMarker()))
                                      else old(sensor.CurrentMarker()))
    {
      var currentPosition := drone.position;
      var result := AStar(geo, currentPosition, sensor.position, noFlyLineSegments, ReadRange, fuel);
      if !result.Found? {
        return NoRoute;
      }
      var moves := result.path;
      RouteFlyable(geo, moves, noFlyLineSegments);
      var lines := FlyRoute(geo, moves, Some(sensor.position));
      flightLines := flightLines + [lines];
      if geo.distance(drone.position, sensor.position) < ReadRange {
        var ok := DroneRead(geo, sensor);
      }
      return Flown(moves);
    }

    /**
     * returnDrone: with moves left, fly the A* route (tolerance 0.0003) back
     * to the launch point for as long as moves are left, ending every move
     * with "null", and draw it. With no moves left nothing happens; when no
     * route is found (the source's null) nothing has changed.
     */
    method ReturnDrone(geo: Geometry, startPosition: Point, fuel: nat) returns (leg: Leg)
      requires Lawful(geo)
      modifies this, drone
      ensures old(drone.moveAllowance) <= 0 <==> leg.NotStarted?
      ensures !leg.Flown? ==>
        && flightPath == old(flightPath) && flightLines == old(flightLines)
        && drone.position == old(drone.position) && drone.moveAllowance == old(drone.moveAllowance)
      ensures leg.Flown? ==> |leg.route| >= 2 && leg.route[0] == old(drone.position)
      ensures leg.Flown? ==>
        var route := leg.route;
        var n := Applied(route, old(drone.moveAllowance));
        && IsRoute(geo, route, noFlyLineSegments)
        && geo.distance(route[|route| - 1], startPosition) < ReturnTolerance
        && drone.position == route[n] && drone.moveAllowance == old(drone.moveAllowance) - n
        && flightLines == old(flightLines) + [DrawnPath(route, n)]
        && flightPath == old(flightPath) + LegLog(geo, route, n, MoveNumber(old(drone.moveAllowance)), None)
    {
      var currentPosition := drone.position;
      if drone.moveAllowance <= 0 {
        return NotStarted;
      }
      var result := AStar(geo, currentPosition, startPosition, noFlyLineSegments, ReturnTolerance, fuel);
      if !result.Found? {
        return NoRoute;
      }
      var returnMoves := result.path;
      RouteFlyable(geo, returnMoves, noFlyLineSegments);
      var returnLines := FlyRoute(geo, returnMoves, None);
      flightLines := flightLines + [returnLines];
      return Flown(returnMoves);
    }

    /**
     * The sensor loop of greedyFlightPath: while moves are left, and at most
     * once per sensor in the list, fly to the nearest unvisited sensor. The
     * log gains one flight from the drone's position (see Flight); every
     * sensor keeps its marker or gets the one reading it gives. The result
     * is false when a leg found no route (where the source fails).
     */
    method SensorTour(geo: Geometry, startPosition: Point, fuel: nat) returns (completed: bool)
      requires Lawful(geo)
      requires drone.moveAllowance >= 0
      modifies this, drone, sensorList
      ensures drone.moveAllowance >= 0
      ensures |flightPath| >= |old(flightPath)| && flightPath[..|old(flightPath)|] == old(flightPath)
      ensures Flight(flightPath[|old(flightPath)|..], old(drone.position), old(drone.moveAllowance),
                     drone.moveAllowance, drone.position)
      ensures forall k :: 0 <= k < |sensorList| ==> MarkerFromReads(sensorList[k], old(sensorList[k].CurrentMarker()))
      ensures MovesLegal(geo, flightPath[|old(flightPath)|..], noFlyLineSegments)
      ensures CountReads(flightPath[|old(flightPath)|..]) <= |sensorList|
    {
      var currentPosition := startPosition;
      ghost var log0 := flightPath;
      ghost var start := drone.position;
      ghost var startAllowance := drone.moveAllowance;
      ghost var trip: seq<Fragment> := [];
      for i := 0 to |sensorList|
        invariant drone.moveAllowance >= 0
        invariant flightPath == log0 + trip
        invariant Tour(geo, noFlyLineSegments, trip, start, startAllowance, drone.moveAllowance, drone.position, i)
        invariant forall k :: 0 <= k < |sensorList| ==> MarkerFromReads(sensorList[k], old(sensorList[k].CurrentMarker()))
      {
        if drone.moveAllowance <= 0 {
          break;
        }
        var closest := ClosestUnvisitedSensor(geo, currentPosition);
        var sensor := sensorList[closest];
        ghost var allowance := drone.moveAllowance;
        ghost var before := flightPath;
        var leg := VisitSensor(geo, sensor, fuel);
        if leg.NoRoute? {
          SplitAfter(log0, trip);
          return false;
        }
        var n := Applied(leg.route, allowance);
        ghost var extra := if geo.distance(leg.route[n], sensor.position) < ReadRange then [ReadTerminator(sensor.location)] else [];
        ghost var flown := LegLog(geo, leg.route, n, MoveNumber(allowance), Some(sensor.position));
        assert flightPath == before + flown + extra;
        ExtendTour(geo, noFlyLineSegments, trip, start, startAllowance, allowance, leg.route, n, Some(sensor.position), extra, i);
        Reassociate(log0, trip, flown, extra);
        trip := trip + flown + extra;
        forall k | 0 <= k < |sensorList|
          ensures MarkerFromReads(sensorList[k], old(sensorList[k].CurrentMarker()))
        {
          if sensorList[k] == sensor {
            ReadMarkerIdempotent(sensor.battery, sensor.reading, old(sensorList[k].CurrentMarker()));
          }
        }
        currentPosition := drone.position;
      }
      SplitAfter(log0, trip);
      return true;
    }

    /**
     * greedyFlightPath without its file output: the sensor loop, then the
     * return leg. The log gains one flight from the drone's position (see
     * Flight), the allowance never goes below 0, and every sensor keeps its
     * marker or gets the one reading it gives. The result is false when some
     * leg found no route (where the source fails); when it is true and moves
     * are left over, the drone is back within 0.0003 of the launch point.
     */
    method GreedyFlightPath(geo: Geometry, startPosition: Point, fuel: nat) returns (completed: bool)
      requires Lawful(geo)
      requires drone.moveAllowance >= 0
      modifies this, drone, sensorList
      ensures drone.moveAllowance >= 0
      ensures |flightPath| >= |old(flightPath)| && flightPath[..|old(flightPath)|] == old(flightPath)
      ensures Flight(flightPath[|old(flightPath)|..], old(drone.position), old(drone.moveAllowance),
                     drone.moveAllowance, drone.position)
      ensures forall k :: 0 <= k < |sensorList| ==> MarkerFromReads(sensorList[k], old(sensorList[k].CurrentMarker()))
      ensures MovesLegal(geo, flightPath[|old(flightPath)|..], noFlyLineSegments)
      ensures CountReads(flightPath[|old(flightPath)|..]) <= |sensorList|
      ensures completed && drone.moveAllowance > 0 ==> geo.distance(drone.position, startPosition) < ReturnTolerance
    {
      ghost var log0 := flightPath;
      completed := SensorTour(geo, startPosition, fuel);
      if !completed {
        return;
      }
      ghost var trip := flightPath[|log0|..];
      SplitAfter(log0, trip);
      ghost var allowance := drone.moveAllowance;
      var back := ReturnDrone(geo, startPosition, fuel);
      if back.Flown? {
        var n := Applied(back.route, allowance);
        ghost var flown := LegLog(geo, back.route, n, MoveNumber(allowance), None);
        ExtendTour(geo, noFlyLineSegments, trip, old(drone.position), old(drone.moveAllowance), allowance, back.route, n, None, [],
                   |sensorList|);
        Reassociate(log0, trip, flown, []);
        trip := trip + flown + [];
        assert flightPath == log0 + trip;
      }
      SplitAfter(log0, trip);
      return !back.NoRoute?;
    }
  }
}
