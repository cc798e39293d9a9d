# aqmaps route planner, modelled in Dafny

aqmaps plans one day's flight of an air-quality drone. The drone starts at a
launch point with 150 moves. Every move is 0.0003 degrees long, at a heading
that is a multiple of 10 degrees. The drone visits the sensors of the day
greedily, nearest unvisited sensor first. Each leg is planned with A* around
the no-fly zones and the edge of the confinement area. A sensor is read once
the drone is within 0.0002 degrees of it. After the last sensor the drone flies
back to within 0.0003 of its launch point. Every move is logged as one record
(move number, origin, rounded heading, destination). Each record ends with the
location of the sensor read there, or with "null".

This project models that planning engine and proves properties of it:

- `geometry.dfy` (`Geometry`): points, the constants, `Math.round`, and the
  floating-point helpers of `PointUtils`. The helpers are carried as
  function values in a `Geometry` record. The laws the planner relies on
  are gathered in `Lawful`, and `LawfulGeometryExists` shows the laws can
  all hold at once.
- `line_segment.dfy` (`LineSegments`): `LineSegment`. This covers the
  classification into vertical and sloped segments, the four-case
  intersection test, the point-on-segment test and the endpoint-overlap
  test.
- `node_comparator.dfy` (`Nodes`): `Node`, `NodeComparator`, and the head of
  the priority queue.
- `astar.dfy` (`AStarUtils`): `getNeighbours`, `reconstructPath` and `aStar`.
  A* is a method over a sequence frontier and three maps (cameFrom,
  gScore, fScore). It keeps a search
  invariant: every recorded predecessor is one legal move back and one
  step cheaper. From that invariant it proves that a returned path starts
  at `start`, ends within the tolerance of the target, is made of legal
  moves and never repeats a point.
- `drone.dfy` (`Drones`): the `Sensor` record with its marker and the `Drone`
  class. `move` validates a move before applying it. `readSensor` checks the
  range and then classifies the reading into a marker.
- `flight_log.dfy` (`FlightLog`): the flight-path log as a sequence of
  fragments. It defines what a consistent log is, the log written along
  the first n moves of a route, and how logs compose.
- `no_fly.dfy` (`NoFly`): `setNoFlyLineSegments`, which builds the restricted
  segments from the polygon rings and the confinement area.
- `dates.dfy` (`Dates`): the zero-padded day and month strings.
- `controller.dfy` (`Controller`): `DroneController` without its I/O:
  - the constructor;
  - the nearest-unvisited-sensor scan;
  - `moveDrone`, `droneRead` and `droneDontRead`;
  - the move loop shared by `visitSensor` and `returnDrone`, which stops
    when the moves run out;
  - the return leg;
  - the greedy tour.

  The tour is proved to produce one consistent flight from the drone's
  position when the tour starts:
  - the moves are numbered on from 151 minus the allowance at the start,
    which is 1 for the default allowance of 150;
  - each move starts where the last one ended and is at a legal heading;
  - each move goes to a legal neighbour of its origin, so it crosses no
    restricted segment;
  - one move of the allowance is spent per record, and the allowance never
    goes negative;
  - each leg records at most one read, so the tour records at most as many
    reads as there are sensors in the list. A sensor may be read more than
    once: a healthy sensor whose reading lies outside [0, 256) keeps its
    empty symbol and can be chosen again;
  - every sensor keeps its marker or gets the one its reading calls for;
  - when the tour completes with moves to spare, the drone ends within
    0.0003 of the launch point.

Nondeterminism and the outside world are parameters:
- the three geometric helpers;
- the sensor list and the no-fly polygons, which the program downloads;
- a `fuel` bound on the number of A* expansions.

Choices made where the code is ambiguous or cannot be represented as it stands:
- A sloped segment's point-on-segment test checks whether the two distances
  to the endpoints add up to the segment's length, up to 1e-14. The model
  does the same.
- `returnDrone` does not check whether the drone is already near the launch
  point. It always plans a route when moves are left, and so does the model.
- `DroneController` calls `aStar` with a tolerance: 0.0002 towards a sensor
  and 0.0003 back to the launch point. The `aStar` in `AStarUtils.java`
  takes no tolerance and hard-codes 0.0002 at line 49. The model gives
  `aStar` the tolerance parameter the caller uses.
- `aStar` returns `null` when the open set runs empty, and `visitSensor`
  does not check for it. Here that outcome is `NoPath`, or `OutOfFuel` when
  the fuel bound is reached. The controller then stops with nothing changed
  and reports that the tour did not complete.
- `Drone.move` and `Drone.readSensor` throw on bad input. Here they return a
  verdict and leave the state unchanged.
- When a leg is cut short, the code draws the route without the point the
  drone stopped at (see Findings). The model draws the line up to and
  including that point.
- Marker strings are compared by value. Java compares `""` by reference,
  which the interned literal makes equivalent here.

## Model

| member | source | states |
|---|---|---|
| Geometry.Round | aqmaps/src/main/java/uk/ac/ed/inf/aqmaps/DroneController.java:216-218 | `Math.round`: the result is the integer nearest to x, with halves rounded up (x lies in [r - 0.5, r + 0.5)) |
| Geometry.LawfulGeometryExists | aqmaps/src/main/java/uk/ac/ed/inf/aqmaps/PointUtils.java:7-24 | the laws assumed of distance, pointAfterMove and the heading can all hold together |
| LineSegments.NewLineSegment | aqmaps/src/main/java/uk/ac/ed/inf/aqmaps/LineSegment.java:14-27 | keeps both endpoints; vertical exactly when the longitudes are equal; otherwise both endpoints satisfy lat = gradient * lng + yIntercept |
| LineSegments.EndPointsOnOwnLine | aqmaps/src/main/java/uk/ac/ed/inf/aqmaps/LineSegment.java:17-26 | a sloped segment's gradient and intercept describe a line through both its endpoints |
| LineSegments.DoEndPointsOverlap | aqmaps/src/main/java/uk/ac/ed/inf/aqmaps/LineSegment.java:162-176 | true iff one of the four endpoints lies on the other segment (pinned by OverlapSymmetric and EndPointsOnSegment) |
| LineSegments.IntersectsWith | aqmaps/src/main/java/uk/ac/ed/inf/aqmaps/LineSegment.java:50-126 | the four-case test: both vertical, vertical and sloped either way round, both sloped (pinned by IntersectsSymmetric, VerticalApartNeverIntersect, SharedEndPointIntersects, CommonPointIntersects and VerticalMeetsSloped) |
| LineSegments.IsPointOnLineSegment | aqmaps/src/main/java/uk/ac/ed/inf/aqmaps/LineSegment.java:130-157 | on a vertical segment, a point is on it iff it has the segment's longitude and a latitude between the endpoint latitudes, in either order |
| LineSegments.EndPointsOnSegment | aqmaps/src/main/java/uk/ac/ed/inf/aqmaps/LineSegment.java:130-157 | each endpoint of a segment is on that segment, in the vertical branch and in the distance-sum branch |
| LineSegments.OverlapSymmetric | aqmaps/src/main/java/uk/ac/ed/inf/aqmaps/LineSegment.java:162-176 | the endpoint-overlap test gives the same answer with its two segments swapped |
| LineSegments.VerticalApartNeverIntersect | aqmaps/src/main/java/uk/ac/ed/inf/aqmaps/LineSegment.java:52-55 | two vertical segments at different longitudes never intersect |
| LineSegments.CrossingOnBothLines | aqmaps/src/main/java/uk/ac/ed/inf/aqmaps/LineSegment.java:111-114 | the crossing point of two sloped lines with different gradients is the same whichever line is taken first |
| LineSegments.CrossingAtCommonPoint | aqmaps/src/main/java/uk/ac/ed/inf/aqmaps/LineSegment.java:97-123 | when two sloped lines with different gradients share a point, the computed crossing is that point |
| LineSegments.IntersectsSymmetric | aqmaps/src/main/java/uk/ac/ed/inf/aqmaps/LineSegment.java:50-126 | `intersectsWith` is symmetric: the second and third cases mirror each other, and the fourth case's crossing does not depend on the order |
| LineSegments.VerticalMeetsSloped | aqmaps/src/main/java/uk/ac/ed/inf/aqmaps/LineSegment.java:60-76 | a vertical segment and a sloped one that share a point on both intersect |
| LineSegments.CommonPointIntersects | aqmaps/src/main/java/uk/ac/ed/inf/aqmaps/LineSegment.java:50-124 | two segments meeting at a common endpoint lying on both intersect, in all four cases |
| LineSegments.SharedEndPointIntersects | aqmaps/src/main/java/uk/ac/ed/inf/aqmaps/LineSegment.java:49-126 | two segments that share an endpoint intersect: touching counts as crossing |
| Nodes.Compare | aqmaps/src/main/java/uk/ac/ed/inf/aqmaps/NodeComparator.java:8-16 | the result is -1, 0 or 1; negative iff the first fCost is smaller, positive iff it is larger |
| Nodes.CompareIsCostOrder | aqmaps/src/main/java/uk/ac/ed/inf/aqmaps/NodeComparator.java:9-15 | antisymmetric, transitive, and nodes with equal fCost compare 0 whatever their points |
| Nodes.HeadIndex | aqmaps/src/main/java/uk/ac/ed/inf/aqmaps/AStarUtils.java:43-53 | the queue's head is a node no other node compares below, and every earlier node compares strictly above it |
| AStarUtils.NeighboursFollowHeadings | aqmaps/src/main/java/uk/ac/ed/inf/aqmaps/AStarUtils.java:103-115 | the k-th neighbour is the move at the k-th legal heading |
| AStarUtils.LegalHeadingsBelowShape | aqmaps/src/main/java/uk/ac/ed/inf/aqmaps/AStarUtils.java:103-105 | the legal headings below 10n are at most n strictly ascending multiples of 10 in [0, 10n) |
| AStarUtils.HeadingsBelowExclude | aqmaps/src/main/java/uk/ac/ed/inf/aqmaps/AStarUtils.java:103-105 | no heading of 10n or more is among those tried in the first n rounds |
| AStarUtils.LastHeadingIff | aqmaps/src/main/java/uk/ac/ed/inf/aqmaps/AStarUtils.java:103-114 | the heading tried in round n is kept iff its move crosses no restricted segment |
| AStarUtils.EarlierHeadingIff | aqmaps/src/main/java/uk/ac/ed/inf/aqmaps/AStarUtils.java:103-115 | later rounds never add or remove an earlier heading |
| AStarUtils.LegalHeadingsBelowIff | aqmaps/src/main/java/uk/ac/ed/inf/aqmaps/AStarUtils.java:103-115 | a heading is kept iff the segment to its move intersects none of the restricted segments |
| AStarUtils.NeighboursShape | aqmaps/src/main/java/uk/ac/ed/inf/aqmaps/AStarUtils.java:100-117 | at most 36 neighbours, each the move at a multiple of 10 in [0, 350], in ascending heading order |
| AStarUtils.NeighbourKeptIff | aqmaps/src/main/java/uk/ac/ed/inf/aqmaps/AStarUtils.java:103-115 | the move at a heading is a neighbour iff its segment is not blocked |
| AStarUtils.NeighbourIsStep | aqmaps/src/main/java/uk/ac/ed/inf/aqmaps/AStarUtils.java:105-106 | every neighbour is a 0.0003 step at one of the 36 headings, and differs from the point |
| AStarUtils.MoveBlocked | aqmaps/src/main/java/uk/ac/ed/inf/aqmaps/AStarUtils.java:104-111 | the inner loop's flag is set iff the move's segment intersects some restricted segment |
| AStarUtils.GetNeighbours | aqmaps/src/main/java/uk/ac/ed/inf/aqmaps/AStarUtils.java:100-117 | the loop returns exactly the unblocked moves in heading order (see NeighboursShape and NeighbourKeptIff) |
| AStarUtils.ReconstructPath | aqmaps/src/main/java/uk/ac/ed/inf/aqmaps/AStarUtils.java:14-25 | given a predecessor map ranked by step counts, the walk terminates; the path ends at `current`, its first point has no predecessor, each later point's predecessor is the one before it, and no point repeats |
| AStarUtils.PollKeepsInvariant | aqmaps/src/main/java/uk/ac/ed/inf/aqmaps/AStarUtils.java:43-53 | removing any node from the open set keeps the search invariant |
| AStarUtils.DiscoverKeepsInvariant | aqmaps/src/main/java/uk/ac/ed/inf/aqmaps/AStarUtils.java:58-92 | recording a neighbour with a cheaper tentative cost keeps the search invariant; the neighbour is never the start |
| AStarUtils.WalkBackIsRoute | aqmaps/src/main/java/uk/ac/ed/inf/aqmaps/AStarUtils.java:48-50 | under the invariant, the walk back from a point with a predecessor starts at `start`, has at least two points and is made of legal moves |
| AStarUtils.Expand | aqmaps/src/main/java/uk/ac/ed/inf/aqmaps/AStarUtils.java:55-93 | processing all neighbours of the polled point keeps the search invariant; while no predecessor is recorded the open set stays empty |
| AStarUtils.AStar | aqmaps/src/main/java/uk/ac/ed/inf/aqmaps/AStarUtils.java:27-98 | a found path has at least two points, starts at `start`, ends within the tolerance of the target, consists of legal moves and repeats no point |
| Drones.Sensor.constructor | aqmaps/src/main/java/uk/ac/ed/inf/aqmaps/DroneController.java:89-92 | a sensor starts with its data and the unvisited marker ("#aaaaaa", "") |
| Drones.Sensor.SetMarkerProperties | aqmaps/src/main/java/uk/ac/ed/inf/aqmaps/Sensor.java:52-56 | the marker becomes the given colour and symbol |
| Drones.ReadMarker | aqmaps/src/main/java/uk/ac/ed/inf/aqmaps/Drone.java:45-65 | battery below 10 gives ("000000", "cross"); a reading in [0, 256) gets the colour of its 32-wide band, with "lighthouse" below 128 and "danger" from 128 on; any other reading keeps the marker |
| Drones.ReadMarkerIdempotent | aqmaps/src/main/java/uk/ac/ed/inf/aqmaps/Drone.java:45-65 | reading a sensor twice leaves the same marker as reading it once |
| Drones.ReadMarkerChangesUnread | aqmaps/src/main/java/uk/ac/ed/inf/aqmaps/Drone.java:45-65 | a read leaves an unread sensor looking unvisited iff its battery is healthy and its reading lies outside [0, 256) |
| Drones.MoveCheck | aqmaps/src/main/java/uk/ac/ed/inf/aqmaps/Drone.java:77-104 | refused as over-length exactly when the length exceeds 0.0003 by more than 0.000001; an accepted move has an angle in [0, 350] that rounds to a multiple of 10 and a positive allowance |
| Drones.LegalStepAccepted | aqmaps/src/main/java/uk/ac/ed/inf/aqmaps/Drone.java:82-98 | a 0.0003 step at one of the 36 headings passes every check while a move is left |
| Drones.OneSidedChecksAccept | aqmaps/src/main/java/uk/ac/ed/inf/aqmaps/Drone.java:82-104 | any move no longer than 0.0003 + 0.000001 (shorter ones included) at an angle from a multiple of 10 up to half a degree above it, and at most 350, is accepted while a move is left |
| Drones.AngleAboveGridAccepted | aqmaps/src/main/java/uk/ac/ed/inf/aqmaps/Drone.java:92-94 | only the side below the nearest multiple of 10 is checked: an angle of 10.4 degrees passes |
| Drones.ShortMoveAccepted | aqmaps/src/main/java/uk/ac/ed/inf/aqmaps/Drone.java:82-85 | only the over-length side is checked: a move of length 0 passes |
| Drones.Drone.constructor | aqmaps/src/main/java/uk/ac/ed/inf/aqmaps/Drone.java:11-14 | stores the given position and allowance |
| Drones.Drone.WithDefaultAllowance | aqmaps/src/main/java/uk/ac/ed/inf/aqmaps/Drone.java:18-21 | stores the position with the default allowance of 150 |
| Drones.Drone.Move | aqmaps/src/main/java/uk/ac/ed/inf/aqmaps/Drone.java:75-108 | the verdict is the move check; an accepted move sets the position and spends exactly one move; a refused one changes nothing |
| Drones.Drone.ReadSensor | aqmaps/src/main/java/uk/ac/ed/inf/aqmaps/Drone.java:34-66 | succeeds iff the sensor is closer than 0.0002; then the marker becomes the classification of the reading, otherwise it is unchanged |
| FlightLog.AppendLogs | aqmaps/src/main/java/uk/ac/ed/inf/aqmaps/DroneController.java:220-224 | appending logs adds their move and read counts; the end position composes; the whole is consistent iff both parts are, the second numbered on from the first |
| FlightLog.LegLog | aqmaps/src/main/java/uk/ac/ed/inf/aqmaps/DroneController.java:294-322 | the fragments one leg writes for its first n moves: a record per move, then "null" unless the move ends within 0.0002 of the sensor (pinned by LegLogTracksRoute, LegLogHasNoReads, LegLogHeadings and LegLogMovesLegal) |
| FlightLog.LegLogTracksRoute | aqmaps/src/main/java/uk/ac/ed/inf/aqmaps/DroneController.java:294-314 | the log of the first n moves of a route is consistent from the route's first point, holds exactly n moves and ends at the n-th point |
| FlightLog.LegLogHasNoReads | aqmaps/src/main/java/uk/ac/ed/inf/aqmaps/DroneController.java:310-315 | the moves of a leg are ended only by "null" or by nothing; the leg's own log records no read |
| NoFly.RingSegments | aqmaps/src/main/java/uk/ac/ed/inf/aqmaps/DroneController.java:131-140 | a ring of n >= 1 points gives n - 1 segments, none for an empty ring |
| NoFly.RingSegmentAt | aqmaps/src/main/java/uk/ac/ed/inf/aqmaps/DroneController.java:131-140 | the i-th segment of a ring joins its i-th and (i+1)-th points |
| NoFly.RingSegmentsJoinNeighbours | aqmaps/src/main/java/uk/ac/ed/inf/aqmaps/DroneController.java:131-140 | a segment belongs to a ring iff it joins two consecutive points of it |
| NoFly.ZoneOfSegment | aqmaps/src/main/java/uk/ac/ed/inf/aqmaps/DroneController.java:125-141 | every no-fly segment comes from some ring |
| NoFly.RingSegmentInZones | aqmaps/src/main/java/uk/ac/ed/inf/aqmaps/DroneController.java:125-141 | every segment of every ring is a no-fly segment |
| NoFly.ZoneSegmentsIff | aqmaps/src/main/java/uk/ac/ed/inf/aqmaps/DroneController.java:125-141 | a segment is a no-fly segment iff it is a segment of some ring |
| NoFly.RestrictedSegmentsIff | aqmaps/src/main/java/uk/ac/ed/inf/aqmaps/DroneController.java:123-151 | a segment is restricted iff it belongs to some no-fly ring or to the confinement area |
| NoFly.RestrictedSegmentsCount | aqmaps/src/main/java/uk/ac/ed/inf/aqmaps/DroneController.java:123-151 | the confinement area adds its n - 1 segments, after all the no-fly segments |
| NoFly.AppendRingSegments | aqmaps/src/main/java/uk/ac/ed/inf/aqmaps/DroneController.java:131-140 | the inner loop appends exactly the ring's segments to what is there |
| NoFly.BuildNoFlyLineSegments | aqmaps/src/main/java/uk/ac/ed/inf/aqmaps/DroneController.java:123-151 | the list built is the rings' segments in order, then the confinement area's |
| Dates.NatString | aqmaps/src/main/java/uk/ac/ed/inf/aqmaps/DroneController.java:43-56 | `Integer.toString` of a natural: at least one digit, all digits, and no leading zero from 10 on |
| Dates.ParseNatString | aqmaps/src/main/java/uk/ac/ed/inf/aqmaps/DroneController.java:43-56 | reading the decimal string of n back gives n |
| Dates.TwoDigit | aqmaps/src/main/java/uk/ac/ed/inf/aqmaps/DroneController.java:43-53 | the constructor's padding of the day and the month (pinned by TwoDigitRoundTrip and TwoDigitKeepsLongerValues) |
| Dates.TwoDigitRoundTrip | aqmaps/src/main/java/uk/ac/ed/inf/aqmaps/DroneController.java:43-53 | a day or month in 0..99 is written as exactly two digits that read back as the number |
| Dates.TwoDigitKeepsLongerValues | aqmaps/src/main/java/uk/ac/ed/inf/aqmaps/DroneController.java:43-53 | values of 10 or more get no padding and have no leading zero |
| Controller.Applied | aqmaps/src/main/java/uk/ac/ed/inf/aqmaps/DroneController.java:294-308 | a leg flies min(route length - 1, allowance) moves, so truncation never takes the allowance below 0 |
| Controller.DrawnPathAsWritten | aqmaps/src/main/java/uk/ac/ed/inf/aqmaps/DroneController.java:300-317 | the line as the code draws it: the whole route when every move was flown, `subList(0, n)` when the leg was cut short after n moves (pinned by DrawnPathAsWrittenDropsLastMove and DrawnPathEndsAtDrone) |
| Controller.DrawnPathAsWrittenDropsLastMove | aqmaps/src/main/java/uk/ac/ed/inf/aqmaps/DroneController.java:306-317 | as written, a leg cut short after n moves is drawn with n points, stopping before the drone's position; after one move it is a single point |
| Controller.DrawnPathEndsAtDrone | aqmaps/src/main/java/uk/ac/ed/inf/aqmaps/DroneController.java:306-317 | the corrected line has at least two points and ends where the drone is; it differs from the as-written line exactly when the leg was cut short |
| Controller.LegLogHeadings | aqmaps/src/main/java/uk/ac/ed/inf/aqmaps/DroneController.java:214-227 | every move logged along a planned route carries a heading that is a multiple of 10 in [0, 350] |
| Controller.LegLogMovesLegal | aqmaps/src/main/java/uk/ac/ed/inf/aqmaps/DroneController.java:294-314 | every move logged along a planned route goes to a legal neighbour of its origin |
| Controller.MovesLegalAppend | aqmaps/src/main/java/uk/ac/ed/inf/aqmaps/DroneController.java:220-224 | two logs of legal moves written one after the other make one |
| Controller.ReadOnlyLog | aqmaps/src/main/java/uk/ac/ed/inf/aqmaps/DroneController.java:230-233 | a read terminator moves nothing and keeps the log consistent |
| Controller.PlannedStepAccepted | aqmaps/src/main/java/uk/ac/ed/inf/aqmaps/DroneController.java:294-310 | every move to a neighbour passes the drone's checks while a move is left |
| Controller.RouteFlyable | aqmaps/src/main/java/uk/ac/ed/inf/aqmaps/DroneController.java:294-310 | every step of a planned route passes the drone's checks |
| Controller.ExtendTrip | aqmaps/src/main/java/uk/ac/ed/inf/aqmaps/DroneController.java:241-273 | a flight stays one consistent flight at legal headings when a leg from its end and at most a read are added; allowance and position follow |
| Controller.LegReads | aqmaps/src/main/java/uk/ac/ed/inf/aqmaps/DroneController.java:310-322 | a leg followed by at most one read terminator adds exactly the reads of that terminator |
| Controller.ExtendTour | aqmaps/src/main/java/uk/ac/ed/inf/aqmaps/DroneController.java:241-273 | a tour of k legs of legal moves with at most k reads stays one with k + 1 legs after a leg along a planned route and at most one read |
| Controller.DroneController.constructor | aqmaps/src/main/java/uk/ac/ed/inf/aqmaps/DroneController.java:40-73 | the day and month are padded to two digits, the year is written as is, the restricted segments are built, and the log starts empty |
| Controller.DroneController.ClosestUnvisitedSensor | aqmaps/src/main/java/uk/ac/ed/inf/aqmaps/DroneController.java:251-263 | among sensors with an empty symbol, picks one at minimal distance, the earliest on ties (every earlier candidate is strictly farther); the first sensor when none qualifies |
| Controller.DroneController.MoveDrone | aqmaps/src/main/java/uk/ac/ed/inf/aqmaps/DroneController.java:214-227 | appends the record (151 - allowance, origin, rounded angle, destination), then moves the drone as Drone.Move does |
| Controller.DroneController.DroneRead | aqmaps/src/main/java/uk/ac/ed/inf/aqmaps/DroneController.java:230-233 | appends the sensor's location to the log, then reads the sensor |
| Controller.DroneController.DroneDontRead | aqmaps/src/main/java/uk/ac/ed/inf/aqmaps/DroneController.java:236-238 | appends "null" and changes nothing else |
| Controller.DroneController.FlyRoute | aqmaps/src/main/java/uk/ac/ed/inf/aqmaps/DroneController.java:294-315 | flies Applied moves of the route; the drone ends at that point with that many moves spent; the log gains exactly the leg's records and terminators; the line drawn is the route up to the stopping point |
| Controller.DroneController.VisitSensor | aqmaps/src/main/java/uk/ac/ed/inf/aqmaps/DroneController.java:288-324 | with no route nothing changes; otherwise the leg follows a legal route from the drone to within 0.0002 of the sensor, and the sensor is logged and read iff the drone stopped within 0.0002 of it |
| Controller.DroneController.ReturnDrone | aqmaps/src/main/java/uk/ac/ed/inf/aqmaps/DroneController.java:328-355 | is not started iff no moves are left; when started without a route found nothing changes either; otherwise flies a legal route back to within 0.0003 of the launch point, every move ending with "null" |
| Controller.DroneController.SensorTour | aqmaps/src/main/java/uk/ac/ed/inf/aqmaps/DroneController.java:242-270 | the log gains one consistent flight from the drone's position, every move a legal one that crosses no restricted segment; it spends exactly the moves used, never goes below 0 moves and records at most as many reads as there are sensors; each marker stays or becomes its reading's |
| Controller.DroneController.GreedyFlightPath | aqmaps/src/main/java/uk/ac/ed/inf/aqmaps/DroneController.java:241-273 | the tour plus the return leg keep all of SensorTour's guarantees, legal moves included; when every leg found a route and moves are left, the drone is within 0.0003 of the launch point |

## Left out

- VisitSensor (Controller.DroneController.VisitSensor): when the leg is cut
  short, the line added to the drawn lines is the corrected `DrawnPath`,
  which ends where the drone stopped. The code draws `subList(0, j)`, one
  point shorter (see Findings).
- ReturnDrone (Controller.DroneController.ReturnDrone): the same for the
  return leg, where the code draws `subList(0, i)`.
- FlyRoute (Controller.DroneController.FlyRoute): returns the corrected line
  that VisitSensor and ReturnDrone draw, not the code's shorter one.

- HTTP and JSON: `getResponseBody`, `setSensorList`, `setNoFlyZones`,
  `Sensor.setPosition` and `Details.java` fetch and decode data over the
  network. The sensor list and the no-fly rings are constructor parameters
  instead.
- Output: `writeReadings`, `writeFlightPath`, the GeoJSON `featureList`,
  `printSensors`, the console messages and `main`. The drawn line strings
  are kept as `flightLines`, and the log as a sequence of fragments rather
  than a formatted string. Number formatting is not modelled.
- Floating point: the `PointUtils` helpers (sqrt, cos, sin, acos) are
  parameters that satisfy `Lawful`. That predicate holds exact-geometry
  laws: distances are non-negative and symmetric, d(p, p) = 0, a move is
  0.0003 long, and the angle of a move at a heading is that heading. The
  1e-14, 0.000001 and 0.0001 slacks are kept as constants, but IEEE
  rounding is not modelled.
- AStarUtils.AStar: runs for at most `fuel` expansions (`OutOfFuel`), because
  over exact reals the reachable points need not be finite. It does not
  claim that a path is shortest, or that `NoPath` means no route exists.
- Controller.DroneController.SensorTour: states that each marker stays or
  becomes its reading's, not which sensor each leg visited. It states that
  at most |sensorList| reads are logged, not the exact number of legs.
- Controller.DroneController.GreedyFlightPath: when some leg finds no route,
  the source fails dereferencing null. Here the method returns
  false with the guarantees above.
- NaN readings: the source replaces "null" readings with NaN when decoding.
  NaN satisfies no comparison, so such a sensor keeps its marker. Here
  readings are reals, and a reading outside [0, 256) with a healthy battery
  has the same effect.
- `Node.java`, the `Sensor` getters, the `PriorityQueue` and the `HashMap`s:
  - nodes are a datatype and the priority queue is a sequence. `poll` takes
    the first node of minimal fCost, and duplicate or stale nodes are kept,
    as `openSet.contains` on a fresh node never matches;
  - the maps are Dafny maps, with a ghost step count per recorded point.

## Findings

| source | as written | input that shows it | evidently intended | confidence | as-written member | corrected member |
|---|---|---|---|---|---|---|
| aqmaps/src/main/java/uk/ac/ed/inf/aqmaps/DroneController.java:306 | when a leg is cut short after j moves, the drawn line is `moves.subList(0, j)`, without the point the drone stopped at (likewise `returnMoves.subList(0, i)` at line 343) | a 3-point route flown with 1 move left: the drone ends at the second point, but the line drawn is the single first point | `subList(0, j + 1)`: the line runs from the start to where the drone stopped | not executed | Controller.DrawnPathAsWrittenDropsLastMove | Controller.DrawnPathEndsAtDrone |
