/**
 * The flight-path log the controller writes: one record per move (its
 * number, origin, rounded heading and destination), each followed by the
 * location of the sensor read at its end or by "null". Number formatting is
 * not modelled: the log is the sequence of its fragments.
 */
module FlightLog {
  import opened Geometry

  datatype Fragment =
    | MoveRecord(index: int, from: Point, angle: int, to: Point)
    | ReadTerminator(location: string)
    | NullTerminator

  datatype Option<T> = None | Some(value: T)

  function Last<T>(s: seq<T>): T
    requires s != []
  {
    s[|s| - 1]
  }

  function DropLast<T>(s: seq<T>): seq<T>
    requires s != []
  {
    s[..|s| - 1]
  }

  /** The number of move records in the log. */
  function CountMoves(log: seq<Fragment>): nat {
    if log == [] then 0
    else CountMoves(DropLast(log)) + (if Last(log).MoveRecord? then 1 else 0)
  }

  /** The number of sensor reads recorded in the log. */
  function CountReads(log: seq<Fragment>): nat {
    if log == [] then 0
    else CountReads(DropLast(log)) + (if Last(log).ReadTerminator? then 1 else 0)
  }

  /** Where a drone that started at `start` is after the moves of the log. */
  function EndPosition(log: seq<Fragment>, start: Point): Point {
    if log == [] then start
    else if Last(log).MoveRecord? then Last(log).to
    else EndPosition(DropLast(log), start)
  }

  /**
   * The log describes one unbroken flight from `start` whose moves are
   * numbered from `first` on: every move starts where the one before it ended
   * and carries the next number.
   */
  ghost predicate Consistent(log: seq<Fragment>, start: Point, first: int) {
    if log == [] then true
    else
      var prefix := DropLast(log);
      && Consistent(prefix, start, first)
      && (Last(log).MoveRecord? ==>
            Last(log).from == EndPosition(prefix, start) && Last(log).index == first + CountMoves(prefix))
  }

  /** Every move record of the log is at one of the 36 headings. */
  ghost predicate HeadingsLegal(log: seq<Fragment>) {
    forall i :: 0 <= i < |log| && log[i].MoveRecord? ==> IsHeading(log[i].angle)
  }

  /**
   * Two logs written one after the other: the moves add up, the second
   * starts where the first ended, and the whole is consistent exactly when
   * both parts are, the second numbered on from the first.
   */
  lemma {:induction false} AppendLogs(a: seq<Fragment>, b: seq<Fragment>, start: Point, first: int)
    ensures CountMoves(a + b) == CountMoves(a) + CountMoves(b)
    ensures CountReads(a + b) == CountReads(a) + CountReads(b)
    ensures EndPosition(a + b, start) == EndPosition(b, EndPosition(a, start))
    ensures Consistent(a + b, start, first)
            <==> Consistent(a, start, first) && Consistent(b, EndPosition(a, start), first + CountMoves(a))
  {
    if b == [] {
      assert a + b == a;
    } else {
      assert DropLast(a + b) == a + DropLast(b);
      assert Last(a + b) == Last(b);
      AppendLogs(a, DropLast(b), start, first);
    }
  }

  /** The log of the first n moves along a route, and whether each of them ends with "null". */
  function LegLog(geo: Geometry, route: seq<Point>, n: nat, first: int, sensor: Option<Point>): seq<Fragment>
    requires n < |route|
  {
    if n == 0 then []
    else
      LegLog(geo, route, n - 1, first, sensor)
        + [MoveRecord(first + n - 1, route[n - 1], Round(geo.angleBetween(route[n - 1], route[n])), route[n])]
        + (if sensor.Some? && geo.distance(route[n], sensor.value) < ReadRange then [] else [NullTerminator])
  }

  /**
   * Walking the first n moves of a route from its first point writes a
   * consistent log of exactly n moves that ends at the n-th point.
   */
  lemma {:induction false} LegLogTracksRoute(geo: Geometry, route: seq<Point>, n: nat, first: int, sensor: Option<Point>)
    requires n < |route|
    ensures var log := LegLog(geo, route, n, first, sensor);
      && Consistent(log, route[0], first)
      && CountMoves(log) == n
      && EndPosition(log, route[0]) == route[n]
  {
    if n > 0 {
      LegLogTracksRoute(geo, route, n - 1, first, sensor);
      var before := LegLog(geo, route, n - 1, first, sensor);
      var record := MoveRecord(first + n - 1, route[n - 1], Round(geo.angleBetween(route[n - 1], route[n])), route[n]);
      var tail := if sensor.Some? && geo.distance(route[n], sensor.value) < ReadRange then [] else [NullTerminator];
      assert DropLast(before + [record]) == before;
      AppendLogs(before + [record], tail, route[0], first);
      assert before + [record] + tail == LegLog(geo, route, n, first, sensor);
    }
  }

  /** A leg's moves are ended only by "null" or by nothing: the leg's log records no read. */
  lemma {:induction false} LegLogHasNoReads(geo: Geometry, route: seq<Point>, n: nat, first: int, sensor: Option<Point>)
    requires n < |route|
    ensures CountReads(LegLog(geo, route, n, first, sensor)) == 0
  {
    if n > 0 {
      LegLogHasNoReads(geo, route, n - 1, first, sensor);
      var before := LegLog(geo, route, n - 1, first, sensor);
      var record := MoveRecord(first + n - 1, route[n - 1], Round(geo.angleBetween(route[n - 1], route[n])), route[n]);
      var tail := if sensor.Some? && geo.distance(route[n], sensor.value) < ReadRange then [] else [NullTerminator];
      AppendLogs(before, [record], route[0], first);
      AppendLogs(before + [record], tail, route[0], first);
      if tail != [] {
        assert DropLast(tail) == [];
      }
    }
  }
}
