/**
 * Sensors and their map markers, and the drone: a position and a move
 * allowance, a move that is validated before it is applied, and a sensor
 * read that classifies the reading into a coloured marker.
 */
module Drones {
  import opened Geometry

  /** The colour and symbol a sensor is drawn with. */
  datatype Marker = Marker(rgb: string, symbol: string)

  /** The marker of a sensor nobody has read yet. */
  const Unread: Marker := Marker("#aaaaaa", "")

  /** The marker of a sensor whose battery is too low to trust. */
  const LowBattery: Marker := Marker("000000", "cross")

  /** The colours of the eight 32-wide reading bands [0,32), [32,64), ..., [224,256). */
  const BandColours: seq<string> :=
    ["#00ff00", "#40ff00", "#80ff00", "#c0ff00", "#ffc000", "#ff8000", "#ff4000", "#ff0000"]

  /** A sensor as the controller holds it: fixed data and a marker that a read sets. */
  class Sensor {
    const location: string
    const battery: real
    const reading: real
    const position: Point
    var rgbString: string
    var markerSymbol: string

    /** Every sensor starts out unread: grey, without a symbol. */
    constructor (location: string, battery: real, reading: real, position: Point)
      ensures this.location == location && this.battery == battery
      ensures this.reading == reading && this.position == position
      ensures CurrentMarker() == Unread
    {
      this.location := location;
      this.battery := battery;
      this.reading := reading;
      this.position := position;
      rgbString := "#aaaaaa";
      markerSymbol := "";
    }

    function CurrentMarker(): Marker
      reads this
    {
      Marker(rgbString, markerSymbol)
    }

    predicate Unvisited()
      reads this
    {
      markerSymbol == ""
    }

    method SetMarkerProperties(rgbString: string, markerSymbol: string)
      modifies this
      ensures CurrentMarker() == Marker(rgbString, markerSymbol)
    {
      this.rgbString := rgbString;
      this.markerSymbol := markerSymbol;
    }
  }

  /**
   * The marker a read leaves behind. A battery below 10 gives the black
   * cross. Otherwise a reading in [0, 256) gets the colour of its 32-wide
   * band, a lighthouse below 128 and a danger sign from 128; any other
   * reading leaves the previous marker in place.
   */
  function ReadMarker(battery: real, reading: real, prior: Marker): (m: Marker)
    ensures battery < 10.0 ==> m == LowBattery
    ensures battery >= 10.0 && 0.0 <= reading < 256.0 ==>
      && m.rgb == BandColours[(reading / 32.0).Floor]
      && m.symbol == (if reading < 128.0 then "lighthouse" else "danger")
    ensures battery >= 10.0 && !(0.0 <= reading < 256.0) ==> m == prior
  {
    if battery >= 10.0 then
      if 0.0 <= reading < 32.0 then Marker("#00ff00", "lighthouse")
      else if 32.0 <= reading < 64.0 then Marker("#40ff00", "lighthouse")
      else if 64.0 <= reading < 96.0 then Marker("#80ff00", "lighthouse")
      else if 96.0 <= reading < 128.0 then Marker("#c0ff00", "lighthouse")
      else if 128.0 <= reading < 160.0 then Marker("#ffc000", "danger")
      else if 160.0 <= reading < 192.0 then Marker("#ff8000", "danger")
      else if 192.0 <= reading < 224.0 then Marker("#ff4000", "danger")
      else if 224.0 <= reading < 256.0 then Marker("#ff0000", "danger")
      else prior
    else LowBattery
  }

  /** Reading a sensor twice leaves the same marker as reading it once. */
  lemma ReadMarkerIdempotent(battery: real, reading: real, prior: Marker)
    ensures ReadMarker(battery, reading, ReadMarker(battery, reading, prior)) == ReadMarker(battery, reading, prior)
  {
  }

  /** Only readings outside [0, 256) with a healthy battery leave a sensor's marker as it was. */
  lemma ReadMarkerChangesUnread(battery: real, reading: real)
    ensures ReadMarker(battery, reading, Unread).symbol != "" <==> battery < 10.0 || 0.0 <= reading < 256.0
  {
  }

  /** Why a move is refused, in the order the checks are made, or Accepted. */
  datatype MoveVerdict = Accepted | OverLength | BadAngle | NoMovesLeft

  /** The slack allowed above the 0.0003 step length. */
  const LengthSlack: real := 0.000001

  /** The slack allowed below the nearest multiple of 10 degrees. */
  const AngleSlack: real := 0.0001

  /**
   * The checks of a move of the given length at the given angle (in degrees)
   * by a drone with the given allowance: not longer than the step length
   * beyond the slack; an angle in [0, 350] that rounds to a multiple of 10 and
   * does not fall short of the nearest multiple of 10 by more than the slack;
   * and at least one move left.
   */
  function MoveCheck(magnitude: real, angle: real, allowance: int): (v: MoveVerdict)
    ensures v.Accepted? ==>
      && magnitude <= StepLength + LengthSlack
      && 0.0 <= angle <= 350.0 && Round(angle) % 10 == 0
      && allowance >= 1
    ensures v == OverLength <==> magnitude - StepLength > LengthSlack
    ensures allowance <= 0 ==> !v.Accepted?
  {
    var roundedAngle := Round(angle);
    var nearestTen := Round(angle / 10.0) * 10;
    if magnitude - StepLength > LengthSlack then OverLength
    else if nearestTen as real - angle > AngleSlack || roundedAngle % 10 != 0 || angle < 0.0 || angle > 350.0 then BadAngle
    else if allowance <= 0 then NoMovesLeft
    else Accepted
  }

  /** Rounding a whole number of degrees gives it back. */
  lemma RoundWhole(n: int)
    ensures Round(n as real) == n
  {
    assert (n as real + 0.5).Floor == n;
  }

  /**
   * A full step at one of the 36 headings is accepted whenever a move is
   * left: the checks refuse nothing the planner produces.
   */
  lemma LegalStepAccepted(geo: Geometry, p: Point, h: int, allowance: int)
    requires Lawful(geo) && IsHeading(h) && allowance >= 1
    ensures MoveCheck(geo.distance(p, geo.pointAfterMove(p, h)), geo.angleBetween(p, geo.pointAfterMove(p, h)), allowance)
            == Accepted
  {
    var angle := geo.angleBetween(p, geo.pointAfterMove(p, h));
    assert angle == h as real;
    RoundWhole(h);
    RoundWhole(h / 10);
    assert angle / 10.0 == (h / 10) as real;
  }

  /**
   * Both tests are one-sided: any move no longer than the step length plus
   * the slack, shorter ones included, at an angle from a multiple of 10 up to
   * half a degree above it (and at most 350), is accepted while a move is left.
   */
  lemma {:induction false} OneSidedChecksAccept(magnitude: real, angle: real, allowance: int, h: int)
    requires magnitude <= StepLength + LengthSlack
    requires IsHeading(h) && h as real <= angle < h as real + 0.5 && angle <= 350.0
    requires allowance >= 1
    ensures MoveCheck(magnitude, angle, allowance) == Accepted
  {
    assert (angle + 0.5).Floor == h;
    var tens := h / 10;
    assert h == tens * 10;
    assert tens as real <= angle / 10.0 < tens as real + 0.05;
    assert (angle / 10.0 + 0.5).Floor == tens;
  }

  /**
   * The angle test is one-sided: an angle up to half a degree above a
   * multiple of 10 passes it.
   */
  lemma AngleAboveGridAccepted()
    ensures MoveCheck(StepLength, 10.4, 1) == Accepted
  {
    assert Round(10.4) == 10;
    assert Round(10.4 / 10.0) == 1;
  }

  /** The length test is one-sided too: a move of length 0 passes it. */
  lemma ShortMoveAccepted()
    ensures MoveCheck(0.0, 0.0, 1) == Accepted
  {
    assert Round(0.0) == 0;
  }

  /** The drone: where it is and how many moves it may still make. */
  class Drone {
    var position: Point
    var moveAllowance: int

    constructor (position: Point, moveAllowance: int)
      ensures this.position == position && this.moveAllowance == moveAllowance
    {
      this.position := position;
      this.moveAllowance := moveAllowance;
    }

    /** Without an allowance the drone gets 150 moves. */
    constructor WithDefaultAllowance(position: Point)
      ensures this.position == position && moveAllowance == 150
    {
      this.position := position;
      moveAllowance := 150;
    }

    /**
     * move: run the checks on the move from the current position; a refused
     * move (the source's IllegalArgumentException) changes nothing, an
     * accepted one spends one move and puts the drone at `newPosition`.
     */
    method Move(geo: Geometry, newPosition: Point) returns (verdict: MoveVerdict)
      modifies this
      ensures verdict == MoveCheck(geo.distance(old(position), newPosition),
                                   geo.angleBetween(old(position), newPosition), old(moveAllowance))
      ensures verdict.Accepted? ==> position == newPosition && moveAllowance == old(moveAllowance) - 1
      ensures !verdict.Accepted? ==> position == old(position) && moveAllowance == old(moveAllowance)
    {
      var magnitude := geo.distance(position, newPosition);
      if magnitude - StepLength > LengthSlack {
        return OverLength;
      }
      var angle := geo.angleBetween(position, newPosition);
      var roundedAngle := Round(angle);
      var nearestTen := Round(angle / 10.0) * 10;
      if nearestTen as real - angle > AngleSlack || roundedAngle % 10 != 0 || angle < 0.0 || angle > 350.0 {
        return BadAngle;
      }
      if moveAllowance <= 0 {
        return NoMovesLeft;
      }
      moveAllowance := moveAllowance - 1;
      position := newPosition;
      return Accepted;
    }

    /**
     * readSensor: a sensor 0.0002 or more away cannot be read (the source's
     * IllegalStateException) and keeps its marker; otherwise the sensor gets
     * the marker its battery and reading call for.
     */
    method ReadSensor(geo: Geometry, sensor: Sensor) returns (ok: bool)
      modifies sensor
      ensures ok <==> geo.distance(position, sensor.position) < ReadRange
      ensures ok ==> sensor.CurrentMarker() == ReadMarker(sensor.battery, sensor.reading, old(sensor.CurrentMarker()))
      ensures !ok ==> sensor.CurrentMarker() == old(sensor.CurrentMarker())
    {
      if geo.distance(position, sensor.position) >= ReadRange {
        return false;
      }
      var m := ReadMarker(sensor.battery, sensor.reading, sensor.CurrentMarker());
      sensor.SetMarkerProperties(m.rgb, m.symbol);
      return true;
    }
  }
}
