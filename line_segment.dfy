/**
 * LineSegment: a boundary edge or a candidate move, classified once as
 * vertical or as having a gradient and a y-intercept, and the four-way
 * intersection test built on the point-on-segment and endpoint-overlap tests.
 */
module LineSegments {
  import opened Geometry

  datatype Segment = Segment(end1: Point, end2: Point, vertical: bool, gradient: real, yIntercept: real)

  /**
   * The classification the constructor computes. A vertical segment keeps the
   * zero gradient and intercept a fresh Java double holds.
   */
  ghost predicate Classified(s: Segment) {
    && s.vertical == (s.end1.lng == s.end2.lng)
    && (s.vertical ==> s.gradient == 0.0 && s.yIntercept == 0.0)
    && (!s.vertical ==>
          && s.gradient == (s.end2.lat - s.end1.lat) / (s.end2.lng - s.end1.lng)
          && s.yIntercept == s.end1.lat - s.gradient * s.end1.lng)
  }

  /** Segments as the constructor builds them. */
  type LineSegment = s: Segment | Classified(s)
    witness Segment(Point(0.0, 0.0), Point(0.0, 0.0), true, 0.0, 0.0)

  /** lat = gradient * lng + yIntercept */
  predicate OnLine(s: Segment, p: Point) {
    p.lat == s.gradient * p.lng + s.yIntercept
  }

  /**
   * The constructor: vertical exactly when the endpoint longitudes agree;
   * otherwise the line through gradient and intercept passes through both
   * endpoints.
   */
  function NewLineSegment(endPoint1: Point, endPoint2: Point): (s: LineSegment)
    ensures s.end1 == endPoint1 && s.end2 == endPoint2
    ensures s.vertical <==> endPoint1.lng == endPoint2.lng
    ensures !s.vertical ==> OnLine(s, endPoint1) && OnLine(s, endPoint2)
  {
    if endPoint1.lng == endPoint2.lng then
      Segment(endPoint1, endPoint2, true, 0.0, 0.0)
    else
      var m := (endPoint2.lat - endPoint1.lat) / (endPoint2.lng - endPoint1.lng);
      var s := Segment(endPoint1, endPoint2, false, m, endPoint1.lat - m * endPoint1.lng);
      assert m * (endPoint2.lng - endPoint1.lng) == endPoint2.lat - endPoint1.lat;
      s
  }

  /**
   * Is (lng, lat) on the segment? A vertical segment asks for the same
   * longitude and a latitude between the endpoints; a sloped one asks whether
   * the distances to the two endpoints add up to the segment's length, up to
   * the 1e-14 slack.
   */
  function IsPointOnLineSegment(geo: Geometry, s: LineSegment, lng: real, lat: real): (r: bool)
    ensures s.vertical ==>
      (r <==> lng == s.end1.lng && Min(s.end1.lat, s.end2.lat) <= lat <= Max(s.end1.lat, s.end2.lat))
  {
    if s.vertical then
      (lat <= s.end1.lat && lat >= s.end2.lat && lng == s.end1.lng)
      || (lat >= s.end1.lat && lat <= s.end2.lat && lng == s.end1.lng)
    else
      var point := Point(lng, lat);
      var distance1 := geo.distance(point, s.end1);
      var distance2 := geo.distance(point, s.end2);
      var totalDistance := geo.distance(s.end1, s.end2);
      Abs((distance1 + distance2) - totalDistance) < Eps
  }

  function Min(x: real, y: real): real { if x <= y then x else y }
  function Max(x: real, y: real): real { if x <= y then y else x }

  predicate IsPointOn(geo: Geometry, s: LineSegment, p: Point) {
    IsPointOnLineSegment(geo, s, p.lng, p.lat)
  }

  /** Does an endpoint of either segment lie on the other one? */
  function DoEndPointsOverlap(geo: Geometry, s: LineSegment, other: LineSegment): bool {
    || IsPointOn(geo, other, s.end1)
    || IsPointOn(geo, other, s.end2)
    || IsPointOn(geo, s, other.end1)
    || IsPointOn(geo, s, other.end2)
  }

  /** x = (c2 - c1) / (m1 - m2), where the two lines y = m1 x + c1 and y = m2 x + c2 meet. */
  function CrossingLng(s: Segment, other: Segment): real
    requires s.gradient != other.gradient
  {
    (other.yIntercept - s.yIntercept) / (s.gradient - other.gradient)
  }

  /** The latitude of this line at the crossing longitude. */
  function CrossingLat(s: Segment, other: Segment): real
    requires s.gradient != other.gradient
  {
    CrossingLng(s, other) * s.gradient + s.yIntercept
  }

  /** The four-way intersection test of intersectsWith. */
  function IntersectsWith(geo: Geometry, s: LineSegment, other: LineSegment): bool {
    if s.vertical && other.vertical then
      // both vertical: parallel or on one line
      DoEndPointsOverlap(geo, s, other)
    else if s.vertical && !other.vertical then
      var thisX := s.end1.lng;
      var yIntersectionPoint := other.gradient * thisX + other.yIntercept;
      IsPointOnLineSegment(geo, s, thisX, yIntersectionPoint)
        && IsPointOnLineSegment(geo, other, thisX, yIntersectionPoint)
    else if !s.vertical && other.vertical then
      var otherX := other.end1.lng;
      var yIntersectionPoint := s.gradient * otherX + s.yIntercept;
      IsPointOnLineSegment(geo, s, otherX, yIntersectionPoint)
        && IsPointOnLineSegment(geo, other, otherX, yIntersectionPoint)
    else if s.gradient == other.gradient then
      // both sloped and parallel (or on one line)
      DoEndPointsOverlap(geo, s, other)
    else
      var xIntersectionPoint := CrossingLng(s, other);
      var yIntersectionPoint := CrossingLat(s, other);
      IsPointOnLineSegment(geo, s, xIntersectionPoint, yIntersectionPoint)
        && IsPointOnLineSegment(geo, other, xIntersectionPoint, yIntersectionPoint)
  }

  // ---------------------------------------------------------------------------
  // Properties

  /** Both endpoints of a segment are on it. */
  lemma EndPointsOnSegment(geo: Geometry, s: LineSegment)
    requires Lawful(geo)
    ensures IsPointOn(geo, s, s.end1) && IsPointOn(geo, s, s.end2)
  {
    if !s.vertical {
      assert geo.distance(s.end1, s.end1) == 0.0;
      assert geo.distance(s.end2, s.end2) == 0.0;
      assert geo.distance(s.end2, s.end1) == geo.distance(s.end1, s.end2);
    }
  }

  /** The endpoint-overlap test does not depend on the order of its arguments. */
  lemma OverlapSymmetric(geo: Geometry, a: LineSegment, b: LineSegment)
    ensures DoEndPointsOverlap(geo, a, b) == DoEndPointsOverlap(geo, b, a)
  {
  }

  /** Two vertical segments at different longitudes never intersect. */
  lemma VerticalApartNeverIntersect(geo: Geometry, a: LineSegment, b: LineSegment)
    requires a.vertical && b.vertical && a.end1.lng != b.end1.lng
    ensures !IntersectsWith(geo, a, b)
  {
  }

  /** The crossing longitude of two non-parallel sloped lines gives the same latitude on both. */
  lemma CrossingOnBothLines(a: LineSegment, b: LineSegment)
    requires !a.vertical && !b.vertical && a.gradient != b.gradient
    ensures CrossingLng(a, b) == CrossingLng(b, a)
    ensures CrossingLat(a, b) == CrossingLat(b, a)
  {
    var x := CrossingLng(a, b);
    assert x * (a.gradient - b.gradient) == b.yIntercept - a.yIntercept;
    assert x * a.gradient - x * b.gradient == b.yIntercept - a.yIntercept;
  }

  /**
   * The intersection test is symmetric over exact reals: cases two and three
   * mirror each other, and the crossing point of case four is the same from
   * either side.
   */
  lemma IntersectsSymmetric(geo: Geometry, a: LineSegment, b: LineSegment)
    ensures IntersectsWith(geo, a, b) == IntersectsWith(geo, b, a)
  {
    if !a.vertical && !b.vertical && a.gradient != b.gradient {
      CrossingOnBothLines(a, b);
    }
  }

  /** A sloped segment's own line passes through each of its endpoints. */
  lemma EndPointsOnOwnLine(s: LineSegment)
    requires !s.vertical
    ensures OnLine(s, s.end1) && OnLine(s, s.end2)
  {
    assert s == NewLineSegment(s.end1, s.end2);
  }

  predicate SharesEndPoint(a: Segment, b: Segment) {
    a.end1 == b.end1 || a.end1 == b.end2 || a.end2 == b.end1 || a.end2 == b.end2
  }

  /** Touching counts as crossing: two segments with a common endpoint intersect. */
  lemma SharedEndPointIntersects(geo: Geometry, a: LineSegment, b: LineSegment)
    requires Lawful(geo)
    requires SharesEndPoint(a, b)
    ensures IntersectsWith(geo, a, b)
  {
    EndPointsOnSegment(geo, a);
    EndPointsOnSegment(geo, b);
    if !a.vertical {
      EndPointsOnOwnLine(a);
    }
    if !b.vertical {
      EndPointsOnOwnLine(b);
    }
    var p := if a.end1 == b.end1 || a.end1 == b.end2 then a.end1 else a.end2;
    CommonPointIntersects(geo, a, b, p);
  }

  /**
   * An endpoint of both segments that passes the on-segment test of each, and
   * lies on the line of each sloped one, makes the two segments intersect.
   */
  lemma CommonPointIntersects(geo: Geometry, a: LineSegment, b: LineSegment, p: Point)
    requires (p == a.end1 || p == a.end2) && (p == b.end1 || p == b.end2)
    requires IsPointOn(geo, a, p) && IsPointOn(geo, b, p)
    requires !a.vertical ==> OnLine(a, p)
    requires !b.vertical ==> OnLine(b, p)
    ensures IntersectsWith(geo, a, b)
  {
    if a.vertical && b.vertical {
    } else if a.vertical {
      VerticalMeetsSloped(geo, a, b, p);
    } else if b.vertical {
      VerticalMeetsSloped(geo, b, a, p);
      IntersectsSymmetric(geo, b, a);
    } else if a.gradient != b.gradient {
      CrossingAtCommonPoint(a, b, p);
    }
  }

  /** Case two of the test: a vertical and a sloped segment meeting at a point on both. */
  lemma VerticalMeetsSloped(geo: Geometry, v: LineSegment, s: LineSegment, p: Point)
    requires v.vertical && !s.vertical
    requires IsPointOn(geo, v, p) && IsPointOn(geo, s, p) && OnLine(s, p)
    ensures IntersectsWith(geo, v, s)
  {
    assert s.gradient * v.end1.lng + s.yIntercept == p.lat;
  }

  /** Where two non-parallel sloped lines share a point, that point is their crossing. */
  lemma CrossingAtCommonPoint(a: LineSegment, b: LineSegment, p: Point)
    requires !a.vertical && !b.vertical && a.gradient != b.gradient
    requires OnLine(a, p) && OnLine(b, p)
    ensures CrossingLng(a, b) == p.lng
    ensures CrossingLat(a, b) == p.lat
  {
    assert (a.gradient - b.gradient) * p.lng == b.yIntercept - a.yIntercept;
    DivisionUndoes(a.gradient - b.gradient, p.lng, b.yIntercept - a.yIntercept);
    assert CrossingLng(a, b) == p.lng;
  }

  lemma DivisionUndoes(d: real, x: real, y: real)
    requires d != 0.0 && d * x == y
    ensures y / d == x
  {
  }
}
