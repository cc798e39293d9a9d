/**
 * The restricted segments: the edges of every no-fly polygon's outer ring,
 * followed by the edges of the confinement area's line string.
 */
module NoFly {
  import opened Geometry
  import opened LineSegments

  /** One segment per pair of consecutive points of a ring or line string (none for fewer than two points). */
  function RingSegments(ring: seq<Point>): (segs: seq<LineSegment>)
    ensures |segs| == if |ring| == 0 then 0 else |ring| - 1
  {
    if |ring| <= 1 then []
    else RingSegments(ring[..|ring| - 1]) + [NewLineSegment(ring[|ring| - 2], ring[|ring| - 1])]
  }

  /** The edges of all no-fly rings, ring by ring in order. */
  function ZoneSegments(noFlyZones: seq<seq<Point>>): seq<LineSegment> {
    if noFlyZones == [] then []
    else ZoneSegments(noFlyZones[..|noFlyZones| - 1]) + RingSegments(noFlyZones[|noFlyZones| - 1])
  }

  /** The segments the drone must not cross: the no-fly edges, then the confinement edges. */
  function RestrictedSegments(noFlyZones: seq<seq<Point>>, confinementArea: seq<Point>): seq<LineSegment> {
    ZoneSegments(noFlyZones) + RingSegments(confinementArea)
  }

  /** The i-th segment of a ring joins its i-th and (i+1)-th points. */
  lemma {:induction false} RingSegmentAt(ring: seq<Point>, i: nat)
    requires i + 1 < |ring|
    ensures RingSegments(ring)[i] == NewLineSegment(ring[i], ring[i + 1])
  {
    if i + 2 < |ring| {
      RingSegmentAt(ring[..|ring| - 1], i);
    }
  }

  /** A ring's segments join consecutive points of that ring and nothing else. */
  lemma RingSegmentsJoinNeighbours(ring: seq<Point>, s: LineSegment)
    ensures s in RingSegments(ring) <==> exists i :: 0 <= i < |ring| - 1 && s == NewLineSegment(ring[i], ring[i + 1])
  {
    var segs := RingSegments(ring);
    if s in segs {
      var i :| 0 <= i < |segs| && segs[i] == s;
      RingSegmentAt(ring, i);
    }
    if exists i :: 0 <= i < |ring| - 1 && s == NewLineSegment(ring[i], ring[i + 1]) {
      var i :| 0 <= i < |ring| - 1 && s == NewLineSegment(ring[i], ring[i + 1]);
      RingSegmentAt(ring, i);
      assert segs[i] == s;
    }
  }

  /**
   * A segment is restricted exactly when it joins two consecutive points of
   * some no-fly ring or of the confinement area.
   */
  lemma {:induction false} RestrictedSegmentsIff(noFlyZones: seq<seq<Point>>, confinementArea: seq<Point>, s: LineSegment)
    ensures s in RestrictedSegments(noFlyZones, confinementArea)
            <==> (exists z :: 0 <= z < |noFlyZones| && s in RingSegments(noFlyZones[z]))
                 || s in RingSegments(confinementArea)
  {
    ZoneSegmentsIff(noFlyZones, s);
  }

  /** A segment is a no-fly edge exactly when it is an edge of one of the rings. */
  lemma ZoneSegmentsIff(noFlyZones: seq<seq<Point>>, s: LineSegment)
    ensures s in ZoneSegments(noFlyZones) <==> exists z :: 0 <= z < |noFlyZones| && s in RingSegments(noFlyZones[z])
  {
    if s in ZoneSegments(noFlyZones) {
      var z := ZoneOfSegment(noFlyZones, s);
    }
    if exists z :: 0 <= z < |noFlyZones| && s in RingSegments(noFlyZones[z]) {
      var z :| 0 <= z < |noFlyZones| && s in RingSegments(noFlyZones[z]);
      RingSegmentInZones(noFlyZones, z, s);
    }
  }

  /** The ring a no-fly edge comes from. */
  lemma {:induction false} ZoneOfSegment(noFlyZones: seq<seq<Point>>, s: LineSegment) returns (z: nat)
    requires s in ZoneSegments(noFlyZones)
    ensures z < |noFlyZones| && s in RingSegments(noFlyZones[z])
  {
    var last := |noFlyZones| - 1;
    var front := noFlyZones[..last];
    if s in ZoneSegments(front) {
      z := ZoneOfSegment(front, s);
      assert noFlyZones[z] == front[z];
    } else {
      z := last;
    }
  }

  /** Every edge of every ring is a no-fly edge. */
  lemma {:induction false} RingSegmentInZones(noFlyZones: seq<seq<Point>>, z: nat, s: LineSegment)
    requires z < |noFlyZones| && s in RingSegments(noFlyZones[z])
    ensures s in ZoneSegments(noFlyZones)
  {
    var last := |noFlyZones| - 1;
    var front := noFlyZones[..last];
    if z < last {
      assert front[z] == noFlyZones[z];
      RingSegmentInZones(front, z, s);
    }
  }

  /** A ring of n points gives n - 1 segments; the confinement edges come last. */
  lemma RestrictedSegmentsCount(noFlyZones: seq<seq<Point>>, confinementArea: seq<Point>)
    ensures var segs := RestrictedSegments(noFlyZones, confinementArea);
      && |segs| == |ZoneSegments(noFlyZones)| + (if |confinementArea| == 0 then 0 else |confinementArea| - 1)
      && segs[|ZoneSegments(noFlyZones)|..] == RingSegments(confinementArea)
  {
  }

  /** Walking one more point of a ring adds the segment that reaches it. */
  lemma RingSegmentsStep(ring: seq<Point>, j: nat)
    requires j + 1 < |ring|
    ensures RingSegments(ring[..j + 2]) == RingSegments(ring[..j + 1]) + [NewLineSegment(ring[j], ring[j + 1])]
  {
    assert ring[..j + 2][..j + 1] == ring[..j + 1];
  }

  /**
   * The inner loop of setNoFlyLineSegments, the same for every no-fly ring
   * and for the confinement area: append a segment for each pair of
   * consecutive points.
   */
  method AppendRingSegments(segments: seq<LineSegment>, ring: seq<Point>) returns (result: seq<LineSegment>)
    ensures result == segments + RingSegments(ring)
  {
    result := segments;
    var j := 0;
    while j < |ring| - 1
      invariant 0 <= j
      invariant |ring| == 0 ==> result == segments
      invariant |ring| > 0 ==> j < |ring| && result == segments + RingSegments(ring[..j + 1])
    {
      var noFlyLineSegment := NewLineSegment(ring[j], ring[j + 1]);
      RingSegmentsStep(ring, j);
      assert segments + RingSegments(ring[..j + 1]) + [noFlyLineSegment]
          == segments + (RingSegments(ring[..j + 1]) + [noFlyLineSegment]);
      result := result + [noFlyLineSegment];
      j := j + 1;
    }
    if |ring| >= 1 {
      assert ring[..|ring|] == ring;
    }
  }

  /**
   * setNoFlyLineSegments: the edges of every no-fly ring in order, then
   * those of the confinement area.
   */
  method BuildNoFlyLineSegments(noFlyZones: seq<seq<Point>>, confinementArea: seq<Point>)
    returns (noFlyLineSegments: seq<LineSegment>)
    ensures noFlyLineSegments == RestrictedSegments(noFlyZones, confinementArea)
  {
    noFlyLineSegments := [];
    for i := 0 to |noFlyZones|
      invariant noFlyLineSegments == ZoneSegments(noFlyZones[..i])
    {
      var noFlyZonePoints := noFlyZones[i];
      noFlyLineSegments := AppendRingSegments(noFlyLineSegments, noFlyZonePoints);
      assert noFlyZones[..i + 1][..i] == noFlyZones[..i];
    }
    assert noFlyZones[..|noFlyZones|] == noFlyZones;
    noFlyLineSegments := AppendRingSegments(noFlyLineSegments, confinementArea);
  }
}
