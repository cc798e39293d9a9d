/**
 * AStarUtils: the legal moves out of a point, the walk back along the
 * predecessor map, and the best-first search between two points around the
 * restricted segments.
 */
module AStarUtils {
  import opened Geometry
  import opened LineSegments
  import opened Nodes

  /** The move segment crosses (or touches) at least one restricted segment. */
  predicate Blocked(geo: Geometry, move: LineSegment, noFlyZones: seq<LineSegment>) {
    exists j :: 0 <= j < |noFlyZones| && IntersectsWith(geo, move, noFlyZones[j])
  }

  /** Headings 0, 10, ..., 10*(n-1) whose move from `point` is not blocked, ascending. */
  function LegalHeadingsBelow(geo: Geometry, point: Point, noFlyZones: seq<LineSegment>, n: nat): seq<int> {
    if n == 0 then []
    else
      var h := (n - 1) * 10;
      LegalHeadingsBelow(geo, point, noFlyZones, n - 1)
        + (if Blocked(geo, NewLineSegment(point, geo.pointAfterMove(point, h)), noFlyZones) then [] else [h])
  }

  function LegalHeadings(geo: Geometry, point: Point, noFlyZones: seq<LineSegment>): seq<int> {
    LegalHeadingsBelow(geo, point, noFlyZones, 36)
  }

  /** The points reached by the legal moves at headings below 10*n, in ascending heading order. */
  function NeighboursBelow(geo: Geometry, point: Point, noFlyZones: seq<LineSegment>, n: nat): seq<Point> {
    if n == 0 then []
    else
      var possibleNeighbour := geo.pointAfterMove(point, (n - 1) * 10);
      NeighboursBelow(geo, point, noFlyZones, n - 1)
        + (if Blocked(geo, NewLineSegment(point, possibleNeighbour), noFlyZones) then [] else [possibleNeighbour])
  }

  /** The points reached by the legal moves, in ascending heading order. */
  function Neighbours(geo: Geometry, point: Point, noFlyZones: seq<LineSegment>): seq<Point> {
    NeighboursBelow(geo, point, noFlyZones, 36)
  }

  /** The k-th neighbour is the move at the k-th legal heading. */
  lemma {:induction false} NeighboursFollowHeadings(geo: Geometry, point: Point, noFlyZones: seq<LineSegment>, n: nat)
    ensures var hs := LegalHeadingsBelow(geo, point, noFlyZones, n);
      var ns := NeighboursBelow(geo, point, noFlyZones, n);
      |ns| == |hs| && forall k :: 0 <= k < |ns| ==> ns[k] == geo.pointAfterMove(point, hs[k])
  {
    if n > 0 {
      NeighboursFollowHeadings(geo, point, noFlyZones, n - 1);
    }
  }

  /** Each point of the path is a legal move away from the one before it. */
  predicate IsRoute(geo: Geometry, path: seq<Point>, noFlyZones: seq<LineSegment>) {
    forall i :: 1 <= i < |path| ==> path[i] in Neighbours(geo, path[i - 1], noFlyZones)
  }

  /** The legal headings below 10*n: at most n ascending multiples of 10 in [0, 10*n). */
  lemma {:induction false} LegalHeadingsBelowShape(geo: Geometry, point: Point, noFlyZones: seq<LineSegment>, n: nat)
    requires n <= 36
    ensures var hs := LegalHeadingsBelow(geo, point, noFlyZones, n);
      && |hs| <= n
      && (forall k :: 0 <= k < |hs| ==> IsHeading(hs[k]) && hs[k] < 10 * n)
      && (forall k, l :: 0 <= k < l < |hs| ==> hs[k] < hs[l])
  {
    if n > 0 {
      LegalHeadingsBelowShape(geo, point, noFlyZones, n - 1);
    }
  }

  /** No heading of 10*n or more is among the legal headings below 10*n. */
  lemma {:induction false} HeadingsBelowExclude(geo: Geometry, point: Point, noFlyZones: seq<LineSegment>, n: nat, x: int)
    requires x >= 10 * n
    ensures x !in LegalHeadingsBelow(geo, point, noFlyZones, n)
  {
    if n > 0 {
      HeadingsBelowExclude(geo, point, noFlyZones, n - 1, x);
    }
  }

  /** The last heading below 10*n is legal exactly when its move is not blocked. */
  lemma LastHeadingIff(geo: Geometry, point: Point, noFlyZones: seq<LineSegment>, n: nat)
    requires 1 <= n
    ensures var last := 10 * (n - 1);
      last in LegalHeadingsBelow(geo, point, noFlyZones, n)
      <==> !Blocked(geo, NewLineSegment(point, geo.pointAfterMove(point, last)), noFlyZones)
  {
    var prefix := LegalHeadingsBelow(geo, point, noFlyZones, n - 1);
    var last := 10 * (n - 1);
    HeadingsBelowExclude(geo, point, noFlyZones, n - 1, last);
    var tail := if Blocked(geo, NewLineSegment(point, geo.pointAfterMove(point, last)), noFlyZones) then [] else [last];
    assert LegalHeadingsBelow(geo, point, noFlyZones, n) == prefix + tail;
    assert (last in prefix + tail) == (last in tail);
  }

  /** Headings below 10*(n-1) are legal below 10*n exactly when they are legal below 10*(n-1). */
  lemma EarlierHeadingIff(geo: Geometry, point: Point, noFlyZones: seq<LineSegment>, n: nat, h: int)
    requires 1 <= n && h < 10 * (n - 1)
    ensures h in LegalHeadingsBelow(geo, point, noFlyZones, n) <==> h in LegalHeadingsBelow(geo, point, noFlyZones, n - 1)
  {
    var prefix := LegalHeadingsBelow(geo, point, noFlyZones, n - 1);
    var last := 10 * (n - 1);
    var tail := if Blocked(geo, NewLineSegment(point, geo.pointAfterMove(point, last)), noFlyZones) then [] else [last];
    assert LegalHeadingsBelow(geo, point, noFlyZones, n) == prefix + tail;
    assert h !in tail;
    assert (h in prefix + tail) == (h in prefix);
  }

  /** A heading below 10*n is among the legal ones exactly when its move is not blocked. */
  lemma {:induction false} LegalHeadingsBelowIff(geo: Geometry, point: Point, noFlyZones: seq<LineSegment>, n: nat, h: int)
    requires n <= 36 && IsHeading(h) && h < 10 * n
    ensures h in LegalHeadingsBelow(geo, point, noFlyZones, n)
            <==> !Blocked(geo, NewLineSegment(point, geo.pointAfterMove(point, h)), noFlyZones)
  {
    if h == 10 * (n - 1) {
      LastHeadingIff(geo, point, noFlyZones, n);
    } else {
      EarlierHeadingIff(geo, point, noFlyZones, n, h);
      LegalHeadingsBelowIff(geo, point, noFlyZones, n - 1, h);
    }
  }

  /**
   * getNeighbours: at most 36 points, each the move at a heading that is a
   * multiple of 10, in ascending heading order.
   */
  lemma NeighboursShape(geo: Geometry, point: Point, noFlyZones: seq<LineSegment>)
    ensures var hs := LegalHeadings(geo, point, noFlyZones);
      var ns := Neighbours(geo, point, noFlyZones);
      && |ns| == |hs| <= 36
      && (forall k :: 0 <= k < |ns| ==> IsHeading(hs[k]) && ns[k] == geo.pointAfterMove(point, hs[k]))
      && (forall k, l :: 0 <= k < l < |hs| ==> hs[k] < hs[l])
  {
    LegalHeadingsBelowShape(geo, point, noFlyZones, 36);
    NeighboursFollowHeadings(geo, point, noFlyZones, 36);
  }

  /** getNeighbours keeps the move at heading h exactly when no restricted segment blocks it. */
  lemma NeighbourKeptIff(geo: Geometry, point: Point, noFlyZones: seq<LineSegment>, h: int)
    requires IsHeading(h)
    ensures geo.pointAfterMove(point, h) in Neighbours(geo, point, noFlyZones)
            <==> !Blocked(geo, NewLineSegment(point, geo.pointAfterMove(point, h)), noFlyZones)
  {
    LegalHeadingsBelowShape(geo, point, noFlyZones, 36);
    NeighboursFollowHeadings(geo, point, noFlyZones, 36);
    var hs := LegalHeadings(geo, point, noFlyZones);
    var ns := Neighbours(geo, point, noFlyZones);
    var q := geo.pointAfterMove(point, h);
    if q in ns {
      var k :| 0 <= k < |ns| && ns[k] == q;
      LegalHeadingsBelowIff(geo, point, noFlyZones, 36, hs[k]);
    } else {
      forall k | 0 <= k < |hs|
        ensures hs[k] != h
      {
        assert ns[k] in ns;
      }
      LegalHeadingsBelowIff(geo, point, noFlyZones, 36, h);
    }
  }

  /** A neighbour is one legal step away: a quantised heading, the full step length, never the point itself. */
  lemma NeighbourIsStep(geo: Geometry, point: Point, n: Point, noFlyZones: seq<LineSegment>)
    requires Lawful(geo)
    requires n in Neighbours(geo, point, noFlyZones)
    ensures exists h :: IsHeading(h) && n == geo.pointAfterMove(point, h)
    ensures geo.distance(point, n) == StepLength && n != point
  {
    NeighboursShape(geo, point, noFlyZones);
    var ns := Neighbours(geo, point, noFlyZones);
    var k :| 0 <= k < |ns| && ns[k] == n;
    var h := LegalHeadings(geo, point, noFlyZones)[k];
    assert IsHeading(h) && n == geo.pointAfterMove(point, h);
    assert geo.distance(point, point) == 0.0;
  }

  /** The inner loop of getNeighbours: does any restricted segment meet the move? */
  method MoveBlocked(geo: Geometry, possibleLine: LineSegment, noFlyZones: seq<LineSegment>) returns (checkBool: bool)
    ensures checkBool == Blocked(geo, possibleLine, noFlyZones)
  {
    checkBool := false;
    for j := 0 to |noFlyZones|
      invariant checkBool <==> exists j' :: 0 <= j' < j && IntersectsWith(geo, possibleLine, noFlyZones[j'])
    {
      if IntersectsWith(geo, possibleLine, noFlyZones[j]) {
        checkBool := true;
      }
    }
  }

  /** getNeighbours: try the 36 headings in turn and keep the moves no restricted segment blocks. */
  method GetNeighbours(geo: Geometry, point: Point, noFlyZones: seq<LineSegment>) returns (neighbours: seq<Point>)
    ensures neighbours == Neighbours(geo, point, noFlyZones)
  {
    neighbours := [];
    for i := 0 to 36
      invariant neighbours == NeighboursBelow(geo, point, noFlyZones, i)
    {
      var possibleNeighbour := geo.pointAfterMove(point, i * 10);
      var possibleLine := NewLineSegment(point, possibleNeighbour);
      var checkBool := MoveBlocked(geo, possibleLine, noFlyZones);
      if !checkBool {
        neighbours := neighbours + [possibleNeighbour];
      }
    }
  }

  /** Every predecessor has a strictly smaller step count, so following predecessors ends. */
  ghost predicate Ranked(cameFrom: map<Point, Point>, steps: map<Point, nat>) {
    forall p :: p in cameFrom ==> p in steps && cameFrom[p] in steps && steps[cameFrom[p]] < steps[p]
  }

  /**
   * reconstructPath: walk the predecessor map back from `current`. The path
   * ends at `current`, starts at a point with no predecessor, each point's
   * predecessor is the point before it, and no point repeats.
   */
  method ReconstructPath(cameFrom: map<Point, Point>, current: Point, ghost steps: map<Point, nat>)
    returns (totalPath: seq<Point>)
    requires Ranked(cameFrom, steps)
    ensures |totalPath| >= 1 && totalPath[|totalPath| - 1] == current
    ensures totalPath[0] !in cameFrom
    ensures forall i :: 1 <= i < |totalPath| ==> totalPath[i] in cameFrom && cameFrom[totalPath[i]] == totalPath[i - 1]
    ensures forall i, j :: 0 <= i < j < |totalPath| ==> totalPath[i] != totalPath[j]
  {
    var cur := current;
    totalPath := [cur];
    while cur in cameFrom
      invariant |totalPath| >= 1 && totalPath[0] == cur && totalPath[|totalPath| - 1] == current
      invariant forall i :: 1 <= i < |totalPath| ==> totalPath[i] in cameFrom && cameFrom[totalPath[i]] == totalPath[i - 1]
      invariant forall i, j :: 0 <= i < j < |totalPath| ==>
        totalPath[i] in steps && totalPath[j] in steps && steps[totalPath[i]] < steps[totalPath[j]]
      decreases if cur in cameFrom then steps[cur] + 1 else 0
    {
      cur := cameFrom[cur];
      totalPath := [cur] + totalPath;
    }
  }

  datatype SearchResult = Found(path: seq<Point>) | NoPath | OutOfFuel

  /** The point has a recorded cost. */
  ghost predicate Discovered(steps: map<Point, nat>, p: Point) {
    p in steps
  }

  /**
   * What holds of the search state between steps: the start has cost 0 and
   * no predecessor; every other discovered point has a predecessor that is a
   * legal move away and lies one step closer to the start; every cost is
   * 0.0003 times a step count; and the frontier holds discovered points only,
   * the start only before anything else has been discovered.
   */
  ghost predicate SearchInvariant(geo: Geometry, start: Point, noFlyZones: seq<LineSegment>, openSet: seq<Node>,
                                  cameFrom: map<Point, Point>, gScore: map<Point, real>, steps: map<Point, nat>)
  {
    && start in steps && steps[start] == 0 && start !in cameFrom
    && gScore.Keys == steps.Keys
    && (forall p :: Discovered(steps, p) ==> p == start || p in cameFrom)
    && (forall p :: p in steps ==> gScore[p] == steps[p] as real * 0.0003)
    && (forall p :: p in cameFrom ==> p in steps && cameFrom[p] in steps && steps[cameFrom[p]] < steps[p])
    && (forall p :: p in cameFrom ==> p in Neighbours(geo, cameFrom[p], noFlyZones))
    && (forall i :: 0 <= i < |openSet| ==>
          openSet[i].point in cameFrom || (openSet[i].point == start && cameFrom == map[]))
  }

  /** Removing the polled node from the frontier keeps the invariant. */
  lemma PollKeepsInvariant(geo: Geometry, start: Point, noFlyZones: seq<LineSegment>, openSet: seq<Node>, k: nat,
                           cameFrom: map<Point, Point>, gScore: map<Point, real>, steps: map<Point, nat>)
    requires SearchInvariant(geo, start, noFlyZones, openSet, cameFrom, gScore, steps)
    requires k < |openSet|
    ensures SearchInvariant(geo, start, noFlyZones, openSet[..k] + openSet[k + 1..], cameFrom, gScore, steps)
  {
    var rest := openSet[..k] + openSet[k + 1..];
    forall i | 0 <= i < |rest|
      ensures rest[i].point in cameFrom || (rest[i].point == start && cameFrom == map[])
    {
      if i < k {
        assert rest[i] == openSet[i];
      } else {
        assert rest[i] == openSet[i + 1];
      }
    }
  }

  /**
   * Recording `current` as the predecessor of a neighbour, at one step more
   * than `current`, keeps the invariant whenever the neighbour is new or the
   * new cost undercuts its old one. The start is never re-parented: no cost
   * is below its 0.
   */
  lemma DiscoverKeepsInvariant(geo: Geometry, start: Point, noFlyZones: seq<LineSegment>, openSet: seq<Node>,
                               cameFrom: map<Point, Point>, gScore: map<Point, real>, steps: map<Point, nat>,
                               current: Point, neighbour: Point, fCost: real)
    requires Lawful(geo)
    requires SearchInvariant(geo, start, noFlyZones, openSet, cameFrom, gScore, steps)
    requires cameFrom == map[] ==> openSet == []
    requires current in steps
    requires neighbour in Neighbours(geo, current, noFlyZones)
    requires neighbour in gScore ==> gScore[current] + StepLength < gScore[neighbour]
    ensures neighbour != start && current != neighbour
    ensures SearchInvariant(geo, start, noFlyZones, openSet + [Node(neighbour, fCost)],
                            cameFrom[neighbour := current],
                            gScore[neighbour := gScore[current] + StepLength],
                            steps[neighbour := steps[current] + 1])
  {
    NeighbourIsStep(geo, current, neighbour, noFlyZones);
    var n := steps[current] + 1;
    assert gScore[current] + StepLength == n as real * 0.0003;
    if neighbour in gScore {
      assert n < steps[neighbour];
    }
    var os := openSet + [Node(neighbour, fCost)];
    var cf := cameFrom[neighbour := current];
    var gs := gScore[neighbour := gScore[current] + StepLength];
    var st := steps[neighbour := n];
    forall p | p in cf
      ensures p in st && cf[p] in st && st[cf[p]] < st[p]
    {
      if p != neighbour {
        assert cf[p] == cameFrom[p];
      }
    }
    forall p | p in cf
      ensures p in Neighbours(geo, cf[p], noFlyZones)
    {
      if p != neighbour {
        assert cf[p] == cameFrom[p];
      }
    }
    forall i | 0 <= i < |os|
      ensures os[i].point in cf
    {
      if i < |openSet| {
        assert os[i] == openSet[i];
      }
    }
  }

  /**
   * Walking back from a discovered point other than the start always ends at
   * the start and gives a route of legal moves of at least two points.
   */
  lemma WalkBackIsRoute(geo: Geometry, start: Point, noFlyZones: seq<LineSegment>, openSet: seq<Node>,
                        cameFrom: map<Point, Point>, gScore: map<Point, real>, steps: map<Point, nat>,
                        path: seq<Point>)
    requires SearchInvariant(geo, start, noFlyZones, openSet, cameFrom, gScore, steps)
    requires |path| >= 1 && path[|path| - 1] in cameFrom && path[0] !in cameFrom
    requires forall i :: 1 <= i < |path| ==> path[i] in cameFrom && cameFrom[path[i]] == path[i - 1]
    ensures |path| >= 2 && path[0] == start
    ensures IsRoute(geo, path, noFlyZones)
  {
    if |path| >= 2 {
      assert Discovered(steps, cameFrom[path[1]]);
    }
    forall i | 1 <= i < |path|
      ensures path[i] in Neighbours(geo, path[i - 1], noFlyZones)
    {
      assert cameFrom[path[i]] == path[i - 1];
    }
  }

  /**
   * The inner loop of aStar: every neighbour of `current` that is new, or
   * reached more cheaply than before, gets `current` as its predecessor, its
   * new costs, and a fresh frontier node.
   */
  method Expand(geo: Geometry, ghost start: Point, target: Point, noFlyZones: seq<LineSegment>, current: Point,
                neighbours: seq<Point>, openSet0: seq<Node>, cameFrom0: map<Point, Point>,
                gScore0: map<Point, real>, fScore0: map<Point, real>, ghost steps0: map<Point, nat>)
    returns (openSet: seq<Node>, cameFrom: map<Point, Point>, gScore: map<Point, real>, fScore: map<Point, real>,
             ghost steps: map<Point, nat>)
    requires Lawful(geo)
    requires SearchInvariant(geo, start, noFlyZones, openSet0, cameFrom0, gScore0, steps0)
    requires cameFrom0 == map[] ==> openSet0 == []
    requires current in steps0
    requires neighbours == Neighbours(geo, current, noFlyZones)
    ensures SearchInvariant(geo, start, noFlyZones, openSet, cameFrom, gScore, steps)
    ensures cameFrom == map[] ==> openSet == []
  {
    openSet, cameFrom, gScore, fScore, steps := openSet0, cameFrom0, gScore0, fScore0, steps0;
    for i := 0 to |neighbours|
      invariant SearchInvariant(geo, start, noFlyZones, openSet, cameFrom, gScore, steps)
      invariant cameFrom == map[] ==> openSet == []
      invariant current in steps
    {
      var currentNeighbour := neighbours[i];
      NeighbourIsStep(geo, current, currentNeighbour, noFlyZones);
      var tentativeGScore := gScore[current] + geo.distance(current, currentNeighbour);
      // openSet.contains never finds a freshly built Node, so the node is always added.
      if currentNeighbour !in gScore || tentativeGScore < gScore[currentNeighbour] {
        DiscoverKeepsInvariant(geo, start, noFlyZones, openSet, cameFrom, gScore, steps, current, currentNeighbour,
                               tentativeGScore + geo.distance(currentNeighbour, target));
        cameFrom := cameFrom[currentNeighbour := current];
        gScore := gScore[currentNeighbour := tentativeGScore];
        fScore := fScore[currentNeighbour := tentativeGScore + geo.distance(currentNeighbour, target)];
        steps := steps[currentNeighbour := steps[current] + 1];
        openSet := openSet + [Node(currentNeighbour, fScore[currentNeighbour])];
        assert currentNeighbour in cameFrom;
      }
    }
  }

  /**
   * aStar with the tolerance as a parameter. A path is returned only when the
   * polled point is within the tolerance of the target and something has been
   * discovered; it then starts at `start`, has at least two points, ends within
   * the tolerance, moves legally at each step and repeats no point. An empty
   * frontier gives NoPath (the source's null). `fuel` bounds the number of
   * polls: over exact reals the reachable points need not be finite.
   */
  method AStar(geo: Geometry, start: Point, target: Point, noFlyZones: seq<LineSegment>, tolerance: real, fuel: nat)
    returns (result: SearchResult)
    requires Lawful(geo)
    ensures result.Found? ==>
      && |result.path| >= 2
      && result.path[0] == start
      && geo.distance(result.path[|result.path| - 1], target) < tolerance
      && IsRoute(geo, result.path, noFlyZones)
      && (forall i, j :: 0 <= i < j < |result.path| ==> result.path[i] != result.path[j])
  {
    var openSet: seq<Node> := [];
    var cameFrom: map<Point, Point> := map[];
    var gScore: map<Point, real> := map[start := 0.0];
    var fScore: map<Point, real> := map[start := geo.distance(start, target)];
    ghost var steps: map<Point, nat> := map[start := 0];
    openSet := openSet + [Node(start, fScore[start])];
    var budget := fuel;
    while openSet != []
      invariant SearchInvariant(geo, start, noFlyZones, openSet, cameFrom, gScore, steps)
      invariant cameFrom == map[] ==> |openSet| <= 1
      decreases budget
    {
      if budget == 0 {
        return OutOfFuel;
      }
      budget := budget - 1;
      var k := HeadIndex(openSet);
      var current := Node(openSet[k].point, openSet[k].fCost);
      if geo.distance(current.point, target) < tolerance && |cameFrom| != 0 {
        assert current.point in cameFrom;
        var path := ReconstructPath(cameFrom, current.point, steps);
        WalkBackIsRoute(geo, start, noFlyZones, openSet, cameFrom, gScore, steps, path);
        return Found(path);
      }
      PollKeepsInvariant(geo, start, noFlyZones, openSet, k, cameFrom, gScore, steps);
      openSet := openSet[..k] + openSet[k + 1..];
      var neighbours := GetNeighbours(geo, current.point, noFlyZones);
      openSet, cameFrom, gScore, fScore, steps :=
        Expand(geo, start, target, noFlyZones, current.point, neighbours, openSet, cameFrom, gScore, fScore, steps);
    }
    return NoPath;
  }
}
