/**
 * Search nodes (a point and its estimated total cost) and the comparator that
 * orders the A* frontier by that cost alone.
 */
module Nodes {
  import opened Geometry

  datatype Node = Node(point: Point, fCost: real)

  /** -1, 0 or 1 as node1's fCost is below, equal to or above node2's. */
  function Compare(node1: Node, node2: Node): (c: int)
    ensures -1 <= c <= 1
    ensures c < 0 <==> node1.fCost < node2.fCost
    ensures c > 0 <==> node1.fCost > node2.fCost
  {
    if node1.fCost < node2.fCost then -1
    else if node1.fCost > node2.fCost then 1
    else 0
  }

  /**
   * The comparator is a total preorder that looks at fCost only: it is
   * antisymmetric and transitive, and equal costs compare equal whatever the
   * points are, so ties are left to the queue.
   */
  lemma CompareIsCostOrder(a: Node, b: Node, c: Node)
    ensures Compare(a, b) == -Compare(b, a)
    ensures Compare(a, b) <= 0 && Compare(b, c) <= 0 ==> Compare(a, c) <= 0
    ensures a.fCost == b.fCost ==> Compare(a, b) == 0
  {
  }

  /**
   * The position the priority queue polls: the first node whose cost no
   * other node undercuts. Choosing the earliest such node is this model's
   * deterministic tie-break.
   */
  function HeadIndex(queue: seq<Node>): (k: nat)
    requires queue != []
    ensures k < |queue|
    ensures forall j :: 0 <= j < |queue| ==> Compare(queue[k], queue[j]) <= 0
    ensures forall j :: 0 <= j < k ==> Compare(queue[j], queue[k]) > 0
  {
    if |queue| == 1 then 0
    else
      var k := HeadIndex(queue[1..]);
      if Compare(queue[0], queue[1 + k]) <= 0 then 0 else 1 + k
  }
}
