// Directed graphs given by successor lists: walks, cycles and orders.
module Digraph {
  type Node = string
  type Graph = map<Node, seq<Node>>

  // The nodes an edge leads to; none for a node the graph does not list.
  function Next(g: Graph, n: Node): seq<Node> { if n in g then g[n] else [] }

  predicate Walk(g: Graph, p: seq<Node>) {
    p != [] && forall i :: 0 <= i < |p| - 1 ==> p[i + 1] in Next(g, p[i])
  }

  // p leads from a to b.
  predicate Leads(g: Graph, p: seq<Node>, a: Node, b: Node) {
    Walk(g, p) && p[0] == a && p[|p| - 1] == b
  }

  ghost predicate Reaches(g: Graph, a: Node, b: Node) {
    exists p :: Leads(g, p, a, b)
  }

  // At least one edge leads from a to b.
  ghost predicate Precedes(g: Graph, a: Node, b: Node) {
    exists p :: Leads(g, p, a, b) && |p| > 1
  }

  ghost predicate HasCycle(g: Graph) { exists n :: Precedes(g, n, n) }

  lemma ReachesSelf(g: Graph, a: Node)
    ensures Reaches(g, a, a)
  {
    assert Leads(g, [a], a, a);
  }

  lemma StepAfter(g: Graph, a: Node, b: Node, c: Node)
    requires Reaches(g, a, b) && c in Next(g, b)
    ensures Precedes(g, a, c) && Reaches(g, a, c)
  {
    var p :| Leads(g, p, a, b);
    assert Leads(g, p + [c], a, c);
  }

  // Every successor of a listed node stands before it.
  predicate Ordered(g: Graph, order: seq<Node>) {
    forall i, c :: 0 <= i < |order| && c in Next(g, order[i]) ==> c in order[..i]
  }

  predicate Distinct(order: seq<Node>) {
    forall i, j :: 0 <= i < j < |order| ==> order[i] != order[j]
  }

  lemma OrderedMore(g: Graph, order: seq<Node>, n: Node)
    requires Ordered(g, order)
    requires forall c :: c in Next(g, n) ==> c in order
    ensures Ordered(g, order + [n])
  {
    forall i, c | 0 <= i < |order + [n]| && c in Next(g, (order + [n])[i])
      ensures c in (order + [n])[..i]
    {
      assert (order + [n])[..i] == order[..i];
      assert i == |order| ==> order[..i] == order;
    }
  }

  // Along a walk the positions in an order fall.
  lemma {:induction false} WalkDescends(g: Graph, order: seq<Node>, p: seq<Node>, i: nat) returns (j: nat)
    requires Ordered(g, order) && Walk(g, p)
    requires i < |order| && order[i] == p[0]
    ensures j <= i && order[j] == p[|p| - 1] && (|p| > 1 ==> j < i)
    decreases |p|
  {
    if |p| == 1 {
      j := i;
    } else {
      assert p[1] in Next(g, p[0]);
      var k :| 0 <= k < i && order[..i][k] == p[1];
      j := WalkDescends(g, order, p[1..], k);
    }
  }

  // No cycle runs through a node of an order.
  lemma {:induction false} OrderedNoCycle(g: Graph, order: seq<Node>, n: Node, i: nat)
    requires Ordered(g, order) && i < |order| && order[i] == n
    ensures !Precedes(g, n, n)
    decreases i
  {
    if Precedes(g, n, n) {
      var p :| Leads(g, p, n, n) && |p| > 1;
      var j := WalkDescends(g, order, p, i);
      OrderedNoCycle(g, order, n, j);
    }
  }

  // A set closed under edges holds everything reached from it.
  lemma {:induction false} ClosedUnderWalks(g: Graph, s: set<Node>, p: seq<Node>)
    requires Walk(g, p) && p[0] in s
    requires forall n, c :: n in s && c in Next(g, n) ==> c in s
    ensures p[|p| - 1] in s
    decreases |p|
  {
    if |p| > 1 {
      assert p[1] in Next(g, p[0]);
      ClosedUnderWalks(g, s, p[1..]);
    }
  }
}
