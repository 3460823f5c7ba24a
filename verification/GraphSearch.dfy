// Depth-first search with a set of nodes being visited and the ordered set of nodes
// already visited, as in agent/src/core/agent-graph-runtime.ts,
// agent/src/core/agent-orchestration-runtime.ts and
// agent/src/core/ai-workflow-builder-runtime.ts.
module GraphSearch {
  import opened Digraph

  function Members(s: seq<Node>): set<Node> { set n | n in s }

  // The listed nodes and the ends of their edges.
  function Universe(g: Graph): set<Node> {
    g.Keys + set n, c | n in g.Keys && c in g[n] :: c
  }

  lemma ChildListed(g: Graph, node: Node, child: Node)
    requires child in Next(g, node)
    ensures child in Universe(g)
  {
    assert node in g.Keys && child in g[node];
  }

  predicate Apart(visited: seq<Node>, visiting: set<Node>) {
    Distinct(visited) && forall n :: n in visited ==> n !in visiting
  }

  // Everything that is being visited leads to `node`.
  ghost predicate OnPathTo(g: Graph, visiting: set<Node>, node: Node) {
    forall v :: v in visiting ==> Precedes(g, v, node)
  }

  // Fewer nodes lie ahead of a child than of its parent.
  lemma Advance(g: Graph, node: Node, child: Node, ahead: set<Node>,
                wasVisiting: set<Node>, wasVisited: seq<Node>, visited: seq<Node>)
    requires child in Next(g, node)
    requires ahead == Universe(g) + {node} - wasVisiting - Members(wasVisited)
    requires node !in wasVisiting && node !in wasVisited
    requires wasVisited <= visited
    ensures Universe(g) + {child} - (wasVisiting + {node}) - Members(visited) < ahead
  {
    ChildListed(g, node, child);
    assert forall v :: v in wasVisited ==> v in visited;
    assert node in ahead;
  }

  // A child of the node just entered is in turn reached by everything being visited.
  lemma Onward(g: Graph, visiting: set<Node>, node: Node, child: Node)
    requires OnPathTo(g, visiting, node) && child in Next(g, node)
    ensures OnPathTo(g, visiting + {node}, child)
  {
    forall v | v in visiting + {node}
      ensures Precedes(g, v, child)
    {
      ReachesSelf(g, node);
      StepAfter(g, v, node, child);
    }
  }

  // What the exhaustive search from `root` keeps: successors of visited nodes are visited or
  // being visited; every visited node is reached; without a back edge the visited nodes
  // are in order, with one there is a cycle among the nodes reached.
  ghost predicate Sound(g: Graph, visited: seq<Node>, visiting: set<Node>, backEdges: nat, root: Node) {
    && Apart(visited, visiting)
    && (forall n, c :: n in visited && c in Next(g, n) ==> c in visited || c in visiting)
    && (forall n :: n in visited ==> Reaches(g, root, n))
    && (backEdges == 0 ==> Ordered(g, visited))
    && (backEdges > 0 ==> exists n :: Reaches(g, root, n) && Precedes(g, n, n))
  }

  lemma Leave(g: Graph, visited: seq<Node>, visiting: set<Node>, backEdges: nat, root: Node, node: Node)
    requires Sound(g, visited, visiting + {node}, backEdges, root)
    requires node !in visiting && Reaches(g, root, node)
    requires AllClosed(Next(g, node), |Next(g, node)|, visited, visiting + {node}, backEdges)
    ensures Sound(g, visited + [node], visiting, backEdges, root)
  {
    forall c | c in Next(g, node)
      ensures Closed(c, visited, visiting + {node}, backEdges)
    {
      var k :| 0 <= k < |Next(g, node)| && Next(g, node)[k] == c;
    }
    if backEdges == 0 {
      OrderedMore(g, visited, node);
    }
  }

  // What the search up to the first cycle keeps: nodes visited once, not while being visited,
  // and every successor before its predecessors.
  predicate Sorted(g: Graph, visited: seq<Node>, visiting: set<Node>) {
    Apart(visited, visiting) && Ordered(g, visited)
  }

  // The visited nodes after some more steps: the new ones are listed, or `node` itself.
  predicate Grown(g: Graph, before: seq<Node>, after: seq<Node>, node: Node) {
    before <= after && forall n :: n in after ==> n in before || n in Universe(g) + {node}
  }

  predicate Done(children: seq<Node>, i: nat, visited: seq<Node>) {
    i <= |children| && forall k :: 0 <= k < i ==> children[k] in visited
  }

  lemma DoneMore(children: seq<Node>, i: nat, before: seq<Node>, after: seq<Node>)
    requires i < |children| && Done(children, i, before) && before <= after && children[i] in after
    ensures Done(children, i + 1, after)
  {
    assert forall n :: n in before ==> n in after;
  }

  lemma GrownMore(g: Graph, a: seq<Node>, b: seq<Node>, c: seq<Node>, node: Node, child: Node)
    requires Grown(g, a, b, node) && Grown(g, b, c, child) && child in Next(g, node)
    ensures Grown(g, a, c, node)
  {
    ChildListed(g, node, child);
  }

  lemma BackEdge(g: Graph, visiting: set<Node>, node: Node)
    requires OnPathTo(g, visiting, node) && node in visiting
    ensures HasCycle(g) && Precedes(g, node, node)
  {
    assert Precedes(g, node, node);
  }

  lemma LeaveSorted(g: Graph, visited: seq<Node>, visiting: set<Node>, node: Node)
    requires Sorted(g, visited, visiting + {node}) && node !in visiting
    requires Done(Next(g, node), |Next(g, node)|, visited)
    ensures Sorted(g, visited + [node], visiting)
  {
    OrderedMore(g, visited, node);
  }

  lemma LeaveGrown(g: Graph, before: seq<Node>, after: seq<Node>, node: Node)
    requires Grown(g, before, after, node)
    ensures Grown(g, before, after + [node], node) && node in after + [node]
  {
  }

  lemma StillApart(visited: seq<Node>, visiting: set<Node>, node: Node)
    requires Apart(visited, visiting) && node !in visited
    ensures Apart(visited, visiting + {node})
  {
  }

  // A child is closed: visited, or met again on the way to itself.
  predicate Closed(child: Node, visited: seq<Node>, visiting: set<Node>, backEdges: nat) {
    child in visited || (child in visiting && backEdges > 0)
  }

  predicate AllClosed(children: seq<Node>, i: nat, visited: seq<Node>, visiting: set<Node>, backEdges: nat) {
    i <= |children| && forall k :: 0 <= k < i ==> Closed(children[k], visited, visiting, backEdges)
  }

  lemma ClosedMore(children: seq<Node>, i: nat, before: seq<Node>, after: seq<Node>, visiting: set<Node>, a: nat,
          b: nat)
    requires i < |children| && AllClosed(children, i, before, visiting, a)
    requires before <= after && a <= b && Closed(children[i], after, visiting, b)
    ensures AllClosed(children, i + 1, after, visiting, b)
  {
    assert forall n :: n in before ==> n in after;
  }

  lemma EnterSound(g: Graph, visited: seq<Node>, visiting: set<Node>, backEdges: nat, root: Node, node: Node)
    requires Sound(g, visited, visiting, backEdges, root) && node !in visited
    ensures Sound(g, visited, visiting + {node}, backEdges, root)
  {
  }

  lemma BackEdgeSound(g: Graph, visited: seq<Node>, visiting: set<Node>, backEdges: nat, root: Node, node: Node)
    requires Sound(g, visited, visiting, backEdges, root)
    requires Reaches(g, root, node) && OnPathTo(g, visiting, node) && node in visiting
    ensures Sound(g, visited, visiting, backEdges + 1, root)
  {
    BackEdge(g, visiting, node);
  }

  class Search {
    const next: Graph
    var visiting: set<Node>
    var visited: seq<Node>      // in order of insertion
    var backEdges: nat          // edges met that lead to a node being visited

    constructor (next: Graph)
      ensures this.next == next && visiting == {} && visited == [] && backEdges == 0
    {
      this.next := next;
      visiting, visited, backEdges := {}, [], 0;
    }

    // Visits what `node` reaches, up to the first edge that closes a cycle. The visited
    // nodes stay in order: every successor before its predecessors.
    method VisitUntilCycle(node: Node) returns (found: bool)
      requires Sorted(next, visited, visiting)
      requires OnPathTo(next, visiting, node)
      modifies this
      ensures found ==> HasCycle(next)
      ensures !found ==> Sorted(next, visited, visiting)
      ensures !found ==> visiting == old(visiting) && node in visited
      ensures !found ==> Grown(next, old(visited), visited, node)
      decreases Universe(next) + {node} - visiting - Members(visited)
    {
      if node in visiting {
        BackEdge(next, visiting, node);
        return true;
      }
      if node in visited {
        return false;
      }
      ghost var ahead := Universe(next) + {node} - visiting - Members(visited);
      StillApart(visited, visiting, node);
      visiting := visiting + {node};
      var children := Next(next, node);
      for i := 0 to |children|
        invariant Sorted(next, visited, visiting) && visiting == old(visiting) + {node}
        invariant Grown(next, old(visited), visited, node)
        invariant Done(children, i, visited)
      {
        Onward(next, old(visiting), node, children[i]);
        Advance(next, node, children[i], ahead, old(visiting), old(visited), visited);
        ghost var before := visited;
        var cycle := VisitUntilCycle(children[i]);
        if cycle {
          return true;
        }
        DoneMore(children, i, before, visited);
        GrownMore(next, old(visited), before, visited, node, children[i]);
      }
      LeaveSorted(next, visited, old(visiting), node);
      LeaveGrown(next, old(visited), visited, node);
      visiting := visiting - {node};
      visited := visited + [node];
      return false;
    }

    // Visits everything reached from `node`, counting the edges that close a cycle.
    method VisitAll(node: Node, ghost root: Node)
      requires Sound(next, visited, visiting, backEdges, root)
      requires Reaches(next, root, node) && OnPathTo(next, visiting, node)
      modifies this
      ensures Sound(next, visited, visiting, backEdges, root)
      ensures visiting == old(visiting) && old(visited) <= visited && old(backEdges) <= backEdges
      ensures Closed(node, visited, visiting, backEdges)
      decreases Universe(next) + {node} - visiting - Members(visited)
    {
      if node in visiting {
        BackEdgeSound(next, visited, visiting, backEdges, root, node);
        backEdges := backEdges + 1;
        return;
      }
      if node in visited {
        return;
      }
      ghost var ahead := Universe(next) + {node} - visiting - Members(visited);
      EnterSound(next, visited, visiting, backEdges, root, node);
      visiting := visiting + {node};
      var children := Next(next, node);
      for i := 0 to |children|
        invariant Sound(next, visited, visiting, backEdges, root)
        invariant visiting == old(visiting) + {node} && old(visited) <= visited && old(backEdges) <= backEdges
        invariant AllClosed(children, i, visited, visiting, backEdges)
      {
        Onward(next, old(visiting), node, children[i]);
        StepAfter(next, root, node, children[i]);
        Advance(next, node, children[i], ahead, old(visiting), old(visited), visited);
        ghost var before, edges := visited, backEdges;
        VisitAll(children[i], root);
        ClosedMore(children, i, before, visited, visiting, edges, backEdges);
      }
      Leave(next, visited, old(visiting), backEdges, root, node);
      visiting := visiting - {node};
      visited := visited + [node];
    }
  }

  // A finished search from `root` has visited what `root` reaches and nothing else, and met
  // a back edge exactly when a cycle lies there.
  lemma SearchComplete(g: Graph, visited: seq<Node>, backEdges: nat, root: Node)
    requires Sound(g, visited, {}, backEdges, root) && root in visited
    ensures forall n :: n in visited <==> Reaches(g, root, n)
    ensures backEdges > 0 <==> exists n :: Reaches(g, root, n) && Precedes(g, n, n)
  {
    forall n | Reaches(g, root, n)
      ensures n in visited
    {
      var p :| Leads(g, p, root, n);
      ClosedUnderWalks(g, Members(visited), p);
    }
    if backEdges == 0 {
      forall n | Reaches(g, root, n)
        ensures !Precedes(g, n, n)
      {
        var i :| 0 <= i < |visited| && visited[i] == n;
        OrderedNoCycle(g, visited, n, i);
      }
    }
  }
}
