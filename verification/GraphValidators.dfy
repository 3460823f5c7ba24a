// The graph checks of the agent runtimes and what their verdicts mean.
module GraphValidators {
  import opened Sequences
  import opened Text
  import opened Digraph
  import opened GraphSearch

  type Edge = (Node, Node)

  // ---- Graphs given by a list of nodes and a list of edges ----

  // The ends of the edges that start at n, in order.
  function Targets(edges: seq<Edge>, n: Node): seq<Node> {
    if edges == [] then [] else
      var last := edges[|edges| - 1];
      Targets(edges[..|edges| - 1], n) + if last.0 == n then [last.1] else []
  }

  function Adjacency(nodes: seq<Node>, edges: seq<Edge>): Graph {
    map n | n in nodes :: Targets(edges, n)
  }

  // A closed walk of at least one edge, every edge starting at a listed node.
  predicate ClosedWalk(nodes: seq<Node>, edges: seq<Edge>, p: seq<Node>) {
    && |p| > 1
    && p[0] == p[|p| - 1]
    && forall i :: 0 <= i < |p| - 1 ==> p[i] in nodes && (p[i], p[i + 1]) in edges
  }

  ghost predicate Cyclic(nodes: seq<Node>, edges: seq<Edge>) {
    exists p :: ClosedWalk(nodes, edges, p)
  }

  lemma {:induction false} TargetsAreEdges(edges: seq<Edge>, n: Node)
    ensures forall c :: c in Targets(edges, n) <==> (n, c) in edges
  {
    if edges != [] {
      var front, last := edges[..|edges| - 1], edges[|edges| - 1];
      TargetsAreEdges(front, n);
      assert edges == front + [last];
    }
  }

  lemma NextIsEdge(nodes: seq<Node>, edges: seq<Edge>, n: Node)
    ensures forall c :: c in Next(Adjacency(nodes, edges), n) <==> n in nodes && (n, c) in edges
  {
    TargetsAreEdges(edges, n);
  }

  lemma CyclicIsCycle(nodes: seq<Node>, edges: seq<Edge>)
    ensures Cyclic(nodes, edges) <==> HasCycle(Adjacency(nodes, edges))
    ensures Cyclic(nodes, edges) ==> exists n :: n in nodes && Precedes(Adjacency(nodes, edges), n, n)
  {
    var g := Adjacency(nodes, edges);
    if Cyclic(nodes, edges) {
      var p :| ClosedWalk(nodes, edges, p);
      forall i | 0 <= i < |p| - 1
        ensures p[i + 1] in Next(g, p[i])
      {
        NextIsEdge(nodes, edges, p[i]);
      }
      assert Leads(g, p, p[0], p[0]);
      assert p[0] in nodes && Precedes(g, p[0], p[0]);
    }
    if HasCycle(g) {
      var n :| Precedes(g, n, n);
      var p :| Leads(g, p, n, n) && |p| > 1;
      forall i | 0 <= i < |p| - 1
        ensures p[i] in nodes && (p[i], p[i + 1]) in edges
      {
        NextIsEdge(nodes, edges, p[i]);
        assert p[i + 1] in Next(g, p[i]);
      }
      assert ClosedWalk(nodes, edges, p);
    }
  }

  lemma TargetsMore(edges: seq<Edge>, i: nat, n: Node)
    requires i < |edges|
    ensures Targets(edges[..i + 1], n)
         == if edges[i].0 == n then Targets(edges[..i], n) + [edges[i].1] else Targets(edges[..i], n)
  {
    var longer := edges[..i + 1];
    assert longer[..i] == edges[..i];
    assert Targets(edges[..i], n) + [] == Targets(edges[..i], n);
  }

  method AddEdges(empty: Graph, edges: seq<Edge>) returns (next: Graph)
    requires forall n :: n in empty ==> empty[n] == []
    ensures next == map n | n in empty :: Targets(edges, n)
  {
    next := empty;
    for i := 0 to |edges|
      invariant next.Keys == empty.Keys
      invariant forall n :: n in next ==> next[n] == Targets(edges[..i], n)
    {
      ghost var before := next;
      var (from, to) := edges[i];
      if from in next {
        next := next[from := next[from] + [to]];
      }
      forall n | n in next
        ensures next[n] == Targets(edges[..i + 1], n)
      {
        assert before[n] == Targets(edges[..i], n);
        TargetsMore(edges, i, n);
      }
    }
    assert edges[..|edges|] == edges;
  }

  method BuildAdjacency(nodes: seq<Node>, edges: seq<Edge>) returns (next: Graph)
    ensures next == Adjacency(nodes, edges)
  {
    next := map[];
    for i := 0 to |nodes|
      invariant next == map n | n in nodes[..i] :: []
    {
      assert nodes[..i + 1] == nodes[..i] + [nodes[i]];
      next := next[nodes[i] := []];
    }
    assert nodes[..|nodes|] == nodes;
    next := AddEdges(next, edges);
  }

  // Searches from each of `starts` until a cycle is found. Without a cycle, `order` lists
  // every node after its successors.
  method SearchFrom(next: Graph, starts: seq<Node>) returns (found: bool, ghost order: seq<Node>)
    ensures found ==> HasCycle(next)
    ensures !found ==> Distinct(order) && Ordered(next, order)
    ensures !found ==> forall n :: n in starts ==> n in order
    ensures !found ==> forall n :: n in order ==> n in starts || n in Universe(next)
  {
    order := [];
    var search := new Search(next);
    for i := 0 to |starts|
      invariant search.visiting == {} && search.next == next
      invariant Distinct(search.visited) && Ordered(next, search.visited)
      invariant forall k :: 0 <= k < i ==> starts[k] in search.visited
      invariant forall n :: n in search.visited ==> n in starts || n in Universe(next)
    {
      var cycle := search.VisitUntilCycle(starts[i]);
      if cycle {
        return true, [];
      }
    }
    return false, search.visited;
  }

  // agent-graph-runtime.ts, `cyclic`.
  method FindCycle(nodes: seq<Node>, edges: seq<Edge>) returns (found: bool, ghost order: seq<Node>)
    ensures found <==> Cyclic(nodes, edges)
    ensures !found ==> Distinct(order) && Ordered(Adjacency(nodes, edges), order)
    ensures !found ==> forall n :: n in nodes ==> n in order
    ensures !found ==> forall n :: n in order ==> n in nodes || exists a :: a in nodes && (a, n) in edges
  {
    var next := BuildAdjacency(nodes, edges);
    CyclicIsCycle(nodes, edges);
    found, order := SearchFrom(next, nodes);
    if !found {
      OrderedAcyclic(nodes, edges, order);
      forall n | n in order
        ensures n in nodes || exists a :: a in nodes && (a, n) in edges
      {
        InUniverse(nodes, edges, n);
      }
    }
  }

  lemma OrderedAcyclic(nodes: seq<Node>, edges: seq<Edge>, order: seq<Node>)
    requires Ordered(Adjacency(nodes, edges), order)
    requires forall n :: n in nodes ==> n in order
    ensures !Cyclic(nodes, edges)
  {
    CyclicIsCycle(nodes, edges);
    forall n | n in nodes
      ensures !Precedes(Adjacency(nodes, edges), n, n)
    {
      var i :| 0 <= i < |order| && order[i] == n;
      OrderedNoCycle(Adjacency(nodes, edges), order, n, i);
    }
  }

  lemma InUniverse(nodes: seq<Node>, edges: seq<Edge>, n: Node)
    requires n in Universe(Adjacency(nodes, edges))
    ensures n in nodes || exists a :: a in nodes && (a, n) in edges
  {
    var g := Adjacency(nodes, edges);
    if n !in nodes {
      var a :| a in g.Keys && n in g[a];
      NextIsEdge(nodes, edges, a);
      assert a in nodes && (a, n) in edges;
    }
  }

  // ---- Schedules ----

  // All nodes, each once, with the source of every edge before its target.
  predicate Schedule(nodes: seq<Node>, edges: seq<Edge>, s: seq<Node>) {
    && multiset(s) == multiset(nodes)
    && forall e :: e in edges ==> Before(s, e.0, e.1)
  }

  predicate Before(s: seq<Node>, a: Node, b: Node) {
    exists i, j :: 0 <= i < j < |s| && s[i] == a && s[j] == b
  }

  predicate KnownEdges(nodes: seq<Node>, edges: seq<Edge>) {
    forall e :: e in edges ==> e.0 != e.1 && e.0 in nodes && e.1 in nodes
  }

  function Reverse(s: seq<Node>): (r: seq<Node>)
    ensures |r| == |s| && forall i :: 0 <= i < |s| ==> r[i] == s[|s| - 1 - i]
  {
    seq(|s|, i requires 0 <= i < |s| => s[|s| - 1 - i])
  }

  lemma {:induction false} DistinctCount(s: seq<Node>, n: Node)
    requires Distinct(s)
    ensures multiset(s)[n] == if n in s then 1 else 0
  {
    if s != [] {
      var front, last := s[..|s| - 1], s[|s| - 1];
      DistinctCount(front, n);
      assert s == front + [last];
      assert last !in front;
    }
  }

  lemma SameMembers(a: seq<Node>, b: seq<Node>)
    requires Distinct(a) && Distinct(b)
    requires forall n :: n in a <==> n in b
    ensures multiset(a) == multiset(b)
  {
    forall n
      ensures multiset(a)[n] == multiset(b)[n]
    {
      DistinctCount(a, n);
      DistinctCount(b, n);
    }
  }

  lemma ReverseMembers(s: seq<Node>)
    ensures forall x :: x in Reverse(s) <==> x in s
  {
    forall x | x in s
      ensures x in Reverse(s)
    {
      var i :| 0 <= i < |s| && s[i] == x;
      assert Reverse(s)[|s| - 1 - i] == x;
    }
  }

  lemma EdgeForward(nodes: seq<Node>, edges: seq<Edge>, order: seq<Node>, e: Edge)
    requires KnownEdges(nodes, edges) && e in edges && e.0 in order
    requires Ordered(Adjacency(nodes, edges), order)
    ensures Before(Reverse(order), e.0, e.1)
  {
    var s, n := Reverse(order), |order|;
    NextIsEdge(nodes, edges, e.0);
    assert (e.0, e.1) == e;
    var i :| 0 <= i < n && order[i] == e.0;
    var k :| 0 <= k < i && order[..i][k] == e.1;
    assert s[n - 1 - i] == e.0 && s[n - 1 - k] == e.1;
  }

  // The reverse of the order of visits is a schedule.
  lemma ReverseIsSchedule(nodes: seq<Node>, edges: seq<Edge>, order: seq<Node>)
    requires Distinct(nodes) && Distinct(order) && KnownEdges(nodes, edges)
    requires Ordered(Adjacency(nodes, edges), order)
    requires forall n :: n in nodes <==> n in order
    ensures Schedule(nodes, edges, Reverse(order))
  {
    ReverseMembers(order);
    SameMembers(Reverse(order), nodes);
    forall e | e in edges
      ensures Before(Reverse(order), e.0, e.1)
    {
      EdgeForward(nodes, edges, order, e);
    }
  }

  // The successors of a node stand after it in a schedule, so before it in reverse.
  lemma BeforeReversed(s: seq<Node>, i: nat, c: Node)
    requires Distinct(s) && i < |s| && Before(s, Reverse(s)[i], c)
    ensures c in Reverse(s)[..i]
  {
    var order, n := Reverse(s), |s|;
    var j, k :| 0 <= j < k < n && s[j] == order[i] && s[k] == c;
    assert j == n - 1 - i;
    assert order[..i][n - 1 - k] == c;
  }

  lemma SuccessorBefore(nodes: seq<Node>, edges: seq<Edge>, s: seq<Node>, i: nat, c: Node)
    requires Distinct(s) && Schedule(nodes, edges, s)
    requires i < |s| && c in Next(Adjacency(nodes, edges), Reverse(s)[i])
    ensures c in Reverse(s)[..i]
  {
    NextIsEdge(nodes, edges, Reverse(s)[i]);
    var e := (Reverse(s)[i], c);
    assert Before(s, e.0, e.1);
    BeforeReversed(s, i, c);
  }

  lemma ScheduledInReverse(nodes: seq<Node>, s: seq<Node>)
    requires multiset(s) == multiset(nodes)
    ensures forall x :: x in nodes ==> x in Reverse(s)
  {
    ReverseMembers(s);
    forall x | x in nodes
      ensures x in Reverse(s)
    {
      assert x in multiset(nodes);
    }
  }

  // A graph with a schedule has no cycle.
  lemma ScheduleIsAcyclic(nodes: seq<Node>, edges: seq<Edge>, s: seq<Node>)
    requires Distinct(nodes) && Schedule(nodes, edges, s)
    ensures !Cyclic(nodes, edges)
  {
    var order, g := Reverse(s), Adjacency(nodes, edges);
    ScheduleDistinct(nodes, s);
    forall i, c | 0 <= i < |order| && c in Next(g, order[i])
      ensures c in order[..i]
    {
      SuccessorBefore(nodes, edges, s, i, c);
    }
    ScheduledInReverse(nodes, s);
    OrderedAcyclic(nodes, edges, order);
  }

  lemma ScheduleDistinct(nodes: seq<Node>, s: seq<Node>)
    requires Distinct(nodes) && multiset(s) == multiset(nodes)
    ensures Distinct(s)
  {
    forall i, j | 0 <= i < j < |s|
      ensures s[i] != s[j]
    {
      DistinctCount(nodes, s[i]);
      if s[i] == s[j] {
        CountTwice(s, i, j);
      }
    }
  }

  // ---- The three validators ----

  predicate Given(s: string) { TrimStart(s) != "" }

  predicate AllGiven(s: seq<string>) { forall i :: 0 <= i < |s| ==> Given(s[i]) }

  predicate IsInteger(x: real) { x == x.Floor as real }

  datatype Reason =
    | FieldMissing(field: nat)
    | BadNodes
    | NoEntry
    | BadEdges
    | CycleFound
    | BadBounds
    | GatesMissing
    | ModelSideEffect
    | NotApproved
    | SelfReference(nodeId: Node)
    | NotReachable

  datatype Decision = Decision(allowed: bool, reasons: seq<Reason>, requiresApproval: bool)

  // A reason for each field that is missing, by its position.
  function Missing(fields: seq<string>): seq<Reason> {
    if fields == [] then [] else
      Missing(fields[..|fields| - 1]) + if Given(fields[|fields| - 1]) then [] else [FieldMissing(|fields| - 1)]
  }

  lemma {:induction false} MissingWhenGiven(fields: seq<string>)
    ensures Missing(fields) == [] <==> AllGiven(fields)
    ensures forall r :: r in Missing(fields) ==> r.FieldMissing?
  {
    if fields != [] {
      MissingWhenGiven(fields[..|fields| - 1]);
    }
  }

  datatype GraphState = Draft | Approved | Running | Paused | Completed | Failed

  datatype M180Graph = M180Graph(
    organizationId: string, graphId: string, version: real, nodeIds: seq<Node>, edges: seq<Edge>,
    inputSchemaHash: string, stateSchemaHash: string, policyHash: string, maxNodes: real, maxParallel: real,
    state: GraphState, deterministic: bool, sandboxed: bool, tenantBound: bool)
  {
    function Fields(): seq<string> {
      [organizationId, graphId, inputSchemaHash, stateSchemaHash, policyHash]
    }

    predicate Bounded() {
      && IsInteger(version) && version >= 1.0
      && IsInteger(maxNodes) && maxNodes >= 1.0 && |nodeIds| as real <= maxNodes
      && IsInteger(maxParallel) && 1.0 <= maxParallel <= maxNodes
    }

    // What the validator checks, and the reasons it gives.
    function Checks(cyclic: bool): (checks: seq<(bool, Reason)>)
      ensures |checks| == 5 && OwnReasons(checks)
      ensures checks[0].1 == BadNodes && checks[1].1 == BadEdges && checks[2].1 == CycleFound
      ensures checks[3].1 == BadBounds && checks[4].1 == GatesMissing
    {
      [(nodeIds == [] || !Distinct(nodeIds) || !AllGiven(nodeIds), BadNodes),
       (!KnownEdges(nodeIds, edges), BadEdges),
       (cyclic, CycleFound),
       (!Bounded(), BadBounds),
       (!deterministic || !sandboxed || !tenantBound, GatesMissing)]
    }

    // Everything the validator asks for besides the absence of cycles.
    predicate WellFormed() {
      && AllGiven(Fields())
      && nodeIds != [] && Distinct(nodeIds) && AllGiven(nodeIds)
      && KnownEdges(nodeIds, edges)
      && Bounded()
      && deterministic && sandboxed && tenantBound
    }
  }

  // Some node is listed twice.
  ghost predicate Repeated(nodes: seq<Node>) {
    exists i, j :: 0 <= i < j < |nodes| && nodes[i] == nodes[j]
  }

  // Some edge leads back to where it starts or has an end that is not listed.
  ghost predicate StrayEdge(nodes: seq<Node>, edges: seq<Edge>) {
    exists e :: e in edges && (e.0 == e.1 || e.0 !in nodes || e.1 !in nodes)
  }

  // A reason for each blank field, and for nothing else.
  ghost predicate ReportsBlanks(reasons: seq<Reason>, fields: seq<string>) {
    forall i: nat :: FieldMissing(i) in reasons <==> i < |fields| && TrimStart(fields[i]) == ""
  }

  // The reasons of the checks that fail, in order.
  function Failing(checks: seq<(bool, Reason)>): seq<Reason> {
    if checks == [] then [] else
      var last := checks[|checks| - 1];
      Failing(checks[..|checks| - 1]) + if last.0 then [last.1] else []
  }

  lemma {:induction false} FailingAre(checks: seq<(bool, Reason)>, r: Reason)
    ensures r in Failing(checks) <==> exists k :: 0 <= k < |checks| && checks[k] == (true, r)
  {
    if checks != [] {
      var front := checks[..|checks| - 1];
      FailingAre(front, r);
      if k :| 0 <= k < |checks| && checks[k] == (true, r) && k < |front| {
        assert front[k] == (true, r);
      }
    }
  }

  // Each check has a reason of its own.
  predicate OwnReasons(checks: seq<(bool, Reason)>) {
    && (forall k :: 0 <= k < |checks| ==> !checks[k].1.FieldMissing?)
    && forall j, k :: 0 <= j < k < |checks| ==> checks[j].1 != checks[k].1
  }

  // What is reported: the blank fields and the checks that fail.
  ghost predicate Reported(reasons: seq<Reason>, fields: seq<string>, checks: seq<(bool, Reason)>) {
    && ReportsBlanks(reasons, fields)
    && (forall k :: 0 <= k < |checks| ==> (checks[k].1 in reasons <==> checks[k].0))
    && (reasons == [] <==> AllGiven(fields) && forall k :: 0 <= k < |checks| ==> !checks[k].0)
  }

  lemma ReasonsAre(fields: seq<string>, checks: seq<(bool, Reason)>)
    requires OwnReasons(checks)
    ensures Reported(Missing(fields) + Failing(checks), fields, checks)
  {
    MissingWhenGiven(fields);
    MissingReportsBlanks(fields);
    forall r
      ensures r in Failing(checks) <==> exists k :: 0 <= k < |checks| && checks[k] == (true, r)
    {
      FailingAre(checks, r);
    }
    assert Failing(checks) != [] ==> Failing(checks)[0] in Failing(checks);
  }

  lemma {:induction false} MissingReportsBlanks(fields: seq<string>)
    ensures ReportsBlanks(Missing(fields), fields)
  {
    if fields != [] { MissingReportsBlanks(fields[..|fields| - 1]); }
  }

  lemma NodesAndEdges(nodes: seq<Node>, edges: seq<Edge>)
    ensures !Distinct(nodes) <==> Repeated(nodes)
    ensures !AllGiven(nodes) <==> exists n :: n in nodes && TrimStart(n) == ""
    ensures !KnownEdges(nodes, edges) <==> StrayEdge(nodes, edges)
  {
    if !AllGiven(nodes) {
      var i :| 0 <= i < |nodes| && !Given(nodes[i]);
      assert nodes[i] in nodes;
    }
  }

  // agent-graph-runtime.ts, `validateM180Graph`: each reason is given exactly when what it says
  // holds of the graph's fields, and a graph is allowed exactly when it is well formed and its
  // nodes can be scheduled.
  method ValidateM180Graph(graph: M180Graph) returns (decision: Decision)
    ensures decision.allowed <==> decision.reasons == []
    ensures ReportsBlanks(decision.reasons, [graph.organizationId, graph.graphId, graph.inputSchemaHash,
                                             graph.stateSchemaHash, graph.policyHash])
    ensures BadNodes in decision.reasons <==>
              graph.nodeIds == [] || Repeated(graph.nodeIds) || exists n :: n in graph.nodeIds && TrimStart(n) == ""
    ensures BadEdges in decision.reasons <==> StrayEdge(graph.nodeIds, graph.edges)
    ensures CycleFound in decision.reasons <==> Cyclic(graph.nodeIds, graph.edges)
    ensures BadBounds !in decision.reasons <==>
              && graph.version.Floor as real == graph.version >= 1.0
              && graph.maxNodes.Floor as real == graph.maxNodes >= |graph.nodeIds| as real
              && graph.maxNodes >= graph.maxParallel == graph.maxParallel.Floor as real >= 1.0
    ensures GatesMissing in decision.reasons <==> !graph.deterministic || !graph.sandboxed || !graph.tenantBound
    ensures decision.requiresApproval <==> graph.state == Approved || graph.state == Running
    ensures decision.allowed <==> graph.WellFormed() && exists s :: Schedule(graph.nodeIds, graph.edges, s)
  {
    var cyclic, order := FindCycle(graph.nodeIds, graph.edges);
    var checks := graph.Checks(cyclic);
    var reasons := Missing(graph.Fields()) + Failing(checks);
    ReasonsAre(graph.Fields(), checks);
    NodesAndEdges(graph.nodeIds, graph.edges);
    if graph.WellFormed() {
      SchedulableIffAcyclic(graph.nodeIds, graph.edges, order, cyclic);
    }
    decision := Decision(reasons == [], reasons, graph.state == Approved || graph.state == Running);
  }

  lemma SchedulableIffAcyclic(nodes: seq<Node>, edges: seq<Edge>, order: seq<Node>, cyclic: bool)
    requires Distinct(nodes) && KnownEdges(nodes, edges)
    requires cyclic <==> Cyclic(nodes, edges)
    requires !cyclic ==> Distinct(order) && Ordered(Adjacency(nodes, edges), order)
    requires !cyclic ==> forall n :: n in nodes ==> n in order
    requires !cyclic ==> forall n :: n in order ==> n in nodes || exists a :: a in nodes && (a, n) in edges
    ensures !cyclic <==> exists s :: Schedule(nodes, edges, s)
  {
    if !cyclic {
      forall n | n in order
        ensures n in nodes
      {
        if exists a :: a in nodes && (a, n) in edges {
          var a :| a in nodes && (a, n) in edges;
          assert (a, n).1 in nodes;
        }
      }
      ReverseIsSchedule(nodes, edges, order);
    } else {
      forall s
        ensures !Schedule(nodes, edges, s)
      {
        if Schedule(nodes, edges, s) {
          ScheduleIsAcyclic(nodes, edges, s);
        }
      }
    }
  }

  datatype NodeKind = Model | Tool | Approval | Transform

  datatype WorkflowNode = WorkflowNode(nodeId: Node, kind: NodeKind, sideEffect: bool)

  datatype WorkflowGraph = WorkflowGraph(
    organizationId: string, workflowId: string, version: string, nodes: seq<WorkflowNode>, edges: seq<Edge>,
    entryNodeId: Node, graphHash: string, acyclic: bool, approved: bool)
  {
    function Fields(): seq<string> {
      [organizationId, workflowId, version, entryNodeId, graphHash]
    }

    function Ids(): (ids: seq<Node>)
      ensures |ids| == |nodes|
    {
      seq(|nodes|, i requires 0 <= i < |nodes| => nodes[i].nodeId)
    }

    predicate NoModelSideEffect() {
      forall n :: n in nodes ==> !(n.sideEffect && n.kind == Model)
    }

    function Checks(cyclic: bool): (checks: seq<(bool, Reason)>)
      ensures |checks| == 6 && OwnReasons(checks)
      ensures checks[0].1 == BadNodes && checks[1].1 == NoEntry && checks[2].1 == BadEdges
      ensures checks[3].1 == CycleFound && checks[4].1 == ModelSideEffect && checks[5].1 == NotApproved
    {
      [(nodes == [] || !Distinct(Ids()), BadNodes),
       (entryNodeId !in Ids(), NoEntry),
       (!KnownEdges(Ids(), edges), BadEdges),
       (cyclic || !acyclic, CycleFound),
       (!NoModelSideEffect(), ModelSideEffect),
       (!approved, NotApproved)]
    }

    predicate WellFormed() {
      && AllGiven(Fields())
      && nodes != [] && Distinct(Ids())
      && entryNodeId in Ids()
      && KnownEdges(Ids(), edges)
      && acyclic && NoModelSideEffect() && approved
    }
  }

  lemma IdsAre(graph: WorkflowGraph)
    ensures Repeated(graph.Ids()) <==>
            exists i, j :: 0 <= i < j < |graph.nodes| && graph.nodes[i].nodeId == graph.nodes[j].nodeId
    ensures forall id :: id in graph.Ids() <==> exists n :: n in graph.nodes && n.nodeId == id
  {
    if Repeated(graph.Ids()) {
      var i, j :| 0 <= i < j < |graph.Ids()| && graph.Ids()[i] == graph.Ids()[j];
      assert graph.nodes[i].nodeId == graph.nodes[j].nodeId;
    }
    if i, j :| 0 <= i < j < |graph.nodes| && graph.nodes[i].nodeId == graph.nodes[j].nodeId {
      assert graph.Ids()[i] == graph.Ids()[j];
    }
    forall k | 0 <= k < |graph.nodes|
      ensures graph.nodes[k].nodeId in graph.Ids()
    {
      assert graph.Ids()[k] == graph.nodes[k].nodeId;
    }
  }

  // The keys of a map filled from a list, in order of insertion.
  function Firsts(ids: seq<Node>): seq<Node> {
    if ids == [] then [] else
      var front := Firsts(ids[..|ids| - 1]);
      if ids[|ids| - 1] in front then front else front + [ids[|ids| - 1]]
  }

  lemma {:induction false} FirstsMembers(ids: seq<Node>)
    ensures forall n :: n in Firsts(ids) <==> n in ids
  {
    if ids != [] {
      FirstsMembers(ids[..|ids| - 1]);
      assert ids == ids[..|ids| - 1] + [ids[|ids| - 1]];
    }
  }

  // agent-orchestration-runtime.ts, `hasCycle`.
  method FindWorkflowCycle(graph: WorkflowGraph) returns (found: bool, ghost order: seq<Node>)
    ensures found <==> Cyclic(graph.Ids(), graph.edges)
    ensures !found ==> Distinct(order) && Ordered(Adjacency(graph.Ids(), graph.edges), order)
    ensures !found ==> forall n :: n in graph.Ids() ==> n in order
    ensures !found ==> forall n :: n in order ==>
              n in graph.Ids() || exists a :: a in graph.Ids() && (a, n) in graph.edges
  {
    var ids := graph.Ids();
    var adjacency := BuildAdjacency(ids, graph.edges);
    CyclicIsCycle(ids, graph.edges);
    FirstsMembers(ids);
    found, order := SearchFrom(adjacency, Firsts(ids));
    if !found {
      OrderedAcyclic(ids, graph.edges, order);
      forall n | n in order
        ensures n in ids || exists a :: a in ids && (a, n) in graph.edges
      {
        if n in Universe(adjacency) {
          InUniverse(ids, graph.edges, n);
        }
      }
    }
  }

  // agent-orchestration-runtime.ts, `validateAgentWorkflowGraph`.
  method ValidateAgentWorkflowGraph(graph: WorkflowGraph) returns (decision: Decision)
    ensures decision.allowed <==> decision.reasons == []
    ensures ReportsBlanks(decision.reasons, [graph.organizationId, graph.workflowId, graph.version, graph.entryNodeId,
                                             graph.graphHash])
    ensures BadNodes in decision.reasons <==>
              || graph.nodes == []
              || exists i, j :: 0 <= i < j < |graph.nodes| && graph.nodes[i].nodeId == graph.nodes[j].nodeId
    ensures NoEntry in decision.reasons <==> forall n :: n in graph.nodes ==> n.nodeId != graph.entryNodeId
    ensures BadEdges in decision.reasons <==> StrayEdge(graph.Ids(), graph.edges)
    ensures CycleFound in decision.reasons <==> Cyclic(graph.Ids(), graph.edges) || !graph.acyclic
    ensures ModelSideEffect in decision.reasons <==> exists n :: n in graph.nodes && n.sideEffect && n.kind == Model
    ensures NotApproved in decision.reasons <==> !graph.approved
    ensures decision.requiresApproval
    ensures decision.allowed <==> graph.WellFormed() && exists s :: Schedule(graph.Ids(), graph.edges, s)
  {
    var ids := graph.Ids();
    var cyclic, order := FindWorkflowCycle(graph);
    var checks := graph.Checks(cyclic);
    var reasons := Missing(graph.Fields()) + Failing(checks);
    ReasonsAre(graph.Fields(), checks);
    NodesAndEdges(ids, graph.edges);
    IdsAre(graph);
    if graph.WellFormed() {
      SchedulableIffAcyclic(ids, graph.edges, order, cyclic);
    }
    decision := Decision(reasons == [], reasons, true);
  }

  // ---- The workflow builder: backwards from the output node ----

  datatype BuilderNode = BuilderNode(nodeId: Node, inputNodeIds: seq<Node>)

  // The inputs of each node; of nodes with the same id the last one counts.
  function Inputs(nodes: seq<BuilderNode>): Graph {
    if nodes == [] then map[] else
      var last := nodes[|nodes| - 1];
      Inputs(nodes[..|nodes| - 1])[last.nodeId := last.inputNodeIds]
  }

  // A cycle among the nodes that feed the output.
  ghost predicate CycleUpstream(g: Graph, output: Node) {
    exists n :: Reaches(g, output, n) && Precedes(g, n, n)
  }

  method InputsById(nodes: seq<BuilderNode>) returns (byId: Graph)
    ensures byId == Inputs(nodes)
  {
    byId := map[];
    for i := 0 to |nodes|
      invariant byId == Inputs(nodes[..i])
    {
      assert nodes[..i + 1][..i] == nodes[..i];
      byId := byId[nodes[i].nodeId := nodes[i].inputNodeIds];
    }
    assert nodes[..|nodes|] == nodes;
  }

  method SelfReferences(nodes: seq<BuilderNode>) returns (reasons: seq<Reason>)
    ensures forall r :: r in reasons ==> r.SelfReference?
    ensures forall id :: SelfReference(id) in reasons
                    <==> exists n :: n in nodes && n.nodeId == id && id in n.inputNodeIds
  {
    reasons := [];
    for i := 0 to |nodes|
      invariant forall r :: r in reasons ==> r.SelfReference?
      invariant forall id :: SelfReference(id) in reasons
                    <==> exists n :: n in nodes[..i] && n.nodeId == id && id in n.inputNodeIds
    {
      assert nodes[..i + 1] == nodes[..i] + [nodes[i]];
      if nodes[i].nodeId in nodes[i].inputNodeIds {
        reasons := reasons + [SelfReference(nodes[i].nodeId)];
      }
    }
    assert nodes[..|nodes|] == nodes;
  }

  // ai-workflow-builder-runtime.ts, `validateWorkflowGraph`. A node that feeds the output
  // is one reached from it along inputs.
  method ValidateWorkflowGraph(nodes: seq<BuilderNode>, entry: Node, output: Node) returns (decision: Decision)
    ensures decision.allowed <==> decision.reasons == []
    ensures forall id :: SelfReference(id) in decision.reasons
                    <==> exists n :: n in nodes && n.nodeId == id && id in n.inputNodeIds
    ensures CycleFound in decision.reasons <==> CycleUpstream(Inputs(nodes), output)
    ensures NotReachable in decision.reasons <==> !Reaches(Inputs(nodes), output, entry)
    ensures forall r :: r in decision.reasons ==> r.SelfReference? || r.CycleFound? || r.NotReachable?
    ensures !decision.requiresApproval
  {
    var byId := InputsById(nodes);
    var reasons := SelfReferences(nodes);
    var search := new Search(byId);
    ReachesSelf(byId, output);
    search.VisitAll(output, output);
    SearchComplete(byId, search.visited, search.backEdges, output);
    reasons := reasons + seq(search.backEdges, i => CycleFound);
    assert search.backEdges > 0 ==> CycleFound == reasons[|reasons| - 1];
    if entry !in search.visited {
      reasons := reasons + [NotReachable];
    }
    decision := Decision(reasons == [], reasons, false);
  }
}
