/** The graph the Agent Framework backend builds before it runs a definition from some node. */
module Backend {
  import opened Contracts
  import opened Catalog
  import E = RunEngine
  import W = WorkBound
  import H = Honesty

  /** The calls made to the graph builder: a self route and a retry loop of the same node are two edges. */
  datatype Graph = Graph(nodes: set<NodeId>, edges: multiset<(NodeId, NodeId)>)

  /** A route the graph can follow. */
  predicate Leads(def: WorkflowDefinition, from: NodeId, to: NodeId) {
    to != COMPLETE && exists i :: 0 <= i < |def.routes| && def.routes[i].from == from && def.routes[i].target == to
  }

  predicate IsPath(def: WorkflowDefinition, path: seq<NodeId>) {
    path != [] && forall i :: 0 < i < |path| ==> Leads(def, path[i - 1], path[i])
  }

  ghost predicate Reaches(def: WorkflowDefinition, entry: NodeId, node: NodeId) {
    exists path :: IsPath(def, path) && path[0] == entry && path[|path| - 1] == node
  }

  ghost predicate Closed(def: WorkflowDefinition, nodes: set<NodeId>) {
    forall i :: 0 <= i < |def.routes| && def.routes[i].from in nodes && def.routes[i].target != COMPLETE ==>
      def.routes[i].target in nodes
  }

  lemma {:induction false} ReachesFurther(def: WorkflowDefinition, entry: NodeId, from: NodeId, to: NodeId)
    requires Reaches(def, entry, from) && Leads(def, from, to)
    ensures Reaches(def, entry, to)
  {
    var path :| IsPath(def, path) && path[0] == entry && path[|path| - 1] == from;
    var longer := path + [to];
    assert IsPath(def, longer) && longer[0] == entry && longer[|longer| - 1] == to;
  }

  /** A closed set holds every node a path leads to. */
  lemma {:induction false} ClosedHoldsPath(def: WorkflowDefinition, nodes: set<NodeId>, path: seq<NodeId>)
    requires Closed(def, nodes) && IsPath(def, path) && path[0] in nodes
    ensures path[|path| - 1] in nodes
    decreases |path|
  {
    if |path| > 1 {
      var n := |path| - 1;
      ClosedHoldsPath(def, nodes, path[..n]);
      assert Leads(def, path[n - 1], path[n]);
    }
  }

  lemma {:induction false} RouteLeads(def: WorkflowDefinition, i: nat)
    requires i < |def.routes| && def.routes[i].target != COMPLETE
    ensures Leads(def, def.routes[i].from, def.routes[i].target)
  {
  }

  function Targets(def: WorkflowDefinition): set<NodeId> {
    set i | 0 <= i < |def.routes| :: def.routes[i].target
  }

  /** The worklist: exactly the nodes that routes lead to from the entry node. */
  method Reachable(def: WorkflowDefinition, entry: NodeId) returns (reachable: set<NodeId>)
    ensures entry in reachable && Closed(def, reachable)
    ensures forall node :: node in reachable <==> Reaches(def, entry, node)
  {
    ghost var all := Targets(def) + {entry};
    var queue := [entry];
    reachable := {entry};
    assert IsPath(def, [entry]) && [entry][0] == entry && [entry][|[entry]| - 1] == entry;
    while queue != []
      invariant entry in reachable && reachable <= all
      invariant forall node <- reachable :: Reaches(def, entry, node)
      invariant forall k :: 0 <= k < |queue| ==> queue[k] in reachable
      invariant forall i ::
                  (0 <= i < |def.routes| && def.routes[i].from in reachable && def.routes[i].target != COMPLETE) ==>
                  def.routes[i].target in reachable || def.routes[i].from in queue
      decreases |all - reachable|, |queue|
    {
      reachable, queue := Expand(def, entry, reachable, queue, all);
    }
    forall node | Reaches(def, entry, node) ensures node in reachable {
      var path :| IsPath(def, path) && path[0] == entry && path[|path| - 1] == node;
      ClosedHoldsPath(def, reachable, path);
    }
  }

  /** One round of the worklist: take a node, and queue the targets that are new. */
  method Expand(def: WorkflowDefinition, ghost entry: NodeId, reachable: set<NodeId>, queue: seq<NodeId>,
                ghost all: set<NodeId>)
    returns (found: set<NodeId>, rest: seq<NodeId>)
    requires queue != [] && entry in reachable && reachable <= all && Targets(def) <= all
    requires forall node <- reachable :: Reaches(def, entry, node)
    requires forall k :: 0 <= k < |queue| ==> queue[k] in reachable
    requires forall i ::
               (0 <= i < |def.routes| && def.routes[i].from in reachable && def.routes[i].target != COMPLETE) ==>
               def.routes[i].target in reachable || def.routes[i].from in queue
    ensures reachable <= found <= all
    ensures forall node <- found :: Reaches(def, entry, node)
    ensures forall k :: 0 <= k < |rest| ==> rest[k] in found
    ensures forall i :: 0 <= i < |def.routes| && def.routes[i].from in found && def.routes[i].target != COMPLETE ==>
              def.routes[i].target in found || def.routes[i].from in rest
    ensures |all - found| < |all - reachable| || (found == reachable && |rest| < |queue|)
  {
    hide Reaches, Leads;
    var from := queue[0];
    found, rest := reachable, queue[1..];
    var i := 0;
    while i < |def.routes|
      invariant 0 <= i <= |def.routes| && reachable <= found <= all
      invariant forall node <- found :: Reaches(def, entry, node)
      invariant forall k :: 0 <= k < |rest| ==> rest[k] in found
      invariant queue[1..] <= rest && (found == reachable ==> rest == queue[1..])
      invariant forall k :: 0 <= k < i && def.routes[k].from == from && def.routes[k].target != COMPLETE ==>
                  def.routes[k].target in found
      invariant forall node <- found :: node in reachable || node in rest
    {
      var route := def.routes[i];
      if route.from == from && route.target != COMPLETE && route.target !in found {
        RouteLeads(def, i);
        ReachesFurther(def, entry, from, route.target);
        assert route.target in Targets(def);
        found, rest := found + {route.target}, rest + [route.target];
      }
      i := i + 1;
    }
    assert forall node <- queue :: node == from || node in queue[1..];
    if found != reachable {
      var extra :| extra in found && extra !in reachable;
      FewerLeft(all, reachable, found, extra);
    }
  }

  lemma {:induction false} FewerLeft(all: set<NodeId>, small: set<NodeId>, large: set<NodeId>, extra: NodeId)
    requires small <= large <= all && extra in large && extra !in small
    ensures |all - large| < |all - small|
  {
    SmallerIsSmaller(all - large, (all - small) - {extra});
    assert |(all - small) - {extra}| == |all - small| - 1;
  }

  lemma {:induction false} SmallerIsSmaller(a: set<NodeId>, b: set<NodeId>)
    requires a <= b
    ensures |a| <= |b|
  {
    assert a + (b - a) == b;
    assert a !! (b - a);
  }

  /** One edge per route between the nodes. */
  function RouteEdges(routes: seq<Route>, nodes: set<NodeId>): set<(NodeId, NodeId)> {
    set i | 0 <= i < |routes| && routes[i].target != COMPLETE && routes[i].from in nodes ::
        (routes[i].from, routes[i].target)
  }

  /** One loop per node that may be retried. */
  function RetryEdges(definitions: seq<NodeDefinition>, nodes: set<NodeId>): set<(NodeId, NodeId)> {
    set i | 0 <= i < |definitions| && definitions[i].maxRetries > 0 && definitions[i].nodeId in nodes
      :: (definitions[i].nodeId, definitions[i].nodeId)
  }

  method AddRoutes(routes: seq<Route>, nodes: set<NodeId>) returns (edges: set<(NodeId, NodeId)>)
    ensures edges == RouteEdges(routes, nodes)
  {
    edges := {};
    for i := 0 to |routes|
      invariant edges == RouteEdges(routes[..i], nodes)
    {
      assert routes[..i + 1] == routes[..i] + [routes[i]];
      if routes[i].target != COMPLETE && routes[i].from in nodes {
        edges := edges + {(routes[i].from, routes[i].target)};
      }
    }
    assert routes[..|routes|] == routes;
  }

  /** Node ids are distinct in a valid definition, so no loop is added twice. */
  method AddRetries(definitions: seq<NodeDefinition>, nodes: set<NodeId>) returns (loops: set<(NodeId, NodeId)>)
    ensures loops == RetryEdges(definitions, nodes)
  {
    loops := {};
    for i := 0 to |definitions|
      invariant loops == RetryEdges(definitions[..i], nodes)
    {
      assert definitions[..i + 1] == definitions[..i] + [definitions[i]];
      if definitions[i].maxRetries > 0 && definitions[i].nodeId in nodes {
        loops := loops + {(definitions[i].nodeId, definitions[i].nodeId)};
      }
    }
    assert definitions[..|definitions|] == definitions;
  }

  /** ExecuteAsync up to the start of the framework: validation, reachable nodes, then edges. */
  method BuildGraph(def: WorkflowDefinition, entry: NodeId) returns (graph: Option<Graph>)
    ensures graph.Some? <==> def.Valid() && def.HasNode(entry)
    ensures graph.Some? ==> IsGraph(def, entry, graph.value)
  {
    if !def.Valid() || !def.HasNode(entry) { return None; }
    var nodes := Reachable(def, entry);
    var routes := AddRoutes(def.routes, nodes);
    var loops := AddRetries(def.nodes, nodes);
    graph := Some(Graph(nodes, multiset(routes) + multiset(loops)));
  }

  /** What the backend hands to the framework. */
  ghost predicate IsGraph(def: WorkflowDefinition, entry: NodeId, g: Graph) {
    && entry in g.nodes && Closed(def, g.nodes)
    && (forall node :: node in g.nodes <==> Reaches(def, entry, node))
    && g.edges == multiset(RouteEdges(def.routes, g.nodes)) + multiset(RetryEdges(def.nodes, g.nodes))
  }

  /** Every rework route leads to the policy's target, which is a real node. */
  ghost predicate ReworkAtTarget(def: WorkflowDefinition) {
    && def.rework.target != COMPLETE
    && forall i :: 0 <= i < |def.routes| && def.routes[i].outcome.ReworkRequired?
        ==> def.routes[i].target == def.rework.target
  }

  lemma {:induction false} RouteIsEdge(def: WorkflowDefinition, entry: NodeId, g: Graph, route: Route)
    requires IsGraph(def, entry, g) && route in def.routes && route.from in g.nodes && route.target != COMPLETE
    ensures route.target in g.nodes && (route.from, route.target) in g.edges
  {
    var i :| 0 <= i < |def.routes| && def.routes[i] == route;
  }

  lemma {:induction false} RetryIsEdge(def: WorkflowDefinition, entry: NodeId, g: Graph, node: NodeDefinition)
    requires IsGraph(def, entry, g) && node in def.nodes && node.nodeId in g.nodes && node.maxRetries > 0
    ensures (node.nodeId, node.nodeId) in g.edges
  {
    var i :| 0 <= i < |def.nodes| && def.nodes[i] == node;
  }

  /** Whatever node a dispatch names next, the graph has it and an edge to it. */
  lemma {:induction false} ToldNodeIsReachable(def: WorkflowDefinition, backendId: string, entry: NodeId, g: Graph,
                                               s: E.Session, a: E.Attempt)
    requires IsGraph(def, entry, g) && ReworkAtTarget(def) && a.node in g.nodes
    requires E.Dispatch(def, backendId, s, a).reply.Told? && E.Dispatch(def, backendId, s, a).reply.next.Some?
    ensures var next := E.Dispatch(def, backendId, s, a).reply.next.value;
            next in g.nodes && (a.node, next) in g.edges
  {
    hide IsGraph, E.Dispatch, E.Settle, E.Record;
    var o := E.Dispatch(def, backendId, s, a);
    H.DispatchCases(def, backendId, s, a);
    var node := def.Node(a.node).value;
    var result := E.Settle(node, a);
    if result.outcome.Succeeded? {
      RouteIsEdge(def, entry, g, Route(a.node, Succeeded, o.reply.next.value));
    } else if result.outcome.ReworkRequired? {
      RouteIsEdge(def, entry, g, Route(a.node, ReworkRequired, def.rework.target));
    } else {
      RetryIsEdge(def, entry, g, node);
    }
  }

  /** Every attempt of an obedient drive is at a node of the graph, and each one follows an edge to the next. */
  ghost predicate Walks(g: Graph, attempts: seq<E.Attempt>) {
    && (forall i :: 0 <= i < |attempts| ==> attempts[i].node in g.nodes)
    && (forall i :: 0 < i < |attempts| ==> (attempts[i - 1].node, attempts[i].node) in g.edges)
  }

  /** A dispatch that names a next node leaves the run at that node. */
  lemma {:induction false} ToldIsCurrent(def: WorkflowDefinition, backendId: string, s: E.Session, a: E.Attempt)
    requires E.Dispatch(def, backendId, s, a).reply.Told? && E.Dispatch(def, backendId, s, a).reply.next.Some?
    ensures var o := E.Dispatch(def, backendId, s, a);
            o.session.run.state.Running? && o.session.run.currentNode == o.reply.next
  {
    hide E.Dispatch, E.Settle;
    H.DispatchCases(def, backendId, s, a);
    H.FoundIsItself(def, a.node);
  }

  lemma {:induction false} ObedientDriveWalks(def: WorkflowDefinition, backendId: string, entry: NodeId, g: Graph,
                                              s: E.Session, attempts: seq<E.Attempt>)
    requires IsGraph(def, entry, g) && ReworkAtTarget(def) && W.Obedient(def, backendId, s, attempts)
    requires s.run.currentNode.Some? && s.run.currentNode.value in g.nodes
    ensures Walks(g, attempts)
    decreases |attempts|
  {
    hide IsGraph, E.Dispatch, ReworkAtTarget;
    if |attempts| > 1 {
      var o := E.Dispatch(def, backendId, s, attempts[0]);
      ToldNodeIsReachable(def, backendId, entry, g, s, attempts[0]);
      ToldIsCurrent(def, backendId, s, attempts[0]);
      ObedientDriveWalks(def, backendId, entry, g, o.session, attempts[1..]);
      forall i | 0 < i < |attempts| ensures (attempts[i - 1].node, attempts[i].node) in g.edges {
        if i > 1 { assert attempts[i - 1] == attempts[1..][i - 2] && attempts[i] == attempts[1..][i - 1]; }
      }
      forall i | 0 <= i < |attempts| ensures attempts[i].node in g.nodes {
        if i > 0 { assert attempts[i] == attempts[1..][i - 1]; }
      }
    }
  }

  /** The catalogs satisfy what the graph theorem asks. */
  lemma {:induction false} CatalogReworkAtTarget(kind: Kind, risk: Risk)
    ensures ReworkAtTarget(Definition(kind, risk))
  {
    hide Definition, Sequence;
    CatalogIsChain(kind, risk);
    CatalogBuilt(kind, risk);
  }
}
