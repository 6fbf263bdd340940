/** Domain records shared by the workflow engine, its catalogs and its backend. */
module Contracts {

  datatype Option<+T> = None | Some(value: T)

  /**
   * Node ids: the names the shipped definitions and services mention, any other name, and the reserved
   * route target `$complete`.
   */
  datatype NodeId =
    | CODEX | TEST | DIFF | DELIVER | GROUNDING | PLAN | REVIEW | ARCHITECTURE | INDEPENDENT_VERIFY
    | HUMAN | PREPARE | SUBMITTED | PRIMARY_REWORK
    | Other(name: string)
    | COMPLETE

  datatype Risk = Fast | Standard | Critical
  datatype TaskLifecycle = Draft | Active | Delivered | Cancelled | Discussing | Ready | AwaitingAcceptance | Done
  datatype RunState = Created | Running | Waiting | Blocked | Completed | Failed | Cancelled | Paused
  datatype NodeKind = Deterministic | Agent | Codex | Human
  datatype NodeOutcome = Succeeded | Failed | ReworkRequired | Waiting | Cancelled | Interrupted
  datatype SideEffect = ReadOnly | WorkspaceWrite | External
  datatype EffectStatus = NotStarted | Completed | Unknown

  datatype NodeDefinition = NodeDefinition(
    nodeId: NodeId, kind: NodeKind, inputContract: string, resultContract: string,
    sideEffect: SideEffect, timeout: int, maxRetries: int)
  datatype Route = Route(from: NodeId, outcome: NodeOutcome, target: NodeId)
  datatype ReworkPolicy = ReworkPolicy(maxReworks: int, target: NodeId)

  datatype Failure = Failure(code: string, retryable: bool, effect: EffectStatus)
  datatype HumanRequest = HumanRequest(requestId: string, scope: string, runVersion: int)
  datatype HumanDecision = HumanDecision(
    requestId: string, scope: string, runVersion: int, actor: string, approved: bool, reason: string)
  datatype NodeResult = NodeResult(
    outcome: NodeOutcome, contract: string, output: string, artifacts: seq<string>,
    failure: Option<Failure>, request: Option<HumanRequest>)
  {
    /** The result contract every handler answer is checked against. */
    predicate Valid(node: NodeDefinition) {
      && contract == node.resultContract
      && (outcome.Failed? ==> failure.Some?)
      && (outcome.Waiting? ==> node.kind.Human? && request.Some?)
      && (!outcome.Waiting? ==> request.None?)
      && (outcome.ReworkRequired? ==> !Blank(output))
    }
  }

  function Success(output: string): NodeResult {
    NodeResult(Succeeded, "node-result/v1", output, [], None, None)
  }

  function Fail(code: string, effect: EffectStatus): NodeResult {
    NodeResult(NodeOutcome.Failed, "node-result/v1", "", [], Some(Failure(code, false, effect)), None)
  }

  datatype NodeExecution = NodeExecution(nodeId: NodeId, attempt: int, result: NodeResult)
  datatype WorkflowRun = WorkflowRun(
    runId: string, taskId: string, workflowId: string, workflowVersion: int, backendId: string,
    state: RunState, currentNode: Option<NodeId>, reworkCount: int, version: int,
    executions: seq<NodeExecution>, pending: Option<HumanRequest>, failure: Option<Failure>)
  {
    predicate Active() { state.Created? || state.Running? || state.Waiting? }
  }

  /** `owned` says that the task belongs to a Fusion or Direct conversation. */
  datatype EngineeringTask = EngineeringTask(
    taskId: string, workspaceId: string, risk: Risk, lifecycle: TaskLifecycle, owned: bool)

  /** The characters .NET counts as white space. */
  predicate WhiteSpace(c: char) {
    var n := c as int;
    || 9 <= n <= 13 || n == 32 || n == 0x85 || n == 0xA0 || n == 0x1680 || 0x2000 <= n <= 0x200A
    || n == 0x2028 || n == 0x2029 || n == 0x202F || n == 0x205F || n == 0x3000
  }

  predicate Blank(s: string) { forall i :: 0 <= i < |s| ==> WhiteSpace(s[i]) }

  /** Some character is more than white space. */
  predicate Says(s: string) { exists i :: 0 <= i < |s| && !WhiteSpace(s[i]) }

  datatype WorkflowDefinition = WorkflowDefinition(
    workflowId: string, version: int, risk: Risk, entryNode: NodeId,
    nodes: seq<NodeDefinition>, routes: seq<Route>, completion: seq<NodeId>, rework: ReworkPolicy)
  {
    predicate HasNode(id: NodeId) { exists i :: 0 <= i < |nodes| && nodes[i].nodeId == id }

    predicate Valid() {
      && !Blank(workflowId) && version >= 1 && nodes != []
      && (forall i, j :: 0 <= i < j < |nodes| ==> nodes[i].nodeId != nodes[j].nodeId)
      && HasNode(entryNode) && rework.maxReworks >= 0 && HasNode(rework.target) && completion != []
      && (forall i :: 0 <= i < |nodes| ==> ValidNode(nodes[i]))
      && (forall i :: 0 <= i < |routes| ==>
            HasNode(routes[i].from) && (routes[i].target == COMPLETE || HasNode(routes[i].target)))
      && (forall i, j :: 0 <= i < j < |routes| ==> !SameEdge(routes[i], routes[j]))
      && (forall i :: 0 <= i < |completion| ==> HasNode(completion[i]))
    }

    /** The definition of a node, or nothing when the id is unknown. */
    function Node(id: NodeId): Option<NodeDefinition> { FindNode(nodes, id) }

    /** The target of a node's route for an outcome, or nothing when there is no such route. */
    function Next(id: NodeId, outcome: NodeOutcome): Option<NodeId> { FindRoute(routes, id, outcome) }
  }

  predicate ValidNode(n: NodeDefinition) {
    && n.timeout > 0 && n.maxRetries >= 0 && !Blank(n.inputContract) && !Blank(n.resultContract)
    && (n.kind.Human? ==> n.maxRetries == 0)
  }

  predicate SameEdge(a: Route, b: Route) { a.from == b.from && a.outcome == b.outcome }

  function FindNode(nodes: seq<NodeDefinition>, id: NodeId): (r: Option<NodeDefinition>)
    ensures r.Some? ==> r.value in nodes && r.value.nodeId == id
    ensures r.None? ==> forall i :: 0 <= i < |nodes| ==> nodes[i].nodeId != id
  {
    if nodes == [] then None
    else if nodes[0].nodeId == id then Some(nodes[0])
    else FindNode(nodes[1..], id)
  }

  function FindRoute(routes: seq<Route>, from: NodeId, outcome: NodeOutcome): (r: Option<NodeId>)
    ensures r.Some? ==> Route(from, outcome, r.value) in routes
    ensures r.None? ==> forall i :: 0 <= i < |routes| ==> !(routes[i].from == from && routes[i].outcome == outcome)
  {
    if routes == [] then None
    else if routes[0].from == from && routes[0].outcome == outcome then Some(routes[0].target)
    else FindRoute(routes[1..], from, outcome)
  }

  /** When no two routes share a source and an outcome, any route there is is the one found. */
  lemma {:induction false} RouteFound(routes: seq<Route>, i: nat)
    requires i < |routes|
    requires forall i, j :: 0 <= i < j < |routes| ==> !SameEdge(routes[i], routes[j])
    ensures FindRoute(routes, routes[i].from, routes[i].outcome) == Some(routes[i].target)
  {
    if i > 0 {
      assert !SameEdge(routes[0], routes[i]);
      RouteFound(routes[1..], i - 1);
    }
  }
}
