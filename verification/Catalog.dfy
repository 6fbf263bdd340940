/** The shipped workflow definitions, and the shape every theorem about runs relies on. */
module Catalog {
  import opened Contracts

  datatype Kind = Classic | Mvp | Thin | Fusion | Direct

  /** The node order of each catalog entry, from its entry node to delivery. */
  function Sequence(kind: Kind, risk: Risk): seq<NodeId> {
    match (kind, risk)
    case (Classic, Fast) => [CODEX, TEST, DIFF, DELIVER]
    case (Classic, Standard) => [GROUNDING, PLAN, CODEX, TEST, REVIEW, DELIVER]
    case (Classic, Critical) =>
      [GROUNDING, ARCHITECTURE, PLAN, CODEX, TEST, INDEPENDENT_VERIFY, REVIEW, HUMAN, DELIVER]
    case (Mvp, Standard) => [GROUNDING, PLAN, CODEX, TEST, REVIEW, DELIVER]
    case (Mvp, Critical) => [GROUNDING, PLAN, CODEX, TEST, REVIEW, HUMAN, DELIVER]
    case (Thin, Standard) => [PREPARE, CODEX, TEST, REVIEW, DELIVER]
    case (Thin, Critical) => [PREPARE, CODEX, TEST, REVIEW, HUMAN, DELIVER]
    case (Fusion, Standard) => [CODEX, TEST, REVIEW, DELIVER]
    case (Fusion, Critical) => [CODEX, TEST, REVIEW, HUMAN, DELIVER]
    case (Direct, Fast) => [SUBMITTED, TEST, DELIVER]
    case (Direct, _) => [SUBMITTED, TEST, REVIEW, DELIVER]
    case (_, Fast) => [CODEX, TEST, DELIVER]
  }

  function AgentNodes(kind: Kind): set<NodeId> {
    match kind
    case Classic => {PLAN, REVIEW, ARCHITECTURE}
    case Mvp => {GROUNDING, PLAN, REVIEW}
    case Direct => {REVIEW}
    case _ => {PREPARE, REVIEW}
  }

  function MakeNode(kind: Kind, id: NodeId): NodeDefinition {
    var nodeKind :=
      if id in AgentNodes(kind) then Agent
      else if id == CODEX then Codex else if id == HUMAN then Human else Deterministic;
    var minutes := match kind
      case Classic => if id == CODEX then 8 else 3
      case Direct => if id == REVIEW then 10 else 3
      case _ => if id in {TEST, DELIVER, HUMAN} then 3 else 10;
    NodeDefinition(id, nodeKind, "context/v1", "node-result/v1",
                   if id == CODEX then WorkspaceWrite else ReadOnly, minutes, 0)
  }

  function MakeNodes(kind: Kind, ids: seq<NodeId>): (nodes: seq<NodeDefinition>) {
    seq(|ids|, i requires 0 <= i < |ids| => MakeNode(kind, ids[i]))
  }

  /** One success route per node, each to the next node in order and the last to completion. */
  function ChainRoutes(ids: seq<NodeId>): (routes: seq<Route>) {
    seq(|ids|, i requires 0 <= i < |ids| => Route(ids[i], Succeeded, Successor(ids, i)))
  }

  /** The nodes that may send work back. */
  function ReworkSources(kind: Kind, risk: Risk): seq<NodeId> {
    match (kind, risk)
    case (Classic, Standard) => [TEST, REVIEW]
    case (Classic, Critical) => [TEST, INDEPENDENT_VERIFY, REVIEW]
    case (Direct, Fast) => [TEST]
    case (Direct, _) => [TEST, REVIEW]
    case (Fusion, Fast) => [TEST]
    case (Fusion, _) => [REVIEW, TEST]
    case (_, Fast) => []
    case _ => [REVIEW]
  }

  function ReworkRoutes(ids: seq<NodeId>, target: NodeId): (routes: seq<Route>) {
    seq(|ids|, i requires 0 <= i < |ids| => Route(ids[i], ReworkRequired, target))
  }

  function RiskName(risk: Risk): string {
    match risk case Fast => "FAST" case Standard => "STANDARD" case Critical => "CRITICAL"
  }

  /** WorkflowCatalog.Create. */
  function CreateClassic(risk: Risk): WorkflowDefinition {
    var ids := Sequence(Classic, risk);
    WorkflowDefinition(RiskName(risk) + "-v1", 1, risk, ids[0], MakeNodes(Classic, ids),
                       ChainRoutes(ids) + ReworkRoutes(ReworkSources(Classic, risk), CODEX),
                       ids, ReworkPolicy(3, CODEX))
  }

  /** MvpWorkflowCatalog.Create. */
  function CreateMvp(risk: Risk): WorkflowDefinition {
    var ids := Sequence(Mvp, risk);
    WorkflowDefinition(RiskName(risk) + "-MVP-v1", 1, risk, ids[0], MakeNodes(Mvp, ids),
                       ChainRoutes(ids) + ReworkRoutes(ReworkSources(Mvp, risk), CODEX),
                       ids, ReworkPolicy(2, CODEX))
  }

  /** MvpWorkflowCatalog.CreateV02. */
  function CreateThin(risk: Risk): WorkflowDefinition {
    var ids := Sequence(Thin, risk);
    WorkflowDefinition(RiskName(risk) + "-THIN-v2", 2, risk, ids[0], MakeNodes(Thin, ids),
                       ChainRoutes(ids) + ReworkRoutes(ReworkSources(Thin, risk), CODEX),
                       ids, ReworkPolicy(2, CODEX))
  }

  function WithoutNode(nodes: seq<NodeDefinition>, id: NodeId): seq<NodeDefinition> {
    if nodes == [] then [] else (if nodes[0].nodeId == id then [] else [nodes[0]]) + WithoutNode(nodes[1..], id)
  }

  function WithoutFrom(routes: seq<Route>, id: NodeId): seq<Route> {
    if routes == [] then [] else (if routes[0].from == id then [] else [routes[0]]) + WithoutFrom(routes[1..], id)
  }

  function WithoutId(ids: seq<NodeId>, id: NodeId): seq<NodeId> {
    if ids == [] then [] else (if ids[0] == id then [] else [ids[0]]) + WithoutId(ids[1..], id)
  }

  /** MvpWorkflowCatalog.CreateFusion: the thin definition without preparation, and with rework from test. */
  function CreateFusion(risk: Risk): WorkflowDefinition {
    var thin := CreateThin(risk);
    thin.(workflowId := RiskName(risk) + "-FUSION-v1", version := 1, entryNode := CODEX,
          nodes := WithoutNode(thin.nodes, PREPARE),
          routes := WithoutFrom(thin.routes, PREPARE) + [Route(TEST, ReworkRequired, CODEX)],
          completion := WithoutId(thin.completion, PREPARE))
  }

  /** DirectWorkflowService.Definition: rework leaves the chain for a node that has no route out. */
  function CreateDirect(risk: Risk): WorkflowDefinition {
    var ids := Sequence(Direct, risk);
    WorkflowDefinition("DIRECT-" + RiskName(risk) + "-v1", 1, risk, SUBMITTED,
                       MakeNodes(Direct, ids + [PRIMARY_REWORK]),
                       ChainRoutes(ids) + ReworkRoutes(ReworkSources(Direct, risk), PRIMARY_REWORK),
                       ids, ReworkPolicy(1, PRIMARY_REWORK))
  }

  function Definition(kind: Kind, risk: Risk): WorkflowDefinition {
    match kind
    case Classic => CreateClassic(risk)
    case Mvp => CreateMvp(risk)
    case Thin => CreateThin(risk)
    case Fusion => CreateFusion(risk)
    case Direct => CreateDirect(risk)
  }

  // ---- The shape of a definition ----

  predicate Distinct(ids: seq<NodeId>) { forall i, j :: 0 <= i < j < |ids| ==> ids[i] != ids[j] }

  /** The nodes whose position the resume rewind may give up for `test`. */
  const REWINDABLE: set<NodeId> := {REVIEW, HUMAN, DELIVER}

  /** Where a chain node's success leads. */
  function Successor(chain: seq<NodeId>, i: nat): NodeId
    requires i < |chain|
  {
    if i + 1 < |chain| then chain[i + 1] else COMPLETE
  }

  /** Both nodes are on the chain, the first one strictly earlier. */
  predicate Before(chain: seq<NodeId>, first: NodeId, second: NodeId) {
    exists t, i :: 0 <= t < i < |chain| && chain[t] == first && chain[i] == second
  }

  /**
   * The success routes form one chain from the entry node to completion and no other node has a success
   * route; every rework route leads to the policy's target, which is earlier on the chain or off it; and
   * the nodes a resume may give up for `test` come after it.
   */
  ghost predicate ChainShaped(def: WorkflowDefinition, chain: seq<NodeId>) {
    && chain != [] && Distinct(chain) && COMPLETE !in chain
    && def.entryNode == chain[0]
    && (forall i :: 0 <= i < |chain| ==> def.HasNode(chain[i]))
    && (forall i :: 0 <= i < |chain| ==> def.Next(chain[i], Succeeded) == Some(Successor(chain, i)))
    && (forall id: NodeId :: def.Next(id, Succeeded).Some? ==> id in chain)
    && (forall i :: 0 <= i < |def.routes| && def.routes[i].outcome.ReworkRequired? ==>
          && def.routes[i].target == def.rework.target
          && (def.rework.target in chain ==> Before(chain, def.rework.target, def.routes[i].from)))
    && (forall id <- REWINDABLE :: id in chain || id == def.rework.target ==> Before(chain, TEST, id))
    && (forall i :: 0 <= i < |def.completion| ==> def.completion[i] in chain)
  }

  // ---- Every catalog entry has that shape ----

  /** A definition built from an order of nodes, a list of rework sources and nodes off the chain. */
  ghost predicate BuiltFrom(def: WorkflowDefinition, kind: Kind, ids: seq<NodeId>, sources: seq<NodeId>,
                            extra: seq<NodeId>) {
    && def.nodes == MakeNodes(kind, ids + extra)
    && def.routes == ChainRoutes(ids) + ReworkRoutes(sources, def.rework.target)
    && def.completion == ids
    && ids != [] && def.entryNode == ids[0] && def.rework.target in ids + extra
    && def.version >= 1 && def.rework.maxReworks >= 0 && !Blank(def.workflowId)
  }

  ghost predicate GoodLists(ids: seq<NodeId>, sources: seq<NodeId>, extra: seq<NodeId>) {
    && Distinct(ids + extra) && Distinct(sources) && COMPLETE !in ids
    && (forall i :: 0 <= i < |sources| ==> sources[i] in ids)
  }

  function Extra(kind: Kind): seq<NodeId> { if kind == Direct then [PRIMARY_REWORK] else [] }

  lemma {:induction false} SourcesAreOnChain(kind: Kind, risk: Risk, i: nat)
    requires i < |ReworkSources(kind, risk)|
    ensures ReworkSources(kind, risk)[i] in Sequence(kind, risk)
  {
    var ids := Sequence(kind, risk);
    match (kind, risk) {
      case (Classic, Fast) =>
      case (Mvp, Fast) =>
      case (Thin, Fast) =>
      case (Classic, Standard) => assert ids[3] == TEST && ids[4] == REVIEW;
      case (Classic, Critical) => assert ids[4] == TEST && ids[5] == INDEPENDENT_VERIFY && ids[6] == REVIEW;
      case (Mvp, _) => assert ids[4] == REVIEW;
      case (Thin, _) => assert ids[3] == REVIEW;
      case (_, Fast) => assert ids[1] == TEST;
      case _ => assert ids[1] == TEST && ids[2] == REVIEW;
    }
  }

  lemma {:induction false} IdsAreDistinct(kind: Kind, risk: Risk)
    ensures Sequence(kind, risk) != [] && COMPLETE !in Sequence(kind, risk)
    ensures Distinct(Sequence(kind, risk) + Extra(kind))
    ensures PRIMARY_REWORK !in Sequence(kind, risk)
  {
    SequenceIsDistinct(kind, risk);
    ReservedIdsAreElsewhere(kind, risk);
    hide Sequence;
  }

  /** An order that every shipped sequence follows. */
  function Rank(id: NodeId): nat {
    match id
    case GROUNDING => 0
    case ARCHITECTURE => 1
    case PLAN => 2
    case PREPARE => 3
    case SUBMITTED => 4
    case CODEX => 5
    case TEST => 6
    case INDEPENDENT_VERIFY => 7
    case REVIEW => 8
    case DIFF => 9
    case HUMAN => 10
    case _ => 11
  }

  ghost predicate Rising(ids: seq<NodeId>) { forall i :: 0 <= i < |ids| - 1 ==> Rank(ids[i]) < Rank(ids[i + 1]) }

  lemma {:induction false} RisingFurther(ids: seq<NodeId>, i: nat, j: nat)
    requires Rising(ids) && i < j < |ids|
    ensures Rank(ids[i]) < Rank(ids[j])
    decreases j
  {
    if i < j - 1 { RisingFurther(ids, i, j - 1); }
    assert Rank(ids[j - 1]) < Rank(ids[j - 1 + 1]);
  }

  lemma {:induction false} SequenceRises(kind: Kind, risk: Risk)
    ensures Rising(Sequence(kind, risk))
  {
  }

  lemma {:induction false} SequenceIsDistinct(kind: Kind, risk: Risk)
    ensures Distinct(Sequence(kind, risk))
  {
    hide Sequence, Rank, Rising;
    SequenceRises(kind, risk);
    var ids := Sequence(kind, risk);
    forall i, j | 0 <= i < j < |ids| ensures ids[i] != ids[j] { RisingFurther(ids, i, j); }
  }

  lemma {:induction false} ReservedIdsAreElsewhere(kind: Kind, risk: Risk)
    ensures Sequence(kind, risk) != [] && COMPLETE !in Sequence(kind, risk) && PRIMARY_REWORK !in Sequence(kind, risk)
  {
  }

  lemma {:induction false} SequencesAreGood(kind: Kind, risk: Risk)
    ensures Sequence(kind, risk) != []
    ensures GoodLists(Sequence(kind, risk), ReworkSources(kind, risk), Extra(kind))
  {
    hide Sequence, Extra;
    IdsAreDistinct(kind, risk);
    forall i | 0 <= i < |ReworkSources(kind, risk)| ensures ReworkSources(kind, risk)[i] in Sequence(kind, risk) {
      SourcesAreOnChain(kind, risk, i);
    }
  }

  lemma {:induction false} RewindableAfterTest(kind: Kind, risk: Risk, id: NodeId)
    requires id in REWINDABLE && id in Sequence(kind, risk)
    ensures Before(Sequence(kind, risk), TEST, id)
  {
    var ids := Sequence(kind, risk);
    var i :| 0 <= i < |ids| && ids[i] == id;
    var t := match (kind, risk)
      case (Classic, Fast) => 1
      case (Classic, Standard) => 3
      case (Classic, Critical) => 4
      case (Mvp, Fast) => 1
      case (Mvp, _) => 3
      case (Thin, Fast) => 1
      case (Thin, _) => 2
      case _ => 1;
    assert ids[t] == TEST && t < i;
  }

  /** Work is sent back to `codex`, which comes before every node that may do so. */
  lemma {:induction false} ReworkGoesBack(kind: Kind, risk: Risk, i: nat)
    requires kind != Direct && i < |ReworkSources(kind, risk)|
    ensures Before(Sequence(kind, risk), CODEX, ReworkSources(kind, risk)[i])
  {
    var ids, source := Sequence(kind, risk), ReworkSources(kind, risk)[i];
    SequencesAreGood(kind, risk);
    var n :| 0 <= n < |ids| && ids[n] == source;
    var t := match (kind, risk)
      case (Classic, Standard) => 2
      case (Classic, Critical) => 3
      case (Mvp, _) => 2
      case (Thin, _) => 1
      case _ => 0;
    assert ids[t] == CODEX && t < n;
  }

  /** A list of ids without `prepare` at its head is what the Fusion filters keep. */
  lemma {:induction false} NothingDropped(nodes: seq<NodeDefinition>, routes: seq<Route>, ids: seq<NodeId>, id: NodeId)
    requires forall i :: 0 <= i < |nodes| ==> nodes[i].nodeId != id
    requires forall i :: 0 <= i < |routes| ==> routes[i].from != id
    requires id !in ids
    ensures WithoutNode(nodes, id) == nodes && WithoutFrom(routes, id) == routes && WithoutId(ids, id) == ids
    decreases |nodes| + |routes| + |ids|
  {
    if nodes != [] {
      NothingDropped(nodes[1..], routes, ids, id);
    } else if routes != [] {
      NothingDropped(nodes, routes[1..], ids, id);
    } else if ids != [] {
      NothingDropped(nodes, routes, ids[1..], id);
    }
  }

  /** The routes of a chain headed by `prepare` are its own route, then the routes of the rest. */
  lemma {:induction false} HeadSplit(kind: Kind, ids: seq<NodeId>)
    requires ids != []
    ensures MakeNodes(kind, [PREPARE] + ids) == [MakeNode(kind, PREPARE)] + MakeNodes(kind, ids)
    ensures ChainRoutes([PREPARE] + ids) == [Route(PREPARE, Succeeded, ids[0])] + ChainRoutes(ids)
  {
    var all, routes := [PREPARE] + ids, ChainRoutes([PREPARE] + ids);
    var tail := ChainRoutes(ids);
    forall i | 0 <= i < |ids| ensures routes[i + 1] == tail[i] {
      assert all[i + 1] == ids[i];
      if i + 1 < |ids| { assert all[i + 2] == ids[i + 1]; }
    }
    assert routes == [routes[0]] + tail;
  }

  lemma {:induction false} HeadDropped(nodes: seq<NodeDefinition>, routes: seq<Route>, node: NodeDefinition,
                                       route: Route)
    requires node.nodeId == PREPARE && route.from == PREPARE
    requires forall i :: 0 <= i < |nodes| ==> nodes[i].nodeId != PREPARE
    requires forall i :: 0 <= i < |routes| ==> routes[i].from != PREPARE
    ensures WithoutNode([node] + nodes, PREPARE) == nodes && WithoutFrom([route] + routes, PREPARE) == routes
  {
    NothingDropped(nodes, routes, [], PREPARE);
    assert ([node] + nodes)[1..] == nodes && ([route] + routes)[1..] == routes;
  }

  /** What the Fusion filters keep of a thin definition that starts with preparation. */
  lemma {:induction false} PreparationDropped(ids: seq<NodeId>, rest: seq<Route>)
    requires ids != [] && PREPARE !in ids && forall i :: 0 <= i < |rest| ==> rest[i].from != PREPARE
    ensures WithoutNode(MakeNodes(Thin, [PREPARE] + ids), PREPARE) == MakeNodes(Thin, ids)
    ensures WithoutFrom(ChainRoutes([PREPARE] + ids) + rest, PREPARE) == ChainRoutes(ids) + rest
    ensures WithoutId([PREPARE] + ids, PREPARE) == ids
  {
    var route := Route(PREPARE, Succeeded, ids[0]);
    var kept := ChainRoutes(ids) + rest;
    HeadSplit(Thin, ids);
    HeadDropped(MakeNodes(Thin, ids), kept, MakeNode(Thin, PREPARE), route);
    assert ([route] + ChainRoutes(ids)) + rest == [route] + kept;
    NothingDropped([], [], ids, PREPARE);
    assert ([PREPARE] + ids)[1..] == ids;
  }

  lemma {:induction false} FusionKeeps(risk: Risk)
    ensures CreateFusion(risk).nodes == MakeNodes(Thin, Sequence(Fusion, risk))
    ensures CreateFusion(risk).completion == Sequence(Fusion, risk)
    ensures CreateFusion(risk).routes
         == (ChainRoutes(Sequence(Fusion, risk)) + ReworkRoutes(ReworkSources(Thin, risk), CODEX))
            + [Route(TEST, ReworkRequired, CODEX)]
  {
    var ids, rest := Sequence(Fusion, risk), ReworkRoutes(ReworkSources(Thin, risk), CODEX);
    assert PREPARE !in ids;
    if risk == Fast {
      assert Sequence(Thin, risk) == ids;
      NothingDropped(MakeNodes(Thin, ids), ChainRoutes(ids) + rest, ids, PREPARE);
    } else {
      assert Sequence(Thin, risk) == [PREPARE] + ids;
      PreparationDropped(ids, rest);
    }
  }

  lemma {:induction false} RoutesExtended(ids: seq<NodeId>, sources: seq<NodeId>, source: NodeId, target: NodeId)
    ensures (ChainRoutes(ids) + ReworkRoutes(sources, target)) + [Route(source, ReworkRequired, target)]
         == ChainRoutes(ids) + ReworkRoutes(sources + [source], target)
    ensures MakeNodes(Thin, ids) == MakeNodes(Fusion, ids)
  {
    assert ReworkRoutes(sources, target) + [Route(source, ReworkRequired, target)]
        == ReworkRoutes(sources + [source], target);
  }

  lemma {:induction false} FusionRoutes(risk: Risk)
    ensures CreateFusion(risk).nodes == MakeNodes(Fusion, Sequence(Fusion, risk))
    ensures CreateFusion(risk).completion == Sequence(Fusion, risk)
    ensures CreateFusion(risk).routes
         == ChainRoutes(Sequence(Fusion, risk)) + ReworkRoutes(ReworkSources(Fusion, risk), CODEX)
  {
    hide MakeNodes, ChainRoutes, ReworkRoutes, CreateFusion, Sequence;
    FusionKeeps(risk);
    RoutesExtended(Sequence(Fusion, risk), ReworkSources(Thin, risk), TEST, CODEX);
    assert ReworkSources(Thin, risk) + [TEST] == ReworkSources(Fusion, risk);
  }

  lemma {:induction false} NamesAreNotBlank(kind: Kind, risk: Risk)
    ensures !Blank(Definition(kind, risk).workflowId)
  {
    assert !WhiteSpace(Definition(kind, risk).workflowId[0]);
  }

  lemma {:induction false} TargetIsANode(kind: Kind, risk: Risk)
    ensures Sequence(kind, risk) != []
    ensures (if kind == Direct then PRIMARY_REWORK else CODEX) in Sequence(kind, risk) + Extra(kind)
    ensures kind == Fusion ==> Sequence(kind, risk)[0] == CODEX
    ensures kind == Direct ==> Sequence(kind, risk)[0] == SUBMITTED
  {
    var ids := Sequence(kind, risk);
    if kind == Direct {
      assert (ids + [PRIMARY_REWORK])[|ids|] == PRIMARY_REWORK;
    } else {
      assert ids + [] == ids;
      assert ids[0] == CODEX || ids[1] == CODEX || ids[2] == CODEX || ids[3] == CODEX;
    }
  }

  lemma {:induction false} CatalogBuilt(kind: Kind, risk: Risk)
    ensures BuiltFrom(Definition(kind, risk), kind, Sequence(kind, risk), ReworkSources(kind, risk), Extra(kind))
    ensures Definition(kind, risk).rework.target == if kind == Direct then PRIMARY_REWORK else CODEX
  {
    hide Sequence, ReworkSources, MakeNodes, ChainRoutes, ReworkRoutes, Blank;
    NamesAreNotBlank(kind, risk);
    TargetIsANode(kind, risk);
    assert Sequence(kind, risk) + [] == Sequence(kind, risk);
    if kind == Fusion {
      FusionRoutes(risk);
    }
  }

  lemma {:induction false} MadeNodesAreValid(kind: Kind, id: NodeId)
    ensures ValidNode(MakeNode(kind, id)) && MakeNode(kind, id).nodeId == id
  {
    assert !WhiteSpace("context/v1"[0]) && !WhiteSpace("node-result/v1"[0]);
  }

  lemma {:induction false} BuiltNodes(def: WorkflowDefinition, kind: Kind, all: seq<NodeId>)
    requires def.nodes == MakeNodes(kind, all) && Distinct(all)
    ensures forall i :: 0 <= i < |all| ==> def.HasNode(all[i])
    ensures forall i :: 0 <= i < |def.nodes| ==> ValidNode(def.nodes[i])
    ensures forall i, j :: 0 <= i < j < |def.nodes| ==> def.nodes[i].nodeId != def.nodes[j].nodeId
  {
    forall i | 0 <= i < |all| ensures def.HasNode(all[i]) && ValidNode(def.nodes[i]) {
      MadeNodesAreValid(kind, all[i]);
      assert def.nodes[i].nodeId == all[i];
    }
    forall i, j | 0 <= i < j < |def.nodes| ensures def.nodes[i].nodeId != def.nodes[j].nodeId {
      assert def.nodes[i].nodeId == all[i] && def.nodes[j].nodeId == all[j];
    }
  }

  lemma {:induction false} RoutesAreUnambiguous(ids: seq<NodeId>, sources: seq<NodeId>, target: NodeId,
                                                extra: seq<NodeId>)
    requires GoodLists(ids, sources, extra)
    ensures var routes := ChainRoutes(ids) + ReworkRoutes(sources, target);
            forall i, j :: 0 <= i < j < |routes| ==> !SameEdge(routes[i], routes[j])
  {
    var routes := ChainRoutes(ids) + ReworkRoutes(sources, target);
    forall i, j | 0 <= i < j < |routes| ensures !SameEdge(routes[i], routes[j]) {
      if j < |ids| {
        assert (ids + extra)[i] == ids[i] && (ids + extra)[j] == ids[j];
      } else if i >= |ids| {
        assert sources[i - |ids|] != sources[j - |ids|];
      }
    }
  }

  /** Every target of a chain's success routes is the next node on it, or completion. */
  lemma {:induction false} RouteEnds(def: WorkflowDefinition, ids: seq<NodeId>, sources: seq<NodeId>, i: nat)
    requires i < |ids| + |sources| && forall k :: 0 <= k < |ids| ==> def.HasNode(ids[k])
    requires def.HasNode(def.rework.target) && forall i :: 0 <= i < |sources| ==> sources[i] in ids
    ensures var r := (ChainRoutes(ids) + ReworkRoutes(sources, def.rework.target))[i];
            def.HasNode(r.from) && (r.target == COMPLETE || def.HasNode(r.target))
  {
    if i < |ids| {
      assert def.HasNode(ids[i]) && (i + 1 < |ids| ==> def.HasNode(ids[i + 1]));
    } else {
      assert sources[i - |ids|] in ids;
    }
  }

  lemma {:induction false} BuiltIsValid(def: WorkflowDefinition, kind: Kind, ids: seq<NodeId>, sources: seq<NodeId>,
                                        extra: seq<NodeId>)
    requires BuiltFrom(def, kind, ids, sources, extra) && GoodLists(ids, sources, extra)
    ensures def.Valid() && forall i :: 0 <= i < |ids| ==> def.HasNode(ids[i])
  {
    var all := ids + extra;
    BuiltNodes(def, kind, all);
    forall i | 0 <= i < |ids| ensures def.HasNode(ids[i]) { assert all[i] == ids[i]; }
    forall i | 0 <= i < |def.routes|
      ensures def.HasNode(def.routes[i].from) && (def.routes[i].target == COMPLETE
                                                  || def.HasNode(def.routes[i].target)) {
      RouteEnds(def, ids, sources, i);
    }
    RoutesAreUnambiguous(ids, sources, def.rework.target, extra);
  }

  lemma {:induction false} ChainFollowed(def: WorkflowDefinition, ids: seq<NodeId>, sources: seq<NodeId>,
                                         extra: seq<NodeId>)
    requires def.routes == ChainRoutes(ids) + ReworkRoutes(sources, def.rework.target) && GoodLists(ids, sources, extra)
    ensures forall i :: 0 <= i < |ids| ==> def.Next(ids[i], Succeeded) == Some(Successor(ids, i))
    ensures forall id: NodeId :: def.Next(id, Succeeded).Some? ==> id in ids
    ensures forall i :: 0 <= i < |def.routes| && def.routes[i].outcome.ReworkRequired? ==>
              def.routes[i].target == def.rework.target && def.routes[i].from in sources
  {
    hide GoodLists, FindRoute;
    RoutesAreUnambiguous(ids, sources, def.rework.target, extra);
    forall i | 0 <= i < |ids| ensures def.Next(ids[i], Succeeded) == Some(Successor(ids, i)) {
      RouteFound(def.routes, i);
    }
    forall id: NodeId | def.Next(id, Succeeded).Some? ensures id in ids { OnlyChainSucceeds(def, ids, sources, id); }
  }

  /** A success route starts on the chain. */
  lemma {:induction false} OnlyChainSucceeds(def: WorkflowDefinition, ids: seq<NodeId>, sources: seq<NodeId>,
                                             id: NodeId)
    requires def.routes == ChainRoutes(ids) + ReworkRoutes(sources, def.rework.target) && def.Next(id, Succeeded).Some?
    ensures id in ids
  {
    var r := Route(id, Succeeded, def.Next(id, Succeeded).value);
    var i :| 0 <= i < |def.routes| && def.routes[i] == r;
    assert i < |ids| && ids[i] == id;
  }

  lemma {:induction false} BuiltIsChain(def: WorkflowDefinition, kind: Kind, ids: seq<NodeId>, sources: seq<NodeId>,
                                        extra: seq<NodeId>)
    requires BuiltFrom(def, kind, ids, sources, extra) && GoodLists(ids, sources, extra)
    requires forall id <- REWINDABLE :: id in ids || id == def.rework.target ==> Before(ids, TEST, id)
    requires def.rework.target in ids ==> forall i :: 0 <= i < |sources| ==> Before(ids, def.rework.target, sources[i])
    ensures def.Valid() && ChainShaped(def, ids)
  {
    hide ChainRoutes, ReworkRoutes, MakeNodes, FindRoute;
    BuiltIsValid(def, kind, ids, sources, extra);
    ChainFollowed(def, ids, sources, extra);
    PrefixDistinct(ids, extra);
  }

  lemma {:induction false} PrefixDistinct(ids: seq<NodeId>, extra: seq<NodeId>)
    requires Distinct(ids + extra)
    ensures Distinct(ids)
  {
    assert forall i :: 0 <= i < |ids| ==> (ids + extra)[i] == ids[i];
  }

  /** Every catalog definition passes validation and is a chain in its declared node order. */
  lemma {:induction false} CatalogIsChain(kind: Kind, risk: Risk)
    ensures Definition(kind, risk).Valid()
    ensures ChainShaped(Definition(kind, risk), Sequence(kind, risk))
  {
    hide Sequence, ReworkSources, Definition, BuiltFrom, GoodLists, Extra;
    SequencesAreGood(kind, risk);
    IdsAreDistinct(kind, risk);
    CatalogBuilt(kind, risk);
    forall id <- REWINDABLE | id in Sequence(kind, risk) || id == Definition(kind, risk).rework.target
      ensures Before(Sequence(kind, risk), TEST, id) {
      RewindableAfterTest(kind, risk, id);
    }
    if kind != Direct {
      forall i | 0 <= i < |ReworkSources(kind, risk)|
        ensures Before(Sequence(kind, risk), CODEX, ReworkSources(kind, risk)[i]) {
        ReworkGoesBack(kind, risk, i);
      }
    }
    BuiltIsChain(Definition(kind, risk), kind, Sequence(kind, risk), ReworkSources(kind, risk), Extra(kind));
  }

  // ---- A run's own definition ----

  /** What follows the risk's name in a workflow id, and where that name stands. */
  lemma {:induction false} WorkflowIdParts(kind: Kind, risk: Risk)
    ensures var id, name := Definition(kind, risk).workflowId, RiskName(risk);
            if kind == Direct then id == "DIRECT-" + name + "-v1"
            else id == name + (match kind
                               case Classic => "-v1"
                               case Mvp => "-MVP-v1"
                               case Thin => "-THIN-v2"
                               case _ => "-FUSION-v1")
  {
    hide Sequence, MakeNodes, ChainRoutes, ReworkRoutes, WithoutNode, WithoutFrom, WithoutId;
  }

  /** The characters that tell two workflow ids apart. */
  lemma {:induction false} WorkflowIdMarks(kind: Kind, risk: Risk)
    ensures var id, name := Definition(kind, risk).workflowId, RiskName(risk);
            if kind == Direct then |id| > 7 && id[0] == 'D' && id[7] == name[0]
            else |id| > |name| + 1 && id[0] == name[0]
                 && id[|name| + 1] == (match kind case Classic => 'v' case Mvp => 'M' case Thin => 'T' case _ => 'F')
  {
    hide Definition;
    WorkflowIdParts(kind, risk);
    var id, name := Definition(kind, risk).workflowId, RiskName(risk);
    if kind == Direct {
      assert id == "DIRECT-" + (name + "-v1");
    } else {
      assert id[..|name|] == name;
    }
  }

  /** A workflow id names one definition: a run can only be resumed with the definition it was started on. */
  lemma {:induction false} WorkflowIdNamesDefinition(kind: Kind, risk: Risk, other: Kind, otherRisk: Risk)
    requires Definition(kind, risk).workflowId == Definition(other, otherRisk).workflowId
    ensures kind == other && risk == otherRisk
  {
    hide Definition;
    WorkflowIdMarks(kind, risk);
    WorkflowIdMarks(other, otherRisk);
  }

  // ---- What the definitions guard ----

  /** The node that comes straight after another on a chain. */
  predicate Follows(chain: seq<NodeId>, first: NodeId, second: NodeId) {
    exists i :: 0 <= i < |chain| - 1 && chain[i] == first && chain[i + 1] == second
  }

  lemma {:induction false} FollowsAt(chain: seq<NodeId>, i: nat)
    requires i + 1 < |chain|
    ensures Follows(chain, chain[i], chain[i + 1])
  {
  }

  /** Every node is the one its id stands for in that catalog. */
  lemma {:induction false} NodesAre(kind: Kind, risk: Risk, n: NodeDefinition)
    requires n in Definition(kind, risk).nodes
    ensures n == MakeNode(kind, n.nodeId) && n.nodeId in Sequence(kind, risk) + Extra(kind)
  {
    CatalogBuilt(kind, risk);
    hide Definition, Sequence, Extra;
  }

  lemma {:induction false} AgentsAre(kind: Kind, risk: Risk, id: NodeId)
    requires id in Sequence(kind, risk) + Extra(kind)
    ensures id in {REVIEW, PREPARE, PLAN, ARCHITECTURE} ==> id in AgentNodes(kind)
    ensures id in AgentNodes(kind) ==> id in {REVIEW, PREPARE, PLAN, ARCHITECTURE, GROUNDING}
  {
  }

  /** Only the implementer writes, only the owner's node asks, and no node retries. */
  lemma {:induction false} NodesAreGuarded(kind: Kind, risk: Risk, n: NodeDefinition)
    requires n in Definition(kind, risk).nodes
    ensures n.maxRetries == 0 && n.inputContract == "context/v1" && n.resultContract == "node-result/v1"
    ensures n.sideEffect == if n.nodeId == CODEX then WorkspaceWrite else ReadOnly
    ensures n.kind == (match n.nodeId
                       case CODEX => Codex
                       case HUMAN => Human
                       case REVIEW => Agent
                       case PREPARE => Agent
                       case PLAN => Agent
                       case ARCHITECTURE => Agent
                       case GROUNDING => if kind == Mvp then Agent else Deterministic
                       case _ => Deterministic)
  {
    NodesAre(kind, risk, n);
    AgentsAre(kind, risk, n.nodeId);
    hide Definition, Sequence, Extra;
  }

  /** Which nodes have more than three minutes, and how many. */
  lemma {:induction false} DeadlinesAre(kind: Kind, risk: Risk, n: NodeDefinition)
    requires n in Definition(kind, risk).nodes
    ensures n.timeout > 3 <==> if kind == Classic then n.nodeId == CODEX else if kind == Direct then n.nodeId == REVIEW
                               else n.nodeId !in {TEST, DELIVER, HUMAN}
    ensures n.timeout == 3 || n.timeout == if kind == Classic then 8 else 10
  {
    NodesAre(kind, risk, n);
    hide Definition, Sequence, Extra;
  }

  /** A chain is tested straight after the work, delivered last, and reviewed and approved between as its risk asks. */
  lemma {:induction false} SequenceIsGuarded(kind: Kind, risk: Risk)
    ensures var ids := Sequence(kind, risk);
            && |ids| > 0 && ids[|ids| - 1] == DELIVER
            && Follows(ids, if kind == Direct then SUBMITTED else CODEX, TEST)
            && (REVIEW in ids <==> risk != Fast)
            && (HUMAN in ids <==> risk == Critical && kind != Direct)
            && (HUMAN in ids ==> Follows(ids, REVIEW, HUMAN))
  {
    var ids := Sequence(kind, risk);
    var at := match (kind, risk)
      case (Classic, Standard) => 2
      case (Classic, Critical) => 3
      case (Mvp, Standard) => 2
      case (Mvp, Critical) => 2
      case (Thin, Standard) => 1
      case (Thin, Critical) => 1
      case _ => 0;
    FollowsAt(ids, at);
    hide Follows;
    if risk != Fast { ReviewIsThere(kind, risk); }
  }

  /** The review comes last but delivery and, where there is one, the approval. */
  lemma {:induction false} ReviewIsThere(kind: Kind, risk: Risk)
    requires risk != Fast
    ensures REVIEW in Sequence(kind, risk)
    ensures HUMAN in Sequence(kind, risk) ==> Follows(Sequence(kind, risk), REVIEW, HUMAN)
  {
    var ids := Sequence(kind, risk);
    if risk == Critical && kind != Direct {
      assert ids[|ids| - 3] == REVIEW && ids[|ids| - 2] == HUMAN;
      FollowsAt(ids, |ids| - 3);
    } else {
      assert ids[|ids| - 2] == REVIEW;
    }
    hide Follows;
  }

  lemma {:induction false} PolicyIs(kind: Kind, risk: Risk)
    ensures var def := Definition(kind, risk);
            && def.risk == risk
            && def.version == (if kind == Thin then 2 else 1)
            && def.rework.maxReworks == match kind case Classic => 3 case Direct => 1 case _ => 2
  {
    hide Sequence, MakeNodes, ChainRoutes, ReworkRoutes, WithoutNode, WithoutFrom, WithoutId;
  }

  /** Who may send work back: a review, and the test or the independent verification where the catalog lets them. */
  predicate SendsBack(kind: Kind, risk: Risk, id: NodeId) {
    match id
    case REVIEW => risk != Fast
    case TEST => kind == Direct || kind == Fusion || (kind == Classic && risk != Fast)
    case INDEPENDENT_VERIFY => kind == Classic && risk == Critical
    case _ => false
  }

  lemma {:induction false} SourcesAre(kind: Kind, risk: Risk, id: NodeId)
    ensures id in ReworkSources(kind, risk) <==> SendsBack(kind, risk, id)
  {
    var sources := ReworkSources(kind, risk);
    if SendsBack(kind, risk, id) {
      var i := match (kind, risk)
        case (Classic, Critical) => if id == TEST then 0 else if id == REVIEW then 2 else 1
        case (Fusion, _) => if id == TEST then |sources| - 1 else 0
        case _ => if id == TEST then 0 else |sources| - 1;
      assert sources[i] == id;
    }
  }

  lemma {:induction false} ReworkLeadsBack(kind: Kind, risk: Risk, id: NodeId)
    ensures var def := Definition(kind, risk);
            def.Next(id, ReworkRequired) == if SendsBack(kind, risk, id) then Some(def.rework.target) else None
  {
    CatalogBuilt(kind, risk);
    SourcesAre(kind, risk, id);
    hide Definition, SendsBack, Sequence, ReworkSources, Extra;
    var def, ids, sources := Definition(kind, risk), Sequence(kind, risk), ReworkSources(kind, risk);
    if id in sources {
      var k :| 0 <= k < |sources| && sources[k] == id;
      assert def.routes[|ids| + k] == Route(id, ReworkRequired, def.rework.target);
    }
    assert forall r <- def.routes :: r.outcome.ReworkRequired? ==> r.from in sources && r.target == def.rework.target;
  }

  /** Whatever the risk, the work is tested straight after it was done, and delivered last; it is reviewed unless the
      risk is Fast, and handed to the owner straight after the review exactly when it is Critical. */
  lemma {:induction false} CatalogIsGuarded(kind: Kind, risk: Risk)
    ensures var def := Definition(kind, risk);
            && def.risk == risk && |def.completion| > 0
            && def.completion[|def.completion| - 1] == DELIVER
            && Follows(def.completion, if kind == Direct then SUBMITTED else CODEX, TEST)
            && (REVIEW in def.completion <==> risk != Fast)
            && (HUMAN in def.completion <==> risk == Critical && kind != Direct)
            && (HUMAN in def.completion ==> Follows(def.completion, REVIEW, HUMAN))
            && def.version == (if kind == Thin then 2 else 1)
            && def.rework.maxReworks == match kind case Classic => 3 case Direct => 1 case _ => 2
  {
    CatalogBuilt(kind, risk);
    SequenceIsGuarded(kind, risk);
    PolicyIs(kind, risk);
    hide Definition, Sequence, Follows;
  }
}
