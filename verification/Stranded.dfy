/** A history of a shipped workflow in which a decision leaves the run Running although nothing drives it. */
module Stranded {
  import opened Contracts
  import opened Catalog
  import opened RunEngine
  import opened Endless
  import A = Approvals
  import H = Honesty
  import O = Outcomes
  import T = RunTheorems

  /** On a chain, following the success routes visits it in order. */
  lemma {:induction false} WalkOnChain(def: WorkflowDefinition, chain: seq<NodeId>, k: nat)
    requires ChainShaped(def, chain) && k < |chain|
    ensures Walk(def, def.entryNode, k) == Some(chain[k])
    decreases k
  {
    hide Walk, ChainShaped;
    ChainFollows(def, chain);
    WalkNone(def, def.entryNode);
    if k > 0 {
      WalkOnChain(def, chain, k - 1);
      WalkOn(def, def.entryNode, k - 1, 1);
      WalkOne(def, chain[k - 1]);
      assert def.Next(chain[k - 1], Succeeded) == Some(Successor(chain, k - 1));
    }
  }

  lemma {:induction false} ChainFollows(def: WorkflowDefinition, chain: seq<NodeId>)
    requires ChainShaped(def, chain)
    ensures chain != [] && def.entryNode == chain[0]
    ensures forall i :: 0 <= i < |chain| ==>
              def.Next(chain[i], Succeeded) == Some(Successor(chain, i)) && chain[i] != COMPLETE
  {
    hide Successor, FindRoute;
  }

  lemma {:induction false} WalkNone(def: WorkflowDefinition, node: NodeId)
    ensures Walk(def, node, 0) == Some(node)
  {
  }

  /** Letting every handler on the way succeed brings the run to any node of the way. */
  lemma {:induction false} DrivenTo(def: WorkflowDefinition, backendId: string, s: Session, node: NodeId, k: nat)
    returns (attempts: seq<Attempt>)
    requires def.Valid() && def.HasNode(node) && At(s, backendId, node) && Walk(def, node, k).Some?
    ensures At(Attempts(def, backendId, s, attempts), backendId, Walk(def, node, k).value)
    decreases k
  {
    hide WorkflowDefinition.Valid, WorkflowDefinition.HasNode, Dispatch;
    if k == 0 {
      attempts := [];
    } else {
      NodeIsFound(def, node);
      ShorterWalks(def, node, 1, k);
      WalkOn(def, node, 1, k - 1);
      WalkStaysInside(def, node, 1);
      SucceedingStep(def, backendId, s, node);
      var a := Succeeding(def, node);
      var rest := DrivenTo(def, backendId, Dispatch(def, backendId, s, a).session, Walk(def, node, 1).value, k - 1);
      attempts := [a] + rest;
      assert attempts[0] == a && attempts[1..] == rest;
    }
  }

  /** A human node's handler asks, and nothing goes wrong around it. */
  function Asking(def: WorkflowDefinition, node: NodeId): Attempt
    requires def.Node(node).Some?
  {
    Attempt(node, NoFault,
            Returned(NodeResult(NodeOutcome.Waiting, def.Node(node).value.resultContract, "", [], None,
                                Some(HumanRequest("request", "scope", 0)))),
            false, false, false, NoFault, false, false, NoFault)
  }

  /** The owner approves what this run waits for. */
  function Approving(run: WorkflowRun): HumanDecision {
    HumanDecision("request", "scope", run.version, "owner", true, "approved")
  }

  lemma {:induction false} AskingWaits(def: WorkflowDefinition, backendId: string, s: Session, node: NodeId)
    requires At(s, backendId, node) && def.Node(node).Some? && def.Node(node).value.kind.Human?
    ensures var t := Dispatch(def, backendId, s, Asking(def, node)).session;
            t.run.state.Waiting? && Matches(t.run, Approving(t.run))
  {
    hide FindNode;
    assert !WhiteSpace("owner"[0]);
    assert Settle(def.Node(node).value, Asking(def, node)) == Asking(def, node).reply.result;
  }

  lemma {:induction false} AttemptsInTwo(def: WorkflowDefinition, backendId: string, s: Session, first: seq<Attempt>,
                                         last: Attempt)
    ensures Attempts(def, backendId, s, first + [last])
            == Dispatch(def, backendId, Attempts(def, backendId, s, first), last).session
    decreases |first|
  {
    hide Dispatch;
    if first == [] {
      assert (first + [last])[1..] == [];
    } else {
      AttemptsInTwo(def, backendId, Dispatch(def, backendId, s, first[0]).session, first[1..], last);
      assert (first + [last])[0] == first[0] && (first + [last])[1..] == first[1..] + [last];
    }
  }

  /** The history: every node before the human one succeeds, the human one asks, and the owner's approval is recorded
      just before a cancellation is seen. */
  function History(attempts: seq<Attempt>, decision: HumanDecision): seq<Event> {
    [Asked(attempts), Submit(decision, NoFault, true, NoFault, Drive([], Ended(NoFault, false, false)))]
  }

  function Asked(attempts: seq<Attempt>): Event {
    Launch(NoFault, NoFault, Drive(attempts, Ended(NoFault, false, false)))
  }

  /** From its start, every Critical workflow with a human node can be left Running: no drive is under way, and the run
      has no later event of its own to end it. */
  lemma {:induction false} ApprovedRunIsStranded(kind: Kind, backendId: string, runId: string, task: EngineeringTask)
    returns (attempts: seq<Attempt>, decision: HumanDecision)
    requires kind != Direct
    ensures T.CatalogRun(kind, Critical, backendId, runId, task, History(attempts, decision)).run.state.Running?
    ensures decision.approved
  {
    hide Definition, Sequence, Play, Apply, Attempts, Dispatch, Walk, Decide, ChainShaped, Matches;
    var def, chain := Definition(kind, Critical), Sequence(kind, Critical);
    CatalogIsChain(kind, Critical);
    A.HumanIsSecondLast(kind);
    A.HumanNodeIsHuman(kind);
    var k := |chain| - 2;
    WalkOnChain(def, chain, k);
    var created := NewRun(def, backendId, runId, task);
    var running := created.(run := Commit(created.run.(state := RunState.Running)));
    EntryIsNode(def);
    var before := DrivenTo(def, backendId, running, def.entryNode, k);
    var asking := Asking(def, HUMAN);
    attempts := before + [asking];
    var there := Attempts(def, backendId, running, before);
    AskingWaits(def, backendId, there, HUMAN);
    AttemptsInTwo(def, backendId, running, before, asking);
    var waiting := Attempts(def, backendId, running, attempts);
    LaunchIsDrive(def, backendId, created, attempts);
    decision := Approving(waiting.run);
    var e := History(attempts, decision)[1];
    O.CancelledApprovalStaysRunning(def, backendId, waiting, e);
    SubmitIsApplied(def, backendId, waiting, e);
    PlayTwo(def, backendId, created, History(attempts, decision));
  }

  lemma {:induction false} EntryIsNode(def: WorkflowDefinition)
    requires def.Valid()
    ensures def.HasNode(def.entryNode)
  {
  }

  /** A launch whose backend call returns with the run no longer Running leaves what the attempts left. */
  lemma {:induction false} LaunchIsDrive(def: WorkflowDefinition, backendId: string, s: Session, attempts: seq<Attempt>)
    requires s.run.state.Created?
    requires var running := s.(run := Commit(s.run.(state := RunState.Running)));
             !Attempts(def, backendId, running, attempts).run.state.Running?
    ensures var running := s.(run := Commit(s.run.(state := RunState.Running)));
            Apply(def, backendId, s, Asked(attempts)) == Attempts(def, backendId, running, attempts)
  {
    hide Attempts;
  }

  lemma {:induction false} SubmitIsApplied(def: WorkflowDefinition, backendId: string, s: Session, e: Event)
    requires e.Submit? && Matches(s.run, e.decision)
    ensures Apply(def, backendId, s, e) == SubmitRun(def, backendId, s, e)
  {
    hide SubmitRun, Matches;
  }

  lemma {:induction false} PlayTwo(def: WorkflowDefinition, backendId: string, s: Session, events: seq<Event>)
    requires |events| == 2
    ensures Play(def, backendId, s, events) == Apply(def, backendId, Apply(def, backendId, s, events[0]), events[1])
  {
    hide Apply;
    assert events[..1][..0] == [] && events[..1][0] == events[0];
    assert Play(def, backendId, s, []) == s;
    assert Play(def, backendId, s, events[..1]) == Apply(def, backendId, s, events[0]);
  }
}
