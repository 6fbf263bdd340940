/** Where a human node's success comes from when human nodes only ever ask. */
module Approvals {
  import opened Contracts
  import opened Catalog
  import opened RunEngine
  import opened Honesty
  import opened RunTheorems

  predicate IsHuman(def: WorkflowDefinition, node: NodeId) {
    def.Node(node).Some? && def.Node(node).value.kind.Human?
  }

  /** HumanNodeHandler: whenever a human node's handler answers, it answers with a request. */
  predicate AsksOnly(def: WorkflowDefinition, a: Attempt) {
    IsHuman(def, a.node) && a.reply.Returned? ==> a.reply.result.outcome.Waiting?
  }

  predicate DriveAsks(def: WorkflowDefinition, d: Drive) {
    forall i :: 0 <= i < |d.attempts| ==> AsksOnly(def, d.attempts[i])
  }

  predicate EventAsks(def: WorkflowDefinition, e: Event) {
    match e
    case Launch(_, _, drive) => DriveAsks(def, drive)
    case Resume(_, drive) => DriveAsks(def, drive)
    case Submit(_, _, _, _, drive) => DriveAsks(def, drive)
    case _ => true
  }

  ghost predicate HumanSuccess(def: WorkflowDefinition, executions: seq<NodeExecution>, i: nat) {
    i < |executions| && executions[i].result.outcome.Succeeded? && IsHuman(def, executions[i].nodeId)
  }

  /** Every human success of the later history stands in the earlier one already. */
  ghost predicate NoNewSuccess(def: WorkflowDefinition, a: seq<NodeExecution>, b: seq<NodeExecution>) {
    |a| <= |b| && forall i: nat :: HumanSuccess(def, b, i) ==> i < |a| && a[i] == b[i]
  }

  lemma {:induction false} NoNewTransitively(def: WorkflowDefinition, a: seq<NodeExecution>, b: seq<NodeExecution>,
                                             c: seq<NodeExecution>)
    requires NoNewSuccess(def, a, b) && NoNewSuccess(def, b, c)
    ensures NoNewSuccess(def, a, c)
  {
    forall i: nat | HumanSuccess(def, c, i) ensures i < |a| && a[i] == c[i] {
      assert HumanSuccess(def, b, i);
    }
  }

  lemma {:induction false} DispatchAddsNone(def: WorkflowDefinition, backendId: string, s: Session, a: Attempt)
    requires AsksOnly(def, a)
    ensures NoNewSuccess(def, s.run.executions, Dispatch(def, backendId, s, a).session.run.executions)
  {
    var o := Dispatch(def, backendId, s, a);
    DispatchCases(def, backendId, s, a);
    if o.session != s {
      SettleFacts(def.Node(a.node).value, a);
    }
  }

  lemma {:induction false} AttemptsAddNone(def: WorkflowDefinition, backendId: string, s: Session,
                                           attempts: seq<Attempt>)
    requires forall i :: 0 <= i < |attempts| ==> AsksOnly(def, attempts[i])
    ensures NoNewSuccess(def, s.run.executions, Attempts(def, backendId, s, attempts).run.executions)
    decreases |attempts|
  {
    if attempts != [] {
      var t := Dispatch(def, backendId, s, attempts[0]).session;
      DispatchAddsNone(def, backendId, s, attempts[0]);
      AttemptsAddNone(def, backendId, t, attempts[1..]);
      NoNewTransitively(def, s.run.executions, t.run.executions,
                        Attempts(def, backendId, t, attempts[1..]).run.executions);
    }
  }

  lemma {:induction false} DriveAddsNone(def: WorkflowDefinition, backendId: string, s: Session, d: Drive)
    requires DriveAsks(def, d)
    ensures NoNewSuccess(def, s.run.executions, DriveRun(def, backendId, s, d).run.executions)
  {
    hide Attempts;
    var t := Attempts(def, backendId, s, d.attempts);
    AttemptsAddNone(def, backendId, s, d.attempts);
    assert NoNewSuccess(def, t.run.executions, Finish(t, d.ended).run.executions);
    NoNewTransitively(def, s.run.executions, t.run.executions, Finish(t, d.ended).run.executions);
  }

  /** A human success after a decision was there before, or is the execution this approval settled. */
  lemma {:induction false} SubmitAddsOne(def: WorkflowDefinition, backendId: string, s: Session, e: Event, i: nat)
    requires e.Submit? && EventAsks(def, e) && Matches(s.run, e.decision)
    requires HumanSuccess(def, SubmitRun(def, backendId, s, e).run.executions, i)
    ensures || (HumanSuccess(def, s.run.executions, i))
            || (e.decision.approved && i == |s.run.executions| - 1)
  {
    hide DriveRun;
    var decided := s.(run := Decide(s.run, e.decision));
    if e.emitted.NoFault? && e.decision.approved {
      var o := Advance(def, decided, s.run.currentNode.value, e.cancelled, e.completedEmission);
      assert o.session.run.executions == decided.run.executions;
      if o.reply.Told? && o.reply.next.Some? {
        DriveAddsNone(def, backendId, o.session, e.drive);
      }
    }
    assert HumanSuccess(def, decided.run.executions, i);
  }

  lemma {:induction false} ApplyAddsOne(def: WorkflowDefinition, backendId: string, s: Session, e: Event, i: nat)
    requires EventAsks(def, e) && HumanSuccess(def, Apply(def, backendId, s, e).run.executions, i)
    ensures || HumanSuccess(def, s.run.executions, i)
            || (e.Submit? && e.decision.approved && Matches(s.run, e.decision) && i == |s.run.executions| - 1)
  {
    hide DriveRun, SubmitRun;
    if e.Submit? && Matches(s.run, e.decision) {
      SubmitAddsOne(def, backendId, s, e, i);
    } else if e.Launch? && s.run.state.Created? {
      DriveAddsNone(def, backendId, s.(run := Commit(s.run.(state := Running))), e.drive);
    } else if e.Resume? && (s.run.state.Blocked? || s.run.state.Paused?) && s.run.currentNode.Some? {
      DriveAddsNone(def, backendId, s.(run := Commit(s.run.(state := Running, failure := None, pending := None))),
                    e.drive);
    }
  }

  /** The k-th event approved the request that was then pending, and so settled execution i. */
  ghost predicate ApprovedAt(def: WorkflowDefinition, backendId: string, s: Session, events: seq<Event>, k: nat,
                             i: nat) {
    && k < |events| && events[k].Submit? && events[k].decision.approved
    && Matches(Play(def, backendId, s, events[..k]).run, events[k].decision)
    && i == |Play(def, backendId, s, events[..k]).run.executions| - 1
  }

  /** Every human success in a history was made by one approval of the request pending at that moment. */
  lemma {:induction false} SuccessWasApproved(def: WorkflowDefinition, backendId: string, s: Session,
                                              events: seq<Event>, i: nat) returns (k: nat)
    requires s.run.executions == [] && forall j :: 0 <= j < |events| ==> EventAsks(def, events[j])
    requires HumanSuccess(def, Play(def, backendId, s, events).run.executions, i)
    ensures ApprovedAt(def, backendId, s, events, k, i)
    decreases |events|
  {
    hide Apply, Matches;
    assert events != [];
    var n := |events| - 1;
    var before := Play(def, backendId, s, events[..n]);
    ApplyAddsOne(def, backendId, before, events[n], i);
    if HumanSuccess(def, before.run.executions, i) {
      k := SuccessWasApproved(def, backendId, s, events[..n], i);
      assert events[..n][..k] == events[..k];
    } else {
      k := n;
    }
  }

  lemma {:induction false} HumanIsSecondLast(kind: Kind)
    requires kind != Direct
    ensures |Sequence(kind, Critical)| >= 2 && Sequence(kind, Critical)[|Sequence(kind, Critical)| - 2] == HUMAN
  {
  }

  lemma {:induction false} HumanNodeIsHuman(kind: Kind)
    requires kind != Direct
    ensures IsHuman(Definition(kind, Critical), HUMAN)
  {
    hide MakeNodes, ChainRoutes, ReworkRoutes, Sequence, Definition, ReworkSources;
    var ids := Sequence(kind, Critical);
    CatalogBuilt(kind, Critical);
    HumanIsSecondLast(kind);
    assert ids + Extra(kind) == ids;
    MadeNodeIsFound(kind, ids, |ids| - 2);
  }

  lemma {:induction false} MadeNodeIsFound(kind: Kind, ids: seq<NodeId>, i: nat)
    requires i < |ids|
    ensures FindNode(MakeNodes(kind, ids), ids[i]) == Some(MakeNode(kind, ids[i]))
  {
    var nodes := MakeNodes(kind, ids);
    assert nodes[i].nodeId == ids[i];
  }

  /**
   * A completed Critical run was approved: its last human execution is the one settled by an approval that
   * matched the pending request, and the last review was already in the history at that moment.
   */
  lemma {:induction false} CriticalRunWasApproved(kind: Kind, backendId: string, runId: string, task: EngineeringTask,
                                                  events: seq<Event>)
    returns (k: nat)
    requires kind != Direct && forall j :: 0 <= j < |events| ==> EventAsks(Definition(kind, Critical), events[j])
    requires CatalogRun(kind, Critical, backendId, runId, task, events).run.state.Completed?
    ensures var executions := CatalogRun(kind, Critical, backendId, runId, task, events).run.executions;
            && k < |events| && events[k].Submit? && events[k].decision.approved
            && var asked := CatalogRun(kind, Critical, backendId, runId, task, events[..k]).run;
            && Matches(asked, events[k].decision)
            && LastIndex(executions, HUMAN) == |asked.executions| - 1
            && 0 <= LastIndex(executions, REVIEW) < |asked.executions| - 1
  {
    hide Definition, Play, Matches;
    var def := Definition(kind, Critical);
    var s := NewRun(def, backendId, runId, task);
    var executions := Play(def, backendId, s, events).run.executions;
    CompletedRunWasRetested(kind, Critical, backendId, runId, task, events);
    HumanNodeIsHuman(kind);
    var i := LastIndex(executions, HUMAN);
    assert HumanSuccess(def, executions, i);
    k := SuccessWasApproved(def, backendId, s, events, i);
  }
}
