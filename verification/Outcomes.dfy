/** Why a driven run stopped where it did: its state and its last execution always agree. */
module Outcomes {
  import opened Contracts
  import opened RunEngine
  import H = Honesty

  ghost predicate LastWas(run: WorkflowRun, outcome: NodeOutcome) {
    run.executions != [] && run.executions[|run.executions| - 1].result.outcome == outcome
  }

  /** Paused after an interruption, cancelled after a cancellation, waiting after a request, blocked after exhausted
      rework or an unknown effect, failed after a failure or an error of the runtime. */
  ghost predicate Explained(def: WorkflowDefinition, run: WorkflowRun) {
    match run.state
    case Created => false
    case Running => true
    case Paused => LastWas(run, Interrupted)
    case Cancelled => LastWas(run, NodeOutcome.Cancelled)
    case Waiting => LastWas(run, NodeOutcome.Waiting) && run.pending.Some?
    case Completed => LastWas(run, Succeeded) && ConditionsMet(def, run.executions)
    case Blocked =>
      || (LastWas(run, ReworkRequired) && run.reworkCount >= def.rework.maxReworks
          && run.failure == Some(Failure("REWORK_BUDGET", false, NotStarted)))
      || (LastWas(run, NodeOutcome.Failed) && run.failure.Some? && run.failure.value.effect.Unknown?)
    case Failed =>
      || (LastWas(run, NodeOutcome.Failed) && run.failure == run.executions[|run.executions| - 1].result.failure)
      || (run.failure.Some? && run.failure.value.code == "RUNTIME_ERROR")
  }

  /** ... while the backend is still at work: only a completed run has no current node. */
  ghost predicate Underway(def: WorkflowDefinition, run: WorkflowRun) {
    Explained(def, run) && (!run.state.Completed? ==> run.currentNode.Some?)
  }

  lemma {:induction false} ActIsUnderway(def: WorkflowDefinition, s: Session, node: NodeDefinition, attempt: int,
                                         result: NodeResult, a: Attempt)
    requires s.run.state.Running? && s.run.currentNode.Some? && s.run.executions != []
    requires s.run.executions[|s.run.executions| - 1].result == result
    requires (result.outcome.Failed? ==> result.failure.Some?) && (result.outcome.Waiting? ==> result.request.Some?)
    ensures Underway(def, Act(def, s, node, attempt, result, a).session.run)
  {
  }

  lemma {:induction false} DispatchIsUnderway(def: WorkflowDefinition, backendId: string, s: Session, a: Attempt)
    requires Underway(def, s.run)
    ensures Underway(def, Dispatch(def, backendId, s, a).session.run)
  {
    hide Dispatch, Settle, Act;
    H.DispatchCases(def, backendId, s, a);
    if Dispatch(def, backendId, s, a).session != s {
      var node := def.Node(a.node).value;
      var result := Settle(node, a);
      SettledIsWhole(node, a);
      ActIsUnderway(def, s.(run := Record(s.run, result)), node, CountOf(s.run.executions, a.node) + 1, result, a);
    }
  }

  lemma {:induction false} SettledIsWhole(node: NodeDefinition, a: Attempt)
    ensures Settle(node, a).outcome.Failed? ==> Settle(node, a).failure.Some?
    ensures Settle(node, a).outcome.Waiting? ==> Settle(node, a).request.Some?
  {
  }

  lemma {:induction false} AttemptsAreUnderway(def: WorkflowDefinition, backendId: string, s: Session,
                                               attempts: seq<Attempt>)
    requires Underway(def, s.run)
    ensures Underway(def, Attempts(def, backendId, s, attempts).run)
    decreases |attempts|
  {
    hide Dispatch, Underway;
    if attempts != [] {
      DispatchIsUnderway(def, backendId, s, attempts[0]);
      AttemptsAreUnderway(def, backendId, Dispatch(def, backendId, s, attempts[0]).session, attempts[1..]);
    }
  }

  lemma {:induction false} FinishIsExplained(def: WorkflowDefinition, s: Session, e: Ended)
    requires Underway(def, s.run)
    ensures Explained(def, Finish(s, e).run)
  {
  }

  /** Whatever definition is driven and whatever happens, the run ends in a state its last execution or a runtime error
      explains. */
  lemma {:induction false} DriveIsExplained(def: WorkflowDefinition, backendId: string, s: Session, d: Drive)
    requires s.run.state.Running? && s.run.currentNode.Some?
    ensures Explained(def, DriveRun(def, backendId, s, d).run) && !DriveRun(def, backendId, s, d).run.state.Running?
  {
    hide Attempts;
    AttemptsAreUnderway(def, backendId, s, d.attempts);
    FinishIsExplained(def, Attempts(def, backendId, s, d.attempts), d.ended);
    FinishSettles(Attempts(def, backendId, s, d.attempts), d.ended);
  }

  // ---- Decisions ----

  /** Advancing stands outside the handlers around the backend call: what makes it throw before it commits. */
  predicate AdvanceThrows(def: WorkflowDefinition, run: WorkflowRun, node: NodeId, cancelled: bool) {
    || cancelled || def.Next(node, Succeeded).None?
    || (def.Next(node, Succeeded) == Some(COMPLETE) && !ConditionsMet(def, run.executions))
  }

  /** A decision leaves the run Running exactly when it approves and then its emission fails or advancing throws. */
  lemma {:induction false} DecisionLeavesRunningExactly(def: WorkflowDefinition, backendId: string, s: Session,
                                                        e: Event)
    requires e.Submit? && Matches(s.run, e.decision)
    ensures SubmitRun(def, backendId, s, e).run.state.Running?
            <==> e.decision.approved
                 && (!e.emitted.NoFault?
                     || AdvanceThrows(def, Decide(s.run, e.decision), s.run.currentNode.value, e.cancelled))
  {
    hide ConditionsMet, DriveRun;
    var decided := s.(run := Decide(s.run, e.decision));
    var o := Advance(def, decided, s.run.currentNode.value, e.cancelled, e.completedEmission);
    H.DriveSettles(def, backendId, o.session, e.drive);
  }

  /** One way to get there: an approval that is recorded, and a cancellation seen before the run moves on. */
  lemma {:induction false} CancelledApprovalStaysRunning(def: WorkflowDefinition, backendId: string, s: Session,
                                                         e: Event)
    requires e.Submit? && Matches(s.run, e.decision) && e.decision.approved && e.emitted.NoFault? && e.cancelled
    ensures SubmitRun(def, backendId, s, e).run == Decide(s.run, e.decision)
    ensures SubmitRun(def, backendId, s, e).run.state.Running?
  {
  }
}
