/** What starting, resuming, deciding, rewinding and the services' own writes do to a run, and when they do nothing. */
module RunEvents {
  import opened Contracts
  import opened RunEngine
  import D = Dispatching

  /** A new run stands at the entry node with nothing done, under the backend that will drive it. */
  lemma {:induction false} NewRunStandsAtEntry(def: WorkflowDefinition, backendId: string, runId: string,
                                               task: EngineeringTask)
    ensures var s := NewRun(def, backendId, runId, task);
            && s.run.runId == runId && s.run.taskId == task.taskId && s.run.backendId == backendId
            && s.run.workflowId == def.workflowId && s.run.workflowVersion == def.version
            && s.run.state == RunState.Created && s.run.currentNode == Some(def.entryNode) && s.run.executions == []
            && s.run.reworkCount == 0 == s.run.version && s.run.pending == None && s.run.failure == None
            && s.task.lifecycle == Active && task == s.task.(lifecycle := task.lifecycle)
  {
  }

  /** A run is set going under the next version, and driven unless the emission that tells of it fails. */
  ghost predicate SetGoing(def: WorkflowDefinition, backendId: string, s: Session, t: Session, failure: Option<Failure>,
                           pending: Option<HumanRequest>, emitted: Fault, d: Drive) {
    var going := s.(run := s.run.(state := RunState.Running, version := s.run.version + 1, failure := failure,
                                  pending := pending));
    t == if emitted == NoFault then DriveRun(def, backendId, going, d) else going
  }

  /** Only a created run is launched, and only when its creation could be told. */
  lemma {:induction false} LaunchIsExact(def: WorkflowDefinition, backendId: string, s: Session, created: Fault,
                                         started: Fault, d: Drive)
    ensures var t := Apply(def, backendId, s, Launch(created, started, d));
            if s.run.state == RunState.Created && created == NoFault
            then SetGoing(def, backendId, s, t, s.run.failure, s.run.pending, started, d) else t == s
  {
    hide DriveRun;
  }

  /** Only a run that is blocked or paused somewhere is resumed, and what stopped it is forgotten. */
  lemma {:induction false} ResumeIsExact(def: WorkflowDefinition, backendId: string, s: Session, emitted: Fault,
                                         d: Drive)
    ensures var t := Apply(def, backendId, s, Resume(emitted, d));
            if (s.run.state == RunState.Blocked || s.run.state == RunState.Paused) && s.run.currentNode != None
            then SetGoing(def, backendId, s, t, None, None, emitted, d) else t == s
  {
    hide DriveRun;
  }

  /** The decision is about the request the run waits for, in its scope and at its version, and says who made it. */
  ghost predicate Answers(run: WorkflowRun, d: HumanDecision) {
    && run.state == RunState.Waiting && run.currentNode != None && run.executions != []
    && run.pending == Some(HumanRequest(d.requestId, d.scope, d.runVersion))
    && Says(d.actor)
  }

  /** The waiting execution becomes what was decided and keeps its attempt; the run goes on when it was approved and has
      failed when it was not. */
  ghost predicate Settled(s: Session, t: Session, d: HumanDecision)
    requires s.run.executions != []
  {
    var n := |s.run.executions| - 1;
    && t.task == s.task && |t.run.executions| == n + 1 && t.run.executions[..n] == s.run.executions[..n]
    && var r := t.run.executions[n].result;
    && t.run.executions[n] == s.run.executions[n].(result := r)
    && r.contract == "node-result/v1" && r.artifacts == [] && r.request == None
    && (if d.approved then r.outcome.Succeeded? && r.output == d.reason && r.failure == None
        else r.outcome.Failed? && r.output == "" && r.failure == Some(Failure("HUMAN_REJECTED", false, NotStarted)))
    && t.run == s.run.(executions := t.run.executions, pending := None, failure := r.failure,
                       version := s.run.version + 1,
                       state := if d.approved then RunState.Running else RunState.Failed)
  }

  /** A decision that answers is recorded; when it approves and that could be told, the run leaves the node as after a
      success, and is driven when it went on to another.  Any other decision changes nothing. */
  lemma {:induction false} DecisionIsExact(def: WorkflowDefinition, backendId: string, s: Session, e: Event)
    requires e.Submit?
    ensures var t := Apply(def, backendId, s, e);
            if Answers(s.run, e.decision) then
              exists u :: Settled(s, u, e.decision)
                && if e.decision.approved && e.emitted == NoFault then
                     var o := Advance(def, u, s.run.currentNode.value, e.cancelled, e.completedEmission);
                     t == if o.reply.Told? && o.reply.next != None then DriveRun(def, backendId, o.session, e.drive)
                          else o.session
                   else t == u
            else t == s
  {
    hide Advance, DriveRun;
    MatchesAnswers(s.run, e.decision);
    if Answers(s.run, e.decision) { assert Settled(s, s.(run := Decide(s.run, e.decision)), e.decision); }
  }

  lemma {:induction false} MatchesAnswers(run: WorkflowRun, d: HumanDecision)
    ensures Matches(run, d) <==> Answers(run, d)
  {
    hide WhiteSpace;
  }

  /** Advancing from a node: nothing but an exception when there is nowhere to go, completion is not earned yet, or
      cancellation was requested; then the next node, or completion. */
  lemma {:induction false} AdvanceIsExact(def: WorkflowDefinition, s: Session, node: NodeId, cancelled: bool,
                                          emitted: Fault)
    ensures var o := Advance(def, s, node, cancelled, emitted);
            var next := def.Next(node, Succeeded);
            var earned := D.MayComplete(def, node, s.run.executions);
            if next == None || (next == Some(COMPLETE) && !earned) then o == Outcome(s, Threw(false))
            else if cancelled then o == Outcome(s, Threw(true))
            else if next == Some(COMPLETE) then
              && o.session.run == s.run.(state := RunState.Completed, currentNode := None, pending := None,
                                         version := s.run.version + 1)
              && o.session.task == s.task.(lifecycle := if s.task.owned then AwaitingAcceptance else Delivered)
              && o.reply == if emitted == NoFault then Told(None) else Threw(emitted == CancelFault)
            else
              && o.session == s.(run := s.run.(currentNode := next, version := s.run.version + 1))
              && o.reply == Told(next)
  {
    hide ConditionsMet, D.EndedWell;
    D.ConditionsAre(def, s.run.executions);
  }

  /** A run that stands still after a good test, at a node past it, goes back to the test. */
  lemma {:induction false} RewindIsExact(def: WorkflowDefinition, backendId: string, s: Session)
    ensures Apply(def, backendId, s, Rewind)
            == if (s.run.state == RunState.Blocked || s.run.state == RunState.Paused)
                  && (s.run.currentNode == Some(REVIEW) || s.run.currentNode == Some(HUMAN)
                      || s.run.currentNode == Some(DELIVER)) && D.EndedWell(s.run.executions, TEST)
               then s.(run := s.run.(currentNode := Some(TEST), version := s.run.version + 1)) else s
  {
    hide LastSucceeded;
    D.LastIsLast(s.run.executions, TEST);
  }

  /** A stop cancels a run that stands still or waits. */
  lemma {:induction false} StopIsExact(def: WorkflowDefinition, backendId: string, s: Session)
    ensures Apply(def, backendId, s, Stop)
            == if s.run.state == RunState.Paused || s.run.state == RunState.Blocked || s.run.state == RunState.Waiting
               then s.(run := s.run.(state := RunState.Cancelled, pending := None, version := s.run.version + 1,
                                     failure := Some(Failure("CANCELLED", false, NotStarted)))) else s
  {
  }

  /** A service's write blocks, pauses or cancels a run that is not completed, and names the failure if there is one. */
  lemma {:induction false} BlockIsExact(def: WorkflowDefinition, backendId: string, s: Session, state: RunState,
                                        failure: Option<Failure>, clears: bool)
    ensures Apply(def, backendId, s, Block(state, failure, clears))
            == if s.run.state != RunState.Completed
                  && (state == RunState.Blocked || state == RunState.Paused || state == RunState.Cancelled)
               then s.(run := s.run.(state := state, version := s.run.version + 1,
                                     failure := if failure == None then s.run.failure else failure,
                                     pending := if clears then None else s.run.pending)) else s
  {
  }

  /** No service delivers a task. */
  lemma {:induction false} ReopenIsExact(def: WorkflowDefinition, backendId: string, s: Session,
                                         lifecycle: TaskLifecycle)
    ensures Apply(def, backendId, s, Reopen(lifecycle))
            == if lifecycle == Delivered then s else s.(task := s.task.(lifecycle := lifecycle))
  {
  }
}
