/**
 * The run state machine of WorkflowCoordinator as functions on values.  Everything outside the coordinator
 * (handler answers, the backend's choice of nodes, cancellation, pause requests, failing event sinks) is an
 * input of these functions and unconstrained.
 */
module RunEngine {
  import opened Contracts

  /** What one run and its task look like in the stores. */
  datatype Session = Session(run: WorkflowRun, task: EngineeringTask)

  /** What an awaited call outside the coordinator did: returned, threw a cancellation, or threw anything else. */
  datatype Fault = NoFault | CancelFault | ErrorFault

  datatype HandlerReply = Returned(result: NodeResult) | ThrewCancellation | ThrewError

  /** One dispatch attempt of the backend with everything that happens around it. */
  datatype Attempt = Attempt(
    node: NodeId,          // the node the backend asks for
    before: Fault,         // handler lookup, NodeStarted emission, context building
    reply: HandlerReply,
    expired: bool,         // the node deadline passed before the handler was back
    cancelled: bool,       // cancellation was requested before the handler was back
    pause: bool,           // the cancellation is a pause request
    recorded: Fault,       // NodeCompleted, ReviewFinished and BuildFinished emission
    cancelledAfter: bool,  // cancellation was requested by the time of the check after the record
    cancelledLate: bool,   // cancellation was requested by the time Advance checks it
    emitted: Fault)        // the last emission
  {
    predicate CancelledAfter() { cancelled || cancelledAfter }
    predicate CancelledLate() { CancelledAfter() || cancelledLate }
  }

  /** What the backend gets back from a dispatch. */
  datatype Reply = Told(next: Option<NodeId>) | Threw(cancellation: bool)
  datatype Outcome = Outcome(session: Session, reply: Reply)

  function Raise(fault: Fault): Reply
    requires !fault.NoFault?
  {
    Threw(fault.CancelFault?)
  }

  /** The reply of a branch whose last emission may throw after the commit. */
  function Ending(fault: Fault, next: Option<NodeId>): Reply {
    if fault.NoFault? then Told(next) else Raise(fault)
  }

  function Commit(run: WorkflowRun): WorkflowRun { run.(version := run.version + 1) }

  function CountOf(executions: seq<NodeExecution>, node: NodeId): nat {
    if executions == [] then 0
    else CountOf(executions[..|executions| - 1], node) + if executions[|executions| - 1].nodeId == node then 1 else 0
  }

  /** The position of a node's last execution, or -1. */
  function LastIndex(executions: seq<NodeExecution>, node: NodeId): (r: int)
    ensures -1 <= r < |executions|
    ensures r >= 0 ==> executions[r].nodeId == node
  {
    if executions == [] then -1
    else if executions[|executions| - 1].nodeId == node then |executions| - 1
    else LastIndex(executions[..|executions| - 1], node)
  }

  predicate LastSucceeded(executions: seq<NodeExecution>, node: NodeId) {
    LastIndex(executions, node) >= 0 && executions[LastIndex(executions, node)].result.outcome.Succeeded?
  }

  function EffectOf(node: NodeDefinition): EffectStatus {
    if node.sideEffect.ReadOnly? then NotStarted else Unknown
  }

  /** The result recorded for an attempt: cancellation, deadline and contract violations replace the handler's. */
  function Settle(node: NodeDefinition, a: Attempt): NodeResult {
    if a.reply.ThrewCancellation? || (a.reply.Returned? && (a.cancelled || a.expired)) then
      if a.cancelled then
        NodeResult(if a.pause then Interrupted else NodeOutcome.Cancelled, "node-result/v1",
                   if a.pause then "Interrupted" else "Cancelled",
                   if a.reply.Returned? then a.reply.result.artifacts else [], None, None)
      else Fail("TIMEOUT", EffectOf(node))
    else if a.reply.ThrewError? || !a.reply.result.Valid(node) then
      Fail("INVALID_NODE_RESULT_OR_EXECUTION", EffectOf(node))
    else a.reply.result
  }

  function Record(run: WorkflowRun, result: NodeResult): WorkflowRun
    requires run.currentNode.Some?
  {
    var node := run.currentNode.value;
    Commit(run.(executions := run.executions + [NodeExecution(node, CountOf(run.executions, node) + 1, result)]))
  }

  predicate Retryable(node: NodeDefinition, attempt: int, result: NodeResult) {
    && result.outcome.Failed? && result.failure.Some? && result.failure.value.retryable
    && result.failure.value.effect.NotStarted? && attempt <= node.maxRetries
  }

  function StoppedState(result: NodeResult): RunState {
    if result.outcome.Interrupted? then Paused
    else if result.outcome.Cancelled? then RunState.Cancelled
    else if result.failure.Some? && result.failure.value.effect.Unknown? then Blocked
    else RunState.Failed
  }

  function StoppedFailure(result: NodeResult): Option<Failure> {
    if result.failure.Some? then result.failure
    else if result.outcome.Interrupted? then Some(Failure("STOPPED", false, NotStarted)) else None
  }

  predicate ConditionsMet(def: WorkflowDefinition, executions: seq<NodeExecution>) {
    forall i :: 0 <= i < |def.completion| ==> LastSucceeded(executions, def.completion[i])
  }

  /** Leave a node that succeeded: complete the run or move to the next node. */
  function Advance(def: WorkflowDefinition, s: Session, node: NodeId, cancelled: bool, emitted: Fault): Outcome {
    match def.Next(node, Succeeded)
    case None => Outcome(s, Threw(false))
    case Some(next) =>
      if next == COMPLETE && !ConditionsMet(def, s.run.executions) then Outcome(s, Threw(false))
      else if cancelled then Outcome(s, Threw(true))
      else if next == COMPLETE then
        Outcome(Session(Commit(s.run.(state := RunState.Completed, currentNode := None, pending := None)),
                        s.task.(lifecycle := if s.task.owned then AwaitingAcceptance else Delivered)),
                Ending(emitted, None))
      else Outcome(s.(run := Commit(s.run.(currentNode := Some(next)))), Told(Some(next)))
  }

  /** Everything a dispatch does after the execution is recorded, according to its result. */
  function Act(def: WorkflowDefinition, s: Session, node: NodeDefinition, attempt: int, result: NodeResult, a: Attempt)
    : Outcome {
    var run := s.run;
    match result.outcome
    case Waiting =>
      if result.request.None? then Outcome(s, Threw(false))
      else
        var request := result.request.value.(runVersion := run.version + 1);
        Outcome(s.(run := Commit(run.(state := RunState.Waiting, pending := Some(request)))), Ending(a.emitted, None))
    case Succeeded => Advance(def, s, node.nodeId, a.CancelledLate(), a.emitted)
    case ReworkRequired =>
      if def.Next(node.nodeId, ReworkRequired).None? then Outcome(s, Threw(false))
      else if run.reworkCount >= def.rework.maxReworks then
        Outcome(s.(run := Commit(run.(state := Blocked, failure := Some(Failure("REWORK_BUDGET", false, NotStarted))))),
                Ending(a.emitted, None))
      else
        Outcome(s.(run := Commit(run.(reworkCount := run.reworkCount + 1, currentNode := Some(def.rework.target)))),
                Ending(a.emitted, Some(def.rework.target)))
    case _ =>
      if Retryable(node, attempt, result) then Outcome(s, Ending(a.emitted, Some(node.nodeId)))
      else
        Outcome(s.(run := Commit(run.(state := StoppedState(result), failure := StoppedFailure(result)))),
                Ending(a.emitted, None))
  }

  predicate Authorized(s: Session, backendId: string, node: NodeId) {
    s.run.state.Running? && s.run.currentNode == Some(node) && s.run.backendId == backendId
  }

  /** One dispatch: refuse, or run the handler, record its result and act on it. */
  function Dispatch(def: WorkflowDefinition, backendId: string, s: Session, a: Attempt): Outcome {
    if !Authorized(s, backendId, a.node) || def.Node(a.node).None? then Outcome(s, Threw(false))
    else if !a.before.NoFault? then Outcome(s, Raise(a.before))
    else
      var node := def.Node(a.node).value;
      var result := Settle(node, a);
      var recorded := s.(run := Record(s.run, result));
      if !a.recorded.NoFault? then Outcome(recorded, Raise(a.recorded))
      else if a.CancelledAfter() && !result.outcome.Cancelled? && !result.outcome.Interrupted? then
        Outcome(recorded, Threw(true))
      else Act(def, recorded, node, CountOf(s.run.executions, a.node) + 1, result, a)
  }

  /** How the backend call ended, and what the coordinator sees when it handles that. */
  datatype Ended = Ended(
    threw: Fault,     // the backend returned, or what it threw
    cancelled: bool,  // cancellation was requested
    pause: bool)

  /** A backend call: any attempts in any order, whatever earlier attempts told or threw, then its end. */
  datatype Drive = Drive(attempts: seq<Attempt>, ended: Ended)

  function Attempts(def: WorkflowDefinition, backendId: string, s: Session, attempts: seq<Attempt>): Session
    decreases |attempts|
  {
    if attempts == [] then s
    else Attempts(def, backendId, Dispatch(def, backendId, s, attempts[0]).session, attempts[1..])
  }

  /** The cancellation handler around the backend call. */
  function Interrupt(s: Session, pause: bool): Session {
    var run := s.run;
    if run.state.Completed? || run.state.Cancelled? || run.state.Paused? then s
    else
      var result := NodeResult(if pause then Interrupted else NodeOutcome.Cancelled, "node-result/v1", "Interrupted",
                               [], None, None);
      var noted :=
        if run.currentNode.None? then run
        else
          var node := run.currentNode.value;
          run.(executions := run.executions + [NodeExecution(node, CountOf(run.executions, node) + 1, result)]);
      s.(run := Commit(noted.(state := if pause then Paused else RunState.Cancelled, pending := None,
                              failure := Some(Failure(if pause then "STOPPED" else "CANCELLED", false, NotStarted)))))
  }

  /** The handler of every other exception: an observability or backend error never leaves a delivery behind. */
  function Break(s: Session): Session {
    Session(Commit(s.run.(state := RunState.Failed, failure := Some(Failure("RUNTIME_ERROR", false, NotStarted)))),
            if s.task.lifecycle.Delivered? then s.task.(lifecycle := Active) else s.task)
  }

  function Finish(s: Session, e: Ended): Session {
    if e.threw.NoFault? && !s.run.state.Running? then s
    else if e.threw.CancelFault? || e.cancelled then Interrupt(s, e.pause)
    else Break(s)
  }

  /** However the backend call ended, the run is not left Running. */
  lemma {:induction false} FinishSettles(s: Session, e: Ended)
    ensures !Finish(s, e).run.state.Running?
  {
  }

  function DriveRun(def: WorkflowDefinition, backendId: string, s: Session, d: Drive): Session {
    Finish(Attempts(def, backendId, s, d.attempts), d.ended)
  }

  // ---- The public operations and the services' own writes, as events of one run ----

  datatype Event =
    | Launch(created: Fault, started: Fault, drive: Drive)
      // the rest of StartAsync once the run is in the store: TaskCreated, Running, WorkflowStarted, drive
    | Resume(emitted: Fault, drive: Drive)
    | Submit(decision: HumanDecision, emitted: Fault, cancelled: bool, completedEmission: Fault, drive: Drive)
    | Rewind             // WorkbenchService.RequestResume after the build or test command changed
    | Stop               // WorkbenchService.RequestStop with cancel
    | Block(state: RunState, failure: Option<Failure>, clears: bool)
      // the catch block of ProcessAsync, a rejected approval, Direct recovery and restart recovery
    | Reopen(lifecycle: TaskLifecycle)   // any other service writing the task's lifecycle

  predicate Matches(run: WorkflowRun, d: HumanDecision) {
    && run.state.Waiting? && run.pending.Some? && run.pending.value.requestId == d.requestId
    && run.pending.value.scope == d.scope && run.pending.value.runVersion == d.runVersion && !Blank(d.actor)
    && run.executions != [] && run.currentNode.Some?
  }

  /** The commit SubmitHumanAsync makes for a matching decision. */
  function Decide(run: WorkflowRun, d: HumanDecision): WorkflowRun
    requires run.executions != []
  {
    var last := |run.executions| - 1;
    var result := if d.approved then Success(d.reason) else Fail("HUMAN_REJECTED", NotStarted);
    Commit(run.(executions := run.executions[last := run.executions[last].(result := result)], pending := None,
                state := if d.approved then Running else RunState.Failed, failure := result.failure))
  }

  function SubmitRun(def: WorkflowDefinition, backendId: string, s: Session, e: Event): Session
    requires e.Submit? && Matches(s.run, e.decision)
  {
    var decided := s.(run := Decide(s.run, e.decision));
    if !e.emitted.NoFault? || !e.decision.approved then decided
    else
      var o := Advance(def, decided, s.run.currentNode.value, e.cancelled, e.completedEmission);
      if o.reply.Told? && o.reply.next.Some? then DriveRun(def, backendId, o.session, e.drive) else o.session
  }

  predicate MayRewind(run: WorkflowRun) {
    && (run.state.Blocked? || run.state.Paused?) && run.currentNode.Some?
    && run.currentNode.value in {REVIEW, HUMAN, DELIVER} && LastSucceeded(run.executions, TEST)
  }

  predicate MayBlock(run: WorkflowRun, state: RunState) {
    !run.state.Completed? && (state.Blocked? || state.Paused? || state.Cancelled?)
  }

  /** One event; an event whose guard fails changes nothing. */
  function Apply(def: WorkflowDefinition, backendId: string, s: Session, e: Event): Session {
    var run := s.run;
    match e
    case Launch(created, started, drive) =>
      if !run.state.Created? || !created.NoFault? then s
      else
        var running := s.(run := Commit(run.(state := Running)));
        if !started.NoFault? then running else DriveRun(def, backendId, running, drive)
    case Resume(emitted, drive) =>
      if !(run.state.Blocked? || run.state.Paused?) || run.currentNode.None? then s
      else
        var running := s.(run := Commit(run.(state := Running, failure := None, pending := None)));
        if !emitted.NoFault? then running else DriveRun(def, backendId, running, drive)
    case Submit(decision, _, _, _, _) =>
      if Matches(run, decision) then SubmitRun(def, backendId, s, e) else s
    case Rewind =>
      if MayRewind(run) then s.(run := Commit(run.(currentNode := Some(TEST)))) else s
    case Stop =>
      if run.state.Paused? || run.state.Blocked? || run.state.Waiting?
      then s.(run := Commit(run.(state := RunState.Cancelled, pending := None,
                                 failure := Some(Failure("CANCELLED", false, NotStarted)))))
      else s
    case Block(state, failure, clears) =>
      if MayBlock(run, state)
      then s.(run := Commit(run.(state := state, failure := if failure.Some? then failure else run.failure,
                                 pending := if clears then None else run.pending)))
      else s
    case Reopen(lifecycle) =>
      if lifecycle.Delivered? then s else s.(task := s.task.(lifecycle := lifecycle))
  }

  function Play(def: WorkflowDefinition, backendId: string, s: Session, events: seq<Event>): Session {
    if events == [] then s
    else Apply(def, backendId, Play(def, backendId, s, events[..|events| - 1]), events[|events| - 1])
  }

  /** What StartAsync puts in the stores first. */
  function NewRun(def: WorkflowDefinition, backendId: string, runId: string, task: EngineeringTask): Session {
    Session(WorkflowRun(runId, task.taskId, def.workflowId, def.version, backendId, Created, Some(def.entryNode), 0, 0,
                        [], None, None),
            task.(lifecycle := Active))
  }
}
