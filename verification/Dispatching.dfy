/** What one dispatch records and where it leaves the run, told from what happened around its handler. */
module Dispatching {
  import opened Contracts
  import opened RunEngine
  import H = Honesty

  // ---- How the handler came back ----

  /** Cancellation was requested before the handler was back, and the handler did not fail on its own. */
  predicate CutShort(a: Attempt) { a.cancelled && !a.reply.ThrewError? }

  /** Without such a request it came back after its deadline, or gave up. */
  predicate Overran(a: Attempt) {
    !a.cancelled && (a.reply.ThrewCancellation? || (a.reply.Returned? && a.expired))
  }

  /** It answered in time, and the answer keeps the result contract of the node. */
  ghost predicate Answered(node: NodeDefinition, a: Attempt) {
    && a.reply.Returned? && !a.cancelled && !a.expired
    && var r := a.reply.result;
    && r.contract == node.resultContract
    && (r.outcome.Failed? ==> r.failure.Some?)
    && (r.outcome.Waiting? <==> r.request.Some?) && (r.outcome.Waiting? ==> node.kind.Human?)
    && (r.outcome.ReworkRequired? ==> Says(r.output))
  }

  /** A failure the coordinator records itself: never retried, and open as to its effect unless the node only reads. */
  ghost predicate FailedWith(node: NodeDefinition, r: NodeResult, code: string) {
    && r.outcome.Failed? && r.request.None? && r.contract == "node-result/v1" && r.output == "" && r.artifacts == []
    && r.failure == Some(Failure(code, false, if node.sideEffect == ReadOnly then NotStarted else Unknown))
  }

  /** What is recorded of the attempt, case by case; every attempt is in exactly one of the four. */
  ghost predicate RecordedAs(node: NodeDefinition, a: Attempt, r: NodeResult) {
    if CutShort(a) then
      && (if a.pause then r.outcome.Interrupted? else r.outcome.Cancelled?)
      && r.failure.None? && r.request.None? && r.contract == "node-result/v1"
      && r.output == (if a.pause then "Interrupted" else "Cancelled")
      && r.artifacts == (if a.reply.Returned? then a.reply.result.artifacts else [])
    else if Overran(a) then FailedWith(node, r, "TIMEOUT")
    else if Answered(node, a) then r == a.reply.result
    else FailedWith(node, r, "INVALID_NODE_RESULT_OR_EXECUTION")
  }

  /** The backend was told to do what it may, and nothing went wrong before the handler was called. */
  ghost predicate Called(def: WorkflowDefinition, backendId: string, s: Session, a: Attempt) {
    && s.run.state.Running? && s.run.currentNode == Some(a.node) && s.run.backendId == backendId
    && def.Node(a.node).Some? && a.before.NoFault?
  }

  /** How many executions of the node there were. */
  ghost function Earlier(executions: seq<NodeExecution>, node: NodeId): set<int> {
    set i | 0 <= i < |executions| && executions[i].nodeId == node
  }

  lemma {:induction false} CountIsNumber(executions: seq<NodeExecution>, node: NodeId)
    ensures CountOf(executions, node) == |Earlier(executions, node)|
  {
    if executions != [] {
      var n := |executions| - 1;
      CountIsNumber(executions[..n], node);
      OneMoreEarlier(executions, node);
    }
  }

  lemma {:induction false} OneMoreEarlier(executions: seq<NodeExecution>, node: NodeId)
    requires executions != []
    ensures var n := |executions| - 1;
            var before := Earlier(executions[..n], node);
            n !in before && Earlier(executions, node) == before + if executions[n].nodeId == node then {n} else {}
  {
  }

  /** A dispatch that calls the handler appends one execution: the node's next attempt, with what the handler's return
      calls for. */
  lemma {:induction false} DispatchRecords(def: WorkflowDefinition, backendId: string, s: Session, a: Attempt)
    requires Called(def, backendId, s, a)
    ensures var t := Dispatch(def, backendId, s, a).session.run;
            && |t.executions| == |s.run.executions| + 1 && t.executions[..|s.run.executions|] == s.run.executions
            && var x := t.executions[|s.run.executions|];
            && x.nodeId == a.node && x.attempt == |Earlier(s.run.executions, a.node)| + 1
            && RecordedAs(def.Node(a.node).value, a, x.result)
  {
    hide Act, CountOf, Settle;
    CountIsNumber(s.run.executions, a.node);
    H.FoundIsItself(def, a.node);
    var node := def.Node(a.node).value;
    var recorded := s.(run := Record(s.run, Settle(node, a)));
    ActRecordsNothing(def, recorded, node, CountOf(s.run.executions, a.node) + 1, Settle(node, a), a);
    SettleRecords(node, a);
  }

  lemma {:induction false} ActRecordsNothing(def: WorkflowDefinition, s: Session, node: NodeDefinition, attempt: int,
                                             result: NodeResult, a: Attempt)
    ensures Act(def, s, node, attempt, result, a).session.run.executions == s.run.executions
  {
  }

  lemma {:induction false} SettleRecords(node: NodeDefinition, a: Attempt)
    ensures RecordedAs(node, a, Settle(node, a))
  {
  }

  // ---- Where the run stands afterwards ----

  /** A cancellation seen after the record stops everything but the two stops themselves. */
  ghost predicate GivesUp(a: Attempt, r: NodeResult) {
    (a.cancelled || a.cancelledAfter) && !r.outcome.Cancelled? && !r.outcome.Interrupted?
  }

  /** A failure the handler calls transient, before any effect, with retries left. */
  ghost predicate TriesAgain(node: NodeDefinition, earlier: nat, r: NodeResult) {
    && r.outcome.Failed? && r.failure.Some? && r.failure.value.retryable && r.failure.value.effect.NotStarted?
    && earlier < node.maxRetries
  }

  /** The node's last execution ended in success. */
  ghost predicate EndedWell(executions: seq<NodeExecution>, node: NodeId) {
    exists k :: 0 <= k < |executions| && executions[k].nodeId == node && executions[k].result.outcome.Succeeded?
                && forall j :: k < j < |executions| ==> executions[j].nodeId != node
  }

  lemma {:induction false} LastIsLast(executions: seq<NodeExecution>, node: NodeId)
    ensures LastSucceeded(executions, node) <==> EndedWell(executions, node)
  {
    if executions != [] {
      var n := |executions| - 1;
      LastIsLast(executions[..n], node);
    }
  }

  /** The success route leads to completion, and every completion condition is met. */
  ghost predicate MayComplete(def: WorkflowDefinition, node: NodeId, executions: seq<NodeExecution>) {
    def.Next(node, Succeeded) == Some(COMPLETE) && forall id <- def.completion :: EndedWell(executions, id)
  }

  lemma {:induction false} ConditionsAre(def: WorkflowDefinition, executions: seq<NodeExecution>)
    ensures ConditionsMet(def, executions) <==> forall id <- def.completion :: EndedWell(executions, id)
  {
    hide LastSucceeded, EndedWell;
    forall i | 0 <= i < |def.completion|
      ensures LastSucceeded(executions, def.completion[i]) <==> EndedWell(executions, def.completion[i]) {
      LastIsLast(executions, def.completion[i]);
    }
  }

  /** What was recorded, and the step that follows it. */
  lemma {:induction false} DispatchActs(def: WorkflowDefinition, backendId: string, s: Session, a: Attempt)
    returns (recorded: Session, node: NodeDefinition, r: NodeResult)
    requires Called(def, backendId, s, a) && a.recorded.NoFault?
    ensures def.Node(a.node) == Some(node) && node.nodeId == a.node
    ensures recorded.task == s.task && recorded.run.executions != []
            && recorded.run == s.run.(version := s.run.version + 1, executions := recorded.run.executions)
            && recorded.run.executions[|recorded.run.executions| - 1].result == r
    ensures Dispatch(def, backendId, s, a)
            == if GivesUp(a, r) then Outcome(recorded, Threw(true))
               else Act(def, recorded, node, |Earlier(s.run.executions, a.node)| + 1, r, a)
    ensures Dispatch(def, backendId, s, a).session.run.executions == recorded.run.executions
    ensures (r.outcome.Failed? ==> r.failure.Some?) && (r.outcome.Waiting? ==> r.request.Some?)
  {
    hide Act, CountOf, Settle;
    H.FoundIsItself(def, a.node);
    node := def.Node(a.node).value;
    r := Settle(node, a);
    recorded := s.(run := Record(s.run, r));
    SettleRecords(node, a);
    CountIsNumber(s.run.executions, a.node);
    ActRecordsNothing(def, recorded, node, CountOf(s.run.executions, a.node) + 1, r, a);
  }

  /** Every state a dispatch can leave, and exactly when it does: `r` is what was recorded, `t` what the run became. */
  ghost predicate EndsAs(def: WorkflowDefinition, s: WorkflowRun, node: NodeDefinition, earlier: nat, a: Attempt,
                         r: NodeResult, t: WorkflowRun) {
    var goes, open := !GivesUp(a, r), r.failure.Some? && r.failure.value.effect.Unknown?;
    var back := r.outcome.ReworkRequired? && def.Next(node.nodeId, ReworkRequired).Some?;
    var over := r.outcome.Failed? && !TriesAgain(node, earlier, r);
    && (t.state.Paused? <==> r.outcome.Interrupted?)
    && (t.state.Cancelled? <==> r.outcome.Cancelled?)
    && (t.state.Waiting? <==> goes && r.outcome.Waiting?)
    && (t.state.Blocked? <==> goes && ((back && s.reworkCount >= def.rework.maxReworks) || (over && open)))
    && (t.state.Failed? <==> goes && over && !open)
    && (t.state.Completed? <==>
          goes && r.outcome.Succeeded? && !a.cancelledLate && MayComplete(def, node.nodeId, t.executions))
    && !t.state.Created?
  }

  lemma {:induction false} ActEnds(def: WorkflowDefinition, s: Session, node: NodeDefinition, earlier: nat,
                                   r: NodeResult, a: Attempt)
    requires s.run.state.Running? && !GivesUp(a, r)
    requires (r.outcome.Failed? ==> r.failure.Some?) && (r.outcome.Waiting? ==> r.request.Some?)
    ensures EndsAs(def, s.run, node, earlier, a, r, Act(def, s, node, earlier + 1, r, a).session.run)
  {
    hide ConditionsMet, EndedWell, FindRoute;
    ConditionsAre(def, s.run.executions);
  }

  lemma {:induction false} DispatchEndsExactly(def: WorkflowDefinition, backendId: string, s: Session, a: Attempt)
    requires Called(def, backendId, s, a) && a.recorded.NoFault?
    ensures var t := Dispatch(def, backendId, s, a).session.run;
            && |t.executions| > 0
            && EndsAs(def, s.run, def.Node(a.node).value, |Earlier(s.run.executions, a.node)|, a,
                      t.executions[|t.executions| - 1].result, t)
  {
    hide Dispatch, Act, EndsAs;
    var recorded, node, r := DispatchActs(def, backendId, s, a);
    var earlier, t := |Earlier(s.run.executions, a.node)|, Dispatch(def, backendId, s, a).session.run;
    if !GivesUp(a, r) { ActEnds(def, recorded, node, earlier, r, a); }
    RecordedEnds(def, s.run, recorded.run, node, earlier, r, a, t);
  }

  lemma {:induction false} RecordedEnds(def: WorkflowDefinition, s: WorkflowRun, recorded: WorkflowRun,
                                        node: NodeDefinition, earlier: nat, r: NodeResult, a: Attempt, t: WorkflowRun)
    requires recorded.reworkCount == s.reworkCount && recorded.state.Running?
    ensures EndsAs(def, recorded, node, earlier, a, r, t) ==> EndsAs(def, s, node, earlier, a, r, t)
    ensures GivesUp(a, r) ==> EndsAs(def, s, node, earlier, a, r, recorded)
  {
  }

  lemma {:induction false} ActLeaves(def: WorkflowDefinition, s: Session, node: NodeDefinition, attempt: int,
                                     r: NodeResult, a: Attempt)
    requires s.run.state.Running?
    ensures Leaves(s.run, Act(def, s, node, attempt, r, a).session.run, r)
  {
  }

  /** What a stopped run says of its failure, and what a waiting one waits for. */
  ghost predicate Leaves(s: WorkflowRun, t: WorkflowRun, r: NodeResult) {
    && (t.state.Paused? ==>
          t.failure == if r.failure.Some? then r.failure else Some(Failure("STOPPED", false, NotStarted)))
    && (t.state.Cancelled? || t.state.Failed? ==> t.failure == r.failure)
    && (t.state.Blocked? ==>
          t.failure == if r.outcome.ReworkRequired? then Some(Failure("REWORK_BUDGET", false, NotStarted))
                       else r.failure)
    && (t.state.Waiting? ==>
          r.request.Some? && t.pending == Some(r.request.value.(runVersion := t.version)) && t.failure == s.failure)
    && (t.state.Completed? ==> t.currentNode.None? && t.pending.None?)
    && (t.state.Running? || t.state.Completed? ==> t.failure == s.failure)
  }

  lemma {:induction false} DispatchLeaves(def: WorkflowDefinition, backendId: string, s: Session, a: Attempt)
    requires Called(def, backendId, s, a) && a.recorded.NoFault?
    ensures var t := Dispatch(def, backendId, s, a).session.run;
            |t.executions| > 0 && Leaves(s.run, t, t.executions[|t.executions| - 1].result)
  {
    hide Dispatch, Act, Leaves;
    var recorded, node, r := DispatchActs(def, backendId, s, a);
    ActLeaves(def, recorded, node, |Earlier(s.run.executions, a.node)| + 1, r, a);
    RecordedLeaves(s.run, recorded.run, Dispatch(def, backendId, s, a).session.run, r);
  }

  lemma {:induction false} RecordedLeaves(s: WorkflowRun, recorded: WorkflowRun, t: WorkflowRun, r: NodeResult)
    requires recorded.state.Running? && s.state.Running? && recorded.failure == s.failure
    ensures Leaves(recorded, t, r) ==> Leaves(s, t, r)
    ensures t == recorded ==> Leaves(s, t, r)
  {
  }

  /** The run stays Running and the backend is told where to go on: along the success route, back to the rework target,
      or once more to the same node. */
  ghost predicate GoesOn(def: WorkflowDefinition, s: WorkflowRun, node: NodeDefinition, earlier: nat, a: Attempt,
                         r: NodeResult, next: NodeId) {
    !GivesUp(a, r) &&
    if r.outcome.Succeeded? then
      !a.cancelledLate && def.Next(node.nodeId, Succeeded) == Some(next) && next != COMPLETE
    else if r.outcome.ReworkRequired? then
      && def.Next(node.nodeId, ReworkRequired).Some? && s.reworkCount < def.rework.maxReworks
      && next == def.rework.target
    else TriesAgain(node, earlier, r) && next == node.nodeId
  }

  /** Going on moves the node and the rework count and nothing else; the backend is told unless the emission fails. */
  ghost predicate WentOn(s: Session, o: Outcome, a: Attempt, r: NodeResult, next: NodeId) {
    && o.session.task == s.task
    && o.session.run == s.run.(currentNode := Some(next), executions := o.session.run.executions,
                               version := o.session.run.version,
                               reworkCount := s.run.reworkCount + if r.outcome.ReworkRequired? then 1 else 0)
    && o.reply == if r.outcome.Succeeded? || a.emitted == NoFault then Told(Some(next))
                  else Threw(a.emitted == CancelFault)
  }

  ghost predicate Named(def: WorkflowDefinition, s: Session, node: NodeDefinition, earlier: nat, a: Attempt,
                        r: NodeResult, o: Outcome) {
    && (forall next :: GoesOn(def, s.run, node, earlier, a, r, next) ==> WentOn(s, o, a, r, next))
    && (o.reply.Told? && o.reply.next.Some? ==> GoesOn(def, s.run, node, earlier, a, r, o.reply.next.value))
    && (o.session.run.currentNode != s.run.currentNode && !o.session.run.state.Completed? ==>
          o.session.run.currentNode.Some? && GoesOn(def, s.run, node, earlier, a, r, o.session.run.currentNode.value))
    && (o.session.run.reworkCount != s.run.reworkCount ==>
          o.session.run.currentNode.Some? && GoesOn(def, s.run, node, earlier, a, r, o.session.run.currentNode.value))
  }

  lemma {:induction false} ActNames(def: WorkflowDefinition, s: Session, node: NodeDefinition, earlier: nat,
                                    r: NodeResult, a: Attempt)
    requires s.run.state.Running? && s.run.currentNode == Some(node.nodeId) && !GivesUp(a, r)
    requires (r.outcome.Failed? ==> r.failure.Some?) && (r.outcome.Waiting? ==> r.request.Some?)
    ensures Named(def, s, node, earlier, a, r, Act(def, s, node, earlier + 1, r, a))
  {
    hide ConditionsMet, FindRoute;
  }

  /** A dispatch names a next node, or moves the run to one, exactly when the run goes on there. */
  lemma {:induction false} DispatchNamesExactly(def: WorkflowDefinition, backendId: string, s: Session, a: Attempt)
    requires Called(def, backendId, s, a) && a.recorded.NoFault?
    ensures var o := Dispatch(def, backendId, s, a);
            && |o.session.run.executions| > 0
            && Named(def, s, def.Node(a.node).value, |Earlier(s.run.executions, a.node)|, a,
                     o.session.run.executions[|o.session.run.executions| - 1].result, o)
  {
    hide Dispatch, Act, Named;
    var recorded, node, r := DispatchActs(def, backendId, s, a);
    var earlier, o := |Earlier(s.run.executions, a.node)|, Dispatch(def, backendId, s, a);
    if !GivesUp(a, r) { ActNames(def, recorded, node, earlier, r, a); }
    RecordedNames(def, s, recorded, node, earlier, r, a, o);
  }

  lemma {:induction false} RecordedNames(def: WorkflowDefinition, s: Session, recorded: Session, node: NodeDefinition,
                                         earlier: nat, r: NodeResult, a: Attempt, o: Outcome)
    requires recorded.task == s.task
    requires recorded.run == s.run.(version := recorded.run.version, executions := recorded.run.executions)
    ensures Named(def, recorded, node, earlier, a, r, o) ==> Named(def, s, node, earlier, a, r, o)
    ensures GivesUp(a, r) && o == Outcome(recorded, Threw(true)) ==> Named(def, s, node, earlier, a, r, o)
  {
    forall next ensures GoesOn(def, s.run, node, earlier, a, r, next)
                        <==> GoesOn(def, recorded.run, node, earlier, a, r, next) {
    }
  }

  /** The run could have moved on when the late cancellation was seen. */
  ghost predicate CancelledLast(def: WorkflowDefinition, node: NodeDefinition, a: Attempt, r: NodeResult,
                                executions: seq<NodeExecution>) {
    && r.outcome.Succeeded? && a.cancelledLate && def.Next(node.nodeId, Succeeded).Some?
    && (def.Next(node.nodeId, Succeeded) == Some(COMPLETE) ==> MayComplete(def, node.nodeId, executions))
  }

  /** What the backend gets back when the run does not go on: nothing to do when the run has stopped, and an exception
      when it has not; the exception is a cancellation exactly when cancellation is why. */
  ghost predicate RepliedWith(def: WorkflowDefinition, node: NodeDefinition, a: Attempt, r: NodeResult, o: Outcome) {
    if !o.session.run.state.Running? then
      o.reply == if a.emitted.NoFault? then Told(None) else Threw(a.emitted == CancelFault)
    else o.reply == Threw(GivesUp(a, r) || CancelledLast(def, node, a, r, o.session.run.executions))
  }

  lemma {:induction false} ActReplies(def: WorkflowDefinition, s: Session, node: NodeDefinition, earlier: nat,
                                      r: NodeResult, a: Attempt)
    requires s.run.state.Running? && !GivesUp(a, r) && forall next :: !GoesOn(def, s.run, node, earlier, a, r, next)
    requires (r.outcome.Failed? ==> r.failure.Some?) && (r.outcome.Waiting? ==> r.request.Some?)
    ensures RepliedWith(def, node, a, r, Act(def, s, node, earlier + 1, r, a))
  {
    hide ConditionsMet, EndedWell, FindRoute;
    ConditionsAre(def, s.run.executions);
    if def.Next(node.nodeId, Succeeded).Some? {
      assert !GoesOn(def, s.run, node, earlier, a, r, def.Next(node.nodeId, Succeeded).value);
    }
    assert !GoesOn(def, s.run, node, earlier, a, r, def.rework.target);
    assert !GoesOn(def, s.run, node, earlier, a, r, node.nodeId);
  }

  lemma {:induction false} DispatchReplies(def: WorkflowDefinition, backendId: string, s: Session, a: Attempt)
    requires Called(def, backendId, s, a) && a.recorded.NoFault?
    ensures var o := Dispatch(def, backendId, s, a);
            && |o.session.run.executions| > 0
            && var node, r := def.Node(a.node).value, o.session.run.executions[|o.session.run.executions| - 1].result;
            (forall next :: !GoesOn(def, s.run, node, |Earlier(s.run.executions, a.node)|, a, r, next))
            ==> RepliedWith(def, node, a, r, o)
  {
    hide Dispatch, Act, GoesOn;
    var recorded, node, r := DispatchActs(def, backendId, s, a);
    var earlier, o := |Earlier(s.run.executions, a.node)|, Dispatch(def, backendId, s, a);
    forall next ensures GoesOn(def, s.run, node, earlier, a, r, next)
                        <==> GoesOn(def, recorded.run, node, earlier, a, r, next) {
      GoesOnAlike(def, s.run, recorded.run, node, earlier, a, r, next);
    }
    if !GivesUp(a, r) && forall next :: !GoesOn(def, s.run, node, earlier, a, r, next) {
      ActReplies(def, recorded, node, earlier, r, a);
    }
  }

  lemma {:induction false} GoesOnAlike(def: WorkflowDefinition, s: WorkflowRun, t: WorkflowRun, node: NodeDefinition,
                                       earlier: nat, a: Attempt, r: NodeResult, next: NodeId)
    requires s.reworkCount == t.reworkCount
    ensures GoesOn(def, s, node, earlier, a, r, next) <==> GoesOn(def, t, node, earlier, a, r, next)
  {
  }

  /** When the emissions around the record fail, the execution is recorded and nothing else happens. */
  lemma {:induction false} FailedRecordStops(def: WorkflowDefinition, backendId: string, s: Session, a: Attempt)
    requires Called(def, backendId, s, a) && !a.recorded.NoFault?
    ensures var o := Dispatch(def, backendId, s, a);
            && o.session == s.(run := s.run.(version := s.run.version + 1, executions := o.session.run.executions))
            && o.reply == Threw(a.recorded == CancelFault)
  {
    hide CountOf, Settle;
  }

  /** Completion hands the task to its owner, or delivers it when it has no conversation; nothing else touches it. */
  lemma {:induction false} DispatchHandsOver(def: WorkflowDefinition, backendId: string, s: Session, a: Attempt)
    requires s.run.state.Running?
    ensures var o := Dispatch(def, backendId, s, a).session;
            o.task == if o.run.state.Completed?
                      then s.task.(lifecycle := if s.task.owned then AwaitingAcceptance else Delivered) else s.task
  {
  }

  /** A dispatch that is not authorized, or that fails before the handler is called, changes nothing and throws. */
  lemma {:induction false} UncalledChangesNothing(def: WorkflowDefinition, backendId: string, s: Session, a: Attempt)
    requires !Called(def, backendId, s, a)
    ensures Dispatch(def, backendId, s, a).session == s
    ensures Dispatch(def, backendId, s, a).reply
            == Threw(a.before == CancelFault && Called(def, backendId, s, a.(before := NoFault)))
  {
  }

  // ---- Where a drive ends ----

  /** The stop a cancellation around the backend call records, unless the run is over or stopped already. */
  ghost predicate StoppedAs(s: Session, t: Session, pause: bool) {
    if s.run.state in {RunState.Completed, RunState.Cancelled, RunState.Paused} then t == s
    else
      && t.task == s.task && t.run.version == s.run.version + 1 && t.run.pending.None?
      && t.run.state == (if pause then Paused else RunState.Cancelled)
      && t.run.failure == Some(Failure(if pause then "STOPPED" else "CANCELLED", false, NotStarted))
      && (s.run.currentNode.None? ==> t.run.executions == s.run.executions)
      && (s.run.currentNode.Some? ==>
            && |t.run.executions| == |s.run.executions| + 1
            && t.run.executions[..|s.run.executions|] == s.run.executions
            && var x := t.run.executions[|s.run.executions|];
            && x.nodeId == s.run.currentNode.value && x.attempt == |Earlier(s.run.executions, x.nodeId)| + 1
            && x.result == NodeResult(if pause then Interrupted else NodeOutcome.Cancelled, "node-result/v1",
                                      "Interrupted", [], None, None))
  }

  /** What a drive makes of the run its attempts left: nothing when the backend returned with the run no longer Running,
      a stop when it was cancelled, and otherwise a failure that takes a delivery back. */
  lemma {:induction false} DriveEndsExactly(def: WorkflowDefinition, backendId: string, s: Session, d: Drive)
    ensures var t, u := Attempts(def, backendId, s, d.attempts), DriveRun(def, backendId, s, d);
            var returned := d.ended.threw.NoFault? && !t.run.state.Running?;
            var cancelled := d.ended.threw.CancelFault? || d.ended.cancelled;
            && (returned ==> u == t)
            && (!returned && cancelled ==> StoppedAs(t, u, d.ended.pause))
            && (!returned && !cancelled ==>
                  && u.run == t.run.(state := RunState.Failed, version := t.run.version + 1,
                                     failure := Some(Failure("RUNTIME_ERROR", false, NotStarted)))
                  && u.task.lifecycle == (if t.task.lifecycle.Delivered? then Active else t.task.lifecycle)
                  && u.task == t.task.(lifecycle := u.task.lifecycle))
  {
    hide CountOf, Attempts;
    var t := Attempts(def, backendId, s, d.attempts);
    if t.run.currentNode.Some? { CountIsNumber(t.run.executions, t.run.currentNode.value); }
  }
}
