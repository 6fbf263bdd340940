/**
 * The coordinator that commits run and task records step by step.  Each method is tied to the run engine's
 * functions; what those functions keep is proved in RunTheorems, Approvals and WorkBound.
 */
module Coordinator {
  import opened Contracts
  import E = RunEngine

  datatype Answer = Refused | Accepted

  class WorkflowCoordinator {
    const backendId: string
    var runs: map<string, WorkflowRun>
    var tasks: map<string, EngineeringTask>
    var bindings: map<string, WorkflowDefinition>

    /** The run is stored under its own id and its task is stored. */
    ghost predicate Stored(id: string)
      reads this
    {
      id in runs && runs[id].runId == id && runs[id].taskId in tasks
    }

    ghost predicate Bound(id: string)
      reads this
    {
      Stored(id) && id in bindings
    }

    ghost function SessionOf(id: string): E.Session
      reads this
      requires Stored(id)
    {
      E.Session(runs[id], tasks[runs[id].taskId])
    }

    /** Only this run and its task were written. */
    twostate predicate OnlyTouched(id: string)
      reads this
    {
      && bindings == old(bindings) && Stored(id) && id in old(runs) && runs[id].taskId == old(runs)[id].taskId
      && runs == old(runs)[id := runs[id]]
      && tasks == old(tasks)[runs[id].taskId := tasks[runs[id].taskId]]
    }

    constructor (backendId: string)
      ensures runs == map[] && tasks == map[] && bindings == map[] && this.backendId == backendId
    {
      this.backendId := backendId;
      runs, tasks, bindings := map[], map[], map[];
    }

    /** Store the next version of a run that is still at the version it was read at. */
    method Commit(run: WorkflowRun) returns (next: WorkflowRun)
      requires Stored(run.runId) && runs[run.runId].version == run.version && run.taskId == runs[run.runId].taskId
      modifies this`runs
      ensures Stored(run.runId) && next == E.Commit(run) && runs == old(runs)[run.runId := next]
    {
      next := run.(version := run.version + 1);
      runs := runs[run.runId := next];
    }

    /** Every completion condition's node last ended in success. */
    method ConditionsMet(run: WorkflowRun, def: WorkflowDefinition) returns (met: bool)
      ensures met == E.ConditionsMet(def, run.executions)
    {
      hide E.LastSucceeded;
      var i := 0;
      while i < |def.completion|
        invariant 0 <= i <= |def.completion|
        invariant forall k :: 0 <= k < i ==> E.LastSucceeded(run.executions, def.completion[k])
      {
        if !E.LastSucceeded(run.executions, def.completion[i]) { return false; }
        i := i + 1;
      }
      met := true;
    }

    method Advance(run: WorkflowRun, def: WorkflowDefinition, node: NodeId, cancelled: bool, emitted: E.Fault)
      returns (reply: E.Reply)
      requires Bound(run.runId) && runs[run.runId] == run
      modifies this`runs, this`tasks
      ensures Bound(run.runId) && OnlyTouched(run.runId)
      ensures E.Outcome(SessionOf(run.runId), reply)
              == E.Advance(def, old(SessionOf(run.runId)), node, cancelled, emitted)
    {
      hide E.ConditionsMet, FindRoute;
      var next := def.Next(node, Succeeded);
      if next.None? { return E.Threw(false); }
      if next.value == COMPLETE {
        var met := ConditionsMet(run, def);
        if !met { return E.Threw(false); }
        if cancelled { return E.Threw(true); }
        var done := Commit(run.(state := RunState.Completed, currentNode := None, pending := None));
        var task := tasks[done.taskId];
        tasks := tasks[done.taskId := task.(lifecycle := if task.owned then AwaitingAcceptance else Delivered)];
        return E.Ending(emitted, None);
      }
      if cancelled { return E.Threw(true); }
      var _ := Commit(run.(currentNode := next));
      return E.Told(next);
    }

    /** After the record: wait, stop, retry, send back or advance. */
    method Act(run: WorkflowRun, def: WorkflowDefinition, node: NodeDefinition, attempt: int, result: NodeResult,
               a: E.Attempt)
      returns (reply: E.Reply)
      requires Bound(run.runId) && runs[run.runId] == run
      modifies this`runs, this`tasks
      ensures Bound(run.runId) && OnlyTouched(run.runId)
      ensures E.Outcome(SessionOf(run.runId), reply) == E.Act(def, old(SessionOf(run.runId)), node, attempt, result, a)
    {
      if result.outcome.Waiting? {
        if result.request.None? { return E.Threw(false); }
        var request := result.request.value.(runVersion := run.version + 1);
        var _ := Commit(run.(state := RunState.Waiting, pending := Some(request)));
        return E.Ending(a.emitted, None);
      }
      if result.outcome.Failed? || result.outcome.Cancelled? || result.outcome.Interrupted? {
        if E.Retryable(node, attempt, result) { return E.Ending(a.emitted, Some(node.nodeId)); }
        var _ := Commit(run.(state := E.StoppedState(result), failure := E.StoppedFailure(result)));
        return E.Ending(a.emitted, None);
      }
      if result.outcome.ReworkRequired? {
        if def.Next(node.nodeId, ReworkRequired).None? { return E.Threw(false); }
        if run.reworkCount >= def.rework.maxReworks {
          var _ := Commit(run.(state := Blocked, failure := Some(Failure("REWORK_BUDGET", false, NotStarted))));
          return E.Ending(a.emitted, None);
        }
        var sent := Commit(run.(reworkCount := run.reworkCount + 1, currentNode := Some(def.rework.target)));
        return E.Ending(a.emitted, sent.currentNode);
      }
      reply := Advance(run, def, node.nodeId, a.CancelledLate(), a.emitted);
    }

    method Dispatch(id: string, a: E.Attempt) returns (reply: E.Reply)
      requires Bound(id)
      modifies this`runs, this`tasks
      ensures Bound(id) && OnlyTouched(id)
      ensures E.Outcome(SessionOf(id), reply) == E.Dispatch(bindings[id], backendId, old(SessionOf(id)), a)
    {
      var run, def := runs[id], bindings[id];
      if !run.state.Running? || run.currentNode != Some(a.node) || run.backendId != backendId { return E.Threw(false); }
      var node := def.Node(a.node);
      if node.None? { return E.Threw(false); }
      if !a.before.NoFault? { return E.Raise(a.before); }
      var attempt := E.CountOf(run.executions, a.node) + 1;
      var result := E.Settle(node.value, a);
      run := Commit(run.(executions := run.executions + [NodeExecution(a.node, attempt, result)]));
      if !a.recorded.NoFault? { return E.Raise(a.recorded); }
      if a.CancelledAfter() && !result.outcome.Cancelled? && !result.outcome.Interrupted? { return E.Threw(true); }
      reply := Act(run, def, node.value, attempt, result, a);
    }

    /** The handlers around the backend call. */
    method Finish(id: string, e: E.Ended)
      requires Bound(id)
      modifies this`runs, this`tasks
      ensures Bound(id) && OnlyTouched(id) && SessionOf(id) == E.Finish(old(SessionOf(id)), e)
    {
      var current := runs[id];
      if e.threw.NoFault? && !current.state.Running? { return; }
      if e.threw.CancelFault? || e.cancelled {
        if current.state.Completed? || current.state.Cancelled? || current.state.Paused? { return; }
        if current.currentNode.Some? {
          var node := current.currentNode.value;
          var result := NodeResult(if e.pause then Interrupted else NodeOutcome.Cancelled, "node-result/v1",
                                   "Interrupted", [], None, None);
          current := current.(executions := current.executions
            + [NodeExecution(node, E.CountOf(current.executions, node) + 1, result)]);
        }
        var failure := Failure(if e.pause then "STOPPED" else "CANCELLED", false, NotStarted);
        var _ := Commit(current.(state := if e.pause then Paused else RunState.Cancelled, pending := None,
                                 failure := Some(failure)));
      } else {
        var failed := Commit(current.(state := RunState.Failed,
                                      failure := Some(Failure("RUNTIME_ERROR", false, NotStarted))));
        var task := tasks[failed.taskId];
        if task.lifecycle.Delivered? {
          tasks := tasks[failed.taskId := task.(lifecycle := Active)];
        }
      }
    }

    /** Let the backend dispatch as it likes, then settle the run. */
    method Drive(id: string, d: E.Drive)
      requires Bound(id)
      modifies this`runs, this`tasks
      ensures Bound(id) && OnlyTouched(id)
      ensures SessionOf(id) == E.DriveRun(bindings[id], backendId, old(SessionOf(id)), d)
      ensures !runs[id].state.Running?
    {
      hide E.Dispatch, E.Finish, E.Interrupt, E.Break;
      var i := 0;
      while i < |d.attempts|
        invariant 0 <= i <= |d.attempts| && Bound(id) && OnlyTouched(id)
        invariant E.Attempts(bindings[id], backendId, old(SessionOf(id)), d.attempts)
               == E.Attempts(bindings[id], backendId, SessionOf(id), d.attempts[i..])
      {
        var _ := Dispatch(id, d.attempts[i]);
        i := i + 1;
      }
      Finish(id, d.ended);
      E.FinishSettles(E.Attempts(bindings[id], backendId, old(SessionOf(id)), d.attempts), d.ended);
    }

    method Start(taskId: string, def: WorkflowDefinition, workspaceId: string, runId: string, created: E.Fault,
                 started: E.Fault, drive: E.Drive) returns (answer: Answer)
      requires taskId in tasks ==> tasks[taskId].taskId == taskId
      modifies this
      ensures answer.Accepted? <==>
        && def.Valid() && taskId in old(tasks) && runId !in old(runs)
        && old(tasks)[taskId].workspaceId == workspaceId && old(tasks)[taskId].risk == def.risk
        && old(tasks)[taskId].lifecycle !in {Delivered, TaskLifecycle.Cancelled, Done}
        && (forall id <- old(runs) :: old(runs)[id].taskId == taskId ==> !old(runs)[id].Active())
      ensures answer.Refused? ==> runs == old(runs) && tasks == old(tasks) && bindings == old(bindings)
      ensures answer.Accepted? ==>
        && Bound(runId) && bindings == old(bindings)[runId := def] && runs == old(runs)[runId := runs[runId]]
        && SessionOf(runId) == E.Apply(def, backendId, E.NewRun(def, backendId, runId, old(tasks)[taskId]),
                                       E.Launch(created, started, drive))
    {
      hide E.DriveRun, E.Matches, E.SubmitRun;
      if !def.Valid() || taskId !in tasks { return Refused; }
      var task := tasks[taskId];
      if task.workspaceId != workspaceId || task.risk != def.risk
         || task.lifecycle in {Delivered, TaskLifecycle.Cancelled, Done}
         || (exists id <- runs :: runs[id].taskId == taskId && runs[id].Active()) { return Refused; }
      if runId in runs { return Refused; }
      var run := WorkflowRun(runId, taskId, def.workflowId, def.version, backendId, Created, Some(def.entryNode), 0, 0,
                             [], None, None);
      runs, bindings := runs[runId := run], bindings[runId := def];
      tasks := tasks[taskId := task.(lifecycle := Active)];
      answer := Accepted;
      if !created.NoFault? { return; }
      var _ := Commit(run.(state := Running));
      if !started.NoFault? { return; }
      Drive(runId, drive);
    }

    method Resume(id: string, def: WorkflowDefinition, emitted: E.Fault, drive: E.Drive) returns (answer: Answer)
      requires id in runs ==> Stored(id)
      modifies this
      ensures answer.Accepted? <==>
        && id in old(runs) && def.Valid() && (old(runs)[id].state.Blocked? || old(runs)[id].state.Paused?)
        && old(runs)[id].currentNode.Some? && old(runs)[id].workflowId == def.workflowId
        && old(runs)[id].workflowVersion == def.version
      ensures answer.Refused? ==> runs == old(runs) && tasks == old(tasks) && bindings == old(bindings)
      ensures answer.Accepted? ==>
        && Bound(id) && bindings == old(bindings)[id := def] && runs == old(runs)[id := runs[id]]
        && SessionOf(id) == E.Apply(def, backendId, old(SessionOf(id)), E.Event.Resume(emitted, drive))
    {
      hide E.DriveRun, E.Matches, E.SubmitRun;
      if id !in runs { return Refused; }
      var run := runs[id];
      if !(run.state.Blocked? || run.state.Paused?) || run.currentNode.None?
         || run.workflowId != def.workflowId || run.workflowVersion != def.version { return Refused; }
      if !def.Valid() { return Refused; }
      bindings := bindings[id := def];
      var _ := Commit(run.(state := Running, failure := None, pending := None));
      answer := Accepted;
      if !emitted.NoFault? { return; }
      Drive(id, drive);
    }

    method SubmitHuman(id: string, decision: HumanDecision, emitted: E.Fault, cancelled: bool, completed: E.Fault,
                       drive: E.Drive)
      returns (answer: Answer)
      requires Bound(id)
      modifies this`runs, this`tasks
      ensures Bound(id) && OnlyTouched(id)
      ensures answer.Accepted? <==> E.Matches(old(runs)[id], decision)
      ensures SessionOf(id) == E.Apply(bindings[id], backendId, old(SessionOf(id)),
                                       E.Submit(decision, emitted, cancelled, completed, drive))
    {
      hide E.DriveRun, E.Advance;
      var run := runs[id];
      if !E.Matches(run, decision) { return Refused; }
      answer := Accepted;
      var last, node := |run.executions| - 1, run.currentNode.value;
      var result := if decision.approved then Success(decision.reason) else Fail("HUMAN_REJECTED", NotStarted);
      run := Commit(run.(executions := run.executions[last := run.executions[last].(result := result)], pending := None,
                         state := if decision.approved then Running else RunState.Failed, failure := result.failure));
      if !emitted.NoFault? || !decision.approved { return; }
      var reply := Advance(run, bindings[id], node, cancelled, completed);
      if reply.Told? && reply.next.Some? { Drive(id, drive); }
    }
  }
}
