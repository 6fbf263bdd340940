/** The honest history of every run, on any definition: what holds whatever its routes look like. */
module Honesty {
  import opened Contracts
  import opened RunEngine

  // ---- Executions ----

  /** Every attempt number is the count of that node's executions up to and including it. */
  ghost predicate Numbered(executions: seq<NodeExecution>) {
    forall i :: 0 <= i < |executions| ==> executions[i].attempt == CountOf(executions[..i + 1], executions[i].nodeId)
  }

  lemma {:induction false} Appended(executions: seq<NodeExecution>, x: NodeExecution, node: NodeId)
    ensures LastIndex(executions + [x], node) == if x.nodeId == node then |executions| else LastIndex(executions, node)
    ensures CountOf(executions + [x], node) == CountOf(executions, node) + if x.nodeId == node then 1 else 0
  {
    assert (executions + [x])[..|executions|] == executions;
  }

  lemma {:induction false} NumberedExtended(executions: seq<NodeExecution>, node: NodeId, result: NodeResult)
    requires Numbered(executions)
    ensures Numbered(executions + [NodeExecution(node, CountOf(executions, node) + 1, result)])
  {
    var x := NodeExecution(node, CountOf(executions, node) + 1, result);
    var all := executions + [x];
    Appended(executions, x, node);
    forall i | 0 <= i < |all| ensures all[i].attempt == CountOf(all[..i + 1], all[i].nodeId) {
      if i < |executions| {
        assert all[..i + 1] == executions[..i + 1];
      } else {
        assert all[..i + 1] == all;
      }
    }
  }

  /** Replacing the result of the last execution moves no position and no count. */
  lemma {:induction false} Settled(executions: seq<NodeExecution>, result: NodeResult, node: NodeId)
    requires executions != []
    ensures var last := |executions| - 1;
            var settled := executions[last := executions[last].(result := result)];
            && LastIndex(settled, node) == LastIndex(executions, node)
            && CountOf(settled, node) == CountOf(executions, node)
  {
    var last := |executions| - 1;
    var settled := executions[last := executions[last].(result := result)];
    assert settled[..last] == executions[..last];
  }

  lemma {:induction false} NumberedSettled(executions: seq<NodeExecution>, result: NodeResult)
    requires executions != [] && Numbered(executions)
    ensures Numbered(executions[|executions| - 1 := executions[|executions| - 1].(result := result)])
  {
    var last := |executions| - 1;
    var settled := executions[last := executions[last].(result := result)];
    forall i | 0 <= i < |settled| ensures settled[i].attempt == CountOf(settled[..i + 1], settled[i].nodeId) {
      if i < last {
        assert settled[..i + 1] == executions[..i + 1];
      } else {
        assert settled[..i + 1] == settled && executions[..i + 1] == executions;
        Settled(executions, result, executions[last].nodeId);
      }
    }
  }

  // ---- The invariant ----

  /** A waiting run waits at its current human node, for a decision on exactly this version. */
  ghost predicate WaitsProperly(def: WorkflowDefinition, run: WorkflowRun) {
    run.state.Waiting? ==>
      && run.currentNode.Some? && run.executions != []
      && var last := run.executions[|run.executions| - 1];
      && last.nodeId == run.currentNode.value && last.result.outcome.Waiting?
      && def.Node(last.nodeId).Some? && def.Node(last.nodeId).value.kind.Human?
      && run.pending.Some? && run.pending.value.runVersion == run.version
  }

  /** Attempt numbers are counts, rework stays within its limit, a waiting run waits properly, a run that can go on has
      a node to go on from, and only a completed run's task is delivered. */
  ghost predicate Honest(def: WorkflowDefinition, s: Session) {
    && Numbered(s.run.executions)
    && 0 <= s.run.reworkCount <= def.rework.maxReworks
    && WaitsProperly(def, s.run)
    && (s.run.state.Running? || s.run.state.Created? ==> s.run.currentNode.Some?)
    && (s.task.lifecycle.Delivered? ==> s.run.state.Completed?)
  }

  /** The entry a waiting execution may turn into when a decision settles it. */
  ghost predicate SettledEntry(a: NodeExecution, b: NodeExecution) {
    a.result.outcome.Waiting? && !b.result.outcome.Waiting? && b.nodeId == a.nodeId && b.attempt == a.attempt
  }

  /** Versions and rework only go up; history only grows, except that a waiting last entry may be settled. */
  ghost predicate Grows(a: WorkflowRun, b: WorkflowRun) {
    && a.version <= b.version && a.reworkCount <= b.reworkCount
    && |a.executions| <= |b.executions|
    && (forall i :: 0 <= i < |a.executions| - 1 ==> b.executions[i] == a.executions[i])
    && (a.executions != [] ==>
          var last := |a.executions| - 1;
          b.executions[last] == a.executions[last] || SettledEntry(a.executions[last], b.executions[last]))
    && (a.version == b.version ==> a == b)
  }

  lemma {:induction false} GrowsTransitively(a: WorkflowRun, b: WorkflowRun, c: WorkflowRun)
    requires Grows(a, b) && Grows(b, c)
    ensures Grows(a, c)
  {
  }

  lemma {:induction false} GrowsReflexively(a: WorkflowRun)
    ensures Grows(a, a)
  {
  }

  /** The next state is honest and only added to the run. */
  ghost predicate StaysHonest(def: WorkflowDefinition, s: Session, t: Session) {
    Honest(def, t) && Grows(s.run, t.run)
  }

  // ---- Each commit ----

  /** A recorded execution is the run's last one, for its current node, and moves the run nowhere. */
  ghost predicate JustRecorded(s: Session, t: Session, node: NodeId, result: NodeResult) {
    && t.task == s.task && t.run.state == s.run.state && t.run.currentNode == s.run.currentNode == Some(node)
    && t.run.executions != [] && t.run.executions[|t.run.executions| - 1].nodeId == node
    && t.run.executions[|t.run.executions| - 1].result == result
  }

  lemma {:induction false} HonestRecord(def: WorkflowDefinition, s: Session, node: NodeId, result: NodeResult)
    requires Honest(def, s) && s.run.state.Running? && s.run.currentNode == Some(node)
    ensures StaysHonest(def, s, s.(run := Record(s.run, result)))
    ensures JustRecorded(s, s.(run := Record(s.run, result)), node, result)
  {
    hide Numbered, CountOf;
    NumberedExtended(s.run.executions, node, result);
  }

  lemma {:induction false} HonestAdvance(def: WorkflowDefinition, s: Session, node: NodeId, cancelled: bool,
                                         emitted: Fault)
    requires Honest(def, s) && s.run.state.Running?
    ensures StaysHonest(def, s, Advance(def, s, node, cancelled, emitted).session)
  {
    hide Numbered, ConditionsMet, FindRoute;
  }

  lemma {:induction false} HonestAct(def: WorkflowDefinition, s: Session, node: NodeDefinition, attempt: int,
                                     result: NodeResult, a: Attempt)
    requires Honest(def, s) && s.run.state.Running? && def.Node(node.nodeId) == Some(node)
    requires JustRecorded(s, s, node.nodeId, result) && (result.outcome.Waiting? ==> node.kind.Human?)
    ensures StaysHonest(def, s, Act(def, s, node, attempt, result, a).session)
  {
    hide Numbered, Advance, FindRoute, FindNode;
    HonestAdvance(def, s, node.nodeId, a.CancelledLate(), a.emitted);
  }

  // ---- Each operation ----

  /** Only a human node's own answer can leave a run waiting. */
  lemma {:induction false} SettleFacts(node: NodeDefinition, a: Attempt)
    ensures Settle(node, a).outcome.Waiting? ==> node.kind.Human? && Settle(node, a).request.Some?
    ensures Settle(node, a).outcome.Succeeded? ==> a.reply == Returned(Settle(node, a)) && !a.cancelled && !a.expired
  {
  }

  /** A dispatch changes nothing, or records a result, or records it and acts on it. */
  ghost predicate DispatchCase(def: WorkflowDefinition, backendId: string, s: Session, a: Attempt, o: Outcome) {
    || (o.session == s && o.reply.Threw?)
    || (&& Authorized(s, backendId, a.node) && def.Node(a.node).Some?
        && var node := def.Node(a.node).value;
        && var recorded := s.(run := Record(s.run, Settle(node, a)));
        && ((o.session == recorded && o.reply.Threw?)
            || o == Act(def, recorded, node, CountOf(s.run.executions, a.node) + 1, Settle(node, a), a)))
  }

  lemma {:induction false} DispatchCases(def: WorkflowDefinition, backendId: string, s: Session, a: Attempt)
    ensures DispatchCase(def, backendId, s, a, Dispatch(def, backendId, s, a))
  {
  }

  lemma {:induction false} HonestDispatch(def: WorkflowDefinition, backendId: string, s: Session, a: Attempt)
    requires Honest(def, s)
    ensures StaysHonest(def, s, Dispatch(def, backendId, s, a).session)
  {
    hide Dispatch, Settle, Act, Record, Honest, Grows;
    DispatchCases(def, backendId, s, a);
    GrowsReflexively(s.run);
    if Dispatch(def, backendId, s, a).session != s {
      var node := def.Node(a.node).value;
      var result := Settle(node, a);
      var recorded := s.(run := Record(s.run, result));
      SettleFacts(node, a);
      FoundIsItself(def, a.node);
      HonestRecord(def, s, a.node, result);
      HonestAct(def, recorded, node, CountOf(s.run.executions, a.node) + 1, result, a);
      GrowsTransitively(s.run, recorded.run, Dispatch(def, backendId, s, a).session.run);
    }
  }

  lemma {:induction false} FoundIsItself(def: WorkflowDefinition, node: NodeId)
    ensures def.Node(node).Some? ==> def.Node(node).value.nodeId == node
  {
  }

  lemma {:induction false} HonestAttempts(def: WorkflowDefinition, backendId: string, s: Session,
                                          attempts: seq<Attempt>)
    requires Honest(def, s)
    ensures StaysHonest(def, s, Attempts(def, backendId, s, attempts))
    decreases |attempts|
  {
    hide Dispatch, Honest, Grows;
    if attempts == [] {
      GrowsReflexively(s.run);
    } else {
      var t := Dispatch(def, backendId, s, attempts[0]).session;
      HonestDispatch(def, backendId, s, attempts[0]);
      HonestAttempts(def, backendId, t, attempts[1..]);
      GrowsTransitively(s.run, t.run, Attempts(def, backendId, t, attempts[1..]).run);
    }
  }

  lemma {:induction false} HonestFinish(def: WorkflowDefinition, s: Session, e: Ended)
    requires Honest(def, s)
    ensures StaysHonest(def, s, Finish(s, e))
  {
    hide Numbered, CountOf;
    if s.run.currentNode.Some? && Interrupt(s, e.pause) != s {
      var x := Interrupt(s, e.pause).run.executions[|s.run.executions|];
      NumberedExtended(s.run.executions, x.nodeId, x.result);
    }
  }

  lemma {:induction false} HonestDrive(def: WorkflowDefinition, backendId: string, s: Session, d: Drive)
    requires Honest(def, s)
    ensures StaysHonest(def, s, DriveRun(def, backendId, s, d))
  {
    hide Attempts, Finish, Honest, Grows;
    var t := Attempts(def, backendId, s, d.attempts);
    HonestAttempts(def, backendId, s, d.attempts);
    HonestFinish(def, t, d.ended);
    GrowsTransitively(s.run, t.run, Finish(t, d.ended).run);
  }

  lemma {:induction false} HonestDecision(def: WorkflowDefinition, s: Session, d: HumanDecision)
    requires Honest(def, s) && Matches(s.run, d)
    ensures StaysHonest(def, s, s.(run := Decide(s.run, d)))
  {
    hide Numbered, Blank;
    NumberedSettled(s.run.executions, if d.approved then Success(d.reason) else Fail("HUMAN_REJECTED", NotStarted));
  }

  lemma {:induction false} HonestSubmission(def: WorkflowDefinition, backendId: string, s: Session, e: Event)
    requires Honest(def, s) && e.Submit? && Matches(s.run, e.decision)
    ensures StaysHonest(def, s, SubmitRun(def, backendId, s, e))
    ensures SubmitRun(def, backendId, s, e).run.version > s.run.version
  {
    hide Advance, DriveRun, Honest, Blank;
    var decided := s.(run := Decide(s.run, e.decision));
    HonestDecision(def, s, e.decision);
    if e.emitted.NoFault? && e.decision.approved {
      var o := Advance(def, decided, s.run.currentNode.value, e.cancelled, e.completedEmission);
      HonestAdvance(def, decided, s.run.currentNode.value, e.cancelled, e.completedEmission);
      GrowsTransitively(s.run, decided.run, o.session.run);
      if o.reply.Told? && o.reply.next.Some? {
        HonestDrive(def, backendId, o.session, e.drive);
        GrowsTransitively(s.run, o.session.run, DriveRun(def, backendId, o.session, e.drive).run);
      }
    }
  }

  /** Starting or resuming: mark the run Running, then drive it unless the emission fails. */
  lemma {:induction false} HonestRunning(def: WorkflowDefinition, backendId: string, s: Session, running: Session,
                                         d: Drive)
    requires Honest(def, s) && s.run.currentNode.Some? && !s.run.state.Completed? && s.task == running.task
    requires running.run == Commit(s.run.(state := Running, failure := running.run.failure,
                                          pending := running.run.pending))
    ensures StaysHonest(def, s, running) && StaysHonest(def, s, DriveRun(def, backendId, running, d))
  {
    hide Numbered, DriveRun;
    HonestDrive(def, backendId, running, d);
    GrowsTransitively(s.run, running.run, DriveRun(def, backendId, running, d).run);
  }

  lemma {:induction false} HonestLaunch(def: WorkflowDefinition, backendId: string, s: Session, e: Event)
    requires Honest(def, s) && (e.Launch? || e.Resume?)
    ensures StaysHonest(def, s, Apply(def, backendId, s, e))
  {
    hide DriveRun, Numbered;
    var run := s.run;
    if e.Launch? && run.state.Created? {
      HonestRunning(def, backendId, s, s.(run := Commit(run.(state := Running))), e.drive);
    } else if e.Resume? && (run.state.Blocked? || run.state.Paused?) && run.currentNode.Some? {
      HonestRunning(def, backendId, s, s.(run := Commit(run.(state := Running, failure := None, pending := None))),
                    e.drive);
    }
  }

  lemma {:induction false} HonestWrites(def: WorkflowDefinition, backendId: string, s: Session, e: Event)
    requires Honest(def, s) && (e.Rewind? || e.Stop? || e.Block? || e.Reopen?)
    ensures StaysHonest(def, s, Apply(def, backendId, s, e))
  {
    hide Numbered, LastSucceeded;
  }

  lemma {:induction false} HonestEvent(def: WorkflowDefinition, backendId: string, s: Session, e: Event)
    requires Honest(def, s)
    ensures StaysHonest(def, s, Apply(def, backendId, s, e))
  {
    hide Honest, Grows, Matches, SubmitRun;
    if e.Launch? || e.Resume? {
      HonestLaunch(def, backendId, s, e);
    } else if e.Submit? {
      GrowsReflexively(s.run);
      if Matches(s.run, e.decision) { HonestSubmission(def, backendId, s, e); }
    } else {
      HonestWrites(def, backendId, s, e);
    }
  }

  // ---- Whole runs ----

  lemma {:induction false} HonestPlay(def: WorkflowDefinition, backendId: string, s: Session, events: seq<Event>)
    requires Honest(def, s)
    ensures StaysHonest(def, s, Play(def, backendId, s, events))
    decreases |events|
  {
    hide Honest, Grows, Apply;
    if events == [] {
      GrowsReflexively(s.run);
    } else {
      var before := Play(def, backendId, s, events[..|events| - 1]);
      HonestPlay(def, backendId, s, events[..|events| - 1]);
      HonestEvent(def, backendId, before, events[|events| - 1]);
      GrowsTransitively(s.run, before.run, Play(def, backendId, s, events).run);
    }
  }

  /** Every run of every definition with a rework limit is honest after any events, and any further events only add to
      it. */
  lemma {:induction false} AnyRunIsHonest(def: WorkflowDefinition, backendId: string, runId: string,
                                          task: EngineeringTask, events: seq<Event>, later: seq<Event>)
    requires def.rework.maxReworks >= 0
    ensures var s := Play(def, backendId, NewRun(def, backendId, runId, task), events);
            Honest(def, s) && StaysHonest(def, s, Play(def, backendId, s, later))
  {
    hide Grows, Play;
    NewRunIsHonest(def, backendId, runId, task);
    HonestPlay(def, backendId, NewRun(def, backendId, runId, task), events);
    HonestPlay(def, backendId, Play(def, backendId, NewRun(def, backendId, runId, task), events), later);
  }

  lemma {:induction false} NewRunIsHonest(def: WorkflowDefinition, backendId: string, runId: string,
                                          task: EngineeringTask)
    requires def.rework.maxReworks >= 0
    ensures Honest(def, NewRun(def, backendId, runId, task))
  {
  }

  /** A decision that was accepted once is refused ever after. */
  lemma {:induction false} AcceptedDecisionIsSpent(def: WorkflowDefinition, backendId: string, s: Session, e: Event,
                                                   later: seq<Event>)
    requires Honest(def, s) && e.Submit? && Matches(s.run, e.decision)
    ensures !Matches(Play(def, backendId, Apply(def, backendId, s, e), later).run, e.decision)
  {
    hide SubmitRun, Numbered, Play;
    HonestSubmission(def, backendId, s, e);
    HonestPlay(def, backendId, Apply(def, backendId, s, e), later);
  }

  /** In no history of any run of any definition is the same decision accepted at two points. */
  lemma {:induction false} DecisionIsUsedOnce(def: WorkflowDefinition, backendId: string, runId: string,
                                              task: EngineeringTask, events: seq<Event>, i: nat, j: nat)
    requires def.rework.maxReworks >= 0 && i < j < |events| && events[i].Submit? && events[j].Submit?
    requires events[j].decision == events[i].decision
    requires Matches(Play(def, backendId, NewRun(def, backendId, runId, task), events[..i]).run, events[i].decision)
    ensures !Matches(Play(def, backendId, NewRun(def, backendId, runId, task), events[..j]).run, events[j].decision)
  {
    hide Apply, Matches, Honest, NewRun;
    var start := NewRun(def, backendId, runId, task);
    var s := Play(def, backendId, start, events[..i]);
    var later := events[i + 1..j];
    AnyRunIsHonest(def, backendId, runId, task, events[..i], []);
    AcceptedDecisionIsSpent(def, backendId, s, events[i], later);
    assert events[..i + 1][..i] == events[..i];
    assert Play(def, backendId, start, events[..i + 1]) == Apply(def, backendId, s, events[i]);
    PlayInTwo(def, backendId, start, events[..i + 1], later);
    assert events[..i + 1] + later == events[..j];
  }

  lemma {:induction false} PlayInTwo(def: WorkflowDefinition, backendId: string, s: Session, first: seq<Event>,
                                     second: seq<Event>)
    ensures Play(def, backendId, Play(def, backendId, s, first), second) == Play(def, backendId, s, first + second)
    decreases |second|
  {
    hide Apply;
    if second == [] {
      assert first + second == first;
    } else {
      var n := |second| - 1;
      PlayInTwo(def, backendId, s, first, second[..n]);
      assert (first + second)[..|first + second| - 1] == first + second[..n];
    }
  }

  /** Whatever the backend does, the coordinator never leaves a driven run Running. */
  lemma {:induction false} DriveSettles(def: WorkflowDefinition, backendId: string, s: Session, d: Drive)
    ensures !DriveRun(def, backendId, s, d).run.state.Running?
  {
  }
}
