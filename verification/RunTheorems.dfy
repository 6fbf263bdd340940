/** What every run on a chain keeps, whatever handlers, backends, owners and event sinks do. */
module RunTheorems {
  import opened Contracts
  import opened Catalog
  import opened RunEngine
  import opened Honesty

  // ---- Executions ----

  /** The first `n` chain nodes each ended with success, and their last executions stand in chain order. */
  ghost predicate DoneInOrder(executions: seq<NodeExecution>, chain: seq<NodeId>, n: nat)
    requires n <= |chain|
  {
    && (forall i :: 0 <= i < n ==> LastSucceeded(executions, chain[i]))
    && (forall i, j :: 0 <= i < j < n ==> LastIndex(executions, chain[i]) < LastIndex(executions, chain[j]))
  }

  /** An execution of the node after a finished prefix extends the prefix exactly when it succeeded. */
  lemma {:induction false} PrefixExtended(executions: seq<NodeExecution>, chain: seq<NodeId>, n: nat, x: NodeExecution)
    requires Distinct(chain) && n < |chain| && x.nodeId == chain[n] && DoneInOrder(executions, chain, n)
    ensures DoneInOrder(executions + [x], chain, n)
    ensures x.result.outcome.Succeeded? ==> DoneInOrder(executions + [x], chain, n + 1)
  {
    forall i | 0 <= i < |chain|
      ensures LastIndex(executions + [x], chain[i]) == if i == n then |executions|
              else LastIndex(executions, chain[i]) {
      Appended(executions, x, chain[i]);
    }
  }

  // ---- The invariant ----

  /** Where the run stands: every chain node before the current one is done, in order. */
  ghost predicate Positioned(def: WorkflowDefinition, chain: seq<NodeId>, run: WorkflowRun) {
    run.currentNode.Some? ==>
      && (run.currentNode.value in chain || run.currentNode.value == def.rework.target)
      && (forall n :: 0 <= n < |chain| && chain[n] == run.currentNode.value ==> DoneInOrder(run.executions, chain, n))
  }

  /** A completed run has no current node, and every chain node is done. */
  ghost predicate Placed(def: WorkflowDefinition, chain: seq<NodeId>, run: WorkflowRun) {
    && Positioned(def, chain, run)
    && (run.state.Completed? ==> run.currentNode.None? && DoneInOrder(run.executions, chain, |chain|))
  }

  /** An honest run that stands where the chain says. */
  ghost predicate Inv(def: WorkflowDefinition, chain: seq<NodeId>, s: Session) {
    Honest(def, s) && Placed(def, chain, s.run)
  }

  ghost predicate Keeps(def: WorkflowDefinition, chain: seq<NodeId>, s: Session, t: Session) {
    Inv(def, chain, t) && Grows(s.run, t.run)
  }

  // ---- Each commit keeps the place ----

  /** The current node has just succeeded, so the prefix it closes is done. */
  ghost predicate CurrentDone(chain: seq<NodeId>, run: WorkflowRun, node: NodeId) {
    forall n :: 0 <= n < |chain| && chain[n] == node ==> DoneInOrder(run.executions, chain, n + 1)
  }

  lemma {:induction false} RecordKeeps(def: WorkflowDefinition, chain: seq<NodeId>, s: Session, node: NodeId,
                                       result: NodeResult)
    requires Distinct(chain) && Inv(def, chain, s) && s.run.state.Running? && s.run.currentNode == Some(node)
    ensures Keeps(def, chain, s, s.(run := Record(s.run, result)))
    ensures JustRecorded(s, s.(run := Record(s.run, result)), node, result)
    ensures result.outcome.Succeeded? ==> CurrentDone(chain, Record(s.run, result), node)
  {
    hide Honest, Grows, JustRecorded;
    var run := s.run;
    var x := NodeExecution(node, CountOf(run.executions, node) + 1, result);
    HonestRecord(def, s, node, result);
    PositionKept(def, chain, run, Record(run, result), x);
    if result.outcome.Succeeded? {
      forall n | 0 <= n < |chain| && chain[n] == node ensures DoneInOrder(run.executions + [x], chain, n + 1) {
        PrefixExtended(run.executions, chain, n, x);
      }
    }
  }

  /** Where a success route leads: to the next chain node, or to completion from the last one. */
  lemma {:induction false} ChainStep(def: WorkflowDefinition, chain: seq<NodeId>, node: NodeId) returns (i: nat)
    requires ChainShaped(def, chain) && def.Next(node, Succeeded).Some?
    ensures i < |chain| && chain[i] == node
    ensures def.Next(node, Succeeded) == Some(Successor(chain, i))
    ensures def.Next(node, Succeeded) == Some(COMPLETE) <==> i + 1 == |chain|
  {
    assert node in chain;
    i :| 0 <= i < |chain| && chain[i] == node;
    if i + 1 < |chain| {
      assert chain[i + 1] in chain && COMPLETE !in chain;
    }
  }

  lemma {:induction false} MovePlaces(def: WorkflowDefinition, chain: seq<NodeId>, run: WorkflowRun, i: nat)
    requires Distinct(chain) && run.state.Running? && i + 1 < |chain| && DoneInOrder(run.executions, chain, i + 1)
    ensures Placed(def, chain, Commit(run.(currentNode := Some(chain[i + 1]))))
  {
    assert forall n :: 0 <= n < |chain| && chain[n] == chain[i + 1] ==> n == i + 1;
  }

  lemma {:induction false} CompletePlaces(def: WorkflowDefinition, chain: seq<NodeId>, run: WorkflowRun)
    requires DoneInOrder(run.executions, chain, |chain|)
    ensures Placed(def, chain, Commit(run.(state := RunState.Completed, currentNode := None, pending := None)))
  {
    hide DoneInOrder;
  }

  lemma {:induction false} AdvanceKeeps(def: WorkflowDefinition, chain: seq<NodeId>, s: Session, node: NodeId,
                                        cancelled: bool, emitted: Fault)
    requires ChainShaped(def, chain) && Inv(def, chain, s) && s.run.state.Running?
    requires CurrentDone(chain, s.run, node)
    ensures Keeps(def, chain, s, Advance(def, s, node, cancelled, emitted).session)
  {
    hide ChainShaped, DoneInOrder, Honest, Placed, Grows;
    HonestAdvance(def, s, node, cancelled, emitted);
    if def.Next(node, Succeeded).Some? {
      var i := ChainStep(def, chain, node);
      assert DoneInOrder(s.run.executions, chain, i + 1);
      if i + 1 < |chain| {
        ShapeIsDistinct(def, chain);
        MovePlaces(def, chain, s.run, i);
      } else {
        CompletePlaces(def, chain, s.run);
      }
    }
  }

  lemma {:induction false} ShapeIsDistinct(def: WorkflowDefinition, chain: seq<NodeId>)
    requires ChainShaped(def, chain)
    ensures Distinct(chain)
  {
  }

  /** Neither the state nor the version says where a run stands. */
  lemma {:induction false} PlaceStays(def: WorkflowDefinition, chain: seq<NodeId>, run: WorkflowRun, next: WorkflowRun)
    requires Placed(def, chain, run) && next.currentNode == run.currentNode && next.executions == run.executions
    requires next.state.Completed? ==> run.state.Completed?
    ensures Placed(def, chain, next)
  {
  }

  lemma {:induction false} SendBackPlaces(def: WorkflowDefinition, chain: seq<NodeId>, run: WorkflowRun, node: NodeId)
    requires ChainShaped(def, chain) && Placed(def, chain, run) && run.state.Running? && run.currentNode == Some(node)
    requires def.Next(node, ReworkRequired).Some?
    ensures Placed(def, chain, Commit(run.(reworkCount := run.reworkCount + 1, currentNode := Some(def.rework.target))))
  {
    ReworkGoesBackOrAway(def, chain, run, node);
  }

  lemma {:induction false} ActKeeps(def: WorkflowDefinition, chain: seq<NodeId>, s: Session, node: NodeDefinition,
                                    attempt: int, result: NodeResult, a: Attempt)
    requires ChainShaped(def, chain) && Inv(def, chain, s) && s.run.state.Running?
    requires def.Node(node.nodeId) == Some(node) && JustRecorded(s, s, node.nodeId, result)
    requires result.outcome.Waiting? ==> node.kind.Human?
    requires result.outcome.Succeeded? ==> CurrentDone(chain, s.run, node.nodeId)
    ensures Keeps(def, chain, s, Act(def, s, node, attempt, result, a).session)
  {
    hide ChainShaped, Placed, Honest, Grows, Advance, CurrentDone;
    HonestAct(def, s, node, attempt, result, a);
    var t := Act(def, s, node, attempt, result, a).session;
    if result.outcome.Succeeded? {
      AdvanceKeeps(def, chain, s, node.nodeId, a.CancelledLate(), a.emitted);
    } else if result.outcome.ReworkRequired? && def.Next(node.nodeId, ReworkRequired).Some?
              && s.run.reworkCount < def.rework.maxReworks {
      SendBackPlaces(def, chain, s.run, node.nodeId);
    } else {
      PlaceStays(def, chain, s.run, t.run);
    }
  }

  /** Sending work back to the policy's target only goes backwards on the chain, or leaves it. */
  lemma {:induction false} ReworkGoesBackOrAway(def: WorkflowDefinition, chain: seq<NodeId>, run: WorkflowRun,
                                                node: NodeId)
    requires ChainShaped(def, chain) && Positioned(def, chain, run) && run.currentNode == Some(node)
    requires def.Next(node, ReworkRequired).Some?
    ensures forall n :: 0 <= n < |chain| && chain[n] == def.rework.target ==> DoneInOrder(run.executions, chain, n)
  {
    var r := Route(node, ReworkRequired, def.Next(node, ReworkRequired).value);
    var i :| 0 <= i < |def.routes| && def.routes[i] == r;
    forall n | 0 <= n < |chain| && chain[n] == def.rework.target
      ensures DoneInOrder(run.executions, chain, n) {
      BackwardsIsDone(def, chain, run, def.rework.target, n);
    }
  }

  /** A node before the current one stands after a finished prefix. */
  lemma {:induction false} BackwardsIsDone(def: WorkflowDefinition, chain: seq<NodeId>, run: WorkflowRun, back: NodeId,
                                           n: nat)
    requires Distinct(chain) && Positioned(def, chain, run) && run.currentNode.Some?
    requires Before(chain, back, run.currentNode.value) && n < |chain| && chain[n] == back
    ensures DoneInOrder(run.executions, chain, n)
  {
    var t, i :| 0 <= t < i < |chain| && chain[t] == back && chain[i] == run.currentNode.value;
    assert t == n;
    assert DoneInOrder(run.executions, chain, i);
  }

  // ---- Each operation keeps the invariant ----

  lemma {:induction false} HandledKeeps(def: WorkflowDefinition, chain: seq<NodeId>, s: Session, node: NodeDefinition,
                                        result: NodeResult, a: Attempt, recorded: Session, attempt: int)
    requires ChainShaped(def, chain) && Inv(def, chain, s) && Keeps(def, chain, s, recorded)
             && recorded.run.state.Running?
    requires def.Node(node.nodeId) == Some(node) && JustRecorded(s, recorded, node.nodeId, result)
    requires result.outcome.Waiting? ==> node.kind.Human?
    requires result.outcome.Succeeded? ==> CurrentDone(chain, recorded.run, node.nodeId)
    ensures Keeps(def, chain, s, Act(def, recorded, node, attempt, result, a).session)
  {
    hide Act, ChainShaped, Inv, Grows, CurrentDone;
    ActKeeps(def, chain, recorded, node, attempt, result, a);
    GrowsTransitively(s.run, recorded.run, Act(def, recorded, node, attempt, result, a).session.run);
  }

  lemma {:induction false} CasesKeep(def: WorkflowDefinition, backendId: string, chain: seq<NodeId>, s: Session,
                                     a: Attempt, o: Outcome)
    requires ChainShaped(def, chain) && Inv(def, chain, s) && DispatchCase(def, backendId, s, a, o)
    ensures Keeps(def, chain, s, o.session)
  {
    if o.session != s {
      var node := def.Node(a.node).value;
      var result := Settle(node, a);
      SettleFacts(node, a);
      RecordKeeps(def, chain, s, node.nodeId, result);
      var recorded := s.(run := Record(s.run, result));
      HandledKeeps(def, chain, s, node, result, a, recorded, CountOf(s.run.executions, a.node) + 1);
    }
  }

  lemma {:induction false} DispatchKeeps(def: WorkflowDefinition, backendId: string, chain: seq<NodeId>, s: Session,
                                         a: Attempt)
    requires ChainShaped(def, chain) && Inv(def, chain, s)
    ensures Keeps(def, chain, s, Dispatch(def, backendId, s, a).session)
  {
    DispatchCases(def, backendId, s, a);
    CasesKeep(def, backendId, chain, s, a, Dispatch(def, backendId, s, a));
  }

  lemma {:induction false} AttemptsKeep(def: WorkflowDefinition, backendId: string, chain: seq<NodeId>, s: Session,
                                        attempts: seq<Attempt>)
    requires ChainShaped(def, chain) && Inv(def, chain, s)
    ensures Keeps(def, chain, s, Attempts(def, backendId, s, attempts))
    decreases |attempts|
  {
    if attempts != [] {
      var t := Dispatch(def, backendId, s, attempts[0]).session;
      DispatchKeeps(def, backendId, chain, s, attempts[0]);
      AttemptsKeep(def, backendId, chain, t, attempts[1..]);
      GrowsTransitively(s.run, t.run, Attempts(def, backendId, t, attempts[1..]).run);
    }
  }

  /** An execution of the current node moves the run nowhere. */
  lemma {:induction false} PositionKept(def: WorkflowDefinition, chain: seq<NodeId>, run: WorkflowRun,
                                        next: WorkflowRun, x: NodeExecution)
    requires Distinct(chain) && Positioned(def, chain, run) && run.currentNode == Some(x.nodeId)
    requires next.currentNode == run.currentNode && next.executions == run.executions + [x]
    ensures Positioned(def, chain, next)
  {
    forall n | 0 <= n < |chain| && chain[n] == x.nodeId ensures DoneInOrder(next.executions, chain, n) {
      PrefixExtended(run.executions, chain, n, x);
    }
  }

  lemma {:induction false} FinishKeeps(def: WorkflowDefinition, chain: seq<NodeId>, s: Session, e: Ended)
    requires Distinct(chain) && Inv(def, chain, s)
    ensures Keeps(def, chain, s, Finish(s, e))
  {
    hide DoneInOrder, Honest, Grows, CountOf, Positioned;
    HonestFinish(def, s, e);
    var run, t := s.run, Finish(s, e);
    if t.run.executions == run.executions {
      SamePosition(def, chain, run, t.run);
    } else {
      PositionKept(def, chain, run, t.run, t.run.executions[|run.executions|]);
    }
  }

  lemma {:induction false} SamePosition(def: WorkflowDefinition, chain: seq<NodeId>, run: WorkflowRun,
                                        next: WorkflowRun)
    requires Positioned(def, chain, run) && next.currentNode == run.currentNode && next.executions == run.executions
    ensures Positioned(def, chain, next)
  {
  }

  lemma {:induction false} DriveKeeps(def: WorkflowDefinition, backendId: string, chain: seq<NodeId>, s: Session,
                                      d: Drive)
    requires ChainShaped(def, chain) && Inv(def, chain, s)
    ensures Keeps(def, chain, s, DriveRun(def, backendId, s, d))
  {
    hide ChainShaped, Inv, Grows, Attempts, Finish;
    ShapeIsDistinct(def, chain);
    var t := Attempts(def, backendId, s, d.attempts);
    AttemptsKeep(def, backendId, chain, s, d.attempts);
    FinishKeeps(def, chain, t, d.ended);
    GrowsTransitively(s.run, t.run, Finish(t, d.ended).run);
  }

  /** An approval closes the waiting node exactly like a successful execution would. */
  lemma {:induction false} DecideKeeps(def: WorkflowDefinition, chain: seq<NodeId>, s: Session, d: HumanDecision)
    requires Distinct(chain) && Inv(def, chain, s) && Matches(s.run, d)
    ensures Keeps(def, chain, s, s.(run := Decide(s.run, d)))
    ensures d.approved ==> CurrentDone(chain, Decide(s.run, d), s.run.currentNode.value)
  {
    hide DoneInOrder, Honest, Grows, Blank;
    HonestDecision(def, s, d);
    DecisionHasNode(def, s, d);
    var run, node := s.run, s.run.currentNode.value;
    var last := |run.executions| - 1;
    var result := if d.approved then Success(d.reason) else Fail("HUMAN_REJECTED", NotStarted);
    var settled := run.executions[last := run.executions[last].(result := result)];
    forall n | 0 <= n < |chain| && chain[n] == node
      ensures DoneInOrder(settled, chain, n) && (d.approved ==> DoneInOrder(settled, chain, n + 1)) {
      PrefixSettled(run.executions, chain, n, result);
    }
  }

  lemma {:induction false} DecisionHasNode(def: WorkflowDefinition, s: Session, d: HumanDecision)
    requires Honest(def, s) && Matches(s.run, d)
    ensures s.run.executions[|s.run.executions| - 1].nodeId == s.run.currentNode.value
  {
  }

  lemma {:induction false} PrefixSettled(executions: seq<NodeExecution>, chain: seq<NodeId>, n: nat, result: NodeResult)
    requires Distinct(chain) && n < |chain| && executions != [] && executions[|executions| - 1].nodeId == chain[n]
    requires DoneInOrder(executions, chain, n)
    ensures var settled := executions[|executions| - 1 := executions[|executions| - 1].(result := result)];
            DoneInOrder(settled, chain, n) && (result.outcome.Succeeded? ==> DoneInOrder(settled, chain, n + 1))
  {
    var last := |executions| - 1;
    var settled := executions[last := executions[last].(result := result)];
    forall i | 0 <= i <= n
      ensures LastIndex(settled, chain[i]) == LastIndex(executions, chain[i])
      ensures i < n ==>
                && LastIndex(settled, chain[i]) < last
                && settled[LastIndex(settled, chain[i])] == executions[LastIndex(settled, chain[i])]
    {
      Settled(executions, result, chain[i]);
      if i < n {
        assert LastSucceeded(executions, chain[i]) && chain[i] != chain[n];
      }
    }
    assert LastIndex(executions, chain[n]) == last;
  }

  lemma {:induction false} SubmitKeeps(def: WorkflowDefinition, backendId: string, chain: seq<NodeId>, s: Session,
                                       e: Event)
    requires ChainShaped(def, chain) && Inv(def, chain, s) && e.Submit? && Matches(s.run, e.decision)
    ensures Keeps(def, chain, s, SubmitRun(def, backendId, s, e))
  {
    var decided := s.(run := Decide(s.run, e.decision));
    DecideKeeps(def, chain, s, e.decision);
    if e.emitted.NoFault? && e.decision.approved {
      var node := s.run.currentNode.value;
      var o := Advance(def, decided, node, e.cancelled, e.completedEmission);
      AdvanceKeeps(def, chain, decided, node, e.cancelled, e.completedEmission);
      GrowsTransitively(s.run, decided.run, o.session.run);
      if o.reply.Told? && o.reply.next.Some? {
        DriveKeeps(def, backendId, chain, o.session, e.drive);
        GrowsTransitively(s.run, o.session.run, DriveRun(def, backendId, o.session, e.drive).run);
      }
    }
  }

  lemma {:induction false} RewindKeeps(def: WorkflowDefinition, chain: seq<NodeId>, s: Session)
    requires ChainShaped(def, chain) && Inv(def, chain, s) && MayRewind(s.run)
    ensures Keeps(def, chain, s, s.(run := Commit(s.run.(currentNode := Some(TEST)))))
  {
    hide Honest, Grows, DoneInOrder, ChainShaped, Before, LastSucceeded;
    HonestWrites(def, "", s, Rewind);
    ShapeIsDistinct(def, chain);
    TestIsBefore(def, chain, s.run);
    forall n | 0 <= n < |chain| && chain[n] == TEST ensures DoneInOrder(s.run.executions, chain, n) {
      BackwardsIsDone(def, chain, s.run, TEST, n);
    }
  }

  lemma {:induction false} TestIsBefore(def: WorkflowDefinition, chain: seq<NodeId>, run: WorkflowRun)
    requires ChainShaped(def, chain) && Positioned(def, chain, run) && MayRewind(run)
    ensures Before(chain, TEST, run.currentNode.value) && TEST in chain
  {
    hide DoneInOrder;
    assert run.currentNode.value in REWINDABLE;
  }

  /** Starting or resuming: mark the run Running, then drive it unless the emission fails. */
  lemma {:induction false} RunningKeeps(def: WorkflowDefinition, backendId: string, chain: seq<NodeId>, s: Session,
                                        running: Session, d: Drive)
    requires ChainShaped(def, chain) && Inv(def, chain, s) && s.run.currentNode.Some?
    requires !s.run.state.Completed? && s.task == running.task
    requires running.run
             == Commit(s.run.(state := Running, failure := running.run.failure, pending := running.run.pending))
    ensures Keeps(def, chain, s, running) && Keeps(def, chain, s, DriveRun(def, backendId, running, d))
  {
    hide ChainShaped, Honest, Grows, Placed, DriveRun;
    HonestRunning(def, backendId, s, running, d);
    PlaceStays(def, chain, s.run, running.run);
    DriveKeeps(def, backendId, chain, running, d);
  }

  lemma {:induction false} LaunchKeeps(def: WorkflowDefinition, backendId: string, chain: seq<NodeId>, s: Session,
                                       e: Event)
    requires ChainShaped(def, chain) && Inv(def, chain, s) && (e.Launch? || e.Resume?)
    ensures Keeps(def, chain, s, Apply(def, backendId, s, e))
  {
    hide ChainShaped, DriveRun, Placed, Grows;
    GrowsReflexively(s.run);
    HonestLaunch(def, backendId, s, e);
    var run := s.run;
    if e.Launch? && run.state.Created? {
      var running := s.(run := Commit(run.(state := Running)));
      RunningKeeps(def, backendId, chain, s, running, e.drive);
    } else if e.Resume? && (run.state.Blocked? || run.state.Paused?) && run.currentNode.Some? {
      var running := s.(run := Commit(run.(state := Running, failure := None, pending := None)));
      RunningKeeps(def, backendId, chain, s, running, e.drive);
    }
  }

  lemma {:induction false} OutsideWritesKeep(def: WorkflowDefinition, backendId: string, chain: seq<NodeId>, s: Session,
                                             e: Event)
    requires Inv(def, chain, s) && (e.Stop? || e.Block? || e.Reopen?)
    ensures Keeps(def, chain, s, Apply(def, backendId, s, e))
  {
    hide Honest, Grows, Placed;
    HonestWrites(def, backendId, s, e);
    PlaceStays(def, chain, s.run, Apply(def, backendId, s, e).run);
  }

  /** Every event keeps the invariant and only grows the history. */
  lemma {:induction false} ApplyKeeps(def: WorkflowDefinition, backendId: string, chain: seq<NodeId>, s: Session,
                                      e: Event)
    requires ChainShaped(def, chain) && Inv(def, chain, s)
    ensures Keeps(def, chain, s, Apply(def, backendId, s, e))
  {
    if e.Launch? || e.Resume? {
      LaunchKeeps(def, backendId, chain, s, e);
    } else if e.Submit? {
      if Matches(s.run, e.decision) { SubmitKeeps(def, backendId, chain, s, e); }
    } else if e.Rewind? {
      if MayRewind(s.run) { RewindKeeps(def, chain, s); }
    } else {
      OutsideWritesKeep(def, backendId, chain, s, e);
    }
  }

  // ---- Whole runs ----

  lemma {:induction false} NewRunInv(def: WorkflowDefinition, backendId: string, chain: seq<NodeId>, runId: string,
                                     task: EngineeringTask)
    requires ChainShaped(def, chain) && def.rework.maxReworks >= 0
    ensures Inv(def, chain, NewRun(def, backendId, runId, task))
  {
  }

  /** The invariant holds after any events, and any continuation only grows the history. */
  lemma {:induction false} PlayKeeps(def: WorkflowDefinition, backendId: string, chain: seq<NodeId>, s: Session,
                                     events: seq<Event>)
    requires ChainShaped(def, chain) && Inv(def, chain, s)
    ensures Keeps(def, chain, s, Play(def, backendId, s, events))
    decreases |events|
  {
    if events != [] {
      var before := Play(def, backendId, s, events[..|events| - 1]);
      PlayKeeps(def, backendId, chain, s, events[..|events| - 1]);
      ApplyKeeps(def, backendId, chain, before, events[|events| - 1]);
      GrowsTransitively(s.run, before.run, Play(def, backendId, s, events).run);
    }
  }

  /** The reachable state of a run started on a catalog definition. */
  function CatalogRun(kind: Kind, risk: Risk, backendId: string, runId: string, task: EngineeringTask,
                      events: seq<Event>): Session {
    Play(Definition(kind, risk), backendId, NewRun(Definition(kind, risk), backendId, runId, task), events)
  }

  /** What every run of every catalog workflow keeps, at every point of every history of events. */
  lemma {:induction false} CatalogRunInv(kind: Kind, risk: Risk, backendId: string, runId: string,
                                         task: EngineeringTask, events: seq<Event>)
    ensures Inv(Definition(kind, risk), Sequence(kind, risk), CatalogRun(kind, risk, backendId, runId, task, events))
  {
    var def, chain := Definition(kind, risk), Sequence(kind, risk);
    CatalogIsChain(kind, risk);
    NewRunInv(def, backendId, chain, runId, task);
    PlayKeeps(def, backendId, chain, NewRun(def, backendId, runId, task), events);
  }

  /** The first node's last execution and the second's both succeeded, in this order. */
  ghost predicate SucceededInOrder(executions: seq<NodeExecution>, first: NodeId, second: NodeId) {
    && LastSucceeded(executions, first) && LastSucceeded(executions, second)
    && LastIndex(executions, first) < LastIndex(executions, second)
  }

  /**
   * Written, then tested, then reviewed, then approved, then delivered, by the last execution of each of the
   * nodes the workflow has.
   */
  ghost predicate Verified(kind: Kind, risk: Risk, executions: seq<NodeExecution>) {
    && SucceededInOrder(executions, TEST, DELIVER)
    && (kind != Direct ==> SucceededInOrder(executions, CODEX, TEST))
    && (kind == Direct ==> SucceededInOrder(executions, SUBMITTED, TEST))
    && (risk != Fast ==> SucceededInOrder(executions, TEST, REVIEW) && SucceededInOrder(executions, REVIEW, DELIVER))
    && (risk == Critical && kind != Direct ==>
          SucceededInOrder(executions, REVIEW, HUMAN) && SucceededInOrder(executions, HUMAN, DELIVER))
  }

  /**
   * A completed run was tested after its last write and reviewed after its last test, and every one of those
   * last executions succeeded.
   */
  lemma {:induction false} CompletedRunWasRetested(kind: Kind, risk: Risk, backendId: string, runId: string,
                                                   task: EngineeringTask, events: seq<Event>)
    requires CatalogRun(kind, risk, backendId, runId, task, events).run.state.Completed?
    ensures DoneInOrder(CatalogRun(kind, risk, backendId, runId, task, events).run.executions, Sequence(kind, risk),
                        |Sequence(kind, risk)|)
    ensures Verified(kind, risk, CatalogRun(kind, risk, backendId, runId, task, events).run.executions)
  {
    CatalogRunInv(kind, risk, backendId, runId, task, events);
    DoneIsVerified(kind, risk, CatalogRun(kind, risk, backendId, runId, task, events).run.executions);
  }

  /** Where the catalogs put test and review. */
  lemma {:induction false} Positions(kind: Kind, risk: Risk) returns (t: nat, r: nat)
    ensures var chain := Sequence(kind, risk);
            && 0 < t < |chain| - 1 && chain[t] == TEST && chain[|chain| - 1] == DELIVER
            && chain[t - 1] == (if kind == Direct then SUBMITTED else CODEX)
            && (risk != Fast ==> t < r < |chain| - 1 && chain[r] == REVIEW)
            && (risk == Critical && kind != Direct ==> r + 1 < |chain| - 1 && chain[r + 1] == HUMAN)
  {
    match (kind, risk) {
      case (Classic, Standard) => t := 3;
      case (Classic, Critical) => t := 4;
      case (Mvp, Standard) => t := 3;
      case (Mvp, Critical) => t := 3;
      case (Thin, Standard) => t := 2;
      case (Thin, Critical) => t := 2;
      case _ => t := 1;
    }
    r := if kind == Classic && risk == Critical then t + 2 else t + 1;
  }

  lemma {:induction false} DoneIsVerified(kind: Kind, risk: Risk, executions: seq<NodeExecution>)
    requires DoneInOrder(executions, Sequence(kind, risk), |Sequence(kind, risk)|)
    ensures Verified(kind, risk, executions)
  {
    hide Sequence, DoneInOrder, SucceededInOrder;
    var chain := Sequence(kind, risk);
    var t, r := Positions(kind, risk);
    OrderAt(executions, chain, t, |chain| - 1);
    OrderAt(executions, chain, t - 1, t);
    if risk != Fast {
      OrderAt(executions, chain, t, r);
      OrderAt(executions, chain, r, |chain| - 1);
      if risk == Critical && kind != Direct {
        OrderAt(executions, chain, r, r + 1);
        OrderAt(executions, chain, r + 1, |chain| - 1);
      }
    }
  }

  lemma {:induction false} OrderAt(executions: seq<NodeExecution>, chain: seq<NodeId>, i: nat, j: nat)
    requires i < j < |chain| && DoneInOrder(executions, chain, |chain|)
    ensures SucceededInOrder(executions, chain[i], chain[j])
  {
  }
}
