/** How much work a run can cost when its backend dispatches what it is told. */
module WorkBound {
  import opened Contracts
  import opened Catalog
  import opened RunEngine
  import opened Honesty
  import opened RunTheorems

  function Positive(x: int): nat { if x > 0 then x else 0 }

  /** The retries the nodes have left, over the whole run. */
  function RetriesLeft(nodes: seq<NodeDefinition>, executions: seq<NodeExecution>): nat {
    if nodes == [] then 0
    else Positive(nodes[0].maxRetries - CountOf(executions, nodes[0].nodeId)) + RetriesLeft(nodes[1..], executions)
  }

  /** The chain nodes from this one to the end; a node off the chain counts for itself. */
  function Distance(chain: seq<NodeId>, node: NodeId): (d: nat)
    ensures 1 <= d <= |chain| + 1
    ensures node in chain ==> d <= |chain|
  {
    if chain == [] then 1 else if chain[0] == node then |chain| else Distance(chain[1..], node)
  }

  /** Rework rounds left, each worth a whole chain, then the way to the end, then the retries left. */
  function Budget(def: WorkflowDefinition, chain: seq<NodeId>, run: WorkflowRun): int
    requires run.currentNode.Some?
  {
    (def.rework.maxReworks - run.reworkCount) * |chain| + Distance(chain, run.currentNode.value)
      + RetriesLeft(def.nodes, run.executions)
  }

  function Bound(def: WorkflowDefinition, chain: seq<NodeId>): int {
    (def.rework.maxReworks + 1) * |chain| + RetriesLeft(def.nodes, [])
  }

  /** The backend asks for the current node, and goes on only when it was told another one. */
  predicate Obedient(def: WorkflowDefinition, backendId: string, s: Session, attempts: seq<Attempt>)
    decreases |attempts|
  {
    attempts == [] ||
      var o := Dispatch(def, backendId, s, attempts[0]);
      && s.run.currentNode == Some(attempts[0].node)
      && (|attempts| > 1 ==> o.reply.Told? && o.reply.next.Some?)
      && Obedient(def, backendId, o.session, attempts[1..])
  }

  predicate Uncancelled(e: Ended) { !e.threw.CancelFault? && !e.cancelled }

  // ---- The measure ----

  lemma {:induction false} DistanceAt(chain: seq<NodeId>, i: nat)
    requires Distinct(chain) && i < |chain|
    ensures Distance(chain, chain[i]) == |chain| - i
  {
    if i > 0 {
      assert chain[0] != chain[i];
      DistanceAt(chain[1..], i - 1);
    }
  }

  lemma {:induction false} DistanceOff(chain: seq<NodeId>, node: NodeId)
    requires node !in chain
    ensures Distance(chain, node) == 1
  {
    if chain != [] {
      assert chain[0] != node && node !in chain[1..];
      DistanceOff(chain[1..], node);
    }
  }

  /** Another execution never adds retries, and takes one from a node that had some. */
  lemma {:induction false} RetriesSpent(nodes: seq<NodeDefinition>, executions: seq<NodeExecution>, x: NodeExecution)
    ensures RetriesLeft(nodes, executions + [x]) <= RetriesLeft(nodes, executions)
    ensures forall node ::
              (node in nodes && node.nodeId == x.nodeId && CountOf(executions, x.nodeId) < node.maxRetries) ==>
              RetriesLeft(nodes, executions + [x]) < RetriesLeft(nodes, executions)
  {
    if nodes != [] {
      Appended(executions, x, nodes[0].nodeId);
      RetriesSpent(nodes[1..], executions, x);
    }
  }

  lemma {:induction false} BudgetIsPositive(def: WorkflowDefinition, chain: seq<NodeId>, s: Session)
    requires Inv(def, chain, s) && s.run.currentNode.Some?
    ensures Budget(def, chain, s.run) >= 1
  {
    hide Numbered, Positioned, WaitsProperly, DoneInOrder, Distance, RetriesLeft;
    assert (def.rework.maxReworks - s.run.reworkCount) * |chain| >= 0;
  }

  /** What a dispatch that is not refused leaves for the rest. */
  ghost predicate Spends(def: WorkflowDefinition, chain: seq<NodeId>, s: Session, o: Outcome) {
    && |o.session.run.executions| <= |s.run.executions| + 1
    && (o.reply.Told? && o.reply.next.Some? ==>
          && o.session.run.state.Running? && o.session.run.currentNode == o.reply.next
          && s.run.currentNode.Some? && Budget(def, chain, o.session.run) < Budget(def, chain, s.run)
          && |o.session.run.executions| == |s.run.executions| + 1)
    && (o.session.run.state.Waiting? ==>
          s.run.currentNode.Some? && o.session.run.currentNode.Some?
          && Budget(def, chain, o.session.run) <= Budget(def, chain, s.run))
  }

  lemma {:induction false} MoveSpends(def: WorkflowDefinition, chain: seq<NodeId>, run: WorkflowRun, next: WorkflowRun,
                                      i: nat)
    requires Distinct(chain) && i + 1 < |chain| && run.currentNode == Some(chain[i])
             && next.currentNode == Some(chain[i + 1])
    requires next.reworkCount == run.reworkCount && next.executions == run.executions
    ensures Budget(def, chain, next) == Budget(def, chain, run) - 1
  {
    DistanceAt(chain, i);
    DistanceAt(chain, i + 1);
  }

  lemma {:induction false} ReworkTarget(def: WorkflowDefinition, chain: seq<NodeId>, node: NodeId)
    requires ChainShaped(def, chain) && def.Next(node, ReworkRequired).Some?
    ensures chain != [] && Distinct(chain) && (def.rework.target in chain ==> Before(chain, def.rework.target, node))
  {
    hide Distinct, Before;
    var r := Route(node, ReworkRequired, def.Next(node, ReworkRequired).value);
    var k :| 0 <= k < |def.routes| && def.routes[k] == r;
  }

  /** One rework round pays for the whole way back. */
  lemma {:induction false} ReworkSpends(def: WorkflowDefinition, chain: seq<NodeId>, run: WorkflowRun,
                                        next: WorkflowRun)
    requires ChainShaped(def, chain) && run.currentNode.Some? && def.Next(run.currentNode.value, ReworkRequired).Some?
    requires next.currentNode == Some(def.rework.target) && next.reworkCount == run.reworkCount + 1
    requires next.executions == run.executions
    ensures Budget(def, chain, next) < Budget(def, chain, run)
  {
    hide ChainShaped, Distinct, Before, Distance, RetriesLeft;
    ReworkTarget(def, chain, run.currentNode.value);
    BackIsCloser(chain, run.currentNode.value, def.rework.target);
    OneLess(def.rework.maxReworks - run.reworkCount, |chain|);
  }

  lemma {:induction false} OneLess(rounds: int, length: nat)
    ensures (rounds - 1) * length == rounds * length - length
  {
  }

  lemma {:induction false} BackIsCloser(chain: seq<NodeId>, node: NodeId, target: NodeId)
    requires Distinct(chain) && chain != [] && (target in chain ==> Before(chain, target, node))
    ensures Distance(chain, target) < |chain| + Distance(chain, node)
  {
    if target !in chain { DistanceOff(chain, target); }
  }

  lemma {:induction false} AdvanceSpends(def: WorkflowDefinition, chain: seq<NodeId>, s: Session, node: NodeId,
                                         cancelled: bool, emitted: Fault)
    requires ChainShaped(def, chain) && s.run.state.Running? && s.run.currentNode == Some(node)
    ensures var o := Advance(def, s, node, cancelled, emitted);
            && o.session.run.executions == s.run.executions
            && (o.session.run.state.Running? || o.session.run.state.Completed?)
            && (o.reply.Told? && o.reply.next.Some? ==>
                  && o.session.run.state.Running? && o.session.run.currentNode == o.reply.next
                  && Budget(def, chain, o.session.run) < Budget(def, chain, s.run))
  {
    hide ChainShaped, Budget;
    if def.Next(node, Succeeded).Some? {
      var i := ChainStep(def, chain, node);
      ShapeIsDistinct(def, chain);
      if i + 1 < |chain| {
        MoveSpends(def, chain, s.run, Commit(s.run.(currentNode := Some(chain[i + 1]))), i);
      }
    }
  }

  /** Acting on a recorded result: going on elsewhere costs budget, retrying is paid by the record. */
  ghost predicate ActSpends(def: WorkflowDefinition, chain: seq<NodeId>, s: Session, node: NodeId, o: Outcome) {
    && s.run.currentNode == Some(node) && o.session.run.executions == s.run.executions
    && (o.reply.Told? && o.reply.next.Some? ==>
          && o.session.run.state.Running? && o.session.run.currentNode == o.reply.next
          && (o.session == s || Budget(def, chain, o.session.run) < Budget(def, chain, s.run)))
    && (o.session.run.state.Waiting? ==>
          && o.session.run.currentNode == Some(node) && Budget(def, chain, o.session.run) == Budget(def, chain, s.run))
  }

  lemma {:induction false} ActIsPaid(def: WorkflowDefinition, chain: seq<NodeId>, s: Session, node: NodeDefinition,
                                     attempt: int, result: NodeResult, a: Attempt)
    requires ChainShaped(def, chain) && s.run.state.Running? && s.run.currentNode == Some(node.nodeId)
    ensures ActSpends(def, chain, s, node.nodeId, Act(def, s, node, attempt, result, a))
    ensures Act(def, s, node, attempt, result, a).session == s ==>
              Act(def, s, node, attempt, result, a).reply.Told? ==> Retryable(node, attempt, result)
  {
    hide ChainShaped;
    if result.outcome.Succeeded? {
      AdvanceSpends(def, chain, s, node.nodeId, a.CancelledLate(), a.emitted);
      assert Act(def, s, node, attempt, result, a) == Advance(def, s, node.nodeId, a.CancelledLate(), a.emitted);
    } else if result.outcome.ReworkRequired? && def.Next(node.nodeId, ReworkRequired).Some?
        && s.run.reworkCount < def.rework.maxReworks {
      ReworkSpends(def, chain, s.run,
                   Commit(s.run.(reworkCount := s.run.reworkCount + 1, currentNode := Some(def.rework.target))));
    }
  }

  lemma {:induction false} DispatchSpends(def: WorkflowDefinition, backendId: string, chain: seq<NodeId>, s: Session,
                                          a: Attempt)
    requires ChainShaped(def, chain) && s.run.state.Running?
    ensures Spends(def, chain, s, Dispatch(def, backendId, s, a))
  {
    hide ChainShaped, Act, Dispatch;
    var o := Dispatch(def, backendId, s, a);
    DispatchCases(def, backendId, s, a);
    if o.session != s || o.reply.Told? {
      var node := def.Node(a.node).value;
      var result := Settle(node, a);
      var attempt := CountOf(s.run.executions, a.node) + 1;
      var recorded := s.(run := Record(s.run, result));
      RetriesSpent(def.nodes, s.run.executions, recorded.run.executions[|s.run.executions|]);
      ActIsPaid(def, chain, recorded, node, attempt, result, a);
    }
  }

  // ---- Drives and runs ----

  /** An obedient backend stops, and its attempts and the executions they leave are paid by the budget. */
  lemma {:induction false} ObedientDriveIsBounded(def: WorkflowDefinition, backendId: string, chain: seq<NodeId>,
                                                  s: Session, attempts: seq<Attempt>)
    requires ChainShaped(def, chain) && Inv(def, chain, s) && s.run.state.Running?
             && Obedient(def, backendId, s, attempts)
    ensures var t := Attempts(def, backendId, s, attempts);
            && |attempts| <= Budget(def, chain, s.run)
            && |t.run.executions| <= |s.run.executions| + Budget(def, chain, s.run)
            && (t.run.state.Waiting? ==>
                  t.run.currentNode.Some? && |t.run.executions| + Budget(def, chain, t.run) - 1 <= |s.run.executions|
                      + Budget(def, chain, s.run))
    decreases |attempts|
  {
    hide ChainShaped, Inv, Budget, Dispatch;
    RunningHasNode(def, chain, s);
    BudgetIsPositive(def, chain, s);
    if attempts != [] {
      var o := Dispatch(def, backendId, s, attempts[0]);
      DispatchSpends(def, backendId, chain, s, attempts[0]);
      DispatchKeeps(def, backendId, chain, s, attempts[0]);
      if |attempts| > 1 {
        ObedientDriveIsBounded(def, backendId, chain, o.session, attempts[1..]);
      } else {
        assert Attempts(def, backendId, o.session, attempts[1..]) == o.session;
      }
    }
  }

  lemma {:induction false} RunningHasNode(def: WorkflowDefinition, chain: seq<NodeId>, s: Session)
    requires Inv(def, chain, s) && (s.run.state.Running? || s.run.state.Waiting?)
    ensures s.run.currentNode.Some?
  {
  }

  ghost predicate Within(def: WorkflowDefinition, chain: seq<NodeId>, s: Session, bound: int) {
    && |s.run.executions| <= bound
    && (s.run.state.Waiting? ==>
          s.run.currentNode.Some? && |s.run.executions| + Budget(def, chain, s.run) - 1 <= bound)
  }

  lemma {:induction false} DriveWithin(def: WorkflowDefinition, backendId: string, chain: seq<NodeId>, s: Session,
                                       d: Drive, bound: int)
    requires ChainShaped(def, chain) && Inv(def, chain, s) && s.run.state.Running?
    requires Obedient(def, backendId, s, d.attempts) && Uncancelled(d.ended)
    requires s.run.currentNode.Some? && |s.run.executions| + Budget(def, chain, s.run) <= bound
    ensures Within(def, chain, DriveRun(def, backendId, s, d), bound)
  {
    hide ChainShaped, Inv, Budget, Attempts;
    ObedientDriveIsBounded(def, backendId, chain, s, d.attempts);
  }

  /** An obedient, uncancelled start or decision. */
  predicate Calm(def: WorkflowDefinition, backendId: string, s: Session, e: Event) {
    match e
    case Launch(_, _, d) =>
      Uncancelled(d.ended) && Obedient(def, backendId, s.(run := Commit(s.run.(state := Running))), d.attempts)
    case Submit(decision, _, cancelled, completed, d) =>
      && Uncancelled(d.ended)
      && (Matches(s.run, decision) ==>
            var decided := s.(run := Decide(s.run, decision));
            Obedient(def, backendId, Advance(def, decided, s.run.currentNode.value, cancelled, completed).session,
                     d.attempts))
    case Reopen(_) => true
    case _ => false
  }

  predicate CalmRun(def: WorkflowDefinition, backendId: string, s: Session, events: seq<Event>) {
    events == [] ||
      (CalmRun(def, backendId, s, events[..|events| - 1])
       && Calm(def, backendId, Play(def, backendId, s, events[..|events| - 1]), events[|events| - 1]))
  }

  /** Before the run is launched its whole budget fits; afterwards its history does. */
  ghost predicate Affordable(def: WorkflowDefinition, chain: seq<NodeId>, s: Session) {
    && Within(def, chain, s, Bound(def, chain))
    && (s.run.state.Created? ==>
          s.run.currentNode.Some? && s.run.executions == [] && Budget(def, chain, s.run) <= Bound(def, chain))
  }

  lemma {:induction false} SubmitAffordable(def: WorkflowDefinition, backendId: string, chain: seq<NodeId>, s: Session,
                                            e: Event)
    requires ChainShaped(def, chain) && Inv(def, chain, s) && Affordable(def, chain, s)
    requires e.Submit? && Calm(def, backendId, s, e) && Matches(s.run, e.decision)
    ensures Within(def, chain, SubmitRun(def, backendId, s, e), Bound(def, chain))
  {
    hide ChainShaped, Inv, Bound, DriveRun, Budget, Obedient;
    var decided := s.(run := Decide(s.run, e.decision));
    var node := s.run.currentNode.value;
    DecideIsFree(def, chain, s, e.decision);
    ShapeIsDistinct(def, chain);
    DecideKeeps(def, chain, s, e.decision);
    if e.emitted.NoFault? && e.decision.approved {
      var o := Advance(def, decided, node, e.cancelled, e.completedEmission);
      AdvanceSpends(def, chain, decided, node, e.cancelled, e.completedEmission);
      AdvanceKeeps(def, chain, decided, node, e.cancelled, e.completedEmission);
      if o.reply.Told? && o.reply.next.Some? {
        DriveWithin(def, backendId, chain, o.session, e.drive, Bound(def, chain));
      }
    }
  }

  lemma {:induction false} DecideIsFree(def: WorkflowDefinition, chain: seq<NodeId>, s: Session, d: HumanDecision)
    requires Matches(s.run, d)
    ensures var decided := Decide(s.run, d);
            && |decided.executions| == |s.run.executions| && decided.currentNode == s.run.currentNode
            && Budget(def, chain, decided) == Budget(def, chain, s.run)
  {
    var result := if d.approved then Success(d.reason) else Fail("HUMAN_REJECTED", NotStarted);
    SettledRetries(def.nodes, s.run.executions, result);
  }

  lemma {:induction false} SettledRetries(nodes: seq<NodeDefinition>, executions: seq<NodeExecution>,
                                          result: NodeResult)
    requires executions != []
    ensures var last := |executions| - 1;
            RetriesLeft(nodes, executions[last := executions[last].(result := result)])
                == RetriesLeft(nodes, executions)
  {
    if nodes != [] {
      Settled(executions, result, nodes[0].nodeId);
      SettledRetries(nodes[1..], executions, result);
    }
  }

  lemma {:induction false} ApplyAffordable(def: WorkflowDefinition, backendId: string, chain: seq<NodeId>, s: Session,
                                           e: Event)
    requires ChainShaped(def, chain) && Inv(def, chain, s) && Affordable(def, chain, s) && Calm(def, backendId, s, e)
    ensures Affordable(def, chain, Apply(def, backendId, s, e))
  {
    hide ChainShaped, Inv, Bound, Budget, Obedient;
    if e.Launch? && s.run.state.Created? {
      var running := s.(run := Commit(s.run.(state := Running)));
      LaunchedInv(def, chain, s, running);
      assert Budget(def, chain, running.run) == Budget(def, chain, s.run) by {
        BudgetOf(def, chain, s.run, running.run);
      }
      DriveWithin(def, backendId, chain, running, e.drive, Bound(def, chain));
      DriveLeavesCreated(def, backendId, running, e.drive);
    } else if e.Submit? && Matches(s.run, e.decision) {
      SubmitAffordable(def, backendId, chain, s, e);
      SubmitLeavesCreated(def, backendId, s, e);
    }
  }

  lemma {:induction false} BudgetOf(def: WorkflowDefinition, chain: seq<NodeId>, a: WorkflowRun, b: WorkflowRun)
    requires a.currentNode.Some? && a.currentNode == b.currentNode && a.reworkCount == b.reworkCount
             && a.executions == b.executions
    ensures Budget(def, chain, a) == Budget(def, chain, b)
  {
  }

  lemma {:induction false} LaunchedInv(def: WorkflowDefinition, chain: seq<NodeId>, s: Session, running: Session)
    requires Inv(def, chain, s) && s.run.state.Created? && running == s.(run := Commit(s.run.(state := Running)))
    ensures Inv(def, chain, running)
  {
  }

  lemma {:induction false} AttemptsLeaveCreated(def: WorkflowDefinition, backendId: string, s: Session,
                                                attempts: seq<Attempt>)
    requires !s.run.state.Created?
    ensures !Attempts(def, backendId, s, attempts).run.state.Created?
    decreases |attempts|
  {
    if attempts != [] {
      AttemptsLeaveCreated(def, backendId, Dispatch(def, backendId, s, attempts[0]).session, attempts[1..]);
    }
  }

  lemma {:induction false} DriveLeavesCreated(def: WorkflowDefinition, backendId: string, s: Session, d: Drive)
    requires !s.run.state.Created?
    ensures !DriveRun(def, backendId, s, d).run.state.Created?
  {
    AttemptsLeaveCreated(def, backendId, s, d.attempts);
  }

  lemma {:induction false} SubmitLeavesCreated(def: WorkflowDefinition, backendId: string, s: Session, e: Event)
    requires e.Submit? && Matches(s.run, e.decision)
    ensures !SubmitRun(def, backendId, s, e).run.state.Created?
  {
    hide DriveRun;
    var decided := s.(run := Decide(s.run, e.decision));
    var o := Advance(def, decided, s.run.currentNode.value, e.cancelled, e.completedEmission);
    DriveLeavesCreated(def, backendId, o.session, e.drive);
  }

  /**
   * A run whose backend dispatches what it is told, and which nobody cancels or resumes, leaves at most
   * (rework limit + 1) executions per chain node and one per retry.
   */
  lemma {:induction false} RunIsBounded(def: WorkflowDefinition, backendId: string, chain: seq<NodeId>, runId: string,
                                        task: EngineeringTask, events: seq<Event>)
    requires ChainShaped(def, chain) && def.rework.maxReworks >= 0
    requires CalmRun(def, backendId, NewRun(def, backendId, runId, task), events)
    ensures |Play(def, backendId, NewRun(def, backendId, runId, task), events).run.executions| <= Bound(def, chain)
  {
    NewRunInv(def, backendId, chain, runId, task);
    NewRunAffordable(def, backendId, chain, runId, task);
    RunIsAffordable(def, backendId, chain, NewRun(def, backendId, runId, task), events);
  }

  lemma {:induction false} NewRunAffordable(def: WorkflowDefinition, backendId: string, chain: seq<NodeId>,
                                            runId: string, task: EngineeringTask)
    requires ChainShaped(def, chain) && def.rework.maxReworks >= 0
    ensures Affordable(def, chain, NewRun(def, backendId, runId, task))
  {
    hide ChainShaped, RetriesLeft, Distance;
    assert chain != [] && Distinct(chain) && def.entryNode == chain[0] by { ShapeStarts(def, chain); }
    DistanceAt(chain, 0);
    OneLess(def.rework.maxReworks + 1, |chain|);
    assert def.rework.maxReworks * |chain| >= 0;
  }

  lemma {:induction false} ShapeStarts(def: WorkflowDefinition, chain: seq<NodeId>)
    requires ChainShaped(def, chain)
    ensures chain != [] && Distinct(chain) && def.entryNode == chain[0]
  {
  }

  lemma {:induction false} RunIsAffordable(def: WorkflowDefinition, backendId: string, chain: seq<NodeId>, s: Session,
                                           events: seq<Event>)
    requires ChainShaped(def, chain) && Affordable(def, chain, s) && Inv(def, chain, s)
             && CalmRun(def, backendId, s, events)
    ensures Affordable(def, chain, Play(def, backendId, s, events)) && Inv(def, chain, Play(def, backendId, s, events))
    decreases |events|
  {
    hide Inv, Calm, ChainShaped, Affordable, Apply;
    if events != [] {
      var n := |events| - 1;
      RunIsAffordable(def, backendId, chain, s, events[..n]);
      ApplyAffordable(def, backendId, chain, Play(def, backendId, s, events[..n]), events[n]);
      ApplyKeeps(def, backendId, chain, Play(def, backendId, s, events[..n]), events[n]);
    }
  }

  /** Every catalog workflow is bounded that way. */
  lemma {:induction false} CatalogRunIsBounded(kind: Kind, risk: Risk, backendId: string, runId: string,
                                               task: EngineeringTask, events: seq<Event>)
    requires CalmRun(Definition(kind, risk), backendId, NewRun(Definition(kind, risk), backendId, runId, task), events)
    ensures |CatalogRun(kind, risk, backendId, runId, task, events).run.executions| <= Bound(Definition(kind, risk),
        Sequence(kind, risk))
  {
    hide Definition, Sequence, CalmRun, ChainShaped, Bound;
    CatalogIsChain(kind, risk);
    RunIsBounded(Definition(kind, risk), backendId, Sequence(kind, risk), runId, task, events);
  }
}
