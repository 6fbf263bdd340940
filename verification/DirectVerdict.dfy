/** What a verification leaves of its task, told from how it went and from the run it stored. */
module DirectVerdict {
  import opened Contracts
  import opened Direct
  import opened DirectTheorems
  import opened DirectSteps
  import opened DirectVerify
  import C = Catalog
  import D = Dispatching
  import E = RunEngine
  import H = Honesty
  import W = WorkBound

  /** No earlier run of the task is active. */
  ghost predicate Admitted(w: World, id: string) {
    forall r <- w.runs :: w.runs[r].run.taskId == id ==>
      w.runs[r].run.state !in {RunState.Created, RunState.Running, RunState.Waiting}
  }

  /** ... and the verification run got past its start. */
  ghost predicate Launched(w: World, id: string, v: Verification) {
    Admitted(w, id) && v.created.NoFault? && v.started.NoFault?
  }

  const INTERRUPTED: Option<Failure> := Some(Failure("DIRECT_INTERRUPTED", false, NotStarted))

  /** Nothing was lost after the run: its evidence was captured where documents need it, and the last record written. */
  ghost predicate Recorded(t: Task, run: WorkflowRun, v: Verification)
    requires v.end.Ended?
  {
    (t.requiresDocuments && run.state.Completed? ==> v.end.evidenceOk) && v.end.auditOk
  }

  /** The stage a launched verification leaves: what the stored run calls for, or Blocked when its end was not
      recorded. */
  ghost predicate StageFits(t: Task, stage: Stage, run: WorkflowRun, v: Verification)
    requires v.end.Ended?
  {
    var sentBack := run.failure.Some? && run.failure.value.code == "PRIMARY_REWORK_REQUIRED";
    if Recorded(t, run, v) then
      && (stage == Stage.AwaitingAcceptance <==> run.state.Completed?)
      && (stage == Rework <==> !run.state.Completed? && sentBack)
      && (stage == Stage.Blocked <==> !run.state.Completed? && !sentBack)
    else
      && stage == Stage.Blocked
      && (run.state.Completed?
          || (run.state.Blocked? && run.failure == INTERRUPTED))
  }

  /** ... Checking when it was cut off, and Blocked when its run was refused or got stuck at its start, where it is
      blocked too. */
  ghost predicate StageAfter(w: World, u: World, id: string, v: Verification)
    requires id in w.tasks && id in u.tasks
  {
    if v.end.Crashed? then u.tasks[id].stage == Checking
    else if !Admitted(w, id) then u.tasks[id].stage == Stage.Blocked && u.runs == w.runs
    else if !Launched(w, id, v) then
      && u.tasks[id].stage == Stage.Blocked && v.runId in u.runs
      && u.runs[v.runId].run.state.Blocked? && u.runs[v.runId].run.failure == INTERRUPTED
    else v.runId in u.runs && StageFits(w.tasks[id], u.tasks[id].stage, u.runs[v.runId].run, v)
  }

  lemma {:induction false} ConcludeEnds(w: World, id: string, run: WorkflowRun, v: Verification)
    requires id in w.tasks && v.end.Ended? && v.runId in w.runs && w.runs[v.runId].run == run
    ensures var u := Conclude(w, id, run, v);
            && id in u.tasks && v.runId in u.runs
            && (!(v.created.NoFault? && v.started.NoFault?) ==>
                  u.tasks[id].stage == Stage.Blocked
                  && (run.state.Completed?
                      || (u.runs[v.runId].run.state.Blocked? && u.runs[v.runId].run.failure == INTERRUPTED)))
            && (v.created.NoFault? && v.started.NoFault? ==>
                  StageFits(w.tasks[id], u.tasks[id].stage, u.runs[v.runId].run, v))
  {
  }

  lemma {:induction false} StuckRunIsOpen(backendId: string, w: World, id: string, v: Verification, start: Snapshot)
    requires id in w.tasks && v.end.Ended? && !(v.created.NoFault? && v.started.NoFault?)
    ensures VerifyRun(backendId, w, id, v, start).run.state in {RunState.Created, RunState.Running}
  {
    hide C.CreateDirect, Handled;
  }

  lemma {:induction false} VerifyEndsExactly(writable: (Policy, string) -> bool, backendId: string, w: World,
                                             id: string, revision: int, v: Verification, view: Reads)
    requires MayVerify(writable, w, id, revision, v, view)
    ensures var u := Step(writable, backendId, w, VerifyTask(id, revision, v, view));
            id in u.tasks && StageAfter(w, u, id, v)
  {
    hide VerifyRun, VerifyDeliveries, MayVerify, Conclude, StageFits, RunRefused;
    MayVerifyFacts(writable, w, id, revision, v, view);
    var start := view.snapshot.value;
    var checking := VerifyStart(w, id, v, view);
    RefusedWhenActive(checking, id);
    if v.end.Ended? {
      var s := VerifyRun(backendId, checking, id, v, start);
      var ran := Note(checking.(runs := checking.runs[v.runId := RunEntry(s.run, checking.tasks[id].info.workspaceId)],
                                tasks := checking.tasks[id := checking.tasks[id].(info := s.task)]),
                      VerifyDeliveries(backendId, checking, id, v, start));
      ConcludeEnds(ran, id, s.run, v);
      if !(v.created.NoFault? && v.started.NoFault?) { StuckRunIsOpen(backendId, checking, id, v, start); }
      SameNeed(w.tasks[id], ran.tasks[id], v);
    }
  }

  lemma {:induction false} SameNeed(t: Task, u: Task, v: Verification)
    requires v.end.Ended? && u.requiresDocuments == t.requiresDocuments
    ensures forall stage, run :: StageFits(u, stage, run, v) <==> StageFits(t, stage, run, v)
  {
  }

  lemma {:induction false} RefusedWhenActive(w: World, id: string)
    ensures RunRefused(w, id)
            <==> exists r <- w.runs :: (w.runs[r].run.taskId == id
                                        && w.runs[r].run.state in {RunState.Created, RunState.Running,
                                                                   RunState.Waiting})
  {
  }

  // ---- Work that is sent back ----

  /** The handler answers, and nothing goes wrong around it. */
  predicate Undisturbed(d: Dispatch) {
    var a := d.attempt;
    && a.before.NoFault? && a.reply.Returned? && !a.expired && !a.cancelled && a.recorded.NoFault?
    && !a.cancelledAfter && !a.cancelledLate && a.emitted.NoFault?
  }

  /** Some execution asked for the work to be done again. */
  ghost predicate AskedForRework(executions: seq<NodeExecution>) {
    exists k :: 0 <= k < |executions| && executions[k].result.outcome.ReworkRequired?
  }

  const HANDED_BACK: Option<Failure> := Some(Failure("PRIMARY_REWORK_REQUIRED", false, NotStarted))

  /** Where the verification definitions send work back, and who hands it back there. */
  lemma {:induction false} ReworkNode(risk: Risk)
    ensures var def := C.CreateDirect(risk);
            && def.rework == ReworkPolicy(1, PRIMARY_REWORK)
            && def.Node(PRIMARY_REWORK).Some? && def.Node(PRIMARY_REWORK).value.resultContract == "node-result/v1"
            && def.Node(PRIMARY_REWORK).value.maxRetries == 0
  {
    hide FindNode;
    var def, all := C.CreateDirect(risk), C.Sequence(C.Direct, risk) + [PRIMARY_REWORK];
    assert C.Definition(C.Direct, risk) == def;
    var node := C.MakeNode(C.Direct, PRIMARY_REWORK);
    assert def.nodes[|all| - 1] == node;
    assert def.Node(PRIMARY_REWORK).Some?;
    var i :| 0 <= i < |def.nodes| && def.nodes[i] == def.Node(PRIMARY_REWORK).value;
    assert def.nodes[i] == C.MakeNode(C.Direct, all[i]);
  }

  /** The run is at work, and has sent nothing back unless it stands where work is handed back. */
  ghost predicate AtWork(s: E.Session, backendId: string) {
    && s.run.state.Running? && s.run.currentNode.Some? && s.run.backendId == backendId
    && (s.run.currentNode.value != PRIMARY_REWORK ==> s.run.reworkCount == 0 && !AskedForRework(s.run.executions))
  }

  /** At the node where work is handed back, the run fails and says so. */
  lemma {:induction false} HandedBack(risk: Risk, backendId: string, s: E.Session, start: Snapshot, d: Dispatch)
    requires AtWork(s, backendId) && Undisturbed(d) && d.attempt.node == PRIMARY_REWORK
    requires s.run.currentNode == Some(PRIMARY_REWORK)
    ensures var o := E.Dispatch(C.CreateDirect(risk), backendId, s, HandledOne(start, d));
            o.session.run.state.Failed? && o.session.run.failure == HANDED_BACK && o.reply == E.Told(None)
  {
    hide C.CreateDirect, E.Dispatch, E.Act;
    ReworkNode(risk);
    var def, a := C.CreateDirect(risk), HandledOne(start, d);
    D.DispatchRecords(def, backendId, s, a);
    var recorded, node, r := D.DispatchActs(def, backendId, s, a);
    assert r == Fail("PRIMARY_REWORK_REQUIRED", NotStarted);
    ActFails(def, recorded, node, |D.Earlier(s.run.executions, a.node)| + 1, r, a);
  }

  lemma {:induction false} ActFails(def: WorkflowDefinition, s: E.Session, node: NodeDefinition, attempt: int,
                                    r: NodeResult, a: E.Attempt)
    requires r == Fail("PRIMARY_REWORK_REQUIRED", NotStarted) && a.emitted.NoFault?
    ensures var o := E.Act(def, s, node, attempt, r, a);
            o.session.run.state.Failed? && o.session.run.failure == HANDED_BACK && o.reply == E.Told(None)
  {
  }

  lemma {:induction false} OneMoreAsked(before: seq<NodeExecution>, after: seq<NodeExecution>)
    requires |after| == |before| + 1 && after[..|before|] == before
    ensures AskedForRework(after) <==> AskedForRework(before) || after[|before|].result.outcome.ReworkRequired?
  {
    assert forall k :: 0 <= k < |before| ==> after[k] == before[k];
    if k :| 0 <= k < |before| && before[k].result.outcome.ReworkRequired? {
      assert after[k].result.outcome.ReworkRequired?;
    }
  }

  /** Before that, a dispatch either asks for rework, and the run goes to that node or stays Running without being told
      where to go, or it does not. */
  lemma {:induction false} NotYetHandedBack(risk: Risk, backendId: string, s: E.Session, start: Snapshot, d: Dispatch)
    requires AtWork(s, backendId) && Undisturbed(d) && s.run.currentNode == Some(d.attempt.node)
    requires d.attempt.node != PRIMARY_REWORK
    ensures var o := E.Dispatch(C.CreateDirect(risk), backendId, s, HandledOne(start, d));
            && (o.reply.Told? && o.reply.next.Some? ==> AtWork(o.session, backendId))
            && (AskedForRework(o.session.run.executions) ==> o.session.run.state.Running?)
  {
    hide C.CreateDirect, E.Dispatch, D.RecordedAs, D.MayComplete, FindRoute;
    ReworkNode(risk);
    var def, a := C.CreateDirect(risk), HandledOne(start, d);
    var o := E.Dispatch(def, backendId, s, a);
    if D.Called(def, backendId, s, a) {
      var before, after := s.run.executions, o.session.run.executions;
      D.DispatchRecords(def, backendId, s, a);
      D.DispatchNamesExactly(def, backendId, s, a);
      D.DispatchEndsExactly(def, backendId, s, a);
      OneMoreAsked(before, after);
    } else {
      D.UncalledChangesNothing(def, backendId, s, a);
    }
  }

  /** An obedient drive in which nothing goes wrong, that comes to an end and sends work back, ends where the work is
      handed back. */
  lemma {:induction false} SentBackEnds(risk: Risk, backendId: string, s: E.Session, start: Snapshot, ds: seq<Dispatch>)
    requires AtWork(s, backendId) && forall i :: 0 <= i < |ds| ==> Undisturbed(ds[i])
    requires W.Obedient(C.CreateDirect(risk), backendId, s, Handled(start, ds))
    ensures var t := E.Attempts(C.CreateDirect(risk), backendId, s, Handled(start, ds)).run;
            !t.state.Running? && AskedForRework(t.executions) ==> t.state.Failed? && t.failure == HANDED_BACK
    decreases |ds|
  {
    hide C.CreateDirect, E.Dispatch, Undisturbed, AskedForRework, HandledOne;
    if ds != [] {
      var def := C.CreateDirect(risk);
      assert Handled(start, ds)[0] == HandledOne(start, ds[0]) && Handled(start, ds)[1..] == Handled(start, ds[1..]);
      HandledNode(start, ds[0]);
      var o := E.Dispatch(def, backendId, s, HandledOne(start, ds[0]));
      if ds[0].attempt.node == PRIMARY_REWORK {
        HandedBack(risk, backendId, s, start, ds[0]);
      } else {
        NotYetHandedBack(risk, backendId, s, start, ds[0]);
      }
      if |ds| > 1 {
        SentBackEnds(risk, backendId, o.session, start, ds[1..]);
      } else {
        assert E.Attempts(def, backendId, o.session, []) == o.session;
      }
    }
  }

  lemma {:induction false} HandledNode(start: Snapshot, d: Dispatch)
    ensures HandledOne(start, d).node == d.attempt.node
  {
  }

  /** The session the attempts of a launched verification leave. */
  ghost function After(backendId: string, w: World, id: string, v: Verification, view: Reads): E.Session
    requires id in w.tasks && w.tasks[id].info.workspaceId in w.projects && view.snapshot.Some?
  {
    E.Attempts(Def(w.tasks[id]), backendId, RunningSession(backendId, VerifyStart(w, id, v, view), id, v),
               Handled(view.snapshot.value, v.dispatches))
  }

  /** The backend dispatches what it is told, nothing goes wrong, and the run comes to an end. */
  ghost predicate RunsToItsEnd(backendId: string, w: World, id: string, v: Verification, view: Reads)
    requires id in w.tasks && w.tasks[id].info.workspaceId in w.projects && view.snapshot.Some?
  {
    && v.end.Ended? && v.end.ended.threw.NoFault? && Launched(w, id, v)
    && (forall i :: 0 <= i < |v.dispatches| ==> Undisturbed(v.dispatches[i]))
    && W.Obedient(Def(w.tasks[id]), backendId, RunningSession(backendId, VerifyStart(w, id, v, view), id, v),
                  Handled(view.snapshot.value, v.dispatches))
    && !After(backendId, w, id, v, view).run.state.Running?
  }

  /** A verification that runs to its end, with its end recorded, stores the run its attempts left. */
  lemma {:induction false} StoresTheRun(backendId: string, w: World, id: string, v: Verification, view: Reads)
    requires id in w.tasks && w.tasks[id].info.workspaceId in w.projects && view.snapshot.Some?
    requires RunsToItsEnd(backendId, w, id, v, view) && v.end.auditOk
    ensures var u := Verify(backendId, w, id, v, view);
            v.runId in u.runs && u.runs[v.runId].run == After(backendId, w, id, v, view).run
  {
    hide Handled, E.Attempts, W.Obedient, C.CreateDirect, VerifyDeliveries, Undisturbed;
    RefusedWhenActive(VerifyStart(w, id, v, view), id);
  }

  /** A verification that runs to its end, and in which some handler asked for rework, leaves its task in Rework. */
  lemma {:induction false} SentBackLeavesRework(writable: (Policy, string) -> bool, backendId: string, w: World,
                                                id: string, revision: int, v: Verification, view: Reads)
    requires id in w.tasks && w.tasks[id].info.workspaceId in w.projects && view.snapshot.Some?
    requires MayVerify(writable, w, id, revision, v, view) && RunsToItsEnd(backendId, w, id, v, view) && v.end.auditOk
    requires AskedForRework(After(backendId, w, id, v, view).run.executions)
    ensures var u := Step(writable, backendId, w, VerifyTask(id, revision, v, view));
            id in u.tasks && u.tasks[id].stage == Rework
  {
    hide Handled, E.Attempts, W.Obedient, C.CreateDirect, MayVerify, AskedForRework, Verify, Undisturbed;
    VerifyEndsExactly(writable, backendId, w, id, revision, v, view);
    StoresTheRun(backendId, w, id, v, view);
    var running := RunningSession(backendId, VerifyStart(w, id, v, view), id, v);
    StartsAtWork(w.tasks[id].info.risk, backendId, running);
    SentBackEnds(w.tasks[id].info.risk, backendId, running, view.snapshot.value, v.dispatches);
  }

  lemma {:induction false} StartsAtWork(risk: Risk, backendId: string, s: E.Session)
    requires s.run.state.Running? && s.run.currentNode == Some(C.CreateDirect(risk).entryNode)
             && s.run.backendId == backendId && s.run.reworkCount == 0 && s.run.executions == []
    ensures AtWork(s, backendId)
  {
  }
}
