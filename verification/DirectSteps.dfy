/** Each command of the acceptance protocol keeps its invariant. */
module DirectSteps {
  import opened Contracts
  import opened Direct
  import opened DirectTheorems
  import E = RunEngine
  import H = Honesty
  import T = RunTheorems
  import C = Catalog

  // ---- The verification run ----

  /** A run keeps its identity and its task, up to the task's lifecycle. */
  ghost predicate SameRun(s: E.Session, t: E.Session) {
    t.run.runId == s.run.runId && t.run.taskId == s.run.taskId && t.task == s.task.(lifecycle := t.task.lifecycle)
  }

  lemma {:induction false} DispatchIsSameRun(def: WorkflowDefinition, backendId: string, s: E.Session, a: E.Attempt)
    ensures SameRun(s, E.Dispatch(def, backendId, s, a).session)
  {
    hide E.Settle;
    H.DispatchCases(def, backendId, s, a);
  }

  lemma {:induction false} AttemptsAreSameRun(def: WorkflowDefinition, backendId: string, s: E.Session,
                                              attempts: seq<E.Attempt>)
    ensures SameRun(s, E.Attempts(def, backendId, s, attempts))
    decreases |attempts|
  {
    hide E.Dispatch;
    if attempts != [] {
      DispatchIsSameRun(def, backendId, s, attempts[0]);
      AttemptsAreSameRun(def, backendId, E.Dispatch(def, backendId, s, attempts[0]).session, attempts[1..]);
    }
  }

  lemma {:induction false} LaunchIsSameRun(def: WorkflowDefinition, backendId: string, s: E.Session, e: E.Event)
    requires e.Launch?
    ensures SameRun(s, E.Apply(def, backendId, s, e))
  {
    hide E.Attempts;
    var running := s.(run := E.Commit(s.run.(state := RunState.Running)));
    AttemptsAreSameRun(def, backendId, running, e.drive.attempts);
  }

  lemma {:induction false} VerifyRunIsSameRun(backendId: string, w: World, id: string, v: Verification, start: Snapshot)
    requires id in w.tasks
    ensures SameRun(CreatedSession(backendId, w, id, v), VerifyRun(backendId, w, id, v, start))
  {
    hide E.Apply, E.Attempts, Handled, C.CreateDirect;
    var def, created := Def(w.tasks[id]), CreatedSession(backendId, w, id, v);
    var attempts := Handled(start, v.dispatches);
    match v.end {
      case Ended(ended, _, _) =>
        LaunchIsSameRun(def, backendId, created, E.Launch(v.created, v.started, E.Drive(attempts, ended)));
      case Crashed(AfterDriving(ended)) =>
        LaunchIsSameRun(def, backendId, created, E.Launch(E.NoFault, E.NoFault, E.Drive(attempts, ended)));
      case Crashed(WhileDriving) =>
        AttemptsAreSameRun(def, backendId, RunningSession(backendId, w, id, v), attempts);
      case _ =>
    }
  }

  // ---- Delivery means the source was seen again ----

  ghost predicate DeliverySucceeded(executions: seq<NodeExecution>, k: int) {
    0 <= k < |executions| && executions[k].nodeId == DELIVER && executions[k].result.outcome.Succeeded?
  }

  /** A delivery recorded by one dispatch came from a handler that saw the source verification started with. */
  lemma {:induction false} DispatchDelivers(def: WorkflowDefinition, backendId: string, s: E.Session, start: Snapshot,
                                            d: Dispatch, k: int)
    requires DeliverySucceeded(E.Dispatch(def, backendId, s, HandledOne(start, d)).session.run.executions, k)
    ensures DeliverySucceeded(s.run.executions, k)
            || (DeliveredBetween(s, E.Dispatch(def, backendId, s, HandledOne(start, d)).session) && d.seen == start)
  {
    hide E.Dispatch, E.Settle;
    var a := HandledOne(start, d);
    var o := E.Dispatch(def, backendId, s, a);
    H.DispatchCases(def, backendId, s, a);
    if o.session != s {
      H.SettleFacts(def.Node(a.node).value, a);
      ActKeepsHistory(def, s.(run := E.Record(s.run, E.Settle(def.Node(a.node).value, a))), def.Node(a.node).value,
                      E.CountOf(s.run.executions, a.node) + 1, E.Settle(def.Node(a.node).value, a), a);
    }
  }

  lemma {:induction false} ActKeepsHistory(def: WorkflowDefinition, s: E.Session, node: NodeDefinition, attempt: int,
                                           result: NodeResult, a: E.Attempt)
    ensures E.Act(def, s, node, attempt, result, a).session.run.executions == s.run.executions
  {
  }

  lemma {:induction false} DriveDelivers(def: WorkflowDefinition, backendId: string, s: E.Session, id: string,
                                         runId: string, start: Snapshot, ds: seq<Dispatch>, k: int)
    requires DeliverySucceeded(E.Attempts(def, backendId, s, Handled(start, ds)).run.executions, k)
    ensures DeliverySucceeded(s.run.executions, k)
            || DeliveredAt(id, runId, start) in Deliveries(def, backendId, s, id, runId, start, ds)
    decreases |ds|
  {
    hide E.Dispatch, HandlerReply, DeliveredBetween;
    if ds != [] {
      var a := HandledOne(start, ds[0]);
      var t := E.Dispatch(def, backendId, s, a).session;
      assert Handled(start, ds)[0] == a && Handled(start, ds)[1..] == Handled(start, ds[1..]);
      DriveDelivers(def, backendId, t, id, runId, start, ds[1..], k);
      if DeliverySucceeded(t.run.executions, k) {
        DispatchDelivers(def, backendId, s, start, ds[0], k);
      }
    }
  }

  lemma {:induction false} FinishAddsNoSuccess(s: E.Session, e: E.Ended, k: int)
    requires DeliverySucceeded(E.Finish(s, e).run.executions, k)
    ensures DeliverySucceeded(s.run.executions, k)
  {
  }

  /** A completed verification run went through a delivery that saw the source it started with. */
  lemma {:induction false} CompletedRunDelivered(backendId: string, w: World, id: string, v: Verification,
                                                 start: Snapshot)
    requires id in w.tasks && v.end.Ended? && !LaunchFailed(v)
    requires VerifyRun(backendId, w, id, v, start).run.state.Completed?
    ensures DeliveredAt(id, v.runId, start) in VerifyDeliveries(backendId, w, id, v, start)
    ensures T.Verified(C.Direct, w.tasks[id].info.risk, VerifyRun(backendId, w, id, v, start).run.executions)
  {
    hide Handled, E.Attempts, E.Finish, Deliveries, C.ChainShaped, C.CreateDirect, C.Sequence, T.Inv;
    var risk := w.tasks[id].info.risk;
    var def, created := Def(w.tasks[id]), CreatedSession(backendId, w, id, v);
    var running, attempts := RunningSession(backendId, w, id, v), Handled(start, v.dispatches);
    var final := VerifyRun(backendId, w, id, v, start);
    var after := E.Attempts(def, backendId, running, attempts);
    assert final == E.Finish(after, v.end.ended);
    LaunchedRunIsVerified(risk, backendId, v.runId, w.tasks[id].info,
                          E.Launch(v.created, v.started, E.Drive(attempts, v.end.ended)));
    var k := E.LastIndex(final.run.executions, DELIVER);
    assert DeliverySucceeded(final.run.executions, k);
    FinishAddsNoSuccess(after, v.end.ended, k);
    DriveDelivers(def, backendId, running, id, v.runId, start, v.dispatches, k);
  }

  lemma {:induction false} LaunchedRunIsVerified(risk: Risk, backendId: string, runId: string, task: EngineeringTask,
                                                 e: E.Event)
    requires E.Apply(C.CreateDirect(risk), backendId, E.NewRun(C.CreateDirect(risk), backendId, runId, task),
                     e).run.state.Completed?
    ensures var def := C.CreateDirect(risk);
            T.Verified(C.Direct, risk, E.Apply(def, backendId, E.NewRun(def, backendId, runId, task), e).run.executions)
  {
    hide E.Apply, E.NewRun, C.CreateDirect;
    var def := C.Definition(C.Direct, risk);
    var s := E.NewRun(def, backendId, runId, task);
    assert [e][..0] == [];
    assert E.Play(def, backendId, s, []) == s;
    assert T.CatalogRun(C.Direct, risk, backendId, runId, task, [e]) == E.Apply(def, backendId, s, e);
    T.CompletedRunWasRetested(C.Direct, risk, backendId, runId, task, [e]);
  }

  // ---- Commands, on the task they write ----

  lemma {:induction false} AgreedTask(writable: (Policy, string) -> bool, t: Task, id: string, log: seq<Entry>,
                                      runs: map<string, RunEntry>, a: Agreement)
    requires TaskInv(writable, t, id, log, runs) && a.version == |t.agreements| + 1
             && ChecksMap(a.checks, |a.anchors.acceptance|)
    ensures var agreed := t.(acceptance := a.anchors.acceptance, agreements := t.agreements + [a], stage := Stage.Ready,
                             submitted := None, riskApproval := None, alignment := None, lens := None);
            TaskInv(writable, Saved(agreed, TaskLifecycle.Ready), id, log + [AgreedOn(id, a)], runs)
  {
    hide SubmittedUnder, VerifiedUnder, AcceptedUnder, ApprovedUnder, ChecksMap, AlignsAll, EvidenceGiven, T.Verified;
    assert (log + [AgreedOn(id, a)])[..|log|] == log;
  }

  lemma {:induction false} BegunTask(writable: (Policy, string) -> bool, t: Task, id: string, log: seq<Entry>,
                                     runs: map<string, RunEntry>, approval: Option<OwnerEvidence>)
    requires TaskInv(writable, t, id, log, runs) && t.Agreed().Some?
    requires t.info.risk.Critical? && t.riskApproval.None? ==> approval.Some?
    ensures TaskInv(writable, Saved(t.(stage := Implementing, submitted := None, alignment := None, lens := None,
                                       riskApproval := if approval.Some? then approval else t.riskApproval), Active),
                    id, log + if approval.Some? then [Approved(id, approval.value)] else [], runs)
  {
    hide SubmittedUnder, VerifiedUnder, AcceptedUnder, ChecksMap, AlignsAll, EvidenceGiven, LastAgreed, T.Verified;
    var more := if approval.Some? then [Approved(id, approval.value)] else [];
    AgreementUnchanged(log, more, id);
    EvidenceUnchanged(writable, log, more, id);
    if approval.Some? {
      assert ApprovedUnder(log + more, id, approval.value, |log|);
    }
  }

  lemma {:induction false} SubmittedTask(writable: (Policy, string) -> bool, t: Task, id: string, log: seq<Entry>,
                                         runs: map<string, RunEntry>, seen: Snapshot)
    requires TaskInv(writable, t, id, log, runs) && t.stage == Implementing && t.Agreed().Some?
    requires AllowedChanges(writable, t.Agreed().value, t.Agreed().value.policy, seen)
    ensures TaskInv(writable, Saved(t.(stage := Submitted, submitted := Some(seen)), Active),
                    id, log + [SubmittedAt(id, seen, t.Agreed().value.policy)], runs)
  {
    hide VerifiedUnder, AcceptedUnder, ApprovedUnder, ChecksMap, AlignsAll, EvidenceGiven, AllowedChanges, LastAgreed;
    hide T.Verified;
    var more := [SubmittedAt(id, seen, t.Agreed().value.policy)];
    AgreementUnchanged(log, more, id);
    EvidenceUnchanged(writable, log, more, id);
    assert SubmittedUnder(writable, log + more, id, t.Agreed().value, seen, |log|);
    hide SubmittedUnder;
    var t' := Saved(t.(stage := Submitted, submitted := Some(seen)), Active);
    assert t'.Agreed() == t.Agreed();
    assert SubmissionStands(writable, t', id, log + more);
  }

  lemma {:induction false} AcceptedTask(writable: (Policy, string) -> bool, t: Task, id: string, log: seq<Entry>,
                                        runs: map<string, RunEntry>, owner: OwnerEvidence)
    requires TaskInv(writable, t, id, log, runs) && t.stage == Stage.AwaitingAcceptance && owner.Valid()
    requires t.requiresDocuments ==> t.alignment.Some?
    ensures TaskInv(writable, Saved(t.(stage := Stage.Done, decision := Some(owner)), TaskLifecycle.Done), id,
                    log + [AcceptedAt(id, t.lastRunId.value, t.submitted.value, t.Agreed().value.policy, owner)], runs)
  {
    hide SubmittedUnder, ApprovedUnder, ChecksMap, AlignsAll, EvidenceGiven, LastAgreed, T.Verified;
    var more := [AcceptedAt(id, t.lastRunId.value, t.submitted.value, t.Agreed().value.policy, owner)];
    AgreementUnchanged(log, more, id);
    EvidenceUnchanged(writable, log, more, id);
    var a, seen, runId := t.Agreed().value, t.submitted.value, t.lastRunId.value;
    var b, c, d :| VerifiedUnder(writable, log, id, a, seen, runId, b, c, d);
    assert VerifiedUnder(writable, log + more, id, a, seen, runId, b, c, d);
    assert AcceptedUnder(writable, log + more, id, a, seen, runId, owner, b, c, d, |log|);
    var t' := Saved(t.(stage := Stage.Done, decision := Some(owner)), TaskLifecycle.Done);
    assert t'.Agreed() == t.Agreed();
    assert VerificationStands(writable, t', id, log + more, runs);
    assert AcceptanceStands(writable, t', id, log + more);
  }

  /** A command that writes no evidence: it goes back to discussion or rework, or stays in review. */
  lemma {:induction false} QuietTask(writable: (Policy, string) -> bool, t: Task, t': Task, id: string, log: seq<Entry>,
                                     runs: map<string, RunEntry>)
    requires TaskInv(writable, t, id, log, runs)
    requires t'.info == t.info.(lifecycle := LifecycleOf(t'.stage))
    requires t'.agreements == t.agreements && t'.acceptance == t.acceptance && t'.lastRunId == t.lastRunId
             && t'.riskApproval == t.riskApproval
    requires t'.submitted.None? || t'.submitted == t.submitted
    requires RecordsAreCurrent(t')
    requires t'.stage == Stage.Discussing || (t'.stage == Rework && t.stage != Stage.Discussing)
             || (t'.stage == t.stage == Stage.AwaitingAcceptance && t'.submitted == t.submitted)
    ensures TaskInv(writable, t', id, log, runs)
  {
    hide SubmittedUnder, VerifiedUnder, AcceptedUnder, ApprovedUnder, ChecksMap, AlignsAll, EvidenceGiven, LastAgreed;
    hide T.Verified;
    assert t'.Agreed() == t.Agreed();
  }

  /** Everything a command of the protocol that goes through one save does to the world. */
  lemma {:induction false} SavedKeeps(writable: (Policy, string) -> bool, w: World, id: string, t: Task,
                                      lifecycle: TaskLifecycle, more: seq<Entry>)
    requires Inv(writable, w) && id in w.tasks && t.info == w.tasks[id].info && Concerns(more, id)
    requires t.stage in HOLDING ==> w.tasks[id].stage in HOLDING || !OtherWriter(w, id)
    requires TaskInv(writable, Saved(t, lifecycle), id, w.log + more, w.runs)
    ensures Inv(writable, Note(Save(w, id, t, lifecycle), more))
  {
    hide TaskInv, OtherWriter;
    CommandKeeps(writable, w, Note(Save(w, id, t, lifecycle), more), id, more);
  }

  lemma {:induction false} UnloggedKeeps(writable: (Policy, string) -> bool, w: World, id: string, t: Task,
                                         lifecycle: TaskLifecycle)
    requires Inv(writable, w) && id in w.tasks && t.info == w.tasks[id].info
    requires t.stage in HOLDING ==> w.tasks[id].stage in HOLDING
    requires TaskInv(writable, Saved(t, lifecycle), id, w.log, w.runs)
    ensures Inv(writable, Save(w, id, t, lifecycle))
  {
    hide Inv, TaskInv;
    assert w.log + [] == w.log;
    SavedKeeps(writable, w, id, t, lifecycle, []);
    assert Note(Save(w, id, t, lifecycle), []) == Save(w, id, t, lifecycle);
  }

  // ---- Commands, on the world ----

  lemma {:induction false} AgreeKeeps(writable: (Policy, string) -> bool, w: World, id: string, revision: int,
                                      anchors: Anchors, checks: seq<Check>, owner: OwnerEvidence, view: Reads)
    requires Inv(writable, w) && MayAgree(w, id, revision, anchors, checks, owner, view)
    ensures Inv(writable, Agree(w, id, anchors, checks, owner, view))
  {
    hide TaskInv, OtherWriter, ChecksMap, Exclusive;
    var t, seen := w.tasks[id], view.snapshot.value;
    var a := Agreement(|t.agreements| + 1, anchors, checks, w.projects[t.info.workspaceId], seen.workspaceStamp,
                       seen.files, owner);
    AgreedTask(writable, t, id, w.log, w.runs, a);
    var agreed := t.(acceptance := anchors.acceptance, agreements := t.agreements + [a], stage := Stage.Ready,
                     submitted := None, riskApproval := None, alignment := None, lens := None);
    SavedKeeps(writable, w, id, agreed, TaskLifecycle.Ready, [AgreedOn(id, a)]);
  }

  lemma {:induction false} BeginKeeps(writable: (Policy, string) -> bool, w: World, id: string, revision: int,
                                      approval: Option<OwnerEvidence>, view: Reads)
    requires Inv(writable, w) && MayBegin(w, id, revision, approval, view)
    ensures Inv(writable, Begin(w, id, approval))
  {
    hide TaskInv, OtherWriter, ChecksMap, Exclusive, DocumentsHold;
    var t := w.tasks[id];
    BegunTask(writable, t, id, w.log, w.runs, approval);
    SavedKeeps(writable, w, id, t.(stage := Implementing, submitted := None, alignment := None, lens := None,
                                   riskApproval := if approval.Some? then approval else t.riskApproval), Active,
               if approval.Some? then [Approved(id, approval.value)] else []);
  }

  lemma {:induction false} SubmitKeeps(writable: (Policy, string) -> bool, w: World, id: string, revision: int,
                                       report: string, view: Reads)
    requires Inv(writable, w) && MaySubmit(writable, w, id, revision, report, view)
    ensures Inv(writable, Submit(w, id, view))
  {
    hide TaskInv, OtherWriter, AllowedChanges, Exclusive, DocumentsHold;
    var t, seen := w.tasks[id], view.snapshot.value;
    SubmittedTask(writable, t, id, w.log, w.runs, seen);
    SavedKeeps(writable, w, id, t.(stage := Submitted, submitted := view.snapshot), Active,
               [SubmittedAt(id, seen, w.projects[t.info.workspaceId])]);
  }

  lemma {:induction false} AwaitingFacts(writable: (Policy, string) -> bool, t: Task, id: string, log: seq<Entry>,
                                         runs: map<string, RunEntry>)
    requires TaskInv(writable, t, id, log, runs) && t.stage == Stage.AwaitingAcceptance
    ensures t.submitted.Some? && t.Agreed().Some? && t.lastRunId.Some?
            && t.info.lifecycle == TaskLifecycle.AwaitingAcceptance
    ensures RecordsAreCurrent(t) && ChecksMap(t.Agreed().value.checks, |t.acceptance|)
  {
    hide VerifiedUnder, LastAgreed, ChecksMap, AlignsAll, EvidenceGiven, T.Verified;
  }

  lemma {:induction false} AcceptKeeps(writable: (Policy, string) -> bool, w: World, id: string, revision: int,
                                       owner: OwnerEvidence, evidenceOk: bool, view: Reads)
    requires Inv(writable, w) && MayAccept(w, id, revision, owner, evidenceOk, view)
    ensures Inv(writable, Accept(w, id, owner, view))
  {
    hide TaskInv, OtherWriter, Exclusive, DocumentsHold, RecordsAreCurrent, ChecksMap;
    var t := w.tasks[id];
    AwaitingFacts(writable, t, id, w.log, w.runs);
    AcceptedTask(writable, t, id, w.log, w.runs, owner);
    SavedKeeps(writable, w, id, t.(stage := Stage.Done, decision := Some(owner)), TaskLifecycle.Done,
               [AcceptedAt(id, t.lastRunId.value, view.snapshot.value, w.projects[t.info.workspaceId], owner)]);
  }

  lemma {:induction false} AlignedAll(checks: seq<Check>, criteria: seq<CriterionEvidence>, count: int)
    requires ChecksMap(checks, count) && |criteria| == count
    requires forall i, j :: 0 <= i < j < |criteria| ==> criteria[i].criterion != criteria[j].criterion
    requires forall i :: 0 <= i < |criteria| ==> CriterionHolds(checks, criteria[i])
    ensures AlignsAll(criteria, count) && EvidenceGiven(checks, criteria)
  {
  }

  lemma {:induction false} AlignKeeps(writable: (Policy, string) -> bool, w: World, id: string, revision: int,
                                      criteria: seq<CriterionEvidence>, narrativeOk: bool, evidenceOk: bool,
                                      view: Reads)
    requires Inv(writable, w) && MayAlign(w, id, revision, criteria, narrativeOk, evidenceOk, view)
    ensures Inv(writable, Align(w, id, criteria, view))
  {
    hide TaskInv, OtherWriter, Exclusive, DocumentsHold, ChecksMap, AlignsAll, EvidenceGiven, CriterionHolds;
    hide T.Verified;
    var t := w.tasks[id];
    AwaitingFacts(writable, t, id, w.log, w.runs);
    AlignedAll(t.Agreed().value.checks, criteria, |t.acceptance|);
    var t' := t.(alignment := Some(Alignment(t.lastRunId.value, view.snapshot.value, criteria)));
    QuietTask(writable, t, Saved(t', TaskLifecycle.AwaitingAcceptance), id, w.log, w.runs);
    UnloggedKeeps(writable, w, id, t', TaskLifecycle.AwaitingAcceptance);
  }

  lemma {:induction false} LensKeeps(writable: (Policy, string) -> bool, w: World, id: string, revision: int,
                                     lens: Lens, view: Reads)
    requires Inv(writable, w) && MayRecordLens(w, id, revision, lens, view)
    ensures Inv(writable, RecordLens(w, id, lens))
  {
    hide TaskInv, OtherWriter, Exclusive, DocumentsHold, ChecksMap, AlignsAll, EvidenceGiven, T.Verified;
    var t := w.tasks[id];
    AwaitingFacts(writable, t, id, w.log, w.runs);
    QuietTask(writable, t, Saved(t.(lens := Some(lens)), t.info.lifecycle), id, w.log, w.runs);
    UnloggedKeeps(writable, w, id, t.(lens := Some(lens)), t.info.lifecycle);
  }

  lemma {:induction false} FeedBackKeeps(writable: (Policy, string) -> bool, w: World, id: string, scopeChange: bool)
    requires Inv(writable, w) && id in w.tasks && w.tasks[id].stage !in {Stage.Discussing, Checking, Stage.Done}
    ensures Inv(writable, FeedBack(w, id, scopeChange))
  {
    hide TaskInv, OtherWriter, Exclusive;
    var t := w.tasks[id];
    var t' := t.(stage := if scopeChange then Stage.Discussing else Rework, submitted := None, alignment := None,
                 lens := None);
    QuietTask(writable, t, Saved(t', LifecycleOf(t'.stage)), id, w.log, w.runs);
    UnloggedKeeps(writable, w, id, t', LifecycleOf(t'.stage));
  }

  lemma {:induction false} DocumentKeeps(writable: (Policy, string) -> bool, w: World, id: string,
                                         documents: DocumentSet)
    requires Inv(writable, w) && id in w.tasks && w.tasks[id].stage == Stage.Discussing
    ensures Inv(writable, Save(w, id, w.tasks[id].(requiresDocuments := true, documents := Some(documents),
                                                   alignment := None, lens := None),
                               TaskLifecycle.Discussing))
  {
    hide TaskInv, OtherWriter, Exclusive;
    var t := w.tasks[id];
    var t' := t.(requiresDocuments := true, documents := Some(documents), alignment := None, lens := None);
    QuietTask(writable, t, Saved(t', TaskLifecycle.Discussing), id, w.log, w.runs);
    UnloggedKeeps(writable, w, id, t', TaskLifecycle.Discussing);
  }

  /** Blocking a verification that was being checked, whatever happened to its run. */
  lemma {:induction false} RecoveredTask(writable: (Policy, string) -> bool, t: Task, id: string, log: seq<Entry>,
                                         runs: map<string, RunEntry>, runs': map<string, RunEntry>)
    requires TaskInv(writable, t, id, log, runs) && t.stage == Checking
    requires t.lastRunId.Some? && t.lastRunId.value in runs' ==> runs'[t.lastRunId.value].run.taskId == id
    ensures TaskInv(writable, Saved(t.(stage := Stage.Blocked), Active), id, log, runs')
  {
    hide SubmittedUnder, VerifiedUnder, AcceptedUnder, ApprovedUnder, ChecksMap, AlignsAll, EvidenceGiven, LastAgreed;
    hide T.Verified;
  }

  lemma {:induction false} LastRunIsOwn(writable: (Policy, string) -> bool, t: Task, id: string, log: seq<Entry>,
                                        runs: map<string, RunEntry>)
    requires TaskInv(writable, t, id, log, runs) && t.lastRunId.Some? && t.lastRunId.value in runs
    ensures runs[t.lastRunId.value].run.taskId == id
  {
  }

  lemma {:induction false} RecoverKeeps(writable: (Policy, string) -> bool, w: World, id: string)
    requires Inv(writable, w) && id in w.tasks && w.tasks[id].stage == Checking
    ensures Inv(writable, Recover(w, id))
  {
    hide TaskInv, OtherWriter, Exclusive;
    var v, t := Recover(w, id), w.tasks[id];
    if t.lastRunId.Some? && t.lastRunId.value in w.runs { LastRunIsOwn(writable, t, id, w.log, w.runs); }
    RecoveredTask(writable, t, id, w.log, w.runs, v.runs);
    assert v.log == w.log + [];
    CommandKeeps(writable, w, v, id, []);
  }

  lemma {:induction false} NewTaskInv(writable: (Policy, string) -> bool, c: Command, log: seq<Entry>,
                                      runs: map<string, RunEntry>)
    requires c.CreateTask? && LastAgreed(log, c.id).None?
    ensures TaskInv(writable, NewTask(c), c.id, log, runs)
  {
  }

  lemma {:induction false} CreateKeeps(writable: (Policy, string) -> bool, w: World, c: Command)
    requires Inv(writable, w) && c.CreateTask? && Unmentioned(w, c.id)
    ensures Inv(writable, w.(tasks := w.tasks[c.id := NewTask(c)]))
  {
    hide TaskInv, Exclusive, OtherWriter;
    var v := w.(tasks := w.tasks[c.id := NewTask(c)]);
    assert v.log == w.log + [];
    NeverAgreed(w.log, c.id);
    NewTaskInv(writable, c, v.log, v.runs);
    CommandKeeps(writable, w, v, c.id, []);
  }

  lemma {:induction false} NeverAgreed(log: seq<Entry>, id: string)
    requires forall i :: 0 <= i < |log| ==> log[i].task != id
    ensures LastAgreed(log, id) == None
  {
    if log != [] { NeverAgreed(log[..|log| - 1], id); }
  }

  lemma {:induction false} OtherRunTask(writable: (Policy, string) -> bool, t: Task, id: string, log: seq<Entry>,
                                        runs: map<string, RunEntry>, runId: string, entry: RunEntry)
    requires TaskInv(writable, t, id, log, runs)
    requires if runId in runs then runs[runId].run.taskId != id else t.lastRunId != Some(runId)
    ensures TaskInv(writable, t, id, log, runs[runId := entry])
  {
    hide SubmittedUnder, VerifiedUnder, AcceptedUnder, ApprovedUnder, ChecksMap, AlignsAll, EvidenceGiven, LastAgreed;
    hide T.Verified;
  }

  lemma {:induction false} OtherRunKeeps(writable: (Policy, string) -> bool, w: World, runId: string, entry: RunEntry)
    requires Inv(writable, w) && entry.run.taskId !in w.tasks
    requires if runId in w.runs then w.runs[runId].run.taskId !in w.tasks else FreshRunId(w, runId)
    ensures Inv(writable, w.(runs := w.runs[runId := entry]))
  {
    hide TaskInv;
    forall id <- w.tasks ensures TaskInv(writable, w.tasks[id], id, w.log, w.runs[runId := entry]) {
      OtherRunTask(writable, w.tasks[id], id, w.log, w.runs, runId, entry);
    }
  }
}
