/** Verification keeps the acceptance invariant, and the theorems over whole histories of commands. */
module DirectVerify {
  import opened Contracts
  import opened Direct
  import opened DirectTheorems
  import opened DirectSteps
  import C = Catalog
  import E = RunEngine
  import T = RunTheorems

  function CheckingTask(t: Task, runId: string): Task {
    Saved(t.(stage := Checking, lastRunId := Some(runId), alignment := None, lens := None), Active)
  }

  lemma {:induction false} CheckedTask(writable: (Policy, string) -> bool, t: Task, id: string, log: seq<Entry>,
                                       runs: map<string, RunEntry>, runId: string)
    requires TaskInv(writable, t, id, log, runs) && t.stage in {Submitted, Stage.Blocked} && t.submitted.Some?
             && runId !in runs
    ensures t.Agreed().Some?
    ensures TaskInv(writable, CheckingTask(t, runId), id,
                    log + [VerifiedFrom(id, runId, t.submitted.value, t.Agreed().value.policy)], runs)
  {
    hide SubmittedUnder, VerifiedUnder, AcceptedUnder, ApprovedUnder, ChecksMap, AlignsAll, EvidenceGiven, LastAgreed;
    hide T.Verified;
    var more := [VerifiedFrom(id, runId, t.submitted.value, t.Agreed().value.policy)];
    assert CheckingTask(t, runId).Agreed() == t.Agreed();
    AgreementUnchanged(log, more, id);
    EvidenceUnchanged(writable, log, more, id);
  }

  /** A task that was being checked, and is now blocked, sent back, still being checked, or awaiting acceptance. */
  ghost predicate SettledFrom(t: Task, u: Task) {
    && u == t.(stage := u.stage, revision := u.revision, info := t.info.(lifecycle := u.info.lifecycle))
    && u.stage in {Checking, Stage.Blocked, Rework, Stage.AwaitingAcceptance} && u.revision >= t.revision
    && (u.stage != Checking ==> u.info.lifecycle == LifecycleOf(u.stage))
  }

  lemma {:induction false} SettledTask(writable: (Policy, string) -> bool, t: Task, u: Task, id: string,
                                       log: seq<Entry>, more: seq<Entry>, runs: map<string, RunEntry>,
                                       runs': map<string, RunEntry>, runId: string)
    requires TaskInv(writable, t, id, log, runs) && t.stage == Checking && t.lastRunId == Some(runId)
             && SettledFrom(t, u)
    requires NoAgreement(more, id) && (runId in runs' ==> runs'[runId].run.taskId == id)
    requires u.stage == Stage.AwaitingAcceptance ==>
               && runId in runs' && runs'[runId].run.state.Completed? && t.submitted.Some? && t.Agreed().Some?
               && log != [] && log[|log| - 1] == VerifiedFrom(id, runId, t.submitted.value, t.Agreed().value.policy)
               && DeliveredAt(id, runId, t.submitted.value) in more
               && T.Verified(C.Direct, t.info.risk, runs'[runId].run.executions)
    ensures TaskInv(writable, u, id, log + more, runs')
  {
    hide AcceptedUnder, ApprovedUnder, ChecksMap, AlignsAll, EvidenceGiven, LastAgreed, SameAgreementSince;
    hide AllowedChanges, T.Verified;
    assert u.Agreed() == t.Agreed();
    AgreementUnchanged(log, more, id);
    EvidenceUnchanged(writable, log, more, id);
    if u.stage == Stage.AwaitingAcceptance {
      var a, seen := t.Agreed().value, t.submitted.value;
      var b :| SubmittedUnder(writable, log, id, a, seen, b);
      var k :| 0 <= k < |more| && more[k] == DeliveredAt(id, runId, seen);
      assert (log + more)[|log| + k] == more[k];
      assert VerifiedUnder(writable, log + more, id, a, seen, runId, b, |log| - 1, |log| + k);
    }
  }

  lemma {:induction false} DeliveriesConcern(def: WorkflowDefinition, backendId: string, s: E.Session, id: string,
                                             runId: string, start: Snapshot, ds: seq<Dispatch>)
    ensures Concerns(Deliveries(def, backendId, s, id, runId, start, ds), id)
    ensures NoAgreement(Deliveries(def, backendId, s, id, runId, start, ds), id)
    decreases |ds|
  {
    hide E.Dispatch, HandledOne, DeliveredBetween;
    if ds != [] {
      DeliveriesConcern(def, backendId, E.Dispatch(def, backendId, s, HandledOne(start, ds[0])).session, id, runId,
                        start, ds[1..]);
    }
  }

  /** What verification does to the stores, in terms of the run it left behind. */
  ghost predicate VerifyCase(w: World, v: World, id: string, runId: string, first: Entry, run: WorkflowRun,
                             deliveries: seq<Entry>)
    requires id in w.tasks
  {
    var t := CheckingTask(w.tasks[id], runId);
    && id in v.tasks && v.tasks == w.tasks[id := v.tasks[id]] && SettledFrom(t, v.tasks[id]) && v.projects == w.projects
    && ((v.runs == w.runs && v.log == w.log + [first] && v.tasks[id].stage != Stage.AwaitingAcceptance)
        || (runId in v.runs && v.runs == w.runs[runId := v.runs[runId]] && v.runs[runId].run.taskId == run.taskId
            && v.log == w.log + [first] + deliveries
            && (v.tasks[id].stage == Stage.AwaitingAcceptance ==> v.runs[runId].run == run && run.state.Completed?)))
  }

  lemma {:induction false} BlockedRunIsSame(entry: RunEntry, code: string)
    ensures BlockRun(entry, code).run.taskId == entry.run.taskId
  {
  }

  lemma {:induction false} VerifiedStages(run: WorkflowRun)
    ensures VerifiedStage(run) in {Stage.AwaitingAcceptance, Rework, Stage.Blocked}
    ensures VerifiedStage(run) == Stage.AwaitingAcceptance <==> run.state.Completed?
  {
  }

  lemma {:induction false} ConcludeCase(w: World, id: string, run: WorkflowRun, v: Verification)
    requires id in w.tasks && v.end.Ended? && v.runId in w.runs && w.runs[v.runId].run == run
             && w.tasks[id].stage == Checking
    ensures var u := Conclude(w, id, run, v);
            && id in u.tasks && u.tasks == w.tasks[id := u.tasks[id]] && SettledFrom(w.tasks[id], u.tasks[id])
            && u.projects == w.projects && u.log == w.log
            && v.runId in u.runs && u.runs == w.runs[v.runId := u.runs[v.runId]]
            && u.runs[v.runId].run.taskId == run.taskId
            && (u.tasks[id].stage == Stage.AwaitingAcceptance ==>
                  u.runs[v.runId].run == run && run.state.Completed? && !LaunchFailed(v))
  {
    hide BlockRun, VerifiedStage, LaunchFailed;
    BlockedRunIsSame(w.runs[v.runId], "DIRECT_INTERRUPTED");
    VerifiedStages(run);
  }

  lemma {:induction false} VerifyCases(backendId: string, w: World, id: string, v: Verification, view: Reads)
    requires id in w.tasks && w.tasks[id].info.workspaceId in w.projects && view.snapshot.Some?
    ensures var checking := VerifyStart(w, id, v, view);
            VerifyCase(w, Verify(backendId, w, id, v, view), id, v.runId,
                       VerifiedFrom(id, v.runId, view.snapshot.value, w.projects[w.tasks[id].info.workspaceId]),
                       VerifyRun(backendId, checking, id, v, view.snapshot.value).run,
                       VerifyDeliveries(backendId, checking, id, v, view.snapshot.value))
    ensures Verify(backendId, w, id, v, view).tasks[id].stage == Stage.AwaitingAcceptance
            ==> v.end.Ended? && !LaunchFailed(v)
  {
    hide VerifyRun, VerifyDeliveries, Conclude, RunRefused;
    var start := view.snapshot.value;
    var checking := VerifyStart(w, id, v, view);
    VerifyRunIsSameRun(backendId, checking, id, v, start);
    if v.end.Ended? && !RunRefused(checking, id) {
      var s := VerifyRun(backendId, checking, id, v, start);
      var ran := Note(checking.(runs := checking.runs[v.runId := RunEntry(s.run, checking.tasks[id].info.workspaceId)],
                                tasks := checking.tasks[id := checking.tasks[id].(info := s.task)]),
                      VerifyDeliveries(backendId, checking, id, v, start));
      ConcludeCase(ran, id, s.run, v);
    }
  }

  /** Whatever case verification ended in, the task's invariant holds. */
  lemma {:induction false} VerifyCaseKeeps(writable: (Policy, string) -> bool, w: World, v: World, id: string,
                                           runId: string, first: Entry, run: WorkflowRun, deliveries: seq<Entry>)
    requires Inv(writable, w) && id in w.tasks && w.tasks[id].stage in {Submitted, Stage.Blocked}
             && w.tasks[id].submitted.Some?
    requires w.tasks[id].stage == Stage.Blocked ==> !OtherWriter(w, id)
    requires FreshRunId(w, runId) && w.tasks[id].Agreed().Some?
    requires first == VerifiedFrom(id, runId, w.tasks[id].submitted.value, w.tasks[id].Agreed().value.policy)
    requires VerifyCase(w, v, id, runId, first, run, deliveries) && run.taskId == id
    requires Concerns(deliveries, id) && NoAgreement(deliveries, id)
    requires v.tasks[id].stage == Stage.AwaitingAcceptance
             ==> DeliveredAt(id, runId, w.tasks[id].submitted.value) in deliveries
    requires v.tasks[id].stage == Stage.AwaitingAcceptance ==>
               T.Verified(C.Direct, w.tasks[id].info.risk, run.executions)
    ensures Inv(writable, v)
  {
    hide TaskInv, OtherWriter, Exclusive, T.Verified;
    var t := w.tasks[id];
    var more := if v.log == w.log + [first] then [] else deliveries;
    CheckedTask(writable, t, id, w.log, w.runs, runId);
    SettledTask(writable, CheckingTask(t, runId), v.tasks[id], id, w.log + [first], more, w.runs, v.runs, runId);
    assert w.log + ([first] + more) == w.log + [first] + more;
    CommandKeeps(writable, w, v, id, [first] + more);
  }

  lemma {:induction false} MayVerifyFacts(writable: (Policy, string) -> bool, w: World, id: string, revision: int,
                                          v: Verification, view: Reads)
    requires MayVerify(writable, w, id, revision, v, view)
    ensures id in w.tasks && w.tasks[id].stage in {Submitted, Stage.Blocked} && w.tasks[id].submitted.Some?
            && !OtherWriter(w, id)
    ensures FreshRunId(w, v.runId) && w.tasks[id].Agreed().Some? && w.tasks[id].info.workspaceId in w.projects
    ensures w.tasks[id].Agreed().value.policy == w.projects[w.tasks[id].info.workspaceId]
    ensures view.snapshot == w.tasks[id].submitted
  {
    hide OtherWriter, FreshRunId, AllowedChanges, DocumentsHold;
  }

  /** The entries of the drive concern the verified task, and a completed run delivered the source it started with. */
  lemma {:induction false} DeliveriesFacts(backendId: string, w: World, id: string, v: Verification, start: Snapshot)
    requires id in w.tasks
    ensures Concerns(VerifyDeliveries(backendId, w, id, v, start), id)
            && NoAgreement(VerifyDeliveries(backendId, w, id, v, start), id)
  {
    hide Deliveries, RunningSession, Def;
    DeliveriesConcern(Def(w.tasks[id]), backendId, RunningSession(backendId, w, id, v), id, v.runId, start,
                      v.dispatches);
  }

  lemma {:induction false} VerifyRunIsOwn(backendId: string, w: World, id: string, v: Verification, view: Reads)
    requires id in w.tasks && w.tasks[id].info.workspaceId in w.projects && view.snapshot.Some?
    ensures id in VerifyStart(w, id, v, view).tasks
    ensures VerifyRun(backendId, VerifyStart(w, id, v, view), id, v, view.snapshot.value).run.taskId
            == w.tasks[id].info.taskId
    ensures VerifyStart(w, id, v, view).tasks[id].info.risk == w.tasks[id].info.risk
  {
    hide VerifyRun, Def;
    VerifyRunIsSameRun(backendId, VerifyStart(w, id, v, view), id, v, view.snapshot.value);
  }

  lemma {:induction false} VerifyKeeps(writable: (Policy, string) -> bool, backendId: string, w: World, id: string,
                                       revision: int, v: Verification, view: Reads)
    requires Inv(writable, w) && MayVerify(writable, w, id, revision, v, view)
    ensures Inv(writable, Verify(backendId, w, id, v, view))
  {
    hide TaskInv, OtherWriter, Exclusive, VerifyRun, Verify, VerifyCase, FreshRunId, VerifyStart, VerifyDeliveries;
    hide MayVerify, NoAgreement, Concerns;
    hide T.Verified;
    MayVerifyFacts(writable, w, id, revision, v, view);
    VerifyRunIsOwn(backendId, w, id, v, view);
    var start := view.snapshot.value;
    var checking := VerifyStart(w, id, v, view);
    var run := VerifyRun(backendId, checking, id, v, start).run;
    var deliveries := VerifyDeliveries(backendId, checking, id, v, start);
    var first := VerifiedFrom(id, v.runId, start, w.projects[w.tasks[id].info.workspaceId]);
    VerifyCases(backendId, w, id, v, view);
    OwnId(writable, w.tasks[id], id, w.log, w.runs);
    DeliveriesFacts(backendId, checking, id, v, start);
    var u := Verify(backendId, w, id, v, view);
    VerifyCaseFacts(w, u, id, v.runId, first, run, deliveries);
    if u.tasks[id].stage == Stage.AwaitingAcceptance {
      CompletedRunDelivered(backendId, checking, id, v, start);
    }
    VerifyCaseKeeps(writable, w, u, id, v.runId, first, run, deliveries);
  }

  lemma {:induction false} VerifyCaseFacts(w: World, v: World, id: string, runId: string, first: Entry,
                                           run: WorkflowRun, deliveries: seq<Entry>)
    requires id in w.tasks && VerifyCase(w, v, id, runId, first, run, deliveries)
    ensures id in v.tasks && (v.tasks[id].stage == Stage.AwaitingAcceptance ==> run.state.Completed?)
  {
  }

  lemma {:induction false} OwnId(writable: (Policy, string) -> bool, t: Task, id: string, log: seq<Entry>,
                                 runs: map<string, RunEntry>)
    requires TaskInv(writable, t, id, log, runs)
    ensures t.info.taskId == id
  {
    hide AgreementsInOrder, RecordsAreCurrent, RiskIsApproved, SubmissionStands, VerificationStands, AcceptanceStands;
  }
}
