/** The service that runs the acceptance protocol's commands on its stores, one read, guard and save at a time. */
module DirectService {
  import opened Contracts
  import opened Direct
  import opened DirectTheorems
  import opened DirectHistory
  import E = RunEngine

  class DirectWorkflowService {
    const writable: (Policy, string) -> bool
    const backendId: string
    var tasks: map<string, Task>
    var runs: map<string, RunEntry>
    var projects: map<string, Policy>
    var log: seq<Entry>

    function World(): World
      reads this
    {
      Direct.World(tasks, runs, projects, log)
    }

    ghost predicate Valid()
      reads this
    {
      Inv(writable, World())
    }

    constructor (writable: (Policy, string) -> bool, backendId: string, runs: map<string, RunEntry>,
                 projects: map<string, Policy>)
      ensures Valid() && World() == Opened(runs, projects) && this.writable == writable && this.backendId == backendId
    {
      this.writable, this.backendId := writable, backendId;
      this.tasks, this.runs, this.projects, this.log := map[], runs, projects, [];
      new;
      PlayKeeps(writable, backendId, runs, projects, []);
    }

    /** The new world is what the command makes of the old one, and the protocol's invariant still holds. */
    twostate predicate Did(c: Command)
      reads this
    {
      World() == Step(writable, backendId, old(World()), c)
    }

    /** Save one task under the next revision. */
    method Save(id: string, t: Task, lifecycle: TaskLifecycle)
      modifies this`tasks
      ensures World() == Direct.Save(old(World()), id, t, lifecycle)
    {
      tasks := tasks[id := t.(revision := t.revision + 1, info := t.info.(lifecycle := lifecycle))];
    }

    method Audit(entry: Entry)
      modifies this`log
      ensures World() == Note(old(World()), [entry])
    {
      log := log + [entry];
    }

    // ---- Guards ----

    method Editable(id: string, revision: int, stages: set<Stage>) returns (ok: bool)
      ensures ok == Direct.Editable(World(), id, revision, stages)
    {
      if id !in tasks || tasks[id].revision != revision { return false; }
      ok := tasks[id].stage in stages;
    }

    method NoOtherWriter(id: string) returns (free: bool)
      requires id in tasks
      ensures free == !OtherWriter(World(), id)
    {
      var project := tasks[id].info.workspaceId;
      if exists x <- tasks :: x != id && tasks[x].info.workspaceId == project && tasks[x].stage in OWNING {
        return false;
      }
      if exists r <- runs :: runs[r].run.taskId != id && runs[r].workspaceId == project && runs[r].run.Active() {
        return false;
      }
      free := true;
    }

    method FrozenProject(id: string, view: Reads) returns (ok: bool)
      requires id in tasks
      ensures ok == Frozen(World(), tasks[id], view)
    {
      var t := tasks[id];
      if t.requiresDocuments && (t.documents.None? || !view.documentStore || !view.documentsOk) { return false; }
      if !view.profileOk || t.info.workspaceId !in projects || t.Agreed().None? { return false; }
      ok := t.Agreed().value.policy == projects[t.info.workspaceId];
    }

    /** Every changed path is one the policy lets the implementer write. */
    method ValidateChanges(a: Agreement, policy: Policy, seen: Snapshot) returns (ok: bool)
      ensures ok == AllowedChanges(writable, a, policy, seen)
    {
      if seen.workspaceStamp != a.workspaceStamp { return false; }
      var todo := a.baseline.Keys + seen.files.Keys;
      while todo != {}
        invariant todo <= a.baseline.Keys + seen.files.Keys
        invariant forall path <- a.baseline.Keys + seen.files.Keys - todo ::
                    Look(a.baseline, path) != Look(seen.files, path) ==> writable(policy, path)
        decreases |todo|
      {
        var path :| path in todo;
        if Look(a.baseline, path) != Look(seen.files, path) && !writable(policy, path) { return false; }
        todo := todo - {path};
      }
      ok := true;
    }

    // ---- Commands ----

    method Create(c: Command) returns (ok: bool)
      requires Valid() && c.CreateTask?
      modifies this
      ensures Valid() && Did(c)
      ensures ok ==> c.id in tasks && tasks[c.id].stage == Stage.Discussing && tasks[c.id].agreements == []
    {
      hide Inv, DirectHistory.Opened;
      StepKeeps(writable, backendId, World(), c);
      ok := Unmentioned(World(), c.id) && c.workspaceId in projects && c.profileOk && !Blank(c.title)
          && !Blank(c.primary);
      if ok { tasks := tasks[c.id := NewTask(c)]; }
    }

    method Agree(id: string, revision: int, anchors: Anchors, checks: seq<Check>, owner: OwnerEvidence, view: Reads)
      returns (ok: bool)
      requires Valid()
      modifies this
      ensures Valid() && Did(AgreeTask(id, revision, anchors, checks, owner, view))
      ensures ok == MayAgree(old(World()), id, revision, anchors, checks, owner, view)
    {
      hide Inv, Blank, OtherWriter, ChecksMap;
      StepKeeps(writable, backendId, World(), AgreeTask(id, revision, anchors, checks, owner, view));
      ok := Editable(id, revision, {Stage.Discussing});
      if !ok || !anchors.Valid() || !owner.Valid() { return false; }
      ok := NoOtherWriter(id);
      if !ok { return; }
      var t := tasks[id];
      if t.requiresDocuments {
        if t.documents.None? || !view.documentStore || !view.documentsOk { return false; }
        if anchors != t.documents.value.anchors || checks != t.documents.value.checks { return false; }
      }
      if !ChecksMap(checks, |anchors.acceptance|) { return false; }
      if !view.profileOk || t.info.workspaceId !in projects || view.snapshot.None? { return false; }
      var seen := view.snapshot.value;
      var a := Agreement(|t.agreements| + 1, anchors, checks, projects[t.info.workspaceId], seen.workspaceStamp,
                         seen.files, owner);
      var agreed := t.(acceptance := anchors.acceptance, agreements := t.agreements + [a], stage := Stage.Ready,
                       submitted := None, riskApproval := None, alignment := None, lens := None);
      Save(id, agreed, TaskLifecycle.Ready);
      Audit(AgreedOn(id, a));
    }

    method Begin(id: string, revision: int, approval: Option<OwnerEvidence>, view: Reads) returns (ok: bool)
      requires Valid()
      modifies this
      ensures Valid() && Did(BeginTask(id, revision, approval, view))
      ensures ok == MayBegin(old(World()), id, revision, approval, view)
    {
      hide Inv, Blank, OtherWriter, DocumentsHold;
      StepKeeps(writable, backendId, World(), BeginTask(id, revision, approval, view));
      ok := Editable(id, revision, {Stage.Ready, Rework, Stage.Blocked});
      if !ok { return; }
      ok := NoOtherWriter(id);
      if !ok { return; }
      ok := FrozenProject(id, view);
      if !ok || view.snapshot.None? { return false; }
      var t, seen := tasks[id], view.snapshot.value;
      var a := t.Agreed().value;
      if seen.workspaceStamp != a.workspaceStamp { return false; }
      if t.stage == Stage.Ready && seen != Snapshot(a.workspaceStamp, a.baseline) { return false; }
      if t.info.risk.Critical? && t.riskApproval.None? && !(approval.Some? && approval.value.Valid()) { return false; }
      Save(id, t.(stage := Implementing, submitted := None, alignment := None, lens := None,
                  riskApproval := if approval.Some? then approval else t.riskApproval), Active);
      if approval.Some? { Audit(Approved(id, approval.value)); } else { assert log + [] == log; }
    }

    method Submit(id: string, revision: int, report: string, view: Reads) returns (ok: bool)
      requires Valid()
      modifies this
      ensures Valid() && Did(SubmitTask(id, revision, report, view))
      ensures ok == MaySubmit(writable, old(World()), id, revision, report, view)
    {
      hide Inv, Blank, AllowedChanges, DocumentsHold;
      StepKeeps(writable, backendId, World(), SubmitTask(id, revision, report, view));
      ok := Editable(id, revision, {Implementing});
      if !ok || Blank(report) { return false; }
      ok := FrozenProject(id, view);
      if !ok || view.snapshot.None? { return false; }
      var t := tasks[id];
      ok := ValidateChanges(t.Agreed().value, projects[t.info.workspaceId], view.snapshot.value);
      if !ok { return; }
      Save(id, t.(stage := Submitted, submitted := view.snapshot), Active);
      Audit(SubmittedAt(id, view.snapshot.value, projects[t.info.workspaceId]));
    }

    method Accept(id: string, revision: int, owner: OwnerEvidence, evidenceOk: bool, view: Reads) returns (ok: bool)
      requires Valid()
      modifies this
      ensures Valid() && Did(AcceptTask(id, revision, owner, evidenceOk, view))
      ensures ok == MayAccept(old(World()), id, revision, owner, evidenceOk, view)
    {
      hide Inv, Blank, DocumentsHold;
      StepKeeps(writable, backendId, World(), AcceptTask(id, revision, owner, evidenceOk, view));
      ok := Editable(id, revision, {Stage.AwaitingAcceptance});
      if !ok || !owner.Valid() { return false; }
      ok := FrozenProject(id, view);
      if !ok { return; }
      var t := tasks[id];
      if t.lastRunId.None? || t.lastRunId.value !in runs || !runs[t.lastRunId.value].run.state.Completed? {
        return false;
      }
      if t.requiresDocuments {
        if t.alignment.None? || Some(t.alignment.value.runId) != t.lastRunId { return false; }
        if Some(t.alignment.value.stamp) != t.submitted || !evidenceOk { return false; }
      }
      if view.snapshot.None? || view.snapshot != t.submitted { return false; }
      Save(id, t.(stage := Stage.Done, decision := Some(owner)), TaskLifecycle.Done);
      Audit(AcceptedAt(id, t.lastRunId.value, view.snapshot.value, projects[t.info.workspaceId], owner));
    }

    method Feedback(id: string, revision: int, message: string, scopeChange: bool, owner: Option<OwnerEvidence>)
      returns (ok: bool)
      requires Valid()
      modifies this
      ensures Valid() && Did(FeedBackTask(id, revision, message, scopeChange, owner))
      ensures ok == MayFeedBack(old(World()), id, revision, message, scopeChange, owner)
    {
      hide Inv, Blank;
      StepKeeps(writable, backendId, World(), FeedBackTask(id, revision, message, scopeChange, owner));
      ok := Editable(id, revision, {Stage.Ready, Implementing, Submitted, Rework, Stage.Blocked,
                                    Stage.AwaitingAcceptance});
      if !ok || Blank(message) { return false; }
      if scopeChange && !(owner.Some? && owner.value.Valid()) { return false; }
      Save(id, tasks[id].(stage := if scopeChange then Stage.Discussing else Rework, submitted := None,
                          alignment := None, lens := None),
           if scopeChange then TaskLifecycle.Discussing else Active);
    }

    method Align(id: string, revision: int, criteria: seq<CriterionEvidence>, narrativeOk: bool, evidenceOk: bool,
                 view: Reads) returns (ok: bool)
      requires Valid()
      modifies this
      ensures Valid() && Did(AlignTask(id, revision, criteria, narrativeOk, evidenceOk, view))
      ensures ok == MayAlign(old(World()), id, revision, criteria, narrativeOk, evidenceOk, view)
    {
      hide Inv, Blank, DocumentsHold, CriterionHolds;
      StepKeeps(writable, backendId, World(), AlignTask(id, revision, criteria, narrativeOk, evidenceOk, view));
      ok := Editable(id, revision, {Stage.AwaitingAcceptance});
      if !ok { return; }
      ok := FrozenProject(id, view);
      if !ok { return; }
      var t := tasks[id];
      if !t.requiresDocuments { return false; }
      if t.lastRunId.None? || t.lastRunId.value !in runs || !runs[t.lastRunId.value].run.state.Completed? {
        return false;
      }
      if view.snapshot.None? || view.snapshot != t.submitted { return false; }
      if !narrativeOk || !evidenceOk || |criteria| != |t.acceptance| { return false; }
      if exists i, j :: 0 <= i < j < |criteria| && criteria[i].criterion == criteria[j].criterion { return false; }
      var i := 0;
      while i < |criteria|
        invariant 0 <= i <= |criteria|
        invariant forall k :: 0 <= k < i ==> CriterionHolds(t.Agreed().value.checks, criteria[k])
      {
        if !CriterionHolds(t.Agreed().value.checks, criteria[i]) { return false; }
        i := i + 1;
      }
      Save(id, t.(alignment := Some(Alignment(t.lastRunId.value, view.snapshot.value, criteria))),
           TaskLifecycle.AwaitingAcceptance);
    }

    method Document(id: string, revision: int, documents: DocumentSet, written: bool) returns (ok: bool)
      requires Valid()
      modifies this
      ensures Valid() && Did(DocumentTask(id, revision, documents, written))
      ensures ok == (Direct.Editable(old(World()), id, revision, {Stage.Discussing}) && written)
    {
      hide Inv;
      StepKeeps(writable, backendId, World(), DocumentTask(id, revision, documents, written));
      ok := Editable(id, revision, {Stage.Discussing});
      if !ok || !written { return false; }
      Save(id, tasks[id].(requiresDocuments := true, documents := Some(documents), alignment := None, lens := None),
           TaskLifecycle.Discussing);
    }

    method RecordLens(id: string, revision: int, lens: Lens, view: Reads) returns (ok: bool)
      requires Valid()
      modifies this
      ensures Valid() && Did(LensTask(id, revision, lens, view))
      ensures ok == MayRecordLens(old(World()), id, revision, lens, view)
    {
      hide Inv, DocumentsHold;
      StepKeeps(writable, backendId, World(), LensTask(id, revision, lens, view));
      ok := Editable(id, revision, {Stage.AwaitingAcceptance});
      if !ok { return; }
      ok := FrozenProject(id, view);
      if !ok { return; }
      if Some(lens.runId) != tasks[id].lastRunId || Some(lens.stamp) != tasks[id].submitted { return false; }
      if view.snapshot != Some(lens.stamp) { return false; }
      Save(id, tasks[id].(lens := Some(lens)), tasks[id].info.lifecycle);
    }

    method Recover(id: string, revision: int, acknowledgement: OwnerEvidence) returns (ok: bool)
      requires Valid()
      modifies this
      ensures Valid() && Did(RecoverTask(id, revision, acknowledgement))
      ensures ok == (Direct.Editable(old(World()), id, revision, {Checking}) && acknowledgement.Valid())
    {
      hide Inv, Blank, BlockRun;
      StepKeeps(writable, backendId, World(), RecoverTask(id, revision, acknowledgement));
      ok := Editable(id, revision, {Checking});
      if !ok || !acknowledgement.Valid() { return false; }
      var t := tasks[id];
      if t.lastRunId.Some? && t.lastRunId.value in runs {
        runs := runs[t.lastRunId.value := BlockRun(runs[t.lastRunId.value], "INTERRUPTED")];
      }
      Save(id, t.(stage := Stage.Blocked), Active);
    }

    /** Verification: mark the task, drive one run, then record where it ended; it may crash on the way. */
    method Verify(id: string, revision: int, v: Verification, view: Reads) returns (ok: bool)
      requires Valid()
      modifies this
      ensures Valid() && Did(VerifyTask(id, revision, v, view))
      ensures ok == MayVerify(writable, old(World()), id, revision, v, view)
    {
      hide Inv, VerifyRun, VerifyDeliveries, Direct.Conclude, OtherWriter, FreshRunId, AllowedChanges;
      hide DocumentsHold, RunRefused;
      StepKeeps(writable, backendId, World(), VerifyTask(id, revision, v, view));
      ok := MayBeVerified(id, revision, v, view);
      if !ok { return; }
      var t, start := tasks[id], view.snapshot.value;
      Save(id, t.(stage := Checking, lastRunId := Some(v.runId), alignment := None, lens := None), Active);
      Audit(VerifiedFrom(id, v.runId, start, projects[t.info.workspaceId]));
      if v.end == Crashed(BeforeRun) { return; }
      if RunRefused(World(), id) {
        if v.end.Ended? { Save(id, tasks[id].(stage := Stage.Blocked), Active); }
        return;
      }
      var s, delivered := Launch(id, v, start);
      runs := runs[v.runId := RunEntry(s.run, t.info.workspaceId)];
      tasks := tasks[id := tasks[id].(info := s.task)];
      log := log + delivered;
      if v.end.Ended? { Conclude(id, s.run, v); }
    }

    method MayBeVerified(id: string, revision: int, v: Verification, view: Reads) returns (ok: bool)
      ensures ok == MayVerify(writable, World(), id, revision, v, view)
    {
      hide OtherWriter, AllowedChanges, DocumentsHold;
      ok := Editable(id, revision, {Submitted, Stage.Blocked});
      if !ok { return; }
      ok := NoOtherWriter(id);
      if !ok || tasks[id].submitted.None? { return false; }
      ok := FrozenProject(id, view);
      if !ok || view.snapshot.None? || !FreshRunId(World(), v.runId) { return false; }
      ok := ValidateChanges(tasks[id].Agreed().value, projects[tasks[id].info.workspaceId], view.snapshot.value);
      if !ok || view.snapshot != tasks[id].submitted { return false; }
    }

    /** The coordinator's run: created, started, dispatched one attempt at a time, and settled. */
    method Launch(id: string, v: Verification, start: Snapshot) returns (s: E.Session, delivered: seq<Entry>)
      requires id in tasks
      ensures s == VerifyRun(backendId, World(), id, v, start)
              && delivered == VerifyDeliveries(backendId, World(), id, v, start)
    {
      hide E.Attempts, E.Finish, Deliveries;
      var def := Def(tasks[id]);
      s, delivered := E.NewRun(def, backendId, v.runId, tasks[id].info), [];
      if v.end == Crashed(BeforeRun) || v.end == Crashed(AtCreation) || (v.end.Ended? && !v.created.NoFault?) {
        return;
      }
      s := s.(run := E.Commit(s.run.(state := RunState.Running)));
      if v.end.Ended? && !v.started.NoFault? { return; }
      s, delivered := Drive(def, s, id, v.runId, start, v.dispatches);
      match v.end {
        case Ended(ended, _, _) => s := E.Finish(s, ended);
        case Crashed(AfterDriving(ended)) => s := E.Finish(s, ended);
        case _ =>
      }
    }

    /** One dispatch after another, noting the source each successful delivery saw. */
    method Drive(def: WorkflowDefinition, from: E.Session, id: string, runId: string, start: Snapshot,
                 dispatches: seq<Dispatch>)
      returns (s: E.Session, delivered: seq<Entry>)
      ensures s == E.Attempts(def, backendId, from, Handled(start, dispatches))
      ensures delivered == Deliveries(def, backendId, from, id, runId, start, dispatches)
    {
      hide E.Dispatch, HandledOne, DeliveredBetween;
      s, delivered := from, [];
      var i := 0;
      assert dispatches[0..] == dispatches;
      while i < |dispatches|
        invariant 0 <= i <= |dispatches|
        invariant E.Attempts(def, backendId, from, Handled(start, dispatches))
                  == E.Attempts(def, backendId, s, Handled(start, dispatches[i..]))
        invariant Deliveries(def, backendId, from, id, runId, start, dispatches)
                  == delivered + Deliveries(def, backendId, s, id, runId, start, dispatches[i..])
      {
        var d, a := dispatches[i], HandledOne(start, dispatches[i]);
        assert dispatches[i..][0] == d && dispatches[i..][1..] == dispatches[i + 1..];
        HandledSplits(start, dispatches[i..]);
        var t := E.Dispatch(def, backendId, s, a).session;
        if DeliveredBetween(s, t) { delivered := delivered + [DeliveredAt(id, runId, d.seen)]; }
        s, i := t, i + 1;
      }
      assert dispatches[i..] == [];
    }

    method Conclude(id: string, run: WorkflowRun, v: Verification)
      requires id in tasks && v.end.Ended? && v.runId in runs
      modifies this`tasks, this`runs
      ensures World() == Direct.Conclude(old(World()), id, run, v)
    {
      hide BlockRun, VerifiedStage, LaunchFailed;
      var t := tasks[id];
      if LaunchFailed(v) || (t.requiresDocuments && run.state.Completed? && !v.end.evidenceOk) {
        runs := runs[v.runId := BlockRun(runs[v.runId], "DIRECT_INTERRUPTED")];
        Save(id, t.(stage := Stage.Blocked), Active);
        return;
      }
      var stage := VerifiedStage(run);
      Save(id, t.(stage := stage), if stage == Stage.AwaitingAcceptance then TaskLifecycle.AwaitingAcceptance
           else Active);
      if !v.end.auditOk {
        runs := runs[v.runId := BlockRun(runs[v.runId], "DIRECT_INTERRUPTED")];
        Save(id, tasks[id].(stage := Stage.Blocked), Active);
      }
    }
  }

  lemma {:induction false} HandledSplits(start: Snapshot, ds: seq<Dispatch>)
    requires ds != []
    ensures Handled(start, ds)[0] == HandledOne(start, ds[0]) && Handled(start, ds)[1..] == Handled(start, ds[1..])
  {
  }
}
