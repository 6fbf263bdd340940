/**
 * The acceptance protocol around an external implementer, as functions on values.  Sources and project
 * policies may change between any two commands: a command sees whatever its inputs say it sees.
 */
module Direct {
  import opened Contracts
  import E = RunEngine
  import Catalog

  datatype Stage =
    | Discussing | Ready | Implementing | Submitted | Checking | Rework | Blocked | AwaitingAcceptance | Done

  /** A source snapshot; it stands for its own fingerprint. */
  datatype Snapshot = Snapshot(workspaceStamp: string, files: map<string, string>)
  /** The project fields the policy fingerprint covers; the value stands for its own fingerprint. */
  datatype Policy = Policy(repoRoot: string, allowedPaths: seq<string>, instructionFiles: seq<string>,
                           buildCommand: string, testCommand: string)
  datatype OwnerEvidence = OwnerEvidence(quote: string, source: string) {
    predicate Valid() { !Blank(quote) && !Blank(source) }
  }
  datatype Anchors = Anchors(goal: string, acceptance: seq<string>, nonGoals: string, boundary: string,
                             keyDecisions: string, verification: string, unresolved: seq<string>) {
    predicate Valid() {
      && !Blank(goal) && !Blank(nonGoals) && !Blank(boundary) && !Blank(keyDecisions) && !Blank(verification)
      && acceptance != [] && (forall i :: 0 <= i < |acceptance| ==> !Blank(acceptance[i])) && unresolved == []
    }
  }
  datatype Check = Check(criterion: int, kind: string, procedure: string)
  datatype DocumentSet = DocumentSet(version: int, anchors: Anchors, checks: seq<Check>)
  datatype Agreement = Agreement(version: int, anchors: Anchors, checks: seq<Check>, policy: Policy,
                                 workspaceStamp: string, baseline: map<string, string>, owner: OwnerEvidence)
  datatype CriterionEvidence = CriterionEvidence(criterion: int, result: string, confirmation: Option<OwnerEvidence>)
  datatype Alignment = Alignment(runId: string, stamp: Snapshot, criteria: seq<CriterionEvidence>)
  datatype Lens = Lens(runId: string, stamp: Snapshot)

  datatype Task = Task(
    info: EngineeringTask, acceptance: seq<string>, stage: Stage, revision: int, agreements: seq<Agreement>,
    submitted: Option<Snapshot>, lastRunId: Option<string>, riskApproval: Option<OwnerEvidence>,
    decision: Option<OwnerEvidence>, requiresDocuments: bool, documents: Option<DocumentSet>,
    alignment: Option<Alignment>, lens: Option<Lens>)
  {
    function Agreed(): Option<Agreement> {
      if agreements == [] then None else Some(agreements[|agreements| - 1])
    }
  }

  datatype RunEntry = RunEntry(run: WorkflowRun, workspaceId: string)

  /** What happened, in order: the evidence the protocol's promises are about. */
  datatype Entry =
    | AgreedOn(task: string, agreement: Agreement)
    | Approved(task: string, approval: OwnerEvidence)
    | SubmittedAt(task: string, seen: Snapshot, policy: Policy)
    | VerifiedFrom(task: string, runId: string, seen: Snapshot, policy: Policy)
    | DeliveredAt(task: string, runId: string, seen: Snapshot)
    | AcceptedAt(task: string, runId: string, seen: Snapshot, policy: Policy, owner: OwnerEvidence)

  datatype World = World(tasks: map<string, Task>, runs: map<string, RunEntry>, projects: map<string, Policy>,
                         log: seq<Entry>)

  /** What a command reads outside the stores: profile checks, documents and a source snapshot. */
  datatype Reads = Reads(profileOk: bool, documentStore: bool, documentsOk: bool, snapshot: Option<Snapshot>)

  // ---- Guards ----

  predicate Editable(w: World, id: string, revision: int, stages: set<Stage>) {
    id in w.tasks && w.tasks[id].revision == revision && w.tasks[id].stage in stages
  }

  const OWNING: set<Stage> := {Implementing, Submitted, Checking, Rework, Stage.Blocked, Stage.AwaitingAcceptance}

  /** Another task of the same project holds the source, or another task's run is active there. */
  predicate OtherWriter(w: World, id: string)
    requires id in w.tasks
  {
    var ws := w.tasks[id].info.workspaceId;
    || (exists x <- w.tasks :: x != id && w.tasks[x].info.workspaceId == ws && w.tasks[x].stage in OWNING)
    || (exists r <- w.runs :: w.runs[r].run.taskId != id && w.runs[r].workspaceId == ws && w.runs[r].run.Active())
  }

  predicate DocumentsHold(t: Task, view: Reads) {
    t.requiresDocuments ==> t.documents.Some? && view.documentStore && view.documentsOk
  }

  /** The agreement still stands: documents are intact and the project policy is the agreed one. */
  predicate Frozen(w: World, t: Task, view: Reads) {
    && DocumentsHold(t, view) && view.profileOk && t.info.workspaceId in w.projects
    && t.Agreed().Some? && t.Agreed().value.policy == w.projects[t.info.workspaceId]
  }

  function Look(files: map<string, string>, path: string): Option<string> {
    if path in files then Some(files[path]) else None
  }

  /** Every file that differs from the agreed baseline is one the policy lets the implementer write. */
  predicate AllowedChanges(writable: (Policy, string) -> bool, a: Agreement, policy: Policy, seen: Snapshot) {
    && seen.workspaceStamp == a.workspaceStamp
    && forall path <- a.baseline.Keys + seen.files.Keys ::
         Look(a.baseline, path) != Look(seen.files, path) ==> writable(policy, path)
  }

  /** Every acceptance criterion is mapped once, to an automatic build or test or to a manual procedure. */
  predicate ChecksMap(checks: seq<Check>, criteria: int) {
    && |checks| == criteria
    && (forall i, j :: 0 <= i < j < |checks| ==> checks[i].criterion != checks[j].criterion)
    && (forall i :: 0 <= i < |checks| ==>
          && 1 <= checks[i].criterion <= criteria && checks[i].kind in {"automatic", "manual"}
          && !Blank(checks[i].procedure) && (checks[i].kind == "automatic"
                                             ==> checks[i].procedure in {"build", "test"}))
  }

  // ---- Commands ----

  function Saved(t: Task, lifecycle: TaskLifecycle): Task {
    t.(revision := t.revision + 1, info := t.info.(lifecycle := lifecycle))
  }

  function Save(w: World, id: string, t: Task, lifecycle: TaskLifecycle): World {
    w.(tasks := w.tasks[id := Saved(t, lifecycle)])
  }

  function Note(w: World, entries: seq<Entry>): World { w.(log := w.log + entries) }

  predicate MayAgree(w: World, id: string, revision: int, anchors: Anchors, checks: seq<Check>, owner: OwnerEvidence,
                     view: Reads) {
    && Editable(w, id, revision, {Stage.Discussing}) && anchors.Valid() && owner.Valid() && !OtherWriter(w, id)
    && var t := w.tasks[id];
    && DocumentsHold(t, view)
    && (t.requiresDocuments ==> anchors == t.documents.value.anchors && checks == t.documents.value.checks)
    && ChecksMap(checks, |anchors.acceptance|)
    && view.profileOk && t.info.workspaceId in w.projects && view.snapshot.Some?
  }

  function Agree(w: World, id: string, anchors: Anchors, checks: seq<Check>, owner: OwnerEvidence, view: Reads): World
    requires id in w.tasks && w.tasks[id].info.workspaceId in w.projects && view.snapshot.Some?
  {
    var t, seen := w.tasks[id], view.snapshot.value;
    var a := Agreement(|t.agreements| + 1, anchors, checks, w.projects[t.info.workspaceId], seen.workspaceStamp,
                       seen.files, owner);
    var agreed := t.(acceptance := anchors.acceptance, agreements := t.agreements + [a], stage := Stage.Ready,
                     submitted := None, riskApproval := None, alignment := None, lens := None);
    Note(Save(w, id, agreed, TaskLifecycle.Ready), [AgreedOn(id, a)])
  }

  predicate MayBegin(w: World, id: string, revision: int, approval: Option<OwnerEvidence>, view: Reads) {
    && Editable(w, id, revision, {Stage.Ready, Rework, Stage.Blocked}) && !OtherWriter(w, id)
    && Frozen(w, w.tasks[id], view)
    && view.snapshot.Some?
    && var t, a := w.tasks[id], w.tasks[id].Agreed().value;
    && view.snapshot.value.workspaceStamp == a.workspaceStamp
    && (t.stage == Stage.Ready ==> view.snapshot.value == Snapshot(a.workspaceStamp, a.baseline))
    && (t.info.risk.Critical? && t.riskApproval.None? ==> approval.Some? && approval.value.Valid())
  }

  function Begin(w: World, id: string, approval: Option<OwnerEvidence>): World
    requires id in w.tasks
  {
    var t := w.tasks[id];
    Note(Save(w, id, t.(stage := Implementing, submitted := None, alignment := None, lens := None,
                        riskApproval := if approval.Some? then approval else t.riskApproval), Active),
         if approval.Some? then [Approved(id, approval.value)] else [])
  }

  predicate MaySubmit(writable: (Policy, string) -> bool, w: World, id: string, revision: int, report: string,
                      view: Reads) {
    && Editable(w, id, revision, {Implementing}) && !Blank(report) && Frozen(w, w.tasks[id], view)
    && view.snapshot.Some?
    && AllowedChanges(writable, w.tasks[id].Agreed().value, w.projects[w.tasks[id].info.workspaceId],
                      view.snapshot.value)
  }

  function Submit(w: World, id: string, view: Reads): World
    requires id in w.tasks && w.tasks[id].info.workspaceId in w.projects && view.snapshot.Some?
  {
    var t := w.tasks[id];
    Note(Save(w, id, t.(stage := Submitted, submitted := view.snapshot), Active),
         [SubmittedAt(id, view.snapshot.value, w.projects[t.info.workspaceId])])
  }

  // ---- Verification: one coordinator run between two saves ----

  /** A dispatch of the verification run, with the source the deliver handler would see then. */
  datatype Dispatch = Dispatch(attempt: E.Attempt, seen: Snapshot, documentsOk: bool)

  /** The handlers that verification replaces: delivery rechecks the source, rework always hands back. */
  function HandlerReply(start: Snapshot, d: Dispatch): E.HandlerReply {
    if !d.attempt.reply.Returned? then d.attempt.reply
    else if d.attempt.node == PRIMARY_REWORK then E.Returned(Fail("PRIMARY_REWORK_REQUIRED", NotStarted))
    else if d.attempt.node == DELIVER then
      if d.seen != start then E.Returned(Fail("SOURCE_CHANGED", NotStarted))
      else if !d.documentsOk then E.ThrewError
      else d.attempt.reply
    else d.attempt.reply
  }

  function HandledOne(start: Snapshot, d: Dispatch): E.Attempt { d.attempt.(reply := HandlerReply(start, d)) }

  function Handled(start: Snapshot, ds: seq<Dispatch>): (attempts: seq<E.Attempt>)
    ensures |attempts| == |ds|
  {
    if ds == [] then [] else [HandledOne(start, ds[0])] + Handled(start, ds[1..])
  }

  /** How the verification command ended after the task was marked Checking. */
  datatype VerifyEnd =
    | Crashed(reached: Reached)      // the process died: the task stays Checking
    | Ended(ended: E.Ended,          // how the backend call ended
            evidenceOk: bool,        // evidence capture succeeded
            auditOk: bool)           // the last ticket and audit writes succeeded
  datatype Reached = BeforeRun | AtCreation | WhileDriving | AfterDriving(ended: E.Ended)

  datatype Verification = Verification(runId: string, created: E.Fault, started: E.Fault, dispatches: seq<Dispatch>,
                                       end: VerifyEnd)

  /** Run ids are drawn fresh: no run and no task mentions it yet. */
  predicate FreshRunId(w: World, runId: string) {
    runId !in w.runs && forall x <- w.tasks :: w.tasks[x].lastRunId != Some(runId)
  }

  predicate MayVerify(writable: (Policy, string) -> bool, w: World, id: string, revision: int, v: Verification,
                      view: Reads) {
    && Editable(w, id, revision, {Submitted, Stage.Blocked}) && !OtherWriter(w, id) && w.tasks[id].submitted.Some?
    && Frozen(w, w.tasks[id], view) && view.snapshot.Some? && FreshRunId(w, v.runId)
    && AllowedChanges(writable, w.tasks[id].Agreed().value, w.projects[w.tasks[id].info.workspaceId],
                      view.snapshot.value)
    && view.snapshot == w.tasks[id].submitted
  }

  function VerifyStart(w: World, id: string, v: Verification, view: Reads): World
    requires id in w.tasks && w.tasks[id].info.workspaceId in w.projects && view.snapshot.Some?
  {
    var t := w.tasks[id];
    Note(Save(w, id, t.(stage := Checking, lastRunId := Some(v.runId), alignment := None, lens := None), Active),
         [VerifiedFrom(id, v.runId, view.snapshot.value, w.projects[t.info.workspaceId])])
  }

  function Def(t: Task): WorkflowDefinition { Catalog.CreateDirect(t.info.risk) }

  /** The coordinator refuses a second run of a task whose earlier run is still active. */
  predicate RunRefused(w: World, id: string) {
    exists r <- w.runs :: w.runs[r].run.taskId == id && w.runs[r].run.Active()
  }

  function CreatedSession(backendId: string, w: World, id: string, v: Verification): E.Session
    requires id in w.tasks
  {
    E.NewRun(Def(w.tasks[id]), backendId, v.runId, w.tasks[id].info)
  }

  function RunningSession(backendId: string, w: World, id: string, v: Verification): E.Session
    requires id in w.tasks
  {
    var s := CreatedSession(backendId, w, id, v);
    s.(run := E.Commit(s.run.(state := RunState.Running)))
  }

  /** The run the verification leaves behind and the task record the coordinator last wrote. */
  function VerifyRun(backendId: string, w: World, id: string, v: Verification, start: Snapshot): E.Session
    requires id in w.tasks
  {
    var def, created := Def(w.tasks[id]), CreatedSession(backendId, w, id, v);
    var attempts := Handled(start, v.dispatches);
    match v.end
    case Ended(ended, _, _) =>
      E.Apply(def, backendId, created, E.Launch(v.created, v.started, E.Drive(attempts, ended)))
    case Crashed(AfterDriving(ended)) =>
      E.Apply(def, backendId, created, E.Launch(E.NoFault, E.NoFault, E.Drive(attempts, ended)))
    case Crashed(WhileDriving) => E.Attempts(def, backendId, RunningSession(backendId, w, id, v), attempts)
    case Crashed(_) => created
  }

  /** Whether the dispatch from one session to the next recorded a successful delivery. */
  predicate DeliveredBetween(s: E.Session, t: E.Session) {
    && |t.run.executions| > |s.run.executions|
    && var last := t.run.executions[|t.run.executions| - 1];
    && last.nodeId == DELIVER && last.result.outcome.Succeeded?
  }

  /** The source every successful delivery recheck of the drive saw, as log entries. */
  function Deliveries(def: WorkflowDefinition, backendId: string, s: E.Session, id: string, runId: string,
                      start: Snapshot, ds: seq<Dispatch>)
    : seq<Entry>
    decreases |ds|
  {
    if ds == [] then []
    else
      var t := E.Dispatch(def, backendId, s, HandledOne(start, ds[0])).session;
      (if DeliveredBetween(s, t) then [DeliveredAt(id, runId, ds[0].seen)] else [])
        + Deliveries(def, backendId, t, id, runId, start, ds[1..])
  }

  /** The deliveries of the whole verification: none when the run never got to be driven. */
  function VerifyDeliveries(backendId: string, w: World, id: string, v: Verification, start: Snapshot): seq<Entry>
    requires id in w.tasks
  {
    if LaunchFailed(v) || v.end == Crashed(BeforeRun) || v.end == Crashed(AtCreation) then []
    else Deliveries(Def(w.tasks[id]), backendId, RunningSession(backendId, w, id, v), id, v.runId, start, v.dispatches)
  }

  function BlockRun(entry: RunEntry, code: string): RunEntry {
    if entry.run.state.Completed? then entry
    else entry.(run := E.Commit(entry.run.(state := RunState.Blocked,
                                           failure := Some(Failure(code, false, NotStarted)))))
  }

  /** The stage a finished verification leads to. */
  function VerifiedStage(run: WorkflowRun): Stage {
    if run.state.Completed? then Stage.AwaitingAcceptance
    else if run.failure.Some? && run.failure.value.code == "PRIMARY_REWORK_REQUIRED" then Rework
    else Stage.Blocked
  }

  predicate LaunchFailed(v: Verification) { v.end.Ended? && !(v.created.NoFault? && v.started.NoFault?) }

  /** The last saves of Verify: the outcome's stage, or Blocked when anything threw. */
  function Conclude(w: World, id: string, run: WorkflowRun, v: Verification): World
    requires id in w.tasks && v.end.Ended? && v.runId in w.runs
  {
    var t := w.tasks[id];
    var capture := t.requiresDocuments && run.state.Completed?;
    if LaunchFailed(v) || (capture && !v.end.evidenceOk) then
      Save(w.(runs := w.runs[v.runId := BlockRun(w.runs[v.runId], "DIRECT_INTERRUPTED")]), id,
           t.(stage := Stage.Blocked), Active)
    else
      var stage := VerifiedStage(run);
      var saved := Save(w, id, t.(stage := stage), if stage == Stage.AwaitingAcceptance
                        then TaskLifecycle.AwaitingAcceptance else Active);
      if v.end.auditOk then saved
      else Save(saved.(runs := saved.runs[v.runId := BlockRun(saved.runs[v.runId], "DIRECT_INTERRUPTED")]), id,
                saved.tasks[id].(stage := Stage.Blocked), Active)
  }

  function Verify(backendId: string, w: World, id: string, v: Verification, view: Reads): World
    requires id in w.tasks && w.tasks[id].info.workspaceId in w.projects && view.snapshot.Some?
  {
    var checking := VerifyStart(w, id, v, view);
    if v.end == Crashed(BeforeRun) then checking
    else if RunRefused(checking, id) then
      if v.end.Crashed? then checking else Save(checking, id, checking.tasks[id].(stage := Stage.Blocked), Active)
    else
      var t := checking.tasks[id];
      var s := VerifyRun(backendId, checking, id, v, view.snapshot.value);
      var ran := Note(checking.(runs := checking.runs[v.runId := RunEntry(s.run, t.info.workspaceId)],
                                tasks := checking.tasks[id := t.(info := s.task)]),
                      VerifyDeliveries(backendId, checking, id, v, view.snapshot.value));
      if v.end.Crashed? then ran else Conclude(ran, id, s.run, v)
  }

  // ---- After verification ----

  predicate CompletedRun(w: World, t: Task) {
    t.lastRunId.Some? && t.lastRunId.value in w.runs && w.runs[t.lastRunId.value].run.state.Completed?
  }

  predicate MayAccept(w: World, id: string, revision: int, owner: OwnerEvidence, evidenceOk: bool, view: Reads) {
    && Editable(w, id, revision, {Stage.AwaitingAcceptance}) && owner.Valid() && Frozen(w, w.tasks[id], view)
    && CompletedRun(w, w.tasks[id])
    && var t := w.tasks[id];
    && (t.requiresDocuments ==> evidenceOk && t.alignment.Some? && Some(t.alignment.value.runId) == t.lastRunId
                                && Some(t.alignment.value.stamp) == t.submitted)
    && view.snapshot.Some? && view.snapshot == t.submitted
  }

  function Accept(w: World, id: string, owner: OwnerEvidence, view: Reads): World
    requires id in w.tasks && w.tasks[id].info.workspaceId in w.projects && view.snapshot.Some?
             && w.tasks[id].lastRunId.Some?
  {
    var t := w.tasks[id];
    Note(Save(w, id, t.(stage := Stage.Done, decision := Some(owner)), TaskLifecycle.Done),
         [AcceptedAt(id, t.lastRunId.value, view.snapshot.value, w.projects[t.info.workspaceId], owner)])
  }

  predicate MayFeedBack(w: World, id: string, revision: int, message: string, scopeChange: bool,
                        owner: Option<OwnerEvidence>) {
    && Editable(w, id, revision, {Stage.Ready, Implementing, Submitted, Rework, Stage.Blocked,
                                  Stage.AwaitingAcceptance}) && !Blank(message)
    && (scopeChange ==> owner.Some? && owner.value.Valid())
  }

  function FeedBack(w: World, id: string, scopeChange: bool): World
    requires id in w.tasks
  {
    Save(w, id, w.tasks[id].(stage := if scopeChange then Stage.Discussing else Rework, submitted := None,
                             alignment := None, lens := None),
         if scopeChange then TaskLifecycle.Discussing else Active)
  }

  predicate MayAlign(w: World, id: string, revision: int, criteria: seq<CriterionEvidence>, narrativeOk: bool,
                     evidenceOk: bool, view: Reads) {
    && Editable(w, id, revision, {Stage.AwaitingAcceptance}) && Frozen(w, w.tasks[id], view)
    && w.tasks[id].requiresDocuments && CompletedRun(w, w.tasks[id]) && view.snapshot.Some?
    && var t := w.tasks[id];
    && view.snapshot == t.submitted && narrativeOk && evidenceOk
    && |criteria| == |t.acceptance|
    && (forall i, j :: 0 <= i < j < |criteria| ==> criteria[i].criterion != criteria[j].criterion)
    && (forall i :: 0 <= i < |criteria| ==> CriterionHolds(t.Agreed().value.checks, criteria[i]))
  }

  /** The criterion is an agreed one, has a result, and a manual one has the owner's confirmation. */
  predicate CriterionHolds(checks: seq<Check>, c: CriterionEvidence) {
    && !Blank(c.result)
    && exists k :: 0 <= k < |checks| && checks[k].criterion == c.criterion
         && (checks[k].kind == "manual" ==> c.confirmation.Some? && c.confirmation.value.Valid())
  }

  function Align(w: World, id: string, criteria: seq<CriterionEvidence>, view: Reads): World
    requires id in w.tasks && view.snapshot.Some? && w.tasks[id].lastRunId.Some?
  {
    var t := w.tasks[id];
    Save(w, id, t.(alignment := Some(Alignment(t.lastRunId.value, view.snapshot.value, criteria))),
         TaskLifecycle.AwaitingAcceptance)
  }

  predicate MayRecordLens(w: World, id: string, revision: int, lens: Lens, view: Reads) {
    && Editable(w, id, revision, {Stage.AwaitingAcceptance}) && Frozen(w, w.tasks[id], view)
    && Some(lens.runId) == w.tasks[id].lastRunId && Some(lens.stamp) == w.tasks[id].submitted
    && view.snapshot == Some(lens.stamp)
  }

  function RecordLens(w: World, id: string, lens: Lens): World
    requires id in w.tasks
  {
    Save(w, id, w.tasks[id].(lens := Some(lens)), w.tasks[id].info.lifecycle)
  }

  function Recover(w: World, id: string): World
    requires id in w.tasks
  {
    var t := w.tasks[id];
    var runs := if t.lastRunId.Some? && t.lastRunId.value in w.runs
                then w.runs[t.lastRunId.value := BlockRun(w.runs[t.lastRunId.value], "INTERRUPTED")] else w.runs;
    Save(w.(runs := runs), id, t.(stage := Stage.Blocked), Active)
  }

  // ---- One command or one outside change ----

  datatype Command =
    | CreateTask(id: string, workspaceId: string, risk: Risk, title: string, primary: string, requiresDocuments: bool,
                 profileOk: bool)
    | AgreeTask(id: string, revision: int, anchors: Anchors, checks: seq<Check>, owner: OwnerEvidence, view: Reads)
    | BeginTask(id: string, revision: int, approval: Option<OwnerEvidence>, view: Reads)
    | SubmitTask(id: string, revision: int, report: string, view: Reads)
    | VerifyTask(id: string, revision: int, verification: Verification, view: Reads)
    | AcceptTask(id: string, revision: int, owner: OwnerEvidence, evidenceOk: bool, view: Reads)
    | FeedBackTask(id: string, revision: int, message: string, scopeChange: bool, feedbackOwner: Option<OwnerEvidence>)
    | DocumentTask(id: string, revision: int, documents: DocumentSet, written: bool)
    | AlignTask(id: string, revision: int, criteria: seq<CriterionEvidence>, narrativeOk: bool, evidenceOk: bool,
                view: Reads)
    | LensTask(id: string, revision: int, lens: Lens, view: Reads)
    | RecoverTask(id: string, revision: int, acknowledgement: OwnerEvidence)
    | EditProject(workspaceId: string, policy: Policy)
    | OtherRun(runId: string, entry: RunEntry)

  function NewTask(c: Command): Task
    requires c.CreateTask?
  {
    Task(EngineeringTask(c.id, c.workspaceId, c.risk, TaskLifecycle.Discussing, true), [], Stage.Discussing, 0, [],
         None, None, None, None,
         c.requiresDocuments, None, None, None)
  }

  /** Task ids are drawn fresh: no task, run or entry mentions it yet. */
  predicate Unmentioned(w: World, id: string) {
    && id !in w.tasks && (forall i :: 0 <= i < |w.log| ==> w.log[i].task != id)
    && (forall r <- w.runs :: w.runs[r].run.taskId != id)
  }

  /** A refused command changes nothing. */
  function Step(writable: (Policy, string) -> bool, backendId: string, w: World, c: Command): World {
    match c
    case CreateTask(id, workspaceId, risk, title, primary, _, profileOk) =>
      if Unmentioned(w, id) && workspaceId in w.projects && profileOk && !Blank(title) && !Blank(primary)
      then w.(tasks := w.tasks[id := NewTask(c)]) else w
    case AgreeTask(id, revision, anchors, checks, owner, view) =>
      if MayAgree(w, id, revision, anchors, checks, owner, view) then Agree(w, id, anchors, checks, owner, view) else w
    case BeginTask(id, revision, approval, view) =>
      if MayBegin(w, id, revision, approval, view) then Begin(w, id, approval) else w
    case SubmitTask(id, revision, report, view) =>
      if MaySubmit(writable, w, id, revision, report, view) then Submit(w, id, view) else w
    case VerifyTask(id, revision, v, view) =>
      if MayVerify(writable, w, id, revision, v, view) then Verify(backendId, w, id, v, view) else w
    case AcceptTask(id, revision, owner, evidenceOk, view) =>
      if MayAccept(w, id, revision, owner, evidenceOk, view) then Accept(w, id, owner, view) else w
    case FeedBackTask(id, revision, message, scopeChange, owner) =>
      if MayFeedBack(w, id, revision, message, scopeChange, owner) then FeedBack(w, id, scopeChange) else w
    case DocumentTask(id, revision, documents, written) =>
      if Editable(w, id, revision, {Stage.Discussing}) && written
      then
        var t := w.tasks[id];
        var documented := t.(requiresDocuments := true, documents := Some(documents), alignment := None, lens := None);
        Save(w, id, documented, TaskLifecycle.Discussing)
      else w
    case AlignTask(id, revision, criteria, narrativeOk, evidenceOk, view) =>
      if MayAlign(w, id, revision, criteria, narrativeOk, evidenceOk, view) then Align(w, id, criteria, view) else w
    case LensTask(id, revision, lens, view) =>
      if MayRecordLens(w, id, revision, lens, view) then RecordLens(w, id, lens) else w
    case RecoverTask(id, revision, acknowledgement) =>
      if Editable(w, id, revision, {Checking}) && acknowledgement.Valid() then Recover(w, id) else w
    case EditProject(workspaceId, policy) => w.(projects := w.projects[workspaceId := policy])
    case OtherRun(runId, entry) =>
      if entry.run.taskId !in w.tasks
         && (if runId in w.runs then w.runs[runId].run.taskId !in w.tasks else FreshRunId(w, runId))
      then w.(runs := w.runs[runId := entry]) else w
  }

  function Play(writable: (Policy, string) -> bool, backendId: string, w: World, commands: seq<Command>): World {
    if commands == [] then w
    else Step(writable, backendId, Play(writable, backendId, w, commands[..|commands| - 1]), commands[|commands| - 1])
  }
}
