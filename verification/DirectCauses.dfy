/** When each command of the acceptance protocol is carried out, told from the stores and from what it sees, and what it
    then writes.  A command that is not carried out changes nothing. */
module DirectCauses {
  import opened Contracts
  import opened Direct
  import opened DirectTheorems
  import E = RunEngine

  // ---- What commands ask for ----

  predicate Named(w: World, id: string, revision: int) { id in w.tasks && w.tasks[id].revision == revision }

  /** No other task of the project is past its agreement and short of being done, and no other task's run is active
      there. */
  ghost predicate SourceIsFree(w: World, id: string)
    requires id in w.tasks
  {
    var p := w.tasks[id].info.workspaceId;
    && (forall x <- w.tasks :: x != id && w.tasks[x].info.workspaceId == p ==>
          w.tasks[x].stage == Stage.Discussing || w.tasks[x].stage == Stage.Ready || w.tasks[x].stage == Stage.Done)
    && (forall r <- w.runs :: w.runs[r].run.taskId != id && w.runs[r].workspaceId == p ==>
          !w.runs[r].run.state.Created? && !w.runs[r].run.state.Running? && !w.runs[r].run.state.Waiting?)
  }

  lemma {:induction false} FreeMeansNoWriter(w: World, id: string)
    requires id in w.tasks
    ensures SourceIsFree(w, id) <==> !OtherWriter(w, id)
  {
    forall x ensures x in w.tasks && w.tasks[x].stage !in OWNING
                     <==> x in w.tasks && w.tasks[x].stage in {Stage.Discussing, Stage.Ready, Stage.Done} {
      if x in w.tasks { StageIsOne(w.tasks[x].stage); }
    }
  }

  lemma {:induction false} StageIsOne(stage: Stage)
    ensures stage !in OWNING <==> stage in {Stage.Discussing, Stage.Ready, Stage.Done}
  {
    match stage {
      case Discussing =>
      case Ready =>
      case Implementing =>
      case Submitted =>
      case Checking =>
      case Rework =>
      case Blocked =>
      case AwaitingAcceptance =>
      case Done =>
    }
  }

  /** The task's documents, if it must have any, are there and unchanged. */
  predicate DocumentsStand(t: Task, view: Reads) {
    !t.requiresDocuments || (t.documents != None && view.documentStore && view.documentsOk)
  }

  /** The documents stand, and the project's policy is still the one of the latest agreement. */
  predicate AgreementStands(w: World, t: Task, view: Reads) {
    && DocumentsStand(t, view) && view.profileOk && t.info.workspaceId in w.projects && t.agreements != []
    && t.agreements[|t.agreements| - 1].policy == w.projects[t.info.workspaceId]
  }

  /** A file that is not as it was agreed on is one the policy lets be written. */
  ghost predicate OnlyWritable(writable: (Policy, string) -> bool, a: Agreement, seen: Snapshot) {
    && seen.workspaceStamp == a.workspaceStamp
    && forall path | path in a.baseline || path in seen.files ::
         writable(a.policy, path) || (path in a.baseline && path in seen.files && a.baseline[path] == seen.files[path])
  }

  lemma {:induction false} AllowedIsWritable(writable: (Policy, string) -> bool, a: Agreement, seen: Snapshot)
    ensures AllowedChanges(writable, a, a.policy, seen) <==> OnlyWritable(writable, a, seen)
  {
    forall path | path in a.baseline || path in seen.files
      ensures path in a.baseline.Keys + seen.files.Keys
              && (Look(a.baseline, path) == Look(seen.files, path)
                  <==> path in a.baseline && path in seen.files && a.baseline[path] == seen.files[path]) {
    }
  }

  predicate Spoken(o: OwnerEvidence) { Says(o.quote) && Says(o.source) }

  /** As many checks as criteria, each for a criterion of its own, each a build, a test, or a manual procedure in
      words. */
  predicate MapsEach(checks: seq<Check>, criteria: nat) {
    && |checks| == criteria
    && (forall i, j :: 0 <= i < |checks| && 0 <= j < |checks| && checks[i].criterion == checks[j].criterion ==> i == j)
    && forall i :: 0 <= i < |checks| ==>
         && 1 <= checks[i].criterion <= criteria
         && (|| (checks[i].kind == "automatic" && (checks[i].procedure == "build" || checks[i].procedure == "test"))
             || (checks[i].kind == "manual" && Says(checks[i].procedure)))
  }

  lemma {:induction false} MapsMeansMapped(checks: seq<Check>, criteria: nat)
    ensures ChecksMap(checks, criteria) <==> MapsEach(checks, criteria)
  {
    assert !WhiteSpace("build"[0]) && !WhiteSpace("test"[0]);
  }

  /** Everything the anchors must say is said, and nothing is unresolved. */
  predicate AnchorsSay(a: Anchors) {
    && Says(a.goal) && Says(a.nonGoals) && Says(a.boundary) && Says(a.keyDecisions) && Says(a.verification)
    && a.acceptance != [] && (forall i :: 0 <= i < |a.acceptance| ==> Says(a.acceptance[i])) && a.unresolved == []
  }

  // ---- The commands ----

  /** A save moves the revision on by one and nothing that the command does not name. */
  function Written(w: World, id: string, t: Task, lifecycle: TaskLifecycle, log: seq<Entry>): World
    requires id in w.tasks
  {
    var saved := t.(revision := w.tasks[id].revision + 1, info := w.tasks[id].info.(lifecycle := lifecycle));
    w.(tasks := w.tasks[id := saved], log := w.log + log)
  }

  ghost predicate Agrees(w: World, id: string, revision: int, anchors: Anchors, checks: seq<Check>,
                         owner: OwnerEvidence, view: Reads) {
    && Named(w, id, revision) && w.tasks[id].stage == Stage.Discussing && SourceIsFree(w, id)
    && AnchorsSay(anchors) && Spoken(owner) && MapsEach(checks, |anchors.acceptance|)
    && var t := w.tasks[id];
    && DocumentsStand(t, view)
    && (t.requiresDocuments ==> t.documents.value.anchors == anchors && t.documents.value.checks == checks)
    && view.profileOk && t.info.workspaceId in w.projects && view.snapshot != None
  }

  lemma {:induction false} AgreeIsExact(writable: (Policy, string) -> bool, backendId: string, w: World, id: string,
                                        revision: int, anchors: Anchors, checks: seq<Check>, owner: OwnerEvidence,
                                        view: Reads)
    ensures Step(writable, backendId, w, AgreeTask(id, revision, anchors, checks, owner, view))
            == if Agrees(w, id, revision, anchors, checks, owner, view) then
                 var t, seen := w.tasks[id], view.snapshot.value;
                 var a := Agreement(|t.agreements| + 1, anchors, checks, w.projects[t.info.workspaceId],
                                    seen.workspaceStamp, seen.files, owner);
                 Written(w, id, t.(stage := Stage.Ready, agreements := t.agreements + [a],
                                   acceptance := anchors.acceptance, submitted := None, riskApproval := None,
                                   alignment := None, lens := None),
                         TaskLifecycle.Ready, [AgreedOn(id, a)])
               else w
  {
    hide Verify, MayVerify;
    hide OtherWriter, SourceIsFree, ChecksMap, MapsEach, WhiteSpace;
    if id in w.tasks { FreeMeansNoWriter(w, id); }
    MapsMeansMapped(checks, |anchors.acceptance|);
  }

  ghost predicate Begins(w: World, id: string, revision: int, approval: Option<OwnerEvidence>, view: Reads) {
    && Named(w, id, revision) && SourceIsFree(w, id) && AgreementStands(w, w.tasks[id], view)
    && var t, a := w.tasks[id], w.tasks[id].agreements[|w.tasks[id].agreements| - 1];
    && (t.stage == Stage.Ready || t.stage == Rework || t.stage == Stage.Blocked)
    && view.snapshot != None && view.snapshot.value.workspaceStamp == a.workspaceStamp
    && (t.stage == Stage.Ready ==> view.snapshot.value.files == a.baseline)
    && (t.info.risk == Critical && t.riskApproval == None ==> approval != None && Spoken(approval.value))
  }

  lemma {:induction false} BeginIsExact(writable: (Policy, string) -> bool, backendId: string, w: World, id: string,
                                        revision: int, approval: Option<OwnerEvidence>, view: Reads)
    ensures Step(writable, backendId, w, BeginTask(id, revision, approval, view))
            == if Begins(w, id, revision, approval, view) then
                 var t := w.tasks[id];
                 Written(w, id, t.(stage := Implementing, submitted := None, alignment := None, lens := None,
                                   riskApproval := if approval == None then t.riskApproval else approval),
                         Active, if approval == None then [] else [Approved(id, approval.value)])
               else w
  {
    hide Verify, MayVerify;
    hide OtherWriter, SourceIsFree, WhiteSpace;
    if id in w.tasks { FreeMeansNoWriter(w, id); }
  }

  ghost predicate Submits(writable: (Policy, string) -> bool, w: World, id: string, revision: int, report: string,
                          view: Reads) {
    && Named(w, id, revision) && w.tasks[id].stage == Implementing && Says(report)
    && AgreementStands(w, w.tasks[id], view) && view.snapshot != None
    && OnlyWritable(writable, w.tasks[id].agreements[|w.tasks[id].agreements| - 1], view.snapshot.value)
  }

  lemma {:induction false} SubmitIsExact(writable: (Policy, string) -> bool, backendId: string, w: World, id: string,
                                         revision: int, report: string, view: Reads)
    ensures Step(writable, backendId, w, SubmitTask(id, revision, report, view))
            == if Submits(writable, w, id, revision, report, view) then
                 var t := w.tasks[id];
                 Written(w, id, t.(stage := Submitted, submitted := view.snapshot), Active,
                         [SubmittedAt(id, view.snapshot.value, w.projects[t.info.workspaceId])])
               else w
  {
    hide Verify, MayVerify;
    hide AllowedChanges, OnlyWritable, WhiteSpace;
    if id in w.tasks && w.tasks[id].agreements != [] && view.snapshot.Some? {
      AllowedIsWritable(writable, w.tasks[id].agreements[|w.tasks[id].agreements| - 1], view.snapshot.value);
    }
  }

  /** Verification asks for what was submitted, still there and allowed, in a source that is free. */
  ghost predicate Verifies(writable: (Policy, string) -> bool, w: World, id: string, revision: int, v: Verification,
                           view: Reads) {
    && Named(w, id, revision) && SourceIsFree(w, id) && AgreementStands(w, w.tasks[id], view)
    && (w.tasks[id].stage == Submitted || w.tasks[id].stage == Stage.Blocked)
    && view.snapshot != None && w.tasks[id].submitted == view.snapshot && FreshRunId(w, v.runId)
    && OnlyWritable(writable, w.tasks[id].agreements[|w.tasks[id].agreements| - 1], view.snapshot.value)
  }

  lemma {:induction false} VerifyIsExact(writable: (Policy, string) -> bool, backendId: string, w: World, id: string,
                                         revision: int, v: Verification, view: Reads)
    ensures MayVerify(writable, w, id, revision, v, view) <==> Verifies(writable, w, id, revision, v, view)
    ensures !Verifies(writable, w, id, revision, v, view) ==>
              Step(writable, backendId, w, VerifyTask(id, revision, v, view)) == w
  {
    hide AllowedChanges, OnlyWritable, OtherWriter, SourceIsFree, FreshRunId, Verify;
    if id in w.tasks {
      FreeMeansNoWriter(w, id);
      if w.tasks[id].agreements != [] && view.snapshot.Some? {
        AllowedIsWritable(writable, w.tasks[id].agreements[|w.tasks[id].agreements| - 1], view.snapshot.value);
      }
    }
  }

  /** The latest verification run is stored and completed. */
  predicate Completed(w: World, t: Task) {
    t.lastRunId != None && t.lastRunId.value in w.runs && w.runs[t.lastRunId.value].run.state == RunState.Completed
  }

  ghost predicate Accepts(w: World, id: string, revision: int, owner: OwnerEvidence, evidenceOk: bool, view: Reads) {
    && Named(w, id, revision) && w.tasks[id].stage == Stage.AwaitingAcceptance && Spoken(owner)
    && AgreementStands(w, w.tasks[id], view) && Completed(w, w.tasks[id])
    && var t := w.tasks[id];
    && view.snapshot != None && t.submitted == view.snapshot
    && (t.requiresDocuments ==>
          evidenceOk && t.alignment != None && t.alignment.value.runId == t.lastRunId.value
          && t.alignment.value.stamp == view.snapshot.value)
  }

  lemma {:induction false} AcceptIsExact(writable: (Policy, string) -> bool, backendId: string, w: World, id: string,
                                         revision: int, owner: OwnerEvidence, evidenceOk: bool, view: Reads)
    ensures Step(writable, backendId, w, AcceptTask(id, revision, owner, evidenceOk, view))
            == if Accepts(w, id, revision, owner, evidenceOk, view) then
                 var t := w.tasks[id];
                 Written(w, id, t.(stage := Stage.Done, decision := Some(owner)), TaskLifecycle.Done,
                         [AcceptedAt(id, t.lastRunId.value, view.snapshot.value, w.projects[t.info.workspaceId],
                                     owner)])
               else w
  {
    hide Verify, MayVerify;
    hide WhiteSpace;
  }

  ghost predicate FeedsBack(w: World, id: string, revision: int, message: string, scopeChange: bool,
                            owner: Option<OwnerEvidence>) {
    && Named(w, id, revision) && Says(message) && (scopeChange ==> owner != None && Spoken(owner.value))
    && w.tasks[id].stage != Stage.Discussing && w.tasks[id].stage != Checking && w.tasks[id].stage != Stage.Done
  }

  lemma {:induction false} FeedBackIsExact(writable: (Policy, string) -> bool, backendId: string, w: World, id: string,
                                           revision: int, message: string, scopeChange: bool,
                                           owner: Option<OwnerEvidence>)
    ensures Step(writable, backendId, w, FeedBackTask(id, revision, message, scopeChange, owner))
            == if FeedsBack(w, id, revision, message, scopeChange, owner) then
                 Written(w, id, w.tasks[id].(stage := if scopeChange then Stage.Discussing else Rework,
                                             submitted := None, alignment := None, lens := None),
                         if scopeChange then TaskLifecycle.Discussing else Active, [])
               else w
  {
    hide Verify, MayVerify;
    hide WhiteSpace;
    assert w.log + [] == w.log;
    if id in w.tasks { StageIsOne(w.tasks[id].stage); }
  }

  lemma {:induction false} DocumentIsExact(writable: (Policy, string) -> bool, backendId: string, w: World, id: string,
                                           revision: int, documents: DocumentSet, written: bool)
    ensures Step(writable, backendId, w, DocumentTask(id, revision, documents, written))
            == if Named(w, id, revision) && w.tasks[id].stage == Stage.Discussing && written then
                 Written(w, id, w.tasks[id].(requiresDocuments := true, documents := Some(documents),
                                             alignment := None, lens := None),
                         TaskLifecycle.Discussing, [])
               else w
  {
    hide Verify, MayVerify;
    assert w.log + [] == w.log;
  }

  predicate Known(checks: seq<Check>, criterion: int) {
    exists k :: 0 <= k < |checks| && checks[k].criterion == criterion
  }

  /** Each criterion has a check of the agreement and a result, and the owner's words where the check is manual; an
      automatic one needs none. */
  ghost predicate Evidenced(checks: seq<Check>, criteria: seq<CriterionEvidence>, count: nat) {
    && |criteria| == count
    && (forall i, j :: 0 <= i < |criteria| && 0 <= j < |criteria| && criteria[i].criterion == criteria[j].criterion
                       ==> i == j)
    && (forall i :: 0 <= i < |criteria| ==> Known(checks, criteria[i].criterion))
    && EvidenceGiven(checks, criteria)
  }

  ghost predicate Aligns(w: World, id: string, revision: int, criteria: seq<CriterionEvidence>, narrativeOk: bool,
                         evidenceOk: bool, view: Reads) {
    && Named(w, id, revision) && w.tasks[id].stage == Stage.AwaitingAcceptance
    && AgreementStands(w, w.tasks[id], view) && w.tasks[id].requiresDocuments && Completed(w, w.tasks[id])
    && narrativeOk && evidenceOk && view.snapshot != None && w.tasks[id].submitted == view.snapshot
    && Evidenced(w.tasks[id].agreements[|w.tasks[id].agreements| - 1].checks, criteria, |w.tasks[id].acceptance|)
  }

  /** On a mapping that covers each criterion once, the criteria hold exactly when each has its evidence. */
  lemma {:induction false} CriteriaHold(checks: seq<Check>, criteria: seq<CriterionEvidence>, count: nat)
    requires ChecksMap(checks, count)
    ensures (forall i :: 0 <= i < |criteria| ==> CriterionHolds(checks, criteria[i]))
            <==> EvidenceGiven(checks, criteria)
                 && forall i :: 0 <= i < |criteria| ==> Known(checks, criteria[i].criterion)
  {
    hide CriterionHolds, OwnerConfirms, Known, ChecksMap, WhiteSpace;
    forall i | 0 <= i < |criteria|
      ensures CriterionHolds(checks, criteria[i])
              <==> Says(criteria[i].result) && OwnerConfirms(checks, criteria[i])
                   && Known(checks, criteria[i].criterion) {
      OneCriterionHolds(checks, criteria[i], count);
    }
  }

  lemma {:induction false} OneCriterionHolds(checks: seq<Check>, c: CriterionEvidence, count: nat)
    requires ChecksMap(checks, count)
    ensures CriterionHolds(checks, c)
            <==> Says(c.result) && OwnerConfirms(checks, c) && Known(checks, c.criterion)
  {
    hide WhiteSpace;
  }

  lemma {:induction false} AlignIsExact(writable: (Policy, string) -> bool, backendId: string, w: World, id: string,
                                        revision: int, criteria: seq<CriterionEvidence>, narrativeOk: bool,
                                        evidenceOk: bool, view: Reads)
    requires Inv(writable, w)
    ensures Step(writable, backendId, w, AlignTask(id, revision, criteria, narrativeOk, evidenceOk, view))
            == if Aligns(w, id, revision, criteria, narrativeOk, evidenceOk, view) then
                 var t := w.tasks[id];
                 Written(w, id, t.(alignment := Some(Alignment(t.lastRunId.value, view.snapshot.value, criteria))),
                         TaskLifecycle.AwaitingAcceptance, [])
               else w
  {
    hide EvidenceGiven, CriterionHolds, ChecksMap, TaskInv, Known, Verify, MayVerify;
    assert w.log + [] == w.log;
    if id in w.tasks && w.tasks[id].agreements != [] {
      AgreedChecksMap(writable, w.tasks[id], id, w.log, w.runs);
      CriteriaHold(w.tasks[id].agreements[|w.tasks[id].agreements| - 1].checks, criteria, |w.tasks[id].acceptance|);
    }
  }

  lemma {:induction false} AgreedChecksMap(writable: (Policy, string) -> bool, t: Task, id: string, log: seq<Entry>,
                                           runs: map<string, RunEntry>)
    requires TaskInv(writable, t, id, log, runs) && t.agreements != []
    ensures ChecksMap(t.agreements[|t.agreements| - 1].checks, |t.acceptance|)
  {
    hide ChecksMap, RecordsAreCurrent, RiskIsApproved, SubmissionStands, VerificationStands, AcceptanceStands;
    assert t.Agreed() == Some(t.agreements[|t.agreements| - 1]);
  }

  lemma {:induction false} LensIsExact(writable: (Policy, string) -> bool, backendId: string, w: World, id: string,
                                       revision: int, lens: Lens, view: Reads)
    ensures Step(writable, backendId, w, LensTask(id, revision, lens, view))
            == if Named(w, id, revision) && w.tasks[id].stage == Stage.AwaitingAcceptance
                  && AgreementStands(w, w.tasks[id], view) && w.tasks[id].lastRunId == Some(lens.runId)
                  && w.tasks[id].submitted == Some(lens.stamp) == view.snapshot then
                 Written(w, id, w.tasks[id].(lens := Some(lens)), w.tasks[id].info.lifecycle, [])
               else w
  {
    hide Verify, MayVerify;
    assert w.log + [] == w.log;
  }

  /** What an interruption leaves of the run that was being driven. */
  function Interrupted(entry: RunEntry): RunEntry {
    if entry.run.state == RunState.Completed then entry
    else entry.(run := entry.run.(state := RunState.Blocked, version := entry.run.version + 1,
                                  failure := Some(Failure("INTERRUPTED", false, NotStarted))))
  }

  lemma {:induction false} RecoverIsExact(writable: (Policy, string) -> bool, backendId: string, w: World, id: string,
                                          revision: int, owner: OwnerEvidence)
    ensures Step(writable, backendId, w, RecoverTask(id, revision, owner))
            == if Named(w, id, revision) && w.tasks[id].stage == Checking && Spoken(owner) then
                 var t := w.tasks[id];
                 var u := Written(w, id, t.(stage := Stage.Blocked), Active, []);
                 if t.lastRunId != None && t.lastRunId.value in w.runs
                 then u.(runs := w.runs[t.lastRunId.value := Interrupted(w.runs[t.lastRunId.value])]) else u
               else w
  {
    hide Verify, MayVerify;
    hide WhiteSpace;
    assert w.log + [] == w.log;
  }

  /** Nothing speaks of the task yet. */
  ghost predicate IsNew(w: World, id: string) {
    id !in w.tasks && (forall e <- w.log :: e.task != id) && forall r <- w.runs :: w.runs[r].run.taskId != id
  }

  lemma {:induction false} UnmentionedIs(w: World, id: string)
    ensures Unmentioned(w, id) <==> IsNew(w, id)
  {
    if i :| 0 <= i < |w.log| && w.log[i].task == id { assert w.log[i] in w.log; }
  }

  /** A new task is in discussion and has nothing yet. */
  lemma {:induction false} CreateIsExact(writable: (Policy, string) -> bool, backendId: string, w: World, id: string,
                                         workspaceId: string, risk: Risk, title: string, primary: string,
                                         requiresDocuments: bool, profileOk: bool)
    ensures var v := Step(writable, backendId, w,
                          CreateTask(id, workspaceId, risk, title, primary, requiresDocuments, profileOk));
            if IsNew(w, id) && workspaceId in w.projects && profileOk && Says(title) && Says(primary) then
              && v == w.(tasks := v.tasks) && v.tasks == w.tasks[id := v.tasks[id]]
              && var t := v.tasks[id];
              && t.info == EngineeringTask(id, workspaceId, risk, TaskLifecycle.Discussing, true)
              && t.stage == Stage.Discussing && t.revision == 0 && t.acceptance == [] && t.agreements == []
              && t.submitted == None && t.lastRunId == None && t.riskApproval == None && t.decision == None
              && t.requiresDocuments == requiresDocuments && t.documents == None && t.alignment == None
              && t.lens == None
            else v == w
  {
    hide Verify, MayVerify;
    hide WhiteSpace, Unmentioned, IsNew;
    UnmentionedIs(w, id);
  }
}
