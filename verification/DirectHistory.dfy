/** What every history of commands and outside edits leaves true of the acceptance protocol. */
module DirectHistory {
  import opened Contracts
  import opened Direct
  import opened DirectTheorems
  import opened DirectSteps
  import opened DirectVerify
  import C = Catalog
  import T = RunTheorems

  lemma {:induction false} StepKeeps(writable: (Policy, string) -> bool, backendId: string, w: World, c: Command)
    requires Inv(writable, w)
    ensures Inv(writable, Step(writable, backendId, w, c))
  {
    hide Inv, MayAgree, MayBegin, MaySubmit, MayVerify, MayAccept, MayAlign, MayRecordLens, FreshRunId, Unmentioned;
    hide Agree, Begin, Submit, Verify, Accept, FeedBack, Align, RecordLens, Recover;
    match c {
      case CreateTask(id, workspaceId, risk, title, primary, _, profileOk) =>
        if Unmentioned(w, id) { CreateKeeps(writable, w, c); }
      case AgreeTask(id, revision, anchors, checks, owner, view) =>
        if MayAgree(w, id, revision, anchors, checks, owner, view) {
          AgreeKeeps(writable, w, id, revision, anchors, checks, owner, view);
        }
      case BeginTask(id, revision, approval, view) =>
        if MayBegin(w, id, revision, approval, view) { BeginKeeps(writable, w, id, revision, approval, view); }
      case SubmitTask(id, revision, report, view) =>
        if MaySubmit(writable, w, id, revision, report, view) { SubmitKeeps(writable, w, id, revision, report, view); }
      case VerifyTask(id, revision, v, view) =>
        if MayVerify(writable, w, id, revision, v, view) { VerifyKeeps(writable, backendId, w, id, revision, v, view); }
      case AcceptTask(id, revision, owner, evidenceOk, view) =>
        if MayAccept(w, id, revision, owner, evidenceOk, view) {
          AcceptKeeps(writable, w, id, revision, owner, evidenceOk, view);
        }
      case FeedBackTask(id, revision, message, scopeChange, owner) =>
        if MayFeedBack(w, id, revision, message, scopeChange, owner) { FeedBackKeeps(writable, w, id, scopeChange); }
      case DocumentTask(id, revision, documents, written) =>
        if Editable(w, id, revision, {Stage.Discussing}) { DocumentKeeps(writable, w, id, documents); }
      case AlignTask(id, revision, criteria, narrativeOk, evidenceOk, view) =>
        if MayAlign(w, id, revision, criteria, narrativeOk, evidenceOk, view) {
          AlignKeeps(writable, w, id, revision, criteria, narrativeOk, evidenceOk, view);
        }
      case LensTask(id, revision, lens, view) =>
        if MayRecordLens(w, id, revision, lens, view) { LensKeeps(writable, w, id, revision, lens, view); }
      case RecoverTask(id, revision, acknowledgement) =>
        if Editable(w, id, revision, {Checking}) { RecoverKeeps(writable, w, id); }
      case EditProject(workspaceId, policy) => EditKeeps(writable, w, workspaceId, policy);
      case OtherRun(runId, entry) =>
        if entry.run.taskId !in w.tasks
           && (if runId in w.runs then w.runs[runId].run.taskId !in w.tasks else FreshRunId(w, runId)) {
          OtherRunKeeps(writable, w, runId, entry);
        }
    }
  }

  lemma {:induction false} EditKeeps(writable: (Policy, string) -> bool, w: World, workspaceId: string, policy: Policy)
    requires Inv(writable, w)
    ensures Inv(writable, w.(projects := w.projects[workspaceId := policy]))
  {
    hide TaskInv;
  }

  /** Nothing of this protocol has happened yet: there are projects, and perhaps runs of other kinds of tasks. */
  function Opened(runs: map<string, RunEntry>, projects: map<string, Policy>): World {
    World(map[], runs, projects, [])
  }

  lemma {:induction false} PlayKeeps(writable: (Policy, string) -> bool, backendId: string, runs: map<string, RunEntry>,
                                     projects: map<string, Policy>, commands: seq<Command>)
    ensures Inv(writable, Play(writable, backendId, Opened(runs, projects), commands))
    decreases |commands|
  {
    hide Step, TaskInv;
    if commands != [] {
      var n := |commands| - 1;
      PlayKeeps(writable, backendId, runs, projects, commands[..n]);
      StepKeeps(writable, backendId, Play(writable, backendId, Opened(runs, projects), commands[..n]), commands[n]);
    }
  }

  // ---- What a finished task proves ----

  /** A task is Done only if one source was seen when it was submitted, when verification began, when it was delivered
      and when the owner accepted it, in that order, all under the latest agreement and its policy, and that source
      differs from the agreed baseline only in writable paths. The verification run is stored Completed, and its last
      executions were a successful test, review unless the risk is Fast, and delivery, in this order. */
  lemma {:induction false} DoneHasOneFingerprint(writable: (Policy, string) -> bool, backendId: string,
                                                 runs: map<string, RunEntry>, projects: map<string, Policy>,
                                                 commands: seq<Command>, id: string)
    requires id in Play(writable, backendId, Opened(runs, projects), commands).tasks
    requires Play(writable, backendId, Opened(runs, projects), commands).tasks[id].stage == Stage.Done
    ensures var w := Play(writable, backendId, Opened(runs, projects), commands);
            var t := w.tasks[id];
            && t.Agreed().Some? && t.Agreed() == LastAgreed(w.log, id) && t.submitted.Some? && t.lastRunId.Some?
            && t.decision.Some?
            && t.lastRunId.value in w.runs && w.runs[t.lastRunId.value].run.state.Completed?
            && T.Verified(C.Direct, t.info.risk, w.runs[t.lastRunId.value].run.executions)
            && exists b, c, d, e ::
                 AcceptedUnder(writable, w.log, id, t.Agreed().value, t.submitted.value, t.lastRunId.value,
                               t.decision.value, b, c, d, e)
  {
    hide AcceptedUnder, VerifiedUnder, LastAgreed, SubmittedUnder, Play, Exclusive, RecordsAreCurrent;
    hide RiskIsApproved, SubmissionStands;
    PlayKeeps(writable, backendId, runs, projects, commands);
  }

  /** At most one task of a project is being implemented, waiting for verification, verified or accepted. */
  lemma {:induction false} OneTaskHoldsTheSource(writable: (Policy, string) -> bool, backendId: string,
                                                 runs: map<string, RunEntry>, projects: map<string, Policy>,
                                                 commands: seq<Command>, x: string, y: string)
    requires var w := Play(writable, backendId, Opened(runs, projects), commands);
             && x in w.tasks && y in w.tasks && w.tasks[x].stage in HOLDING && w.tasks[y].stage in HOLDING
             && w.tasks[x].info.workspaceId == w.tasks[y].info.workspaceId
    ensures x == y
  {
    hide Play, TaskInv;
    PlayKeeps(writable, backendId, runs, projects, commands);
  }

  /** Outside Checking the two records of a task's progress agree; recorded reviews are about the latest run and the
      submitted source, with a result for every criterion and the owner's words for every manual one; a Critical task
      past Begin has an approval given after its latest agreement. */
  lemma {:induction false} RecordsAgree(writable: (Policy, string) -> bool, backendId: string,
                                        runs: map<string, RunEntry>, projects: map<string, Policy>,
                                        commands: seq<Command>, id: string)
    requires id in Play(writable, backendId, Opened(runs, projects), commands).tasks
    ensures var w := Play(writable, backendId, Opened(runs, projects), commands);
            var t := w.tasks[id];
            && (t.stage != Checking ==> t.info.lifecycle == LifecycleOf(t.stage))
            && (t.alignment.Some? ==>
                  && t.lastRunId == Some(t.alignment.value.runId) && t.submitted == Some(t.alignment.value.stamp)
                  && AlignsAll(t.alignment.value.criteria, |t.acceptance|)
                  && t.agreements != []
                  && EvidenceGiven(t.agreements[|t.agreements| - 1].checks, t.alignment.value.criteria))
            && (t.lens.Some? ==> t.lastRunId == Some(t.lens.value.runId) && t.submitted == Some(t.lens.value.stamp))
            && (t.info.risk.Critical? && t.stage in BEGUN ==>
                  t.riskApproval.Some? && exists g :: ApprovedUnder(w.log, id, t.riskApproval.value, g))
            && (t.agreements != [] ==>
                  Some(t.agreements[|t.agreements| - 1]) == LastAgreed(w.log, id)
                  && ChecksMap(t.agreements[|t.agreements| - 1].checks, |t.acceptance|))
            && (forall i :: 0 <= i < |t.agreements| ==> t.agreements[i].version == i + 1)
  {
    hide AcceptedUnder, VerifiedUnder, LastAgreed, SubmittedUnder, ApprovedUnder, Play, Exclusive, SubmissionStands,
        VerificationStands,
         AcceptanceStands, ChecksMap, AlignsAll, EvidenceGiven;
    PlayKeeps(writable, backendId, runs, projects, commands);
  }

  // ---- Every criterion is covered exactly once ----

  function Range(n: nat): (r: set<int>) { if n == 0 then {} else Range(n - 1) + {n} }

  lemma {:induction false} RangeSize(n: nat)
    ensures |Range(n)| == n && forall i :: i in Range(n) <==> 1 <= i <= n
  {
    if n > 0 { RangeSize(n - 1); }
  }

  function Criteria(checks: seq<Check>): (r: set<int>) { set i | 0 <= i < |checks| :: checks[i].criterion }

  lemma {:induction false} DistinctCriteria(checks: seq<Check>)
    requires forall i, j :: 0 <= i < j < |checks| ==> checks[i].criterion != checks[j].criterion
    ensures |Criteria(checks)| == |checks|
  {
    if checks != [] {
      var n := |checks| - 1;
      DistinctCriteria(checks[..n]);
      assert Criteria(checks) == Criteria(checks[..n]) + {checks[n].criterion};
      assert checks[n].criterion !in Criteria(checks[..n]);
    }
  }

  lemma {:induction false} SubsetOfSameSize(a: set<int>, b: set<int>)
    requires a <= b && |a| == |b|
    ensures a == b
  {
    assert b == a + (b - a);
    assert |b - a| == 0;
  }

  /** The accepted mapping covers each criterion of the agreement by exactly one check. */
  lemma {:induction false} EveryCriterionIsMappedOnce(checks: seq<Check>, criteria: nat, criterion: int)
    requires ChecksMap(checks, criteria) && 1 <= criterion <= criteria
    ensures exists k :: 0 <= k < |checks| && checks[k].criterion == criterion
                        && forall j :: 0 <= j < |checks| && checks[j].criterion == criterion ==> j == k
  {
    DistinctCriteria(checks);
    RangeSize(criteria);
    SubsetOfSameSize(Criteria(checks), Range(criteria));
    assert criterion in Criteria(checks);
  }

  // ---- What one command can do to a task ----

  function RevisionOf(c: Command): Option<int> {
    if c.CreateTask? || c.EditProject? || c.OtherRun? then None else Some(c.revision)
  }

  /** A task is left alone, or the command named its revision and moved it on without losing an agreement. */
  ghost predicate MovedOn(t: Task, u: Task, c: Command) {
    u == t
    || (&& t.stage != Stage.Done && RevisionOf(c) == Some(t.revision) && u.revision > t.revision
        && t.agreements <= u.agreements
        && u.info == t.info.(lifecycle := u.info.lifecycle))
  }

  lemma {:induction false} VerifyMovesOn(writable: (Policy, string) -> bool, backendId: string, w: World, id: string,
                                         revision: int, v: Verification, view: Reads, other: string)
    requires MayVerify(writable, w, id, revision, v, view) && other in w.tasks
    ensures other in Verify(backendId, w, id, v, view).tasks
    ensures MovedOn(w.tasks[other], Verify(backendId, w, id, v, view).tasks[other], VerifyTask(id, revision, v, view))
  {
    hide OtherWriter, FreshRunId, AllowedChanges, DocumentsHold, Verify, VerifyDeliveries, VerifyRun, VerifyStart;
    VerifyCases(backendId, w, id, v, view);
  }

  lemma {:induction false} WorkMovesOn(writable: (Policy, string) -> bool, backendId: string, w: World, c: Command,
                                       other: string)
    requires other in w.tasks && (c.AgreeTask? || c.BeginTask? || c.SubmitTask? || c.AcceptTask? || c.FeedBackTask?)
    ensures other in Step(writable, backendId, w, c).tasks
    ensures MovedOn(w.tasks[other], Step(writable, backendId, w, c).tasks[other], c)
  {
    hide OtherWriter, FreshRunId, AllowedChanges, Frozen, DocumentsHold, ChecksMap, Verify, MayVerify, CompletedRun;
    hide BlockRun, Unmentioned;
  }

  lemma {:induction false} ReviewMovesOn(writable: (Policy, string) -> bool, backendId: string, w: World, c: Command,
                                         other: string)
    requires other in w.tasks && (c.DocumentTask? || c.AlignTask? || c.LensTask? || c.RecoverTask?)
    ensures other in Step(writable, backendId, w, c).tasks
    ensures MovedOn(w.tasks[other], Step(writable, backendId, w, c).tasks[other], c)
  {
    hide OtherWriter, FreshRunId, AllowedChanges, Frozen, DocumentsHold, ChecksMap, Verify, MayVerify, CompletedRun;
    hide BlockRun, Unmentioned, CriterionHolds;
  }

  lemma {:induction false} CommandMovesOn(writable: (Policy, string) -> bool, backendId: string, w: World, c: Command,
                                          other: string)
    requires other in w.tasks
    ensures other in Step(writable, backendId, w, c).tasks
    ensures MovedOn(w.tasks[other], Step(writable, backendId, w, c).tasks[other], c)
  {
    hide OtherWriter, FreshRunId, AllowedChanges, Frozen, DocumentsHold, ChecksMap, Verify, MayVerify, CompletedRun;
    hide BlockRun, Unmentioned, Saved, Save, MovedOn, MayAgree, MayBegin, MaySubmit, MayAccept, MayFeedBack;
    hide MayAlign, MayRecordLens;
    match c {
      case VerifyTask(id, revision, v, view) =>
        if MayVerify(writable, w, id, revision, v, view) {
          VerifyMovesOn(writable, backendId, w, id, revision, v, view, other);
        }
        else { StaysPut(w.tasks[other], c); }
      case DocumentTask(_, _, _, _) => ReviewMovesOn(writable, backendId, w, c, other);
      case AlignTask(_, _, _, _, _, _) => ReviewMovesOn(writable, backendId, w, c, other);
      case LensTask(_, _, _, _) => ReviewMovesOn(writable, backendId, w, c, other);
      case RecoverTask(_, _, _) => ReviewMovesOn(writable, backendId, w, c, other);
      case CreateTask(_, _, _, _, _, _, _) => UnmentionedIsNew(w, c.id); StaysPut(w.tasks[other], c);
      case EditProject(_, _) => StaysPut(w.tasks[other], c);
      case OtherRun(_, _) => StaysPut(w.tasks[other], c);
      case _ => WorkMovesOn(writable, backendId, w, c, other);
    }
  }

  lemma {:induction false} StaysPut(t: Task, c: Command)
    ensures MovedOn(t, t, c)
  {
  }

  lemma {:induction false} UnmentionedIsNew(w: World, id: string)
    ensures Unmentioned(w, id) ==> id !in w.tasks
  {
  }

  /** Agreements are only ever appended, revisions never fall, and a finished task never changes again. */
  lemma {:induction false} HistoryMovesOn(writable: (Policy, string) -> bool, backendId: string, w: World,
                                          commands: seq<Command>, id: string)
    requires id in w.tasks
    ensures id in Play(writable, backendId, w, commands).tasks
    ensures var t, u := w.tasks[id], Play(writable, backendId, w, commands).tasks[id];
            && t.agreements <= u.agreements
            && u.revision >= t.revision && (u.revision == t.revision ==> u == t)
            && (t.stage == Stage.Done ==> u == t)
    decreases |commands|
  {
    hide Step;
    if commands != [] {
      var n := |commands| - 1;
      HistoryMovesOn(writable, backendId, w, commands[..n], id);
      var v := Play(writable, backendId, w, commands[..n]);
      CommandMovesOn(writable, backendId, v, commands[n], id);
    }
  }

  /** A revision is used at most once: after a command changed a task, no later command naming the same revision can. */
  lemma {:induction false} RevisionIsUsedOnce(writable: (Policy, string) -> bool, backendId: string, w: World,
                                              c: Command, between: seq<Command>, d: Command, id: string)
    requires id in w.tasks && RevisionOf(d) == RevisionOf(c)
    requires id in Step(writable, backendId, w, c).tasks && Step(writable, backendId, w, c).tasks[id] != w.tasks[id]
    ensures var v := Play(writable, backendId, Step(writable, backendId, w, c), between);
            && id in v.tasks && id in Step(writable, backendId, v, d).tasks
            && Step(writable, backendId, v, d).tasks[id] == v.tasks[id]
  {
    hide Step, Play;
    CommandMovesOn(writable, backendId, w, c, id);
    var u := Step(writable, backendId, w, c);
    HistoryMovesOn(writable, backendId, u, between, id);
    CommandMovesOn(writable, backendId, Play(writable, backendId, u, between), d, id);
  }

  /** The nine stages and the commands that lead from one to another. */
  predicate Edge(c: Command, t: Stage, u: Stage) {
    match c
    case AgreeTask(_, _, _, _, _, _) => t.Discussing? && u.Ready?
    case BeginTask(_, _, _, _) => t in {Stage.Ready, Rework, Stage.Blocked} && u.Implementing?
    case SubmitTask(_, _, _, _) => t.Implementing? && u.Submitted?
    case VerifyTask(_, _, v, _) =>
      && t in {Submitted, Stage.Blocked} && u in {Checking, Stage.Blocked, Rework, Stage.AwaitingAcceptance}
      && (u.Checking? ==> v.end.Crashed?)
    case AcceptTask(_, _, _, _, _) => t.AwaitingAcceptance? && u.Done?
    case FeedBackTask(_, _, _, scopeChange, _) =>
      !t.Discussing? && !t.Checking? && !t.Done? && u == if scopeChange then Stage.Discussing else Rework
    case RecoverTask(_, _, _) => t.Checking? && u.Blocked?
    case DocumentTask(_, _, _, _) => t.Discussing? && u == t
    case AlignTask(_, _, _, _, _, _) => t.AwaitingAcceptance? && u == t
    case LensTask(_, _, _, _) => t.AwaitingAcceptance? && u == t
    case _ => false
  }

  lemma {:induction false} VerifyFollowsEdge(writable: (Policy, string) -> bool, backendId: string, w: World,
                                             id: string, revision: int, v: Verification, view: Reads)
    requires MayVerify(writable, w, id, revision, v, view)
    ensures id in Verify(backendId, w, id, v, view).tasks
    ensures Edge(VerifyTask(id, revision, v, view), w.tasks[id].stage,
                 Verify(backendId, w, id, v, view).tasks[id].stage)
  {
    hide VerifyRun, VerifyDeliveries, RunRefused, Conclude, MayVerify, FreshRunId;
    MayVerifyFacts(writable, w, id, revision, v, view);
    VerifyCases(backendId, w, id, v, view);
    if v.end.Ended? { ChecksOnlyCrashed(backendId, w, id, v, view); }
  }

  /** A verification that was not cut off never leaves the task Checking. */
  lemma {:induction false} ChecksOnlyCrashed(backendId: string, w: World, id: string, v: Verification, view: Reads)
    requires id in w.tasks && w.tasks[id].info.workspaceId in w.projects && view.snapshot.Some? && v.end.Ended?
    ensures id in Verify(backendId, w, id, v, view).tasks
            && !Verify(backendId, w, id, v, view).tasks[id].stage.Checking?
  {
    hide VerifyRun, VerifyDeliveries, RunRefused, BlockRun;
  }

  /** A command that changes a task follows an edge of the stage machine, and no other task's stage moves. */
  lemma {:induction false} StagesFollowEdges(writable: (Policy, string) -> bool, backendId: string, w: World,
                                             c: Command, id: string)
    requires id in w.tasks && id in Step(writable, backendId, w, c).tasks
             && Step(writable, backendId, w, c).tasks[id] != w.tasks[id]
    ensures RevisionOf(c).Some? && c.id == id && Edge(c, w.tasks[id].stage,
                                                      Step(writable, backendId, w, c).tasks[id].stage)
  {
    hide Edge, Step;
    OneTaskWritten(writable, backendId, w, c);
    match c {
      case VerifyTask(_, revision, v, view) => VerifyEdge(writable, backendId, w, c);
      case AgreeTask(_, _, _, _, _, _) => WorkEdge(writable, backendId, w, c);
      case BeginTask(_, _, _, _) => WorkEdge(writable, backendId, w, c);
      case SubmitTask(_, _, _, _) => WorkEdge(writable, backendId, w, c);
      case AcceptTask(_, _, _, _, _) => WorkEdge(writable, backendId, w, c);
      case FeedBackTask(_, _, _, _, _) => WorkEdge(writable, backendId, w, c);
      case _ => ReviewEdge(writable, backendId, w, c);
    }
  }

  lemma {:induction false} VerifyEdge(writable: (Policy, string) -> bool, backendId: string, w: World, c: Command)
    requires c.VerifyTask? && c.id in w.tasks && Step(writable, backendId, w, c) != w
    ensures c.id in Step(writable, backendId, w, c).tasks
            && Edge(c, w.tasks[c.id].stage, Step(writable, backendId, w, c).tasks[c.id].stage)
  {
    hide Verify, MayVerify, Edge;
    match c {
      case VerifyTask(id, revision, v, view) => VerifyFollowsEdge(writable, backendId, w, id, revision, v, view);
    }
  }

  lemma {:induction false} WorkEdge(writable: (Policy, string) -> bool, backendId: string, w: World, c: Command)
    requires c.AgreeTask? || c.BeginTask? || c.SubmitTask? || c.AcceptTask? || c.FeedBackTask?
    requires c.id in w.tasks && Step(writable, backendId, w, c) != w
    ensures c.id in Step(writable, backendId, w, c).tasks
            && Edge(c, w.tasks[c.id].stage, Step(writable, backendId, w, c).tasks[c.id].stage)
  {
    hide OtherWriter, FreshRunId, AllowedChanges, Frozen, DocumentsHold, ChecksMap, CompletedRun, Blank, Verify;
  }

  lemma {:induction false} ReviewEdge(writable: (Policy, string) -> bool, backendId: string, w: World, c: Command)
    requires c.DocumentTask? || c.AlignTask? || c.LensTask? || c.RecoverTask?
    requires c.id in w.tasks && Step(writable, backendId, w, c) != w
    ensures c.id in Step(writable, backendId, w, c).tasks
            && Edge(c, w.tasks[c.id].stage, Step(writable, backendId, w, c).tasks[c.id].stage)
  {
    hide FreshRunId, Frozen, DocumentsHold, CompletedRun, Blank, Verify, BlockRun, CriterionHolds;
  }

  // ---- Where the protocol falls short ----

  /** The stages NoOtherWriter treats as owning the source are held by at most one task of a project. */
  ghost predicate OneOwner(w: World) {
    forall x <- w.tasks, y <- w.tasks ::
      (w.tasks[x].stage in OWNING && w.tasks[y].stage in OWNING
       && w.tasks[x].info.workspaceId == w.tasks[y].info.workspaceId) ==> x == y
  }

  ghost predicate AnotherOwns(w: World, id: string)
    requires id in w.tasks
  {
    exists x <- w.tasks :: x != id && w.tasks[x].info.workspaceId == w.tasks[id].info.workspaceId
        && w.tasks[x].stage in OWNING
  }

  /** Feedback that sends a task from Ready straight to Rework while another task owns the project. */
  ghost predicate UnguardedRework(w: World, c: Command) {
    && c.FeedBackTask? && MayFeedBack(w, c.id, c.revision, c.message, c.scopeChange, c.feedbackOwner) && !c.scopeChange
    && w.tasks[c.id].stage == Stage.Ready && AnotherOwns(w, c.id)
  }

  /** The task came to own the source by this command. */
  ghost predicate Takes(w: World, v: World, id: string) {
    id in v.tasks && v.tasks[id].stage in OWNING && (id in w.tasks ==> w.tasks[id].stage !in OWNING)
  }

  /** A command writes one task; one it creates starts in discussion. */
  lemma {:induction false} OneTaskWritten(writable: (Policy, string) -> bool, backendId: string, w: World, c: Command)
    ensures var v := Step(writable, backendId, w, c);
            v.tasks == w.tasks
            || (c.CreateTask? && c.id !in w.tasks && v.tasks == w.tasks[c.id := NewTask(c)])
            || (!c.CreateTask? && RevisionOf(c).Some? && c.id in w.tasks && c.id in v.tasks
                && v.tasks == w.tasks[c.id := v.tasks[c.id]])
  {
    hide OtherWriter, FreshRunId, AllowedChanges, Frozen, DocumentsHold, ChecksMap, Verify, MayVerify, CompletedRun;
    hide BlockRun;
    if c.VerifyTask? && MayVerify(writable, w, c.id, c.revision, c.verification, c.view) {
      MayVerifyFacts(writable, w, c.id, c.revision, c.verification, c.view);
      VerifyWritesOne(backendId, w, c.id, c.verification, c.view);
    }
  }

  lemma {:induction false} VerifyWritesOne(backendId: string, w: World, id: string, v: Verification, view: Reads)
    requires id in w.tasks && w.tasks[id].info.workspaceId in w.projects && view.snapshot.Some?
    ensures var u := Verify(backendId, w, id, v, view); id in u.tasks && u.tasks == w.tasks[id := u.tasks[id]]
  {
    hide Verify, VerifyRun, VerifyDeliveries, SettledFrom;
    VerifyCases(backendId, w, id, v, view);
  }

  lemma {:induction false} TakenWithoutOwner(writable: (Policy, string) -> bool, backendId: string, w: World,
                                             c: Command)
    requires RevisionOf(c).Some? && c.id in w.tasks && w.tasks[c.id].stage !in OWNING
    requires c.id in Step(writable, backendId, w, c).tasks
             && Step(writable, backendId, w, c).tasks[c.id].stage in OWNING
    ensures c.BeginTask? || c.FeedBackTask?
    ensures AnotherOwns(w, c.id) <==> UnguardedRework(w, c)
  {
    hide FreshRunId, AllowedChanges, Frozen, DocumentsHold, ChecksMap, Verify, CompletedRun, BlockRun, Unmentioned;
  }

  /** A command keeps ownership exclusive unless it is unguarded rework, and unguarded rework always breaks it. */
  lemma {:induction false} OneOwnerExceptRework(writable: (Policy, string) -> bool, backendId: string, w: World,
                                                c: Command)
    requires OneOwner(w)
    ensures OneOwner(Step(writable, backendId, w, c)) <==> !UnguardedRework(w, c)
  {
    hide Step, MayFeedBack;
    OneTaskWritten(writable, backendId, w, c);
    CommandsKeepWorkspace(writable, backendId, w, c);
    var v := Step(writable, backendId, w, c);
    if UnguardedRework(w, c) {
      UnguardedTakes(writable, backendId, w, c);
      var x :| x in w.tasks && x != c.id && w.tasks[x].info.workspaceId == w.tasks[c.id].info.workspaceId
          && w.tasks[x].stage in OWNING;
      assert v.tasks[x] == w.tasks[x];
    } else if (c.CreateTask? || RevisionOf(c).Some?) && Takes(w, v, c.id) {
      TakenWithoutOwner(writable, backendId, w, c);
    }
  }

  /** At every point of the history each project has one owner at most. */
  ghost predicate OwnedThroughout(writable: (Policy, string) -> bool, backendId: string, w: World,
                                  commands: seq<Command>) {
    forall i :: 0 <= i <= |commands| ==> OneOwner(Play(writable, backendId, w, commands[..i]))
  }

  ghost predicate NoneUnguarded(writable: (Policy, string) -> bool, backendId: string, w: World,
                                commands: seq<Command>) {
    forall i :: 0 <= i < |commands| ==> !UnguardedRework(Play(writable, backendId, w, commands[..i]), commands[i])
  }

  lemma {:induction false} PlayLast(writable: (Policy, string) -> bool, backendId: string, w: World,
                                    commands: seq<Command>)
    requires commands != []
    ensures Play(writable, backendId, w, commands)
            == Step(writable, backendId, Play(writable, backendId, w, commands[..|commands| - 1]),
                    commands[|commands| - 1])
  {
    hide Step;
  }

  lemma {:induction false} PrefixOf(commands: seq<Command>)
    requires commands != []
    ensures forall i :: 0 <= i < |commands| ==> commands[..|commands| - 1][..i] == commands[..i]
    ensures forall i :: 0 <= i < |commands| - 1 ==> commands[..|commands| - 1][i] == commands[i]
    ensures commands[..|commands|] == commands
  {
  }

  lemma {:induction false} OwnershipUnrolled(writable: (Policy, string) -> bool, backendId: string, w: World,
                                             commands: seq<Command>)
    requires commands != []
    ensures var n := |commands| - 1;
            var v := Play(writable, backendId, w, commands[..n]);
            && Play(writable, backendId, w, commands) == Step(writable, backendId, v, commands[n])
            && (OwnedThroughout(writable, backendId, w, commands)
                <==> OwnedThroughout(writable, backendId, w, commands[..n])
                     && OneOwner(Play(writable, backendId, w, commands)))
            && (NoneUnguarded(writable, backendId, w, commands)
                <==> NoneUnguarded(writable, backendId, w, commands[..n]) && !UnguardedRework(v, commands[n]))
            && (OwnedThroughout(writable, backendId, w, commands[..n]) ==> OneOwner(v))
  {
    hide Step, OneOwner, UnguardedRework;
    hide Play;
    PlayLast(writable, backendId, w, commands);
    PrefixOf(commands);
    var n := |commands| - 1;
    assert forall i :: 0 <= i <= n ==>
             Play(writable, backendId, w, commands[..n][..i]) == Play(writable, backendId, w, commands[..i]);
  }

  /** In every history each project has one owner at every point if and only if no feedback sends a Ready task to Rework
      beside another owner. */
  lemma {:induction false} OneOwnerExactly(writable: (Policy, string) -> bool, backendId: string, w: World,
                                           commands: seq<Command>)
    requires OneOwner(w)
    ensures OwnedThroughout(writable, backendId, w, commands) <==> NoneUnguarded(writable, backendId, w, commands)
    decreases |commands|
  {
    if commands == [] {
      assert commands[..0] == [];
    } else {
      hide Step, Play, OneOwner, UnguardedRework, OwnedThroughout, NoneUnguarded;
      var n := |commands| - 1;
      OneOwnerExactly(writable, backendId, w, commands[..n]);
      OwnershipUnrolled(writable, backendId, w, commands);
      var v := Play(writable, backendId, w, commands[..n]);
      if OneOwner(v) { OneOwnerExceptRework(writable, backendId, v, commands[n]); }
    }
  }

  lemma {:induction false} UnguardedTakes(writable: (Policy, string) -> bool, backendId: string, w: World, c: Command)
    requires UnguardedRework(w, c)
    ensures Takes(w, Step(writable, backendId, w, c), c.id)
  {
  }

  lemma {:induction false} CommandsKeepWorkspace(writable: (Policy, string) -> bool, backendId: string, w: World,
                                                 c: Command)
    ensures forall id <- w.tasks :: id in Step(writable, backendId, w, c).tasks
              && Step(writable, backendId, w, c).tasks[id].info.workspaceId == w.tasks[id].info.workspaceId
  {
    hide Step;
    forall id <- w.tasks ensures id in Step(writable, backendId, w, c).tasks
              && Step(writable, backendId, w, c).tasks[id].info.workspaceId == w.tasks[id].info.workspaceId {
      CommandMovesOn(writable, backendId, w, c, id);
    }
  }

  /** Every stored risk approval carries a quote and a source. */
  ghost predicate ApprovalHolds(t: Task) { t.riskApproval.Some? ==> t.riskApproval.value.Valid() }

  /** Wherever Begin would do without an approval, an empty one is taken and stored. */
  lemma {:induction false} EmptyApprovalIsStored(writable: (Policy, string) -> bool, backendId: string, w: World,
                                                 id: string, revision: int, view: Reads)
    requires MayBegin(w, id, revision, None, view)
    ensures var v := Step(writable, backendId, w, BeginTask(id, revision, Some(OwnerEvidence("", "")), view));
            id in v.tasks && v.tasks[id].stage == Implementing && !ApprovalHolds(v.tasks[id])
  {
    hide OtherWriter, Frozen;
  }

  /** Every stored approval is well formed. */
  ghost predicate AllApprovalsHold(w: World) { forall id <- w.tasks :: ApprovalHolds(w.tasks[id]) }

  /** A Begin that is carried out with an approval that is not well formed. */
  ghost predicate StoresUnchecked(w: World, c: Command) {
    c.BeginTask? && MayBegin(w, c.id, c.revision, c.approval, c.view) && c.approval.Some? && !c.approval.value.Valid()
  }

  /** At every point of the history all stored approvals are well formed. */
  ghost predicate HoldThroughout(writable: (Policy, string) -> bool, backendId: string, w: World,
                                 commands: seq<Command>) {
    forall i :: 0 <= i <= |commands| ==> AllApprovalsHold(Play(writable, backendId, w, commands[..i]))
  }

  ghost predicate NoneUnchecked(writable: (Policy, string) -> bool, backendId: string, w: World,
                                commands: seq<Command>) {
    forall i :: 0 <= i < |commands| ==> !StoresUnchecked(Play(writable, backendId, w, commands[..i]), commands[i])
  }

  lemma {:induction false} HistoryUnrolled(writable: (Policy, string) -> bool, backendId: string, w: World,
                                           commands: seq<Command>)
    requires commands != []
    ensures var n := |commands| - 1;
            var v := Play(writable, backendId, w, commands[..n]);
            && Play(writable, backendId, w, commands) == Step(writable, backendId, v, commands[n])
            && (HoldThroughout(writable, backendId, w, commands)
                <==> HoldThroughout(writable, backendId, w, commands[..n])
                     && AllApprovalsHold(Play(writable, backendId, w, commands)))
            && (NoneUnchecked(writable, backendId, w, commands)
                <==> NoneUnchecked(writable, backendId, w, commands[..n]) && !StoresUnchecked(v, commands[n]))
            && (HoldThroughout(writable, backendId, w, commands[..n]) ==> AllApprovalsHold(v))
  {
    hide Step, AllApprovalsHold, StoresUnchecked;
    hide Play;
    PlayLast(writable, backendId, w, commands);
    PrefixOf(commands);
    var n := |commands| - 1;
    assert forall i :: 0 <= i <= n ==>
             Play(writable, backendId, w, commands[..n][..i]) == Play(writable, backendId, w, commands[..i]);
  }

  /** In every history, every stored approval is well formed at every point if and only if no Begin was carried out with
      an approval that is not. */
  lemma {:induction false} ApprovalsHoldExactly(writable: (Policy, string) -> bool, backendId: string, w: World,
                                                commands: seq<Command>)
    requires AllApprovalsHold(w)
    ensures HoldThroughout(writable, backendId, w, commands) <==> NoneUnchecked(writable, backendId, w, commands)
    decreases |commands|
  {
    if commands == [] {
      assert commands[..0] == [];
    } else {
      hide Step, Play, AllApprovalsHold, StoresUnchecked, HoldThroughout, NoneUnchecked;
      var n := |commands| - 1;
      ApprovalsHoldExactly(writable, backendId, w, commands[..n]);
      HistoryUnrolled(writable, backendId, w, commands);
      var v := Play(writable, backendId, w, commands[..n]);
      if AllApprovalsHold(v) { CommandStoresApproval(writable, backendId, v, commands[n]); }
    }
  }

  lemma {:induction false} CommandStoresApproval(writable: (Policy, string) -> bool, backendId: string, w: World,
                                                 c: Command)
    requires AllApprovalsHold(w)
    ensures AllApprovalsHold(Step(writable, backendId, w, c)) <==> !StoresUnchecked(w, c)
  {
    hide Step, ApprovalHolds, StoresUnchecked;
    OneTaskWritten(writable, backendId, w, c);
    WrittenApproval(writable, backendId, w, c);
  }

  /** The task a command writes has a well-formed approval afterwards, unless Begin stored another. */
  lemma {:induction false} WrittenApproval(writable: (Policy, string) -> bool, backendId: string, w: World, c: Command)
    requires AllApprovalsHold(w)
    ensures var v := Step(writable, backendId, w, c);
            && (StoresUnchecked(w, c) ==> c.id in v.tasks && !ApprovalHolds(v.tasks[c.id]))
            && (!StoresUnchecked(w, c) && (c.CreateTask? || RevisionOf(c).Some?) && c.id in v.tasks
                ==> ApprovalHolds(v.tasks[c.id]))
  {
    hide OtherWriter, FreshRunId, AllowedChanges, Frozen, DocumentsHold, ChecksMap, Verify, MayVerify, CompletedRun;
    hide BlockRun, Unmentioned;
    if c.VerifyTask? && MayVerify(writable, w, c.id, c.revision, c.verification, c.view) {
      MayVerifyFacts(writable, w, c.id, c.revision, c.verification, c.view);
      VerifyKeepsApproval(backendId, w, c.id, c.verification, c.view);
    }
  }

  lemma {:induction false} VerifyKeepsApproval(backendId: string, w: World, id: string, v: Verification, view: Reads)
    requires id in w.tasks && w.tasks[id].info.workspaceId in w.projects && view.snapshot.Some?
    ensures var u := Verify(backendId, w, id, v, view);
            id in u.tasks && u.tasks[id].riskApproval == w.tasks[id].riskApproval
  {
    hide Verify, VerifyRun, VerifyDeliveries;
    VerifyCases(backendId, w, id, v, view);
  }
}
