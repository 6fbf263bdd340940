/** What the acceptance protocol keeps, whatever is edited between its commands. */
module DirectTheorems {
  import opened Contracts
  import opened Direct
  import E = RunEngine
  import T = RunTheorems
  import C = Catalog

  // ---- Evidence in the log ----

  function LastAgreed(log: seq<Entry>, id: string): Option<Agreement> {
    if log == [] then None
    else
      var last := log[|log| - 1];
      if last.AgreedOn? && last.task == id then Some(last.agreement) else LastAgreed(log[..|log| - 1], id)
  }

  /** The task was not agreed again after this entry. */
  predicate SameAgreementSince(log: seq<Entry>, b: int, id: string) {
    forall j :: 0 <= j < |log| && b < j ==> !(log[j].AgreedOn? && log[j].task == id)
  }

  /** This source was submitted under this agreement and policy, and differs from the baseline only where allowed. */
  ghost predicate SubmittedUnder(writable: (Policy, string) -> bool, log: seq<Entry>, id: string, a: Agreement,
                                 seen: Snapshot, b: int) {
    && 0 <= b < |log| && log[b] == SubmittedAt(id, seen, a.policy) && SameAgreementSince(log, b, id)
    && AllowedChanges(writable, a, a.policy, seen)
  }

  /** ... and then verified from its start to its delivery by one run that saw the same source. */
  ghost predicate VerifiedUnder(writable: (Policy, string) -> bool, log: seq<Entry>, id: string, a: Agreement,
                                seen: Snapshot, runId: string, b: int, c: int, d: int) {
    && SubmittedUnder(writable, log, id, a, seen, b) && b < c < d < |log|
    && log[c] == VerifiedFrom(id, runId, seen, a.policy) && log[d] == DeliveredAt(id, runId, seen)
  }

  /** ... and then accepted by the owner while it was still the same source under the same policy. */
  ghost predicate AcceptedUnder(writable: (Policy, string) -> bool, log: seq<Entry>, id: string, a: Agreement,
                                seen: Snapshot, runId: string, owner: OwnerEvidence, b: int, c: int, d: int, e: int) {
    && VerifiedUnder(writable, log, id, a, seen, runId, b, c, d) && d < e < |log|
    && log[e] == AcceptedAt(id, runId, seen, a.policy, owner) && owner.Valid()
  }

  /** The approval was recorded after the latest agreement. */
  ghost predicate ApprovedUnder(log: seq<Entry>, id: string, approval: OwnerEvidence, g: int) {
    0 <= g < |log| && log[g] == Approved(id, approval) && SameAgreementSince(log, g, id)
  }

  predicate Concerns(entries: seq<Entry>, id: string) {
    forall i :: 0 <= i < |entries| ==> entries[i].task == id
  }

  predicate NoAgreement(entries: seq<Entry>, id: string) {
    forall i :: 0 <= i < |entries| ==> !(entries[i].AgreedOn? && entries[i].task == id)
  }

  lemma {:induction false} AgreementUnchanged(log: seq<Entry>, more: seq<Entry>, id: string)
    requires NoAgreement(more, id)
    ensures LastAgreed(log + more, id) == LastAgreed(log, id)
    decreases |more|
  {
    var all := log + more;
    if more == [] {
      assert all == log;
    } else {
      var n := |more| - 1;
      assert all[..|all| - 1] == log + more[..n] && all[|all| - 1] == more[n];
      AgreementUnchanged(log, more[..n], id);
    }
  }

  lemma {:induction false} SinceUnchanged(log: seq<Entry>, more: seq<Entry>, id: string, b: int)
    requires NoAgreement(more, id) && SameAgreementSince(log, b, id)
    ensures SameAgreementSince(log + more, b, id)
  {
    forall j | 0 <= j < |log + more| && b < j ensures !((log + more)[j].AgreedOn? && (log + more)[j].task == id) {
      if j >= |log| { assert (log + more)[j] == more[j - |log|]; }
    }
  }

  lemma {:induction false} EvidenceUnchanged(writable: (Policy, string) -> bool, log: seq<Entry>, more: seq<Entry>,
                                             id: string)
    requires NoAgreement(more, id)
    ensures forall a, seen, b :: SubmittedUnder(writable, log, id, a, seen, b) ==>
              SubmittedUnder(writable, log + more, id, a, seen, b)
    ensures forall a, seen, runId, b, c, d :: VerifiedUnder(writable, log, id, a, seen, runId, b, c, d) ==>
              VerifiedUnder(writable, log + more, id, a, seen, runId, b, c, d)
    ensures forall a, seen, runId, owner, b, c, d, e ::
            AcceptedUnder(writable, log, id, a, seen, runId, owner, b, c, d, e) ==>
              AcceptedUnder(writable, log + more, id, a, seen, runId, owner, b, c, d, e)
    ensures forall approval, g :: ApprovedUnder(log, id, approval, g) ==> ApprovedUnder(log + more, id, approval, g)
  {
    hide AllowedChanges, SameAgreementSince;
    forall b | SameAgreementSince(log, b, id) ensures SameAgreementSince(log + more, b, id) {
      SinceUnchanged(log, more, id, b);
    }
  }

  // ---- The invariant of one task ----

  /** Agreements are numbered 1..n, the last one is the latest in the log, and it maps every criterion once. */
  ghost predicate AgreementsInOrder(t: Task, id: string, log: seq<Entry>) {
    && (forall i :: 0 <= i < |t.agreements| ==> t.agreements[i].version == i + 1)
    && t.Agreed() == LastAgreed(log, id)
    && (t.stage != Stage.Discussing ==> t.Agreed().Some?)
    && (t.Agreed().Some? ==>
          t.acceptance == t.Agreed().value.anchors.acceptance && ChecksMap(t.Agreed().value.checks, |t.acceptance|))
  }

  function LifecycleOf(stage: Stage): TaskLifecycle {
    match stage
    case Discussing => TaskLifecycle.Discussing
    case Ready => TaskLifecycle.Ready
    case AwaitingAcceptance => TaskLifecycle.AwaitingAcceptance
    case Done => TaskLifecycle.Done
    case _ => Active
  }

  /** Every criterion has evidence, exactly once. */
  predicate AlignsAll(criteria: seq<CriterionEvidence>, count: int) {
    && |criteria| == count
    && (forall i, j :: 0 <= i < j < |criteria| ==> criteria[i].criterion != criteria[j].criterion)
    && (forall i :: 0 <= i < |criteria| ==> 1 <= criteria[i].criterion <= count)
  }

  /** Every criterion has a result, and one whose agreed check is manual has the owner's words and where they are
      from. */
  predicate EvidenceGiven(checks: seq<Check>, criteria: seq<CriterionEvidence>) {
    forall i :: 0 <= i < |criteria| ==> Says(criteria[i].result) && OwnerConfirms(checks, criteria[i])
  }

  predicate OwnerConfirms(checks: seq<Check>, c: CriterionEvidence) {
    forall k :: 0 <= k < |checks| && checks[k].criterion == c.criterion && checks[k].kind == "manual" ==>
      c.confirmation.Some? && Says(c.confirmation.value.quote) && Says(c.confirmation.value.source)
  }

  /** A recorded alignment or lens is about the latest run and the submitted source. */
  ghost predicate RecordsAreCurrent(t: Task) {
    && (t.alignment.Some? ==>
          && t.lastRunId == Some(t.alignment.value.runId) && t.submitted == Some(t.alignment.value.stamp)
          && AlignsAll(t.alignment.value.criteria, |t.acceptance|)
          && t.Agreed().Some? && EvidenceGiven(t.Agreed().value.checks, t.alignment.value.criteria))
    && (t.lens.Some? ==> t.lastRunId == Some(t.lens.value.runId) && t.submitted == Some(t.lens.value.stamp))
  }

  const BEGUN: set<Stage> := {Implementing, Submitted, Checking, Stage.Blocked, Stage.AwaitingAcceptance, Stage.Done}

  ghost predicate RiskIsApproved(t: Task, id: string, log: seq<Entry>) {
    && (t.info.risk.Critical? && t.stage in BEGUN ==> t.riskApproval.Some?)
    && (t.riskApproval.Some? ==> exists g :: ApprovedUnder(log, id, t.riskApproval.value, g))
  }

  ghost predicate SubmissionStands(writable: (Policy, string) -> bool, t: Task, id: string, log: seq<Entry>) {
    && (t.stage in {Submitted, Checking, Stage.AwaitingAcceptance, Stage.Done} ==> t.submitted.Some?)
    && (t.stage in {Stage.Ready, Implementing} ==> t.submitted.None?)
    && (t.submitted.Some? ==>
          t.Agreed().Some? && exists b :: SubmittedUnder(writable, log, id, t.Agreed().value, t.submitted.value, b))
  }

  ghost predicate VerificationStands(writable: (Policy, string) -> bool, t: Task, id: string, log: seq<Entry>,
                                     runs: map<string, RunEntry>) {
    && (t.lastRunId.Some? && t.lastRunId.value in runs ==> runs[t.lastRunId.value].run.taskId == id)
    && (t.stage in {Stage.AwaitingAcceptance, Stage.Done} ==>
          && t.submitted.Some? && t.Agreed().Some? && t.lastRunId.Some?
          && t.lastRunId.value in runs && runs[t.lastRunId.value].run.state.Completed?
          && T.Verified(C.Direct, t.info.risk, runs[t.lastRunId.value].run.executions)
          && exists b, c, d :: VerifiedUnder(writable, log, id, t.Agreed().value, t.submitted.value, t.lastRunId.value,
                                             b, c, d))
  }

  ghost predicate AcceptanceStands(writable: (Policy, string) -> bool, t: Task, id: string, log: seq<Entry>) {
    t.stage == Stage.Done ==>
      && t.submitted.Some? && t.Agreed().Some? && t.lastRunId.Some? && t.decision.Some?
      && (t.requiresDocuments ==> t.alignment.Some?)
      && exists b, c, d, e :: AcceptedUnder(writable, log, id, t.Agreed().value, t.submitted.value, t.lastRunId.value,
                                            t.decision.value, b, c, d, e)
  }

  ghost predicate TaskInv(writable: (Policy, string) -> bool, t: Task, id: string, log: seq<Entry>,
                          runs: map<string, RunEntry>) {
    && t.info.taskId == id
    && AgreementsInOrder(t, id, log)
    && (t.stage != Checking ==> t.info.lifecycle == LifecycleOf(t.stage))
    && RecordsAreCurrent(t)
    && RiskIsApproved(t, id, log)
    && SubmissionStands(writable, t, id, log)
    && VerificationStands(writable, t, id, log, runs)
    && AcceptanceStands(writable, t, id, log)
  }

  const HOLDING: set<Stage> := {Implementing, Submitted, Checking, Stage.AwaitingAcceptance}

  /** At most one task of a project holds its source. */
  ghost predicate Exclusive(w: World) {
    forall x <- w.tasks, y <- w.tasks ::
      (w.tasks[x].stage in HOLDING && w.tasks[y].stage in HOLDING
       && w.tasks[x].info.workspaceId == w.tasks[y].info.workspaceId)
      ==> x == y
  }

  ghost predicate Inv(writable: (Policy, string) -> bool, w: World) {
    && (forall id <- w.tasks :: TaskInv(writable, w.tasks[id], id, w.log, w.runs))
    && Exclusive(w)
  }

  // ---- Framing ----

  /** Only this task, its runs and its log entries were written. */
  ghost predicate Touches(w: World, v: World, id: string, more: seq<Entry>) {
    && id in v.tasks && v.tasks == w.tasks[id := v.tasks[id]] && v.log == w.log + more && Concerns(more, id)
    && (forall r <- w.runs :: w.runs[r].run.taskId != id ==> r in v.runs && v.runs[r] == w.runs[r])
    && (forall r <- v.runs :: r !in w.runs ==> v.runs[r].run.taskId == id && FreshRunId(w, r))
  }

  lemma {:induction false} OtherTaskKept(writable: (Policy, string) -> bool, w: World, v: World, id: string,
                                         other: string, more: seq<Entry>)
    requires Touches(w, v, id, more) && other in w.tasks && other != id
    requires TaskInv(writable, w.tasks[other], other, w.log, w.runs)
    ensures TaskInv(writable, w.tasks[other], other, v.log, v.runs)
  {
    hide SubmittedUnder, VerifiedUnder, AcceptedUnder, ApprovedUnder, LastAgreed, ChecksMap, AlignsAll, EvidenceGiven;
    hide T.Verified;
    assert NoAgreement(more, other);
    AgreementUnchanged(w.log, more, other);
    EvidenceUnchanged(writable, w.log, more, other);
  }

  /** A task may come to hold the source only when it held it already or nobody else does. */
  ghost predicate MayHold(w: World, v: World, id: string) {
    id in v.tasks
    && (v.tasks[id].stage in HOLDING ==> id in w.tasks && (w.tasks[id].stage in HOLDING || !OtherWriter(w, id)))
  }

  lemma {:induction false} ExclusiveKept(w: World, v: World, id: string)
    requires Exclusive(w) && id in v.tasks && v.tasks == w.tasks[id := v.tasks[id]] && MayHold(w, v, id)
    requires id in w.tasks ==> v.tasks[id].info.workspaceId == w.tasks[id].info.workspaceId
    ensures Exclusive(v)
  {
    if id in w.tasks {
      forall z <- w.tasks | z != id && w.tasks[z].stage in HOLDING
          && w.tasks[z].info.workspaceId == w.tasks[id].info.workspaceId
        ensures OtherWriter(w, id) {
        assert w.tasks[z].stage in OWNING;
      }
    }
  }

  lemma {:induction false} CommandKeeps(writable: (Policy, string) -> bool, w: World, v: World, id: string,
                                        more: seq<Entry>)
    requires Inv(writable, w) && Touches(w, v, id, more) && MayHold(w, v, id)
    requires id in w.tasks ==> v.tasks[id].info.workspaceId == w.tasks[id].info.workspaceId
    requires TaskInv(writable, v.tasks[id], id, v.log, v.runs)
    ensures Inv(writable, v)
  {
    hide TaskInv;
    ExclusiveKept(w, v, id);
    forall other <- v.tasks ensures TaskInv(writable, v.tasks[other], other, v.log, v.runs) {
      if other != id { OtherTaskKept(writable, w, v, id, other, more); }
    }
  }
}
