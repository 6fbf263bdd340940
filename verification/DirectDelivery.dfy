/** The delivery of a verification run, and what the log says of it. */
module DirectDelivery {
  import opened Contracts
  import opened Direct
  import opened DirectTheorems
  import opened DirectSteps
  import opened DirectVerify
  import opened DirectVerdict
  import C = Catalog
  import D = Dispatching
  import E = RunEngine
  import H = Honesty

  // ---- What the handlers of a verification record ----

  ghost function LastResult(s: E.Session, t: E.Session): NodeResult
    requires |t.run.executions| == |s.run.executions| + 1
  {
    t.run.executions[|s.run.executions|].result
  }

  /** A delivery succeeds exactly when the source is still the one verification started with, the task's documents hold
      and its handler says so in time; on any other source it fails as such. */
  ghost predicate RecordedHere(start: Snapshot, d: Dispatch, node: NodeDefinition, r: NodeResult) {
    if d.attempt.node == DELIVER then
      && (r.outcome.Succeeded? <==>
            d.seen == start && d.documentsOk && D.Answered(node, d.attempt)
            && d.attempt.reply.result.outcome.Succeeded?)
      && (d.attempt.reply.Returned? && !d.attempt.cancelled && !d.attempt.expired && d.seen != start ==>
            r == Fail("SOURCE_CHANGED", NotStarted))
    else if d.attempt.node == PRIMARY_REWORK then
      d.attempt.reply.Returned? && !d.attempt.cancelled && !d.attempt.expired ==>
        r == Fail("PRIMARY_REWORK_REQUIRED", NotStarted)
    else
      D.RecordedAs(node, d.attempt, r)
  }

  lemma {:induction false} VerifierRecords(risk: Risk, backendId: string, s: E.Session, start: Snapshot, d: Dispatch)
    requires D.Called(C.CreateDirect(risk), backendId, s, HandledOne(start, d))
    ensures var def := C.CreateDirect(risk);
            var t := E.Dispatch(def, backendId, s, HandledOne(start, d)).session;
            && |t.run.executions| == |s.run.executions| + 1
            && RecordedHere(start, d, def.Node(d.attempt.node).value, LastResult(s, t))
  {
    hide C.CreateDirect, E.Dispatch, D.RecordedAs, D.FailedWith;
    var def, a := C.CreateDirect(risk), HandledOne(start, d);
    D.DispatchRecords(def, backendId, s, a);
    var node := def.Node(a.node).value;
    assert node in def.nodes;
    assert C.Definition(C.Direct, risk) == def;
    C.NodesAreGuarded(C.Direct, risk, node);
    RecordsAs(start, d, node, LastResult(s, E.Dispatch(def, backendId, s, a).session));
  }

  lemma {:induction false} RecordsAs(start: Snapshot, d: Dispatch, node: NodeDefinition, r: NodeResult)
    requires D.RecordedAs(node, HandledOne(start, d), r) && node.resultContract == "node-result/v1"
    ensures RecordedHere(start, d, node, r)
  {
  }

  // ---- What the log says ----

  /** Which executions were successful deliveries. */
  ghost function Successes(executions: seq<NodeExecution>): set<int> {
    set k | 0 <= k < |executions| && executions[k].nodeId == DELIVER && executions[k].result.outcome.Succeeded?
  }

  lemma {:induction false} OneMoreSuccess(before: seq<NodeExecution>, after: seq<NodeExecution>)
    requires |after| == |before| + 1 && after[..|before|] == before
    ensures var x := after[|before|];
            |Successes(after)| == |Successes(before)|
                                  + if x.nodeId == DELIVER && x.result.outcome.Succeeded? then 1 else 0
  {
    var x, n := after[|before|], |before|;
    assert forall k :: 0 <= k < n ==> after[k] == before[k];
    assert n !in Successes(before);
    assert Successes(after)
        == Successes(before) + if x.nodeId == DELIVER && x.result.outcome.Succeeded? then {n} else {};
  }

  /** A dispatch is noted exactly when it delivered, and then with the source verification started with. */
  lemma {:induction false} NotedWhenDelivered(risk: Risk, backendId: string, s: E.Session, start: Snapshot,
                                              d: Dispatch)
    ensures var t := E.Dispatch(C.CreateDirect(risk), backendId, s, HandledOne(start, d)).session;
            && |Successes(t.run.executions)|
               == |Successes(s.run.executions)| + (if DeliveredBetween(s, t) then 1 else 0)
            && (DeliveredBetween(s, t) ==> d.seen == start)
  {
    hide C.CreateDirect, E.Dispatch, Successes;
    var def, a := C.CreateDirect(risk), HandledOne(start, d);
    var t := E.Dispatch(def, backendId, s, a).session;
    if D.Called(def, backendId, s, a) {
      D.DispatchRecords(def, backendId, s, a);
      VerifierRecords(risk, backendId, s, start, d);
      OneMoreSuccess(s.run.executions, t.run.executions);
    } else {
      D.UncalledChangesNothing(def, backendId, s, a);
    }
  }

  /** A drive is noted once for every delivery it added. */
  lemma {:induction false} DriveIsNoted(risk: Risk, backendId: string, s: E.Session, id: string, runId: string,
                                        start: Snapshot, ds: seq<Dispatch>)
    ensures var def := C.CreateDirect(risk);
            var log := Deliveries(def, backendId, s, id, runId, start, ds);
            && |Successes(E.Attempts(def, backendId, s, Handled(start, ds)).run.executions)|
               == |Successes(s.run.executions)| + |log|
            && forall e <- log :: e == DeliveredAt(id, runId, start)
    decreases |ds|
  {
    hide C.CreateDirect, E.Dispatch, Successes, HandledOne, DeliveredBetween;
    if ds != [] {
      var def, a := C.CreateDirect(risk), HandledOne(start, ds[0]);
      var t := E.Dispatch(def, backendId, s, a).session;
      assert Handled(start, ds)[0] == a && Handled(start, ds)[1..] == Handled(start, ds[1..]);
      NotedWhenDelivered(risk, backendId, s, start, ds[0]);
      DriveIsNoted(risk, backendId, t, id, runId, start, ds[1..]);
    }
  }

  /** How the backend call ended delivers nothing. */
  lemma {:induction false} FinishDeliversNothing(s: E.Session, e: E.Ended)
    ensures Successes(E.Finish(s, e).run.executions) == Successes(s.run.executions)
  {
    var t := E.Finish(s, e);
    assert t.run.executions == s.run.executions
           || (t.run.executions[..|s.run.executions|] == s.run.executions
               && |t.run.executions| == |s.run.executions| + 1
               && !t.run.executions[|s.run.executions|].result.outcome.Succeeded?);
  }

  /** The whole verification is noted once for every delivery its run holds. */
  lemma {:induction false} VerificationIsNoted(backendId: string, w: World, id: string, v: Verification,
                                               start: Snapshot)
    requires id in w.tasks && v.end != Crashed(BeforeRun)
    ensures var log := VerifyDeliveries(backendId, w, id, v, start);
            && |Successes(VerifyRun(backendId, w, id, v, start).run.executions)| == |log|
            && forall e <- log :: e == DeliveredAt(id, v.runId, start)
  {
    hide C.CreateDirect, E.Finish, E.Attempts, Handled, Deliveries;
    var running := RunningSession(backendId, w, id, v);
    DriveIsNoted(w.tasks[id].info.risk, backendId, running, id, v.runId, start, v.dispatches);
    var after := E.Attempts(Def(w.tasks[id]), backendId, running, Handled(start, v.dispatches));
    match v.end {
      case Ended(ended, _, _) => FinishDeliversNothing(after, ended);
      case Crashed(AfterDriving(ended)) => FinishDeliversNothing(after, ended);
      case _ =>
    }
  }

  /** Unless it gets no run, a verification adds the deliveries of its run to the log. */
  lemma {:induction false} RunIsNoted(backendId: string, w: World, id: string, v: Verification, view: Reads)
    requires id in w.tasks && w.tasks[id].info.workspaceId in w.projects && view.snapshot.Some?
    ensures var u, checking := Verify(backendId, w, id, v, view), VerifyStart(w, id, v, view);
            if v.end == Crashed(BeforeRun) || RunRefused(checking, id) then
              u.log == checking.log && u.runs == w.runs
            else
              && u.log == checking.log + VerifyDeliveries(backendId, checking, id, v, view.snapshot.value)
              && v.runId in u.runs
              && u.runs[v.runId].run.executions
                 == VerifyRun(backendId, checking, id, v, view.snapshot.value).run.executions
  {
    hide VerifyRun, VerifyDeliveries, Conclude, RunRefused;
    var start, checking := view.snapshot.value, VerifyStart(w, id, v, view);
    if v.end != Crashed(BeforeRun) && !RunRefused(checking, id) && v.end.Ended? {
      var s, t := VerifyRun(backendId, checking, id, v, start), checking.tasks[id];
      var ran := Note(checking.(runs := checking.runs[v.runId := RunEntry(s.run, t.info.workspaceId)],
                                tasks := checking.tasks[id := t.(info := s.task)]),
                      VerifyDeliveries(backendId, checking, id, v, start));
      ConcludeNotesNothing(ran, id, s.run, v);
    }
  }

  /** A verification notes the source it starts from, and then that same source once for every successful delivery of
      the run it stores, and nothing else. */
  lemma {:induction false} VerifyNotesExactly(writable: (Policy, string) -> bool, backendId: string, w: World,
                                              id: string, revision: int, v: Verification, view: Reads)
    requires MayVerify(writable, w, id, revision, v, view)
    ensures var u, n := Step(writable, backendId, w, VerifyTask(id, revision, v, view)), |w.log|;
            && |u.log| == n + 1 + (if v.runId in u.runs then |Successes(u.runs[v.runId].run.executions)| else 0)
            && u.log[..n] == w.log
            && u.log[n] == VerifiedFrom(id, v.runId, view.snapshot.value, w.projects[w.tasks[id].info.workspaceId])
            && forall i :: n < i < |u.log| ==> u.log[i] == DeliveredAt(id, v.runId, view.snapshot.value)
  {
    hide VerifyRun, VerifyDeliveries, MayVerify, Verify, RunRefused, Successes;
    MayVerifyFacts(writable, w, id, revision, v, view);
    FreshHere(writable, w, id, revision, v, view);
    var start, checking := view.snapshot.value, VerifyStart(w, id, v, view);
    RunIsNoted(backendId, w, id, v, view);
    if v.end != Crashed(BeforeRun) && !RunRefused(checking, id) {
      VerificationIsNoted(backendId, checking, id, v, start);
      var log := VerifyDeliveries(backendId, checking, id, v, start);
      assert forall i :: 0 <= i < |log| ==> log[i] in log;
    }
  }

  lemma {:induction false} FreshHere(writable: (Policy, string) -> bool, w: World, id: string, revision: int,
                                     v: Verification, view: Reads)
    requires MayVerify(writable, w, id, revision, v, view)
    ensures v.runId !in w.runs
  {
  }

  lemma {:induction false} ConcludeNotesNothing(w: World, id: string, run: WorkflowRun, v: Verification)
    requires id in w.tasks && v.end.Ended? && v.runId in w.runs
    ensures var u := Conclude(w, id, run, v);
            && u.log == w.log && v.runId in u.runs
            && u.runs[v.runId].run.executions == w.runs[v.runId].run.executions
  {
  }
}
