/** How a discussed task comes to its end, over every interleaving of requests and worker. */
module QueueHistory {
  import opened Contracts
  import opened Queue
  import opened QueueCauses

  /** Moves that write no task, moves that write one, and taking an item. */
  predicate WritesTask(m: Move) {
    m.WriteTask? || m.WriteTaskBack? || m.Commit? || m.Reactivate? || m.Reply?
  }

  lemma {:induction false} OthersLeaveTasks(s: State, m: Move)
    requires !WritesTask(m) && !m.Take?
    ensures Work(s, m).tasks == s.tasks
  {
    hide MayStart, Current;
  }

  /** The worker makes no task Done, takes no delivery back to its discussion, and adds none. */
  ghost predicate JudgesNothing(s: State, v: State) {
    && v.tasks.Keys == s.tasks.Keys
    && forall t <- s.tasks ::
         && (v.tasks[t].lifecycle.Done? ==> s.tasks[t].lifecycle.Done?)
         && (v.tasks[t].lifecycle.Discussing? ==> s.tasks[t].lifecycle.Discussing?)
  }

  lemma {:induction false} TakingJudgesNothing(s: State)
    ensures JudgesNothing(s, Work(s, Take))
  {
  }

  lemma {:induction false} WritingJudgesNothing(s: State, m: Move)
    requires WritesTask(m)
    ensures JudgesNothing(s, Work(s, m))
  {
    hide MayCommit, Current;
  }

  lemma {:induction false} WorkJudgesNothing(s: State, m: Move)
    ensures JudgesNothing(s, Work(s, m))
  {
    hide Work;
    if m.Take? {
      TakingJudgesNothing(s);
    } else if WritesTask(m) {
      WritingJudgesNothing(s, m);
    } else {
      OthersLeaveTasks(s, m);
    }
  }

  /** A step makes a task Done exactly when the owner accepts its delivery, and takes the delivery back to its
      discussion exactly when the owner rejects it. */
  lemma {:induction false} JudgementIsExact(s: State, step: Step, t: string)
    requires t in s.tasks && !s.tasks[t].lifecycle.Done?
    ensures t in Do(s, step).tasks
    ensures Do(s, step).tasks[t].lifecycle.Done?
            <==> step == Requested(OwnerAcceptance(t, true, true)) && Judgeable(s, t)
    ensures s.tasks[t].lifecycle.AwaitingAcceptance? && s.tasks[t].talk.Some? ==>
              (Do(s, step).tasks[t].lifecycle.Discussing? <==> step == Requested(OwnerAcceptance(t, false, true)))
    ensures step == Requested(OwnerAcceptance(t, false, true)) && Judgeable(s, t) ==>
              Do(s, step).tasks[t] == s.tasks[t].(lifecycle := TaskLifecycle.Discussing, talk := Some(NeedsTalk))
  {
    hide Handle, Work, MayCancel, Occupied;
    match step {
      case Requested(r) => RequestsChangeTasks(s, r);
      case Worked(m) => WorkJudgesNothing(s, m);
      case StopLost(id, m) => WorkJudgesNothing(s, m);
      case Restarted =>
    }
  }

  lemma {:induction false} NewIsNotDone(s: State, step: Step, t: string)
    requires t !in s.tasks && t in Do(s, step).tasks
    ensures !Do(s, step).tasks[t].lifecycle.Done?
  {
    hide Handle, Work, MayCancel, Occupied, TaskChanged;
    match step {
      case Requested(r) => RequestsChangeTasks(s, r);
      case Worked(m) => WorkJudgesNothing(s, m);
      case StopLost(id, m) => WorkJudgesNothing(s, m);
      case Restarted =>
    }
  }

  /** Whatever happened in whatever order, a task is Done only because its owner once accepted a delivery of it. */
  lemma {:induction false} DoneWasAccepted(steps: seq<Step>, t: string)
    requires t in Play(START, steps).tasks && Play(START, steps).tasks[t].lifecycle.Done?
    ensures exists i :: 0 <= i < |steps| && steps[i] == Requested(OwnerAcceptance(t, true, true))
                        && Judgeable(Play(START, steps[..i]), t)
    decreases |steps|
  {
    hide Do;
    var n := |steps| - 1;
    var before := Play(START, steps[..n]);
    if t !in before.tasks {
      NewIsNotDone(before, steps[n], t);
    } else if before.tasks[t].lifecycle.Done? {
      DoneWasAccepted(steps[..n], t);
      var i :| 0 <= i < n && steps[..n][i] == Requested(OwnerAcceptance(t, true, true))
               && Judgeable(Play(START, steps[..n][..i]), t);
      assert steps[..n][..i] == steps[..i];
    } else {
      JudgementIsExact(before, steps[n], t);
    }
  }

  // ---- Decisions and replies ----

  /** A decision the worker settles lets the run go on exactly when it approves, and fails it otherwise, unless the run
      was stored anew in the meantime. */
  lemma {:induction false} SettleIsExact(s: State, id: string, run: Run, approve: bool)
    requires s.worker == Settling(id, run, approve)
    ensures var v := Work(s, Settle);
            if id in s.runs && s.runs[id].version == run.version then
              && id in v.runs && v.runs == s.runs[id := v.runs[id]] && v.worker == Driving(id, v.runs[id], true)
              && v.runs[id].task == run.task && v.runs[id].version == run.version + 1
              && (v.runs[id].state == RunState.Running <==> approve)
              && (v.runs[id].state == RunState.Failed <==> !approve)
              && v == s.(runs := v.runs, worker := v.worker)
            else v == s
  {
  }

  /** A discussion that ends is open for the next message: idle when it went well, and stopped otherwise. */
  lemma {:induction false} ReplyIsExact(s: State, t: string, ok: bool)
    requires s.worker == Talking(t) && t in s.tasks
    ensures var v := Work(s, Reply(ok));
            && t in v.tasks && v == s.(tasks := s.tasks[t := v.tasks[t]], worker := Leaving(t))
            && v.tasks[t] == s.tasks[t].(talk := v.tasks[t].talk)
            && (v.tasks[t].talk == Some(Idle) <==> ok) && (v.tasks[t].talk == Some(Stopped) <==> !ok)
  {
  }
}
