/** What each move of the worker stores, and when it stores nothing. */
module QueueWork {
  import opened Contracts
  import opened Queue
  import E = RunEngine

  /** Stored at the version that was read. */
  predicate Unchanged(s: State, id: string, run: Run) { id in s.runs && s.runs[id].version == run.version }

  /** The run under its next version, in this state. */
  function Again(run: Run, state: RunState): Run { Run(run.task, state, run.version + 1) }

  // ---- Taking an item ----

  /** The head of the queue leaves it.  A start or resume goes to work if its ticket is still queued, a decision if its
      run still waits, a discussion if it is still asked for; what no longer stands is dropped, and a decision that no
      longer stands is no longer on its way. */
  lemma {:induction false} TakeIsExact(s: State)
    requires s.worker == Free
    ensures s.queue == [] ==> Work(s, Take) == s
    ensures s.queue != [] ==> Work(s, Take) == Taken(s.(queue := s.queue[1..]), s.queue[0])
  {
  }

  function Taken(s: State, item: Item): State {
    if item.Execute? && item.id in s.tickets && s.tickets[item.id].state == Queued then
      s.(tickets := s.tickets[item.id := Ticket(s.tickets[item.id].task, Processing)],
         executing := s.executing + {item.id}, worker := Preparing(item.id, item.resume),
         taken := s.taken + multiset{OfRun(item.id)})
    else if item.Discuss? && item.task in s.tasks && s.tasks[item.task].talk == Some(Asked) then
      s.(tasks := s.tasks[item.task := s.tasks[item.task].(talk := Some(Replying))],
         executing := s.executing + {item.task}, worker := Talking(item.task),
         taken := s.taken + multiset{OfTalk(item.task)})
    else if item.Decide? && item.id in s.runs && s.runs[item.id].state == RunState.Waiting && item.id in s.waiting then
      s.(worker := Settling(item.id, s.runs[item.id], item.approve))
    else if item.Decide? then s.(pending := s.pending - {item.id})
    else s
  }

  // ---- Starting and resuming ----

  /** A start reads a task that is not over and has no active run; it adds a created run where there is none, and makes
      the task it read active. */
  lemma {:induction false} StartIsExact(s: State, id: string, seen: TaskRec)
    ensures s.worker == Preparing(id, false) ==>
              Work(s, ReadTask)
              == if id in s.tickets && s.tickets[id].task in s.tasks
                    && s.tasks[s.tickets[id].task].lifecycle !in {TaskLifecycle.Delivered, TaskLifecycle.Cancelled,
                                                                  TaskLifecycle.Done}
                    && (forall r <- s.runs :: s.runs[r].task == s.tickets[id].task ==>
                          s.runs[r].state !in {RunState.Created, RunState.Running, RunState.Waiting})
                 then s.(worker := Starting(id, s.tasks[s.tickets[id].task])) else s
    ensures s.worker == Starting(id, seen) ==>
              Work(s, AddRun)
              == if id in s.tickets && id !in s.runs
                 then s.(runs := s.runs[id := Run(s.tickets[id].task, RunState.Created, 0)], worker := Added(id, seen))
                 else s
    ensures s.worker == Added(id, seen) ==>
              Work(s, WriteTask)
              == if id in s.runs && s.runs[id].task in s.tasks
                 then s.(tasks := s.tasks[s.runs[id].task := TaskRec(seen.project, TaskLifecycle.Active, seen.talk)],
                         worker := Driving(id, s.runs[id], false)) else s
  {
  }

  /** A resume reads a run that stands still, and stores it as running unless it was stored anew in the meantime. */
  lemma {:induction false} ResumeIsExact(s: State, id: string, run: Run)
    ensures s.worker == Preparing(id, true) ==>
              Work(s, ReadRun)
              == if id in s.runs && s.runs[id].state in {RunState.Paused, RunState.Blocked}
                 then s.(worker := Resuming(id, s.runs[id])) else s
    ensures s.worker == Resuming(id, run) ==>
              Work(s, CommitResume)
              == if Unchanged(s, id, run)
                 then s.(runs := s.runs[id := Again(run, RunState.Running)],
                         worker := Driving(id, Again(run, RunState.Running), false)) else s
  {
  }

  // ---- Driving ----

  /** What the coordinator's handlers around a backend call can make of a run. */
  ghost predicate DriveEnds(from: RunState, to: RunState) {
    exists s: E.Session, e: E.Ended :: DriveEndsBy(s, e, from, to)
  }

  ghost predicate DriveEndsBy(s: E.Session, e: E.Ended, from: RunState, to: RunState) {
    s.run.state == from && E.Finish(s, e) != s && E.Finish(s, e).run.state == to
  }

  /** The state changes the worker may store are those of the coordinator: the start of a created run, whatever a
      dispatch makes of a running one, what the handlers around the backend call make of any, and blocking a rejected
      one. */
  lemma {:induction false} CommitsAreTheEngines(from: RunState, to: RunState, decision: bool)
    ensures MayCommit(from, to, decision)
            <==> (from == RunState.Created && to == RunState.Running)
                 || (from == RunState.Running && to != RunState.Created)
                 || (from == RunState.Failed && to == RunState.Blocked && decision) || DriveEnds(from, to)
  {
    if to == RunState.Failed || to == RunState.Paused || to == RunState.Cancelled {
      var s, e := Ending(from, to);
    }
  }

  /** A session in this state, and an end of its drive that leads to that one, where there is one. */
  lemma {:induction false} Ending(from: RunState, to: RunState) returns (s: E.Session, e: E.Ended)
    requires to == RunState.Failed || to == RunState.Paused || to == RunState.Cancelled
    ensures to == RunState.Failed || from !in {RunState.Completed, RunState.Cancelled, RunState.Paused}
            ==> DriveEndsBy(s, e, from, to)
  {
    var run := WorkflowRun("", "", "", 1, "", from, None, 0, 0, [], None, None);
    s := E.Session(run, EngineeringTask("", "", Fast, Active, false));
    e := if to == RunState.Failed then E.Ended(E.ErrorFault, false, false)
         else E.Ended(E.CancelFault, false, to == RunState.Paused);
    if to == RunState.Failed || from !in {RunState.Completed, RunState.Cancelled, RunState.Paused} {
      assert E.Finish(s, e).run.version == 1;
    }
  }

  /** A dispatch of a running run stores no state but those. */
  lemma {:induction false} DispatchesStayInside(def: WorkflowDefinition, backendId: string, s: E.Session, a: E.Attempt)
    requires s.run.state == RunState.Running
    ensures MayCommit(RunState.Running, E.Dispatch(def, backendId, s, a).session.run.state, false)
  {
    hide E.Settle;
  }

  /** Storing a state needs the run as it was read; a completed run hands its task to the owner, or delivers it when it
      was never discussed.  Reading again takes what is stored; and a delivery is taken back after an error. */
  lemma {:induction false} DriveIsExact(s: State, id: string, run: Run, decision: bool, state: RunState)
    requires s.worker == Driving(id, run, decision)
    ensures Work(s, Commit(state))
            == if Unchanged(s, id, run) && MayCommit(run.state, state, decision) then
                 var next := Again(run, state);
                 var u := s.(runs := s.runs[id := next], worker := Driving(id, next, decision));
                 if state == RunState.Completed && run.task in s.tasks
                 then u.(tasks := HandedOver(s.tasks, run.task)) else u
               else s
    ensures Work(s, Refresh)
            == if id in s.runs then s.(worker := Driving(id, s.runs[id], decision)) else s
    ensures Work(s, Reactivate)
            == if run.task in s.tasks && s.tasks[run.task].lifecycle == TaskLifecycle.Delivered
               then s.(tasks := s.tasks[run.task := s.tasks[run.task].(lifecycle := TaskLifecycle.Active)]) else s
  {
    hide MayCommit;
  }

  function HandedOver(tasks: map<string, TaskRec>, t: string): map<string, TaskRec>
    requires t in tasks
  {
    tasks[t := TaskRec(tasks[t].project, if tasks[t].talk == None then TaskLifecycle.Delivered
                                         else TaskLifecycle.AwaitingAcceptance, tasks[t].talk)]
  }

  /** When the run was driven to where it stands, a settled decision is no longer on its way and its run no longer
      waited for; otherwise the ticket is closed, dropped only if the run was cancelled, and a waiting run is waited
      for. */
  lemma {:induction false} ReturnIsExact(s: State, id: string, run: Run, decision: bool)
    requires s.worker == Driving(id, run, decision)
    ensures Work(s, Return)
            == if decision then s.(waiting := s.waiting - {id}, pending := s.pending - {id}, worker := Free)
               else if id in s.tickets && run.state != RunState.Created && run.state != RunState.Running then
                 s.(tickets := s.tickets[id := Ticket(s.tickets[id].task,
                                                      if run.state == RunState.Cancelled then Dropped else Finished)],
                    waiting := s.waiting + (if run.state == RunState.Waiting then {id} else {}), worker := Leaving(id))
               else s
  {
  }

  // ---- Failing ----

  predicate Executing(w: Worker, id: string) {
    || w == Preparing(id, true) || w == Preparing(id, false) || (w.Starting? && w.id == id) || (w.Added? && w.id == id)
    || (w.Resuming? && w.id == id) || (w.Driving? && w.id == id && !w.decision)
  }

  predicate Stops(state: RunState) {
    state == RunState.Paused || state == RunState.Cancelled || state == RunState.Blocked
  }

  /** Something threw: a decision is no longer on its way and the worker is free; an execution goes on to its failure
      handler with the run as it is stored, if it is. */
  lemma {:induction false} ThrowIsExact(s: State, id: string)
    ensures Executing(s.worker, id) ==>
              Work(s, Throw) == s.(worker := Failing(id, if id in s.runs then Some(s.runs[id]) else None))
    ensures (s.worker.Settling? && s.worker.id == id)
            || (s.worker.Driving? && s.worker.id == id && s.worker.decision) ==>
              Work(s, Throw) == s.(worker := Free, pending := s.pending - {id})
    ensures !s.worker.Settling? && !s.worker.Driving? && (forall x :: !Executing(s.worker, x)) ==> Work(s, Throw) == s
  {
    match s.worker {
      case Preparing(x, _) => assert Executing(s.worker, x);
      case Starting(x, _) => assert Executing(s.worker, x);
      case Added(x, _) => assert Executing(s.worker, x);
      case Resuming(x, _) => assert Executing(s.worker, x);
      case _ =>
    }
  }

  /** The failure handler closes the ticket, and where there was no run reads the task again. */
  lemma {:induction false} ClosingIsExact(s: State, id: string, found: Option<Run>, dropped: bool)
    ensures s.worker == Failing(id, found) ==>
              Work(s, SaveFailure(dropped))
              == if id in s.tickets
                 then s.(tickets := s.tickets[id := Ticket(s.tickets[id].task, if dropped then Dropped else Finished)],
                         worker := Reporting(id, found)) else s
    ensures s.worker == Reporting(id, found) ==>
              Work(s, ReadTaskAgain)
              == if found == None && id in s.tickets && s.tickets[id].task in s.tasks
                 then s.(worker := Replacing(id, s.tasks[s.tickets[id].task])) else s
  {
  }

  /** ... then it adds a stopped run, unless there is one by now, and writes the task it read back as active. */
  lemma {:induction false} ReplacingIsExact(s: State, id: string, seen: TaskRec, added: Run, state: RunState)
    ensures s.worker == Replacing(id, seen) ==>
              Work(s, AddReplacement(state))
              == if id !in s.tickets || !Stops(state) then s
                 else if id in s.runs then s.(worker := Leaving(id))
                 else
                   var r := Run(s.tickets[id].task, state, 0);
                   s.(runs := s.runs[id := r], worker := Restoring(id, seen, r))
    ensures s.worker == Restoring(id, seen, added) ==>
              Work(s, WriteTaskBack)
              == if added.task in s.tasks
                 then s.(tasks := s.tasks[added.task := TaskRec(seen.project, TaskLifecycle.Active, seen.talk)],
                         worker := Reporting(id, Some(added))) else s
  {
  }

  /** At last it stores the stop of the run it knows, unless that is completed or was stored anew in the meantime. */
  lemma {:induction false} StoringIsExact(s: State, id: string, found: Option<Run>, state: RunState)
    requires s.worker == Reporting(id, found)
    ensures Work(s, StoreFailure(state))
            == if found == None || !Stops(state) then s
               else if found.value.state != RunState.Completed && Unchanged(s, id, found.value)
               then s.(runs := s.runs[id := Again(found.value, state)], worker := Leaving(id))
               else s.(worker := Leaving(id))
  {
  }

  /** Leaving frees the worker and ends the execution. */
  lemma {:induction false} LeaveIsExact(s: State, id: string)
    requires s.worker == Leaving(id)
    ensures Work(s, Leave) == s.(executing := s.executing - {id}, worker := Free)
  {
  }

  // ---- Restarting and losing a stop ----

  /** A restart forgets the queue and the worker, stops discussions that were busy, loses tickets that were, and blocks
      runs that were active or paused. */
  lemma {:induction false} RestartIsExact(s: State)
    ensures var v := Restart(s);
            && v.queue == [] && v.worker == Free && v.executing == {} == v.waiting == v.pending
            && v.asked == s.asked && v.taken == s.taken
            && v.tasks.Keys == s.tasks.Keys && v.tickets.Keys == s.tickets.Keys && v.runs.Keys == s.runs.Keys
            && (forall t <- s.tasks ::
                  v.tasks[t] == if s.tasks[t].talk == Some(Asked) || s.tasks[t].talk == Some(Replying)
                                then TaskRec(s.tasks[t].project, s.tasks[t].lifecycle, Some(Stopped)) else s.tasks[t])
            && (forall id <- s.tickets ::
                  v.tickets[id] == if s.tickets[id].state == Queued || s.tickets[id].state == Processing
                                   then Ticket(s.tickets[id].task, Lost) else s.tickets[id])
            && (forall id <- s.runs ::
                  v.runs[id] == if s.runs[id].state in {RunState.Created, RunState.Running, RunState.Waiting,
                                                        RunState.Paused}
                                then Again(s.runs[id], RunState.Blocked) else s.runs[id])
  {
  }
}
