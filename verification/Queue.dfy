/**
 * The lock-protected sections of the workbench and the single worker of its queue, as steps on values.
 * A step is one section or one unlocked access to the stores; between any two of them any other may happen.
 */
module Queue {
  import opened Contracts

  /** A discussion: idle, queued, running, blocked, or waiting for a new message. */
  datatype Talk = Idle | Asked | Replying | Stopped | NeedsTalk
  datatype TaskRec = TaskRec(project: string, lifecycle: TaskLifecycle, talk: Option<Talk>)
  datatype TicketState = Queued | Processing | Finished | Dropped | Lost
  datatype Ticket = Ticket(task: string, state: TicketState)
  datatype Run = Run(task: string, state: RunState, version: nat) {
    predicate Active() { state in {RunState.Created, RunState.Running, RunState.Waiting} }
  }

  /** What can make a project busy: a run (its ticket or its record) or a discussion of a task. */
  datatype Marker = OfRun(id: string) | OfTalk(task: string)

  datatype Item = Execute(id: string, resume: bool) | Decide(id: string, approve: bool) | Discuss(task: string)

  /** Where the worker is, with the records it has read and not read again. */
  datatype Worker =
    | Free
    | Preparing(id: string, resume: bool)
    | Starting(id: string, seen: TaskRec)
    | Added(id: string, seen: TaskRec)
    | Resuming(id: string, run: Run)
    | Driving(id: string, run: Run, decision: bool)
    | Failing(id: string, found: Option<Run>)
    | Reporting(id: string, found: Option<Run>)
    | Replacing(id: string, seen: TaskRec)
    | Restoring(id: string, seen: TaskRec, run: Run)
    | Settling(id: string, run: Run, approve: bool)
    | Talking(task: string)
    | Leaving(id: string)

  datatype State = State(tasks: map<string, TaskRec>, tickets: map<string, Ticket>, runs: map<string, Run>,
                         executing: set<string>, waiting: set<string>, pending: set<string>, queue: seq<Item>,
                         worker: Worker, asked: multiset<Marker>, taken: multiset<Marker>)

  // ---- Busy projects ----

  predicate TicketOn(s: State, id: string) { id in s.tickets && s.tickets[id].state in {Queued, Processing} }
  predicate RunOn(s: State, id: string) { id in s.runs && s.runs[id].Active() }
  predicate TalkOn(s: State, t: string) { t in s.tasks && s.tasks[t].talk in {Some(Asked), Some(Replying)} }

  function ProjectOfTask(s: State, t: string): Option<string> {
    if t in s.tasks then Some(s.tasks[t].project) else None
  }

  predicate ProjectBusy(s: State, p: string) {
    || (exists t <- s.tasks :: s.tasks[t].project == p && TalkOn(s, t))
    || (exists id <- s.tickets :: ProjectOfTask(s, s.tickets[id].task) == Some(p) && TicketOn(s, id))
    || (exists id <- s.runs :: ProjectOfTask(s, s.runs[id].task) == Some(p) && RunOn(s, id))
  }

  // ---- Sections of the requests ----

  datatype Request =
    | CreateTask(task: string, rec: TaskRec)
    // ok: the project validates and a frozen agreement still holds
    | RequestRun(task: string, id: string, ok: bool)
    // ok: checkpoint, failure code, fingerprint and agreement allow it
    | RequestResume(id: string, ok: bool, rewind: bool)
    | RequestStop(id: string, cancel: bool)
    | RequestApproval(id: string, approve: bool, ok: bool)   // ok: the request id and version match the pending ones
    | RequestDiscussion(task: string, ok: bool)              // ok: the revision and the message are good
    | StopDiscussion(task: string)
    | FreezeReady(task: string, ok: bool)
    | ReturnToDiscussion(task: string, ok: bool)
    | OwnerAcceptance(task: string, accept: bool, ok: bool)

  predicate Ended(t: TaskRec) { t.lifecycle in {TaskLifecycle.Delivered, TaskLifecycle.Cancelled, TaskLifecycle.Done} }

  predicate MayRun(s: State, task: string, id: string, ok: bool) {
    && task in s.tasks && ok && !Ended(s.tasks[task]) && (s.tasks[task].talk.Some? ==> s.tasks[task].lifecycle.Ready?)
    && !ProjectBusy(s, s.tasks[task].project) && id !in s.tickets && id !in s.runs
  }

  predicate MayResume(s: State, id: string, ok: bool) {
    && ok && id in s.runs && id in s.tickets && s.tickets[id].task in s.tasks
    && var t := s.tasks[s.tickets[id].task];
    && (t.talk.Some? ==> t.lifecycle.Active?) && s.runs[id].state in {RunState.Paused, RunState.Blocked}
    && s.tickets[id].state !in {Queued, Processing} && !ProjectBusy(s, t.project) && !Ended(t)
  }

  /** Stopping what does not execute: a queued start, or a run that is paused, blocked or waiting. */
  predicate MayCancel(s: State, id: string) {
    && id in s.tickets && id !in s.pending
    && (if id in s.runs then s.runs[id].state in {RunState.Paused, RunState.Blocked, RunState.Waiting}
        else s.tickets[id].state == Queued)
    && !(id in s.executing && id !in s.runs)
  }

  predicate MayApprove(s: State, id: string, ok: bool) {
    ok && id in s.runs && s.runs[id].state.Waiting? && id in s.waiting && id !in s.pending
  }

  predicate Discussable(s: State, task: string, ok: bool) {
    ok && task in s.tasks && s.tasks[task].lifecycle.Discussing? && s.tasks[task].talk.Some? && !TalkOn(s, task)
  }

  function WithTalk(s: State, task: string, talk: Talk): State
    requires task in s.tasks
  {
    s.(tasks := s.tasks[task := s.tasks[task].(talk := Some(talk))])
  }

  function WithTicket(s: State, id: string, state: TicketState): State
    requires id in s.tickets
  {
    s.(tickets := s.tickets[id := s.tickets[id].(state := state)])
  }

  function WithRun(s: State, id: string, run: Run): State { s.(runs := s.runs[id := run]) }

  function Next(run: Run, state: RunState): Run { run.(state := state, version := run.version + 1) }

  function Ask(s: State, item: Item, m: Marker): State { s.(queue := s.queue + [item], asked := s.asked + multiset{m}) }

  function Handle(s: State, r: Request): State {
    match r
    case CreateTask(task, rec) =>
      var plain := rec.talk.None? && rec.lifecycle.Draft?;
      var discussed := rec.talk == Some(Idle) && rec.lifecycle.Discussing?;
      if task !in s.tasks && (plain || discussed) then s.(tasks := s.tasks[task := rec]) else s
    case RequestRun(task, id, ok) =>
      if MayRun(s, task, id, ok)
      then Ask(s.(tickets := s.tickets[id := Ticket(task, Queued)]), Execute(id, false), OfRun(id))
      else s
    case RequestResume(id, ok, rewind) =>
      if MayResume(s, id, ok) then
        var back := if rewind then WithRun(s, id, Next(s.runs[id], s.runs[id].state)) else s;
        Ask(WithTicket(back, id, Queued), Execute(id, true), OfRun(id))
      else s
    case RequestStop(id, cancel) =>
      if cancel && MayCancel(s, id) then
        var dropped := WithTicket(s, id, Dropped);
        if id in s.runs then WithRun(dropped, id, Next(s.runs[id], RunState.Cancelled)).(waiting := s.waiting - {id})
        else dropped
      else s
    case RequestApproval(id, approve, ok) =>
      if MayApprove(s, id, ok) then s.(pending := s.pending + {id}, queue := s.queue + [Decide(id, approve)]) else s
    case RequestDiscussion(task, ok) =>
      if Discussable(s, task, ok) && !ProjectBusy(s, s.tasks[task].project)
      then Ask(WithTalk(s, task, Asked), Discuss(task), OfTalk(task)) else s
    case StopDiscussion(task) =>
      if task in s.tasks && task !in s.executing && s.tasks[task].talk == Some(Asked) then WithTalk(s, task, Stopped)
      else s
    case FreezeReady(task, ok) =>
      if Discussable(s, task, ok) && s.tasks[task].talk == Some(Idle) && !ProjectBusy(s, s.tasks[task].project)
      then s.(tasks := s.tasks[task := s.tasks[task].(lifecycle := TaskLifecycle.Ready)]) else s
    case ReturnToDiscussion(task, ok) =>
      if task in s.tasks && ok && s.tasks[task].talk.Some?
         && s.tasks[task].lifecycle in {TaskLifecycle.Active, TaskLifecycle.Ready}
         && !ProjectBusy(s, s.tasks[task].project)
      then s.(tasks := s.tasks[task := s.tasks[task].(lifecycle := TaskLifecycle.Discussing, talk := Some(NeedsTalk))])
          else s
    case OwnerAcceptance(task, accept, ok) =>
      if task in s.tasks && ok && s.tasks[task].talk.Some? && s.tasks[task].lifecycle.AwaitingAcceptance? then
        var t := s.tasks[task];
        var next := if accept then t.(lifecycle := TaskLifecycle.Done)
                    else t.(lifecycle := TaskLifecycle.Discussing, talk := Some(NeedsTalk));
        s.(tasks := s.tasks[task := next])
      else s
  }

  // ---- Steps of the worker ----

  datatype Move =
    | Take                              // take the head of the queue, if its mark still stands
    | ReadTask                          // StartAsync reads the task
    | AddRun                            // ... stores the run
    | WriteTask                         // ... and writes the task it read
    | ReadRun                           // ResumeAsync reads the run
    | CommitResume                      // ... and stores it as running, if nothing changed it
    | Refresh                           // the coordinator reads the run again
    | Commit(state: RunState)           // ... and stores it in another state, if nothing changed it
    | Reactivate                        // ... or reopens a delivered task after an error
    | Settle                            // SubmitHumanAsync stores the decision
    | Return                            // the run was driven to where it stands
    | Throw                             // something threw: the handler reads the run
    | SaveFailure(dropped: bool)        // ... closes the ticket
    | ReadTaskAgain                     // ... and, when there is no run, reads the task
    | AddReplacement(state: RunState)   // ... stores a run for it
    | WriteTaskBack                     // ... writes the task it read
    | StoreFailure(state: RunState)     // ... and stores the failed run, if nothing changed it
    | Reply(ok: bool)                   // a discussion ends
    | Leave

  /** A coordinator never makes a run active again once it has read it as inactive. */
  predicate MayCommit(seen: RunState, next: RunState, decision: bool) {
    match next
    case Created => false
    case Running => seen in {RunState.Created, RunState.Running}
    case Waiting => seen.Running?
    case Completed => seen.Running?
    case Blocked => seen.Running? || (decision && seen.Failed?)
    case Failed => true
    case Paused => seen !in {RunState.Completed, RunState.Cancelled, RunState.Paused}
    case Cancelled => seen !in {RunState.Completed, RunState.Cancelled, RunState.Paused}
  }

  predicate MayStart(s: State, id: string) {
    && id in s.tickets && s.tickets[id].task in s.tasks && !Ended(s.tasks[s.tickets[id].task])
    && !exists r <- s.runs :: s.runs[r].task == s.tickets[id].task && s.runs[r].Active()
  }

  /** The store takes a run only one version ahead of the stored one. */
  predicate Current(s: State, id: string, seen: Run) { id in s.runs && s.runs[id].version == seen.version }

  function TakeItem(s: State, item: Item): State {
    match item
    case Execute(id, resume) =>
      if id in s.tickets && s.tickets[id].state == Queued then
        WithTicket(s, id, Processing).(executing := s.executing + {id}, worker := Preparing(id, resume),
                                       taken := s.taken + multiset{OfRun(id)})
      else s
    case Decide(id, approve) =>
      if id in s.waiting && id in s.runs && s.runs[id].state.Waiting?
      then s.(worker := Settling(id, s.runs[id], approve))
      else s.(pending := s.pending - {id})
    case Discuss(task) =>
      if task in s.tasks && s.tasks[task].talk == Some(Asked) then
        WithTalk(s, task, Replying).(executing := s.executing + {task}, worker := Talking(task),
                                     taken := s.taken + multiset{OfTalk(task)})
      else s
  }

  /** A completed run hands its task to the owner, or delivers it when there was no discussion. */
  function Completing(s: State, task: string): State {
    if task in s.tasks then
      s.(tasks := s.tasks[task := s.tasks[task].(lifecycle := if s.tasks[task].talk.None? then TaskLifecycle.Delivered
                                                 else TaskLifecycle.AwaitingAcceptance)])
    else s
  }

  function FindRun(s: State, id: string): Option<Run> { if id in s.runs then Some(s.runs[id]) else None }

  /** A move that does not fit where the worker is changes nothing. */
  function Work(s: State, m: Move): State {
    match (s.worker, m)
    case (Free, Take) => if s.queue == [] then s else TakeItem(s.(queue := s.queue[1..]), s.queue[0])
    case (Preparing(id, resume), ReadTask) =>
      if !resume && MayStart(s, id) then s.(worker := Starting(id, s.tasks[s.tickets[id].task])) else s
    case (Starting(id, seen), AddRun) =>
      if id in s.tickets && id !in s.runs
      then WithRun(s, id, Run(s.tickets[id].task, RunState.Created, 0)).(worker := Added(id, seen)) else s
    case (Added(id, seen), WriteTask) =>
      if id in s.runs && s.runs[id].task in s.tasks
      then s.(tasks := s.tasks[s.runs[id].task := seen.(lifecycle := TaskLifecycle.Active)],
              worker := Driving(id, s.runs[id], false)) else s
    case (Preparing(id, resume), ReadRun) =>
      if resume && id in s.runs && s.runs[id].state in {RunState.Blocked, RunState.Paused}
      then s.(worker := Resuming(id, s.runs[id])) else s
    case (Resuming(id, run), CommitResume) =>
      if Current(s, id, run)
      then WithRun(s, id, Next(run, RunState.Running)).(worker := Driving(id, Next(run, RunState.Running), false))
      else s
    case (Driving(id, run, decision), Refresh) =>
      if id in s.runs then s.(worker := Driving(id, s.runs[id], decision)) else s
    case (Driving(id, run, decision), Commit(state)) =>
      if Current(s, id, run) && MayCommit(run.state, state, decision) then
        var next := WithRun(s, id, Next(run, state)).(worker := Driving(id, Next(run, state), decision));
        if state.Completed? then Completing(next, run.task) else next
      else s
    case (Driving(id, run, decision), Reactivate) =>
      if run.task in s.tasks && s.tasks[run.task].lifecycle.Delivered?
      then s.(tasks := s.tasks[run.task := s.tasks[run.task].(lifecycle := TaskLifecycle.Active)]) else s
    case (Settling(id, run, approve), Settle) =>
      if Current(s, id, run) then
        var next := Next(run, if approve then RunState.Running else RunState.Failed);
        WithRun(s, id, next).(worker := Driving(id, next, true))
      else s
    case (Driving(id, run, decision), Return) =>
      if decision then s.(waiting := s.waiting - {id}, pending := s.pending - {id}, worker := Free)
      else if id in s.tickets && run.state !in {RunState.Created, RunState.Running} then
        WithTicket(s, id, if run.state.Cancelled? then Dropped else Finished)
          .(waiting := if run.state.Waiting? then s.waiting + {id} else s.waiting, worker := Leaving(id))
      else s
    case (Settling(id, _, _), Throw) => s.(pending := s.pending - {id}, worker := Free)
    case (Driving(id, run, decision), Throw) =>
      if decision then s.(pending := s.pending - {id}, worker := Free) else s.(worker := Failing(id, FindRun(s, id)))
    case (Preparing(id, _), Throw) => s.(worker := Failing(id, FindRun(s, id)))
    case (Starting(id, _), Throw) => s.(worker := Failing(id, FindRun(s, id)))
    case (Added(id, _), Throw) => s.(worker := Failing(id, FindRun(s, id)))
    case (Resuming(id, _), Throw) => s.(worker := Failing(id, FindRun(s, id)))
    case (Failing(id, found), SaveFailure(dropped)) =>
      if id in s.tickets then WithTicket(s, id, if dropped then Dropped else Finished).(worker := Reporting(id, found))
      else s
    case (Reporting(id, found), ReadTaskAgain) =>
      if found.None? && id in s.tickets && s.tickets[id].task in s.tasks
      then s.(worker := Replacing(id, s.tasks[s.tickets[id].task])) else s
    case (Replacing(id, seen), AddReplacement(state)) =>
      if id !in s.tickets || state !in {RunState.Paused, RunState.Cancelled, RunState.Blocked} then s
      else if id in s.runs then s.(worker := Leaving(id))
      else
        var added := Run(s.tickets[id].task, state, 0);
        WithRun(s, id, added).(worker := Restoring(id, seen, added))
    case (Restoring(id, seen, run), WriteTaskBack) =>
      if run.task in s.tasks then
        s.(tasks := s.tasks[run.task := seen.(lifecycle := TaskLifecycle.Active)], worker := Reporting(id, Some(run)))
      else s
    case (Reporting(id, found), StoreFailure(state)) =>
      if found.None? || state !in {RunState.Paused, RunState.Cancelled, RunState.Blocked} then s
      else if !found.value.state.Completed? && Current(s, id, found.value)
      then WithRun(s, id, Next(found.value, state)).(worker := Leaving(id))
      else s.(worker := Leaving(id))
    case (Talking(task), Reply(ok)) =>
      if task in s.tasks then WithTalk(s, task, if ok then Idle else Stopped).(worker := Leaving(task)) else s
    case (Leaving(id), Leave) => s.(executing := s.executing - {id}, worker := Free)
    case _ => s
  }

  /** The program stops and starts again: nothing in memory survives, and what was busy is closed. */
  function Restart(s: State): State {
    s.(tasks := map t | t in s.tasks :: if TalkOn(s, t) then s.tasks[t].(talk := Some(Stopped)) else s.tasks[t],
       tickets := map id | id in s.tickets :: if TicketOn(s, id) then s.tickets[id].(state := Lost) else s.tickets[id],
       runs := map id | id in s.runs ::
                 if RunOn(s, id) || s.runs[id].state.Paused? then Next(s.runs[id], RunState.Blocked) else s.runs[id],
       executing := {}, waiting := {}, pending := {}, queue := [], worker := Free)
  }

  /** A stop whose update of the run loses to an unlocked move of the worker: the ticket is dropped, the run is not. */
  function LoseStop(s: State, id: string, m: Move): State {
    var v := Work(s, m);
    if MayCancel(s, id) && id in s.runs && id in v.runs && v.runs[id].version != s.runs[id].version && id in v.tickets
    then WithTicket(v, id, Dropped) else s
  }

  datatype Step = Requested(request: Request) | Worked(move: Move) | StopLost(id: string, move: Move) | Restarted

  function Do(s: State, step: Step): State {
    match step
    case Requested(r) => Handle(s, r)
    case Worked(m) => Work(s, m)
    case StopLost(id, m) => LoseStop(s, id, m)
    case Restarted => Restart(s)
  }

  function Play(s: State, steps: seq<Step>): State {
    if steps == [] then s else Do(Play(s, steps[..|steps| - 1]), steps[|steps| - 1])
  }

  const START: State := State(map[], map[], map[], {}, {}, {}, [], Free, multiset{}, multiset{})
}
