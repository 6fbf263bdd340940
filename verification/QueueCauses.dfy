/** What a request changes in the stores, and what only it can change. */
module QueueCauses {
  import opened Contracts
  import opened Queue

  // ---- What a request finds ----

  /** Something of the project is under way: a discussion is asked for or going on, a ticket is queued or processed, or
      a run is active. */
  ghost predicate Occupied(s: State, p: string) {
    || (exists t <- s.tasks :: s.tasks[t].project == p && (s.tasks[t].talk == Some(Asked)
                                                           || s.tasks[t].talk == Some(Replying)))
    || (exists id <- s.tickets :: Of(s, s.tickets[id].task, p) && (s.tickets[id].state == Queued
                                                                   || s.tickets[id].state == Processing))
    || (exists id <- s.runs :: Of(s, s.runs[id].task, p)
                               && (s.runs[id].state == RunState.Created || s.runs[id].state == RunState.Running
                                   || s.runs[id].state == RunState.Waiting))
  }

  predicate Of(s: State, t: string, p: string) { t in s.tasks && s.tasks[t].project == p }

  lemma {:induction false} BusyIsOccupied(s: State, p: string)
    ensures ProjectBusy(s, p) <==> Occupied(s, p)
  {
    forall t ensures ProjectOfTask(s, t) == Some(p) <==> Of(s, t, p) { }
  }

  predicate Over(t: TaskRec) {
    || t.lifecycle == TaskLifecycle.Delivered || t.lifecycle == TaskLifecycle.Cancelled
    || t.lifecycle == TaskLifecycle.Done
  }

  /** A task that is not over, agreed on if it was discussed, in a project where nothing is under way. */
  ghost predicate Startable(s: State, task: string) {
    && task in s.tasks && !Over(s.tasks[task]) && !Occupied(s, s.tasks[task].project)
    && (s.tasks[task].talk != None ==> s.tasks[task].lifecycle == TaskLifecycle.Ready)
  }

  /** A run that stands still, of a task that is not over and in no new discussion, where nothing is under way. */
  ghost predicate Resumable(s: State, id: string) {
    && id in s.runs && id in s.tickets && s.tickets[id].task in s.tasks
    && (s.runs[id].state == RunState.Paused || s.runs[id].state == RunState.Blocked)
    && s.tickets[id].state != Queued && s.tickets[id].state != Processing
    && var t := s.tasks[s.tickets[id].task];
    && !Over(t) && !Occupied(s, t.project) && (t.talk != None ==> t.lifecycle == TaskLifecycle.Active)
  }

  /** A run that stands still or waits, or a start that is still queued, with no decision on its way and no worker on
      it. */
  ghost predicate Cancellable(s: State, id: string) {
    && id in s.tickets && id !in s.pending
    && (id in s.runs ==> s.runs[id].state == RunState.Paused || s.runs[id].state == RunState.Blocked
                         || s.runs[id].state == RunState.Waiting)
    && (id !in s.runs ==> s.tickets[id].state == Queued && id !in s.executing)
  }

  /** A run that waits, whose coordinator is there to be asked, with no decision on its way. */
  ghost predicate Decidable(s: State, id: string) {
    id in s.runs && s.runs[id].state == RunState.Waiting && id in s.waiting && id !in s.pending
  }

  /** A discussion that is open and in which nothing is asked for or going on. */
  ghost predicate Discussable(s: State, task: string) {
    && task in s.tasks && s.tasks[task].lifecycle == TaskLifecycle.Discussing
    && s.tasks[task].talk in {Some(Idle), Some(Stopped), Some(NeedsTalk)} && !Occupied(s, s.tasks[task].project)
  }

  ghost predicate Reopenable(s: State, task: string) {
    && task in s.tasks && s.tasks[task].talk != None && !Occupied(s, s.tasks[task].project)
    && (s.tasks[task].lifecycle == TaskLifecycle.Active || s.tasks[task].lifecycle == TaskLifecycle.Ready)
  }

  /** A delivery of a discussed task that waits for its owner. */
  ghost predicate Judgeable(s: State, task: string) {
    task in s.tasks && s.tasks[task].talk != None && s.tasks[task].lifecycle == TaskLifecycle.AwaitingAcceptance
  }

  // ---- What changes ----

  /** A task a request leaves changed, by its cause; `o` is what it was and `u` what it becomes. */
  ghost predicate TaskChanged(s: State, r: Request, t: string, o: TaskRec, u: TaskRec) {
    var asked := r == RequestDiscussion(t, true) && Discussable(s, t);
    var stopped := r == StopDiscussion(t) && o.talk == Some(Asked) && t !in s.executing;
    var frozen := r == FreezeReady(t, true) && Discussable(s, t) && o.talk == Some(Idle);
    var accepted := r == OwnerAcceptance(t, true, true) && Judgeable(s, t);
    var rejected := r == OwnerAcceptance(t, false, true) && Judgeable(s, t);
    var reopened := rejected || (r == ReturnToDiscussion(t, true) && Reopenable(s, t));
    && (asked ==> u == o.(talk := Some(Asked)))
    && (stopped ==> u == o.(talk := Some(Stopped)))
    && (frozen ==> u == o.(lifecycle := TaskLifecycle.Ready))
    && (accepted ==> u == o.(lifecycle := TaskLifecycle.Done))
    && (reopened ==> u == o.(lifecycle := TaskLifecycle.Discussing, talk := Some(NeedsTalk)))
    && (u != o ==> asked || stopped || frozen || accepted || reopened)
  }

  /** A request changes tasks as stated and no others, and creates only drafts and idle discussions. */
  ghost predicate TasksChanged(s: State, r: Request, v: State) {
    && (forall t <- s.tasks :: t in v.tasks && TaskChanged(s, r, t, s.tasks[t], v.tasks[t]))
    && (forall t :: t in v.tasks && t !in s.tasks <==> t !in s.tasks && Creates(r, t))
    && (forall t :: t in v.tasks && t !in s.tasks ==> r == CreateTask(t, v.tasks[t]))
  }

  predicate Creates(r: Request, t: string) {
    && r.CreateTask? && r.task == t
    && ((r.rec.talk == None && r.rec.lifecycle == TaskLifecycle.Draft)
        || (r.rec.talk == Some(Idle) && r.rec.lifecycle == TaskLifecycle.Discussing))
  }

  lemma {:induction false} CreatingChanges(s: State, task: string, rec: TaskRec)
    ensures TasksChanged(s, CreateTask(task, rec), Handle(s, CreateTask(task, rec)))
  {
  }

  lemma {:induction false} AskingChanges(s: State, task: string, ok: bool)
    ensures TasksChanged(s, RequestDiscussion(task, ok), Handle(s, RequestDiscussion(task, ok)))
  {
    hide ProjectBusy, Occupied, Queue.Discussable;
    if task in s.tasks { BusyIsOccupied(s, s.tasks[task].project); }
    TalkIsOpen(s, task, ok);
  }

  lemma {:induction false} StoppingChanges(s: State, task: string)
    ensures TasksChanged(s, StopDiscussion(task), Handle(s, StopDiscussion(task)))
  {
    hide Occupied;
  }

  lemma {:induction false} FreezingChanges(s: State, task: string, ok: bool)
    ensures TasksChanged(s, FreezeReady(task, ok), Handle(s, FreezeReady(task, ok)))
  {
    hide ProjectBusy, Occupied, Queue.Discussable;
    if task in s.tasks { BusyIsOccupied(s, s.tasks[task].project); }
    TalkIsOpen(s, task, ok);
  }

  lemma {:induction false} ReturningChanges(s: State, task: string, ok: bool)
    ensures TasksChanged(s, ReturnToDiscussion(task, ok), Handle(s, ReturnToDiscussion(task, ok)))
  {
    hide ProjectBusy, Occupied;
    if task in s.tasks { BusyIsOccupied(s, s.tasks[task].project); }
  }

  lemma {:induction false} JudgingChanges(s: State, task: string, accept: bool, ok: bool)
    ensures TasksChanged(s, OwnerAcceptance(task, accept, ok), Handle(s, OwnerAcceptance(task, accept, ok)))
  {
    hide Occupied;
  }

  lemma {:induction false} NothingChanges(s: State, r: Request)
    requires r.RequestRun? || r.RequestResume? || r.RequestStop? || r.RequestApproval?
    ensures TasksChanged(s, r, s) && forall v: State :: v.tasks == s.tasks ==> TasksChanged(s, r, v)
  {
    hide Occupied;
  }

  lemma {:induction false} RequestsChangeTasks(s: State, r: Request)
    ensures TasksChanged(s, r, Handle(s, r))
  {
    hide TasksChanged, Handle;
    match r {
      case CreateTask(task, rec) => CreatingChanges(s, task, rec);
      case RequestDiscussion(task, ok) => AskingChanges(s, task, ok);
      case StopDiscussion(task) => StoppingChanges(s, task);
      case FreezeReady(task, ok) => FreezingChanges(s, task, ok);
      case ReturnToDiscussion(task, ok) => ReturningChanges(s, task, ok);
      case OwnerAcceptance(task, accept, ok) => JudgingChanges(s, task, accept, ok);
      case _ => RunsLeaveTasks(s, r); NothingChanges(s, r);
    }
  }

  lemma {:induction false} RunsLeaveTasks(s: State, r: Request)
    requires r.RequestRun? || r.RequestResume? || r.RequestStop? || r.RequestApproval?
    ensures Handle(s, r).tasks == s.tasks
  {
    hide ProjectBusy;
  }

  lemma {:induction false} TalkIsOpen(s: State, task: string, ok: bool)
    ensures Queue.Discussable(s, task, ok)
            <==> ok && task in s.tasks && s.tasks[task].lifecycle == TaskLifecycle.Discussing
                 && s.tasks[task].talk in {Some(Idle), Some(Stopped), Some(NeedsTalk)}
  {
    if task in s.tasks && s.tasks[task].talk.Some? {
      match s.tasks[task].talk.value {
        case Idle =>
        case Asked =>
        case Replying =>
        case Stopped =>
        case NeedsTalk =>
      }
    }
  }

  // ---- Requests for work ----

  /** A start that may be made queues a new ticket; any other leaves everything as it is. */
  lemma {:induction false} StartIsExact(s: State, task: string, id: string, ok: bool)
    ensures Handle(s, RequestRun(task, id, ok))
            == if ok && Startable(s, task) && id !in s.tickets && id !in s.runs
               then s.(tickets := s.tickets[id := Ticket(task, Queued)], queue := s.queue + [Execute(id, false)],
                       asked := s.asked + multiset{OfRun(id)})
               else s
  {
    hide ProjectBusy, Occupied;
    if task in s.tasks { BusyIsOccupied(s, s.tasks[task].project); }
  }

  /** A resume that may be made queues the ticket again, and stores the run under a new version when it is rewound. */
  lemma {:induction false} ResumeIsExact(s: State, id: string, ok: bool, rewind: bool)
    ensures Handle(s, RequestResume(id, ok, rewind))
            == if ok && Resumable(s, id)
               then s.(tickets := s.tickets[id := Ticket(s.tickets[id].task, Queued)],
                       queue := s.queue + [Execute(id, true)], asked := s.asked + multiset{OfRun(id)},
                       runs := if rewind
                               then s.runs[id := Run(s.runs[id].task, s.runs[id].state, s.runs[id].version + 1)]
                               else s.runs)
               else s
  {
    hide ProjectBusy, Occupied;
    if id in s.tickets && s.tickets[id].task in s.tasks { BusyIsOccupied(s, s.tasks[s.tickets[id].task].project); }
  }

  /** A cancellation that may be made drops the ticket, and cancels the run, if there is one, under a new version. */
  lemma {:induction false} CancelIsExact(s: State, id: string, cancel: bool)
    ensures Handle(s, RequestStop(id, cancel))
            == if cancel && Cancellable(s, id)
               then s.(tickets := s.tickets[id := Ticket(s.tickets[id].task, Dropped)],
                       runs := if id in s.runs
                               then s.runs[id := Run(s.runs[id].task, RunState.Cancelled, s.runs[id].version + 1)]
                               else s.runs,
                       waiting := if id in s.runs then s.waiting - {id} else s.waiting)
               else s
  {
  }

  /** A decision that may be taken is queued as it was made, and is on its way from then on. */
  lemma {:induction false} DecisionIsExact(s: State, id: string, approve: bool, ok: bool)
    ensures Handle(s, RequestApproval(id, approve, ok))
            == if ok && Decidable(s, id)
               then s.(pending := s.pending + {id}, queue := s.queue + [Decide(id, approve)]) else s
  {
  }

  /** A message to a discussion that may take one queues it. */
  lemma {:induction false} MessageIsExact(s: State, task: string, ok: bool)
    ensures Handle(s, RequestDiscussion(task, ok))
            == if ok && Discussable(s, task)
               then s.(tasks := s.tasks[task := s.tasks[task].(talk := Some(Asked))],
                       queue := s.queue + [Discuss(task)], asked := s.asked + multiset{OfTalk(task)})
               else s
  {
    hide ProjectBusy, Occupied;
    if task in s.tasks { BusyIsOccupied(s, s.tasks[task].project); }
    TalkIsOpen(s, task, ok);
  }

  /** The other requests change tasks and nothing else. */
  lemma {:induction false} OthersChangeTasksOnly(s: State, r: Request)
    requires r.CreateTask? || r.StopDiscussion? || r.FreezeReady? || r.ReturnToDiscussion? || r.OwnerAcceptance?
    ensures Handle(s, r) == s.(tasks := Handle(s, r).tasks)
  {
    hide ProjectBusy;
  }
}
