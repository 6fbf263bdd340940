/** The lock-protected sections of the workbench service on its stores, and the store's version check. */
module QueueService {
  import opened Contracts
  import opened Queue
  import opened QueueTheorems

  class WorkbenchService {
    var tasks: map<string, TaskRec>
    var tickets: map<string, Ticket>
    var runs: map<string, Run>
    var executing: set<string>
    var waiting: set<string>
    var pendingDecisions: set<string>
    var queue: seq<Item>
    var worker: Worker
    ghost var asked: multiset<Marker>
    ghost var taken: multiset<Marker>

    ghost function Now(): State
      reads this
    {
      State(tasks, tickets, runs, executing, waiting, pendingDecisions, queue, worker, asked, taken)
    }

    /** The section did what the request does, and what was exclusive still is. */
    twostate predicate Did(r: Request)
      reads this
    {
      Now() == Handle(old(Now()), r) && (Inv(old(Now())) ==> Inv(Now()))
    }

    constructor ()
      ensures Now() == START && Inv(Now())
    {
      tasks, tickets, runs, executing, waiting, pendingDecisions, queue, worker := map[], map[], map[], {}, {}, {}, [],
          Free;
      asked, taken := multiset{}, multiset{};
      new;
      StartFits();
    }

    /** The busy check over the three tables. */
    method Busy(project: string) returns (busy: bool)
      ensures busy == ProjectBusy(Now(), project)
    {
      var t := exists t <- tasks :: tasks[t].project == project && tasks[t].talk in {Some(Asked), Some(Replying)};
      var k := exists id <- tickets ::
        tickets[id].task in tasks && tasks[tickets[id].task].project == project
        && tickets[id].state in {Queued, Processing};
      var r := exists id <- runs ::
        runs[id].task in tasks && tasks[runs[id].task].project == project && runs[id].Active();
      busy := t || k || r;
    }

    /** Store the next version of a run, unless somebody stored one since it was read. */
    method UpdateRun(id: string, seen: Run, state: RunState) returns (ok: bool)
      modifies this`runs
      ensures ok == Current(old(Now()), id, seen)
      ensures Now() == if ok then WithRun(old(Now()), id, Next(seen, state)) else old(Now())
    {
      ok := id in runs && runs[id].version == seen.version;
      if ok { runs := runs[id := seen.(state := state, version := seen.version + 1)]; }
    }

    method RequestRun(task: string, id: string, valid: bool) returns (ok: bool)
      modifies this`tickets, this`queue, this`asked
      ensures Did(Request.RequestRun(task, id, valid)) && ok == MayRun(old(Now()), task, id, valid)
    {
      hide Inv, ProjectBusy;
      if Inv(Now()) { HandleKeeps(Now(), Request.RequestRun(task, id, valid)); }
      if task !in tasks || !valid || Ended(tasks[task]) || (tasks[task].talk.Some? && !tasks[task].lifecycle.Ready?) {
        return false;
      }
      var busy := Busy(tasks[task].project);
      if busy || id in tickets || id in runs { return false; }
      tickets := tickets[id := Ticket(task, Queued)];
      queue, asked := queue + [Execute(id, false)], asked + multiset{OfRun(id)};
      ok := true;
    }

    method RequestResume(id: string, valid: bool, rewind: bool) returns (ok: bool)
      modifies this`tickets, this`runs, this`queue, this`asked
      ensures Did(Request.RequestResume(id, valid, rewind)) && ok == MayResume(old(Now()), id, valid)
    {
      hide Inv, ProjectBusy;
      if Inv(Now()) { HandleKeeps(Now(), Request.RequestResume(id, valid, rewind)); }
      if !valid || id !in runs || id !in tickets || tickets[id].task !in tasks { return false; }
      var t := tasks[tickets[id].task];
      if (t.talk.Some? && !t.lifecycle.Active?) || runs[id].state !in {RunState.Paused, RunState.Blocked} {
        return false;
      }
      if tickets[id].state in {Queued, Processing} || Ended(t) { return false; }
      var busy := Busy(t.project);
      if busy { return false; }
      ok := true;
      if rewind { var done := UpdateRun(id, runs[id], runs[id].state); }
      tickets := tickets[id := tickets[id].(state := Queued)];
      queue, asked := queue + [Execute(id, true)], asked + multiset{OfRun(id)};
    }

    method RequestStop(id: string, cancel: bool) returns (dropped: bool)
      modifies this`tickets, this`runs, this`waiting
      ensures Did(Request.RequestStop(id, cancel)) && dropped == (cancel && MayCancel(old(Now()), id))
    {
      hide Inv;
      if Inv(Now()) { HandleKeeps(Now(), Request.RequestStop(id, cancel)); }
      if id !in tickets { return false; }
      // the running control is told to stop
      if id in executing && (id !in runs || runs[id].state.Running?) { return false; }
      if !cancel || id in pendingDecisions { return false; }
      if id in runs && runs[id].state !in {RunState.Paused, RunState.Blocked, RunState.Waiting} { return false; }
      if id !in runs && tickets[id].state != Queued { return false; }
      tickets := tickets[id := tickets[id].(state := Dropped)];
      if id in runs {
        var done := UpdateRun(id, runs[id], RunState.Cancelled);
        waiting := waiting - {id};
      }
      dropped := true;
    }

    method RequestApproval(id: string, approve: bool, matches: bool) returns (ok: bool)
      modifies this`pendingDecisions, this`queue
      ensures Did(Request.RequestApproval(id, approve, matches)) && ok == MayApprove(old(Now()), id, matches)
    {
      hide Inv;
      if Inv(Now()) { HandleKeeps(Now(), Request.RequestApproval(id, approve, matches)); }
      ok := matches && id in runs && runs[id].state.Waiting? && id in waiting && id !in pendingDecisions;
      if ok { pendingDecisions, queue := pendingDecisions + {id}, queue + [Decide(id, approve)]; }
    }

    method RequestDiscussion(task: string, valid: bool) returns (ok: bool)
      modifies this`tasks, this`queue, this`asked
      ensures Did(Request.RequestDiscussion(task, valid))
      ensures ok == (Discussable(old(Now()), task, valid) && !ProjectBusy(old(Now()), old(tasks)[task].project))
    {
      hide Inv, ProjectBusy;
      if Inv(Now()) { HandleKeeps(Now(), Request.RequestDiscussion(task, valid)); }
      if !(valid && task in tasks && tasks[task].lifecycle.Discussing? && tasks[task].talk.Some?) { return false; }
      if tasks[task].talk in {Some(Asked), Some(Replying)} { return false; }
      var busy := Busy(tasks[task].project);
      if busy { return false; }
      tasks := tasks[task := tasks[task].(talk := Some(Asked))];
      queue, asked := queue + [Discuss(task)], asked + multiset{OfTalk(task)};
      ok := true;
    }

    method StopDiscussion(task: string) returns (ok: bool)
      modifies this`tasks
      ensures Did(Request.StopDiscussion(task))
      ensures ok == (task in old(tasks) && task !in executing && old(tasks)[task].talk == Some(Asked))
    {
      hide Inv;
      if Inv(Now()) { HandleKeeps(Now(), Request.StopDiscussion(task)); }
      ok := task in tasks && task !in executing && tasks[task].talk == Some(Asked);
      if ok { tasks := tasks[task := tasks[task].(talk := Some(Stopped))]; }
    }

    method ReturnToDiscussion(task: string, valid: bool) returns (ok: bool)
      modifies this`tasks
      ensures Did(Request.ReturnToDiscussion(task, valid))
      ensures ok == (task in old(tasks) && valid && old(tasks)[task].talk.Some?
                     && old(tasks)[task].lifecycle in {TaskLifecycle.Active, TaskLifecycle.Ready}
                     && !ProjectBusy(old(Now()), old(tasks)[task].project))
    {
      hide Inv, ProjectBusy;
      if Inv(Now()) { HandleKeeps(Now(), Request.ReturnToDiscussion(task, valid)); }
      if task !in tasks || !valid || tasks[task].talk.None?
         || tasks[task].lifecycle !in {TaskLifecycle.Active, TaskLifecycle.Ready} {
        return false;
      }
      var busy := Busy(tasks[task].project);
      if busy { return false; }
      tasks := tasks[task := tasks[task].(lifecycle := TaskLifecycle.Discussing, talk := Some(NeedsTalk))];
      ok := true;
    }

    method FreezeReady(task: string, valid: bool) returns (ok: bool)
      modifies this`tasks
      ensures Did(Request.FreezeReady(task, valid))
      ensures ok == (Discussable(old(Now()), task, valid) && old(tasks)[task].talk == Some(Idle)
                     && !ProjectBusy(old(Now()), old(tasks)[task].project))
    {
      hide Inv, ProjectBusy;
      if Inv(Now()) { HandleKeeps(Now(), Request.FreezeReady(task, valid)); }
      if !valid || task !in tasks || !tasks[task].lifecycle.Discussing? || tasks[task].talk != Some(Idle) {
        return false;
      }
      var busy := Busy(tasks[task].project);
      if busy { return false; }
      tasks := tasks[task := tasks[task].(lifecycle := TaskLifecycle.Ready)];
      ok := true;
    }

    method OwnerAcceptance(task: string, accept: bool, valid: bool) returns (ok: bool)
      modifies this`tasks
      ensures Did(Request.OwnerAcceptance(task, accept, valid))
      ensures ok == (task in old(tasks) && valid && old(tasks)[task].talk.Some?
                     && old(tasks)[task].lifecycle.AwaitingAcceptance?)
    {
      hide Inv;
      if Inv(Now()) { HandleKeeps(Now(), Request.OwnerAcceptance(task, accept, valid)); }
      if !valid || task !in tasks || tasks[task].talk.None? || !tasks[task].lifecycle.AwaitingAcceptance? {
        return false;
      }
      if accept {
        tasks := tasks[task := tasks[task].(lifecycle := TaskLifecycle.Done)];
      } else {
        tasks := tasks[task := tasks[task].(lifecycle := TaskLifecycle.Discussing, talk := Some(NeedsTalk))];
      }
      ok := true;
    }

    method TakeTicket(id: string, resume: bool)
      requires worker.Free?
      modifies this`executing, this`tickets, this`worker, this`taken
      ensures Now() == TakeItem(old(Now()), Execute(id, resume))
    {
      if id !in tickets || tickets[id].state != Queued { return; }
      executing := executing + {id};
      tickets := tickets[id := tickets[id].(state := Processing)];
      worker, taken := Preparing(id, resume), taken + multiset{OfRun(id)};
    }

    method TakeDecision(id: string, approve: bool)
      requires worker.Free?
      modifies this`pendingDecisions, this`worker
      ensures Now() == TakeItem(old(Now()), Decide(id, approve))
    {
      if id !in waiting || id !in runs || !runs[id].state.Waiting? {
        pendingDecisions := pendingDecisions - {id};
        return;
      }
      worker := Settling(id, runs[id], approve);
    }

    method TakeDiscussion(task: string)
      requires worker.Free?
      modifies this`tasks, this`executing, this`worker, this`taken
      ensures Now() == TakeItem(old(Now()), Discuss(task))
    {
      if task !in tasks || tasks[task].talk != Some(Asked) { return; }
      tasks := tasks[task := tasks[task].(talk := Some(Replying))];
      executing := executing + {task};
      worker, taken := Talking(task), taken + multiset{OfTalk(task)};
    }

    /** The worker takes the next item: the section that turns a queued ticket or discussion into a running one. */
    method Take()
      requires worker.Free? && queue != []
      modifies this
      ensures Now() == Work(old(Now()), Move.Take) && (Inv(old(Now())) ==> Inv(Now()))
    {
      hide Inv, Work, TakeItem;
      if Inv(Now()) { TakeMoveKeeps(Now()); }
      TakingIs(Now());
      var item := queue[0];
      queue := queue[1..];
      match item {
        case Execute(id, resume) => TakeTicket(id, resume);
        case Decide(id, approve) => TakeDecision(id, approve);
        case Discuss(task) => TakeDiscussion(task);
      }
    }
  }

  lemma {:induction false} TakingIs(s: State)
    requires s.worker.Free? && s.queue != []
    ensures Work(s, Take) == TakeItem(s.(queue := s.queue[1..]), s.queue[0])
  {
  }
}
