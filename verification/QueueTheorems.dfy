/** What every interleaving of the requests with the worker keeps. */
module QueueTheorems {
  import opened Contracts
  import opened Queue

  // ---- One owner of a project ----

  ghost predicate On(s: State, m: Marker) {
    match m
    case OfRun(id) => TicketOn(s, id) || RunOn(s, id)
    case OfTalk(task) => TalkOn(s, task)
  }

  /** The project a marker is about: its ticket's task, or the task itself. */
  ghost function ProjectOf(s: State, m: Marker): Option<string> {
    match m
    case OfRun(id) => if id in s.tickets then ProjectOfTask(s, s.tickets[id].task) else None
    case OfTalk(task) => ProjectOfTask(s, task)
  }

  /** All busy markers of a project name the same run or discussion. */
  ghost predicate OneOwner(s: State) {
    forall m, n :: On(s, m) && On(s, n) && ProjectOf(s, m) == ProjectOf(s, n) ==> m == n
  }

  ghost predicate Linked(s: State) {
    && (forall id <- s.tickets :: s.tickets[id].task in s.tasks)
    && (forall id <- s.runs :: id in s.tickets && s.tickets[id].task == s.runs[id].task)
  }

  predicate Quiet(t: TaskRec) { t.talk !in {Some(Asked), Some(Replying)} }

  /** An earlier record of a stored run: if the version is still the same, so is everything else. */
  ghost predicate Seen(s: State, id: string, run: Run) {
    && id in s.runs && run.task == s.runs[id].task && run.version <= s.runs[id].version
    && (run.version == s.runs[id].version ==> s.runs[id] == run)
  }

  ghost predicate SeenTask(s: State, id: string, seen: TaskRec) {
    && id in s.tickets && s.tickets[id].task in s.tasks && s.tasks[s.tickets[id].task].project == seen.project
  }

  ghost predicate Processed(s: State, id: string) { id in s.tickets && s.tickets[id].state == Processing }

  /** What the worker's place says about the stores. */
  ghost predicate WorkerFits(s: State) {
    match s.worker
    case Free => true
    case Preparing(id, resume) =>
      id in s.tickets && (if resume then (id in s.runs && s.runs[id].state in {RunState.Paused, RunState.Blocked}
                                          ==> Processed(s, id))
                          else (id !in s.runs ==> Processed(s, id)))
    case Starting(id, seen) => SeenTask(s, id, seen) && (id !in s.runs ==> Processed(s, id) && Quiet(seen))
    case Added(id, seen) => SeenTask(s, id, seen) && id in s.runs && Quiet(seen)
    case Resuming(id, run) =>
      Seen(s, id, run) && run.state in {RunState.Paused, RunState.Blocked} && (Current(s, id, run) ==> Processed(s, id))
    case Driving(id, run, _) => Seen(s, id, run)
    case Settling(id, run, _) => Seen(s, id, run) && run.state.Waiting?
    case Failing(id, found) => found.Some? ==> Seen(s, id, found.value)
    case Reporting(id, found) => found.Some? ==> Seen(s, id, found.value)
    case Replacing(id, seen) => SeenTask(s, id, seen)
    case Restoring(id, seen, run) => SeenTask(s, id, seen) && Seen(s, id, run)
    case Talking(_) => true
    case Leaving(_) => true
  }

  ghost predicate Inv(s: State) { Linked(s) && OneOwner(s) && WorkerFits(s) }

  // ---- Busy is marked ----

  /** The four tables the busy check reads are exactly the markers. */
  lemma {:induction false} BusyIsMarked(s: State, p: string)
    requires Linked(s)
    ensures ProjectBusy(s, p) <==> exists m :: On(s, m) && ProjectOf(s, m) == Some(p)
  {
    if ProjectBusy(s, p) {
      if t :| t in s.tasks && s.tasks[t].project == p && TalkOn(s, t) {
        assert On(s, OfTalk(t)) && ProjectOf(s, OfTalk(t)) == Some(p);
      } else if id :| id in s.tickets && ProjectOfTask(s, s.tickets[id].task) == Some(p) && TicketOn(s, id) {
        assert On(s, OfRun(id)) && ProjectOf(s, OfRun(id)) == Some(p);
      } else {
        var r :| r in s.runs && ProjectOfTask(s, s.runs[r].task) == Some(p) && RunOn(s, r);
        assert On(s, OfRun(r)) && ProjectOf(s, OfRun(r)) == Some(p);
      }
    }
    if m :| On(s, m) && ProjectOf(s, m) == Some(p) {
      match m {
        case OfTalk(t) => assert s.tasks[t].project == p && TalkOn(s, t);
        case OfRun(id) =>
          assert ProjectOfTask(s, s.tickets[id].task) == Some(p);
          if RunOn(s, id) { assert ProjectOfTask(s, s.runs[id].task) == Some(p); }
      }
    }
  }

  /** No marker is new, and none changed its project. */
  ghost predicate NoNewMarker(s: State, v: State) {
    forall m :: On(v, m) ==> On(s, m) && ProjectOf(v, m) == ProjectOf(s, m)
  }

  ghost predicate OneNewMarker(s: State, v: State, m: Marker, p: string) {
    && !ProjectBusy(s, p) && ProjectOf(v, m) == Some(p)
    && forall n :: On(v, n) && n != m ==> On(s, n) && ProjectOf(v, n) == ProjectOf(s, n)
  }

  lemma {:induction false} NoNewMarkerKeeps(s: State, v: State)
    requires OneOwner(s) && NoNewMarker(s, v)
    ensures OneOwner(v)
  {
  }

  lemma {:induction false} OneNewMarkerKeeps(s: State, v: State, m: Marker, p: string)
    requires Linked(s) && OneOwner(s) && OneNewMarker(s, v, m, p)
    ensures OneOwner(v)
  {
    hide On, ProjectOf, ProjectBusy, Linked;
    BusyIsMarked(s, p);
  }

  // ---- Requests ----

  /** Requests never touch a run that is being worked on without changing its version. */
  ghost predicate RunsMoveOn(s: State, v: State) {
    forall id <- s.runs :: id in v.runs && v.runs[id].task == s.runs[id].task
        && v.runs[id].version >= s.runs[id].version
      && (v.runs[id].version == s.runs[id].version ==> v.runs[id] == s.runs[id])
  }

  /** What a request leaves of the tickets and runs the worker relies on. */
  ghost predicate RequestSpares(s: State, v: State) {
    && v.worker == s.worker && RunsMoveOn(s, v) && v.runs.Keys == s.runs.Keys
    && (forall t <- s.tasks :: t in v.tasks && v.tasks[t].project == s.tasks[t].project)
    && (forall id <- s.tickets :: id in v.tickets && v.tickets[id].task == s.tickets[id].task)
    && (forall id <- s.tickets :: s.tickets[id].state == Processing ==>
          v.tickets[id].state == Processing || (id in v.runs && v.runs[id].state.Cancelled?
                                                && v.runs[id].version > s.runs[id].version))
    && (forall id <- s.runs ::
          v.runs[id].state in {RunState.Paused, RunState.Blocked} ==> s.runs[id].state == v.runs[id].state)
  }

  lemma {:induction false} SparedWorkerFits(s: State, v: State)
    requires WorkerFits(s) && RequestSpares(s, v)
    ensures WorkerFits(v)
  {
  }

  lemma {:induction false} ResumeSpares(s: State, id: string, ok: bool, rewind: bool)
    requires Linked(s)
    ensures RequestSpares(s, Handle(s, RequestResume(id, ok, rewind)))
            && Linked(Handle(s, RequestResume(id, ok, rewind)))
  {
    hide ProjectBusy, Ended;
  }

  lemma {:induction false} StopSpares(s: State, id: string, cancel: bool)
    requires Linked(s)
    ensures RequestSpares(s, Handle(s, RequestStop(id, cancel))) && Linked(Handle(s, RequestStop(id, cancel)))
  {
    if !(cancel && MayCancel(s, id)) {
      assert Handle(s, RequestStop(id, cancel)) == s;
    } else {
      hide Handle;
      StopWrites(s, id, cancel);
    }
  }

  /** An effective stop drops the ticket, and cancels the run when there is one. */
  lemma {:induction false} StopWrites(s: State, id: string, cancel: bool)
    requires cancel && MayCancel(s, id)
    ensures var v := Handle(s, RequestStop(id, cancel));
            && id in s.tickets && v.tickets == s.tickets[id := s.tickets[id].(state := Dropped)]
            && v.runs == (if id in s.runs then s.runs[id := Next(s.runs[id], RunState.Cancelled)] else s.runs)
            && v.tasks == s.tasks && v.worker == s.worker
            && (id !in s.runs ==> s.tickets[id].state == Queued)
  {
  }

  lemma {:induction false} DiscussableIsStored(s: State, task: string, ok: bool)
    ensures Discussable(s, task, ok) ==> task in s.tasks
  {
  }

  lemma {:induction false} TasksSpare(s: State, r: Request)
    requires Linked(s) && !r.RequestRun? && !r.RequestResume? && !r.RequestStop?
    ensures var v := Handle(s, r);
            && v.runs == s.runs && v.tickets == s.tickets && v.worker == s.worker
            && forall t <- s.tasks :: t in v.tasks && v.tasks[t].project == s.tasks[t].project
  {
    hide ProjectBusy, MayApprove, TalkOn, Discussable;
    if r.FreezeReady? || r.RequestDiscussion? { DiscussableIsStored(s, r.task, r.ok); }
  }

  lemma {:induction false} HandleSpares(s: State, r: Request)
    requires Linked(s)
    ensures RequestSpares(s, Handle(s, r)) && Linked(Handle(s, r))
  {
    hide ProjectBusy, Handle, MayRun;
    match r {
      case RequestResume(id, ok, rewind) => ResumeSpares(s, id, ok, rewind);
      case RequestStop(id, cancel) => StopSpares(s, id, cancel);
      case RequestRun(task, id, ok) => RunSpares(s, task, id, ok);
      case _ => TasksSpare(s, r);
    }
  }

  lemma {:induction false} RunSpares(s: State, task: string, id: string, ok: bool)
    requires Linked(s)
    ensures RequestSpares(s, Handle(s, RequestRun(task, id, ok))) && Linked(Handle(s, RequestRun(task, id, ok)))
  {
    hide ProjectBusy, Ended;
  }

  lemma {:induction false} HandleKeeps(s: State, r: Request)
    requires Inv(s)
    ensures Inv(Handle(s, r))
  {
    hide ProjectBusy, WorkerFits, RequestSpares, On, ProjectOf, Handle, OneOwner, Linked;
    HandleSpares(s, r);
    SparedWorkerFits(s, Handle(s, r));
    match r {
      case RequestRun(task, id, ok) =>
        if MayRun(s, task, id, ok) {
          RunMarks(s, task, id, ok); OneNewMarkerKeeps(s, Handle(s, r), OfRun(id), s.tasks[task].project);
        }
        else { UnguardedMarks(s, r); }
      case RequestResume(id, ok, rewind) =>
        if MayResume(s, id, ok) {
          ResumeMarks(s, id, ok, rewind); OneNewMarkerKeeps(s, Handle(s, r), OfRun(id),
                                                            s.tasks[s.tickets[id].task].project);
        }
        else { UnguardedMarks(s, r); }
      case RequestDiscussion(task, ok) =>
        if Discussable(s, task, ok) && !ProjectBusy(s, s.tasks[task].project) {
          TalkMarks(s, task, ok); OneNewMarkerKeeps(s, Handle(s, r), OfTalk(task), s.tasks[task].project);
        } else { UnguardedMarks(s, r); }
      case _ => UnguardedMarks(s, r);
    }
    if NoNewMarker(s, Handle(s, r)) { NoNewMarkerKeeps(s, Handle(s, r)); }
  }

  lemma {:induction false} RunMarks(s: State, task: string, id: string, ok: bool)
    requires Linked(s) && MayRun(s, task, id, ok)
    ensures OneNewMarker(s, Handle(s, RequestRun(task, id, ok)), OfRun(id), s.tasks[task].project)
  {
    hide ProjectBusy;
  }

  lemma {:induction false} ResumeMarks(s: State, id: string, ok: bool, rewind: bool)
    requires Linked(s) && MayResume(s, id, ok)
    ensures OneNewMarker(s, Handle(s, RequestResume(id, ok, rewind)), OfRun(id), s.tasks[s.tickets[id].task].project)
  {
    hide ProjectBusy;
  }

  lemma {:induction false} TalkMarks(s: State, task: string, ok: bool)
    requires Linked(s) && Discussable(s, task, ok) && !ProjectBusy(s, s.tasks[task].project)
    ensures OneNewMarker(s, Handle(s, RequestDiscussion(task, ok)), OfTalk(task), s.tasks[task].project)
  {
    hide ProjectBusy;
  }

  /** Every request but the three that ask for work leaves no new marker, and so do those three when they are
      refused. */
  lemma {:induction false} UnguardedMarks(s: State, r: Request)
    requires Linked(s)
    requires match r
             case RequestRun(task, id, ok) => !MayRun(s, task, id, ok)
             case RequestResume(id, ok, _) => !MayResume(s, id, ok)
             case RequestDiscussion(task, ok) => !(Discussable(s, task, ok) && !ProjectBusy(s, s.tasks[task].project))
             case _ => true
    ensures NoNewMarker(s, Handle(s, r))
  {
    hide ProjectBusy, MayRun, MayResume;
  }

  // ---- The worker ----

  lemma {:induction false} TakeKeeps(s: State, item: Item)
    requires Inv(s) && s.worker.Free?
    ensures Inv(TakeItem(s, item))
  {
    hide OneOwner;
    TakeMarks(s, item);
    NoNewMarkerKeeps(s, TakeItem(s, item));
  }

  lemma {:induction false} TakeMarks(s: State, item: Item)
    requires Linked(s)
    ensures NoNewMarker(s, TakeItem(s, item)) && Linked(TakeItem(s, item))
  {
  }

  /** A processed ticket keeps every discussion of its project quiet. */
  lemma {:induction false} ProcessedIsAlone(s: State, id: string)
    requires Linked(s) && OneOwner(s) && Processed(s, id)
    ensures id in s.tickets && s.tickets[id].task in s.tasks && Quiet(s.tasks[s.tickets[id].task])
  {
    var t := s.tickets[id].task;
    assert On(s, OfRun(id)) && ProjectOf(s, OfRun(id)) == ProjectOf(s, OfTalk(t));
    assert !On(s, OfTalk(t));
  }

  /** The late write of a record whose discussion was busy, while another marker of the project is on. */
  ghost predicate Revives(s: State, m: Move) {
    && m.WriteTaskBack? && s.worker.Restoring? && s.worker.run.task in s.tasks && !Quiet(s.worker.seen)
    && var discussion := OfTalk(s.worker.run.task);
    && exists n :: On(s, n) && ProjectOf(s, n) == ProjectOf(s, discussion) && n != discussion
  }

  lemma {:induction false} StartMoveKeeps(s: State, m: Move)
    requires Inv(s) && (m.ReadTask? || m.AddRun? || m.WriteTask?)
    ensures Inv(Work(s, m))
  {
    hide OneOwner;
    StartMoveMarks(s, m);
    NoNewMarkerKeeps(s, Work(s, m));
    if s.worker.Preparing? && Processed(s, s.worker.id) { ProcessedIsAlone(s, s.worker.id); }
  }

  lemma {:induction false} StartMoveMarks(s: State, m: Move)
    requires Linked(s) && WorkerFits(s) && (m.ReadTask? || m.AddRun? || m.WriteTask?)
    ensures NoNewMarker(s, Work(s, m))
  {
  }

  lemma {:induction false} DriveMoveKeeps(s: State, m: Move)
    requires Inv(s) && (m.ReadRun? || m.CommitResume? || m.Refresh? || m.Commit? || m.Reactivate? || m.Settle?)
    ensures Inv(Work(s, m))
  {
    hide OneOwner;
    DriveMoveMarks(s, m);
    NoNewMarkerKeeps(s, Work(s, m));
  }

  lemma {:induction false} DriveMoveMarks(s: State, m: Move)
    requires Linked(s) && WorkerFits(s) && (m.ReadRun? || m.CommitResume? || m.Refresh? || m.Commit? || m.Reactivate?
                                            || m.Settle?)
    ensures NoNewMarker(s, Work(s, m))
  {
  }

  lemma {:induction false} EndMoveKeeps(s: State, m: Move)
    requires Inv(s) && (m.Return? || m.Throw? || m.Leave?)
    ensures Inv(Work(s, m))
  {
    hide OneOwner;
    EndMoveMarks(s, m);
    NoNewMarkerKeeps(s, Work(s, m));
    hide NoNewMarker, On, ProjectOf;
  }

  lemma {:induction false} EndMoveMarks(s: State, m: Move)
    requires Linked(s) && WorkerFits(s) && (m.Return? || m.Throw? || m.Leave?)
    ensures NoNewMarker(s, Work(s, m))
  {
  }

  lemma {:induction false} CloseMoveKeeps(s: State, m: Move)
    requires Inv(s) && (m.SaveFailure? || m.StoreFailure? || m.Reply?)
    ensures Inv(Work(s, m))
  {
    hide OneOwner;
    CloseMoveMarks(s, m);
    NoNewMarkerKeeps(s, Work(s, m));
    hide NoNewMarker, On, ProjectOf;
  }

  lemma {:induction false} CloseMoveMarks(s: State, m: Move)
    requires Linked(s) && WorkerFits(s) && (m.SaveFailure? || m.StoreFailure? || m.Reply?)
    ensures NoNewMarker(s, Work(s, m))
  {
  }

  lemma {:induction false} ReplaceMoveKeeps(s: State, m: Move)
    requires Inv(s) && (m.ReadTaskAgain? || m.AddReplacement?)
    ensures Inv(Work(s, m))
  {
    hide OneOwner;
    ReplaceMoveMarks(s, m);
    NoNewMarkerKeeps(s, Work(s, m));
  }

  lemma {:induction false} ReplaceMoveMarks(s: State, m: Move)
    requires Linked(s) && WorkerFits(s) && (m.ReadTaskAgain? || m.AddReplacement?)
    ensures NoNewMarker(s, Work(s, m))
  {
  }

  lemma {:induction false} WriteBackKeeps(s: State)
    requires Inv(s) && !Revives(s, WriteTaskBack)
    ensures Inv(Work(s, WriteTaskBack))
  {
    hide OneOwner, On, ProjectOf;
    if s.worker.Restoring? { WriteBackIsExact(s); }
  }

  /** The late write breaks exclusion exactly when it brings back a busy discussion beside another busy marker. */
  lemma {:induction false} WriteBackIsExact(s: State)
    requires Inv(s) && s.worker.Restoring?
    ensures OneOwner(Work(s, WriteTaskBack)) <==> !Revives(s, WriteTaskBack)
  {
    var t, v := s.worker.run.task, Work(s, WriteTaskBack);
    assert forall m :: ProjectOf(v, m) == ProjectOf(s, m) && (m != OfTalk(t) ==> On(v, m) == On(s, m));
    assert On(v, OfTalk(t)) <==> !Quiet(s.worker.seen);
  }

  lemma {:induction false} WorkKeeps(s: State, m: Move)
    requires Inv(s) && !Revives(s, m)
    ensures Inv(Work(s, m))
  {
    hide Inv, Revives;
    match m {
      case Take => TakeMoveKeeps(s);
      case ReadTask => StartMoveKeeps(s, m);
      case AddRun => StartMoveKeeps(s, m);
      case WriteTask => StartMoveKeeps(s, m);
      case ReadTaskAgain => ReplaceMoveKeeps(s, m);
      case AddReplacement(_) => ReplaceMoveKeeps(s, m);
      case WriteTaskBack => WriteBackKeeps(s);
      case ReadRun => DriveMoveKeeps(s, m);
      case CommitResume => DriveMoveKeeps(s, m);
      case Refresh => DriveMoveKeeps(s, m);
      case Commit(_) => DriveMoveKeeps(s, m);
      case Reactivate => DriveMoveKeeps(s, m);
      case Settle => DriveMoveKeeps(s, m);
      case SaveFailure(_) => CloseMoveKeeps(s, m);
      case StoreFailure(_) => CloseMoveKeeps(s, m);
      case Reply(_) => CloseMoveKeeps(s, m);
      case _ => EndMoveKeeps(s, m);
    }
  }

  lemma {:induction false} TakeMoveKeeps(s: State)
    requires Inv(s)
    ensures Inv(Work(s, Take))
  {
    hide OneOwner;
    if s.worker.Free? && s.queue != [] {
      var v := s.(queue := s.queue[1..]);
      assert forall m :: On(v, m) == On(s, m) && ProjectOf(v, m) == ProjectOf(s, m);
      NoNewMarkerKeeps(s, v);
      hide TakeItem;
      TakeKeeps(v, s.queue[0]);
    }
  }

  lemma {:induction false} RestartKeeps(s: State)
    requires Linked(s)
    ensures Inv(Restart(s)) && forall m :: !On(Restart(s), m)
  {
  }

  // ---- Whole runs ----

  ghost predicate RevivesAt(s: State, step: Step) { step.Worked? && Revives(s, step.move) }

  /** Nowhere in these steps did the late write bring back a busy discussion beside another busy marker. */
  ghost predicate NothingRevived(s: State, steps: seq<Step>) {
    forall i :: 0 <= i < |steps| ==> !RevivesAt(Play(s, steps[..i]), steps[i])
  }

  /** At every point of these steps each project had one owner at most. */
  ghost predicate OneOwnerThroughout(s: State, steps: seq<Step>) {
    forall i :: 0 <= i <= |steps| ==> OneOwner(Play(s, steps[..i]))
  }

  lemma {:induction false} PrefixOf(steps: seq<Step>)
    requires steps != []
    ensures forall i :: 0 <= i < |steps| ==> steps[..|steps| - 1][..i] == steps[..i]
    ensures forall i :: 0 <= i < |steps| - 1 ==> steps[..|steps| - 1][i] == steps[i]
  {
  }

  lemma {:induction false} PlayKeeps(s: State, steps: seq<Step>)
    requires Inv(s) && NothingRevived(s, steps)
    ensures Inv(Play(s, steps)) && OneOwnerThroughout(s, steps)
    decreases |steps|
  {
    hide Inv, RevivesAt, Do, OneOwner;
    if steps == [] {
      InvFacts(s);
    } else {
      var n := |steps| - 1;
      PrefixOf(steps);
      assert forall i :: 0 <= i < n ==> !RevivesAt(Play(s, steps[..n][..i]), steps[..n][i]);
      PlayKeeps(s, steps[..n]);
      assert !RevivesAt(Play(s, steps[..n]), steps[n]);
      StepKeeps(Play(s, steps[..n]), steps[n]);
      InvFacts(Play(s, steps));
      forall i | 0 <= i <= |steps| ensures OneOwner(Play(s, steps[..i])) {
        if i <= n { assert steps[..n][..i] == steps[..i]; } else { assert steps[..i] == steps; }
      }
    }
  }

  lemma {:induction false} InvFacts(s: State)
    requires Inv(s)
    ensures Linked(s) && OneOwner(s) && (s.worker.Resuming? ==> Seen(s, s.worker.id, s.worker.run))
  {
  }

  /** If one owner held throughout, nothing was revived. */
  lemma {:induction false} ExclusionMeansNothingRevived(s: State, steps: seq<Step>)
    requires Inv(s) && OneOwnerThroughout(s, steps)
    ensures NothingRevived(s, steps)
    decreases |steps|
  {
    hide Inv, Do, OneOwner, Revives;
    if steps != [] {
      var n := |steps| - 1;
      PrefixOf(steps);
      forall i | 0 <= i <= n ensures OneOwner(Play(s, steps[..n][..i])) { assert steps[..n][..i] == steps[..i]; }
      ExclusionMeansNothingRevived(s, steps[..n]);
      PlayKeeps(s, steps[..n]);
      var before := Play(s, steps[..n]);
      assert steps[..|steps|] == steps;
      assert OneOwner(Do(before, steps[n]));
      RevivalBreaks(before, steps[n]);
      forall i | 0 <= i < |steps| ensures !RevivesAt(Play(s, steps[..i]), steps[i]) {
        if i < n { assert steps[..n][..i] == steps[..i] && steps[..n][i] == steps[i]; }
      }
    }
  }

  lemma {:induction false} RevivalBreaks(s: State, step: Step)
    requires Inv(s) && OneOwner(Do(s, step))
    ensures !RevivesAt(s, step)
  {
    hide Inv, OneOwner, Work;
    if step.Worked? && step.move.WriteTaskBack? && s.worker.Restoring? { WriteBackIsExact(s); }
  }

  /** Over every interleaving, all busy markers of a project name one run or discussion at every point, if and only if
      no step is the failure handler's write of a record whose discussion was busy beside another busy marker of the
      project. */
  lemma {:induction false} OneOwnerExactly(steps: seq<Step>)
    ensures OneOwnerThroughout(START, steps) <==> NothingRevived(START, steps)
  {
    hide OneOwnerThroughout, NothingRevived;
    StartFits();
    if NothingRevived(START, steps) { PlayKeeps(START, steps); }
    if OneOwnerThroughout(START, steps) { ExclusionMeansNothingRevived(START, steps); }
  }

  /** A move that stores a known run again leaves the worker driving it or on its way out. */
  lemma {:induction false} StoringMoves(s: State, m: Move, id: string)
    requires id in s.runs && id in Work(s, m).runs && Work(s, m).runs[id].version != s.runs[id].version
    ensures (m.CommitResume? || m.Commit? || m.Settle? || m.StoreFailure?)
            && (Work(s, m).worker.Driving? || Work(s, m).worker.Leaving?)
  {
    hide MayCommit, MayStart;
    if m.Take? { hide TakeItem; TakeLeavesRuns(s); }
  }

  lemma {:induction false} TakeLeavesRuns(s: State)
    ensures Work(s, Take).runs == s.runs
  {
  }

  lemma {:induction false} LostStopKeeps(s: State, id: string, m: Move)
    requires Inv(s)
    ensures Inv(LoseStop(s, id, m))
  {
    hide Inv, Work, MayCancel;
    var v := Work(s, m);
    if id in s.runs && id in v.runs && v.runs[id].version != s.runs[id].version && id in v.tickets {
      StoringMoves(s, m, id);
      assert !Revives(s, m);
      WorkKeeps(s, m);
      DroppingKeeps(v, id);
    }
  }

  lemma {:induction false} DroppingKeeps(s: State, id: string)
    requires Inv(s) && (s.worker.Driving? || s.worker.Leaving?) && id in s.tickets
    ensures Inv(WithTicket(s, id, Dropped))
  {
    hide OneOwner;
    DroppingMarks(s, id);
    NoNewMarkerKeeps(s, WithTicket(s, id, Dropped));
  }

  lemma {:induction false} DroppingMarks(s: State, id: string)
    requires id in s.tickets
    ensures NoNewMarker(s, WithTicket(s, id, Dropped))
  {
  }

  lemma {:induction false} StepKeeps(s: State, step: Step)
    requires Inv(s) && !RevivesAt(s, step)
    ensures Inv(Do(s, step))
  {
    hide Inv, Revives, Handle, Work, Restart, LoseStop;
    match step {
      case Requested(r) => HandleKeeps(s, r);
      case Worked(m) => WorkKeeps(s, m);
      case StopLost(id, m) => LostStopKeeps(s, id, m);
      case Restarted => InvFacts(s); RestartKeeps(s);
    }
  }

  lemma {:induction false} StartFits()
    ensures Inv(START)
  {
  }

  // ---- Stale resumes ----

  ghost function HandleAll(s: State, requests: seq<Request>): State
    decreases |requests|
  {
    if requests == [] then s else HandleAll(Handle(s, requests[0]), requests[1..])
  }

  lemma {:induction false} RequestsMoveOn(s: State, requests: seq<Request>)
    requires Linked(s)
    ensures Linked(HandleAll(s, requests)) && HandleAll(s, requests).worker == s.worker
            && RunsMoveOn(s, HandleAll(s, requests))
    decreases |requests|
  {
    hide Linked, Handle;
    if requests != [] {
      HandleSpares(s, requests[0]);
      RequestsMoveOn(Handle(s, requests[0]), requests[1..]);
    }
  }

  /** A run cancelled while its resume was being prepared is not resumed, whatever else is requested in between. */
  lemma {:induction false} StaleResumeIsRefused(s: State, requests: seq<Request>)
    requires Inv(s) && s.worker.Resuming? && MayCancel(s, s.worker.id)
    ensures var v := HandleAll(Handle(s, RequestStop(s.worker.id, true)), requests);
            Work(v, CommitResume) == v
  {
    hide OneOwner, Inv, WorkerFits;
    InvFacts(s);
    StopSpares(s, s.worker.id, true);
    RequestsMoveOn(Handle(s, RequestStop(s.worker.id, true)), requests);
  }
}
