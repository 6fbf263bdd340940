/** Every request for work is taken at most once, and none is forgotten while it stands. */
module QueueMarks {
  import opened Contracts
  import opened Queue
  import opened QueueTheorems

  ghost predicate Marked(s: State, m: Marker) {
    match m
    case OfRun(id) => id in s.tickets && s.tickets[id].state == Queued
    case OfTalk(task) => task in s.tasks && s.tasks[task].talk == Some(Asked)
  }

  predicate For(item: Item, m: Marker) {
    match m
    case OfRun(id) => item.Execute? && item.id == id
    case OfTalk(task) => item == Discuss(task)
  }

  /** The mark has an item in the queue, and was asked for more often than it was taken. */
  ghost predicate Stands(s: State, m: Marker) {
    s.taken[m] < s.asked[m] && exists i :: 0 <= i < |s.queue| && For(s.queue[i], m)
  }

  /** The task the worker read and will write, if it is on its way to do so. */
  function Held(s: State): Option<TaskRec> {
    match s.worker
    case Starting(_, seen) => Some(seen)
    case Added(_, seen) => Some(seen)
    case Replacing(_, seen) => Some(seen)
    case Restoring(_, seen, _) => Some(seen)
    case _ => None
  }

  ghost predicate MarksStand(s: State) {
    && (forall m :: Marked(s, m) ==> Stands(s, m))
    && (forall m :: s.taken[m] <= s.asked[m])
    && (Held(s).Some? && Held(s).value.talk == Some(Asked) && s.worker.id in s.tickets
        ==> Stands(s, OfTalk(s.tickets[s.worker.id].task)))
  }

  // ---- Requests ----

  /** More is asked and nothing is taken: what stood still stands. */
  ghost predicate OnlyAsks(s: State, v: State) {
    && s.queue <= v.queue && s.asked <= v.asked && v.taken == s.taken && v.worker == s.worker
    && (forall id <- s.tickets :: id in v.tickets && v.tickets[id].task == s.tickets[id].task)
  }

  lemma {:induction false} StandsStill(s: State, v: State, m: Marker)
    requires s.queue <= v.queue && s.asked <= v.asked && v.taken == s.taken && Stands(s, m)
    ensures Stands(v, m)
  {
    var i :| 0 <= i < |s.queue| && For(s.queue[i], m);
    assert v.queue[i] == s.queue[i];
  }

  /** A new mark comes with a new item and a new count. */
  ghost predicate MarksAsked(s: State, v: State) {
    forall m :: Marked(v, m) && !Marked(s, m) ==>
      v.queue != [] && For(v.queue[|v.queue| - 1], m) && s.asked[m] < v.asked[m]
  }

  lemma {:induction false} AskingKeeps(s: State, v: State)
    requires MarksStand(s) && OnlyAsks(s, v) && MarksAsked(s, v) && (Held(s).Some? ==> s.worker.id in s.tickets)
    ensures MarksStand(v)
  {
    hide For;
    forall m | Stands(s, m) ensures Stands(v, m) { StandsStill(s, v, m); }
  }

  lemma {:induction false} HandleAsks(s: State, r: Request)
    requires Linked(s)
    ensures OnlyAsks(s, Handle(s, r)) && MarksAsked(s, Handle(s, r))
  {
    hide ProjectBusy;
    match r {
      case RequestRun(task, id, ok) => RunAsks(s, task, id, ok);
      case RequestResume(id, ok, rewind) => ResumeAsks(s, id, ok, rewind);
      case RequestDiscussion(task, ok) => TalkAsks(s, task, ok);
      case _ => OthersAsk(s, r);
    }
  }

  lemma {:induction false} RunAsks(s: State, task: string, id: string, ok: bool)
    ensures OnlyAsks(s, Handle(s, RequestRun(task, id, ok))) && MarksAsked(s, Handle(s, RequestRun(task, id, ok)))
  {
    hide ProjectBusy, Ended;
  }

  lemma {:induction false} ResumeAsks(s: State, id: string, ok: bool, rewind: bool)
    ensures OnlyAsks(s, Handle(s, RequestResume(id, ok, rewind)))
            && MarksAsked(s, Handle(s, RequestResume(id, ok, rewind)))
  {
    hide ProjectBusy, Ended;
  }

  lemma {:induction false} TalkAsks(s: State, task: string, ok: bool)
    ensures OnlyAsks(s, Handle(s, RequestDiscussion(task, ok))) && MarksAsked(s, Handle(s, RequestDiscussion(task, ok)))
  {
    hide ProjectBusy;
  }

  lemma {:induction false} OthersAsk(s: State, r: Request)
    requires !r.RequestRun? && !r.RequestResume? && !r.RequestDiscussion?
    ensures OnlyAsks(s, Handle(s, r)) && MarksAsked(s, Handle(s, r))
  {
    hide ProjectBusy;
  }

  // ---- The worker ----

  lemma {:induction false} TakingKeeps(s: State)
    requires MarksStand(s) && s.worker.Free? && s.queue != []
    ensures MarksStand(TakeItem(s.(queue := s.queue[1..]), s.queue[0]))
  {
    hide For;
    var item, v := s.queue[0], TakeItem(s.(queue := s.queue[1..]), s.queue[0]);
    TakeFacts(s);
    forall m | Marked(v, m) ensures Stands(v, m) {
      assert Marked(s.(queue := s.queue[1..]), m) == Marked(s, m);
      var i :| 0 <= i < |s.queue| && For(s.queue[i], m);
      assert v.queue[i - 1] == s.queue[i];
    }
  }

  ghost predicate Open(s: State) {
    (forall m :: s.taken[m] <= s.asked[m]) && forall m :: Marked(s, m) ==> s.taken[m] < s.asked[m]
  }

  /** Taking answers the mark of its own item and no other. */
  ghost predicate Answers(s: State, v: State, item: Item) {
    && v.queue == s.queue && v.asked == s.asked && Held(v).None?
    && (forall m :: Marked(v, m) ==> Marked(s, m) && !For(item, m) && v.taken[m] == s.taken[m])
    && (forall m :: v.taken[m] <= v.asked[m])
  }

  lemma {:induction false} TakeFacts(s: State)
    requires MarksStand(s) && s.worker.Free? && s.queue != []
    ensures Answers(s.(queue := s.queue[1..]), TakeItem(s.(queue := s.queue[1..]), s.queue[0]), s.queue[0])
  {
    hide Stands, Answers, TakeItem, Marked;
    var popped := s.(queue := s.queue[1..]);
    MarksAreOpen(s);
    match s.queue[0] {
      case Execute(id, resume) => ExecuteAnswers(popped, id, resume);
      case Decide(id, approve) => DecideAnswers(popped, id, approve);
      case Discuss(task) => DiscussAnswers(popped, task);
    }
  }

  lemma {:induction false} MarksAreOpen(s: State)
    requires MarksStand(s)
    ensures s.queue != [] ==> Open(s.(queue := s.queue[1..]))
  {
    hide For;
    if s.queue != [] {
      assert forall m :: Marked(s.(queue := s.queue[1..]), m) == Marked(s, m);
    }
  }

  lemma {:induction false} ExecuteAnswers(s: State, id: string, resume: bool)
    requires Open(s) && s.worker.Free?
    ensures Answers(s, TakeItem(s, Execute(id, resume)), Execute(id, resume))
  {
    assert Marked(s, OfRun(id)) ==> s.taken[OfRun(id)] < s.asked[OfRun(id)];
  }

  lemma {:induction false} DecideAnswers(s: State, id: string, approve: bool)
    requires Open(s) && s.worker.Free?
    ensures Answers(s, TakeItem(s, Decide(id, approve)), Decide(id, approve))
  {
  }

  lemma {:induction false} DiscussAnswers(s: State, task: string)
    requires Open(s) && s.worker.Free?
    ensures Answers(s, TakeItem(s, Discuss(task)), Discuss(task))
  {
    assert Marked(s, OfTalk(task)) ==> s.taken[OfTalk(task)] < s.asked[OfTalk(task)];
  }

  /** Any other move leaves the queue and the counts alone, marks nothing but what the worker held, and holds nothing
      but what stood. */
  ghost predicate MarksLeft(s: State, v: State) {
    && v.queue == s.queue && v.asked == s.asked && v.taken == s.taken
    && (forall id <- s.tickets :: id in v.tickets && v.tickets[id].task == s.tickets[id].task)
    && (forall m :: Marked(v, m) ==>
          (Marked(s, m)
           || (Held(s).Some? && s.worker.id in s.tickets && Held(s).value.talk == Some(Asked)
               && m == OfTalk(s.tickets[s.worker.id].task))))
    && (Held(v).Some? && v.worker.id in v.tickets && Held(v).value.talk == Some(Asked) ==>
          ((Held(s).Some? && s.worker.id == v.worker.id && Held(s).value == Held(v).value && s.worker.id in s.tickets)
           || Marked(s, OfTalk(v.tickets[v.worker.id].task))))
    && (Held(v).Some? ==> v.worker.id in v.tickets)
  }

  lemma {:induction false} LeavingKeeps(s: State, v: State)
    requires MarksStand(s) && MarksLeft(s, v)
    ensures MarksStand(v)
  {
    hide For;
    assert forall m :: Stands(v, m) <==> Stands(s, m);
  }

  lemma {:induction false} WorkLeaves(s: State, m: Move)
    requires Linked(s) && !m.Take? && (Held(s).Some? ==> s.worker.id in s.tickets)
    requires Tracks(s)
    ensures MarksLeft(s, Work(s, m))
  {
    hide MarksLeft;
    match m {
      case Commit(_) => CommitLeaves(s, m);
      case Throw => ThrowLeaves(s);
      case Return => ReturnLeaves(s);
      case WriteTask => WriteLeaves(s, m);
      case WriteTaskBack => WriteLeaves(s, m);
      case AddRun => WriteLeaves(s, m);
      case AddReplacement(_) => WriteLeaves(s, m);
      case ReadTask => ReadLeaves(s, m);
      case ReadTaskAgain => ReadLeaves(s, m);
      case SaveFailure(_) => ClosingLeaves(s, m);
      case StoreFailure(_) => ClosingLeaves(s, m);
      case Reply(_) => EndingLeaves(s, m);
      case Leave => EndingLeaves(s, m);
      case _ => OthersLeave(s, m);
    }
  }

  lemma {:induction false} CommitLeaves(s: State, m: Move)
    requires Linked(s) && m.Commit? && (Held(s).Some? ==> s.worker.id in s.tickets)
    ensures MarksLeft(s, Work(s, m))
  {
    hide MayCommit;
  }

  lemma {:induction false} ThrowLeaves(s: State)
    requires Held(s).Some? ==> s.worker.id in s.tickets
    ensures MarksLeft(s, Work(s, Throw))
  {
  }

  lemma {:induction false} ReturnLeaves(s: State)
    requires Held(s).Some? ==> s.worker.id in s.tickets
    ensures MarksLeft(s, Work(s, Return))
  {
  }

  lemma {:induction false} WriteLeaves(s: State, m: Move)
    requires Linked(s) && (m.WriteTask? || m.WriteTaskBack? || m.AddRun? || m.AddReplacement?)
             && (Held(s).Some? ==> s.worker.id in s.tickets)
    requires Tracks(s)
    ensures MarksLeft(s, Work(s, m))
  {
  }

  lemma {:induction false} ReadLeaves(s: State, m: Move)
    requires Linked(s) && (m.ReadTask? || m.ReadTaskAgain?) && (Held(s).Some? ==> s.worker.id in s.tickets)
    ensures MarksLeft(s, Work(s, m))
  {
    hide MayStart;
    if s.worker.Preparing? { StartsKnown(s, s.worker.id); }
  }

  lemma {:induction false} StartsKnown(s: State, id: string)
    ensures MayStart(s, id) ==> id in s.tickets && s.tickets[id].task in s.tasks
  {
  }

  lemma {:induction false} OthersLeave(s: State, m: Move)
    requires Linked(s) && (Held(s).Some? ==> s.worker.id in s.tickets)
    requires m.ReadRun? || m.CommitResume? || m.Refresh? || m.Reactivate? || m.Settle?
    ensures MarksLeft(s, Work(s, m))
  {
  }

  lemma {:induction false} ClosingLeaves(s: State, m: Move)
    requires Linked(s) && (Held(s).Some? ==> s.worker.id in s.tickets)
    requires m.SaveFailure? || m.StoreFailure?
    ensures MarksLeft(s, Work(s, m))
  {
  }

  lemma {:induction false} EndingLeaves(s: State, m: Move)
    requires Linked(s) && (Held(s).Some? ==> s.worker.id in s.tickets)
    requires m.Reply? || m.Leave?
    ensures MarksLeft(s, Work(s, m))
  {
  }

  // ---- Whole runs ----

  /** What the worker has read was once stored, whatever else happens. */
  ghost predicate Tracks(s: State) {
    match s.worker
    case Resuming(id, run) => Seen(s, id, run)
    case Driving(id, run, _) => Seen(s, id, run)
    case Settling(id, run, _) => Seen(s, id, run)
    case Failing(id, found) => found.Some? ==> Seen(s, id, found.value)
    case Reporting(id, found) => found.Some? ==> Seen(s, id, found.value)
    case Restoring(id, _, run) => id in s.tickets && Seen(s, id, run)
    case _ => Held(s).Some? ==> s.worker.id in s.tickets
  }

  ghost predicate Tracked(s: State) { Linked(s) && Tracks(s) }

  lemma {:induction false} HandleTracks(s: State, r: Request)
    requires Tracked(s)
    ensures Tracked(Handle(s, r))
  {
    hide Handle, Linked;
    HandleSpares(s, r);
  }

  lemma {:induction false} TakeTracks(s: State, item: Item)
    requires Tracked(s) && s.worker.Free?
    ensures Tracked(TakeItem(s, item))
  {
  }

  lemma {:induction false} DriveTracks(s: State, m: Move)
    requires Tracked(s) && (m.CommitResume? || m.Refresh? || m.Commit? || m.Reactivate? || m.Settle? || m.ReadRun?)
    ensures Tracked(Work(s, m))
  {
    hide MayCommit;
  }

  lemma {:induction false} TaskTracks(s: State, m: Move)
    requires Tracked(s) && (m.ReadTask? || m.AddRun? || m.WriteTask? || m.ReadTaskAgain? || m.AddReplacement?
                            || m.WriteTaskBack?)
    ensures Tracked(Work(s, m))
  {
  }

  lemma {:induction false} EndTracks(s: State, m: Move)
    requires Tracked(s) && (m.Throw? || m.Leave?)
    ensures Tracked(Work(s, m))
  {
  }

  lemma {:induction false} ReturnTracks(s: State)
    requires Tracked(s)
    ensures Tracked(Work(s, Return))
  {
  }

  lemma {:induction false} CloseTracks(s: State, m: Move)
    requires Tracked(s) && (m.SaveFailure? || m.StoreFailure? || m.Reply?)
    ensures Tracked(Work(s, m))
  {
  }

  lemma {:induction false} WorkTracks(s: State, m: Move)
    requires Tracked(s)
    ensures Tracked(Work(s, m))
  {
    hide Tracked, TakeItem;
    match m {
      case Take =>
        if s.worker.Free? && s.queue != [] { PoppedTracks(s); TakeTracks(s.(queue := s.queue[1..]), s.queue[0]); }
      case ReadRun => DriveTracks(s, m);
      case CommitResume => DriveTracks(s, m);
      case Refresh => DriveTracks(s, m);
      case Commit(_) => DriveTracks(s, m);
      case Reactivate => DriveTracks(s, m);
      case Settle => DriveTracks(s, m);
      case ReadTask => TaskTracks(s, m);
      case AddRun => TaskTracks(s, m);
      case WriteTask => TaskTracks(s, m);
      case ReadTaskAgain => TaskTracks(s, m);
      case AddReplacement(_) => TaskTracks(s, m);
      case WriteTaskBack => TaskTracks(s, m);
      case SaveFailure(_) => CloseTracks(s, m);
      case StoreFailure(_) => CloseTracks(s, m);
      case Reply(_) => CloseTracks(s, m);
      case Return => ReturnTracks(s);
      case _ => EndTracks(s, m);
    }
  }

  lemma {:induction false} PoppedTracks(s: State)
    requires Tracked(s) && s.queue != []
    ensures Tracked(s.(queue := s.queue[1..]))
  {
  }

  ghost predicate Kept(s: State) { Tracked(s) && MarksStand(s) }

  lemma {:induction false} WorkKeepsMarks(s: State, m: Move)
    requires Kept(s)
    ensures Kept(Work(s, m))
  {
    hide MarksStand, Work, MarksLeft;
    TrackedFacts(s);
    WorkTracks(s, m);
    if m.Take? { TakeMoveKeepsMarks(s); } else { WorkLeaves(s, m); LeavingKeeps(s, Work(s, m)); }
  }

  lemma {:induction false} LostStopKeepsMarks(s: State, id: string, m: Move)
    requires Kept(s)
    ensures Kept(LoseStop(s, id, m))
  {
    hide Kept, Work, MayCancel;
    var v := Work(s, m);
    if id in s.runs && id in v.runs && v.runs[id].version != s.runs[id].version && id in v.tickets {
      StoringMoves(s, m, id);
      WorkKeepsMarks(s, m);
      DroppingKeepsMarks(v, id);
    }
  }

  lemma {:induction false} DroppingKeepsMarks(s: State, id: string)
    requires Kept(s) && (s.worker.Driving? || s.worker.Leaving?) && id in s.tickets
    ensures Kept(WithTicket(s, id, Dropped))
  {
    hide For;
    var v := WithTicket(s, id, Dropped);
    assert forall m :: Stands(v, m) <==> Stands(s, m);
    assert forall m :: Marked(v, m) ==> Marked(s, m);
  }

  lemma {:induction false} StepKeepsMarks(s: State, step: Step)
    requires Kept(s)
    ensures Kept(Do(s, step))
  {
    hide MarksStand, Handle, Work, Restart, MarksAsked, OnlyAsks, LoseStop;
    TrackedFacts(s);
    match step {
      case Requested(r) =>
        HandleTracks(s, r);
        HandleAsks(s, r);
        AskingKeeps(s, Handle(s, r));
      case Worked(m) => WorkKeepsMarks(s, m);
      case StopLost(id, m) => LostStopKeepsMarks(s, id, m);
      case Restarted => RestartKeepsMarks(s);
    }
  }

  lemma {:induction false} TrackedFacts(s: State)
    requires Tracked(s)
    ensures Linked(s) && Tracks(s) && (Held(s).Some? ==> s.worker.id in s.tickets)
  {
  }

  lemma {:induction false} TakeMoveKeepsMarks(s: State)
    requires MarksStand(s)
    ensures MarksStand(Work(s, Take))
  {
    hide TakeItem, MarksStand;
    if s.worker.Free? && s.queue != [] { TakingKeeps(s); }
  }

  lemma {:induction false} RestartKeepsMarks(s: State)
    requires Kept(s)
    ensures Kept(Restart(s))
  {
    hide Stands;
  }

  lemma {:induction false} PlayKeepsMarks(steps: seq<Step>)
    ensures Kept(Play(START, steps))
    decreases |steps|
  {
    hide Kept, Do;
    if steps == [] {
      StartIsKept();
    } else {
      PlayKeepsMarks(steps[..|steps| - 1]);
      StepKeepsMarks(Play(START, steps[..|steps| - 1]), steps[|steps| - 1]);
    }
  }

  lemma {:induction false} StartIsKept()
    ensures Kept(START)
  {
  }

  /** Whatever happens, a mark is taken at most as often as it was asked for, and while it stands it has an item in the
      queue and an asking that was not taken yet. */
  lemma {:induction false} EachAskingIsTakenOnce(steps: seq<Step>, m: Marker)
    ensures var s := Play(START, steps);
            && s.taken[m] <= s.asked[m]
            && (Marked(s, m) ==> s.taken[m] < s.asked[m] && exists i :: 0 <= i < |s.queue| && For(s.queue[i], m))
  {
    hide Play, Tracked, For;
    PlayKeepsMarks(steps);
  }

  // ---- Without discussions ----

  /** No task has a discussion, and the worker has read none that has. */
  ghost predicate Plain(s: State) {
    (forall t <- s.tasks :: s.tasks[t].talk.None?) && (Held(s).Some? ==> Held(s).value.talk.None?) && !s.worker.Talking?
  }

  predicate AddsDiscussion(step: Step) { step.Requested? && step.request.CreateTask? && step.request.rec.talk.Some? }

  lemma {:induction false} PlainRequest(s: State, r: Request)
    requires Plain(s) && !AddsDiscussion(Requested(r))
    ensures Plain(Handle(s, r))
  {
    hide ProjectBusy, Ended;
  }

  lemma {:induction false} PlainTake(s: State, item: Item)
    requires Plain(s)
    ensures Plain(TakeItem(s, item))
  {
  }

  lemma {:induction false} PlainTaskMove(s: State, m: Move)
    requires Plain(s) && (m.ReadTask? || m.WriteTask? || m.ReadTaskAgain? || m.WriteTaskBack? || m.Reactivate?
                          || m.Reply?)
    ensures Plain(Work(s, m))
  {
  }

  lemma {:induction false} PlainRunMove(s: State, m: Move)
    requires Plain(s) && (m.AddRun? || m.ReadRun? || m.CommitResume? || m.Refresh? || m.Commit? || m.Settle?
                          || m.AddReplacement?)
    ensures Plain(Work(s, m))
  {
    hide MayCommit;
  }

  lemma {:induction false} PlainEndMove(s: State, m: Move)
    requires Plain(s) && (m.Return? || m.Throw? || m.Leave?)
    ensures Plain(Work(s, m))
  {
  }

  lemma {:induction false} PlainCloseMove(s: State, m: Move)
    requires Plain(s) && (m.SaveFailure? || m.StoreFailure?)
    ensures Plain(Work(s, m))
  {
  }

  lemma {:induction false} PlainTakeMove(s: State)
    requires Plain(s)
    ensures Plain(Work(s, Take))
  {
    hide TakeItem;
    if s.queue != [] { PlainTake(s.(queue := s.queue[1..]), s.queue[0]); }
  }

  lemma {:induction false} PlainMove(s: State, m: Move)
    requires Plain(s)
    ensures Plain(Work(s, m))
  {
    hide Plain, Work;
    if m.Take? {
      PlainTakeMove(s);
    } else if m.ReadTask? || m.WriteTask? || m.ReadTaskAgain? || m.WriteTaskBack? || m.Reactivate? || m.Reply? {
      PlainTaskMove(s, m);
    } else if m.SaveFailure? || m.StoreFailure? {
      PlainCloseMove(s, m);
    } else if m.Return? || m.Throw? || m.Leave? {
      PlainEndMove(s, m);
    } else {
      PlainRunMove(s, m);
    }
  }

  lemma {:induction false} PlainStep(s: State, step: Step)
    requires Plain(s) && !AddsDiscussion(step)
    ensures Plain(Do(s, step)) && !RevivesAt(s, step)
  {
    hide Handle, Work, MayCancel;
    match step {
      case Requested(r) => PlainRequest(s, r);
      case Worked(m) => PlainMove(s, m);
      case StopLost(id, m) => PlainMove(s, m);
      case Restarted =>
    }
  }

  lemma {:induction false} PlainPlay(steps: seq<Step>)
    requires forall i :: 0 <= i < |steps| ==> !AddsDiscussion(steps[i])
    ensures Plain(Play(START, steps)) && NothingRevived(START, steps)
    decreases |steps|
  {
    hide Do, Plain, RevivesAt, AddsDiscussion;
    if steps == [] {
      PlainStart();
    } else {
      var n := |steps| - 1;
      PlainPlay(steps[..n]);
      PlainStep(Play(START, steps[..n]), steps[n]);
      forall i | 0 <= i < |steps| ensures !RevivesAt(Play(START, steps[..i]), steps[i]) {
        if i < n { assert steps[..n][..i] == steps[..i] && steps[..n][i] == steps[i]; }
      }
    }
  }

  lemma {:induction false} PlainStart()
    ensures Plain(START)
  {
  }

  /** Without discussion tasks one owner per project holds over every interleaving, with no further condition. */
  lemma {:induction false} PlainTasksHaveOneOwner(steps: seq<Step>)
    requires forall i :: 0 <= i < |steps| ==> !AddsDiscussion(steps[i])
    ensures OneOwner(Play(START, steps))
  {
    hide AddsDiscussion, Play, Plain, NothingRevived;
    PlainPlay(steps);
    StartFits();
    PlayKeeps(START, steps);
    assert steps[..|steps|] == steps;
  }
}
