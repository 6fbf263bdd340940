/** One interleaving in which a stale task record brings back a stopped discussion beside another task's run. */
module QueueTrace {
  import opened Contracts
  import opened Queue
  import opened QueueTheorems

  /** The stores hold a discussed task t and a plain task u of one project, and this much else. */
  ghost predicate Shape(s: State, life: TaskLifecycle, talk: Talk, tickets: map<string, Ticket>, runs: map<string, Run>,
                        executing: set<string>, queue: seq<Item>, worker: Worker) {
    && s.tasks == map["t" := TaskRec("p", life, Some(talk)), "u" := TaskRec("p", Draft, None)]
    && s.tickets == tickets && s.runs == runs && s.executing == executing && s.queue == queue && s.worker == worker
  }

  const DISCUSSING: TaskLifecycle := TaskLifecycle.Discussing
  const READY: TaskLifecycle := TaskLifecycle.Ready

  lemma {:induction false} Opened() returns (v: State)
    ensures v == Play(START, OpenSteps()) && Shape(v, DISCUSSING, Idle, map[], map[], {}, [], Free)
  {
    var one := Do(START, OpenSteps()[0]);
    v := Do(one, OpenSteps()[1]);
    Append([], OpenSteps()[0]);
    Append([OpenSteps()[0]], OpenSteps()[1]);
    assert [] + [OpenSteps()[0]] == [OpenSteps()[0]] && [OpenSteps()[0]] + [OpenSteps()[1]] == OpenSteps();
    assert v.tasks == map["t" := TaskRec("p", DISCUSSING, Some(Idle)), "u" := TaskRec("p", Draft, None)];
  }

  lemma {:induction false} NotBusy(s: State, life: TaskLifecycle, talk: Talk, tickets: map<string, Ticket>,
                                   executing: set<string>, queue: seq<Item>, worker: Worker)
    requires Shape(s, life, talk, tickets, map[], executing, queue, worker) && talk !in {Asked, Replying}
    requires forall id <- tickets :: tickets[id].state == Finished
    ensures !ProjectBusy(s, "p")
  {
  }

  /** A discussion is asked for, whatever the worker is doing. */
  lemma {:induction false} Asking(s: State, talk: Talk, tickets: map<string, Ticket>, executing: set<string>,
                                  worker: Worker)
    requires Shape(s, DISCUSSING, talk, tickets, map[], executing, [], worker) && talk !in {Asked, Replying}
    requires forall id <- tickets :: tickets[id].state == Finished
    ensures Shape(Do(s, Requested(RequestDiscussion("t", true))), DISCUSSING, Asked, tickets, map[], executing,
                  [Discuss("t")],
                  worker)
  {
    NotBusy(s, DISCUSSING, talk, tickets, executing, [], worker);
    hide ProjectBusy;
  }

  lemma {:induction false} Listened(s: State)
    requires Shape(s, DISCUSSING, Asked, map[], map[], {}, [Discuss("t")], Free)
    ensures Shape(Do(s, Worked(Take)), DISCUSSING, Replying, map[], map[], {"t"}, [], Talking("t"))
  {
    hide Handle, Restart;
  }

  lemma {:induction false} Replied(s: State)
    requires Shape(s, DISCUSSING, Replying, map[], map[], {"t"}, [], Talking("t"))
    ensures Shape(Do(Do(s, Worked(Reply(true))), Worked(Leave)), DISCUSSING, Idle, map[], map[], {}, [], Free)
  {
    hide Work, Shape;
    Answered(s);
    Left(Do(s, Worked(Reply(true))));
  }

  lemma {:induction false} Answered(s: State)
    requires Shape(s, DISCUSSING, Replying, map[], map[], {"t"}, [], Talking("t"))
    ensures Shape(Do(s, Worked(Reply(true))), DISCUSSING, Idle, map[], map[], {"t"}, [], Leaving("t"))
  {
    hide Handle, Restart, TakeItem;
  }

  lemma {:induction false} Left(s: State)
    requires Shape(s, DISCUSSING, Idle, map[], map[], {"t"}, [], Leaving("t"))
    ensures Shape(Do(s, Worked(Leave)), DISCUSSING, Idle, map[], map[], {}, [], Free)
  {
    hide Handle, Restart, TakeItem;
  }

  lemma {:induction false} Readied(s: State)
    requires Shape(s, DISCUSSING, Idle, map[], map[], {}, [], Free)
    ensures Shape(Do(s, Requested(FreezeReady("t", true))), READY, Idle, map[], map[], {}, [], Free)
  {
    NotBusy(s, DISCUSSING, Idle, map[], {}, [], Free);
    hide ProjectBusy;
  }

  lemma {:induction false} QueuedRun(s: State)
    requires Shape(s, READY, Idle, map[], map[], {}, [], Free)
    ensures Shape(Do(s, Requested(RequestRun("t", "r", true))), READY, Idle, map["r" := Ticket("t", Queued)], map[], {},
                  [Execute("r", false)], Free)
  {
    NotBusy(s, READY, Idle, map[], {}, [], Free);
    hide ProjectBusy;
  }

  lemma {:induction false} Prepared(s: State)
    requires Shape(s, READY, Idle, map["r" := Ticket("t", Queued)], map[], {}, [Execute("r", false)], Free)
    ensures Shape(Do(s, Worked(Take)), READY, Idle, map["r" := Ticket("t", Processing)], map[], {"r"}, [],
                  Preparing("r", false))
  {
    hide Handle, Restart;
  }

  lemma {:induction false} Failed(s: State)
    requires Shape(s, READY, Idle, map["r" := Ticket("t", Processing)], map[], {"r"}, [], Preparing("r", false))
    ensures Shape(Do(Do(s, Worked(Throw)), Worked(SaveFailure(false))), READY, Idle, map["r" := Ticket("t", Finished)],
                  map[], {"r"}, [],
                  Reporting("r", None))
  {
    hide Handle, Restart, TakeItem;
    assert Shape(Do(s, Worked(Throw)), READY, Idle, map["r" := Ticket("t", Processing)], map[], {"r"}, [],
                 Failing("r", None));
  }

  lemma {:induction false} Returned(s: State)
    requires Shape(s, READY, Idle, map["r" := Ticket("t", Finished)], map[], {"r"}, [], Reporting("r", None))
    ensures Shape(Do(s, Requested(ReturnToDiscussion("t", true))), DISCUSSING, NeedsTalk,
                  map["r" := Ticket("t", Finished)],
                  map[], {"r"}, [],
                  Reporting("r", None))
  {
    NotBusy(s, READY, Idle, map["r" := Ticket("t", Finished)], {"r"}, [], Reporting("r", None));
    hide ProjectBusy;
  }

  lemma {:induction false} ReadStale(s: State)
    requires Shape(s, DISCUSSING, Asked, map["r" := Ticket("t", Finished)], map[], {"r"}, [Discuss("t")],
                   Reporting("r", None))
    ensures Shape(Do(Do(s, Worked(ReadTaskAgain)), Requested(StopDiscussion("t"))), DISCUSSING, Stopped,
                  map["r" := Ticket("t", Finished)], map[], {"r"},
                  [Discuss("t")], Replacing("r", TaskRec("p", DISCUSSING, Some(Asked))))
  {
    hide ProjectBusy;
    var read := Do(s, Worked(ReadTaskAgain));
    assert Shape(read, DISCUSSING, Asked, map["r" := Ticket("t", Finished)], map[], {"r"}, [Discuss("t")],
                 Replacing("r", TaskRec("p", DISCUSSING, Some(Asked))));
  }

  const TICKETS: map<string, Ticket> := map["r" := Ticket("t", Finished), "q" := Ticket("u", Queued)]

  lemma {:induction false} Taken(s: State)
    requires Shape(s, DISCUSSING, Stopped, map["r" := Ticket("t", Finished)], map[], {"r"}, [Discuss("t")],
                   Replacing("r", TaskRec("p", DISCUSSING, Some(Asked))))
    ensures Shape(Do(s, Requested(RequestRun("u", "q", true))), DISCUSSING, Stopped, TICKETS, map[], {"r"},
                  [Discuss("t"), Execute("q", false)],
                  Replacing("r", TaskRec("p", DISCUSSING, Some(Asked))))
  {
    NotBusy(s, DISCUSSING, Stopped, map["r" := Ticket("t", Finished)], {"r"}, [Discuss("t")],
            Replacing("r", TaskRec("p", DISCUSSING, Some(Asked))));
    hide ProjectBusy;
  }

  lemma {:induction false} WrittenBack(s: State)
    requires Shape(s, DISCUSSING, Stopped, TICKETS, map[], {"r"}, [Discuss("t"), Execute("q", false)],
                   Replacing("r", TaskRec("p", DISCUSSING, Some(Asked))))
    ensures var v := Do(Do(s, Worked(AddReplacement(RunState.Blocked))), Worked(WriteTaskBack));
            On(v, OfTalk("t")) && On(v, OfRun("q")) && ProjectOf(v, OfTalk("t")) == ProjectOf(v, OfRun("q"))
  {
    hide Handle, Restart;
    var added := Do(s, Worked(AddReplacement(RunState.Blocked)));
    assert Shape(added, DISCUSSING, Stopped, TICKETS, map["r" := Run("t", RunState.Blocked, 0)], {"r"},
                 [Discuss("t"), Execute("q", false)],
                 Restoring("r", TaskRec("p", DISCUSSING, Some(Asked)), Run("t", RunState.Blocked, 0)));
  }

  ghost function DoAll(s: State, steps: seq<Step>): State
    decreases |steps|
  {
    if steps == [] then s else DoAll(Do(s, steps[0]), steps[1..])
  }

  lemma {:induction false} DoAllIsPlay(before: seq<Step>, steps: seq<Step>)
    ensures DoAll(Play(START, before), steps) == Play(START, before + steps)
    decreases |steps|
  {
    hide Do;
    if steps == [] {
      assert before + steps == before;
    } else {
      Append(before, steps[0]);
      DoAllIsPlay(before + [steps[0]], steps[1..]);
      assert before + [steps[0]] + steps[1..] == before + steps;
    }
  }

  lemma {:induction false} Append(steps: seq<Step>, step: Step)
    ensures Play(START, steps + [step]) == Do(Play(START, steps), step)
  {
    hide Do;
    assert (steps + [step])[..|steps|] == steps;
  }

  /** The six groups of steps, one after another. */
  ghost function OpenSteps(): seq<Step> {
    [Requested(CreateTask("t", TaskRec("p", DISCUSSING, Some(Idle)))),
     Requested(CreateTask("u", TaskRec("p", Draft, None)))]
  }
  ghost function DiscussSteps(): seq<Step> {
    [Requested(RequestDiscussion("t", true)), Worked(Take), Worked(Reply(true)), Worked(Leave)]
  }
  ghost function FailSteps(): seq<Step> {
    [Requested(FreezeReady("t", true)), Requested(RequestRun("t", "r", true)), Worked(Take), Worked(Throw),
     Worked(SaveFailure(false))]
  }
  ghost function ReadSteps(): seq<Step> {
    [Requested(ReturnToDiscussion("t", true)), Requested(RequestDiscussion("t", true)), Worked(ReadTaskAgain),
     Requested(StopDiscussion("t"))]
  }
  ghost function WriteSteps(): seq<Step> {
    [Requested(RequestRun("u", "q", true)), Worked(AddReplacement(RunState.Blocked)), Worked(WriteTaskBack)]
  }

  /** From the empty stores, eighteen steps lead to a project that a discussion and another task's run both own. */
  lemma {:induction false} TwoOwnersAreReached()
    ensures !OneOwner(Play(START, OpenSteps() + DiscussSteps() + FailSteps() + ReadSteps() + WriteSteps()))
  {
    hide Do, OneOwner, Shape, On, ProjectOf, Play;
    var s0 := Opened();
    var s1 := Do(s0, DiscussSteps()[0]);
    Asking(s0, Idle, map[], {}, Free);
    Listened(s1);
    Replied(Do(s1, Worked(Take)));
    var s2 := Do(Do(Do(s1, Worked(Take)), Worked(Reply(true))), Worked(Leave));
    Readied(s2);
    var s3 := Do(s2, FailSteps()[0]);
    QueuedRun(s3);
    var s4 := Do(s3, FailSteps()[1]);
    Prepared(s4);
    Failed(Do(s4, Worked(Take)));
    var s5 := Do(Do(Do(s4, Worked(Take)), Worked(Throw)), Worked(SaveFailure(false)));
    Returned(s5);
    var s6 := Do(s5, ReadSteps()[0]);
    Asking(s6, NeedsTalk, map["r" := Ticket("t", Finished)], {"r"}, Reporting("r", None));
    var s7 := Do(s6, ReadSteps()[1]);
    ReadStale(s7);
    var s8 := Do(Do(s7, Worked(ReadTaskAgain)), Requested(StopDiscussion("t")));
    Taken(s8);
    var s9 := Do(s8, WriteSteps()[0]);
    WrittenBack(s9);
    TwoMarkers(Do(Do(s9, Worked(AddReplacement(RunState.Blocked))), Worked(WriteTaskBack)));
    DoAllIsPlay(OpenSteps(), DiscussSteps());
    DoAllIsPlay(OpenSteps() + DiscussSteps(), FailSteps());
    DoAllIsPlay(OpenSteps() + DiscussSteps() + FailSteps(), ReadSteps());
    DoAllIsPlay(OpenSteps() + DiscussSteps() + FailSteps() + ReadSteps(), WriteSteps());
    assert DoAll(s0, DiscussSteps()) == s2 by { Unrolled(s0, DiscussSteps()); }
    assert DoAll(s2, FailSteps()) == s5 by { Unrolled(s2, FailSteps()); }
    assert DoAll(s5, ReadSteps()) == s8 by { Unrolled(s5, ReadSteps()); }
    assert DoAll(s8, WriteSteps()) == Do(Do(s9, Worked(AddReplacement(RunState.Blocked))), Worked(WriteTaskBack)) by {
      Unrolled(s8, WriteSteps());
    }
  }

  lemma {:induction false} Unrolled(s: State, steps: seq<Step>)
    requires 3 <= |steps| <= 5
    ensures DoAll(s, steps) == DoAll(Do(Do(Do(s, steps[0]), steps[1]), steps[2]), steps[3..])
    ensures |steps| == 3 ==> DoAll(s, steps) == Do(Do(Do(s, steps[0]), steps[1]), steps[2])
    ensures |steps| == 4 ==> DoAll(s, steps) == Do(Do(Do(Do(s, steps[0]), steps[1]), steps[2]), steps[3])
    ensures |steps| == 5 ==> DoAll(s, steps) == Do(Do(Do(Do(Do(s, steps[0]), steps[1]), steps[2]), steps[3]), steps[4])
  {
    hide Do, DoAll;
    var one := Do(s, steps[0]);
    var two := Do(one, steps[1]);
    var three := Do(two, steps[2]);
    UnrollOne(s, steps);
    UnrollOne(one, steps[1..]);
    UnrollOne(two, steps[2..]);
    assert steps[1..][1..] == steps[2..] && steps[2..][1..] == steps[3..];
    UnrollOne(three, steps[3..]);
    if |steps| > 3 {
      assert steps[3..][1..] == steps[4..];
      UnrollOne(Do(three, steps[3]), steps[4..]);
      if |steps| > 4 {
        assert steps[4..][1..] == steps[5..];
        UnrollOne(Do(Do(three, steps[3]), steps[4]), steps[5..]);
      }
    }
  }

  lemma {:induction false} UnrollOne(s: State, steps: seq<Step>)
    ensures DoAll(s, steps) == if steps == [] then s else DoAll(Do(s, steps[0]), steps[1..])
  {
  }

  lemma {:induction false} TwoMarkers(v: State)
    requires On(v, OfTalk("t")) && On(v, OfRun("q")) && ProjectOf(v, OfTalk("t")) == ProjectOf(v, OfRun("q"))
    ensures !OneOwner(v)
  {
  }
}
