/** Which source the implementation of an agreement begins from, over whole histories of the acceptance protocol. */
module DirectBaseline {
  import opened Contracts
  import opened Direct
  import opened DirectHistory

  /** How far a task has come since its latest agreement: not begun, sent back to rework unbegun, or begun. */
  datatype Progress = Unbegun | SentBack | Begun

  /** The command changed this task. */
  ghost predicate CarriedOut(writable: (Policy, string) -> bool, backendId: string, w: World, c: Command, id: string) {
    && id in w.tasks && id in Step(writable, backendId, w, c).tasks
    && Step(writable, backendId, w, c).tasks[id] != w.tasks[id]
  }

  ghost function NextProgress(p: Progress, w: World, c: Command, id: string): Progress {
    match c
    case AgreeTask(_, _, _, _, _, _) => Unbegun
    case BeginTask(_, _, _, _) => Begun
    case FeedBackTask(_, _, _, scopeChange, _) =>
      if !scopeChange && id in w.tasks && w.tasks[id].stage == Stage.Ready then SentBack else p
    case _ => p
  }

  ghost function ProgressOf(writable: (Policy, string) -> bool, backendId: string, w: World, commands: seq<Command>,
                            id: string): Progress
    decreases |commands|
  {
    if commands == [] then Unbegun
    else
      var n := |commands| - 1;
      var p, v := ProgressOf(writable, backendId, w, commands[..n], id), Play(writable, backendId, w, commands[..n]);
      if CarriedOut(writable, backendId, v, commands[n], id) then NextProgress(p, v, commands[n], id) else p
  }

  /** The stage says how far the task has come, except that Rework may be either way. */
  ghost predicate Fits(stage: Stage, p: Progress) {
    match stage
    case Discussing => true
    case Ready => p.Unbegun?
    case Rework => p.SentBack? || p.Begun?
    case _ => p.Begun?
  }

  lemma {:induction false} EdgeFits(w: World, c: Command, id: string, t: Stage, u: Stage, p: Progress)
    requires Fits(t, p) && Edge(c, t, u) && id in w.tasks && w.tasks[id].stage == t
    ensures Fits(u, NextProgress(p, w, c, id))
  {
  }

  lemma {:induction false} ProgressFits(writable: (Policy, string) -> bool, backendId: string,
                                        runs: map<string, RunEntry>, projects: map<string, Policy>,
                                        commands: seq<Command>, id: string)
    ensures var v := Play(writable, backendId, Opened(runs, projects), commands);
            id in v.tasks ==>
              Fits(v.tasks[id].stage, ProgressOf(writable, backendId, Opened(runs, projects), commands, id))
    decreases |commands|
  {
    hide Step, Edge, Fits, NextProgress;
    if commands != [] {
      var n := |commands| - 1;
      var w := Play(writable, backendId, Opened(runs, projects), commands[..n]);
      var p := ProgressOf(writable, backendId, Opened(runs, projects), commands[..n], id);
      ProgressFits(writable, backendId, runs, projects, commands[..n], id);
      if id in w.tasks {
        if CarriedOut(writable, backendId, w, commands[n], id) {
          StagesFollowEdges(writable, backendId, w, commands[n], id);
          EdgeFits(w, commands[n], id, w.tasks[id].stage, Step(writable, backendId, w, commands[n]).tasks[id].stage, p);
        }
      } else {
        CreatedIsDiscussing(writable, backendId, w, commands[n], id, p);
      }
    }
  }

  lemma {:induction false} CreatedIsDiscussing(writable: (Policy, string) -> bool, backendId: string, w: World,
                                               c: Command, id: string, p: Progress)
    requires id !in w.tasks
    ensures id in Step(writable, backendId, w, c).tasks ==> Fits(Step(writable, backendId, w, c).tasks[id].stage, p)
  {
    hide Step;
    OneTaskWritten(writable, backendId, w, c);
  }

  /** A Begin that is carried out, for a task that was not begun since its latest agreement. */
  ghost predicate FirstBegin(writable: (Policy, string) -> bool, backendId: string, w: World, commands: seq<Command>,
                             i: nat)
    requires i < |commands|
  {
    var c, v := commands[i], Play(writable, backendId, w, commands[..i]);
    && c.BeginTask? && MayBegin(v, c.id, c.revision, c.approval, c.view)
    && ProgressOf(writable, backendId, w, commands[..i], c.id) != Begun
  }

  /** The source it sees is the baseline of the agreement. */
  ghost predicate SeesBaseline(writable: (Policy, string) -> bool, backendId: string, w: World, commands: seq<Command>,
                               i: nat)
    requires i < |commands| && FirstBegin(writable, backendId, w, commands, i)
  {
    var c, v := commands[i], Play(writable, backendId, w, commands[..i]);
    var a := v.tasks[c.id].Agreed().value;
    c.view.snapshot.value == Snapshot(a.workspaceStamp, a.baseline)
  }

  /** Plain feedback at Ready came before it, and the source has changed. */
  ghost predicate ChangedAfterFeedback(writable: (Policy, string) -> bool, backendId: string, w: World,
                                       commands: seq<Command>, i: nat)
    requires i < |commands|
  {
    && FirstBegin(writable, backendId, w, commands, i) && !SeesBaseline(writable, backendId, w, commands, i)
    && ProgressOf(writable, backendId, w, commands[..i], commands[i].id) == SentBack
  }

  /** In every history, the first Begin after every agreement sees its baseline if and only if none is carried out on a
      changed source after plain feedback that sent the task back at Ready. */
  lemma {:induction false} FirstBeginSeesBaselineExactly(writable: (Policy, string) -> bool, backendId: string,
                                                         runs: map<string, RunEntry>, projects: map<string, Policy>,
                                                         commands: seq<Command>)
    ensures var w := Opened(runs, projects);
            (forall i: nat | i < |commands| && FirstBegin(writable, backendId, w, commands, i) ::
               SeesBaseline(writable, backendId, w, commands, i))
            <==> forall i: nat | i < |commands| :: !ChangedAfterFeedback(writable, backendId, w, commands, i)
  {
    hide Play, ProgressOf;
    var w := Opened(runs, projects);
    forall i: nat | i < |commands| && FirstBegin(writable, backendId, w, commands, i)
      ensures SeesBaseline(writable, backendId, w, commands, i)
              || ChangedAfterFeedback(writable, backendId, w, commands, i) {
      ProgressFits(writable, backendId, runs, projects, commands[..i], commands[i].id);
      var c, v := commands[i], Play(writable, backendId, w, commands[..i]);
      BeginsFrom(v, c.id, c.revision, c.approval, c.view, ProgressOf(writable, backendId, w, commands[..i], c.id));
    }
  }

  /** A task that was not begun begins at Ready, or at Rework after it was sent back. */
  lemma {:induction false} BeginsFrom(w: World, id: string, revision: int, approval: Option<OwnerEvidence>, view: Reads,
                                      p: Progress)
    requires MayBegin(w, id, revision, approval, view) && Fits(w.tasks[id].stage, p) && p != Begun
    ensures w.tasks[id].stage == Stage.Ready || p == SentBack
    ensures w.tasks[id].stage == Stage.Ready ==>
              var a := w.tasks[id].Agreed().value; view.snapshot.value == Snapshot(a.workspaceStamp, a.baseline)
  {
  }
}
