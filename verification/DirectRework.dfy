/** Histories from an empty store that show where the acceptance protocol falls short. */
module DirectRework {
  import opened Contracts
  import opened Direct
  import opened DirectTheorems
  import opened DirectHistory

  /** What two callers say while opening and agreeing on two tasks of one project. */
  datatype Setup = Setup(x: string, y: string, workspaceId: string, policy: Policy, title: string, anchors: Anchors,
                         checks: seq<Check>, owner: OwnerEvidence, seen: Snapshot)
  {
    predicate Valid() {
      && x != y && !Blank(title) && anchors.Valid() && owner.Valid() && ChecksMap(checks, |anchors.acceptance|)
    }
    function View(): Reads { Reads(true, true, true, Some(seen)) }
    function Create(id: string): Command { CreateTask(id, workspaceId, Fast, title, title, false, true) }
    function Agreed(id: string): Command { AgreeTask(id, 0, anchors, checks, owner, View()) }
    function Agreement(): Agreement {
      Direct.Agreement(1, anchors, checks, policy, seen.workspaceStamp, seen.files, owner)
    }
    function Begin(): Command { BeginTask(y, 1, None, View()) }
    function FeedBack(): Command { FeedBackTask(x, 1, title, false, None) }
    function Commands(): seq<Command> { [Create(x), Create(y), Agreed(x), Agreed(y), Begin(), FeedBack()] }
  }

  /** A world of this setup: just these tasks, no runs, and these stages. */
  ghost predicate Has(u: Setup, w: World, stages: map<string, Stage>) {
    && w.tasks.Keys == stages.Keys && w.runs == map[] && w.projects == map[u.workspaceId := u.policy]
    && (forall i :: 0 <= i < |w.log| ==> w.log[i].task in stages)
    && forall id <- w.tasks :: ReadyTask(u, id, w.tasks[id], stages[id])
  }

  ghost predicate ReadyTask(u: Setup, id: string, t: Task, stage: Stage) {
    && t.stage == stage && t.info.workspaceId == u.workspaceId && !t.requiresDocuments && t.info.risk.Fast?
    && t.info.taskId == id && (stage == Stage.Discussing ==> t.revision == 0 && t.agreements == [])
    && (stage == Stage.Ready ==> t.revision == 1 && t.agreements == [u.Agreement()])
    && (stage == Rework ==> t.revision == 2 && t.agreements == [u.Agreement()])
  }

  lemma {:induction false} Created(writable: (Policy, string) -> bool, backendId: string, u: Setup, w: World,
                                   stages: map<string, Stage>, id: string)
    requires u.Valid() && Has(u, w, stages) && id !in stages
    ensures Has(u, Step(writable, backendId, w, u.Create(id)), stages[id := Stage.Discussing])
  {
    assert Unmentioned(w, id);
  }

  lemma {:induction false} NobodyOwns(u: Setup, w: World, stages: map<string, Stage>, id: string)
    requires Has(u, w, stages) && id in stages && forall x <- stages :: stages[x] !in OWNING
    ensures !OtherWriter(w, id)
  {
  }

  lemma {:induction false} AgreedOnce(writable: (Policy, string) -> bool, backendId: string, u: Setup, w: World,
                                      stages: map<string, Stage>, id: string)
    requires u.Valid() && Has(u, w, stages) && id in stages && stages[id] == Stage.Discussing
    requires forall x <- stages :: stages[x] !in OWNING
    ensures Has(u, Step(writable, backendId, w, u.Agreed(id)), stages[id := Stage.Ready])
  {
    hide MayAgree;
    MayAgreeHere(u, w, stages, id);
  }

  lemma {:induction false} MayAgreeHere(u: Setup, w: World, stages: map<string, Stage>, id: string)
    requires u.Valid() && Has(u, w, stages) && id in stages && stages[id] == Stage.Discussing
    requires forall x <- stages :: stages[x] !in OWNING
    ensures id in w.tasks && ReadyTask(u, id, w.tasks[id], Stage.Discussing)
    ensures MayAgree(w, id, 0, u.anchors, u.checks, u.owner, u.View())
  {
    hide OtherWriter, ChecksMap, Blank;
    NobodyOwns(u, w, stages, id);
    assert ReadyTask(u, id, w.tasks[id], Stage.Discussing);
  }

  lemma {:induction false} Begun(writable: (Policy, string) -> bool, backendId: string, u: Setup, w: World,
                                 stages: map<string, Stage>)
    requires u.Valid() && Has(u, w, stages) && u.y in stages && stages[u.y] == Stage.Ready
    requires forall x <- stages :: stages[x] !in OWNING
    ensures Has(u, Step(writable, backendId, w, u.Begin()), stages[u.y := Implementing])
  {
    hide MayBegin;
    MayBeginHere(u, w, stages);
  }

  lemma {:induction false} MayBeginHere(u: Setup, w: World, stages: map<string, Stage>)
    requires u.Valid() && Has(u, w, stages) && u.y in stages && stages[u.y] == Stage.Ready
    requires forall x <- stages :: stages[x] !in OWNING
    ensures u.y in w.tasks && ReadyTask(u, u.y, w.tasks[u.y], Stage.Ready) && MayBegin(w, u.y, 1, None, u.View())
  {
    hide OtherWriter, Blank, ChecksMap;
    NobodyOwns(u, w, stages, u.y);
    assert ReadyTask(u, u.y, w.tasks[u.y], Stage.Ready);
  }

  lemma {:induction false} FedBack(writable: (Policy, string) -> bool, backendId: string, u: Setup, w: World,
                                   stages: map<string, Stage>)
    requires u.Valid() && Has(u, w, stages) && u.x in stages && stages[u.x] == Stage.Ready
    ensures Has(u, Step(writable, backendId, w, u.FeedBack()), stages[u.x := Rework])
  {
    hide Blank, ChecksMap;
    assert ReadyTask(u, u.x, w.tasks[u.x], Stage.Ready);
    assert MayFeedBack(w, u.x, 1, u.title, false, None);
  }

  lemma {:induction false} PlayOneMore(writable: (Policy, string) -> bool, backendId: string, w: World,
                                       commands: seq<Command>, c: Command)
    ensures Play(writable, backendId, w, commands + [c])
            == Step(writable, backendId, Play(writable, backendId, w, commands), c)
  {
    hide Step;
    assert (commands + [c])[..|commands|] == commands;
  }

  /** Whatever was agreed on, six commands from an empty store leave two tasks of one project owning its source. */
  lemma {:induction false} TwoOwnersAreReached(writable: (Policy, string) -> bool, backendId: string, u: Setup)
    requires u.Valid()
    ensures !OneOwner(Play(writable, backendId, Opened(map[], map[u.workspaceId := u.policy]), u.Commands()))
  {
    hide Step, Has, OneOwner;
    var w0 := Opened(map[], map[u.workspaceId := u.policy]);
    OpenedHas(u);
    var w1 := Step(writable, backendId, w0, u.Create(u.x));
    Created(writable, backendId, u, w0, map[], u.x);
    var w2 := Step(writable, backendId, w1, u.Create(u.y));
    Created(writable, backendId, u, w1, map[u.x := Stage.Discussing], u.y);
    var w3 := Step(writable, backendId, w2, u.Agreed(u.x));
    AgreedOnce(writable, backendId, u, w2, map[u.x := Stage.Discussing, u.y := Stage.Discussing], u.x);
    var w4 := Step(writable, backendId, w3, u.Agreed(u.y));
    assert map[u.x := Stage.Discussing, u.y := Stage.Discussing][u.x := Stage.Ready]
           == map[u.x := Stage.Ready, u.y := Stage.Discussing];
    AgreedOnce(writable, backendId, u, w3, map[u.x := Stage.Ready, u.y := Stage.Discussing], u.y);
    var w5 := Step(writable, backendId, w4, u.Begin());
    assert map[u.x := Stage.Ready, u.y := Stage.Discussing][u.y := Stage.Ready]
           == map[u.x := Stage.Ready, u.y := Stage.Ready];
    Begun(writable, backendId, u, w4, map[u.x := Stage.Ready, u.y := Stage.Ready]);
    var w6 := Step(writable, backendId, w5, u.FeedBack());
    assert map[u.x := Stage.Ready, u.y := Stage.Ready][u.y := Implementing]
           == map[u.x := Stage.Ready, u.y := Implementing];
    FedBack(writable, backendId, u, w5, map[u.x := Stage.Ready, u.y := Implementing]);
    BothOwn(u, w6, map[u.x := Stage.Ready, u.y := Implementing][u.x := Rework]);
    PlaySix(writable, backendId, u, w0);
  }

  lemma {:induction false} PlaySix(writable: (Policy, string) -> bool, backendId: string, u: Setup, w0: World)
    ensures Play(writable, backendId, w0, u.Commands())
            == Step(writable, backendId, Step(writable, backendId,
                                              Step(writable, backendId,
                                                   Step(writable, backendId, Step(writable, backendId,
                 Step(writable, backendId, w0, u.Create(u.x)), u.Create(u.y)), u.Agreed(u.x)), u.Agreed(u.y)),
                     u.Begin()), u.FeedBack())
  {
    hide Step;
    var cs := u.Commands();
    assert Play(writable, backendId, w0, []) == w0;
    PlayOneMore(writable, backendId, w0, [], cs[0]);
    PlayOneMore(writable, backendId, w0, cs[..1], cs[1]);
    PlayOneMore(writable, backendId, w0, cs[..2], cs[2]);
    PlayOneMore(writable, backendId, w0, cs[..3], cs[3]);
    PlayOneMore(writable, backendId, w0, cs[..4], cs[4]);
    PlayOneMore(writable, backendId, w0, cs[..5], cs[5]);
    assert [] + [cs[0]] == cs[..1] && cs[..1] + [cs[1]] == cs[..2] && cs[..2] + [cs[2]] == cs[..3];
    assert cs[..3] + [cs[3]] == cs[..4] && cs[..4] + [cs[4]] == cs[..5] && cs[..5] + [cs[5]] == cs;
  }

  lemma {:induction false} OpenedHas(u: Setup)
    ensures Has(u, Opened(map[], map[u.workspaceId := u.policy]), map[])
  {
  }

  lemma {:induction false} BothOwn(u: Setup, w: World, stages: map<string, Stage>)
    requires Has(u, w, stages) && u.x != u.y && u.x in stages && u.y in stages && stages[u.x] == Rework
             && stages[u.y] == Implementing
    ensures !OneOwner(w)
  {
    assert w.tasks[u.x].stage in OWNING && w.tasks[u.y].stage in OWNING;
  }

  // ---- Beginning after feedback, and beginning with an empty approval ----

  /** Begin from Rework, when the source has changed since the agreement. */
  function BeginChanged(u: Setup, changed: Snapshot): Command {
    BeginTask(u.x, 2, None, Reads(true, true, true, Some(changed)))
  }

  lemma {:induction false} BegunChanged(writable: (Policy, string) -> bool, backendId: string, u: Setup, w: World,
                                        changed: Snapshot)
    requires u.Valid() && Has(u, w, map[u.x := Rework]) && changed.workspaceStamp == u.seen.workspaceStamp
    ensures var v := Step(writable, backendId, w, BeginChanged(u, changed));
            u.x in v.tasks && v.tasks[u.x].stage == Implementing && v.tasks[u.x].Agreed() == Some(u.Agreement())
  {
    hide Blank, ChecksMap;
    assert ReadyTask(u, u.x, w.tasks[u.x], Rework);
    assert MayBegin(w, u.x, 2, None, Reads(true, true, true, Some(changed)));
  }

  /** The world after a task was created and agreed on. */
  lemma {:induction false} AgreedAlone(writable: (Policy, string) -> bool, backendId: string, u: Setup)
    requires u.Valid()
    ensures Has(u, Play(writable, backendId, Opened(map[], map[u.workspaceId := u.policy]),
                        [u.Create(u.x), u.Agreed(u.x)]),
                map[u.x := Stage.Ready])
  {
    hide Step, Has;
    var w0 := Opened(map[], map[u.workspaceId := u.policy]);
    OpenedHas(u);
    Created(writable, backendId, u, w0, map[], u.x);
    AgreedOnce(writable, backendId, u, Step(writable, backendId, w0, u.Create(u.x)), map[u.x := Stage.Discussing], u.x);
    PlayOneMore(writable, backendId, w0, [], u.Create(u.x));
    PlayOneMore(writable, backendId, w0, [u.Create(u.x)], u.Agreed(u.x));
    assert [] + [u.Create(u.x)] == [u.Create(u.x)] && [u.Create(u.x)] + [u.Agreed(u.x)]
           == [u.Create(u.x), u.Agreed(u.x)];
    assert Play(writable, backendId, w0, []) == w0;
    assert map[u.x := Stage.Discussing][u.x := Stage.Ready] == map[u.x := Stage.Ready];
  }

  /** From an empty store, agreement, plain feedback and Begin start the implementation from any source of the
      workspace, whether or not it is the agreed baseline. */
  lemma {:induction false} ChangedBaselineIsReached(writable: (Policy, string) -> bool, backendId: string, u: Setup,
                                                    changed: Snapshot)
    requires u.Valid() && changed.workspaceStamp == u.seen.workspaceStamp
    ensures var v := Play(writable, backendId, Opened(map[], map[u.workspaceId := u.policy]),
                          [u.Create(u.x), u.Agreed(u.x), u.FeedBack(), BeginChanged(u, changed)]);
            u.x in v.tasks && v.tasks[u.x].stage == Implementing && v.tasks[u.x].Agreed() == Some(u.Agreement())
  {
    hide Step, Has, Play;
    var w0 := Opened(map[], map[u.workspaceId := u.policy]);
    var two := [u.Create(u.x), u.Agreed(u.x)];
    AgreedAlone(writable, backendId, u);
    var w2 := Play(writable, backendId, w0, two);
    FedBack(writable, backendId, u, w2, map[u.x := Stage.Ready]);
    assert map[u.x := Stage.Ready][u.x := Rework] == map[u.x := Rework];
    BegunChanged(writable, backendId, u, Step(writable, backendId, w2, u.FeedBack()), changed);
    PlayOneMore(writable, backendId, w0, two, u.FeedBack());
    PlayOneMore(writable, backendId, w0, two + [u.FeedBack()], BeginChanged(u, changed));
    assert two + [u.FeedBack()] + [BeginChanged(u, changed)]
        == [u.Create(u.x), u.Agreed(u.x), u.FeedBack(), BeginChanged(u, changed)];
  }

  /** From an empty store, agreement and one Begin leave an approval without a quote or a source. */
  lemma {:induction false} EmptyApprovalIsReached(writable: (Policy, string) -> bool, backendId: string, u: Setup)
    requires u.Valid()
    ensures !AllApprovalsHold(Play(writable, backendId, Opened(map[], map[u.workspaceId := u.policy]),
                                   [u.Create(u.x), u.Agreed(u.x),
                                    BeginTask(u.x, 1, Some(OwnerEvidence("", "")), u.View())]))
  {
    hide Step, Has, Play, MayBegin;
    var w0 := Opened(map[], map[u.workspaceId := u.policy]);
    var two, begin := [u.Create(u.x), u.Agreed(u.x)], BeginTask(u.x, 1, Some(OwnerEvidence("", "")), u.View());
    AgreedAlone(writable, backendId, u);
    var w2 := Play(writable, backendId, w0, two);
    ReadyMayBegin(u, w2);
    EmptyApprovalIsStored(writable, backendId, w2, u.x, 1, u.View());
    PlayOneMore(writable, backendId, w0, two, begin);
    assert two + [begin] == [u.Create(u.x), u.Agreed(u.x), begin];
  }

  lemma {:induction false} ReadyMayBegin(u: Setup, w: World)
    requires u.Valid() && Has(u, w, map[u.x := Stage.Ready])
    ensures MayBegin(w, u.x, 1, None, u.View())
  {
    hide Blank, ChecksMap;
    assert ReadyTask(u, u.x, w.tasks[u.x], Stage.Ready);
  }
}
