/** Exactly when the work of an obedient backend is bounded, on any valid definition. */
module Endless {
  import opened Contracts
  import opened RunEngine
  import H = Honesty
  import W = WorkBound

  /** The node that following success routes leads to, or none when the way ends before. */
  function Walk(def: WorkflowDefinition, node: NodeId, n: nat): Option<NodeId>
    decreases n
  {
    if n == 0 then Some(node)
    else
      var next := def.Next(node, Succeeded);
      if next.None? || next.value == COMPLETE then None else Walk(def, next.value, n - 1)
  }

  lemma {:induction false} WalkOn(def: WorkflowDefinition, node: NodeId, m: nat, n: nat)
    ensures Walk(def, node, m + n) == if Walk(def, node, m).None? then None else Walk(def, Walk(def, node, m).value, n)
    decreases m
  {
    if m > 0 {
      var next := def.Next(node, Succeeded);
      if next.Some? && next.value != COMPLETE { WalkOn(def, next.value, m - 1, n); }
    }
  }

  lemma {:induction false} WalkStaysInside(def: WorkflowDefinition, node: NodeId, n: nat)
    requires def.Valid() && def.HasNode(node) && Walk(def, node, n).Some?
    ensures def.HasNode(Walk(def, node, n).value)
    decreases n
  {
    if n > 0 {
      var next := def.Next(node, Succeeded).value;
      var i :| 0 <= i < |def.routes| && def.routes[i] == Route(node, Succeeded, next);
      WalkStaysInside(def, next, n - 1);
    }
  }

  // ---- A way longer than the definition has nodes comes round again ----

  function Ids(nodes: seq<NodeDefinition>): set<NodeId> { set n | n in nodes :: n.nodeId }

  lemma {:induction false} FewIds(nodes: seq<NodeDefinition>)
    ensures |Ids(nodes)| <= |nodes|
  {
    if nodes != [] {
      FewIds(nodes[1..]);
      assert Ids(nodes) == {nodes[0].nodeId} + Ids(nodes[1..]);
    }
  }

  lemma {:induction false} Repeats(s: seq<NodeId>, ids: set<NodeId>) returns (i: nat, j: nat)
    requires |s| > |ids| && forall k :: 0 <= k < |s| ==> s[k] in ids
    ensures i < j < |s| && s[i] == s[j]
    decreases |s|
  {
    var last := |s| - 1;
    if k :| 0 <= k < last && s[k] == s[last] {
      i, j := k, last;
    } else {
      assert forall k :: 0 <= k < last ==> s[..last][k] in ids - {s[last]};
      i, j := Repeats(s[..last], ids - {s[last]});
    }
  }

  lemma {:induction false} ShorterWalks(def: WorkflowDefinition, node: NodeId, m: nat, n: nat)
    requires m <= n && Walk(def, node, n).Some?
    ensures Walk(def, node, m).Some?
  {
    WalkOn(def, node, m, n - m);
  }

  lemma {:induction false} RoundTripGoesOn(def: WorkflowDefinition, node: NodeId, d: nat, n: nat)
    requires d > 0 && Walk(def, node, d) == Some(node)
    ensures Walk(def, node, n).Some?
    decreases n
  {
    if n < d { ShorterWalks(def, node, n, d); }
    else {
      WalkOn(def, node, d, n - d);
      RoundTripGoesOn(def, node, d, n - d);
    }
  }

  /** Following success routes for as many steps as there are nodes means never ending. */
  lemma {:induction false} LongWalksNeverEnd(def: WorkflowDefinition, node: NodeId, n: nat)
    requires def.Valid() && def.HasNode(node) && Walk(def, node, |def.nodes|).Some?
    ensures Walk(def, node, n).Some?
  {
    hide WorkflowDefinition.Valid, WorkflowDefinition.HasNode, Walk;
    var size := |def.nodes|;
    forall k: nat | k <= size ensures Walk(def, node, k).Some? && Walk(def, node, k).value in Ids(def.nodes) {
      ShorterWalks(def, node, k, size);
      WalkStaysInside(def, node, k);
      HasId(def, Walk(def, node, k).value);
    }
    var s := seq(size + 1, k requires 0 <= k <= size => Walk(def, node, k).value);
    FewIds(def.nodes);
    var i, j := Repeats(s, Ids(def.nodes));
    assert s[i] == Walk(def, node, i).value && s[j] == Walk(def, node, j).value;
    WalkOn(def, node, i, j - i);
    if n < i { ShorterWalks(def, node, n, i); }
    else {
      RoundTripGoesOn(def, s[i], j - i, n - i);
      WalkOn(def, node, i, n - i);
    }
  }

  lemma {:induction false} HasId(def: WorkflowDefinition, id: NodeId)
    requires def.HasNode(id)
    ensures id in Ids(def.nodes)
  {
  }

  // ---- Drives in which every handler succeeds ----

  predicate Succeeds(def: WorkflowDefinition, a: Attempt) {
    def.Node(a.node).Some? && Settle(def.Node(a.node).value, a).outcome.Succeeded?
  }

  /** An attempt at this node whose handler succeeds and around which nothing goes wrong. */
  function Succeeding(def: WorkflowDefinition, node: NodeId): Attempt
    requires def.Node(node).Some?
  {
    Attempt(node, NoFault, Returned(NodeResult(Succeeded, def.Node(node).value.resultContract, "", [], None, None)),
            false, false, false, NoFault,
            false, false, NoFault)
  }

  ghost predicate At(s: Session, backendId: string, node: NodeId) {
    s.run.state.Running? && s.run.currentNode == Some(node) && s.run.backendId == backendId
  }

  lemma {:induction false} SucceedingStep(def: WorkflowDefinition, backendId: string, s: Session, node: NodeId)
    requires At(s, backendId, node) && def.Node(node).Some?
    ensures Succeeds(def, Succeeding(def, node))
    ensures Walk(def, node, 1).Some? ==>
              var o := Dispatch(def, backendId, s, Succeeding(def, node));
              At(o.session, backendId, Walk(def, node, 1).value) && o.reply == Told(Walk(def, node, 1))
              && o.session.run.reworkCount == s.run.reworkCount
  {
    assert Walk(def, node, 1) == if def.Next(node, Succeeded).None? || def.Next(node, Succeeded) == Some(COMPLETE)
           then None
                                 else Walk(def, def.Next(node, Succeeded).value, 0);
    H.FoundIsItself(def, node);
  }

  /** A drive of this length in which every handler succeeds. */
  ghost predicate CanGo(def: WorkflowDefinition, backendId: string, s: Session, n: nat) {
    exists attempts :: |attempts| == n && Going(def, backendId, s, attempts)
  }

  ghost predicate Going(def: WorkflowDefinition, backendId: string, s: Session, attempts: seq<Attempt>) {
    W.Obedient(def, backendId, s, attempts) && forall i :: 0 <= i < |attempts| ==> Succeeds(def, attempts[i])
  }

  lemma {:induction false} WalkIsDriven(def: WorkflowDefinition, backendId: string, s: Session, node: NodeId, n: nat)
    returns (attempts: seq<Attempt>)
    requires def.Valid() && At(s, backendId, node) && def.HasNode(node) && Walk(def, node, n).Some?
    ensures |attempts| == n + 1 && Going(def, backendId, s, attempts)
    decreases n
  {
    hide WorkflowDefinition.Valid, WorkflowDefinition.HasNode, Dispatch, Settle, Succeeds;
    NodeIsFound(def, node);
    SucceedingStep(def, backendId, s, node);
    var a := Succeeding(def, node);
    if n == 0 {
      attempts := [a];
      assert attempts[1..] == [];
      assert W.Obedient(def, backendId, s, attempts);
    } else {
      ShorterWalks(def, node, 1, n);
      WalkOn(def, node, 1, n - 1);
      WalkStaysInside(def, node, 1);
      var rest := WalkIsDriven(def, backendId, Dispatch(def, backendId, s, a).session, Walk(def, node, 1).value, n - 1);
      attempts := [a] + rest;
      assert attempts[1..] == rest && attempts[0] == a;
      forall i | 0 <= i < |attempts| ensures Succeeds(def, attempts[i]) {
        if i > 0 { assert attempts[i] == rest[i - 1]; }
      }
      assert W.Obedient(def, backendId, s, attempts);
    }
  }

  lemma {:induction false} NodeIsFound(def: WorkflowDefinition, node: NodeId)
    requires def.HasNode(node)
    ensures def.Node(node).Some?
  {
  }

  lemma {:induction false} DriveIsWalk(def: WorkflowDefinition, backendId: string, s: Session, attempts: seq<Attempt>)
    requires s.run.currentNode.Some? && attempts != [] && Going(def, backendId, s, attempts)
    ensures Walk(def, s.run.currentNode.value, |attempts| - 1).Some?
    decreases |attempts|
  {
    hide Dispatch, Settle;
    if |attempts| > 1 {
      var node := s.run.currentNode.value;
      assert attempts[0].node == node && Succeeds(def, attempts[0]);
      ToldIsNext(def, backendId, s, attempts[0]);
      var o := Dispatch(def, backendId, s, attempts[0]);
      forall i | 0 <= i < |attempts[1..]| ensures Succeeds(def, attempts[1..][i]) {
        assert attempts[1..][i] == attempts[i + 1];
      }
      DriveIsWalk(def, backendId, o.session, attempts[1..]);
      WalkOn(def, node, 1, |attempts| - 2);
    }
  }

  /** After a success the next node is the one the success route names. */
  lemma {:induction false} ToldIsNext(def: WorkflowDefinition, backendId: string, s: Session, a: Attempt)
    requires Succeeds(def, a) && Dispatch(def, backendId, s, a).reply.Told?
             && Dispatch(def, backendId, s, a).reply.next.Some?
    ensures var o := Dispatch(def, backendId, s, a);
            o.session.run.currentNode == Walk(def, a.node, 1) == o.reply.next
  {
    hide Settle;
    H.FoundIsItself(def, a.node);
    var next := def.Next(a.node, Succeeded);
    assert Walk(def, a.node, 1) == if next.None? || next.value == COMPLETE then None else Walk(def, next.value, 0);
  }

  /** Validation does not bound the work: on a valid definition drives of every length succeed all the way exactly when
      following the success routes from the current node does not end within as many steps as there are nodes. */
  lemma {:induction false} EndlessExactlyWhenTheWayIs(def: WorkflowDefinition, backendId: string, s: Session,
                                                      node: NodeId)
    requires def.Valid() && def.HasNode(node) && At(s, backendId, node)
    ensures (forall n: nat :: CanGo(def, backendId, s, n)) <==> Walk(def, node, |def.nodes|).Some?
  {
    hide WorkflowDefinition.Valid, WorkflowDefinition.HasNode, W.Obedient, Succeeds, Walk;
    if forall n: nat :: CanGo(def, backendId, s, n) {
      assert CanGo(def, backendId, s, |def.nodes| + 1);
      var attempts :| |attempts| == |def.nodes| + 1 && Going(def, backendId, s, attempts);
      DriveIsWalk(def, backendId, s, attempts);
    }
    if Walk(def, node, |def.nodes|).Some? {
      forall n: nat ensures CanGo(def, backendId, s, n) {
        if n == 0 { NoAttempts(def, backendId, s); }
        else {
          LongWalksNeverEnd(def, node, n - 1);
          var attempts := WalkIsDriven(def, backendId, s, node, n - 1);
        }
      }
    }
  }

  lemma {:induction false} NoAttempts(def: WorkflowDefinition, backendId: string, s: Session)
    ensures CanGo(def, backendId, s, 0)
  {
    assert Going(def, backendId, s, []);
  }

  // ---- Any drive, whatever its handlers answer ----

  /** Following the success routes from this node ends. */
  predicate Ends(def: WorkflowDefinition, node: NodeId) { Walk(def, node, |def.nodes|).None? }

  /** Some node on the way from this one may send work back. */
  predicate SendsBack(def: WorkflowDefinition, node: NodeId) {
    exists k | 0 <= k < |def.nodes| :: SendsBackAt(def, node, k)
  }

  predicate SendsBackAt(def: WorkflowDefinition, node: NodeId, k: nat) {
    Walk(def, node, k).Some? && def.Next(Walk(def, node, k).value, ReworkRequired).Some?
  }

  /** No obedient drive from here is longer than some bound. */
  ghost predicate Bounded(def: WorkflowDefinition, backendId: string, s: Session) {
    exists bound: nat :: AtMost(def, backendId, s, bound)
  }

  ghost predicate AtMost(def: WorkflowDefinition, backendId: string, s: Session, bound: nat) {
    forall attempts :: W.Obedient(def, backendId, s, attempts) ==> |attempts| <= bound
  }

  /** A dispatch that names a next node went on along a success route, sent the work back, or spent a retry. */
  ghost predicate WentOn(def: WorkflowDefinition, s: Session, node: NodeId, t: Session, next: NodeId) {
    && t.run.state.Running? && t.run.currentNode == Some(next)
    && W.RetriesLeft(def.nodes, t.run.executions) <= W.RetriesLeft(def.nodes, s.run.executions)
    && (|| (Walk(def, node, 1) == Some(next) && t.run.reworkCount == s.run.reworkCount)
        || (def.Next(node, ReworkRequired).Some? && s.run.reworkCount < def.rework.maxReworks
            && next == def.rework.target && t.run.reworkCount == s.run.reworkCount + 1)
        || (next == node && t.run.reworkCount == s.run.reworkCount
            && W.RetriesLeft(def.nodes, t.run.executions) < W.RetriesLeft(def.nodes, s.run.executions)))
  }

  lemma {:induction false} ToldWentOn(def: WorkflowDefinition, backendId: string, s: Session, a: Attempt)
    requires Dispatch(def, backendId, s, a).reply.Told? && Dispatch(def, backendId, s, a).reply.next.Some?
    ensures s.run.currentNode == Some(a.node)
    ensures WentOn(def, s, a.node, Dispatch(def, backendId, s, a).session,
                   Dispatch(def, backendId, s, a).reply.next.value)
  {
    hide Dispatch, Settle, Act, Walk, W.RetriesLeft, FindRoute;
    H.DispatchCases(def, backendId, s, a);
    var node := def.Node(a.node).value;
    H.FoundIsItself(def, a.node);
    var result := Settle(node, a);
    var x := NodeExecution(a.node, CountOf(s.run.executions, a.node) + 1, result);
    W.RetriesSpent(def.nodes, s.run.executions, x);
    ActWentOn(def, s.(run := Record(s.run, result)), node, CountOf(s.run.executions, a.node) + 1, result, a);
  }

  lemma {:induction false} ActWentOn(def: WorkflowDefinition, s: Session, node: NodeDefinition, attempt: int,
                                     result: NodeResult, a: Attempt)
    requires s.run.state.Running? && s.run.currentNode == Some(node.nodeId)
    requires var o := Act(def, s, node, attempt, result, a); o.reply.Told? && o.reply.next.Some?
    ensures var o := Act(def, s, node, attempt, result, a);
            var next := o.reply.next.value;
            && o.session.run.state.Running? && o.session.run.currentNode == Some(next)
            && o.session.run.executions == s.run.executions
            && (|| (Walk(def, node.nodeId, 1) == Some(next) && o.session.run.reworkCount == s.run.reworkCount)
                || (def.Next(node.nodeId, ReworkRequired).Some? && s.run.reworkCount < def.rework.maxReworks
                    && next == def.rework.target && o.session.run.reworkCount == s.run.reworkCount + 1)
                || (next == node.nodeId && o.session.run.reworkCount == s.run.reworkCount
                    && attempt <= node.maxRetries))
  {
    WalkOne(def, node.nodeId);
  }

  lemma {:induction false} WalkOne(def: WorkflowDefinition, node: NodeId)
    ensures Walk(def, node, 1)
            == if def.Next(node, Succeeded).None? || def.Next(node, Succeeded) == Some(COMPLETE) then None
                else def.Next(node, Succeeded)
  {
    if def.Next(node, Succeeded).Some? {
      assert Walk(def, def.Next(node, Succeeded).value, 0) == def.Next(node, Succeeded);
    }
  }

  /** Rework rounds that matter: none when the way back from the target would not end. */
  function Rounds(def: WorkflowDefinition, s: Session): nat {
    if Ends(def, def.rework.target) then W.Positive(def.rework.maxReworks - s.run.reworkCount) else 0
  }

  /** The exact condition: the way ends, and so does the way from the rework target if work can still be sent there. */
  predicate WayEnds(def: WorkflowDefinition, s: Session, node: NodeId, k: nat) {
    && Walk(def, node, k).None?
    && (s.run.reworkCount < def.rework.maxReworks && !Ends(def, def.rework.target) ==>
          forall j | 0 <= j < k :: !SendsBackAt(def, node, j))
  }

  lemma {:induction false} WayGoesOn(def: WorkflowDefinition, s: Session, node: NodeId, t: Session, next: NodeId,
                                     k: nat)
    requires WayEnds(def, s, node, k) && Walk(def, node, 1) == Some(next) && t.run.reworkCount == s.run.reworkCount
    ensures k > 0 && WayEnds(def, t, next, k - 1)
  {
    WalkOn(def, node, 1, k - 1);
    forall j: nat | j < k - 1 ensures SendsBackAt(def, next, j) == SendsBackAt(def, node, j + 1) {
      WalkOn(def, node, 1, j);
    }
  }

  lemma {:induction false} OneRoundLess(rounds: nat, size: nat)
    requires rounds > 0
    ensures (rounds - 1) * size + size == rounds * size
  {
  }

  /** An obedient drive is paid by the rework rounds left, the steps left on the way, and the retries left. */
  lemma {:induction false} DriveIsPaid(def: WorkflowDefinition, backendId: string, s: Session, node: NodeId, k: nat,
                                       attempts: seq<Attempt>)
    requires W.Obedient(def, backendId, s, attempts) && s.run.currentNode == Some(node) && WayEnds(def, s, node, k)
    ensures |attempts| <= Rounds(def, s) * |def.nodes| + k + W.RetriesLeft(def.nodes, s.run.executions)
    decreases |attempts|
  {
    hide Dispatch, W.RetriesLeft, WayEnds, Ends;
    assert k > 0 by { WayIsNotOver(def, s, node, k); }
    assert Rounds(def, s) * |def.nodes| >= 0;
    if |attempts| > 1 {
      ToldWentOn(def, backendId, s, attempts[0]);
      var t, next := Dispatch(def, backendId, s, attempts[0]).session,
          Dispatch(def, backendId, s, attempts[0]).reply.next.value;
      if next == node && t.run.reworkCount == s.run.reworkCount
         && W.RetriesLeft(def.nodes, t.run.executions) < W.RetriesLeft(def.nodes, s.run.executions) {
        WayStays(def, s, node, t, k);
        DriveIsPaid(def, backendId, t, node, k, attempts[1..]);
      } else if Walk(def, node, 1) == Some(next) && t.run.reworkCount == s.run.reworkCount {
        WayGoesOn(def, s, node, t, next, k);
        DriveIsPaid(def, backendId, t, next, k - 1, attempts[1..]);
      } else {
        WayStartsAgain(def, s, node, t, k);
        OneRoundLess(Rounds(def, s), |def.nodes|);
        DriveIsPaid(def, backendId, t, next, |def.nodes|, attempts[1..]);
      }
    }
  }

  lemma {:induction false} WayIsNotOver(def: WorkflowDefinition, s: Session, node: NodeId, k: nat)
    requires WayEnds(def, s, node, k)
    ensures k > 0
  {
  }

  lemma {:induction false} WayStays(def: WorkflowDefinition, s: Session, node: NodeId, t: Session, k: nat)
    requires WayEnds(def, s, node, k) && t.run.reworkCount == s.run.reworkCount
    ensures WayEnds(def, t, node, k) && Rounds(def, t) == Rounds(def, s)
  {
  }

  lemma {:induction false} WayStartsAgain(def: WorkflowDefinition, s: Session, node: NodeId, t: Session, k: nat)
    requires WayEnds(def, s, node, k) && def.Next(node, ReworkRequired).Some?
    requires s.run.reworkCount < def.rework.maxReworks && t.run.reworkCount == s.run.reworkCount + 1
    ensures WayEnds(def, t, def.rework.target, |def.nodes|) && Rounds(def, s) > 0
            && Rounds(def, t) == Rounds(def, s) - 1
  {
    assert k > 0 && SendsBackAt(def, node, 0);
  }

  // ---- Going on for ever ----

  /** An attempt at this node whose handler asks for rework and around which nothing goes wrong. */
  function SendingBack(def: WorkflowDefinition, node: NodeId): Attempt
    requires def.Node(node).Some?
  {
    Attempt(node, NoFault,
            Returned(NodeResult(ReworkRequired, def.Node(node).value.resultContract, "finding", [], None, None)),
            false, false, false, NoFault, false, false, NoFault)
  }

  lemma {:induction false} SendingBackStep(def: WorkflowDefinition, backendId: string, s: Session, node: NodeId)
    requires At(s, backendId, node) && def.Node(node).Some? && def.Next(node, ReworkRequired).Some?
    requires s.run.reworkCount < def.rework.maxReworks
    ensures var o := Dispatch(def, backendId, s, SendingBack(def, node));
            At(o.session, backendId, def.rework.target) && o.reply == Told(Some(def.rework.target))
  {
    assert !WhiteSpace("finding"[0]);
    H.FoundIsItself(def, node);
  }

  lemma {:induction false} Prepended(def: WorkflowDefinition, backendId: string, s: Session, a: Attempt,
                                     rest: seq<Attempt>)
    requires s.run.currentNode == Some(a.node)
    requires var o := Dispatch(def, backendId, s, a);
             o.reply.Told? && o.reply.next.Some? && W.Obedient(def, backendId, o.session, rest)
    ensures W.Obedient(def, backendId, s, [a] + rest)
  {
    hide Dispatch;
    assert ([a] + rest)[0] == a && ([a] + rest)[1..] == rest;
  }

  /** Along the way to a node that sends the work back, and on from the rework target for as long as that goes. */
  lemma {:induction false} DetourIsDriven(def: WorkflowDefinition, backendId: string, s: Session, node: NodeId, k: nat,
                                          n: nat)
    returns (attempts: seq<Attempt>)
    requires def.Valid() && def.HasNode(node) && At(s, backendId, node) && s.run.reworkCount < def.rework.maxReworks
    requires SendsBackAt(def, node, k) && Walk(def, def.rework.target, n).Some?
    ensures W.Obedient(def, backendId, s, attempts) && |attempts| == k + n + 2
    decreases k
  {
    hide WorkflowDefinition.Valid, WorkflowDefinition.HasNode, Dispatch, Settle, Succeeds, Going;
    NodeIsFound(def, node);
    if k == 0 {
      var a := SendingBack(def, node);
      SendingBackStep(def, backendId, s, node);
      TargetIsANode(def);
      var rest := WalkIsDriven(def, backendId, Dispatch(def, backendId, s, a).session, def.rework.target, n);
      GoingIsObedient(def, backendId, Dispatch(def, backendId, s, a).session, rest);
      Prepended(def, backendId, s, a, rest);
      attempts := [a] + rest;
    } else {
      var a := Succeeding(def, node);
      ShorterWalks(def, node, 1, k);
      WalkOn(def, node, 1, k - 1);
      WalkStaysInside(def, node, 1);
      SucceedingStep(def, backendId, s, node);
      var rest := DetourIsDriven(def, backendId, Dispatch(def, backendId, s, a).session, Walk(def, node, 1).value,
                                 k - 1, n);
      Prepended(def, backendId, s, a, rest);
      attempts := [a] + rest;
    }
  }

  lemma {:induction false} TargetIsANode(def: WorkflowDefinition)
    requires def.Valid()
    ensures def.HasNode(def.rework.target)
  {
  }

  lemma {:induction false} GoingIsObedient(def: WorkflowDefinition, backendId: string, s: Session,
                                           attempts: seq<Attempt>)
    requires Going(def, backendId, s, attempts)
    ensures W.Obedient(def, backendId, s, attempts)
  {
  }

  /** Validation does not bound the work.  On a valid definition the drives of an obedient backend, whatever its
      handlers answer, have bounded length if and only if following the success routes from the current node ends and,
      when rework is left and a node on that way may ask for it, following them from the rework target ends as well. */
  lemma {:induction false} WorkIsBoundedExactly(def: WorkflowDefinition, backendId: string, s: Session, node: NodeId)
    requires def.Valid() && def.HasNode(node) && At(s, backendId, node)
    ensures Bounded(def, backendId, s)
            <==> Ends(def, node)
                 && (s.run.reworkCount < def.rework.maxReworks && SendsBack(def, node) ==> Ends(def, def.rework.target))
  {
    hide WorkflowDefinition.Valid, WorkflowDefinition.HasNode, W.Obedient, SendsBackAt, Walk;
    if Ends(def, node) && (s.run.reworkCount < def.rework.maxReworks && SendsBack(def, node)
                           ==> Ends(def, def.rework.target)) {
      PaidIsBounded(def, backendId, s, node);
    } else {
      forall bound: nat ensures !AtMost(def, backendId, s, bound) {
        if Ends(def, node) { DetourIsLonger(def, backendId, s, node, bound); } else {
          WayIsLonger(def, backendId, s, node, bound);
        }
      }
    }
  }

  lemma {:induction false} WayIsLonger(def: WorkflowDefinition, backendId: string, s: Session, node: NodeId, bound: nat)
    requires def.Valid() && def.HasNode(node) && At(s, backendId, node) && !Ends(def, node)
    ensures !AtMost(def, backendId, s, bound)
  {
    hide WorkflowDefinition.Valid, WorkflowDefinition.HasNode, W.Obedient, Walk, Succeeds;
    LongWalksNeverEnd(def, node, bound);
    var attempts := WalkIsDriven(def, backendId, s, node, bound);
  }

  lemma {:induction false} DetourIsLonger(def: WorkflowDefinition, backendId: string, s: Session, node: NodeId,
                                          bound: nat)
    requires def.Valid() && def.HasNode(node) && At(s, backendId, node) && s.run.reworkCount < def.rework.maxReworks
    requires SendsBack(def, node) && !Ends(def, def.rework.target)
    ensures !AtMost(def, backendId, s, bound)
  {
    hide WorkflowDefinition.Valid, WorkflowDefinition.HasNode, W.Obedient, Walk, SendsBackAt;
    var k: nat :| k < |def.nodes| && SendsBackAt(def, node, k);
    TargetIsANode(def);
    LongWalksNeverEnd(def, def.rework.target, bound);
    var attempts := DetourIsDriven(def, backendId, s, node, k, bound);
  }

  lemma {:induction false} PaidIsBounded(def: WorkflowDefinition, backendId: string, s: Session, node: NodeId)
    requires s.run.currentNode == Some(node) && WayEnds(def, s, node, |def.nodes|)
    ensures AtMost(def, backendId, s, Rounds(def, s) * |def.nodes| + |def.nodes|
                   + W.RetriesLeft(def.nodes, s.run.executions))
  {
    hide W.Obedient, WayEnds;
    forall attempts | W.Obedient(def, backendId, s, attempts)
      ensures |attempts| <= Rounds(def, s) * |def.nodes| + |def.nodes| + W.RetriesLeft(def.nodes, s.run.executions) {
      DriveIsPaid(def, backendId, s, node, |def.nodes|, attempts);
    }
  }

  // ---- Valid definitions that never end ----

  const LOOPING: NodeDefinition := NodeDefinition(CODEX, NodeKind.Codex, "context/v1", "node-result/v1", WorkspaceWrite,
                                                  1, 0)

  lemma {:induction false} NamesAreNotBlank()
    ensures !Blank("circle") && !Blank("detour") && !Blank("context/v1") && !Blank("node-result/v1")
  {
    assert !WhiteSpace("circle"[0]) && !WhiteSpace("detour"[0]);
    assert !WhiteSpace("context/v1"[0]) && !WhiteSpace("node-result/v1"[0]);
  }

  /** Its only success route leads back to its only node. */
  const CIRCLE: WorkflowDefinition :=
    WorkflowDefinition("circle", 1, Fast, CODEX, [LOOPING], [Route(CODEX, Succeeded, CODEX)], [CODEX],
                       ReworkPolicy(0, CODEX))

  lemma {:induction false} CircleIsValidAndEndless(backendId: string, s: Session)
    requires At(s, backendId, CODEX)
    ensures CIRCLE.Valid() && CIRCLE.HasNode(CODEX) && forall n: nat :: CanGo(CIRCLE, backendId, s, n)
  {
    assert CIRCLE.nodes[0].nodeId == CODEX;
    NamesAreNotBlank();
    assert CIRCLE.Next(CODEX, Succeeded) == Some(CODEX);
    assert Walk(CIRCLE, CODEX, 1) == Walk(CIRCLE, CODEX, 0) == Some(CODEX);
    hide CanGo, At;
    EndlessExactlyWhenTheWayIs(CIRCLE, backendId, s, CODEX);
  }

  const CHECKING: NodeDefinition := NodeDefinition(TEST, NodeKind.Deterministic, "context/v1", "node-result/v1",
                                                   ReadOnly, 1, 0)
  /** Its way from the entry ends at once, but work that is sent back goes round in a circle. */
  const DETOUR: WorkflowDefinition :=
    WorkflowDefinition("detour", 1, Fast, CODEX, [LOOPING, CHECKING],
      [Route(CODEX, Succeeded, COMPLETE), Route(CODEX, ReworkRequired, TEST), Route(TEST, Succeeded, TEST)], [CODEX],
          ReworkPolicy(1, TEST))

  lemma {:induction false} DetourIsValidAndUnbounded(backendId: string, s: Session)
    requires At(s, backendId, CODEX) && s.run.reworkCount == 0
    ensures DETOUR.Valid() && DETOUR.HasNode(CODEX) && Ends(DETOUR, CODEX) && !Bounded(DETOUR, backendId, s)
  {
    DetourIsValid();
    DetourRoutes();
    assert Walk(DETOUR, TEST, 2) == Walk(DETOUR, TEST, 1) == Walk(DETOUR, TEST, 0) == Some(TEST);
    assert SendsBackAt(DETOUR, CODEX, 0);
    hide At, Bounded, WorkflowDefinition.Valid;
    WorkIsBoundedExactly(DETOUR, backendId, s, CODEX);
  }

  lemma {:induction false} DetourRoutes()
    ensures DETOUR.Next(CODEX, Succeeded) == Some(COMPLETE) && DETOUR.Next(CODEX, ReworkRequired) == Some(TEST)
    ensures DETOUR.Next(TEST, Succeeded) == Some(TEST) && Walk(DETOUR, CODEX, 2).None?
  {
    assert DETOUR.routes[1..] == [Route(CODEX, ReworkRequired, TEST), Route(TEST, Succeeded, TEST)];
    assert DETOUR.routes[1..][1..] == [Route(TEST, Succeeded, TEST)];
  }

  lemma {:induction false} DetourIsValid()
    ensures DETOUR.Valid() && DETOUR.HasNode(CODEX)
  {
    hide Blank;
    assert DETOUR.nodes[0].nodeId == CODEX && DETOUR.nodes[1].nodeId == TEST;
    NamesAreNotBlank();
  }
}
