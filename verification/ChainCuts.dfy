/** Exactly when the enumeration of call chains reports that something was cut. */
module ChainCuts {
  import opened Chains

  ghost predicate DistinctRels(rels: seq<Rel>) { forall i, j :: 0 <= i < j < |rels| ==> rels[i] != rels[j] }

  /** A simple path from a root that no chain goes along. */
  ghost predicate Missed(rels: seq<Rel>, f: Found, root: string, q: seq<Rel>) {
    root in RootSet(rels) && Simple(rels, root, q) && q != [] && !Covered(f, q)
  }

  /** ... and that no later chain can go along: there are as many chains as there may be, or it is too long. */
  ghost predicate Lost(rels: seq<Rel>, f: Found) {
    exists root, q :: Missed(rels, f, root, q) && (|f.chains| >= MAX_CHAINS || |q| > MAX_HOPS)
  }

  ghost predicate CutForReason(rels: seq<Rel>, f: Found) { f.truncated ==> Lost(rels, f) }

  lemma {:induction false} IsLost(rels: seq<Rel>, f: Found, root: string, q: seq<Rel>)
    requires Missed(rels, f, root, q) && (|f.chains| >= MAX_CHAINS || |q| > MAX_HOPS)
    ensures Lost(rels, f)
  {
  }

  lemma {:induction false} LongIsMissed(rels: seq<Rel>, f: Found, root: string, q: seq<Rel>)
    requires AllChains(rels, f) && root in RootSet(rels) && Simple(rels, root, q) && |q| > MAX_HOPS
    ensures Lost(rels, f)
  {
    hide RootSet, Simple;
    IsLost(rels, f, root, q);
  }

  lemma {:induction false} LostStays(rels: seq<Rel>, f: Found, v: Found)
    requires Lost(rels, f) && AllChains(rels, v) && (|f.chains| >= MAX_CHAINS ==> v.chains == f.chains)
    ensures Lost(rels, v)
  {
    hide RootSet, Simple;
    var root, q :| Missed(rels, f, root, q) && (|f.chains| >= MAX_CHAINS || |q| > MAX_HOPS);
    if |q| > MAX_HOPS { LongIsMissed(rels, v, root, q); } else { IsLost(rels, v, root, q); }
  }

  lemma {:induction false} OutgoingIsDistinct(rels: seq<Rel>, node: string, seen: set<string>)
    requires DistinctRels(rels)
    ensures DistinctRels(Outgoing(rels, node, seen))
  {
    if rels != [] {
      OutgoingIsDistinct(rels[1..], node, seen);
      assert rels[0] !in rels[1..];
    }
  }

  /** What a visit adds: chains along its path, from its root; and nothing once the limit is reached. */
  ghost predicate Adds(f: Found, v: Found, path: seq<Rel>, root: string) {
    && f.chains <= v.chains && (|f.chains| >= MAX_CHAINS ==> v.chains == f.chains)
    && forall i :: |f.chains| <= i < |v.chains| ==>
         path <= v.chains[i] && v.chains[i] != [] && v.chains[i][0].source == root
  }

  lemma {:induction false} AddsMore(f: Found, u: Found, v: Found, path: seq<Rel>, longer: seq<Rel>, root: string)
    requires path <= longer && Adds(f, u, longer, root) && Adds(u, v, path, root)
    ensures Adds(f, v, path, root)
  {
    forall i | |f.chains| <= i < |u.chains| ensures path <= v.chains[i] && v.chains[i] == u.chains[i] {
      assert v.chains[i] == u.chains[i];
    }
  }

  /** No chain goes along this path yet; at a root there is room for one more. */
  ghost predicate Untouched(f: Found, path: seq<Rel>, root: string) {
    if path == [] then
      |f.chains| < MAX_CHAINS
      && forall i :: 0 <= i < |f.chains| && f.chains[i] != [] ==> f.chains[i][0].source != root
    else !Covered(f, path)
  }

  /** A visit starts on a path no chain goes along yet, and whatever it cuts is lost. */
  lemma {:induction false} VisitCuts(rels: seq<Rel>, f: Found, node: string, path: seq<Rel>, root: string)
    requires DistinctRels(rels) && |path| <= MAX_HOPS && AllChains(rels, f) && root in RootSet(rels)
    requires Simple(rels, root, path) && node == End(root, path) && CutForReason(rels, f)
    requires Untouched(f, path, root)
    ensures var v := Explore(rels, f, node, path, Seen(root, path));
            CutForReason(rels, v) && Adds(f, v, path, root)
    decreases MAX_HOPS - |path|, 1, 0
  {
    hide Simple, RootSet, AllChains, Lost, Covered, VisitEach;
    var out := Outgoing(rels, node, Seen(root, path));
    var v := Explore(rels, f, node, path, Seen(root, path));
    VisitIsSound(rels, f, node, path, root);
    if |f.chains| >= MAX_CHAINS {
      SameCover(f, v, path);
      IsLost(rels, v, root, path);
    } else if out == [] || |path| >= MAX_HOPS {
      if path != [] { SimpleStart(rels, root, path); }
      if out != [] {
        SimpleStep(rels, root, path, out[0]);
        LongIsMissed(rels, v, root, path + [out[0]]);
      } else if f.truncated {
        LostStays(rels, f, v);
      }
    } else {
      OutgoingIsDistinct(rels, node, Seen(root, path));
      forall r <- out ensures !Covered(f, path + [r]) { LongerIsUncovered(f, path, root, r); }
      EachCuts(rels, f, out, path, root);
    }
  }

  lemma {:induction false} SameCover(f: Found, v: Found, path: seq<Rel>)
    requires v.chains == f.chains
    ensures Covered(v, path) <==> Covered(f, path)
  {
  }

  lemma {:induction false} SimpleStart(rels: seq<Rel>, root: string, path: seq<Rel>)
    requires Simple(rels, root, path) && path != []
    ensures path[0].source == root
  {
  }

  lemma {:induction false} LongerIsUncovered(f: Found, path: seq<Rel>, root: string, r: Rel)
    requires Untouched(f, path, root) && r.source == End(root, path)
    ensures !Covered(f, path + [r])
  {
    if i :| 0 <= i < |f.chains| && path + [r] <= f.chains[i] {
      assert path <= f.chains[i];
      if path == [] { assert f.chains[i][0] == (path + [r])[0] == r; }
    }
  }

  lemma {:induction false} EachCuts(rels: seq<Rel>, f: Found, out: seq<Rel>, path: seq<Rel>, root: string)
    requires DistinctRels(rels) && DistinctRels(out) && |path| < MAX_HOPS && AllChains(rels, f)
    requires root in RootSet(rels) && Simple(rels, root, path) && CutForReason(rels, f)
    requires forall r <- out :: r in rels && r.source == End(root, path) && r.target !in Seen(root, path)
    requires forall r <- out :: !Covered(f, path + [r])
    ensures var v := VisitEach(rels, f, out, path, Seen(root, path));
            CutForReason(rels, v) && Adds(f, v, path, root)
    decreases MAX_HOPS - |path|, 0, |out|
  {
    hide Simple, RootSet, AllChains, Seen, End, Lost, Explore;
    if out != [] {
      var r, rest := out[0], out[1..];
      SimpleStep(rels, root, path, r);
      VisitIsSound(rels, f, r.target, path + [r], root);
      VisitCuts(rels, f, r.target, path + [r], root);
      var v := Explore(rels, f, r.target, path + [r], Seen(root, path + [r]));
      forall x <- rest ensures !Covered(v, path + [x]) { StillUncovered(f, v, path, root, r, x); }
      EachCuts(rels, v, rest, path, root);
      assert path <= path + [r];
      AddsMore(f, v, VisitEach(rels, v, rest, path, Seen(root, path)), path, path + [r], root);
    }
  }

  /** Chains along one relationship do not go along another. */
  lemma {:induction false} StillUncovered(f: Found, v: Found, path: seq<Rel>, root: string, r: Rel, x: Rel)
    requires Adds(f, v, path + [r], root) && x != r && !Covered(f, path + [x])
    ensures !Covered(v, path + [x])
  {
    if i :| 0 <= i < |v.chains| && path + [x] <= v.chains[i] {
      if i >= |f.chains| { PrefixesMeet(v.chains[i], path, r, x); }
    }
  }

  lemma {:induction false} PrefixesMeet(chain: seq<Rel>, path: seq<Rel>, r: Rel, x: Rel)
    requires path + [r] <= chain && path + [x] <= chain
    ensures r == x
  {
    assert chain[|path|] == (path + [r])[|path|] && chain[|path|] == (path + [x])[|path|];
  }

  // ---- All roots ----

  /** Every root has a relationship to another node. */
  ghost predicate RootsLead(rels: seq<Rel>) {
    forall x <- RootSet(rels) :: exists r <- rels :: r.source == x && r.target != x
  }

  /** When nothing leads to some source, every root leads somewhere. */
  lemma {:induction false} ProperRootsLead(rels: seq<Rel>)
    requires !(Sources(rels) <= Targets(rels))
    ensures RootsLead(rels)
  {
    forall x <- RootSet(rels) ensures exists r <- rels :: r.source == x && r.target != x {
      var r :| r in rels && r.source == x;
      assert r.target in Targets(rels);
    }
  }

  lemma {:induction false} OneHop(rels: seq<Rel>, r: Rel)
    requires r in rels && r.source != r.target
    ensures Simple(rels, r.source, [r])
  {
  }

  /** With the limit reached, a root that leads somewhere and was not visited is lost. */
  lemma {:induction false} NextRootIsLost(rels: seq<Rel>, f: Found, root: string)
    requires root in RootSet(rels) && RootsLead(rels) && |f.chains| >= MAX_CHAINS && AllChains(rels, f)
    requires forall i :: 0 <= i < |f.chains| && f.chains[i] != [] ==> f.chains[i][0].source != root
    ensures Lost(rels, f)
  {
    hide RootSet;
    var r :| r in rels && r.source == root && r.target != root;
    OneHop(rels, r);
    assert forall i :: 0 <= i < |f.chains| ==> !([r] <= f.chains[i]);
    hide Simple;
    IsLost(rels, f, root, [r]);
  }

  /** The enumeration stopped with roots left: its last chain may be its last, and is not from the last root. */
  ghost predicate StopsEarly(f: Found, roots: seq<string>) {
    && |f.chains| >= MAX_CHAINS && roots != [] && f.chains[|f.chains| - 1] != []
    && f.chains[|f.chains| - 1][0].source != roots[|roots| - 1]
  }

  lemma {:induction false} SameChains(rels: seq<Rel>, f: Found, v: Found)
    requires v.chains == f.chains
    ensures AllChains(rels, v) <==> AllChains(rels, f)
    ensures Lost(rels, v) <==> Lost(rels, f)
  {
    forall root, q ensures Missed(rels, f, root, q) <==> Missed(rels, v, root, q) { SameCover(f, v, q); }
  }

  /** Chains come from roots that were visited, and none from those that are left. */
  ghost predicate NoneFrom(f: Found, roots: seq<string>) {
    forall i, j :: 0 <= i < |f.chains| && 0 <= j < |roots| && f.chains[i] != [] ==> f.chains[i][0].source != roots[j]
  }

  lemma {:induction false} RootVisited(rels: seq<Rel>, f: Found, roots: seq<string>)
    requires DistinctRels(rels) && AllChains(rels, f) && CutForReason(rels, f) && |f.chains| < MAX_CHAINS
    requires roots != [] && roots[0] in RootSet(rels) && NoneFrom(f, roots)
    requires forall i, j :: 0 <= i < j < |roots| ==> roots[i] != roots[j]
    ensures var v := Explore(rels, f, roots[0], [], {roots[0]});
            && AllChains(rels, v) && CutForReason(rels, v) && NoneFrom(v, roots[1..])
            && (|v.chains| >= MAX_CHAINS ==> v.chains[|v.chains| - 1] != []
                                             && v.chains[|v.chains| - 1][0].source == roots[0])
  {
    hide RootSet, Explore, AllChains, Lost, Simple;
    var root := roots[0];
    assert Seen(root, []) == {root};
    SimpleNone(rels, root);
    VisitIsSound(rels, f, root, [], root);
    VisitCuts(rels, f, root, [], root);
    var v := Explore(rels, f, root, [], {root});
    forall i, j | 0 <= i < |v.chains| && 0 <= j < |roots[1..]| && v.chains[i] != []
      ensures v.chains[i][0].source != roots[1..][j] {
      if i < |f.chains| { assert v.chains[i] == f.chains[i]; }
    }
  }

  lemma {:induction false} RootsCut(rels: seq<Rel>, f: Found, roots: seq<string>)
    requires DistinctRels(rels) && AllChains(rels, f) && CutForReason(rels, f) && NoneFrom(f, roots)
    requires (forall x <- roots :: x in RootSet(rels)) && |f.chains| < MAX_CHAINS
    requires forall i, j :: 0 <= i < j < |roots| ==> roots[i] != roots[j]
    ensures var v := VisitRoots(rels, f, roots);
            && (v.truncated ==> Lost(rels, v) || StopsEarly(v, roots))
            && (StopsEarly(v, roots) ==> v.truncated && (RootsLead(rels) ==> Lost(rels, v)))
    decreases |roots|
  {
    hide RootSet, Explore, AllChains, Lost, RootsLead, Simple, NoneFrom;
    if roots != [] {
      RootVisited(rels, f, roots);
      var v := Explore(rels, f, roots[0], [], {roots[0]});
      if |v.chains| < MAX_CHAINS {
        RootsCut(rels, v, roots[1..]);
        if |roots| == 1 { assert VisitRoots(rels, v, roots[1..]) == v; }
      } else {
        SameChains(rels, v, VisitRoots(rels, f, roots));
        if |roots| > 1 && RootsLead(rels) { LeftRootIsLost(rels, v, roots); }
      }
    }
  }

  lemma {:induction false} LeftRootIsLost(rels: seq<Rel>, f: Found, roots: seq<string>)
    requires |roots| > 1 && roots[1] in RootSet(rels) && RootsLead(rels) && |f.chains| >= MAX_CHAINS
    requires AllChains(rels, f) && NoneFrom(f, roots[1..])
    ensures Lost(rels, f)
  {
    hide RootSet, AllChains, RootsLead, Lost;
    assert roots[1..][0] == roots[1];
    NextRootIsLost(rels, f, roots[1]);
  }

  /** The enumeration reports a cut exactly when some simple path from a root lies on no chain, or it stopped with roots
      left; when every root leads to another node, the second means the first. */
  lemma {:induction false} CutExactly(rels: seq<Rel>, roots: seq<string>)
    requires DistinctRels(rels) && RootsInOrder(rels, roots)
    ensures var f := VisitRoots(rels, Found([], false), roots);
            && (f.truncated <==> (exists root, q :: Missed(rels, f, root, q)) || StopsEarly(f, roots))
            && (RootsLead(rels) ==> (f.truncated <==> exists root, q :: Missed(rels, f, root, q)))
  {
    hide RootSet, VisitRoots, Simple, RootsLead, StopsEarly;
    var f := VisitRoots(rels, Found([], false), roots);
    RootsCut(rels, Found([], false), roots);
    if root, q :| Missed(rels, f, root, q) {
      if !f.truncated { RootsAreComplete(rels, Found([], false), roots, root, q); }
    }
  }

  // ---- The roots ----

  predicate Leads(rels: seq<Rel>, x: string) { exists r <- rels :: r.source == x }
  predicate LedTo(rels: seq<Rel>, x: string) { exists r <- rels :: r.target == x }

  /** A root is a source nothing leads to, unless every source is led to: then every source is one.  There is a root
      whenever there is a relationship. */
  lemma {:induction false} RootsAre(rels: seq<Rel>)
    ensures rels != [] ==> RootSet(rels) != {}
    ensures forall x :: x in RootSet(rels)
                        <==> Leads(rels, x)
                             && (!LedTo(rels, x) || forall y :: Leads(rels, y) ==> LedTo(rels, y))
  {
    SourcesLead(rels);
    if Sources(rels) <= Targets(rels) {
      if rels != [] { assert rels[0].source in RootSet(rels); }
    } else {
      var x :| x in Sources(rels) && x !in Targets(rels);
      assert x in RootSet(rels);
    }
    hide Leads, LedTo;
  }

  lemma {:induction false} SourcesLead(rels: seq<Rel>)
    ensures forall x :: x in Sources(rels) <==> Leads(rels, x)
    ensures forall x :: x in Targets(rels) <==> LedTo(rels, x)
  {
  }

  // ---- A cut that is none ----

  /** Fifteen relationships from a to b. */
  ghost predicate Fifteen(x: seq<Rel>) {
    |x| == 15 && DistinctRels(x) && forall i :: 0 <= i < |x| ==> x[i].source == "a" && x[i].target == "b"
  }

  const BACK := Rel("", "b", "a")
  const ITSELF := Rel("", "s", "s")

  /** ... with one back and one from s to itself: every node is led to. */
  function Rels(x: seq<Rel>): seq<Rel> { x + [BACK] + [ITSELF] }

  lemma {:induction false} RelsAre(x: seq<Rel>, r: Rel)
    requires Fifteen(x)
    ensures r in Rels(x) <==> r in x || r == BACK || r == ITSELF
  {
  }

  lemma {:induction false} RelsAreDistinct(x: seq<Rel>)
    requires Fifteen(x)
    ensures DistinctRels(Rels(x)) && RootsInOrder(Rels(x), ["b", "a", "s"])
  {
    var rels, roots := Rels(x), ["b", "a", "s"];
    assert rels[0] == x[0] && rels[15] == BACK && rels[16] == ITSELF;
    forall r <- rels ensures r.source in {"a", "b", "s"} && r.target in {"a", "b", "s"} { RelsAre(x, r); }
    assert {"a", "b", "s"} == Sources(rels) by {
      assert rels[0].source == "a" && rels[15].source == "b" && rels[16].source == "s";
    }
    assert {"a", "b", "s"} == Targets(rels) by {
      assert rels[0].target == "b" && rels[15].target == "a" && rels[16].target == "s";
    }
    assert roots[0] == "b" && roots[1] == "a" && roots[2] == "s";
  }

  /** Relationships that all lead on come out as they are, before those that do not. */
  lemma {:induction false} OutgoingFirst(x: seq<Rel>, y: seq<Rel>, node: string, seen: set<string>)
    requires forall r <- x :: r.source == node && r.target !in seen
    requires forall r <- y :: !(r.source == node && r.target !in seen)
    ensures Outgoing(x + y, node, seen) == x
    decreases |x|
  {
    if x == [] {
      assert x + y == y;
      NothingLeads(y, node, seen);
    } else {
      assert (x + y)[0] == x[0] && (x + y)[1..] == x[1..] + y;
      OutgoingFirst(x[1..], y, node, seen);
      assert x == [x[0]] + x[1..];
    }
  }

  lemma {:induction false} OutgoingSkips(x: seq<Rel>, y: seq<Rel>, node: string, seen: set<string>)
    requires forall r <- x :: r.source != node
    ensures Outgoing(x + y, node, seen) == Outgoing(y, node, seen)
    decreases |x|
  {
    if x == [] {
      assert x + y == y;
    } else {
      assert (x + y)[0] == x[0] && (x + y)[1..] == x[1..] + y;
      OutgoingSkips(x[1..], y, node, seen);
    }
  }

  lemma {:induction false} NothingLeads(y: seq<Rel>, node: string, seen: set<string>)
    requires forall r <- y :: !(r.source == node && r.target !in seen)
    ensures Outgoing(y, node, seen) == []
  {
    if y != [] { NothingLeads(y[1..], node, seen); }
  }

  /** Where each node leads. */
  lemma {:induction false} LeadsOf(x: seq<Rel>)
    requires Fifteen(x)
    ensures Outgoing(Rels(x), "b", {"b"}) == [BACK]
    ensures Outgoing(Rels(x), "a", {"b", "a"}) == [] == Outgoing(Rels(x), "b", {"a", "b"})
    ensures Outgoing(Rels(x), "a", {"a"}) == x
  {
    forall r ensures r in Rels(x) <==> r in x || r == BACK || r == ITSELF { RelsAre(x, r); }
    NothingLeads(Rels(x), "a", {"b", "a"});
    NothingLeads(Rels(x), "b", {"a", "b"});
    assert Rels(x) == x + ([BACK] + [ITSELF]);
    OutgoingFirst(x, [BACK] + [ITSELF], "a", {"a"});
    OutgoingSkips(x, [BACK] + [ITSELF], "b", {"b"});
    OutgoingFirst([BACK], [ITSELF], "b", {"b"});
  }

  /** Visiting relationships that lead nowhere further adds a chain of one for each. */
  lemma {:induction false} DeadEnds(rels: seq<Rel>, f: Found, out: seq<Rel>)
    requires (forall r <- out :: r.target == "b") && Outgoing(rels, "b", {"a", "b"}) == []
    requires |f.chains| + |out| <= MAX_CHAINS && !f.truncated
    ensures var v := VisitEach(rels, f, out, [], {"a"});
            |v.chains| == |f.chains| + |out| && !v.truncated
    decreases |out|
  {
    hide Outgoing;
    if out != [] {
      assert {"a"} + {out[0].target} == {"a", "b"} && [] + [out[0]] == [out[0]];
      var next := Explore(rels, f, "b", [out[0]], {"a", "b"});
      assert next == Found(f.chains + [[out[0]]], false);
      DeadEnds(rels, next, out[1..]);
    }
  }

  /** From b there is one chain. */
  lemma {:induction false} OneFromB(rels: seq<Rel>)
    requires Outgoing(rels, "b", {"b"}) == [BACK] && Outgoing(rels, "a", {"b", "a"}) == []
    ensures Explore(rels, Found([], false), "b", [], {"b"}) == Found([[BACK]], false)
  {
    hide Outgoing;
    var none, one := Found([], false), Found([[BACK]], false);
    assert {"b"} + {"a"} == {"b", "a"} && [] + [BACK] == [BACK] && [BACK][1..] == [];
    assert Explore(rels, none, "a", [BACK], {"b", "a"}) == one;
    assert VisitEach(rels, none, [BACK], [], {"b"}) == VisitEach(rels, one, [], [], {"b"}) == one;
  }

  /** Before the last root, sixteen chains are found and nothing is cut. */
  lemma {:induction false} TwoRootsFill(x: seq<Rel>)
    requires Fifteen(x)
    ensures var v := VisitRoots(Rels(x), Found([], false), ["b", "a"]);
            |v.chains| == MAX_CHAINS && !v.truncated
            && VisitRoots(Rels(x), Found([], false), ["b", "a", "s"]) == v.(truncated := true)
  {
    hide Outgoing, Rels, VisitEach;
    LeadsOf(x);
    var rels, one := Rels(x), Found([[BACK]], false);
    OneFromB(rels);
    forall r <- x ensures r.target == "b" { }
    DeadEnds(rels, one, x);
    var v := Explore(rels, one, "a", [], {"a"});
    assert v == VisitEach(rels, one, x, [], {"a"});
    assert ["b", "a", "s"][1..] == ["a", "s"] && ["b", "a"][1..] == ["a"];
    hide Explore;
    assert VisitRoots(rels, one, ["a"]) == v && VisitRoots(rels, one, ["a", "s"]) == v.(truncated := true);
  }

  /** The last root leads to itself alone, so a cut is reported although no path is missed. */
  lemma {:induction false} NothingIsCutThere(x: seq<Rel>, root: string, q: seq<Rel>)
    requires Fifteen(x)
    ensures var f := VisitRoots(Rels(x), Found([], false), ["b", "a", "s"]);
            f.truncated && !Missed(Rels(x), f, root, q)
  {
    hide VisitRoots, AllChains, Simple, Rels;
    TwoRootsFill(x);
    RelsAreDistinct(x);
    var rels, f := Rels(x), VisitRoots(Rels(x), Found([], false), ["b", "a", "s"]);
    if Missed(rels, f, root, q) {
      var v := VisitRoots(rels, Found([], false), ["b", "a"]);
      SameCover(f, v, q);
      if root == "s" {
        OnlyItself(x, q);
      } else {
        assert root in ["b", "a", "s"];
        TwoOfThree(root);
        NoChainsYet(rels);
        RootsAreComplete(rels, Found([], false), ["b", "a"], root, q);
      }
    }
  }

  lemma {:induction false} TwoOfThree(root: string)
    requires root in ["b", "a", "s"] && root != "s"
    ensures root in ["b", "a"]
    ensures forall y <- ["b", "a"] :: y in ["b", "a", "s"]
  {
  }

  lemma {:induction false} NoChainsYet(rels: seq<Rel>)
    ensures AllChains(rels, Found([], false))
  {
  }

  lemma {:induction false} OnlyItself(x: seq<Rel>, q: seq<Rel>)
    requires Fifteen(x) && q != []
    ensures !Simple(Rels(x), "s", q)
  {
    if Simple(Rels(x), "s", q) { RelsAre(x, q[0]); }
  }

  /** There are such relationships. */
  function Parallel(n: nat): seq<Rel> {
    seq(n, i requires 0 <= i < n => Rel(seq(i + 1, _ => 'e'), "a", "b"))
  }

  lemma {:induction false} FifteenAre()
    ensures Fifteen(Parallel(15))
  {
    var x := Parallel(15);
    forall i, j | 0 <= i < j < |x| ensures x[i] != x[j] { assert |x[i].edge| == i + 1 && |x[j].edge| == j + 1; }
  }
}
