/** What every comparison of two graphs leaves true. */
module GraphTheorems {
  import opened GraphDiff
  import opened GraphCompare

  // ---- Errors and precedence ----

  /** The one-to-one check never fires: a comparison is refused only for a hint that names no single unmapped node. */
  lemma {:induction false} OnlyHintsRefuse(r: Request)
    ensures DiffOf(r).Refused? ==> DiffOf(r).error.LabelNotUnique?
    ensures r.hints == [] ==> DiffOf(r).Compared?
  {
    hide FinalOld, FinalNew, Summarize, EdgeChanges, NodeLimitations, EdgeLimitations;
    HintErrors(r, StableLinks(r), r.hints);
  }

  /** Two symbols that share a stable key, each the only one with it. */
  ghost predicate SameSymbols(r: Request, a: string, b: string) {
    Pair(r.before.nodes.Keys, r.after.nodes.Keys, StableKeys(r.before), StableKeys(r.after), a, b)
  }

  /** What is said of a pair of symbols: moved when the paths differ, the same symbol otherwise, with the confidence the
      request asks for. */
  ghost predicate SymbolLink(r: Request, a: string, link: Link) {
    && a in r.before.nodes && link.newId in r.after.nodes && link.confidence == r.confidence
    && if r.before.nodes[a].path != r.after.nodes[link.newId].path
       then link.kind == Moved && link.change == MovedAway
       else link.kind == SameSymbol && link.change == Unchanged
  }

  /** Two symbols that share a stable key, each alone with it, are mapped to each other whatever the hints and renames
      say. */
  lemma {:induction false} StableSymbolsComeFirst(r: Request, a: string, b: string)
    requires MatchedNodes(r).Links? && SameSymbols(r, a, b)
    ensures a in MatchedNodes(r).links && MatchedNodes(r).links[a].newId == b
            && SymbolLink(r, a, MatchedNodes(r).links[a])
  {
    hide HintLinks, StableKeys, StructuralKeys, Bijective;
    StableIsBijective(r);
    HintsKeepBijective(r, StableLinks(r), r.hints);
    var links := HintLinks(r, StableLinks(r), r.hints).links;
    assert a in StableLinks(r) && StableLinks(r)[a].newId == b;
    PairsAvoid(UnmappedOld(r, links), UnmappedNew(r, links), StructuralKeys(r.before, r.renames),
               StructuralKeys(r.after, map[]), a);
  }

  lemma {:induction false} PairsAvoid(olds: set<string>, news: set<string>, oldKey: Keys, newKey: Keys, a: string)
    requires a !in olds
    ensures a !in Pairs(olds, news, oldKey, newKey)
  {
  }

  /** What is said of a hinted pair: its nodes have the two names and it is of the hint's kind; it starts moved when
      that kind says so and updated otherwise, and is never more than structural. */
  ghost predicate HintedLink(r: Request, hint: Hint, a: string, link: Link) {
    && a in r.before.nodes && r.before.nodes[a].name == hint.oldLabel
    && link.newId in r.after.nodes && r.after.nodes[link.newId].name == hint.newLabel
    && link.kind == hint.kind && link.confidence == Structural
    && link.change == if hint.kind == Moved || hint.kind == RenamedAndMoved then MovedAway else Updated
  }

  ghost predicate HintKept(r: Request, links: map<string, Link>, hint: Hint) {
    exists a <- links :: HintedLink(r, hint, a, links[a])
  }

  lemma {:induction false} HintsAreTaken(r: Request, links: map<string, Link>, hints: seq<Hint>, i: nat)
    requires Bijective(r, links) && HintLinks(r, links, hints).Links? && i < |hints|
    ensures HintKept(r, HintLinks(r, links, hints).links, hints[i])
    decreases |hints|
  {
    hide Bijective;
    var a, b := TakenHint(r, links, hints);
    var next := links[a := HintLink(hints[0], b)];
    OneLinkKeepsBijective(r, links, a, HintLink(hints[0], b));
    if i == 0 {
      HintsKeepBijective(r, next, hints[1..]);
      var final := HintLinks(r, links, hints).links;
      assert a in Labelled(r.before, hints[0].oldLabel, links.Keys)
             && b in Labelled(r.after, hints[0].newLabel, NewIds(links));
      assert final[a] == next[a] && HintedLink(r, hints[0], a, final[a]);
    } else {
      HintsAreTaken(r, next, hints[1..], i - 1);
    }
  }

  lemma {:induction false} HintsAreKept(r: Request, i: nat)
    requires MatchedNodes(r).Links? && i < |r.hints|
    ensures HintKept(r, MatchedNodes(r).links, r.hints[i])
  {
    hide HintLinks, StableLinks, StructuralKeys, Bijective, HintedLink;
    StableIsBijective(r);
    HintsAreTaken(r, StableLinks(r), r.hints, i);
    var links := HintLinks(r, StableLinks(r), r.hints).links;
    var a :| a in links && HintedLink(r, r.hints[i], a, links[a]);
    PairsAvoid(UnmappedOld(r, links), UnmappedNew(r, links), StructuralKeys(r.before, r.renames),
               StructuralKeys(r.after, map[]), a);
    assert MatchedNodes(r).links[a] == links[a];
  }

  /** What is said of a pair found by structure alone: a guess between nodes of one kind, name and path, the old path
      read through the renames, that starts unchanged. */
  ghost predicate StructureLink(r: Request, a: string, link: Link) {
    && a in r.before.nodes && link.newId in r.after.nodes
    && link.kind == Heuristic && link.confidence == Structural && link.change == Unchanged
    && var m, n := r.before.nodes[a], r.after.nodes[link.newId];
    && m.kind == n.kind && m.name == n.name
    && n.path == if m.path in r.renames then r.renames[m.path] else m.path
  }

  /** Every pair of the mapping comes from one of the three passes, in their order, and says what that pass says. */
  lemma {:induction false} EveryLinkIsExplained(r: Request, a: string)
    requires MatchedNodes(r).Links? && a in MatchedNodes(r).links
    ensures var link := MatchedNodes(r).links[a];
            || (SameSymbols(r, a, link.newId) && SymbolLink(r, a, link))
            || (exists i :: 0 <= i < |r.hints| && HintedLink(r, r.hints[i], a, link))
            || StructureLink(r, a, link)
  {
    hide HintLinks, StableKeys, SymbolLink, Bijective, HintedLink;
    var links := HintLinks(r, StableLinks(r), r.hints).links;
    if a in links {
      HintedOrBefore(r, StableLinks(r), r.hints, a);
      if a in StableLinks(r) && links[a] == StableLinks(r)[a] { StableSymbolsComeFirst(r, a, links[a].newId); }
    } else {
      var b := StructuralPairs(r, links)[a];
      assert Pair(UnmappedOld(r, links), UnmappedNew(r, links), StructuralKeys(r.before, r.renames),
                  StructuralKeys(r.after, map[]), a, b);
      SameStructure(r, a, b);
    }
  }

  lemma {:induction false} SameStructure(r: Request, a: string, b: string)
    requires a in r.before.nodes && b in r.after.nodes
    requires StructuralKeys(r.before, r.renames)(a) == StructuralKeys(r.after, map[])(b)
    ensures StructureLink(r, a, StructuralLink()(a, b))
  {
    var k, l := StructuralKeys(r.before, r.renames)(a).value, StructuralKeys(r.after, map[])(b).value;
    assert k[0] == l[0] && k[1] == l[1] && k[2] == l[2];
  }

  lemma {:induction false} HintedOrBefore(r: Request, links: map<string, Link>, hints: seq<Hint>, a: string)
    requires HintLinks(r, links, hints).Links? && a in HintLinks(r, links, hints).links
    ensures var link := HintLinks(r, links, hints).links[a];
            || (a in links && link == links[a])
            || exists i :: 0 <= i < |hints| && HintedLink(r, hints[i], a, link)
    decreases |hints|
  {
    if hints != [] {
      var x, y := TakenHint(r, links, hints);
      var next := links[x := HintLink(hints[0], y)];
      HintedOrBefore(r, next, hints[1..], a);
      var link := HintLinks(r, links, hints).links[a];
      if i :| 0 <= i < |hints[1..]| && HintedLink(r, hints[1..][i], a, link) {
        assert HintedLink(r, hints[i + 1], a, link);
      } else if a == x {
        assert x in Labelled(r.before, hints[0].oldLabel, links.Keys)
               && y in Labelled(r.after, hints[0].newLabel, NewIds(links));
        assert HintedLink(r, hints[0], a, link);
      }
    }
  }

  // ---- Nothing that could be paired is left ----

  /** An unpaired item that is alone among the unpaired ones is alone. */
  lemma {:induction false} OldLeftAlone(olds: set<string>, news: set<string>, oldKey: Keys, newKey: Keys, a: string)
    requires a in olds - Pairs(olds, news, oldKey, newKey).Keys
             && Alone(olds - Pairs(olds, news, oldKey, newKey).Keys, oldKey, a)
    ensures Alone(olds, oldKey, a)
  {
    var pairs := Pairs(olds, news, oldKey, newKey);
    forall x <- olds | oldKey(x) == oldKey(a) ensures x == a {
      if x in pairs { assert Pair(olds, news, oldKey, newKey, x, pairs[x]); }
    }
  }

  lemma {:induction false} PairedNewsAreAlone(olds: set<string>, news: set<string>, oldKey: Keys, newKey: Keys)
    ensures forall y <- Pairs(olds, news, oldKey, newKey).Values :: y in news && Alone(news, newKey, y)
  {
    var pairs := Pairs(olds, news, oldKey, newKey);
    forall y <- pairs.Values ensures y in news && Alone(news, newKey, y) {
      var x :| x in pairs && pairs[x] == y;
      assert Pair(olds, news, oldKey, newKey, x, y);
    }
  }

  lemma {:induction false} NewLeftAlone(olds: set<string>, news: set<string>, oldKey: Keys, newKey: Keys, b: string)
    requires b in news - Pairs(olds, news, oldKey, newKey).Values
             && Alone(news - Pairs(olds, news, oldKey, newKey).Values, newKey, b)
    ensures Alone(news, newKey, b)
  {
    PairedNewsAreAlone(olds, news, oldKey, newKey);
  }

  lemma {:induction false} NotBothLeft(olds: set<string>, news: set<string>, oldKey: Keys, newKey: Keys, a: string,
                                       b: string)
    requires a in olds - Pairs(olds, news, oldKey, newKey).Keys && b in news - Pairs(olds, news, oldKey, newKey).Values
    requires oldKey(a).Some? && oldKey(a) == newKey(b)
    ensures !(Alone(olds - Pairs(olds, news, oldKey, newKey).Keys, oldKey, a)
              && Alone(news - Pairs(olds, news, oldKey, newKey).Values, newKey, b))
  {
    hide Alone;
    var pairs, paired := Pairs(olds, news, oldKey, newKey), Pair(olds, news, oldKey, newKey, a, b);
    if Alone(olds - pairs.Keys, oldKey, a) { OldLeftAlone(olds, news, oldKey, newKey, a); }
    if Alone(news - pairs.Values, newKey, b) { NewLeftAlone(olds, news, oldKey, newKey, b); }
  }

  lemma {:induction false} SingleIsAlone(items: set<string>, key: Keys, k: Key)
    requires |Held(items, key, k)| == 1
    ensures exists a :: a in items && key(a) == Some(k) && Alone(items, key, a)
  {
    var a :| a in Held(items, key, k);
    OfSizeOne(Held(items, key, k), a);
    assert forall x <- items :: key(x) == key(a) ==> x in Held(items, key, k);
  }

  lemma {:induction false} PairingLeavesNoPair(olds: set<string>, news: set<string>, oldKey: Keys, newKey: Keys, k: Key)
    ensures var pairs := Pairs(olds, news, oldKey, newKey);
            !(|Held(olds - pairs.Keys, oldKey, k)| == 1 && |Held(news - pairs.Values, newKey, k)| == 1)
  {
    hide Alone;
    var pairs := Pairs(olds, news, oldKey, newKey);
    if |Held(olds - pairs.Keys, oldKey, k)| == 1 && |Held(news - pairs.Values, newKey, k)| == 1 {
      SingleIsAlone(olds - pairs.Keys, oldKey, k);
      SingleIsAlone(news - pairs.Values, newKey, k);
      var a :| a in olds - pairs.Keys && oldKey(a) == Some(k) && Alone(olds - pairs.Keys, oldKey, a);
      var b :| b in news - pairs.Values && newKey(b) == Some(k) && Alone(news - pairs.Values, newKey, b);
      NotBothLeft(olds, news, oldKey, newKey, a, b);
    }
  }

  /** After the comparison no structural key has exactly one unmapped node on each side. */
  lemma {:induction false} NoUniqueStructureIsLeft(r: Request, k: Key)
    requires MatchedNodes(r).Links?
    ensures var links := MatchedNodes(r).links;
            !(|Held(UnmappedOld(r, links), StructuralKeys(r.before, r.renames), k)| == 1
              && |Held(UnmappedNew(r, links), StructuralKeys(r.after, map[]), k)| == 1)
  {
    hide HintLinks, StableLinks, StructuralKeys, Pairs, Held;
    var links := HintLinks(r, StableLinks(r), r.hints).links;
    PairingLeavesNoPair(UnmappedOld(r, links), UnmappedNew(r, links), StructuralKeys(r.before, r.renames),
                        StructuralKeys(r.after, map[]), k);
    LeftUnmapped(r);
  }

  lemma {:induction false} PairsWithin(olds: set<string>, news: set<string>, oldKey: Keys, newKey: Keys)
    ensures Pairs(olds, news, oldKey, newKey).Keys <= olds && Pairs(olds, news, oldKey, newKey).Values <= news
  {
    var pairs := Pairs(olds, news, oldKey, newKey);
    forall a <- pairs ensures a in olds && pairs[a] in news { assert Pair(olds, news, oldKey, newKey, a, pairs[a]); }
  }

  lemma {:induction false} LinkedNames(links: map<string, Link>, pairs: map<string, string>)
    requires links.Keys !! pairs.Keys
    ensures NewIds(links + Linked(pairs, StructuralLink())) == NewIds(links) + pairs.Values
  {
    var more := links + Linked(pairs, StructuralLink());
    forall b <- NewIds(links) + pairs.Values ensures b in NewIds(more) {
      if b in pairs.Values {
        var a :| a in pairs && pairs[a] == b;
        assert more[a].newId == b;
      } else {
        var a :| a in links && links[a].newId == b;
        assert more[a].newId == b;
      }
    }
    forall b <- NewIds(more) ensures b in NewIds(links) + pairs.Values {
      var a :| a in more && more[a].newId == b;
      if a in pairs { assert pairs[a] == b; }
    }
  }

  // ---- Nothing is lost ----

  lemma {:induction false} InjectiveImage(m: map<string, string>)
    requires forall a <- m, b <- m :: m[a] == m[b] ==> a == b
    ensures |m.Values| == |m|
  {
    if m != map[] {
      var a :| a in m;
      var rest := m - {a};
      InjectiveImage(rest);
      assert m == rest[a := m[a]];
      OneValueMore(rest, a, m[a]);
      forall x <- rest ensures rest[x] != m[a] { assert x in m && x != a; }
    } else {
      assert m.Values == {};
    }
  }

  lemma {:induction false} SetSplit(all: set<string>, part: set<string>, rest: set<string>)
    requires part <= all && rest == all - part
    ensures |part| + |rest| == |all|
  {
    assert all == part + rest;
  }

  /** Every old node is mapped or removed, every new one mapped or added, and the same for edges; the counts add up. */
  lemma {:induction false} NothingIsLost(r: Request)
    requires DiffOf(r).Compared?
    ensures var s := DiffOf(r).diff.summary;
            && s.mapped + s.removed == s.oldNodes && s.mapped + s.added == s.newNodes
            && s.unchangedEdgePairs + s.removedEdges == |r.before.edges|
            && s.unchangedEdgePairs + s.addedEdges == |r.after.edges|
            && s.updatedPairs + s.movedPairs <= s.mapped
  {
    hide MatchedNodes, NodeLimitations, EdgeLimitations, Touched, UnmatchedOld, UnmatchedNew, Pairs, CarriedKeys;
    hide EdgeKeys, FinalOld, FinalNew, Bijective;
    var links := MatchedNodes(r).links;
    MatchingIsBijective(r);
    NodesAddUp(r, links);
    EdgesAddUp(r, OldToNew(links));
  }

  lemma {:induction false} NodesAddUp(r: Request, links: map<string, Link>)
    requires Bijective(r, links) && MatchedNodes(r).Links? && links == MatchedNodes(r).links
    ensures |links| + |Those(FinalOld(r, links), Removed)| == |r.before.nodes|
    ensures |links| + |Those(FinalNew(r, links), Added)| == |r.after.nodes|
    ensures |PairsWith(links, FinalOld(r, links), Updated)|
            + |PairsWith(links, FinalOld(r, links), MovedAway)| <= |links|
  {
    hide MatchedNodes, FinalOld, FinalNew, Bijective;
    LinksStayMapped(r);
    UnmappedAreRest(r, links);
    LinkCount(r, links);
    SetSplit(r.before.nodes.Keys, links.Keys, Those(FinalOld(r, links), Removed));
    SetSplit(r.after.nodes.Keys, NewIds(links), Those(FinalNew(r, links), Added));
    var updated, moved := PairsWith(links, FinalOld(r, links), Updated),
        PairsWith(links, FinalOld(r, links), MovedAway);
    SetSplit(links.Keys, updated + moved, links.Keys - (updated + moved));
  }

  lemma {:induction false} NewIdsAreImages(links: map<string, Link>)
    ensures OldToNew(links).Keys == links.Keys && OldToNew(links).Values == NewIds(links)
  {
    forall b <- NewIds(links) ensures b in OldToNew(links).Values {
      var a :| a in links && links[a].newId == b;
      assert OldToNew(links)[a] == b;
    }
  }

  lemma {:induction false} LinkCount(r: Request, links: map<string, Link>)
    requires Bijective(r, links)
    ensures |NewIds(links)| == |links| == |links.Keys| && |r.before.nodes| == |r.before.nodes.Keys|
            && |r.after.nodes| == |r.after.nodes.Keys|
    ensures links.Keys <= r.before.nodes.Keys && NewIds(links) <= r.after.nodes.Keys
  {
    InjectiveImage(OldToNew(links));
    NewIdsAreImages(links);
    assert |OldToNew(links)| == |OldToNew(links).Keys| && OldToNew(links).Keys == links.Keys;
  }

  lemma {:induction false} UnmappedAreRest(r: Request, links: map<string, Link>)
    requires Bijective(r, links) && forall a <- links :: links[a].change in {Unchanged, Updated, MovedAway}
    ensures Those(FinalOld(r, links), Removed) == r.before.nodes.Keys - links.Keys
    ensures Those(FinalNew(r, links), Added) == r.after.nodes.Keys - NewIds(links)
  {
    hide Touched, UnmatchedOld, UnmatchedNew;
  }

  /** No mapped pair is called added or removed. */
  lemma {:induction false} LinksStayMapped(r: Request)
    requires MatchedNodes(r).Links?
    ensures forall a <- MatchedNodes(r).links :: MatchedNodes(r).links[a].change in {Unchanged, Updated, MovedAway}
  {
    hide StableKeys, StructuralKeys, Pairs, HintLinks;
    HintsStayMapped(r, StableLinks(r), r.hints);
  }

  lemma {:induction false} HintsStayMapped(r: Request, links: map<string, Link>, hints: seq<Hint>)
    requires forall a <- links :: links[a].change in {Unchanged, Updated, MovedAway}
    ensures HintLinks(r, links, hints).Links? ==>
              forall a <- HintLinks(r, links, hints).links ::
                  HintLinks(r, links, hints).links[a].change in {Unchanged, Updated, MovedAway}
    decreases |hints|
  {
    if hints != [] && HintLinks(r, links, hints).Links? {
      var a, b := TakenHint(r, links, hints);
      HintsStayMapped(r, links[a := HintLink(hints[0], b)], hints[1..]);
    }
  }

  lemma {:induction false} EdgesAddUp(r: Request, f: map<string, string>)
    ensures var matched := EdgePairs(r, f);
            && |matched.Keys| + |Those(EdgeChanges(r.before.edges, matched.Keys, Removed), Removed)| == |r.before.edges|
            && |matched.Keys| + |Those(EdgeChanges(r.after.edges, matched.Values, Added), Added)| == |r.after.edges|
  {
    hide CarriedKeys, EdgeKeys;
    var matched := EdgePairs(r, f);
    PairsWithin(r.before.edges.Keys, r.after.edges.Keys, CarriedKeys(r.before, f), EdgeKeys(r.after));
    assert |r.before.edges| == |r.before.edges.Keys| && |r.after.edges| == |r.after.edges.Keys|
           && |matched| == |matched.Keys|;
    SetSplit(r.before.edges.Keys, matched.Keys, Those(EdgeChanges(r.before.edges, matched.Keys, Removed), Removed));
    forall a <- matched, b <- matched | matched[a] == matched[b] ensures a == b {
      assert Pair(r.before.edges.Keys, r.after.edges.Keys, CarriedKeys(r.before, f), EdgeKeys(r.after), a, matched[a]);
      assert Pair(r.before.edges.Keys, r.after.edges.Keys, CarriedKeys(r.before, f), EdgeKeys(r.after), b, matched[b]);
    }
    InjectiveImage(matched);
    SetSplit(r.after.edges.Keys, matched.Values, Those(EdgeChanges(r.after.edges, matched.Values, Added), Added));
  }

  // ---- The final change of a pair ----

  /** An edge with this change has the node at one of its ends. */
  ghost predicate EdgeTouches(edges: map<string, Edge>, changes: map<string, Change>, c: Change, x: string) {
    exists e <- edges :: e in changes && changes[e] == c && (edges[e].source == x || edges[e].target == x)
  }

  /** Both ends of a mapping carry the same change.  A pair that started unchanged ends updated exactly when a removed
      edge touches its old node or an added edge its new node; any other pair keeps its change. */
  lemma {:induction false} FinalChangeIsExact(r: Request, a: string)
    requires DiffOf(r).Compared? && a in DiffOf(r).diff.links
    ensures var d := DiffOf(r).diff;
            var b, start := d.links[a].newId, d.links[a].change;
            && a in d.oldChanges && b in d.newChanges && d.oldChanges[a] == d.newChanges[b]
            && (start != Unchanged ==> d.oldChanges[a] == start)
            && (start == Unchanged ==> d.oldChanges[a] in {Unchanged, Updated})
            && (start == Unchanged ==>
                  (d.oldChanges[a] == Updated <==> (EdgeTouches(r.before.edges, d.oldEdgeChanges, Removed, a)
                                                    || EdgeTouches(r.after.edges, d.newEdgeChanges, Added, b))))
  {
    hide MatchedNodes, NodeLimitations, EdgeLimitations, Touched, Summarize, EdgePairs;
    var links := MatchedNodes(r).links;
    MatchingIsBijective(r);
    var pairs := EdgePairs(r, OldToNew(links));
    TouchedByEdges(r.before.edges, pairs.Keys, Removed, a);
    TouchedByEdges(r.after.edges, pairs.Values, Added, links[a].newId);
  }

  lemma {:induction false} TouchedByEdges(edges: map<string, Edge>, matched: set<string>, c: Change, x: string)
    requires c != Unchanged
    ensures x in Touched(edges, edges.Keys - matched) <==> EdgeTouches(edges, EdgeChanges(edges, matched, c), c, x)
  {
  }

  // ---- Edges and counts ----

  /** The two edges say the same of mapped nodes, and each is the only one on its side that does. */
  ghost predicate SameEdges(r: Request, links: map<string, Link>, e: string, x: string) {
    && e in r.before.edges && x in r.after.edges && Carries(links, r.before.edges[e], r.after.edges[x])
    && (forall f <- r.before.edges :: Carries(links, r.before.edges[f], r.after.edges[x]) ==> f == e)
    && (forall y <- r.after.edges :: Carries(links, r.before.edges[e], r.after.edges[y]) ==> y == x)
  }

  predicate Carries(links: map<string, Link>, m: Edge, n: Edge) {
    && m.relation == n.relation && m.source in links && links[m.source].newId == n.source
    && m.target in links && links[m.target].newId == n.target
  }

  lemma {:induction false} CarriedIsSameKey(r: Request, links: map<string, Link>, e: string, x: string)
    requires e in r.before.edges && x in r.after.edges
    ensures CarriedKeys(r.before, OldToNew(links))(e).Some?
            && CarriedKeys(r.before, OldToNew(links))(e) == EdgeKeys(r.after)(x)
            <==> Carries(links, r.before.edges[e], r.after.edges[x])
  {
    var k, l := CarriedKeys(r.before, OldToNew(links))(e), EdgeKeys(r.after)(x).value;
    if k.Some? && k.value == l {
      assert k.value[0] == l[0] && k.value[1] == l[1] && k.value[2] == l[2];
    }
  }

  lemma {:induction false} PairIsSameEdges(r: Request, links: map<string, Link>, e: string, x: string)
    ensures var oldKey, newKey := CarriedKeys(r.before, OldToNew(links)), EdgeKeys(r.after);
            Pair(r.before.edges.Keys, r.after.edges.Keys, oldKey, newKey, e, x) <==> SameEdges(r, links, e, x)
  {
    var oldKey, newKey := CarriedKeys(r.before, OldToNew(links)), EdgeKeys(r.after);
    if e in r.before.edges && x in r.after.edges {
      forall f <- r.before.edges, y <- r.after.edges
        ensures oldKey(f).Some? && oldKey(f) == newKey(y) <==> Carries(links, r.before.edges[f], r.after.edges[y]) {
        CarriedIsSameKey(r, links, f, y);
      }
      assert newKey(x).Some?;
      hide CarriedKeys, Carries;
    }
  }

  /** An edge stays as it is exactly when it has its one counterpart between the images of its ends; an old edge without
      one is removed and a new one added. */
  lemma {:induction false} EdgeChangesAreExact(r: Request, e: string)
    requires DiffOf(r).Compared?
    ensures var d := DiffOf(r).diff;
            && d.oldEdgeChanges.Keys == r.before.edges.Keys && d.newEdgeChanges.Keys == r.after.edges.Keys
            && (e in r.before.edges ==>
                  d.oldEdgeChanges[e] == if exists x :: SameEdges(r, d.links, e, x) then Unchanged else Removed)
            && (e in r.after.edges ==>
                  d.newEdgeChanges[e] == if exists f :: SameEdges(r, d.links, f, e) then Unchanged else Added)
  {
    hide MatchedNodes, NodeLimitations, EdgeLimitations, FinalOld, FinalNew, Summarize, CarriedKeys, EdgeKeys, Pair;
    hide SameEdges;
    var links := MatchedNodes(r).links;
    var oldKey, newKey := CarriedKeys(r.before, OldToNew(links)), EdgeKeys(r.after);
    forall f, x
      ensures Pair(r.before.edges.Keys, r.after.edges.Keys, oldKey, newKey, f, x) <==> SameEdges(r, links, f, x) {
      PairIsSameEdges(r, links, f, x);
    }
    var pairs := EdgePairs(r, OldToNew(links));
    if f :| SameEdges(r, links, f, e) { assert f in pairs && pairs[f] == e; }
  }

  /** Every number of the summary counts what its name says. */
  lemma {:induction false} SummaryCounts(r: Request)
    requires DiffOf(r).Compared?
    ensures var d := DiffOf(r).diff;
            var s := d.summary;
            && s.oldNodes == |r.before.nodes| && s.newNodes == |r.after.nodes| && s.mapped == |d.links|
            && s.added == |set b | b in d.newChanges && d.newChanges[b] == Added|
            && s.removed == |set a | a in d.oldChanges && d.oldChanges[a] == Removed|
            && s.updatedPairs == |set a | a in d.links && a in d.oldChanges && d.oldChanges[a] == Updated|
            && s.movedPairs == |set a | a in d.links && a in d.oldChanges && d.oldChanges[a] == MovedAway|
            && s.addedEdges == |set e | e in d.newEdgeChanges && d.newEdgeChanges[e] == Added|
            && s.removedEdges == |set e | e in d.oldEdgeChanges && d.oldEdgeChanges[e] == Removed|
            && s.unchangedEdgePairs == |set e | e in d.oldEdgeChanges && d.oldEdgeChanges[e] == Unchanged|
  {
    hide MatchedNodes, NodeLimitations, EdgeLimitations, FinalOld, FinalNew, CarriedKeys, EdgeKeys;
    var d := DiffOf(r).diff;
    var pairs := EdgePairs(r, OldToNew(d.links));
    PairsWithin(r.before.edges.Keys, r.after.edges.Keys, CarriedKeys(r.before, OldToNew(d.links)), EdgeKeys(r.after));
    assert pairs.Keys == set e | e in d.oldEdgeChanges && d.oldEdgeChanges[e] == Unchanged;
  }

  // ---- What is reported as unclear ----

  /** Some item has the key. */
  ghost predicate Has(items: set<string>, key: Keys, k: Key) { exists a :: a in items && key(a) == Some(k) }

  /** Two items have the key. */
  ghost predicate HasTwo(items: set<string>, key: Keys, k: Key) {
    exists a, b :: a != b && a in items && b in items && key(a) == Some(k) == key(b)
  }

  ghost predicate Shared(olds: set<string>, news: set<string>, oldKey: Keys, newKey: Keys, k: Key) {
    && Has(olds, oldKey, k) && Has(news, newKey, k) && (HasTwo(olds, oldKey, k) || HasTwo(news, newKey, k))
  }

  lemma {:induction false} AmbiguousIsShared(olds: set<string>, news: set<string>, oldKey: Keys, newKey: Keys, k: Key)
    ensures Ambiguous(olds, news, oldKey, newKey, k) <==> Shared(olds, news, oldKey, newKey, k)
    ensures k in AmbiguousKeys(olds, news, oldKey, newKey) <==> Ambiguous(olds, news, oldKey, newKey, k)
  {
    if Has(olds, oldKey, k) && Has(news, newKey, k) {
      var a :| a in olds && oldKey(a) == Some(k);
      var b :| b in news && newKey(b) == Some(k);
      if !HasTwo(olds, oldKey, k) && !HasTwo(news, newKey, k) {
        assert Pair(olds, news, oldKey, newKey, a, b);
      }
    }
    if Ambiguous(olds, news, oldKey, newKey, k) {
      var a :| a in olds && oldKey(a) == Some(k);
    }
  }

  /** A key is shared among what a pass leaves exactly when it was ambiguous for it. */
  lemma {:induction false} LeftoversAreAmbiguous(olds: set<string>, news: set<string>, oldKey: Keys, newKey: Keys,
                                                 k: Key)
    ensures var pairs := Pairs(olds, news, oldKey, newKey);
            Ambiguous(olds, news, oldKey, newKey, k)
            <==> Has(olds - pairs.Keys, oldKey, k) && Has(news - pairs.Values, newKey, k)
  {
    var pairs := Pairs(olds, news, oldKey, newKey);
    if Ambiguous(olds, news, oldKey, newKey, k) {
      var a :| a in olds && oldKey(a) == Some(k);
      var b :| b in news && newKey(b) == Some(k);
      forall x <- pairs ensures oldKey(x) != Some(k) { assert Pair(olds, news, oldKey, newKey, x, pairs[x]); }
      forall x <- pairs ensures newKey(pairs[x]) != Some(k) { assert Pair(olds, news, oldKey, newKey, x, pairs[x]); }
      assert a in olds - pairs.Keys && b in news - pairs.Values;
    }
    if Has(olds - pairs.Keys, oldKey, k) && Has(news - pairs.Values, newKey, k) {
      var a :| a in olds - pairs.Keys && oldKey(a) == Some(k);
      var b :| b in news - pairs.Values && newKey(b) == Some(k);
      forall x, y | Pair(olds, news, oldKey, newKey, x, y) ensures oldKey(x) != Some(k) {
        assert x in pairs;
      }
    }
  }

  /** What a comparison reports is exact: the stable keys that two symbols of one side share with one of the other; the
      structural keys that nodes left unmapped on both sides share; and the relations between mapped nodes that several
      edges stand for.  It is complete when both graphs are and there is nothing to report. */
  lemma {:induction false} LimitationsAreExact(r: Request, k: Key)
    requires DiffOf(r).Compared?
    ensures var d := DiffOf(r).diff;
            && (SymbolRepeated(k) in d.limitations
                <==> Shared(r.before.nodes.Keys, r.after.nodes.Keys, StableKeys(r.before), StableKeys(r.after), k))
            && (StructureAmbiguous(k) in d.limitations
                <==> Has(UnmappedOld(r, d.links), StructuralKeys(r.before, r.renames), k)
                     && Has(UnmappedNew(r, d.links), StructuralKeys(r.after, map[]), k))
            && (EdgesAmbiguous(k) in d.limitations
                <==> Shared(r.before.edges.Keys, r.after.edges.Keys, CarriedKeys(r.before, OldToNew(d.links)),
                            EdgeKeys(r.after), k))
            && d.complete == (r.before.complete && r.after.complete && d.limitations == {})
  {
    hide HintLinks, StableLinks, StructuralKeys, StableKeys, CarriedKeys, EdgeKeys, Pairs, Ambiguous, Shared, Has;
    hide AmbiguousKeys, FinalOld, FinalNew, Summarize, EdgePairs, EdgeChanges;
    var links := HintLinks(r, StableLinks(r), r.hints).links;
    var olds, news := UnmappedOld(r, links), UnmappedNew(r, links);
    var final := MatchedNodes(r).links;
    AmbiguousIsShared(r.before.nodes.Keys, r.after.nodes.Keys, StableKeys(r.before), StableKeys(r.after), k);
    AmbiguousIsShared(olds, news, StructuralKeys(r.before, r.renames), StructuralKeys(r.after, map[]), k);
    AmbiguousIsShared(r.before.edges.Keys, r.after.edges.Keys, CarriedKeys(r.before, OldToNew(final)),
                      EdgeKeys(r.after), k);
    LeftoversAreAmbiguous(olds, news, StructuralKeys(r.before, r.renames), StructuralKeys(r.after, map[]), k);
    LeftUnmapped(r);
  }

  /** What stays unmapped is what the structural pass leaves. */
  lemma {:induction false} LeftUnmapped(r: Request)
    requires MatchedNodes(r).Links?
    ensures var links := HintLinks(r, StableLinks(r), r.hints).links;
            var pairs, final := StructuralPairs(r, links), MatchedNodes(r).links;
            && UnmappedOld(r, final) == UnmappedOld(r, links) - pairs.Keys
            && UnmappedNew(r, final) == UnmappedNew(r, links) - pairs.Values
  {
    hide HintLinks, StableLinks, StructuralKeys, Pairs;
    var links := HintLinks(r, StableLinks(r), r.hints).links;
    PairsWithin(UnmappedOld(r, links), UnmappedNew(r, links), StructuralKeys(r.before, r.renames),
                StructuralKeys(r.after, map[]));
    LinkedNames(links, StructuralPairs(r, links));
  }
}
