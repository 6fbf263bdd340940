/** Comparing the other way round, and comparing a graph with its relabelled copy. */
module GraphMirror {
  import opened GraphDiff
  import opened GraphCompare
  import opened GraphTheorems

  /** The same comparison with OLD and NEW exchanged, without hints or renames. */
  function Mirror(r: Request): Request { Request(r.after, r.before, map[], [], r.confidence) }

  ghost predicate Plain(r: Request) { r.renames == map[] && r.hints == [] }

  /** One mapping is the other, read from the other side. */
  ghost predicate MirrorOf(l: map<string, Link>, l': map<string, Link>) {
    && (forall a <- l :: l[a].newId in l' && l'[l[a].newId] == l[a].(newId := a))
    && (forall b <- l' :: l'[b].newId in l && l[l'[b].newId] == l'[b].(newId := b))
  }

  lemma {:induction false} PairMirror(olds: set<string>, news: set<string>, oldKey: Keys, newKey: Keys)
    ensures forall a, b :: Pair(olds, news, oldKey, newKey, a, b) <==> Pair(news, olds, newKey, oldKey, b, a)
  {
  }

  lemma {:induction false} LinkedMirror(olds: set<string>, news: set<string>, oldKey: Keys, newKey: Keys, d: Describe,
                                        d': Describe)
    requires forall a <- olds, b <- news :: d(a, b).newId == b && d'(b, a) == d(a, b).(newId := a)
    ensures MirrorOf(Linked(Pairs(olds, news, oldKey, newKey), d), Linked(Pairs(news, olds, newKey, oldKey), d'))
  {
    hide Alone;
    PairMirror(olds, news, oldKey, newKey);
    var pairs, pairs' := Pairs(olds, news, oldKey, newKey), Pairs(news, olds, newKey, oldKey);
    forall a <- pairs ensures a in olds && pairs[a] in news && pairs[a] in pairs' && pairs'[pairs[a]] == a {
      assert Pair(olds, news, oldKey, newKey, a, pairs[a]);
      assert Pair(news, olds, newKey, oldKey, pairs[a], a);
    }
    forall b <- pairs' ensures b in news && pairs'[b] in olds && pairs'[b] in pairs && pairs[pairs'[b]] == b {
      assert Pair(news, olds, newKey, oldKey, b, pairs'[b]);
      assert Pair(olds, news, oldKey, newKey, pairs'[b], b);
    }
  }

  lemma {:induction false} MirrorUnion(l: map<string, Link>, l': map<string, Link>, m: map<string, Link>,
                                       m': map<string, Link>)
    requires MirrorOf(l, l') && MirrorOf(m, m') && l.Keys !! m.Keys && l'.Keys !! m'.Keys
    ensures MirrorOf(l + m, l' + m')
  {
  }

  lemma {:induction false} MirrorNames(l: map<string, Link>, l': map<string, Link>)
    requires MirrorOf(l, l')
    ensures NewIds(l) == l'.Keys && NewIds(l') == l.Keys
  {
    forall b <- l' ensures b in NewIds(l) { assert l[l'[b].newId].newId == b; }
    forall a <- l ensures a in NewIds(l') { assert l'[l[a].newId].newId == a; }
  }

  lemma {:induction false} MatchedPlain(r: Request)
    requires Plain(r)
    ensures MatchedNodes(r) == Links(StableLinks(r) + Linked(StructuralPairs(r, StableLinks(r)), StructuralLink()))
  {
  }

  lemma {:induction false} StableMirror(r: Request)
    requires Plain(r)
    ensures MirrorOf(StableLinks(r), StableLinks(Mirror(r)))
  {
    hide StableKeys, MirrorOf;
    LinkedMirror(r.before.nodes.Keys, r.after.nodes.Keys, StableKeys(r.before), StableKeys(r.after), StableLink(r),
                 StableLink(Mirror(r)));
  }

  /** The mapping of the exchanged graphs is the inverse mapping. */
  lemma {:induction false} MappingMirror(r: Request)
    requires Plain(r)
    ensures MatchedNodes(r).Links? && MatchedNodes(Mirror(r)).Links?
    ensures MirrorOf(MatchedNodes(r).links, MatchedNodes(Mirror(r)).links)
  {
    hide MatchedNodes, StableLinks, StructuralKeys, Pairs, MirrorOf;
    MatchedPlain(r);
    MatchedPlain(Mirror(r));
    StableMirror(r);
    var l, l' := StableLinks(r), StableLinks(Mirror(r));
    MirrorNames(l, l');
    var olds, news := UnmappedOld(r, l), UnmappedNew(r, l);
    assert UnmappedOld(Mirror(r), l') == news && UnmappedNew(Mirror(r), l') == olds;
    LinkedMirror(olds, news, StructuralKeys(r.before, map[]), StructuralKeys(r.after, map[]), StructuralLink(),
                 StructuralLink());
    PairsWithin(olds, news, StructuralKeys(r.before, map[]), StructuralKeys(r.after, map[]));
    PairsWithin(news, olds, StructuralKeys(r.after, map[]), StructuralKeys(r.before, map[]));
    MirrorUnion(l, l', Linked(StructuralPairs(r, l), StructuralLink()),
                Linked(StructuralPairs(Mirror(r), l'), StructuralLink()));
  }

  // ---- Edges ----

  /** Through an inverse mapping, an edge is carried to another exactly when that one is carried back to it. */
  lemma {:induction false} CarriedBack(r: Request, l: map<string, Link>, l': map<string, Link>, e: string, e': string)
    requires MirrorOf(l, l') && e in r.before.edges && e' in r.after.edges
    ensures CarriedKeys(r.before, OldToNew(l))(e) == EdgeKeys(r.after)(e')
            <==> CarriedKeys(r.after, OldToNew(l'))(e') == EdgeKeys(r.before)(e)
  {
  }

  /** Edges of the same graph are carried alike exactly when they are alike. */
  lemma {:induction false} CarriedAlike(g: Graph, l: map<string, Link>, x: string, e: string)
    requires x in g.edges && e in g.edges && CarriedKeys(g, OldToNew(l))(e).Some?
    requires forall a <- l, b <- l :: l[a].newId == l[b].newId ==> a == b
    ensures CarriedKeys(g, OldToNew(l))(x) == CarriedKeys(g, OldToNew(l))(e) <==> EdgeKeys(g)(x) == EdgeKeys(g)(e)
  {
  }

  lemma {:induction false} AloneCarried(g: Graph, l: map<string, Link>, e: string)
    requires e in g.edges && CarriedKeys(g, OldToNew(l))(e).Some?
    requires forall a <- l, b <- l :: l[a].newId == l[b].newId ==> a == b
    ensures Alone(g.edges.Keys, CarriedKeys(g, OldToNew(l)), e) <==> Alone(g.edges.Keys, EdgeKeys(g), e)
  {
    hide CarriedKeys, EdgeKeys;
    forall x <- g.edges.Keys ensures CarriedKeys(g, OldToNew(l))(x) == CarriedKeys(g, OldToNew(l))(e)
        <==> EdgeKeys(g)(x) == EdgeKeys(g)(e) {
      CarriedAlike(g, l, x, e);
    }
  }

  lemma {:induction false} MirrorInjective(l: map<string, Link>, l': map<string, Link>)
    requires MirrorOf(l, l')
    ensures forall a <- l, b <- l :: l[a].newId == l[b].newId ==> a == b
    ensures forall a <- l', b <- l' :: l'[a].newId == l'[b].newId ==> a == b
  {
    forall a <- l, b <- l | l[a].newId == l[b].newId ensures a == b { assert l'[l[a].newId].newId == a; }
    forall a <- l', b <- l' | l'[a].newId == l'[b].newId ensures a == b { assert l[l'[a].newId].newId == a; }
  }

  ghost predicate EdgePair(r: Request, l: map<string, Link>, e: string, e': string) {
    Pair(r.before.edges.Keys, r.after.edges.Keys, CarriedKeys(r.before, OldToNew(l)), EdgeKeys(r.after), e, e')
  }

  lemma {:induction false} EdgePairMirror(r: Request, l: map<string, Link>, l': map<string, Link>, e: string,
                                          e': string)
    requires MirrorOf(l, l')
    ensures EdgePair(r, l, e, e') <==> EdgePair(Mirror(r), l', e', e)
  {
    hide CarriedKeys, Alone;
    if e in r.before.edges && e' in r.after.edges {
      MirrorInjective(l, l');
      CarriedBack(r, l, l', e, e');
      if CarriedKeys(r.before, OldToNew(l))(e) == EdgeKeys(r.after)(e') {
        AloneCarried(r.before, l, e);
        AloneCarried(r.after, l', e');
      }
    }
  }

  /** The matched edges of the exchanged graphs are the same edges. */
  lemma {:induction false} EdgesMirror(r: Request, l: map<string, Link>, l': map<string, Link>)
    requires MirrorOf(l, l')
    ensures EdgePairs(Mirror(r), OldToNew(l')).Keys == EdgePairs(r, OldToNew(l)).Values
    ensures EdgePairs(Mirror(r), OldToNew(l')).Values == EdgePairs(r, OldToNew(l)).Keys
  {
    hide MirrorOf, CarriedKeys, EdgeKeys, Alone, Pair, OldToNew;
    var pairs, pairs' := EdgePairs(r, OldToNew(l)), EdgePairs(Mirror(r), OldToNew(l'));
    forall e, e' ensures EdgePair(r, l, e, e') <==> EdgePair(Mirror(r), l', e', e) { EdgePairMirror(r, l, l', e, e'); }
    forall e, e' ensures (e in pairs && pairs[e] == e') <==> (e' in pairs' && pairs'[e'] == e) {
      assert EdgePair(r, l, e, e') <==> EdgePair(Mirror(r), l', e', e);
    }
    InverseMaps(pairs, pairs');
  }

  lemma {:induction false} InverseMaps(m: map<string, string>, m': map<string, string>)
    requires forall x, y :: (x in m && m[x] == y) <==> (y in m' && m'[y] == x)
    ensures m'.Keys == m.Values && m'.Values == m.Keys
  {
    forall x <- m ensures x in m'.Values { assert m'[m[x]] == x; }
    forall y <- m' ensures y in m.Values { assert m[m'[y]] == y; }
  }

  // ---- What is ambiguous ----

  lemma {:induction false} AmbiguousMirror(olds: set<string>, news: set<string>, oldKey: Keys, newKey: Keys)
    ensures AmbiguousKeys(olds, news, oldKey, newKey) == AmbiguousKeys(news, olds, newKey, oldKey)
  {
    AmbiguousEitherWay(olds, news, oldKey, newKey);
    AmbiguousEitherWay(news, olds, newKey, oldKey);
  }

  lemma {:induction false} AmbiguousEitherWay(olds: set<string>, news: set<string>, oldKey: Keys, newKey: Keys)
    ensures AmbiguousKeys(olds, news, oldKey, newKey) <= AmbiguousKeys(news, olds, newKey, oldKey)
  {
    hide Alone;
    PairMirror(olds, news, oldKey, newKey);
    forall k <- AmbiguousKeys(olds, news, oldKey, newKey) ensures k in AmbiguousKeys(news, olds, newKey, oldKey) {
      var b :| b in news && newKey(b) == Some(k);
    }
  }

  lemma {:induction false} NodeLimitationsMirror(r: Request)
    requires Plain(r)
    ensures NodeLimitations(Mirror(r)) == NodeLimitations(r)
  {
    hide StableLinks, StableKeys, StructuralKeys, AmbiguousKeys, SymbolsRepeated, StructuresUnclear, MirrorOf;
    StableMirror(r);
    MirrorNames(StableLinks(r), StableLinks(Mirror(r)));
    AmbiguousMirror(r.before.nodes.Keys, r.after.nodes.Keys, StableKeys(r.before), StableKeys(r.after));
    AmbiguousMirror(UnmappedOld(r, StableLinks(r)), UnmappedNew(r, StableLinks(r)),
                    StructuralKeys(r.before, map[]), StructuralKeys(r.after, map[]));
    assert UnmappedOld(Mirror(r), StableLinks(Mirror(r))) == UnmappedNew(r, StableLinks(r));
    assert UnmappedNew(Mirror(r), StableLinks(Mirror(r))) == UnmappedOld(r, StableLinks(r));
  }

  /** The keys edges cannot be matched by. */
  ghost function EdgeAmbiguities(r: Request, l: map<string, Link>): set<Key> {
    AmbiguousKeys(r.before.edges.Keys, r.after.edges.Keys, CarriedKeys(r.before, OldToNew(l)), EdgeKeys(r.after))
  }

  ghost predicate EdgeAmbiguous(r: Request, l: map<string, Link>, k: Key) {
    Ambiguous(r.before.edges.Keys, r.after.edges.Keys, CarriedKeys(r.before, OldToNew(l)), EdgeKeys(r.after), k)
  }

  /** An edge that is carried to an ambiguous key has an ambiguous key itself, seen from the other side. */
  lemma {:induction false} EdgeAmbiguityMirrors(r: Request, l: map<string, Link>, l': map<string, Link>)
    requires MirrorOf(l, l') && EdgeAmbiguities(r, l) != {}
    ensures EdgeAmbiguities(Mirror(r), l') != {}
  {
    hide CarriedKeys, EdgeKeys, Alone, MirrorOf, OldToNew;
    var k :| k in EdgeAmbiguities(r, l);
    var e :| e in r.before.edges.Keys && CarriedKeys(r.before, OldToNew(l))(e) == Some(k);
    var e' :| e' in r.after.edges.Keys && EdgeKeys(r.after)(e') == Some(k);
    CarriedBack(r, l, l', e, e');
    EdgeHasKey(r.before, e);
    var back := EdgeKeys(r.before)(e).value;
    forall b, a | Pair(r.after.edges.Keys, r.before.edges.Keys, CarriedKeys(r.after, OldToNew(l')), EdgeKeys(r.before),
                       b, a)
      ensures CarriedKeys(r.after, OldToNew(l'))(b) != Some(back) {
      assert EdgePair(Mirror(r), l', b, a);
      OtherEdgeCarried(r, l, l', k, e, a, b);
    }
    assert Holds(r.after.edges.Keys, CarriedKeys(r.after, OldToNew(l')), back);
    assert Holds(r.before.edges.Keys, EdgeKeys(r.before), back);
    assert EdgeAmbiguous(Mirror(r), l', back);
    assert back in EdgeAmbiguities(Mirror(r), l');
  }

  lemma {:induction false} EdgeHasKey(g: Graph, e: string)
    requires e in g.edges
    ensures EdgeKeys(g)(e).Some?
  {
  }

  /** A pair of edges is not carried to a key that is ambiguous the other way round. */
  lemma {:induction false} OtherEdgeCarried(r: Request, l: map<string, Link>, l': map<string, Link>, k: Key, e: string,
                                            a: string, b: string)
    requires MirrorOf(l, l') && EdgeAmbiguous(r, l, k) && e in r.before.edges
    requires CarriedKeys(r.before, OldToNew(l))(e) == Some(k) && EdgePair(Mirror(r), l', b, a)
    ensures CarriedKeys(r.after, OldToNew(l'))(b) != EdgeKeys(r.before)(e)
  {
    hide CarriedKeys, EdgeKeys, Alone, MirrorOf, OldToNew, Holds;
    EdgePairMirror(r, l, l', a, b);
    MirrorInjective(l, l');
    CarriedAlike(r.before, l, a, e);
  }

  /** One way round nothing is ambiguous exactly when nothing is the other way round. */
  lemma {:induction false} LimitationsMirror(r: Request, l: map<string, Link>, l': map<string, Link>)
    requires Plain(r) && MirrorOf(l, l')
    ensures NodeLimitations(r) + EdgeLimitations(r, OldToNew(l)) == {}
            <==> NodeLimitations(Mirror(r)) + EdgeLimitations(Mirror(r), OldToNew(l')) == {}
  {
    hide NodeLimitations, AmbiguousKeys, MirrorOf, OldToNew;
    NodeLimitationsMirror(r);
    assert Mirror(Mirror(r)) == r;
    MirrorBack(l, l');
    if EdgeAmbiguities(r, l) != {} { EdgeAmbiguityMirrors(r, l, l'); }
    if EdgeAmbiguities(Mirror(r), l') != {} { EdgeAmbiguityMirrors(Mirror(r), l', l); }
    UnclearIsAmbiguous(EdgeAmbiguities(r, l));
    UnclearIsAmbiguous(EdgeAmbiguities(Mirror(r), l'));
  }

  lemma {:induction false} MirrorBack(l: map<string, Link>, l': map<string, Link>)
    requires MirrorOf(l, l')
    ensures MirrorOf(l', l)
  {
  }

  lemma {:induction false} UnclearIsAmbiguous(keys: set<Key>)
    ensures EdgesUnclear(keys) == {} <==> keys == {}
  {
    if keys != {} {
      var k :| k in keys;
      assert EdgesAmbiguous(k) in EdgesUnclear(keys);
    }
  }

  // ---- The exchanged comparison ----

  lemma {:induction false} ChangeMirror(r: Request, l: map<string, Link>, l': map<string, Link>, a: string)
    requires MirrorOf(l, l') && a in l
    ensures l[a].newId in l' && FinalChange(Mirror(r), l', l[a].newId) == FinalChange(r, l, a)
  {
    hide Touched, EdgePairs;
    EdgesMirror(r, l, l');
  }

  lemma {:induction false} SameCount(l: map<string, Link>, l': map<string, Link>, changes: map<string, Change>,
                                     changes': map<string, Change>, c: Change)
    requires MirrorOf(l, l') && l.Keys <= changes.Keys && l'.Keys <= changes'.Keys
    requires forall a <- l :: l[a].newId in changes' && changes'[l[a].newId] == changes[a]
    ensures |PairsWith(l', changes', c)| == |PairsWith(l, changes, c)|
  {
    MirrorInjective(l, l');
    var f := map a | a in PairsWith(l, changes, c) :: l[a].newId;
    InjectiveImage(f);
    assert f.Keys == PairsWith(l, changes, c) && |f| == |f.Keys|;
    forall b <- PairsWith(l', changes', c) ensures b in f.Values {
      var a := l'[b].newId;
      assert l[a].newId == b;
      assert f[a] == b;
    }
    assert f.Values == PairsWith(l', changes', c);
  }

  /** Exchanging OLD and NEW inverts the mapping, gives both ends of every pair the same change as before, swaps added
      with removed for nodes and edges, and keeps the numbers of updated, moved and unchanged pairs, and whether the
      comparison is complete. */
  lemma {:induction false} ComparisonMirrors(r: Request)
    requires Plain(r)
    ensures DiffOf(r).Compared? && DiffOf(Mirror(r)).Compared?
    ensures var d, d' := DiffOf(r).diff, DiffOf(Mirror(r)).diff;
            var s := d.summary;
            && MirrorOf(d.links, d'.links) && d'.complete == d.complete
            && (forall a <- d.links ::
                  a in d.oldChanges && d.links[a].newId in d'.oldChanges
                  && d'.oldChanges[d.links[a].newId] == d.oldChanges[a])
            && d'.summary == Summary(s.newNodes, s.oldNodes, s.mapped, s.removed, s.added, s.updatedPairs, s.movedPairs,
                                     s.removedEdges, s.addedEdges, s.unchangedEdgePairs)
  {
    hide DiffOf, MatchedNodes, EdgePairs, Bijective, FinalOld, MirrorOf, PairsWith, NodeLimitations, EdgeLimitations;
    MappingMirror(r);
    var l, l' := MatchedNodes(r).links, MatchedNodes(Mirror(r)).links;
    DiffFacts(r);
    DiffFacts(Mirror(r));
    MatchingIsBijective(r);
    MatchingIsBijective(Mirror(r));
    ChangesMirror(r, l, l');
    CountsMirror(r, l, l');
    LimitationsMirror(r, l, l');
    NothingIsLost(r);
    NothingIsLost(Mirror(r));
    EdgeTotals(r);
    SummaryMirrors(DiffOf(r).diff.summary, DiffOf(Mirror(r)).diff.summary, |r.before.edges|, |r.after.edges|);
  }

  /** What the comparison counts, and what it maps. */
  lemma {:induction false} DiffFacts(r: Request)
    requires MatchedNodes(r).Links?
    ensures DiffOf(r).Compared?
    ensures var d, links := DiffOf(r).diff, MatchedNodes(r).links;
            && d.links == links && d.oldChanges == FinalOld(r, links)
            && d.complete == (r.before.complete && r.after.complete
                              && NodeLimitations(r) + EdgeLimitations(r, OldToNew(links)) == {})
            && d.summary.oldNodes == |r.before.nodes| && d.summary.newNodes == |r.after.nodes|
            && d.summary.mapped == |links|
            && d.summary.updatedPairs == |PairsWith(links, FinalOld(r, links), Updated)|
            && d.summary.movedPairs == |PairsWith(links, FinalOld(r, links), MovedAway)|
            && d.summary.unchangedEdgePairs == |EdgePairs(r, OldToNew(links)).Keys|
  {
    hide MatchedNodes, NodeLimitations, EdgeLimitations, EdgePairs, FinalOld, FinalNew, PairsWith, Those, EdgeChanges;
  }

  lemma {:induction false} EdgeTotals(r: Request)
    ensures |Mirror(r).before.edges| == |r.after.edges| && |Mirror(r).after.edges| == |r.before.edges|
  {
  }

  /** As many pairs, updated pairs, moved pairs and unchanged edges either way round. */
  lemma {:induction false} CountsMirror(r: Request, l: map<string, Link>, l': map<string, Link>)
    requires MirrorOf(l, l') && Bijective(r, l) && Bijective(Mirror(r), l')
    ensures |l'| == |l|
    ensures |PairsWith(l', FinalOld(Mirror(r), l'), Updated)| == |PairsWith(l, FinalOld(r, l), Updated)|
    ensures |PairsWith(l', FinalOld(Mirror(r), l'), MovedAway)| == |PairsWith(l, FinalOld(r, l), MovedAway)|
    ensures |EdgePairs(Mirror(r), OldToNew(l')).Keys| == |EdgePairs(r, OldToNew(l)).Keys|
  {
    hide EdgePairs, Bijective, FinalOld, MirrorOf, PairsWith, NewIds, OldToNew;
    ChangesMirror(r, l, l');
    SameCount(l, l', FinalOld(r, l), FinalOld(Mirror(r), l'), Updated);
    SameCount(l, l', FinalOld(r, l), FinalOld(Mirror(r), l'), MovedAway);
    MirrorNames(l, l');
    LinkCount(r, l);
    LinkCount(Mirror(r), l');
    EdgesMirror(r, l, l');
    EdgeCounts(r, l);
  }

  /** Two counts of the same pairs that both add up are each other's mirror. */
  lemma {:induction false} SummaryMirrors(s: Summary, s': Summary, oldEdges: nat, newEdges: nat)
    requires s'.oldNodes == s.newNodes && s'.newNodes == s.oldNodes && s'.mapped == s.mapped
    requires s'.updatedPairs == s.updatedPairs && s'.movedPairs == s.movedPairs
             && s'.unchangedEdgePairs == s.unchangedEdgePairs
    requires s.mapped + s.removed == s.oldNodes && s.mapped + s.added == s.newNodes
    requires s'.mapped + s'.removed == s'.oldNodes && s'.mapped + s'.added == s'.newNodes
    requires s.unchangedEdgePairs + s.removedEdges == oldEdges && s.unchangedEdgePairs + s.addedEdges == newEdges
    requires s'.unchangedEdgePairs + s'.removedEdges == newEdges && s'.unchangedEdgePairs + s'.addedEdges == oldEdges
    ensures s' == Summary(s.newNodes, s.oldNodes, s.mapped, s.removed, s.added, s.updatedPairs, s.movedPairs,
                          s.removedEdges, s.addedEdges, s.unchangedEdgePairs)
  {
  }

  lemma {:induction false} ChangesMirror(r: Request, l: map<string, Link>, l': map<string, Link>)
    requires MirrorOf(l, l') && Bijective(r, l) && Bijective(Mirror(r), l')
    ensures l.Keys <= FinalOld(r, l).Keys && l'.Keys <= FinalOld(Mirror(r), l').Keys
    ensures forall a <- l ::
              l[a].newId in FinalOld(Mirror(r), l') && FinalOld(Mirror(r), l')[l[a].newId] == FinalOld(r, l)[a]
  {
    hide FinalChange;
    forall a <- l ensures l[a].newId in FinalOld(Mirror(r), l')
        && FinalOld(Mirror(r), l')[l[a].newId] == FinalOld(r, l)[a] {
      ChangeMirror(r, l, l', a);
    }
  }

  lemma {:induction false} EdgeCounts(r: Request, l: map<string, Link>)
    ensures |EdgePairs(r, OldToNew(l)).Values| == |EdgePairs(r, OldToNew(l)).Keys|
  {
    hide CarriedKeys, EdgeKeys;
    var pairs := EdgePairs(r, OldToNew(l));
    forall x <- pairs, y <- pairs | pairs[x] == pairs[y] ensures x == y {
      assert EdgePair(r, l, x, pairs[x]) && EdgePair(r, l, y, pairs[y]);
    }
    InjectiveImage(pairs);
    assert |pairs| == |pairs.Keys|;
  }
}
