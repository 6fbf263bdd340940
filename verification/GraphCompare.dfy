/** Comparing two analyzer graphs: the matching of nodes and edges, and the change each of them ends with. */
module GraphCompare {
  import opened GraphDiff

  datatype Request = Request(before: Graph, after: Graph, renames: map<string, string>, hints: seq<Hint>,
                             confidence: Confidence) {
    ghost predicate Valid() { before.Valid() && after.Valid() }
  }

  // ---- What the node matching is ----

  function StableLink(r: Request): Describe {
    (a: string, b: string) =>
      if a in r.before.nodes && b in r.after.nodes && r.before.nodes[a].path != r.after.nodes[b].path
      then Link(b, Moved, r.confidence, MovedAway) else Link(b, SameSymbol, r.confidence, Unchanged)
  }

  function StructuralLink(): Describe { (a: string, b: string) => Link(b, Heuristic, Structural, Unchanged) }

  function HintLink(hint: Hint, b: string): Link {
    Link(b, hint.kind, Structural, if hint.kind in {Moved, RenamedAndMoved} then MovedAway else Updated)
  }

  ghost function NewIds(links: map<string, Link>): set<string> { set a | a in links :: links[a].newId }

  ghost function StableLinks(r: Request): map<string, Link> {
    Linked(Pairs(r.before.nodes.Keys, r.after.nodes.Keys, StableKeys(r.before), StableKeys(r.after)), StableLink(r))
  }

  function Labelled(g: Graph, name: string, mapped: set<string>): set<string> {
    set id | id in g.nodes && g.nodes[id].name == name && id !in mapped
  }

  datatype Matched = NoMatch(error: Error) | Links(links: map<string, Link>)

  /** Hints are taken in order: each must name exactly one node not mapped so far, on either side. */
  ghost function HintLinks(r: Request, links: map<string, Link>, hints: seq<Hint>): Matched
    decreases |hints|
  {
    if hints == [] then Links(links)
    else
      var olds := Labelled(r.before, hints[0].oldLabel, links.Keys);
      var news := Labelled(r.after, hints[0].newLabel, NewIds(links));
      if |olds| != 1 then NoMatch(LabelNotUnique(hints[0].oldLabel))
      else if |news| != 1 then NoMatch(LabelNotUnique(hints[0].newLabel))
      else
        var a :| a in olds;
        var b :| b in news;
        HintLinks(r, links[a := HintLink(hints[0], b)], hints[1..])
  }

  ghost function UnmappedOld(r: Request, links: map<string, Link>): set<string> { r.before.nodes.Keys - links.Keys }
  ghost function UnmappedNew(r: Request, links: map<string, Link>): set<string> { r.after.nodes.Keys - NewIds(links) }

  ghost function StructuralPairs(r: Request, links: map<string, Link>): map<string, string> {
    Pairs(UnmappedOld(r, links), UnmappedNew(r, links), StructuralKeys(r.before, r.renames),
          StructuralKeys(r.after, map[]))
  }

  ghost function MatchedNodes(r: Request): Matched {
    match HintLinks(r, StableLinks(r), r.hints)
    case NoMatch(error) => NoMatch(error)
    case Links(links) => Links(links + Linked(StructuralPairs(r, links), StructuralLink()))
  }

  ghost function AmbiguousKeys(olds: set<string>, news: set<string>, oldKey: Keys, newKey: Keys): set<Key> {
    set a | a in olds && oldKey(a).Some? && Ambiguous(olds, news, oldKey, newKey, oldKey(a).value) :: oldKey(a).value
  }

  function SymbolsRepeated(keys: set<Key>): set<Limitation> { set k | k in keys :: SymbolRepeated(k) }
  function StructuresUnclear(keys: set<Key>): set<Limitation> { set k | k in keys :: StructureAmbiguous(k) }
  function EdgesUnclear(keys: set<Key>): set<Limitation> { set k | k in keys :: EdgesAmbiguous(k) }

  ghost function NodeLimitations(r: Request): set<Limitation> {
    SymbolsRepeated(AmbiguousKeys(r.before.nodes.Keys, r.after.nodes.Keys, StableKeys(r.before), StableKeys(r.after)))
    + match HintLinks(r, StableLinks(r), r.hints)
      case NoMatch(_) => {}
      case Links(links) =>
        StructuresUnclear(AmbiguousKeys(UnmappedOld(r, links), UnmappedNew(r, links),
                                        StructuralKeys(r.before, r.renames),
                                        StructuralKeys(r.after, map[])))
  }

  // ---- Matching nodes ----

  lemma {:induction false} NewIdsAreMapped(m: Matching)
    requires m.Valid()
    ensures NewIds(m.links) == m.newToOld.Keys
  {
    forall b <- m.newToOld ensures b in NewIds(m.links) {
      assert m.newToOld[b] in m.links && m.links[m.newToOld[b]].newId == b;
    }
    forall b <- NewIds(m.links) ensures b in m.newToOld { }
  }

  lemma {:induction false} AmbiguousIsHeld(olds: set<string>, news: set<string>, oldKey: Keys, newKey: Keys,
                                           ambiguous: set<Key>)
    requires forall k :: k in ambiguous <==> Ambiguous(olds, news, oldKey, newKey, k)
    ensures ambiguous == AmbiguousKeys(olds, news, oldKey, newKey)
  {
    forall k <- ambiguous ensures k in AmbiguousKeys(olds, news, oldKey, newKey) {
      var a :| a in olds && oldKey(a) == Some(k);
    }
  }

  method UniqueLabel(g: Graph, name: string, mapped: set<string>) returns (found: Option<string>)
    ensures found.Some? <==> |Labelled(g, name, mapped)| == 1
    ensures found.Some? ==> Labelled(g, name, mapped) == {found.value}
  {
    var candidates := Labelled(g, name, mapped);
    if |candidates| != 1 { return None; }
    var id :| id in candidates;
    OfSizeOne(candidates, id);
    found := Some(id);
  }

  method ApplyHints(r: Request, m: Matching) returns (next: Matching, error: Option<Error>)
    requires m.Valid()
    ensures next.Valid()
    ensures HintLinks(r, m.links, r.hints) == if error.Some? then NoMatch(error.value) else Links(next.links)
  {
    hide Matching.Valid, NewIds, Labelled;
    next, error := m, None;
    var i := 0;
    assert r.hints[i..] == r.hints;
    while i < |r.hints|
      invariant 0 <= i <= |r.hints| && next.Valid() && error.None?
      invariant HintLinks(r, m.links, r.hints) == HintLinks(r, next.links, r.hints[i..])
    {
      var hint := r.hints[i];
      assert r.hints[i..][0] == hint && r.hints[i..][1..] == r.hints[i + 1..];
      NewIdsAreMapped(next);
      MatchingKeys(next);
      var oldId := UniqueLabel(r.before, hint.oldLabel, next.oldToNew.Keys);
      if oldId.None? { return next, Some(LabelNotUnique(hint.oldLabel)); }
      var newId := UniqueLabel(r.after, hint.newLabel, next.newToOld.Keys);
      if newId.None? { return next, Some(LabelNotUnique(hint.newLabel)); }
      LabelledIsUnmapped(r.before, hint.oldLabel, next.oldToNew.Keys);
      LabelledIsUnmapped(r.after, hint.newLabel, next.newToOld.Keys);
      next, error := AddMapping(next, oldId.value, HintLink(hint, newId.value));
      if error.Some? { return; }
      i := i + 1;
    }
    assert r.hints[i..] == [];
  }

  lemma {:induction false} MatchingKeys(m: Matching)
    requires m.Valid()
    ensures m.oldToNew.Keys == m.links.Keys
  {
  }

  lemma {:induction false} LabelledIsUnmapped(g: Graph, name: string, mapped: set<string>)
    ensures Labelled(g, name, mapped) !! mapped && Labelled(g, name, mapped) <= g.nodes.Keys
  {
  }

  /** The three passes.  No pair is ever refused as not one to one: the only error is a hint that names no single
      node. */
  method MatchNodes(r: Request) returns (m: Matching, error: Option<Error>, limitations: set<Limitation>)
    ensures m.Valid() && !(error.Some? && error.value.NotOneToOne?)
    ensures MatchedNodes(r) == if error.Some? then NoMatch(error.value) else Links(m.links)
    ensures error.None? ==> limitations == NodeLimitations(r)
  {
    hide SymbolsRepeated, StructuresUnclear, HintLinks, Pairs, Ambiguous, AmbiguousKeys, Linked, StableLink;
    hide StructuralLink, StableKeys, StructuralKeys;
    m, limitations := Matching(map[], map[], map[]), {};
    StableNames(r);
    StructuralNames();
    var repeated;
    m, error, repeated := AddUnique(m, r.before.nodes.Keys, r.after.nodes.Keys, StableKeys(r.before),
                                    StableKeys(r.after), StableLink(r));
    AmbiguousIsHeld(r.before.nodes.Keys, r.after.nodes.Keys, StableKeys(r.before), StableKeys(r.after), repeated);
    limitations := SymbolsRepeated(repeated);
    assert m.links == StableLinks(r);
    m, error := ApplyHints(r, m);
    if error.Some? {
      HintErrors(r, StableLinks(r), r.hints);
      return;
    }
    NewIdsAreMapped(m);
    var olds := r.before.nodes.Keys - m.oldToNew.Keys;
    var news := r.after.nodes.Keys - m.newToOld.Keys;
    var unclear;
    m, error, unclear := AddUnique(m, olds, news, StructuralKeys(r.before, r.renames), StructuralKeys(r.after, map[]),
                                   StructuralLink());
    AmbiguousIsHeld(olds, news, StructuralKeys(r.before, r.renames), StructuralKeys(r.after, map[]), unclear);
    limitations := limitations + StructuresUnclear(unclear);
  }

  lemma {:induction false} StableNames(r: Request)
    ensures forall a, b :: StableLink(r)(a, b).newId == b
  {
  }

  lemma {:induction false} StructuralNames()
    ensures forall a, b :: StructuralLink()(a, b).newId == b
  {
  }

  lemma {:induction false} HintErrors(r: Request, links: map<string, Link>, hints: seq<Hint>)
    ensures HintLinks(r, links, hints).NoMatch? ==> HintLinks(r, links, hints).error.LabelNotUnique?
    decreases |hints|
  {
    if hints != [] && HintLinks(r, links, hints).NoMatch? {
      var olds := Labelled(r.before, hints[0].oldLabel, links.Keys);
      var news := Labelled(r.after, hints[0].newLabel, NewIds(links));
      if |olds| == 1 && |news| == 1 {
        var a :| a in olds && exists b ::
                   b in news
                   && HintLinks(r, links, hints) == HintLinks(r, links[a := HintLink(hints[0], b)], hints[1..]);
        var b :| b in news
                   && HintLinks(r, links, hints) == HintLinks(r, links[a := HintLink(hints[0], b)], hints[1..]);
        HintErrors(r, links[a := HintLink(hints[0], b)], hints[1..]);
      }
    }
  }

  // ---- Matching edges ----

  ghost function EdgePairs(r: Request, f: map<string, string>): map<string, string> {
    Pairs(r.before.edges.Keys, r.after.edges.Keys, CarriedKeys(r.before, f), EdgeKeys(r.after))
  }

  ghost function EdgeLimitations(r: Request, f: map<string, string>): set<Limitation> {
    EdgesUnclear(AmbiguousKeys(r.before.edges.Keys, r.after.edges.Keys, CarriedKeys(r.before, f), EdgeKeys(r.after)))
  }

  ghost function PairedOlds(olds: set<string>, news: set<string>, oldKey: Keys, newKey: Keys, done: set<Key>)
    : set<string> {
    WithKeys(Pairs(olds, news, oldKey, newKey), oldKey, done).Keys
  }
  ghost function PairedNews(olds: set<string>, news: set<string>, oldKey: Keys, newKey: Keys, done: set<Key>)
    : set<string> {
    WithKeys(Pairs(olds, news, oldKey, newKey), oldKey, done).Values
  }

  /** The edges of both sides that stand for each other, in any order of the keys. */
  method MatchGroups(olds: set<string>, news: set<string>, oldKey: Keys, newKey: Keys)
    returns (matchedOld: set<string>, matchedNew: set<string>, ambiguous: set<Key>)
    ensures matchedOld == Pairs(olds, news, oldKey, newKey).Keys
            && matchedNew == Pairs(olds, news, oldKey, newKey).Values
    ensures forall k :: k in ambiguous <==> Ambiguous(olds, news, oldKey, newKey, k)
  {
    hide Held, Holds, Ambiguous, Pairs, Pair, PairedOlds, PairedNews;
    var oldGroups := Group(olds, oldKey);
    var newGroups := Group(news, newKey);
    matchedOld, matchedNew, ambiguous := {}, {}, {};
    var todo := oldGroups.Keys * newGroups.Keys;
    ghost var done: set<Key> := {};
    NoEdgesPaired(olds, news, oldKey, newKey);
    while todo != {}
      invariant done !! todo && done + todo == oldGroups.Keys * newGroups.Keys
      invariant matchedOld == PairedOlds(olds, news, oldKey, newKey, done)
                && matchedNew == PairedNews(olds, news, oldKey, newKey, done)
      invariant forall k :: k in ambiguous <==> k in done && Ambiguous(olds, news, oldKey, newKey, k)
      decreases |todo|
    {
      var k :| k in todo;
      GroupsOfOne(olds, news, oldKey, newKey, k);
      if |oldGroups[k]| == 1 && |newGroups[k]| == 1 {
        var a :| a in oldGroups[k];
        var b :| b in newGroups[k];
        OneEdgePairMore(olds, news, oldKey, newKey, done, k, a, b);
        matchedOld, matchedNew := matchedOld + {a}, matchedNew + {b};
      } else {
        NoEdgePairMore(olds, news, oldKey, newKey, done, k);
        ambiguous := ambiguous + {k};
      }
      todo, done := todo - {k}, done + {k};
    }
    AllEdgesPaired(olds, news, oldKey, newKey, done);
  }

  method MatchEdges(r: Request, f: map<string, string>)
    returns (matchedOld: set<string>, matchedNew: set<string>, limitations: set<Limitation>)
    ensures matchedOld == EdgePairs(r, f).Keys && matchedNew == EdgePairs(r, f).Values
    ensures limitations == EdgeLimitations(r, f)
  {
    hide Ambiguous, Pairs, AmbiguousKeys, CarriedKeys, EdgeKeys, EdgesUnclear;
    var ambiguous;
    matchedOld, matchedNew, ambiguous := MatchGroups(r.before.edges.Keys, r.after.edges.Keys, CarriedKeys(r.before, f),
                                                     EdgeKeys(r.after));
    AmbiguousIsHeld(r.before.edges.Keys, r.after.edges.Keys, CarriedKeys(r.before, f), EdgeKeys(r.after), ambiguous);
    limitations := EdgesUnclear(ambiguous);
  }

  lemma {:induction false} NoEdgesPaired(olds: set<string>, news: set<string>, oldKey: Keys, newKey: Keys)
    ensures PairedOlds(olds, news, oldKey, newKey, {}) == {} && PairedNews(olds, news, oldKey, newKey, {}) == {}
  {
  }

  lemma {:induction false} OneEdgePairMore(olds: set<string>, news: set<string>, oldKey: Keys, newKey: Keys,
                                           done: set<Key>, k: Key, a: string, b: string)
    requires Pair(olds, news, oldKey, newKey, a, b) && k !in done && a in Held(olds, oldKey, k)
    ensures PairedOlds(olds, news, oldKey, newKey, done + {k}) == PairedOlds(olds, news, oldKey, newKey, done) + {a}
    ensures PairedNews(olds, news, oldKey, newKey, done + {k}) == PairedNews(olds, news, oldKey, newKey, done) + {b}
  {
    hide Pairs, WithKeys, Pair;
    OnePairMore(olds, news, oldKey, newKey, done, a, b);
    OneValueMore(WithKeys(Pairs(olds, news, oldKey, newKey), oldKey, done), a, b);
  }

  lemma {:induction false} NoEdgePairMore(olds: set<string>, news: set<string>, oldKey: Keys, newKey: Keys,
                                          done: set<Key>, k: Key)
    requires Ambiguous(olds, news, oldKey, newKey, k)
    ensures PairedOlds(olds, news, oldKey, newKey, done + {k}) == PairedOlds(olds, news, oldKey, newKey, done)
    ensures PairedNews(olds, news, oldKey, newKey, done + {k}) == PairedNews(olds, news, oldKey, newKey, done)
  {
    NoPairMore(olds, news, oldKey, newKey, done, k);
  }

  lemma {:induction false} AllEdgesPaired(olds: set<string>, news: set<string>, oldKey: Keys, newKey: Keys,
                                          done: set<Key>)
    requires forall k :: Holds(olds, oldKey, k) && Holds(news, newKey, k) ==> k in done
    ensures PairedOlds(olds, news, oldKey, newKey, done) == Pairs(olds, news, oldKey, newKey).Keys
    ensures PairedNews(olds, news, oldKey, newKey, done) == Pairs(olds, news, oldKey, newKey).Values
    ensures forall k :: Ambiguous(olds, news, oldKey, newKey, k) ==> k in done
  {
    AllPairs(olds, news, oldKey, newKey, done);
  }

  lemma {:induction false} OneValueMore(m: map<string, string>, a: string, b: string)
    requires a !in m
    ensures m[a := b].Values == m.Values + {b}
  {
    forall v <- m.Values ensures v in m[a := b].Values {
      var x :| x in m && m[x] == v;
      assert m[a := b][x] == v;
    }
    assert m[a := b][a] == b;
  }

  // ---- Changes ----

  ghost function NewToOld(links: map<string, Link>): map<string, string> {
    map b | b in NewIds(links) :: (var a :| a in links && links[a].newId == b; a)
  }

  ghost function OldToNew(links: map<string, Link>): map<string, string> { map a | a in links :: links[a].newId }

  ghost function StartOld(r: Request, links: map<string, Link>): map<string, Change> {
    map a | a in r.before.nodes :: if a in links then links[a].change else Removed
  }

  ghost function StartNew(r: Request, links: map<string, Link>, newToOld: map<string, string>): map<string, Change> {
    map b | b in r.after.nodes :: if b in newToOld && newToOld[b] in links then links[newToOld[b]].change else Added
  }

  /** The ends of the edges that are not matched. */
  ghost function Touched(edges: map<string, Edge>, unmatched: set<string>): set<string> {
    (set e | e in edges && e in unmatched :: edges[e].source)
        + (set e | e in edges && e in unmatched :: edges[e].target)
  }

  // ---- Spreading the changes of edges ----

  ghost function OwnAfter(own: map<string, Change>, mapping: map<string, string>, touched: set<string>)
    : map<string, Change>
  {
    map x | x in own :: if own[x] == Unchanged && x in mapping && x in touched then Updated else own[x]
  }

  ghost predicate PeerTouched(own: map<string, Change>, mapping: map<string, string>, touched: set<string>, y: string) {
    exists x <- mapping :: mapping[x] == y && x in touched && x in own && own[x] == Unchanged
  }

  ghost function PeerAfter(own: map<string, Change>, peer: map<string, Change>, mapping: map<string, string>,
                           touched: set<string>)
    : map<string, Change> {
    map y | y in peer :: if peer[y] == Unchanged && PeerTouched(own, mapping, touched, y) then Updated else peer[y]
  }

  /** One end of an unmatched edge: a mapped node that was unchanged becomes updated, and so does its peer. */
  method Touch(own: map<string, Change>, peer: map<string, Change>, mapping: map<string, string>, x: string,
               ghost own0: map<string, Change>, ghost peer0: map<string, Change>, ghost touched: set<string>)
                 returns (own': map<string, Change>, peer': map<string, Change>)
    requires x in own0 && mapping.Values <= peer0.Keys
    requires own == OwnAfter(own0, mapping, touched) && peer == PeerAfter(own0, peer0, mapping, touched)
    ensures own' == OwnAfter(own0, mapping, touched + {x}) && peer' == PeerAfter(own0, peer0, mapping, touched + {x})
  {
    own', peer' := own, peer;
    if x in mapping && own[x] == Unchanged {
      own' := own'[x := Updated];
      if peer[mapping[x]] == Unchanged { peer' := peer'[mapping[x] := Updated]; }
    }
    TouchSpreads(own0, peer0, mapping, touched, x);
  }

  lemma {:induction false} TouchSpreads(own: map<string, Change>, peer: map<string, Change>,
                                        mapping: map<string, string>, touched: set<string>, x: string)
    ensures forall y :: PeerTouched(own, mapping, touched + {x}, y)
              <==> PeerTouched(own, mapping, touched, y)
                   || (x in mapping && mapping[x] == y && x in own && own[x] == Unchanged)
  {
  }

  method Propagate(edges: map<string, Edge>, unmatched: set<string>, own: map<string, Change>,
                   peer: map<string, Change>, mapping: map<string, string>)
    returns (own': map<string, Change>, peer': map<string, Change>)
    requires (forall e <- edges :: edges[e].source in own && edges[e].target in own) && mapping.Values <= peer.Keys
    ensures own' == OwnAfter(own, mapping, Touched(edges, unmatched))
            && peer' == PeerAfter(own, peer, mapping, Touched(edges, unmatched))
  {
    hide OwnAfter, PeerAfter;
    NothingTouched(own, peer, mapping);
    own', peer' := own, peer;
    var todo := edges.Keys;
    ghost var touched: set<string> := {};
    while todo != {}
      invariant todo <= edges.Keys
      invariant touched == Touched(edges, unmatched - todo)
      invariant own' == OwnAfter(own, mapping, touched) && peer' == PeerAfter(own, peer, mapping, touched)
      decreases |todo|
    {
      var e :| e in todo;
      if e in unmatched {
        own', peer' := Touch(own', peer', mapping, edges[e].source, own, peer, touched);
        touched := touched + {edges[e].source};
        own', peer' := Touch(own', peer', mapping, edges[e].target, own, peer, touched);
        touched := touched + {edges[e].target};
      }
      OneMoreTouched(edges, unmatched, todo, e);
      todo := todo - {e};
    }
    assert Touched(edges, unmatched - todo) == Touched(edges, unmatched);
  }

  lemma {:induction false} NothingTouched(own: map<string, Change>, peer: map<string, Change>,
                                          mapping: map<string, string>)
    ensures OwnAfter(own, mapping, {}) == own && PeerAfter(own, peer, mapping, {}) == peer
  {
  }

  lemma {:induction false} OneMoreTouched(edges: map<string, Edge>, unmatched: set<string>, todo: set<string>,
                                          e: string)
    requires e in todo && todo <= edges.Keys
    ensures Touched(edges, unmatched - edges.Keys) == {}
    ensures Touched(edges, unmatched - (todo - {e}))
            == if e in unmatched then Touched(edges, unmatched - todo) + {edges[e].source} + {edges[e].target}
                else Touched(edges, unmatched - todo)
  {
    var grown := if e in unmatched then (unmatched - todo) + {e} else unmatched - todo;
    assert unmatched - (todo - {e}) == grown;
  }

  // ---- The mapping is one to one ----

  ghost predicate Bijective(r: Request, links: map<string, Link>) {
    && links.Keys <= r.before.nodes.Keys && NewIds(links) <= r.after.nodes.Keys
    && (forall a <- links, b <- links :: links[a].newId == links[b].newId ==> a == b)
  }

  lemma {:induction false} OneLinkKeepsBijective(r: Request, links: map<string, Link>, a: string, link: Link)
    requires Bijective(r, links) && a in r.before.nodes && a !in links && link.newId in r.after.nodes
             && link.newId !in NewIds(links)
    ensures Bijective(r, links[a := link])
  {
    assert NewIds(links[a := link]) <= NewIds(links) + {link.newId};
    forall x <- links ensures links[x].newId != link.newId { assert links[x].newId in NewIds(links); }
  }

  lemma {:induction false} HintsKeepBijective(r: Request, links: map<string, Link>, hints: seq<Hint>)
    requires Bijective(r, links)
    ensures HintLinks(r, links, hints).Links? ==>
              && Bijective(r, HintLinks(r, links, hints).links)
              && forall a <- links ::
                   a in HintLinks(r, links, hints).links && HintLinks(r, links, hints).links[a] == links[a]
    decreases |hints|
  {
    hide Bijective, HintLink;
    if hints != [] && HintLinks(r, links, hints).Links? {
      var a, b := TakenHint(r, links, hints);
      OneLinkKeepsBijective(r, links, a, HintLink(hints[0], b));
      HintsKeepBijective(r, links[a := HintLink(hints[0], b)], hints[1..]);
    }
  }

  /** The pair the first hint adds: the only nodes with its names that are not mapped yet. */
  lemma {:induction false} TakenHint(r: Request, links: map<string, Link>, hints: seq<Hint>)
    returns (a: string, b: string)
    requires hints != [] && HintLinks(r, links, hints).Links?
    ensures Labelled(r.before, hints[0].oldLabel, links.Keys) == {a}
            && Labelled(r.after, hints[0].newLabel, NewIds(links)) == {b}
    ensures a in r.before.nodes && a !in links && b in r.after.nodes && b !in NewIds(links)
            && HintLink(hints[0], b).newId == b
    ensures HintLinks(r, links, hints) == HintLinks(r, links[a := HintLink(hints[0], b)], hints[1..])
  {
    var olds := Labelled(r.before, hints[0].oldLabel, links.Keys);
    var news := Labelled(r.after, hints[0].newLabel, NewIds(links));
    a :| a in olds;
    b :| b in news;
    OfSizeOne(olds, a);
    OfSizeOne(news, b);
  }

  lemma {:induction false} PairsKeepBijective(r: Request, links: map<string, Link>, oldKey: Keys, newKey: Keys,
                                              describe: Describe)
    requires Bijective(r, links) && forall a, b :: describe(a, b).newId == b
    ensures Bijective(r, links + Linked(Pairs(UnmappedOld(r, links), UnmappedNew(r, links), oldKey, newKey), describe))
  {
    var pairs := Pairs(UnmappedOld(r, links), UnmappedNew(r, links), oldKey, newKey);
    var more := links + Linked(pairs, describe);
    forall a <- more ensures (a in pairs ==> more[a].newId == pairs[a] && pairs[a] in UnmappedNew(r, links))
                             && (a !in pairs ==> more[a].newId in NewIds(links)) {
      if a in pairs { assert Pair(UnmappedOld(r, links), UnmappedNew(r, links), oldKey, newKey, a, pairs[a]); }
    }
    forall a <- more, b <- more | more[a].newId == more[b].newId ensures a == b {
      if a in pairs && b in pairs {
        assert Pair(UnmappedOld(r, links), UnmappedNew(r, links), oldKey, newKey, a, pairs[a]);
        assert Pair(UnmappedOld(r, links), UnmappedNew(r, links), oldKey, newKey, b, pairs[b]);
      }
    }
  }

  /** Whatever the three passes map, they map one to one and within the two graphs. */
  lemma {:induction false} MatchingIsBijective(r: Request)
    requires MatchedNodes(r).Links?
    ensures Bijective(r, MatchedNodes(r).links)
  {
    hide Pairs, HintLinks, Bijective, StableKeys, StructuralKeys, StableLink, StructuralLink;
    StableIsBijective(r);
    HintsKeepBijective(r, StableLinks(r), r.hints);
    StructuralNames();
    PairsKeepBijective(r, HintLinks(r, StableLinks(r), r.hints).links, StructuralKeys(r.before, r.renames),
                       StructuralKeys(r.after, map[]),
                       StructuralLink());
  }

  lemma {:induction false} StableIsBijective(r: Request)
    ensures Bijective(r, StableLinks(r))
  {
    hide StableLink, StableKeys;
    StableNames(r);
    var none: map<string, Link> := map[];
    PairsKeepBijective(r, none, StableKeys(r.before), StableKeys(r.after), StableLink(r));
    assert UnmappedOld(r, none) == r.before.nodes.Keys && UnmappedNew(r, none) == r.after.nodes.Keys;
    assert none + StableLinks(r) == StableLinks(r);
  }

  // ---- What the comparison is ----

  datatype Summary = Summary(oldNodes: nat, newNodes: nat, mapped: nat, added: nat, removed: nat, updatedPairs: nat,
                             movedPairs: nat, addedEdges: nat, removedEdges: nat, unchangedEdgePairs: nat)
  datatype Diff = Diff(links: map<string, Link>, oldChanges: map<string, Change>, newChanges: map<string, Change>,
                       oldEdgeChanges: map<string, Change>, newEdgeChanges: map<string, Change>, summary: Summary,
                       limitations: set<Limitation>, complete: bool)
  datatype Outcome = Refused(error: Error) | Compared(diff: Diff)

  ghost function UnmatchedOld(r: Request, links: map<string, Link>): set<string> {
    r.before.edges.Keys - EdgePairs(r, OldToNew(links)).Keys
  }
  ghost function UnmatchedNew(r: Request, links: map<string, Link>): set<string> {
    r.after.edges.Keys - EdgePairs(r, OldToNew(links)).Values
  }

  /** A pair that started unchanged ends updated exactly when an unmatched edge touches either of its ends. */
  ghost function FinalChange(r: Request, links: map<string, Link>, a: string): Change
    requires a in links
  {
    if links[a].change == Unchanged && (a in Touched(r.before.edges, UnmatchedOld(r, links))
                                        || links[a].newId in Touched(r.after.edges, UnmatchedNew(r, links)))
    then Updated else links[a].change
  }

  ghost function FinalOld(r: Request, links: map<string, Link>): map<string, Change> {
    map a | a in r.before.nodes :: if a in links then FinalChange(r, links, a) else Removed
  }

  ghost function FinalNew(r: Request, links: map<string, Link>): map<string, Change> {
    map b | b in r.after.nodes :: if b in NewToOld(links) then FinalChange(r, links, NewToOld(links)[b]) else Added
  }

  function EdgeChanges(edges: map<string, Edge>, matched: set<string>, otherwise: Change): map<string, Change> {
    map e | e in edges :: if e in matched then Unchanged else otherwise
  }

  function Those(changes: map<string, Change>, c: Change): set<string> { set x | x in changes && changes[x] == c }

  function PairsWith(links: map<string, Link>, changes: map<string, Change>, c: Change): set<string> {
    set a | a in links && a in changes && changes[a] == c
  }

  function Summarize(r: Request, links: map<string, Link>, oldChanges: map<string, Change>,
                     newChanges: map<string, Change>, oldEdgeChanges: map<string, Change>,
                     newEdgeChanges: map<string, Change>, matchedOld: set<string>): Summary {
    Summary(|r.before.nodes|, |r.after.nodes|, |links|, |Those(newChanges, Added)|, |Those(oldChanges, Removed)|,
            |PairsWith(links, oldChanges, Updated)|, |PairsWith(links, oldChanges, MovedAway)|,
            |Those(newEdgeChanges, Added)|, |Those(oldEdgeChanges, Removed)|, |matchedOld|)
  }

  ghost function DiffOf(r: Request): Outcome {
    match MatchedNodes(r)
    case NoMatch(error) => Refused(error)
    case Links(links) =>
      var matched := EdgePairs(r, OldToNew(links));
      var limitations := NodeLimitations(r) + EdgeLimitations(r, OldToNew(links));
      var oldEdges := EdgeChanges(r.before.edges, matched.Keys, Removed);
      var newEdges := EdgeChanges(r.after.edges, matched.Values, Added);
      Compared(Diff(links, FinalOld(r, links), FinalNew(r, links), oldEdges, newEdges,
                    Summarize(r, links, FinalOld(r, links), FinalNew(r, links), oldEdges, newEdges, matched.Keys),
                    limitations, r.before.complete && r.after.complete && limitations == {}))
  }

  /** The changes set for the mapped pairs handled so far. */
  ghost function SetOld(r: Request, m: Matching, done: set<string>): map<string, Change> {
    map a | a in r.before.nodes :: if a in m.links && a in done then m.links[a].change else Removed
  }
  ghost function SetNew(r: Request, m: Matching, done: set<string>): map<string, Change> {
    map b | b in r.after.nodes :: if b in m.newToOld && m.newToOld[b] in m.links && m.newToOld[b] in done
        then m.links[m.newToOld[b]].change else Added
  }

  lemma {:induction false} OnePairSet(r: Request, m: Matching, done: set<string>, a: string)
    requires m.Valid() && m.links.Keys <= r.before.nodes.Keys && m.newToOld.Keys <= r.after.nodes.Keys && a in m.links
    ensures SetOld(r, m, done + {a}) == SetOld(r, m, done)[a := m.links[a].change]
    ensures SetNew(r, m, done + {a}) == SetNew(r, m, done)[m.oldToNew[a] := m.links[a].change]
  {
    assert m.newToOld[m.oldToNew[a]] == a;
  }

  lemma {:induction false} AllPairsSet(r: Request, m: Matching)
    ensures SetOld(r, m, {}) == map a | a in r.before.nodes :: Removed
    ensures SetNew(r, m, {}) == map b | b in r.after.nodes :: Added
    ensures SetOld(r, m, m.links.Keys) == StartOld(r, m.links)
            && SetNew(r, m, m.links.Keys) == StartNew(r, m.links, m.newToOld)
  {
  }

  /** The changes nodes start with, before edges spread theirs. */
  method StartChanges(r: Request, m: Matching)
    returns (oldChanges: map<string, Change>, newChanges: map<string, Change>)
    requires m.Valid() && m.oldToNew.Keys == m.links.Keys <= r.before.nodes.Keys
             && m.newToOld.Keys <= r.after.nodes.Keys
    ensures oldChanges == StartOld(r, m.links) && newChanges == StartNew(r, m.links, m.newToOld)
  {
    hide SetOld, SetNew, Matching.Valid;
    AllPairsSet(r, m);
    oldChanges := map a | a in r.before.nodes :: Removed;
    newChanges := map b | b in r.after.nodes :: Added;
    var todo := m.links.Keys;
    ghost var done: set<string> := {};
    while todo != {}
      invariant done + todo == m.links.Keys
      invariant oldChanges == SetOld(r, m, done) && newChanges == SetNew(r, m, done)
      decreases |todo|
    {
      var a :| a in todo;
      OnePairSet(r, m, done, a);
      oldChanges, newChanges := oldChanges[a := m.links[a].change], newChanges[m.oldToNew[a] := m.links[a].change];
      todo, done := todo - {a}, done + {a};
    }
    assert done == m.links.Keys;
  }

  /** Compare two graphs: hints are the only reason to refuse, and the keys and edges may be visited in any order. */
  method Compare(r: Request) returns (outcome: Outcome)
    requires r.Valid()
    ensures outcome == DiffOf(r)
  {
    hide MatchedNodes, NodeLimitations, EdgeLimitations, EdgePairs, Touched, OwnAfter, PeerAfter, StartOld, StartNew,
        FinalOld, FinalNew,
         Summarize, EdgeChanges, NewIds;
    var m, error, limitations := MatchNodes(r);
    if error.Some? { return Refused(error.value); }
    MatchingIsBijective(r);
    DirectionsAgree(r, m);
    var matchedOld, matchedNew, unclear := MatchEdges(r, m.oldToNew);
    limitations := limitations + unclear;
    var oldChanges, newChanges := StartChanges(r, m);
    StartKeys(r, m);
    var oldEdges := EdgeChanges(r.before.edges, matchedOld, Removed);
    var newEdges := EdgeChanges(r.after.edges, matchedNew, Added);
    var oldOnce, newOnce := Propagate(r.before.edges, r.before.edges.Keys - matchedOld, oldChanges, newChanges,
                                      m.oldToNew);
    AfterKeys(oldChanges, newChanges, m.oldToNew, Touched(r.before.edges, r.before.edges.Keys - matchedOld));
    var newTwice, oldTwice := Propagate(r.after.edges, r.after.edges.Keys - matchedNew, newOnce, oldOnce, m.newToOld);
    SpreadTwice(r, m);
    outcome := Compared(Diff(m.links, oldTwice, newTwice, oldEdges, newEdges,
                             Summarize(r, m.links, oldTwice, newTwice, oldEdges, newEdges, matchedOld),
                             limitations, r.before.complete && r.after.complete && limitations == {}));
  }

  /** Both directions of the mapping are the ones its links describe. */
  lemma {:induction false} DirectionsAgree(r: Request, m: Matching)
    requires m.Valid() && Bijective(r, m.links)
    ensures m.oldToNew == OldToNew(m.links) && m.newToOld == NewToOld(m.links)
    ensures m.links.Keys <= r.before.nodes.Keys && m.oldToNew.Keys == m.links.Keys
            && m.newToOld.Keys <= r.after.nodes.Keys
    ensures m.oldToNew.Values <= r.after.nodes.Keys && m.newToOld.Values <= r.before.nodes.Keys
  {
    NewIdsAreMapped(m);
  }

  lemma {:induction false} StartKeys(r: Request, m: Matching)
    ensures StartOld(r, m.links).Keys == r.before.nodes.Keys
            && StartNew(r, m.links, m.newToOld).Keys == r.after.nodes.Keys
  {
  }

  lemma {:induction false} AfterKeys(own: map<string, Change>, peer: map<string, Change>, mapping: map<string, string>,
                                     touched: set<string>)
    ensures OwnAfter(own, mapping, touched).Keys == own.Keys && PeerAfter(own, peer, mapping, touched).Keys == peer.Keys
  {
  }

  /** The peer of a touched node is touched through it alone. */
  lemma {:induction false} OnePeer(m: Matching, own: map<string, Change>, touched: set<string>, y: string)
    requires m.Valid()
    ensures PeerTouched(own, m.oldToNew, touched, y)
            <==> y in m.newToOld && m.newToOld[y] in touched && m.newToOld[y] in own && own[m.newToOld[y]] == Unchanged
    ensures PeerTouched(own, m.newToOld, touched, y)
            <==> y in m.oldToNew && m.oldToNew[y] in touched && m.oldToNew[y] in own && own[m.oldToNew[y]] == Unchanged
  {
    if y in m.newToOld { assert m.oldToNew[m.newToOld[y]] == y; }
    if y in m.oldToNew { assert m.newToOld[m.oldToNew[y]] == y; }
  }

  /** Both ends of a mapping start with the same change, and end with the same change. */
  lemma {:induction false} SpreadPair(r: Request, m: Matching, t: set<string>, u: set<string>, a: string, b: string)
    requires m.Valid() && Bijective(r, m.links) && a in m.links && m.links[a].newId == b
    ensures var own, peer := StartOld(r, m.links), StartNew(r, m.links, m.newToOld);
            var own1, peer1 := OwnAfter(own, m.oldToNew, t), PeerAfter(own, peer, m.oldToNew, t);
            var own2, peer2 := PeerAfter(peer1, own1, m.newToOld, u), OwnAfter(peer1, m.newToOld, u);
            var final := if m.links[a].change == Unchanged && (a in t || b in u) then Updated else m.links[a].change;
            a in own2 && b in peer2 && own2[a] == final && peer2[b] == final
  {
    hide PeerTouched;
    DirectionsAgree(r, m);
    assert m.newToOld[b] == a && b in r.after.nodes;
    var own, peer := StartOld(r, m.links), StartNew(r, m.links, m.newToOld);
    OnePeer(m, own, t, b);
    OnePeer(m, PeerAfter(own, peer, m.oldToNew, t), u, a);
  }

  lemma {:induction false} SpreadOthers(r: Request, m: Matching, t: set<string>, u: set<string>, x: string)
    requires m.Valid() && Bijective(r, m.links)
    ensures var own, peer := StartOld(r, m.links), StartNew(r, m.links, m.newToOld);
            var own1, peer1 := OwnAfter(own, m.oldToNew, t), PeerAfter(own, peer, m.oldToNew, t);
            var own2, peer2 := PeerAfter(peer1, own1, m.newToOld, u), OwnAfter(peer1, m.newToOld, u);
            && (x in own2 <==> x in r.before.nodes) && (x in peer2 <==> x in r.after.nodes)
            && (x in own2 && x !in m.links ==> own2[x] == Removed)
            && (x in peer2 && x !in m.newToOld ==> peer2[x] == Added)
  {
    hide PeerTouched;
    DirectionsAgree(r, m);
  }

  /** Spreading from the old graph and then from the new one reaches exactly the pairs that an unmatched edge
      touches. */
  lemma {:induction false} SpreadTwice(r: Request, m: Matching)
    requires m.Valid() && Bijective(r, m.links)
    ensures var f, b := m.oldToNew, m.newToOld;
            var t := Touched(r.before.edges, UnmatchedOld(r, m.links));
            var u := Touched(r.after.edges, UnmatchedNew(r, m.links));
            var own, peer := StartOld(r, m.links), StartNew(r, m.links, b);
            var own1, peer1 := OwnAfter(own, f, t), PeerAfter(own, peer, f, t);
            OwnAfter(peer1, b, u) == FinalNew(r, m.links) && PeerAfter(peer1, own1, b, u) == FinalOld(r, m.links)
  {
    hide Touched, UnmatchedOld, UnmatchedNew, OwnAfter, PeerAfter, StartOld, StartNew, Bijective;
    DirectionsAgree(r, m);
    var t := Touched(r.before.edges, UnmatchedOld(r, m.links));
    var u := Touched(r.after.edges, UnmatchedNew(r, m.links));
    var own, peer := StartOld(r, m.links), StartNew(r, m.links, m.newToOld);
    var own1, peer1 := OwnAfter(own, m.oldToNew, t), PeerAfter(own, peer, m.oldToNew, t);
    var own2, peer2 := PeerAfter(peer1, own1, m.newToOld, u), OwnAfter(peer1, m.newToOld, u);
    forall x ensures (x in own2 <==> x in FinalOld(r, m.links)) && (x in own2 ==> own2[x] == FinalOld(r, m.links)[x]) {
      SpreadOthers(r, m, t, u, x);
      if x in m.links { SpreadPair(r, m, t, u, x, m.links[x].newId); }
    }
    forall y ensures (y in peer2 <==> y in FinalNew(r, m.links))
        && (y in peer2 ==> peer2[y] == FinalNew(r, m.links)[y]) {
      SpreadOthers(r, m, t, u, y);
      if y in m.newToOld { SpreadPair(r, m, t, u, m.newToOld[y], y); }
    }
  }
}
