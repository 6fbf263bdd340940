/** A graph with unique keys, compared with its relabelled copy, shows no change at all. */
module GraphCopy {
  import opened GraphDiff
  import opened GraphCompare
  import opened GraphTheorems

  /** Every key the comparison uses belongs to one node or edge of the graph. */
  ghost predicate UniqueKeys(g: Graph) {
    && (forall a <- g.nodes, b <- g.nodes ::
          StableKey(g.nodes[a]).Some? && StableKey(g.nodes[a]) == StableKey(g.nodes[b]) ==> a == b)
    && (forall a <- g.nodes, b <- g.nodes ::
          (StableKey(g.nodes[a]).None? && StableKey(g.nodes[b]).None?
           && StructuralKey(g.nodes[a], map[]) == StructuralKey(g.nodes[b], map[])) ==> a == b)
    && (forall e <- g.edges, x <- g.edges :: g.edges[e] == g.edges[x] ==> e == x)
  }

  ghost predicate Renames(f: map<string, string>, xs: set<string>, ys: set<string>) {
    f.Keys == xs && f.Values == ys && forall a <- f, b <- f :: f[a] == f[b] ==> a == b
  }

  /** The same graph under other ids: same kinds, names, paths and stable keys, and the same edges between them. */
  ghost predicate Copy(g: Graph, h: Graph, nodeOf: map<string, string>, edgeOf: map<string, string>) {
    && Renames(nodeOf, g.nodes.Keys, h.nodes.Keys) && Renames(edgeOf, g.edges.Keys, h.edges.Keys)
    && (forall a <- nodeOf :: nodeOf[a] in h.nodes && SameNode(g.nodes[a], h.nodes[nodeOf[a]]))
    && (forall e <- edgeOf :: edgeOf[e] in h.edges && g.edges[e].source in nodeOf && g.edges[e].target in nodeOf
          && h.edges[edgeOf[e]] == Edge(g.edges[e].relation, nodeOf[g.edges[e].source], nodeOf[g.edges[e].target]))
  }

  ghost predicate SameNode(n: Node, m: Node) {
    m.kind == n.kind && m.name == n.name && m.path == n.path && StableKey(m) == StableKey(n)
  }

  /** Pairing two renamed sets by keys the renaming keeps pairs every item that has a key with its own image. */
  lemma {:induction false} ImagesPair(f: map<string, string>, olds: set<string>, news: set<string>, oldKey: Keys,
                                      newKey: Keys)
    requires Renames(f, olds, news) && forall a <- olds :: newKey(f[a]) == oldKey(a)
    requires forall a <- olds, b <- olds :: oldKey(a).Some? && oldKey(a) == oldKey(b) ==> a == b
    ensures Pairs(olds, news, oldKey, newKey) == map a | a in olds && oldKey(a).Some? :: f[a]
    ensures forall k :: !Ambiguous(olds, news, oldKey, newKey, k)
  {
    var pairs := Pairs(olds, news, oldKey, newKey);
    forall a | a in olds && oldKey(a).Some? ensures Pair(olds, news, oldKey, newKey, a, f[a]) {
      forall y <- news | newKey(y) == newKey(f[a]) ensures y == f[a] {
        var x :| x in f && f[x] == y;
      }
    }
    forall a <- pairs ensures a in olds && oldKey(a).Some? {
      assert Pair(olds, news, oldKey, newKey, a, pairs[a]);
    }
    forall k ensures !Ambiguous(olds, news, oldKey, newKey, k) {
      if Holds(olds, oldKey, k) {
        var a :| a in olds && oldKey(a) == Some(k);
        assert Pair(olds, news, oldKey, newKey, a, f[a]);
      }
    }
  }

  lemma {:induction false} StableCopy(r: Request, nodeOf: map<string, string>, edgeOf: map<string, string>)
    requires Copy(r.before, r.after, nodeOf, edgeOf) && UniqueKeys(r.before)
    ensures forall a :: a in StableLinks(r) <==> a in r.before.nodes && StableKey(r.before.nodes[a]).Some?
    ensures forall a <- StableLinks(r) :: StableLinks(r)[a] == Link(nodeOf[a], SameSymbol, r.confidence, Unchanged)
    ensures AmbiguousKeys(r.before.nodes.Keys, r.after.nodes.Keys, StableKeys(r.before), StableKeys(r.after)) == {}
  {
    hide StableKey, Ambiguous, Pairs;
    ImagesPair(nodeOf, r.before.nodes.Keys, r.after.nodes.Keys, StableKeys(r.before), StableKeys(r.after));
  }

  ghost function Part(f: map<string, string>, part: set<string>): map<string, string> {
    map a | a in part && a in f :: f[a]
  }
  ghost function Image(f: map<string, string>, xs: set<string>): set<string> { set a | a in xs && a in f :: f[a] }

  lemma {:induction false} PartRenamed(f: map<string, string>, xs: set<string>, ys: set<string>, part: set<string>)
    requires Renames(f, xs, ys) && part <= xs
    ensures Renames(Part(f, part), part, ys - Image(f, xs - part))
  {
    var rest := Part(f, part);
    forall b <- ys ensures b in rest.Values <==> b !in Image(f, xs - part) {
      var a :| a in f && f[a] == b;
      if a in part { assert rest[a] == b; }
    }
    assert rest.Values == ys - Image(f, xs - part);
  }

  /** The nodes without a stable key: what the stable pass leaves of a graph with unique keys. */
  ghost function Keyless(g: Graph): set<string> { set a | a in g.nodes && StableKey(g.nodes[a]).None? }

  lemma {:induction false} StableLeavesKeyless(r: Request, nodeOf: map<string, string>, edgeOf: map<string, string>)
    requires Copy(r.before, r.after, nodeOf, edgeOf) && UniqueKeys(r.before)
    ensures UnmappedOld(r, StableLinks(r)) == Keyless(r.before)
    ensures UnmappedNew(r, StableLinks(r)) == r.after.nodes.Keys - Image(nodeOf,
                                                                         r.before.nodes.Keys - Keyless(r.before))
  {
    hide StableKey, StableLinks, UniqueKeys, SameNode;
    StableCopy(r, nodeOf, edgeOf);
    NamesAreImage(StableLinks(r), nodeOf, r.before.nodes.Keys - Keyless(r.before));
  }

  lemma {:induction false} NamesAreImage(l: map<string, Link>, f: map<string, string>, xs: set<string>)
    requires xs == l.Keys && forall a <- l :: a in f && l[a].newId == f[a]
    ensures Image(f, xs) == NewIds(l)
  {
  }

  lemma {:induction false} RestRenamed(r: Request, nodeOf: map<string, string>, edgeOf: map<string, string>)
    requires Copy(r.before, r.after, nodeOf, edgeOf) && UniqueKeys(r.before)
    ensures Renames(Part(nodeOf, Keyless(r.before)), UnmappedOld(r, StableLinks(r)), UnmappedNew(r, StableLinks(r)))
  {
    hide StableLinks, UniqueKeys, SameNode, UnmappedOld, UnmappedNew, Renames, Part, Image;
    StableLeavesKeyless(r, nodeOf, edgeOf);
    PartRenamed(nodeOf, r.before.nodes.Keys, r.after.nodes.Keys, Keyless(r.before));
  }

  lemma {:induction false} StructuralCopy(r: Request, nodeOf: map<string, string>, edgeOf: map<string, string>)
    requires Copy(r.before, r.after, nodeOf, edgeOf) && UniqueKeys(r.before) && r.renames == map[]
    ensures StructuralPairs(r, StableLinks(r)) == Part(nodeOf, Keyless(r.before))
    ensures AmbiguousKeys(UnmappedOld(r, StableLinks(r)), UnmappedNew(r, StableLinks(r)),
                          StructuralKeys(r.before, map[]), StructuralKeys(r.after, map[])) == {}
  {
    hide Ambiguous, Pairs, StableLinks, Copy, UniqueKeys, UnmappedOld, UnmappedNew;
    var rest := Part(nodeOf, Keyless(r.before));
    RestRenamed(r, nodeOf, edgeOf);
    StableLeavesKeyless(r, nodeOf, edgeOf);
    KeylessKeys(r, nodeOf, edgeOf);
    ImagesPair(rest, UnmappedOld(r, StableLinks(r)), UnmappedNew(r, StableLinks(r)), StructuralKeys(r.before, map[]),
               StructuralKeys(r.after, map[]));
  }

  lemma {:induction false} KeylessKeys(r: Request, nodeOf: map<string, string>, edgeOf: map<string, string>)
    requires Copy(r.before, r.after, nodeOf, edgeOf) && UniqueKeys(r.before)
    ensures var rest := Part(nodeOf, Keyless(r.before));
            && rest.Keys == Keyless(r.before)
            && (forall a <- rest :: StructuralKeys(r.after, map[])(rest[a]) == StructuralKeys(r.before, map[])(a))
            && (forall a <- rest :: StructuralKeys(r.before, map[])(a).Some?)
            && (forall a <- rest, b <- rest ::
                  StructuralKeys(r.before, map[])(a) == StructuralKeys(r.before, map[])(b) ==> a == b)
  {
    hide StableKey;
  }

  /** Every node is mapped to its image, unchanged, and nothing is ambiguous. */
  lemma {:induction false} NodesCopy(r: Request, nodeOf: map<string, string>, edgeOf: map<string, string>)
    requires Copy(r.before, r.after, nodeOf, edgeOf) && UniqueKeys(r.before) && r.renames == map[] && r.hints == []
    ensures MatchedNodes(r).Links? && OldToNew(MatchedNodes(r).links) == nodeOf && NodeLimitations(r) == {}
    ensures forall a <- MatchedNodes(r).links :: MatchedNodes(r).links[a].change == Unchanged
  {
    hide StableKey, Ambiguous, Pairs, StableLinks, AmbiguousKeys, StructuralKeys, StableKeys, UnmappedOld;
    hide UnmappedNew, StructuralPairs, Copy, UniqueKeys;
    StableCopy(r, nodeOf, edgeOf);
    StructuralCopy(r, nodeOf, edgeOf);
    CopyKeys(r.before, r.after, nodeOf, edgeOf);
    assert OldToNew(MatchedNodes(r).links) == nodeOf;
  }

  lemma {:induction false} CopyKeys(g: Graph, h: Graph, nodeOf: map<string, string>, edgeOf: map<string, string>)
    requires Copy(g, h, nodeOf, edgeOf)
    ensures nodeOf.Keys == g.nodes.Keys && nodeOf.Values == h.nodes.Keys && edgeOf.Keys == g.edges.Keys
            && edgeOf.Values == h.edges.Keys
    ensures Renames(edgeOf, g.edges.Keys, h.edges.Keys)
  {
  }

  lemma {:induction false} EdgesCopy(r: Request, nodeOf: map<string, string>, edgeOf: map<string, string>)
    requires Copy(r.before, r.after, nodeOf, edgeOf) && UniqueKeys(r.before)
    ensures EdgePairs(r, nodeOf) == edgeOf && EdgeLimitations(r, nodeOf) == {}
  {
    hide Copy, UniqueKeys, Ambiguous, Pairs, CarriedKeys, EdgeKeys;
    CopyKeys(r.before, r.after, nodeOf, edgeOf);
    EdgeKeysKept(r, nodeOf, edgeOf);
    ImagesPair(edgeOf, r.before.edges.Keys, r.after.edges.Keys, CarriedKeys(r.before, nodeOf), EdgeKeys(r.after));
    assert edgeOf == map e | e in r.before.edges.Keys && CarriedKeys(r.before, nodeOf)(e).Some? :: edgeOf[e];
    assert AmbiguousKeys(r.before.edges.Keys, r.after.edges.Keys, CarriedKeys(r.before, nodeOf), EdgeKeys(r.after))
           == {};
  }

  lemma {:induction false} EdgeKeysKept(r: Request, nodeOf: map<string, string>, edgeOf: map<string, string>)
    requires Copy(r.before, r.after, nodeOf, edgeOf) && UniqueKeys(r.before)
    ensures forall e <- edgeOf ::
              CarriedKeys(r.before, nodeOf)(e).Some? && EdgeKeys(r.after)(edgeOf[e]) == CarriedKeys(r.before, nodeOf)(e)
    ensures forall e <- edgeOf, x <- edgeOf ::
              CarriedKeys(r.before, nodeOf)(e) == CarriedKeys(r.before, nodeOf)(x) ==> e == x
  {
    hide StableKey, StructuralKey;
    forall e <- edgeOf, x <- edgeOf | CarriedKeys(r.before, nodeOf)(e) == CarriedKeys(r.before, nodeOf)(x) ensures e
        == x {
      var m, n := r.before.edges[e], r.before.edges[x];
      assert CarriedKeys(r.before, nodeOf)(e).value[0] == m.relation
             && CarriedKeys(r.before, nodeOf)(x).value[0] == n.relation;
      assert CarriedKeys(r.before, nodeOf)(e).value[1] == nodeOf[m.source]
             && CarriedKeys(r.before, nodeOf)(x).value[1] == nodeOf[n.source];
      assert CarriedKeys(r.before, nodeOf)(e).value[2] == nodeOf[m.target]
             && CarriedKeys(r.before, nodeOf)(x).value[2] == nodeOf[n.target];
    }
  }

  /** Nothing is added, removed, moved or updated, nothing is ambiguous, and every node is mapped to its image. */
  lemma {:induction false} CopyShowsNoChange(r: Request, nodeOf: map<string, string>, edgeOf: map<string, string>)
    requires Copy(r.before, r.after, nodeOf, edgeOf) && UniqueKeys(r.before) && r.renames == map[] && r.hints == []
    ensures DiffOf(r).Compared?
    ensures var d := DiffOf(r).diff;
            && OldToNew(d.links) == nodeOf && d.limitations == {}
            && d.complete == (r.before.complete && r.after.complete)
            && (forall a <- d.oldChanges :: d.oldChanges[a] == Unchanged)
            && (forall b <- d.newChanges :: d.newChanges[b] == Unchanged)
            && d.summary == Summary(|r.before.nodes|, |r.after.nodes|, |r.before.nodes|, 0, 0, 0, 0, 0, 0,
                                    |r.before.edges|)
  {
    hide MatchedNodes, NodeLimitations, EdgeLimitations, EdgePairs, Copy, UniqueKeys, FinalOld, FinalNew;
    hide EdgeChanges, Bijective;
    NodesCopy(r, nodeOf, edgeOf);
    EdgesCopy(r, nodeOf, edgeOf);
    CopyKeys(r.before, r.after, nodeOf, edgeOf);
    MatchingIsBijective(r);
    NewIdsAreImages(MatchedNodes(r).links);
    AllUnchanged(r, MatchedNodes(r).links, edgeOf);
    NothingIsLost(r);
    assert |edgeOf.Keys| == |r.before.edges.Keys| == |r.before.edges|;
    var links := MatchedNodes(r).links;
    assert links.Keys == nodeOf.Keys && |links| == |links.Keys| && |r.before.nodes| == |r.before.nodes.Keys|;
    SameSizes(r, links, nodeOf, edgeOf);
    assert PairsWith(links, FinalOld(r, links), Updated) == {} && PairsWith(links, FinalOld(r, links), MovedAway) == {};
  }

  lemma {:induction false} AllUnchanged(r: Request, links: map<string, Link>, edgeOf: map<string, string>)
    requires Bijective(r, links) && links.Keys == r.before.nodes.Keys && NewIds(links) == r.after.nodes.Keys
    requires EdgePairs(r, OldToNew(links)) == edgeOf && edgeOf.Keys == r.before.edges.Keys
             && edgeOf.Values == r.after.edges.Keys
    requires forall a <- links :: links[a].change == Unchanged
    ensures forall a <- FinalOld(r, links) :: FinalOld(r, links)[a] == Unchanged
    ensures forall b <- FinalNew(r, links) :: FinalNew(r, links)[b] == Unchanged
  {
    hide EdgePairs, FinalChange, Bijective;
    assert UnmatchedOld(r, links) == {} && UnmatchedNew(r, links) == {};
    forall a <- links ensures FinalChange(r, links, a) == Unchanged { ChangeStays(r, links, a); }
  }

  lemma {:induction false} ChangeStays(r: Request, links: map<string, Link>, a: string)
    requires a in links && links[a].change == Unchanged && UnmatchedOld(r, links) == {} && UnmatchedNew(r, links) == {}
    ensures FinalChange(r, links, a) == Unchanged
  {
    hide UnmatchedOld, UnmatchedNew;
  }

  lemma {:induction false} SameSizes(r: Request, links: map<string, Link>, nodeOf: map<string, string>,
                                     edgeOf: map<string, string>)
    requires Copy(r.before, r.after, nodeOf, edgeOf)
    ensures |r.before.nodes| == |r.after.nodes| && |r.before.edges| == |r.after.edges|
  {
    InjectiveImage(nodeOf);
    InjectiveImage(edgeOf);
    assert |nodeOf| == |nodeOf.Keys| && |edgeOf| == |edgeOf.Keys| && |r.before.nodes| == |r.before.nodes.Keys|
           && |r.before.edges| == |r.before.edges.Keys|;
    assert |r.after.nodes| == |r.after.nodes.Keys| && |r.after.edges| == |r.after.edges.Keys|;
  }
}
