/** The bounded enumeration of call chains: depth first from every root, at most 16 chains of at most 8 hops. */
module Chains {
  datatype Rel = Rel(edge: string, source: string, target: string)
  datatype Found = Found(chains: seq<seq<Rel>>, truncated: bool)

  const MAX_CHAINS := 16
  const MAX_HOPS := 8

  // ---- The enumeration as a function ----

  /** The relationships that leave a node for one not on the path yet. */
  function Outgoing(rels: seq<Rel>, node: string, seen: set<string>): (out: seq<Rel>)
    ensures forall r :: r in out <==> r in rels && r.source == node && r.target !in seen
  {
    if rels == [] then []
    else
      var rest := Outgoing(rels[1..], node, seen);
      if rels[0].source == node && rels[0].target !in seen then [rels[0]] + rest else rest
  }

  function Explore(rels: seq<Rel>, f: Found, node: string, path: seq<Rel>, seen: set<string>): Found
    requires |path| <= MAX_HOPS
    decreases MAX_HOPS - |path|, 1, 0
  {
    if |f.chains| >= MAX_CHAINS then f.(truncated := true)
    else
      var out := Outgoing(rels, node, seen);
      if out == [] || |path| >= MAX_HOPS then
        Found(if path != [] then f.chains + [path] else f.chains, f.truncated || out != [])
      else VisitEach(rels, f, out, path, seen)
  }

  function VisitEach(rels: seq<Rel>, f: Found, out: seq<Rel>, path: seq<Rel>, seen: set<string>): Found
    requires |path| < MAX_HOPS
    decreases MAX_HOPS - |path|, 0, |out|
  {
    if out == [] then f
    else VisitEach(rels, Explore(rels, f, out[0].target, path + [out[0]], seen + {out[0].target}), out[1..], path, seen)
  }

  function VisitRoots(rels: seq<Rel>, f: Found, roots: seq<string>): Found
    decreases |roots|
  {
    if roots == [] then f
    else
      var v := Explore(rels, f, roots[0], [], {roots[0]});
      if |v.chains| >= MAX_CHAINS then v.(truncated := v.truncated || |roots| > 1) else VisitRoots(rels, v, roots[1..])
  }

  function Sources(rels: seq<Rel>): set<string> { set r | r in rels :: r.source }
  function Targets(rels: seq<Rel>): set<string> { set r | r in rels :: r.target }

  /** Sources nothing leads to; every source when there is none of those. */
  function RootSet(rels: seq<Rel>): set<string> {
    if Sources(rels) <= Targets(rels) then Sources(rels) else Sources(rels) - Targets(rels)
  }

  /** The roots, each once, in some order. */
  ghost predicate RootsInOrder(rels: seq<Rel>, roots: seq<string>) {
    && (forall x :: x in roots <==> x in RootSet(rels)) && forall i, j :: 0 <= i < j < |roots| ==> roots[i] != roots[j]
  }

  // ---- The enumeration as it runs ----

  class ChainBuilder {
    const relationships: seq<Rel>
    var chains: seq<seq<Rel>>
    var truncated: bool

    constructor (relationships: seq<Rel>)
      ensures this.relationships == relationships && chains == [] && !truncated
    {
      this.relationships := relationships;
      chains, truncated := [], false;
    }

    method Visit(node: string, path: seq<Rel>, seen: set<string>)
      requires |path| <= MAX_HOPS
      modifies this
      ensures Found(chains, truncated) == Explore(relationships, old(Found(chains, truncated)), node, path, seen)
      decreases MAX_HOPS - |path|
    {
      if |chains| >= MAX_CHAINS {
        truncated := true;
        return;
      }
      var out := Outgoing(relationships, node, seen);
      if out == [] || |path| >= MAX_HOPS {
        if out != [] { truncated := true; }
        if path != [] { chains := chains + [path]; }
        return;
      }
      ghost var before := Found(chains, truncated);
      var i := 0;
      while i < |out|
        invariant 0 <= i <= |out|
        invariant VisitEach(relationships, before, out, path, seen)
                  == VisitEach(relationships, Found(chains, truncated), out[i..], path, seen)
      {
        assert out[i..][0] == out[i] && out[i..][1..] == out[i + 1..];
        Visit(out[i].target, path + [out[i]], seen + {out[i].target});
        i := i + 1;
      }
    }

    method Run(roots: seq<string>)
      modifies this
      ensures Found(chains, truncated) == VisitRoots(relationships, old(Found(chains, truncated)), roots)
    {
      ghost var before := Found(chains, truncated);
      var i := 0;
      while i < |roots|
        invariant 0 <= i <= |roots|
        invariant VisitRoots(relationships, before, roots)
                  == VisitRoots(relationships, Found(chains, truncated), roots[i..])
      {
        assert roots[i..][0] == roots[i] && roots[i..][1..] == roots[i + 1..];
        Visit(roots[i], [], {roots[i]});
        if |chains| >= MAX_CHAINS {
          if i != |roots| - 1 { truncated := true; }
          return;
        }
        i := i + 1;
      }
    }
  }

  // ---- Paths ----

  /** Consecutive relationships from a node, all of them known. */
  ghost predicate Walk(rels: seq<Rel>, node: string, path: seq<Rel>) {
    && (path != [] ==> path[0].source == node)
    && (forall i :: 0 <= i < |path| ==> path[i] in rels)
    && (forall i :: 0 <= i < |path| - 1 ==> path[i].target == path[i + 1].source)
  }

  function End(node: string, path: seq<Rel>): string { if path == [] then node else path[|path| - 1].target }
  function Seen(node: string, path: seq<Rel>): set<string> { {node} + set r | r in path :: r.target }

  /** A walk that never comes back to a node it has been at. */
  ghost predicate Simple(rels: seq<Rel>, node: string, path: seq<Rel>) {
    && Walk(rels, node, path) && (forall i :: 0 <= i < |path| ==> path[i].target != node)
    && (forall i, j :: 0 <= i < j < |path| ==> path[i].target != path[j].target)
  }

  lemma {:induction false} SimpleStep(rels: seq<Rel>, node: string, path: seq<Rel>, r: Rel)
    requires Simple(rels, node, path) && r in rels && r.source == End(node, path) && r.target !in Seen(node, path)
    ensures Simple(rels, node, path + [r]) && Seen(node, path + [r]) == Seen(node, path) + {r.target}
            && End(node, path + [r]) == r.target
  {
    var longer := path + [r];
    forall i | 0 <= i < |longer| ensures longer[i] in rels && longer[i].target != node {
      if i < |path| { assert longer[i] == path[i]; }
    }
    forall i, j | 0 <= i < j < |longer| ensures longer[i].target != longer[j].target {
      if j == |path| { assert path[i].target in Seen(node, path); }
    }
    forall i | 0 <= i < |longer| - 1 ensures longer[i].target == longer[i + 1].source {
      if i == |path| - 1 { assert longer[i] == path[i]; }
    }
    forall x <- longer ensures x.target in Seen(node, path) + {r.target} { if x in path { } }
  }

  lemma {:induction false} SimplePrefix(rels: seq<Rel>, node: string, path: seq<Rel>, k: nat)
    requires Simple(rels, node, path) && k < |path|
    ensures Simple(rels, node, path[..k]) && path[k] in rels && path[k].source == End(node, path[..k])
            && path[k].target !in Seen(node, path[..k])
  {
    if k > 0 { assert path[k - 1].target == path[k].source; }
  }

  // ---- Soundness ----

  /** A chain is a simple path of one to eight hops from a root. */
  ghost predicate Chain(rels: seq<Rel>, path: seq<Rel>) {
    1 <= |path| <= MAX_HOPS && path[0].source in RootSet(rels) && Simple(rels, path[0].source, path)
  }

  ghost predicate AllChains(rels: seq<Rel>, f: Found) {
    |f.chains| <= MAX_CHAINS && forall i :: 0 <= i < |f.chains| ==> Chain(rels, f.chains[i])
  }

  lemma {:induction false} VisitIsSound(rels: seq<Rel>, f: Found, node: string, path: seq<Rel>, root: string)
    requires |path| <= MAX_HOPS && AllChains(rels, f) && root in RootSet(rels) && Simple(rels, root, path)
             && node == End(root, path)
    ensures var v := Explore(rels, f, node, path, Seen(root, path));
            AllChains(rels, v) && f.chains <= v.chains && (f.truncated ==> v.truncated)
    decreases MAX_HOPS - |path|, 1, 0
  {
    hide Simple, RootSet;
    var seen := Seen(root, path);
    var out := Outgoing(rels, node, seen);
    if |f.chains| < MAX_CHAINS {
      if out == [] || |path| >= MAX_HOPS {
        if path != [] { PathIsChain(rels, root, path); }
      } else {
        EachIsSound(rels, f, out, path, root);
      }
    }
  }

  lemma {:induction false} PathIsChain(rels: seq<Rel>, root: string, path: seq<Rel>)
    requires 1 <= |path| <= MAX_HOPS && root in RootSet(rels) && Simple(rels, root, path)
    ensures Chain(rels, path)
  {
  }

  lemma {:induction false} EachIsSound(rels: seq<Rel>, f: Found, out: seq<Rel>, path: seq<Rel>, root: string)
    requires |path| < MAX_HOPS && AllChains(rels, f) && root in RootSet(rels) && Simple(rels, root, path)
    requires forall r <- out :: r in rels && r.source == End(root, path) && r.target !in Seen(root, path)
    ensures var v := VisitEach(rels, f, out, path, Seen(root, path));
            AllChains(rels, v) && f.chains <= v.chains && (f.truncated ==> v.truncated)
    decreases MAX_HOPS - |path|, 0, |out|
  {
    hide Simple, RootSet, AllChains, Seen, End;
    if out != [] {
      SimpleStep(rels, root, path, out[0]);
      VisitIsSound(rels, f, out[0].target, path + [out[0]], root);
      EachIsSound(rels, Explore(rels, f, out[0].target, path + [out[0]], Seen(root, path + [out[0]])), out[1..], path,
                  root);
    }
  }

  lemma {:induction false} RootsAreSound(rels: seq<Rel>, f: Found, roots: seq<string>)
    requires AllChains(rels, f) && forall x <- roots :: x in RootSet(rels)
    ensures AllChains(rels, VisitRoots(rels, f, roots)) && f.chains <= VisitRoots(rels, f, roots).chains
    ensures f.truncated ==> VisitRoots(rels, f, roots).truncated
    decreases |roots|
  {
    hide RootSet, Explore;
    if roots != [] {
      assert Seen(roots[0], []) == {roots[0]};
      VisitIsSound(rels, f, roots[0], [], roots[0]);
      var v := Explore(rels, f, roots[0], [], {roots[0]});
      if |v.chains| < MAX_CHAINS { RootsAreSound(rels, v, roots[1..]); }
    }
  }

  /** At most 16 chains, each a simple path of one to eight hops from a root. */
  lemma {:induction false} ChainsAreSound(rels: seq<Rel>, roots: seq<string>)
    requires RootsInOrder(rels, roots)
    ensures AllChains(rels, VisitRoots(rels, Found([], false), roots))
  {
    RootsAreSound(rels, Found([], false), roots);
  }

  // ---- Completeness when nothing was cut ----

  /** Some chain of the list starts with this path. */
  ghost predicate Covered(f: Found, path: seq<Rel>) { exists i :: 0 <= i < |f.chains| && path <= f.chains[i] }

  lemma {:induction false} CoveredGrows(f: Found, g: Found, path: seq<Rel>)
    requires f.chains <= g.chains && Covered(f, path)
    ensures Covered(g, path)
  {
    var i :| 0 <= i < |f.chains| && path <= f.chains[i];
    assert g.chains[i] == f.chains[i];
  }

  /** If nothing was cut, every simple continuation of the visited path is covered. */
  lemma {:induction false} VisitIsComplete(rels: seq<Rel>, f: Found, node: string, path: seq<Rel>, root: string,
                                           q: seq<Rel>)
    requires |path| <= MAX_HOPS && AllChains(rels, f) && root in RootSet(rels) && Simple(rels, root, path)
             && node == End(root, path)
    requires !Explore(rels, f, node, path, Seen(root, path)).truncated && Simple(rels, root, q) && path <= q && q != []
    ensures Covered(Explore(rels, f, node, path, Seen(root, path)), q)
    decreases MAX_HOPS - |path|, 1, 0
  {
    hide Simple, RootSet, AllChains, VisitEach;
    var seen := Seen(root, path);
    var out := Outgoing(rels, node, seen);
    var v := Explore(rels, f, node, path, seen);
    if path < q {
      NextIsOutgoing(rels, root, path, q);
      assert out != [];
      EachIsComplete(rels, f, out, path, root, q);
    } else {
      assert q == path;
      if out == [] || |path| >= MAX_HOPS {
        assert v.chains[|f.chains|] == path;
      } else {
        var r := out[0];
        SimpleStep(rels, root, path, r);
        assert path <= path + [r];
        EachIsComplete(rels, f, out, path, root, path + [r]);
        var i :| 0 <= i < |v.chains| && path + [r] <= v.chains[i];
        assert path <= v.chains[i];
      }
    }
  }

  lemma {:induction false} NextIsOutgoing(rels: seq<Rel>, root: string, path: seq<Rel>, q: seq<Rel>)
    requires Simple(rels, root, q) && path < q
    ensures q[|path|] in Outgoing(rels, End(root, path), Seen(root, path))
  {
    assert q[..|path|] == path;
    SimplePrefix(rels, root, q, |path|);
  }

  lemma {:induction false} EachIsComplete(rels: seq<Rel>, f: Found, out: seq<Rel>, path: seq<Rel>, root: string,
                                          q: seq<Rel>)
    requires |path| < MAX_HOPS && AllChains(rels, f) && root in RootSet(rels) && Simple(rels, root, path)
    requires forall r <- out :: r in rels && r.source == End(root, path) && r.target !in Seen(root, path)
    requires !VisitEach(rels, f, out, path, Seen(root, path)).truncated && Simple(rels, root, q) && path < q
             && q[|path|] in out
    ensures Covered(VisitEach(rels, f, out, path, Seen(root, path)), q)
    decreases MAX_HOPS - |path|, 0, |out|
  {
    hide Simple, RootSet, AllChains, Seen, End, Covered;
    var r := out[0];
    SimpleStep(rels, root, path, r);
    VisitIsSound(rels, f, r.target, path + [r], root);
    var v := Explore(rels, f, r.target, path + [r], Seen(root, path + [r]));
    EachIsSound(rels, v, out[1..], path, root);
    if q[|path|] == r {
      assert path + [r] <= q;
      VisitIsComplete(rels, f, r.target, path + [r], root, q);
      CoveredGrows(v, VisitEach(rels, v, out[1..], path, Seen(root, path)), q);
    } else {
      EachIsComplete(rels, v, out[1..], path, root, q);
    }
  }

  lemma {:induction false} RootsAreComplete(rels: seq<Rel>, f: Found, roots: seq<string>, root: string, q: seq<Rel>)
    requires AllChains(rels, f) && (forall x <- roots :: x in RootSet(rels)) && root in roots && Simple(rels, root, q)
             && q != []
    requires !VisitRoots(rels, f, roots).truncated
    ensures Covered(VisitRoots(rels, f, roots), q)
    decreases |roots|
  {
    hide RootSet, Explore, Covered, AllChains;
    assert Seen(roots[0], []) == {roots[0]};
    SimpleNone(rels, roots[0]);
    VisitIsSound(rels, f, roots[0], [], roots[0]);
    var v := Explore(rels, f, roots[0], [], {roots[0]});
    if root == roots[0] {
      if |v.chains| < MAX_CHAINS { RootsAreSound(rels, v, roots[1..]); }
      assert !v.truncated && [] <= q;
      VisitIsComplete(rels, f, root, [], root, q);
      if |v.chains| < MAX_CHAINS {
        CoveredGrows(v, VisitRoots(rels, v, roots[1..]), q);
      } else {
        CoveredGrows(v, VisitRoots(rels, f, roots), q);
      }
    } else {
      RootsAreComplete(rels, v, roots[1..], root, q);
    }
  }

  lemma {:induction false} SimpleNone(rels: seq<Rel>, node: string)
    ensures Simple(rels, node, [])
  {
  }

  ghost predicate OnChain(f: Found, r: Rel) { exists i :: 0 <= i < |f.chains| && r in f.chains[i] }

  ghost predicate ReachedLast(rels: seq<Rel>, r: Rel) {
    exists root, q :: root in RootSet(rels) && Simple(rels, root, q) && q != [] && q[|q| - 1] == r
  }

  /** If nothing was cut, a relationship is on some chain exactly when a simple path from a root ends with it. */
  lemma {:induction false} UncutChainsAreExact(rels: seq<Rel>, roots: seq<string>, r: Rel)
    requires RootsInOrder(rels, roots) && !VisitRoots(rels, Found([], false), roots).truncated
    ensures OnChain(VisitRoots(rels, Found([], false), roots), r) <==> ReachedLast(rels, r)
  {
    hide RootSet, VisitRoots, Simple;
    var f := VisitRoots(rels, Found([], false), roots);
    ChainsAreSound(rels, roots);
    if OnChain(f, r) {
      var i :| 0 <= i < |f.chains| && r in f.chains[i];
      var k :| 0 <= k < |f.chains[i]| && f.chains[i][k] == r;
      assert Chain(rels, f.chains[i]);
      PrefixIsSimple(rels, f.chains[i][0].source, f.chains[i], k + 1);
      assert f.chains[i][..k + 1][k] == r;
    }
    if ReachedLast(rels, r) {
      var root, q :| root in RootSet(rels) && Simple(rels, root, q) && q != [] && q[|q| - 1] == r;
      RootsAreComplete(rels, Found([], false), roots, root, q);
      var i :| 0 <= i < |f.chains| && q <= f.chains[i];
      assert f.chains[i][|q| - 1] == r;
    }
  }

  lemma {:induction false} PrefixIsSimple(rels: seq<Rel>, node: string, path: seq<Rel>, k: nat)
    requires Simple(rels, node, path) && k <= |path|
    ensures Simple(rels, node, path[..k])
  {
    if k < |path| { SimplePrefix(rels, node, path, k); } else { assert path[..k] == path; }
  }

  // ---- Acyclic relationships ----

  ghost predicate Acyclic(rels: seq<Rel>) {
    forall path: seq<Rel> | path != [] :: Walk(rels, path[0].source, path) ==> path[0].source != path[|path| - 1].target
  }

  lemma {:induction false} AcyclicWalkIsSimple(rels: seq<Rel>, path: seq<Rel>)
    requires Acyclic(rels) && path != [] && Walk(rels, path[0].source, path)
    ensures Simple(rels, path[0].source, path)
  {
    forall i, j | 0 <= i <= j < |path| ensures path[i].source != path[j].target { SubWalk(rels, path, i, j); }
    forall i, j | 0 <= i < j < |path| ensures path[i].target != path[j].target {
      assert path[i].target == path[i + 1].source;
    }
  }

  lemma {:induction false} SubWalk(rels: seq<Rel>, path: seq<Rel>, i: nat, j: nat)
    requires Acyclic(rels) && path != [] && Walk(rels, path[0].source, path) && i <= j < |path|
    ensures path[i].source != path[j].target
  {
    var part := path[i..j + 1];
    assert part[0] == path[i] && part[|part| - 1] == path[j];
    assert Walk(rels, part[0].source, part);
  }

  function SourcesOf(path: seq<Rel>): set<string> { set r | r in path :: r.source }

  lemma {:induction false} WalkBack(rels: seq<Rel>, r: Rel, path: seq<Rel>)
    requires path != [] && Walk(rels, path[0].source, path) && r in rels && r.target == path[0].source
    ensures Walk(rels, r.source, [r] + path) && SourcesOf([r] + path) == SourcesOf(path) + {r.source}
  {
    var longer := [r] + path;
    forall i | 0 <= i < |longer|
      ensures longer[i] in rels && (i < |longer| - 1 ==> longer[i].target == longer[i + 1].source) {
      if i > 0 { assert longer[i] == path[i - 1]; }
    }
  }

  /** Walking backwards ends at a source nothing leads to. */
  lemma {:induction false} BackToRoot(rels: seq<Rel>, path: seq<Rel>)
    requires Acyclic(rels) && path != [] && Walk(rels, path[0].source, path)
    ensures ReachedLast(rels, path[|path| - 1])
    decreases |Sources(rels) - SourcesOf(path)|
  {
    var node := path[0].source;
    if node in Targets(rels) {
      var r :| r in rels && r.target == node;
      var longer := [r] + path;
      WalkBack(rels, r, path);
      NewSource(rels, longer);
      assert longer[0] == r && longer[1..] == path;
      assert Sources(rels) - SourcesOf(longer) < Sources(rels) - SourcesOf(path);
      Fewer(Sources(rels) - SourcesOf(longer), Sources(rels) - SourcesOf(path));
      BackToRoot(rels, longer);
      assert longer[|longer| - 1] == path[|path| - 1];
    } else {
      AcyclicWalkIsSimple(rels, path);
      assert path[0] in rels && node in Sources(rels) - Targets(rels);
    }
  }

  lemma {:induction false} NewSource(rels: seq<Rel>, path: seq<Rel>)
    requires Acyclic(rels) && path != [] && Walk(rels, path[0].source, path)
    ensures path[0].source in Sources(rels) && path[0].source !in SourcesOf(path[1..])
  {
    assert path[0] in rels;
    forall i | 1 <= i < |path| ensures path[i].source != path[0].source {
      SubWalk(rels, path, 0, i - 1);
      assert path[i - 1].target == path[i].source;
    }
  }

  lemma {:induction false} Fewer(a: set<string>, b: set<string>)
    requires a < b
    ensures |a| < |b|
  {
    assert b == a + (b - a);
    assert b - a != {};
  }

  /** On acyclic relationships, if nothing was cut, every relationship lies on some chain. */
  lemma {:induction false} AcyclicChainsAreComplete(rels: seq<Rel>, roots: seq<string>, r: Rel)
    requires Acyclic(rels) && RootsInOrder(rels, roots) && !VisitRoots(rels, Found([], false), roots).truncated
             && r in rels
    ensures OnChain(VisitRoots(rels, Found([], false), roots), r)
  {
    hide VisitRoots, RootSet;
    UncutChainsAreExact(rels, roots, r);
    assert Walk(rels, [r][0].source, [r]);
    BackToRoot(rels, [r]);
  }

  // ---- A cycle nothing leads into is skipped silently ----

  lemma {:induction false} OutgoingOfThree(x: Rel, y: Rel, z: Rel, node: string, seen: set<string>)
    ensures Outgoing([x, y, z], node, seen)
            == (if x.source == node && x.target !in seen then [x] else [])
                + (if y.source == node && y.target !in seen then [y] else [])
               + (if z.source == node && z.target !in seen then [z] else [])
  {
    assert [x, y, z][1..] == [y, z] && [y, z][1..] == [z] && [z][1..] == [];
    assert Outgoing([], node, seen) == [];
    assert Outgoing([z], node, seen) == if z.source == node && z.target !in seen then [z] else [];
  }

  lemma {:induction false} SingleHop(rels: seq<Rel>, r: Rel)
    requires Outgoing(rels, r.source, {r.source}) == [r] && Outgoing(rels, r.target, {r.source, r.target}) == []
    ensures VisitRoots(rels, Found([], false), [r.source]) == Found([[r]], false)
  {
    hide Outgoing;
    assert [] + [r] == [r] && {r.source} + {r.target} == {r.source, r.target};
    var f := Found([], false);
    assert Explore(rels, f, r.target, [r], {r.source, r.target}) == Found([[r]], false);
    assert VisitEach(rels, f, [r], [], {r.source}) == Found([[r]], false);
    assert Explore(rels, f, r.source, [], {r.source}) == Found([[r]], false);
  }

  lemma {:induction false} RootlessCycleIsSkipped()
    ensures var rels := [Rel("1", "a", "b"), Rel("2", "c", "d"), Rel("3", "d", "c")];
            var f := VisitRoots(rels, Found([], false), ["a"]);
            RootsInOrder(rels, ["a"]) && !f.truncated && !OnChain(f, rels[1])
  {
    var ab, cd, dc := Rel("1", "a", "b"), Rel("2", "c", "d"), Rel("3", "d", "c");
    var rels := [ab, cd, dc];
    OnlyRoot(ab, cd, dc);
    hide RootSet, Outgoing, VisitRoots;
    OutgoingOfThree(ab, cd, dc, "a", {"a"});
    OutgoingOfThree(ab, cd, dc, "b", {"a", "b"});
    SingleHop(rels, ab);
    assert ["a"][0] == "a";
  }

  lemma {:induction false} OnlyRoot(x: Rel, y: Rel, z: Rel)
    requires x.source != x.target && x.source !in {y.source, y.target, z.source, z.target}
             && {y.source, z.source} <= {x.target, y.target, z.target}
    ensures RootSet([x, y, z]) == {x.source}
  {
    assert Sources([x, y, z]) == {x.source, y.source, z.source}
           && Targets([x, y, z]) == {x.target, y.target, z.target} by {
      assert [x, y, z][0] == x && [x, y, z][1] == y && [x, y, z][2] == z;
    }
    assert x.source in Sources([x, y, z]) && x.source !in Targets([x, y, z]);
  }
}
