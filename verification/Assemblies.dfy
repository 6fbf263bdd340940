/** Building the assembly graph from a root with a stack of pending names: cycles, missing projects and all. */
module Assemblies {
  datatype Status = BoundUnverified | BoundAttested | MissingOutput | OutsideUnityRoot | AnalyzerOnly
  datatype Reference = Reference(target: string, project: string, status: Status, output: bool)
  /** What building one assembly's context gives: a context, a missing project file, or any other error. */
  datatype Build = Built(references: seq<Reference>, complete: bool) | Missing | Broken
  datatype Dependency = Dependency(source: string, reference: Reference)
  datatype Graph = Graph(assemblies: seq<string>, dependencies: seq<Dependency>, missing: seq<string>, complete: bool)
  datatype Outcome = Failed | Ok(graph: Graph)
  type Builder = string -> Build

  predicate Followed(r: Reference) { r.output && !r.status.OutsideUnityRoot? }

  /** A reference of a built assembly leads on if it has an output and stays inside the Unity root. */
  predicate Leads(build: Builder, a: string, b: string) {
    build(a).Built?
    && exists r <- build(a).references :: r.target == b && r.output && r.status != OutsideUnityRoot
  }

  /** A path from the root along followed references of built assemblies. */
  ghost predicate Path(build: Builder, root: string, path: seq<string>) {
    path != [] && path[0] == root && forall i :: 0 <= i < |path| - 1 ==> Leads(build, path[i], path[i + 1])
  }

  ghost predicate Reachable(build: Builder, root: string, a: string) {
    exists path :: Path(build, root, path) && path[|path| - 1] == a
  }

  lemma {:induction false} RootIsReachable(build: Builder, root: string)
    ensures Reachable(build, root, root)
  {
    assert Path(build, root, [root]);
  }

  lemma {:induction false} ReachableStep(build: Builder, root: string, a: string, b: string)
    requires Reachable(build, root, a) && Leads(build, a, b)
    ensures Reachable(build, root, b)
  {
    var path :| Path(build, root, path) && path[|path| - 1] == a;
    var longer := path + [b];
    forall i | 0 <= i < |longer| - 1 ensures Leads(build, longer[i], longer[i + 1]) {
      if i < |path| - 1 { assert longer[i] == path[i] && longer[i + 1] == path[i + 1]; }
    }
    assert Path(build, root, longer) && longer[|longer| - 1] == b;
  }

  /** The references of one assembly as dependencies, in order. */
  function DependenciesOf(a: string, refs: seq<Reference>): seq<Dependency> {
    if refs == [] then [] else [Dependency(a, refs[0])] + DependenciesOf(a, refs[1..])
  }

  function TargetsOf(refs: seq<Reference>): (targets: seq<string>)
    ensures forall b :: b in targets <==> exists r <- refs :: r.target == b && r.output && r.status != OutsideUnityRoot
  {
    if refs == [] then []
    else (if Followed(refs[0]) then [refs[0].target] else []) + TargetsOf(refs[1..])
  }

  function AllDependencies(build: Builder, assemblies: seq<string>): seq<Dependency> {
    if assemblies == [] then []
    else
      var last := assemblies[|assemblies| - 1];
      AllDependencies(build, assemblies[..|assemblies| - 1]) + if build(last).Built?
          then DependenciesOf(last, build(last).references) else []
  }

  ghost predicate Distinct(names: seq<string>) { forall i, j :: 0 <= i < j < |names| ==> names[i] != names[j] }

  /** Everything taken so far is reachable, and nothing that follows from it was lost. */
  ghost predicate Progress(build: Builder, root: string, assemblies: seq<string>, missing: seq<string>,
                           pending: seq<string>) {
    && (forall a <- pending :: Reachable(build, root, a))
    && (forall a <- assemblies :: build(a).Built? && Reachable(build, root, a))
    && (forall a <- missing :: build(a).Missing? && Reachable(build, root, a))
    && (root in assemblies || root in missing || root in pending)
    && (forall a <- assemblies, b :: Leads(build, a, b) ==> b in assemblies || b in missing || b in pending)
    && Distinct(assemblies)
  }

  /** With nothing pending, what was taken is everything reachable. */
  lemma {:induction false} NothingPending(build: Builder, root: string, assemblies: seq<string>, missing: seq<string>,
                                          path: seq<string>)
    requires Progress(build, root, assemblies, missing, []) && Path(build, root, path)
    ensures path[|path| - 1] in assemblies || path[|path| - 1] in missing
    decreases |path|
  {
    if |path| > 1 {
      var before := path[..|path| - 1];
      assert Path(build, root, before) by {
        forall i | 0 <= i < |before| - 1 ensures Leads(build, before[i], before[i + 1]) {
          assert before[i] == path[i] && before[i + 1] == path[i + 1];
        }
      }
      NothingPending(build, root, assemblies, missing, before);
      assert Leads(build, path[|path| - 2], path[|path| - 1]);
      assert before[|before| - 1] == path[|path| - 2];
    }
  }

  lemma {:induction false} PopKnown(build: Builder, root: string, assemblies: seq<string>, missing: seq<string>,
                                    pending: seq<string>)
    requires Progress(build, root, assemblies, missing, pending) && pending != []
    requires pending[|pending| - 1] in assemblies
    ensures Progress(build, root, assemblies, missing, pending[..|pending| - 1])
  {
    PopSplits(pending);
  }

  lemma {:induction false} PopSplits(pending: seq<string>)
    requires pending != []
    ensures forall b :: b in pending <==> b in pending[..|pending| - 1] || b == pending[|pending| - 1]
  {
    assert pending == pending[..|pending| - 1] + [pending[|pending| - 1]];
  }

  lemma {:induction false} PopMissing(build: Builder, root: string, assemblies: seq<string>, missing: seq<string>,
                                      pending: seq<string>)
    requires Progress(build, root, assemblies, missing, pending) && pending != []
             && build(pending[|pending| - 1]).Missing?
    ensures Progress(build, root, assemblies, missing + [pending[|pending| - 1]], pending[..|pending| - 1])
  {
    PopSplits(pending);
  }

  lemma {:induction false} PopBuilt(build: Builder, root: string, assemblies: seq<string>, missing: seq<string>,
                                    pending: seq<string>)
    requires Progress(build, root, assemblies, missing, pending) && pending != []
    requires build(pending[|pending| - 1]).Built? && pending[|pending| - 1] !in assemblies
    ensures var a := pending[|pending| - 1];
            Progress(build, root, assemblies + [a], missing, pending[..|pending| - 1] + TargetsOf(build(a).references))
  {
    PopSplits(pending);
    var a := pending[|pending| - 1];
    forall b <- TargetsOf(build(a).references) ensures Reachable(build, root, b) { ReachableStep(build, root, a, b); }
  }

  ghost function Names(assemblies: seq<string>): set<string> { set x | x in assemblies }

  lemma {:induction false} Fewer(known: set<string>, assemblies: seq<string>, a: string)
    requires a in known && a !in assemblies
    ensures |known - Names(assemblies + [a])| < |known - Names(assemblies)|
  {
    var before, after := known - Names(assemblies), known - Names(assemblies + [a]);
    assert a in before && a !in after && after <= before - {a};
    Smaller(after, before - {a});
  }

  lemma {:induction false} Smaller(a: set<string>, b: set<string>)
    requires a <= b
    ensures |a| <= |b|
  {
    assert b == a + (b - a);
  }

  /** An active dependency whose target was not built. */
  function Unresolved(dependencies: seq<Dependency>, assemblies: seq<string>): seq<Dependency> {
    if dependencies == [] then []
    else
      var d := dependencies[0];
      (if !d.reference.status.AnalyzerOnly? && d.reference.target !in assemblies then [d] else [])
          + Unresolved(dependencies[1..], assemblies)
  }

  /** Nothing is left unresolved exactly when every dependency is analyzer-only or leads to an assembly. */
  lemma {:induction false} NoneUnresolved(dependencies: seq<Dependency>, assemblies: seq<string>)
    ensures Unresolved(dependencies, assemblies) == []
            <==> forall d <- dependencies :: d.reference.status == AnalyzerOnly || d.reference.target in assemblies
  {
    if dependencies != [] {
      NoneUnresolved(dependencies[1..], assemblies);
      assert dependencies == [dependencies[0]] + dependencies[1..];
    }
  }

  ghost predicate Finite(build: Builder, known: set<string>) { forall a :: build(a).Built? ==> a in known }

  /** The stack ends on cyclic references.  It fails exactly when some reachable assembly fails to build for another
      reason than a missing project; otherwise it holds exactly the reachable assemblies that can be built, each once,
      with each of their references once, and names exactly the reachable ones whose project is missing. */
  method BuildGraph(root: string, build: Builder, ghost known: set<string>) returns (outcome: Outcome)
    requires Finite(build, known)
    ensures outcome.Failed? <==> exists a :: Reachable(build, root, a) && build(a).Broken?
    ensures outcome.Ok? ==>
              var g := outcome.graph;
              && (forall a :: a in g.assemblies <==> Reachable(build, root, a) && build(a).Built?)
              && (forall a :: a in g.missing <==> Reachable(build, root, a) && build(a).Missing?)
              && Distinct(g.assemblies) && g.dependencies == AllDependencies(build, g.assemblies)
              && (g.complete
                  <==> root in g.assemblies && g.missing == [] && (forall a <- g.assemblies :: build(a).complete)
                       && forall d <- g.dependencies :: d.reference.status == AnalyzerOnly
                                                        || d.reference.target in g.assemblies)
  {
    hide Reachable, Leads, Path, Progress, TargetsOf, Unresolved;
    var assemblies: seq<string> := [];
    var dependencies: seq<Dependency> := [];
    var missing: seq<string> := [];
    var pending := [root];
    Begins(build, root);
    while pending != []
      invariant Progress(build, root, assemblies, missing, pending)
      invariant dependencies == AllDependencies(build, assemblies)
      decreases |known - Names(assemblies)|, |pending|
    {
      var name := pending[|pending| - 1];
      var rest := pending[..|pending| - 1];
      if name in assemblies {
        PopKnown(build, root, assemblies, missing, pending);
        pending := rest;
        continue;
      }
      var context := build(name);
      if context.Missing? {
        PopMissing(build, root, assemblies, missing, pending);
        missing, pending := missing + [name], rest;
        continue;
      }
      if context.Broken? {
        TopIsReachable(build, root, assemblies, missing, pending);
        return Failed;
      }
      PopBuilt(build, root, assemblies, missing, pending);
      Fewer(known, assemblies, name);
      assert (assemblies + [name])[..|assemblies|] == assemblies;
      assemblies := assemblies + [name];
      dependencies := dependencies + DependenciesOf(name, context.references);
      pending := rest + TargetsOf(context.references);
    }
    Complete(build, root, assemblies, missing);
    var unresolved := Unresolved(dependencies, assemblies);
    NoneUnresolved(dependencies, assemblies);
    var partial := exists i :: 0 <= i < |assemblies| && !(build(assemblies[i]).Built? && build(assemblies[i]).complete);
    AllBuilt(build, root, assemblies, missing);
    outcome := Ok(Graph(assemblies, dependencies, missing, root in assemblies && missing == [] && unresolved == []
                        && !partial));
  }

  lemma {:induction false} Begins(build: Builder, root: string)
    ensures Progress(build, root, [], [], [root])
  {
    RootIsReachable(build, root);
  }

  lemma {:induction false} TopIsReachable(build: Builder, root: string, assemblies: seq<string>, missing: seq<string>,
                                          pending: seq<string>)
    requires Progress(build, root, assemblies, missing, pending) && pending != []
    ensures Reachable(build, root, pending[|pending| - 1])
  {
  }

  lemma {:induction false} AllBuilt(build: Builder, root: string, assemblies: seq<string>, missing: seq<string>)
    requires Progress(build, root, assemblies, missing, [])
    ensures (forall a <- assemblies :: build(a).Built?) && Distinct(assemblies)
  {
  }

  lemma {:induction false} Complete(build: Builder, root: string, assemblies: seq<string>, missing: seq<string>)
    requires Progress(build, root, assemblies, missing, [])
    ensures forall a :: a in assemblies <==> Reachable(build, root, a) && build(a).Built?
    ensures forall a :: a in missing <==> Reachable(build, root, a) && build(a).Missing?
    ensures forall a :: Reachable(build, root, a) ==> !build(a).Broken?
  {
    forall a | Reachable(build, root, a) ensures a in assemblies || a in missing {
      var path :| Path(build, root, path) && path[|path| - 1] == a;
      NothingPending(build, root, assemblies, missing, path);
    }
  }

  // ---- What a complete graph means ----

  lemma {:induction false} DependencyIsListed(build: Builder, assemblies: seq<string>, a: string, r: Reference)
    requires a in assemblies && build(a).Built? && r in build(a).references
    ensures Dependency(a, r) in AllDependencies(build, assemblies)
    decreases |assemblies|
  {
    var last := assemblies[|assemblies| - 1];
    if a == last { OneIsListed(a, build(a).references, r); }
    else { DependencyIsListed(build, assemblies[..|assemblies| - 1], a, r); }
  }

  /** The dependencies of one assembly are its references, as often as it has each. */
  lemma {:induction false} ReferencesListed(a: string, refs: seq<Reference>, d: Dependency)
    ensures multiset(DependenciesOf(a, refs))[d] == if d.source == a then multiset(refs)[d.reference] else 0
  {
    if refs != [] {
      ReferencesListed(a, refs[1..], d);
      assert refs == [refs[0]] + refs[1..];
      assert DependenciesOf(a, refs) == [Dependency(a, refs[0])] + DependenciesOf(a, refs[1..]);
    }
  }

  /** The dependencies of distinct assemblies are their references, each as often as its assembly has it, and no
      others. */
  lemma {:induction false} EachReferenceOnce(build: Builder, assemblies: seq<string>, d: Dependency)
    requires Distinct(assemblies)
    ensures multiset(AllDependencies(build, assemblies))[d]
            == if d.source in assemblies && build(d.source).Built?
               then multiset(build(d.source).references)[d.reference] else 0
    decreases |assemblies|
  {
    if assemblies != [] {
      var n := |assemblies| - 1;
      var last := assemblies[n];
      EachReferenceOnce(build, assemblies[..n], d);
      if build(last).Built? { ReferencesListed(last, build(last).references, d); }
      assert assemblies == assemblies[..n] + [last];
    }
  }

  lemma {:induction false} OneIsListed(a: string, refs: seq<Reference>, r: Reference)
    requires r in refs
    ensures Dependency(a, r) in DependenciesOf(a, refs)
    decreases |refs|
  {
    if refs[0] != r { OneIsListed(a, refs[1..], r); }
  }

  /** In a complete graph every reference of every assembly is analyzer-only or leads to an assembly of the graph. */
  lemma {:induction false} CompleteGraphIsClosed(build: Builder, g: Graph, a: string, r: Reference)
    requires g.dependencies == AllDependencies(build, g.assemblies)
    requires forall d <- g.dependencies :: d.reference.status == AnalyzerOnly || d.reference.target in g.assemblies
    requires a in g.assemblies && build(a).Built? && r in build(a).references && r.status != AnalyzerOnly
    ensures r.target in g.assemblies
  {
    DependencyIsListed(build, g.assemblies, a, r);
  }
}
