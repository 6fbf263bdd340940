/** What validation asks of a definition. */
module Validation {
  import opened Contracts

  function Elements<T(==)>(s: seq<T>): set<T> { set x | x in s }

  function IdsOf(nodes: seq<NodeDefinition>): (ids: seq<NodeId>)
    ensures |ids| == |nodes| && forall i :: 0 <= i < |ids| ==> ids[i] == nodes[i].nodeId
  {
    seq(|nodes|, i requires 0 <= i < |nodes| => nodes[i].nodeId)
  }

  function ExitsOf(routes: seq<Route>): (exits: seq<(NodeId, NodeOutcome)>)
    ensures |exits| == |routes| && forall i :: 0 <= i < |exits| ==> exits[i] == (routes[i].from, routes[i].outcome)
  {
    seq(|routes|, i requires 0 <= i < |routes| => (routes[i].from, routes[i].outcome))
  }

  predicate SoundNode(n: NodeDefinition) {
    && Says(n.inputContract) && Says(n.resultContract) && n.timeout > 0
    && (if n.kind.Human? then n.maxRetries == 0 else n.maxRetries >= 0)
  }

  /** Every node has an id and every route an exit of its own, all names are those of nodes, and every node is sound. */
  predicate Sound(def: WorkflowDefinition) {
    var ids := IdsOf(def.nodes);
    && Says(def.workflowId) && def.version > 0 && def.nodes != [] && def.completion != []
    && |Elements(ids)| == |ids| && |Elements(ExitsOf(def.routes))| == |def.routes|
    && def.entryNode in ids && def.rework.target in ids && def.rework.maxReworks >= 0
    && (forall n <- def.nodes :: SoundNode(n))
    && (forall r <- def.routes :: r.from in ids && (r.target in ids || r.target == COMPLETE))
    && (forall id <- def.completion :: id in ids)
  }

  /** A sequence has as many elements as it is long exactly when none is repeated. */
  lemma {:induction false} CountsDistinct<T>(s: seq<T>)
    ensures |Elements(s)| <= |s|
    ensures |Elements(s)| == |s| <==> forall i, j :: 0 <= i < j < |s| ==> s[i] != s[j]
  {
    if s != [] {
      var n := |s| - 1;
      CountsDistinct(s[..n]);
      assert Elements(s) == Elements(s[..n]) + {s[n]};
      if s[n] in s[..n] { assert Elements(s) == Elements(s[..n]); }
    }
  }

  lemma {:induction false} HasNodeIsId(def: WorkflowDefinition, id: NodeId)
    ensures def.HasNode(id) <==> id in IdsOf(def.nodes)
  {
    if i :| 0 <= i < |def.nodes| && def.nodes[i].nodeId == id { assert IdsOf(def.nodes)[i] == id; }
  }

  lemma {:induction false} ValidNodeIsSound(n: NodeDefinition)
    ensures ValidNode(n) <==> SoundNode(n)
  {
    hide WhiteSpace;
  }

  lemma {:induction false} NodesAreSound(nodes: seq<NodeDefinition>)
    ensures (forall i :: 0 <= i < |nodes| ==> ValidNode(nodes[i])) <==> forall n <- nodes :: SoundNode(n)
  {
    hide ValidNode, SoundNode;
    forall n ensures ValidNode(n) <==> SoundNode(n) { ValidNodeIsSound(n); }
  }

  /** A definition passes validation exactly when it is sound. */
  lemma {:induction false} ValidationIsExact(def: WorkflowDefinition)
    ensures def.Valid() <==> Sound(def)
  {
    hide WorkflowDefinition.HasNode, Elements, WhiteSpace, ValidNode, SoundNode;
    CountsDistinct(IdsOf(def.nodes));
    CountsDistinct(ExitsOf(def.routes));
    NodesAreSound(def.nodes);
    forall id ensures def.HasNode(id) <==> id in IdsOf(def.nodes) { HasNodeIsId(def, id); }
    assert Blank(def.workflowId) <==> !Says(def.workflowId);
    hide Blank, Says;
  }

  /** The characters that count as white space, by their code points. */
  lemma {:induction false} WhiteSpaceIs(c: char)
    ensures WhiteSpace(c)
            <==> c as int in {0x9, 0xA, 0xB, 0xC, 0xD, 0x20, 0x85, 0xA0, 0x1680, 0x2000, 0x2001, 0x2002, 0x2003, 0x2004,
                              0x2005, 0x2006, 0x2007, 0x2008, 0x2009, 0x200A, 0x2028, 0x2029, 0x202F, 0x205F, 0x3000}
  {
  }
}
