/** Reading analyzer results and renames into the graphs and the rename map a comparison works on. */
module GraphInput {
  import opened GraphDiff

  datatype Role = Old | New
  datatype RawNode = RawNode(revision: Role, locationRevision: Role, node: Node)
  datatype RawEdge = RawEdge(revision: Role, id: string, edge: Edge)
  datatype RawRename = RawRename(oldPath: string, newPath: string)

  /** Every node belongs to the role and ids are distinct. */
  ghost predicate NodesFit(role: Role, nodes: seq<RawNode>) {
    && (forall i :: 0 <= i < |nodes| ==> nodes[i].revision == role && nodes[i].locationRevision == role)
    && (forall i, j :: 0 <= i < j < |nodes| ==> nodes[i].node.id != nodes[j].node.id)
  }

  /** Every edge belongs to the role, none dangles, and ids are distinct. */
  ghost predicate EdgesFit(role: Role, ids: set<string>, edges: seq<RawEdge>) {
    && (forall i :: 0 <= i < |edges| ==>
          edges[i].revision == role && edges[i].edge.source in ids && edges[i].edge.target in ids)
    && (forall i, j :: 0 <= i < j < |edges| ==> edges[i].id != edges[j].id)
  }

  ghost predicate HoldsNodes(m: map<string, Node>, nodes: seq<RawNode>) {
    && (forall i :: 0 <= i < |nodes| ==> nodes[i].node.id in m && m[nodes[i].node.id] == nodes[i].node)
    && (forall id <- m :: m[id].id == id && exists i :: 0 <= i < |nodes| && nodes[i].node.id == id)
  }

  ghost predicate HoldsEdges(m: map<string, Edge>, edges: seq<RawEdge>) {
    && (forall i :: 0 <= i < |edges| ==> edges[i].id in m && m[edges[i].id] == edges[i].edge)
    && (forall id <- m :: exists i :: 0 <= i < |edges| && edges[i].id == id)
  }

  lemma {:induction false} OneMoreNode(role: Role, nodes: seq<RawNode>, i: nat, m: map<string, Node>)
    requires i < |nodes| && NodesFit(role, nodes[..i]) && HoldsNodes(m, nodes[..i])
    ensures NodesFit(role, nodes[..i + 1])
            <==> nodes[i].revision == role && nodes[i].locationRevision == role && nodes[i].node.id !in m
    ensures nodes[i].node.id !in m ==> HoldsNodes(m[nodes[i].node.id := nodes[i].node], nodes[..i + 1])
  {
    var before, after := nodes[..i], nodes[..i + 1];
    assert after == before + [nodes[i]];
    if nodes[i].node.id in m {
      var j :| 0 <= j < |before| && before[j].node.id == nodes[i].node.id;
      assert after[j].node.id == after[i].node.id;
    }
  }

  lemma {:induction false} OneMoreEdge(role: Role, ids: set<string>, edges: seq<RawEdge>, i: nat, m: map<string, Edge>)
    requires i < |edges| && EdgesFit(role, ids, edges[..i]) && HoldsEdges(m, edges[..i])
    ensures EdgesFit(role, ids, edges[..i + 1])
            <==> edges[i].revision == role && edges[i].edge.source in ids && edges[i].edge.target in ids
                 && edges[i].id !in m
    ensures edges[i].id !in m ==> HoldsEdges(m[edges[i].id := edges[i].edge], edges[..i + 1])
  {
    var before, after := edges[..i], edges[..i + 1];
    assert after == before + [edges[i]];
    if edges[i].id in m {
      var j :| 0 <= j < |before| && before[j].id == edges[i].id;
      assert after[j].id == after[i].id;
    }
  }

  lemma {:induction false} PrefixesFit(role: Role, ids: set<string>, nodes: seq<RawNode>, edges: seq<RawEdge>)
    ensures NodesFit(role, nodes) ==> forall i :: 0 <= i <= |nodes| ==> NodesFit(role, nodes[..i])
    ensures EdgesFit(role, ids, edges) ==> forall i :: 0 <= i <= |edges| ==> EdgesFit(role, ids, edges[..i])
    ensures NodesFit(role, nodes[..0]) && EdgesFit(role, ids, edges[..0]) && HoldsNodes(map[], nodes[..0])
            && HoldsEdges(map[], edges[..0])
    ensures nodes[..|nodes|] == nodes && edges[..|edges|] == edges
  {
  }

  method ReadNodes(role: Role, nodes: seq<RawNode>) returns (read: Option<map<string, Node>>)
    ensures read.Some? <==> NodesFit(role, nodes)
    ensures read.Some? ==> HoldsNodes(read.value, nodes)
  {
    hide NodesFit, HoldsNodes, EdgesFit, HoldsEdges;
    PrefixesFit(role, {}, nodes, []);
    var found: map<string, Node> := map[];
    var i := 0;
    while i < |nodes|
      invariant 0 <= i <= |nodes| && NodesFit(role, nodes[..i]) && HoldsNodes(found, nodes[..i])
    {
      var n := nodes[i];
      OneMoreNode(role, nodes, i, found);
      if n.revision != role || n.locationRevision != role || n.node.id in found { return None; }
      found := found[n.node.id := n.node];
      i := i + 1;
    }
    read := Some(found);
  }

  method ReadEdges(role: Role, ids: set<string>, edges: seq<RawEdge>) returns (read: Option<map<string, Edge>>)
    ensures read.Some? <==> EdgesFit(role, ids, edges)
    ensures read.Some? ==> HoldsEdges(read.value, edges)
  {
    hide NodesFit, HoldsNodes, EdgesFit, HoldsEdges;
    PrefixesFit(role, ids, [], edges);
    var found: map<string, Edge> := map[];
    var i := 0;
    while i < |edges|
      invariant 0 <= i <= |edges| && EdgesFit(role, ids, edges[..i]) && HoldsEdges(found, edges[..i])
    {
      var e := edges[i];
      OneMoreEdge(role, ids, edges, i, found);
      if e.revision != role || e.edge.source !in ids || e.edge.target !in ids || e.id in found { return None; }
      found := found[e.id := e.edge];
      i := i + 1;
    }
    read := Some(found);
  }

  ghost function NodeIds(nodes: seq<RawNode>): set<string> { set i | 0 <= i < |nodes| :: nodes[i].node.id }

  /** A result is read exactly when it fits its role, and then the graph is the one it describes. */
  method ReadGraph(role: Role, complete: bool, nodes: seq<RawNode>, edges: seq<RawEdge>) returns (read: Option<Graph>)
    ensures read.Some? <==> NodesFit(role, nodes) && EdgesFit(role, NodeIds(nodes), edges)
    ensures read.Some? ==> read.value.complete == complete && read.value.Valid()
                           && HoldsNodes(read.value.nodes, nodes) && HoldsEdges(read.value.edges, edges)
  {
    hide NodesFit, EdgesFit;
    var found := ReadNodes(role, nodes);
    if found.None? { return None; }
    assert found.value.Keys == NodeIds(nodes);
    var kept := ReadEdges(role, found.value.Keys, edges);
    if kept.None? { return None; }
    read := Some(Graph(complete, found.value, kept.value));
    GraphIsValid(read.value, role, nodes, edges);
  }

  lemma {:induction false} GraphIsValid(g: Graph, role: Role, nodes: seq<RawNode>, edges: seq<RawEdge>)
    requires HoldsNodes(g.nodes, nodes) && HoldsEdges(g.edges, edges) && EdgesFit(role, g.nodes.Keys, edges)
    ensures g.Valid()
  {
  }

  /** Renames may repeat but not contradict each other. */
  ghost predicate Agree(renames: seq<RawRename>) {
    forall i, j :: 0 <= i < j < |renames| && renames[i].oldPath == renames[j].oldPath
        ==> renames[i].newPath == renames[j].newPath
  }

  ghost predicate Maps(m: map<string, string>, renames: seq<RawRename>) {
    && (forall i :: 0 <= i < |renames| ==> renames[i].oldPath in m && m[renames[i].oldPath] == renames[i].newPath)
    && (forall path <- m :: exists i :: 0 <= i < |renames| && renames[i].oldPath == path)
  }

  lemma {:induction false} OneMoreRename(renames: seq<RawRename>, i: nat, m: map<string, string>)
    requires i < |renames| && Agree(renames[..i]) && Maps(m, renames[..i])
    ensures Agree(renames[..i + 1]) <==> !(renames[i].oldPath in m && m[renames[i].oldPath] != renames[i].newPath)
    ensures Agree(renames[..i + 1]) ==> Maps(m[renames[i].oldPath := renames[i].newPath], renames[..i + 1])
  {
    var before, after := renames[..i], renames[..i + 1];
    assert after == before + [renames[i]];
    if renames[i].oldPath in m {
      var j :| 0 <= j < |before| && before[j].oldPath == renames[i].oldPath;
      assert after[j] == before[j] && after[i] == renames[i];
    }
  }

  lemma {:induction false} PrefixesAgree(renames: seq<RawRename>)
    ensures Agree(renames) ==> forall i :: 0 <= i <= |renames| ==> Agree(renames[..i])
    ensures Agree(renames[..0]) && Maps(map[], renames[..0]) && renames[..|renames|] == renames
  {
  }

  method RenameMap(renames: seq<RawRename>) returns (read: Option<map<string, string>>)
    ensures read.Some? <==> Agree(renames)
    ensures read.Some? ==> Maps(read.value, renames)
  {
    hide Agree, Maps;
    PrefixesAgree(renames);
    var m: map<string, string> := map[];
    var i := 0;
    while i < |renames|
      invariant 0 <= i <= |renames| && Agree(renames[..i]) && Maps(m, renames[..i])
    {
      var item := renames[i];
      OneMoreRename(renames, i, m);
      if item.oldPath in m && m[item.oldPath] != item.newPath { return None; }
      m := m[item.oldPath := item.newPath];
      i := i + 1;
    }
    read := Some(m);
  }
}
