/**
 * Matching an OLD and a NEW analyzer graph: stable symbols first, then explicit hints, then unique structure;
 * then edges, and the changes that unmatched edges spread to the nodes they touch.
 * Keys are visited in any order: what the passes compute is fixed by the graphs alone.
 */
module GraphDiff {
  datatype Option<T> = None | Some(value: T)

  datatype Node = Node(id: string, kind: string, name: string, path: string)
  datatype Edge = Edge(relation: string, source: string, target: string)
  datatype Graph = Graph(complete: bool, nodes: map<string, Node>, edges: map<string, Edge>) {
    ghost predicate Valid() {
      && (forall id <- nodes :: nodes[id].id == id)
      && (forall e <- edges :: edges[e].source in nodes && edges[e].target in nodes)
    }
  }

  datatype Kind = SameSymbol | Renamed | Moved | RenamedAndMoved | Heuristic
  datatype Change = Unchanged | Updated | MovedAway | Added | Removed
  datatype Confidence = ConfirmedStatic | Structural
  datatype Hint = Hint(oldLabel: string, newLabel: string, kind: Kind)
  /** What one mapping says about the old node it belongs to. */
  datatype Link = Link(newId: string, kind: Kind, confidence: Confidence, change: Change)
  datatype Error = NotOneToOne(oldId: string, newId: string) | LabelNotUnique(name: string)
  type Key = seq<string>
  type Keys = string -> Option<Key>
  datatype Limitation = SymbolRepeated(key: Key) | StructureAmbiguous(key: Key) | EdgesAmbiguous(key: Key)

  // ---- Keys ----

  function Colon(s: string): (i: nat)
    ensures i <= |s| && (i < |s| ==> s[i] == ':') && forall j :: 0 <= j < i ==> s[j] != ':'
  {
    if s == "" || s[0] == ':' then 0 else 1 + Colon(s[1..])
  }

  /** The part of an analyzer id after its language and its revision, for types and methods only. */
  function StableKey(n: Node): Option<Key> {
    var i := Colon(n.id);
    if n.kind !in {"TYPE", "METHOD"} || i == |n.id| || n.id[..i] != "csharp" then None
    else
      var rest := n.id[i + 1..];
      var j := Colon(rest);
      if j == |rest| || rest[..j] !in {"OLD", "NEW"} then None else Some([n.kind, rest[j + 1..]])
  }

  /** The role of an id does not enter its key. */
  lemma {:induction false} StableKeyIgnoresRole(n: Node, role: string, rest: string)
    requires n.kind in {"TYPE", "METHOD"} && role in {"OLD", "NEW"} && n.id == "csharp" + ":" + role + ":" + rest
    ensures StableKey(n) == Some([n.kind, rest])
  {
    SplitAt("csharp", role + ":" + rest);
    assert n.id == "csharp" + ":" + (role + ":" + rest);
    SplitAt(role, rest);
  }

  /** Only C# types and methods of either role have a key, and it is what follows the role. */
  lemma {:induction false} OnlySymbolsHaveKeys(n: Node)
    requires StableKey(n).Some?
    ensures n.kind in {"TYPE", "METHOD"}
    ensures exists role, rest :: role in {"OLD", "NEW"} && n.id == "csharp" + ":" + role + ":" + rest
                                 && StableKey(n) == Some([n.kind, rest])
  {
    var i := Colon(n.id);
    var rest := n.id[i + 1..];
    var j := Colon(rest);
    assert n.id == n.id[..i] + ":" + rest && rest == rest[..j] + ":" + rest[j + 1..];
    assert n.id == "csharp" + ":" + rest[..j] + ":" + rest[j + 1..];
  }

  lemma {:induction false} SplitAt(head: string, tail: string)
    requires forall j :: 0 <= j < |head| ==> head[j] != ':'
    ensures var s := head + ":" + tail;
            Colon(s) == |head| && s[..|head|] == head && s[|head| + 1..] == tail
  {
    var s := head + ":" + tail;
    if head != "" {
      assert s[0] == head[0] && s[1..] == head[1..] + ":" + tail;
      SplitAt(head[1..], tail);
    }
    assert s[..|head|] == head && s[|head| + 1..] == tail;
  }

  function StableKeys(g: Graph): Keys { (id: string) => if id in g.nodes then StableKey(g.nodes[id]) else None }

  function RenamedPath(renames: map<string, string>, path: string): string {
    if path in renames then renames[path] else path
  }

  function StructuralKey(n: Node, renames: map<string, string>): Key { [n.kind, n.name, RenamedPath(renames, n.path)] }

  function StructuralKeys(g: Graph, renames: map<string, string>): Keys {
    (id: string) => if id in g.nodes then Some(StructuralKey(g.nodes[id], renames)) else None
  }

  /** An edge of the old graph, seen in the new graph through the mapping: none when an end is not mapped. */
  function CarriedKeys(g: Graph, f: map<string, string>): Keys {
    (e: string) => if e in g.edges && g.edges[e].source in f && g.edges[e].target in f
                   then Some([g.edges[e].relation, f[g.edges[e].source], f[g.edges[e].target]]) else None
  }

  function EdgeKeys(g: Graph): Keys {
    (e: string) => if e in g.edges then Some([g.edges[e].relation, g.edges[e].source, g.edges[e].target]) else None
  }

  // ---- Pairing the groups of one ----

  /** Nobody else on this side has this item's key. */
  ghost predicate Alone(items: set<string>, key: Keys, a: string) { forall x <- items :: key(x) == key(a) ==> x == a }

  ghost predicate Pair(olds: set<string>, news: set<string>, oldKey: Keys, newKey: Keys, a: string, b: string) {
    a in olds && b in news && oldKey(a).Some? && oldKey(a) == newKey(b) && Alone(olds, oldKey, a)
        && Alone(news, newKey, b)
  }

  ghost predicate Holds(items: set<string>, key: Keys, k: Key) { exists a <- items :: key(a) == Some(k) }

  /** Both sides have the key, but one of them has it more than once. */
  ghost predicate Ambiguous(olds: set<string>, news: set<string>, oldKey: Keys, newKey: Keys, k: Key) {
    && Holds(olds, oldKey, k) && Holds(news, newKey, k)
    && !exists a, b :: Pair(olds, news, oldKey, newKey, a, b) && oldKey(a) == Some(k)
  }

  /** The pairing as a map: what every order of visiting the keys arrives at. */
  ghost function Pairs(olds: set<string>, news: set<string>, oldKey: Keys, newKey: Keys): (pairs: map<string, string>)
    ensures forall a, b :: a in pairs && pairs[a] == b <==> Pair(olds, news, oldKey, newKey, a, b)
  {
    map a | a in olds && exists b :: Pair(olds, news, oldKey, newKey, a, b) ::
      (var b :| Pair(olds, news, oldKey, newKey, a, b); b)
  }

  ghost function Held(items: set<string>, key: Keys, k: Key): set<string> { set a | a in items && key(a) == Some(k) }

  lemma {:induction false} OneMoreHeld(items: set<string>, key: Keys, a: string)
    ensures forall k :: Held(items + {a}, key, k) == if key(a) == Some(k) then Held(items, key, k) + {a}
            else Held(items, key, k)
  {
  }

  method Group(items: set<string>, key: Keys) returns (groups: map<Key, set<string>>)
    ensures forall k :: k in groups <==> Holds(items, key, k)
    ensures forall k <- groups :: groups[k] == Held(items, key, k)
  {
    hide Held, Holds;
    groups := map[];
    NothingHeld(key);
    var todo := items;
    ghost var done := {};
    while todo != {}
      invariant done + todo == items
      invariant forall k <- groups :: groups[k] == Held(done, key, k)
      invariant forall k :: k in groups <==> Holds(done, key, k)
      decreases |todo|
    {
      var a :| a in todo;
      var k := key(a);
      OneMoreHeld(done, key, a);
      OneMoreHolds(done, key, a);
      if k.Some? {
        groups := groups[k.value := (if k.value in groups then groups[k.value] else {}) + {a}];
      }
      todo, done := todo - {a}, done + {a};
    }
    assert done == items;
  }

  lemma {:induction false} OneMoreHolds(items: set<string>, key: Keys, a: string)
    ensures forall k :: Holds(items + {a}, key, k) <==> Holds(items, key, k) || key(a) == Some(k)
    ensures forall k :: !Holds(items, key, k) ==> Held(items, key, k) == {}
  {
    forall k ensures Holds(items + {a}, key, k) <==> Holds(items, key, k) || key(a) == Some(k) {
      if key(a) == Some(k) { assert a in items + {a}; }
    }
  }

  lemma {:induction false} NothingHeld(key: Keys)
    ensures forall k :: !Holds({}, key, k)
  {
  }

  lemma {:induction false} OfSizeOne(s: set<string>, a: string)
    requires a in s && |s| == 1
    ensures s == {a}
  {
    assert s == {a} + (s - {a});
  }

  /** A key held once on each side pairs its two holders, and no other old item with that key is paired. */
  lemma {:induction false} GroupsOfOne(olds: set<string>, news: set<string>, oldKey: Keys, newKey: Keys, k: Key)
    requires Holds(olds, oldKey, k) && Holds(news, newKey, k)
    ensures |Held(olds, oldKey, k)| == 1 == |Held(news, newKey, k)| ==>
              forall a <- Held(olds, oldKey, k), b <- Held(news, newKey, k) :: Pair(olds, news, oldKey, newKey, a, b)
    ensures !(|Held(olds, oldKey, k)| == 1 == |Held(news, newKey, k)|) <==> Ambiguous(olds, news, oldKey, newKey, k)
  {
    if |Held(olds, oldKey, k)| == 1 == |Held(news, newKey, k)| {
      forall a <- Held(olds, oldKey, k), b <- Held(news, newKey, k) ensures Pair(olds, news, oldKey, newKey, a, b) {
        OfSizeOne(Held(olds, oldKey, k), a);
        OfSizeOne(Held(news, newKey, k), b);
        assert forall x <- olds :: oldKey(x) == Some(k) ==> x in Held(olds, oldKey, k);
        assert forall x <- news :: newKey(x) == Some(k) ==> x in Held(news, newKey, k);
      }
      var a :| a in olds && oldKey(a) == Some(k);
      var b :| b in news && newKey(b) == Some(k);
      assert a in Held(olds, oldKey, k) && b in Held(news, newKey, k);
    }
    forall a, b | Pair(olds, news, oldKey, newKey, a, b) && oldKey(a) == Some(k)
      ensures |Held(olds, oldKey, k)| == 1 == |Held(news, newKey, k)| {
      assert Held(olds, oldKey, k) == {a} && Held(news, newKey, k) == {b};
    }
  }

  // ---- The mapping so far ----

  /** The mapping in both directions, with what is recorded of each pair under its old node. */
  datatype Matching = Matching(oldToNew: map<string, string>, newToOld: map<string, string>, links: map<string, Link>) {
    ghost predicate Valid() {
      && oldToNew.Keys == links.Keys && (forall a <- links :: links[a].newId == oldToNew[a])
      && (forall a <- oldToNew :: oldToNew[a] in newToOld && newToOld[oldToNew[a]] == a)
      && (forall b <- newToOld :: newToOld[b] in oldToNew && oldToNew[newToOld[b]] == b)
    }
  }

  method AddMapping(m: Matching, oldId: string, link: Link) returns (next: Matching, error: Option<Error>)
    requires m.Valid()
    ensures next.Valid()
    ensures error.Some? <==> oldId in m.oldToNew || link.newId in m.newToOld
    ensures next.links == if error.Some? then m.links else m.links[oldId := link]
  {
    if oldId in m.oldToNew || link.newId in m.newToOld {
      return m, Some(NotOneToOne(oldId, link.newId));
    }
    return Matching(m.oldToNew[oldId := link.newId], m.newToOld[link.newId := oldId], m.links[oldId := link]), None;
  }

  type Describe = (string, string) -> Link

  ghost function Linked(pairs: map<string, string>, describe: Describe): map<string, Link> {
    map a | a in pairs :: describe(a, pairs[a])
  }

  ghost function WithKeys(pairs: map<string, string>, key: Keys, done: set<Key>): map<string, string> {
    map a | a in pairs && key(a).Some? && key(a).value in done :: pairs[a]
  }

  lemma {:induction false} OnePairMore(olds: set<string>, news: set<string>, oldKey: Keys, newKey: Keys, done: set<Key>,
                                       a: string, b: string)
    requires Pair(olds, news, oldKey, newKey, a, b) && oldKey(a).value !in done
    ensures var pairs := Pairs(olds, news, oldKey, newKey);
            a !in WithKeys(pairs, oldKey, done)
            && WithKeys(pairs, oldKey, done + {oldKey(a).value}) == WithKeys(pairs, oldKey, done)[a := b]
  {
  }

  lemma {:induction false} NoPairMore(olds: set<string>, news: set<string>, oldKey: Keys, newKey: Keys, done: set<Key>,
                                      k: Key)
    requires Ambiguous(olds, news, oldKey, newKey, k)
    ensures var pairs := Pairs(olds, news, oldKey, newKey);
            WithKeys(pairs, oldKey, done + {k}) == WithKeys(pairs, oldKey, done)
  {
    var pairs := Pairs(olds, news, oldKey, newKey);
    forall a <- pairs ensures oldKey(a) != Some(k) { assert Pair(olds, news, oldKey, newKey, a, pairs[a]); }
  }

  lemma {:induction false} AllPairs(olds: set<string>, news: set<string>, oldKey: Keys, newKey: Keys, done: set<Key>)
    requires forall k :: Holds(olds, oldKey, k) && Holds(news, newKey, k) ==> k in done
    ensures WithKeys(Pairs(olds, news, oldKey, newKey), oldKey, done) == Pairs(olds, news, oldKey, newKey)
    ensures forall k :: Ambiguous(olds, news, oldKey, newKey, k) ==> k in done
  {
    var pairs := Pairs(olds, news, oldKey, newKey);
    forall a <- pairs ensures oldKey(a).Some? && oldKey(a).value in done {
      assert Pair(olds, news, oldKey, newKey, a, pairs[a]);
      assert Holds(olds, oldKey, oldKey(a).value) && Holds(news, newKey, oldKey(a).value);
    }
  }

  lemma {:induction false} OneLinkMore(links: map<string, Link>, pairs: map<string, string>, describe: Describe,
                                       a: string, b: string)
    ensures links + Linked(pairs[a := b], describe) == (links + Linked(pairs, describe))[a := describe(a, b)]
  {
  }

  lemma {:induction false} NoLinksYet(links: map<string, Link>, pairs: map<string, string>, key: Keys,
                                      describe: Describe)
    ensures links + Linked(WithKeys(pairs, key, {}), describe) == links
  {
  }

  /** Neither end of the next pair is mapped yet. */
  lemma {:induction false} PairIsFree(m: Matching, now: Matching, olds: set<string>, news: set<string>, oldKey: Keys,
                                      newKey: Keys, describe: Describe, done: set<Key>, a: string, b: string)
    requires m.Valid() && now.Valid() && olds !! m.links.Keys && news !! m.newToOld.Keys
             && (forall x, y :: describe(x, y).newId == y)
    requires now.links == m.links + Linked(WithKeys(Pairs(olds, news, oldKey, newKey), oldKey, done), describe)
    requires Pair(olds, news, oldKey, newKey, a, b) && oldKey(a).value !in done
    ensures a !in now.oldToNew && b !in now.newToOld
  {
    var pairs := Pairs(olds, news, oldKey, newKey);
    forall x <- now.links ensures now.links[x].newId != b {
      if x in WithKeys(pairs, oldKey, done) {
        assert Pair(olds, news, oldKey, newKey, x, pairs[x]);
      } else {
        assert now.links[x] == m.links[x] && m.links[x].newId in m.newToOld;
      }
    }
  }

  /** Add every pair of groups of one, whatever the order of the keys; keys that cannot be paired are reported. */
  method AddUnique(m: Matching, olds: set<string>, news: set<string>, oldKey: Keys, newKey: Keys, describe: Describe)
    returns (next: Matching, error: Option<Error>, ambiguous: set<Key>)
    requires m.Valid() && olds !! m.links.Keys && news !! m.newToOld.Keys && (forall a, b :: describe(a, b).newId == b)
    ensures error.None? && next.Valid()
    ensures next.links == m.links + Linked(Pairs(olds, news, oldKey, newKey), describe)
    ensures forall k :: k in ambiguous <==> Ambiguous(olds, news, oldKey, newKey, k)
  {
    hide Holds, Ambiguous, Matching.Valid, Pairs, Pair, WithKeys, Linked;
    NoLinksYet(m.links, Pairs(olds, news, oldKey, newKey), oldKey, describe);
    var oldGroups := Group(olds, oldKey);
    var newGroups := Group(news, newKey);
    next, ambiguous, error := m, {}, None;
    var todo := oldGroups.Keys * newGroups.Keys;
    ghost var done := {};
    while todo != {}
      invariant done !! todo && done + todo == oldGroups.Keys * newGroups.Keys
      invariant error.None? && next.Valid()
      invariant next.links == m.links + Linked(WithKeys(Pairs(olds, news, oldKey, newKey), oldKey, done), describe)
      invariant forall k :: k in ambiguous <==> k in done && Ambiguous(olds, news, oldKey, newKey, k)
      decreases |todo|
    {
      var k :| k in todo;
      GroupsOfOne(olds, news, oldKey, newKey, k);
      if |oldGroups[k]| == 1 && |newGroups[k]| == 1 {
        var a :| a in oldGroups[k];
        var b :| b in newGroups[k];
        PairIsFree(m, next, olds, news, oldKey, newKey, describe, done, a, b);
        OnePairMore(olds, news, oldKey, newKey, done, a, b);
        OneLinkMore(m.links, WithKeys(Pairs(olds, news, oldKey, newKey), oldKey, done), describe, a, b);
        next, error := AddMapping(next, a, describe(a, b));
      } else {
        ambiguous := ambiguous + {k};
        NoPairMore(olds, news, oldKey, newKey, done, k);
      }
      todo, done := todo - {k}, done + {k};
    }
    AllPairs(olds, news, oldKey, newKey, done);
  }
}
